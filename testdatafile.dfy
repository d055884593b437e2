/** The data-file checker of TestDataFile.py: it preprocesses a score
    distribution read from a file and adds up the resulting probabilities,
    which come to 1 for a file written by Precompute.py.
 */
module TestDataFile {
  import opened Wrappers
  import opened Sums
  import opened Odds
  import Precompute

  /** The loop of `main` that adds up the probabilities. */
  method TotalOdds(data: Distribution) returns (totalOdds: real)
    ensures totalOdds == Mass(data)
  {
    totalOdds := 0.0;
    for i := 0 to |data|
      invariant totalOdds == Mass(data[..i])
    {
      assert data[..i + 1][..i] == data[..i];
      totalOdds := totalOdds + data[i].1;
    }
    assert data[..|data|] == data;
  }

  /** `main` without the file and argument handling.  Preprocessing is the
      same function as in CalculateOdds.py, so `PreprocessScoreDistribution`
      models both copies.  The printed total is the number of outcomes the
      file counts, as a fraction of `team_count ^ round_count`. */
  method CheckDataFile(scoreDistribution: Multiplicities, teamCount: int, roundCount: int)
    returns (r: Result<real>)
    ensures r.Err? <==> Preprocessed(scoreDistribution, teamCount, roundCount).Err?
    ensures r.Ok? ==> r.value == Mass(Preprocessed(scoreDistribution, teamCount, roundCount).value)
    ensures r.Ok? ==> r.value * OutcomeSpace(teamCount, roundCount).value == Count(scoreDistribution) as real
  {
    var data := PreprocessScoreDistribution(scoreDistribution, teamCount, roundCount);
    if data.Err? {
      return Err(data.error);
    }
    var totalOdds := TotalOdds(data.value);
    PreprocessMass(scoreDistribution, teamCount, roundCount);
    return Ok(totalOdds);
  }

  /** The JSON object `json.dump` writes for a dictionary, read back as its
      list of members: distinct scores, one member per entry, each with the
      entry's multiplicity. */
  predicate Serializes(m: Multiplicities, dict: map<int, int>)
  {
    |m| == |dict| &&
    (forall i, j :: 0 <= i < j < |m| ==> m[i].0 != m[j].0) &&
    (forall i :: 0 <= i < |m| ==> m[i].0 in dict && dict[m[i].0] == m[i].1)
  }

  /** The multiplicities of a written dictionary add up to its total. */
  lemma {:induction false} SerializedCount(m: Multiplicities, dict: map<int, int>)
    requires Serializes(m, dict)
    ensures Count(m) == Total(dict)
  {
    if |m| == 0 {
      assert dict == map[];
    } else {
      var n := |m| - 1;
      var k := m[n].0;
      var rest := dict - {k};
      CardRemove(dict, k);
      forall i | 0 <= i < n
        ensures m[..n][i].0 in rest && rest[m[..n][i].0] == m[..n][i].1
      {
        assert m[i].0 != k;
      }
      assert Serializes(m[..n], rest);
      SerializedCount(m[..n], rest);
      TotalRemove(dict, k);
    }
  }

  /** A data file written by Precompute.py for `rounds` rounds, checked
      with the league's 20 players and the same number of rounds, holds a
      probability distribution: the printed total is 1. */
  lemma PrecomputedFileTotalsOne(m: Multiplicities, rounds: nat)
    requires Serializes(m, Precompute.Distribution(rounds))
    ensures Preprocessed(m, Precompute.PLAYER_COUNT, rounds).Ok?
    ensures IsDistribution(Preprocessed(m, Precompute.PLAYER_COUNT, rounds).value)
  {
    var dict := Precompute.Distribution(rounds);
    SerializedCount(m, dict);
    Precompute.DistributionTotal(rounds);
    Precompute.DistributionNonnegative(rounds);
    assert NonNegativeCounts(m) by {
      forall i | 0 <= i < |m|
        ensures m[i].1 >= 0
      {
        assert m[i].0 in dict;
      }
    }
    PreprocessDistribution(m, Precompute.PLAYER_COUNT, rounds);
  }

}
