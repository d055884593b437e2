/** The post-processing of the odds table in CalculateOdds.py:
    `normalize_odds`, which rescales each place column to total 1, and the
    podium recomputation of `round_odds`.
 */
module Presentation {
  import opened Wrappers
  import opened Odds
  import opened BetterSets

  /** The columns of the odds table. */
  datatype Column = First | Second | Third | Podium

  function Field(r: OddsRecord, c: Column): (x: real)
  {
    match c
    case First => r.first
    case Second => r.second
    case Third => r.third
    case Podium => r.podium
  }

  /** The total of one column over the table. */
  function ColumnSum(rows: Table, c: Column): (r: real)
  {
    if |rows| == 0 then 0.0 else ColumnSum(rows[..|rows| - 1], c) + Field(rows[|rows| - 1].1, c)
  }

  /** One record with its place odds divided by the column totals. */
  function ScaleRecord(r: OddsRecord, firstSum: real, secondSum: real, thirdSum: real): (s: OddsRecord)
    requires firstSum != 0.0 && secondSum != 0.0 && thirdSum != 0.0
  {
    r.(first := r.first / firstSum, second := r.second / secondSum, third := r.third / thirdSum)
  }

  function Scale(rows: Table, firstSum: real, secondSum: real, thirdSum: real): (t: Table)
    requires firstSum != 0.0 && secondSum != 0.0 && thirdSum != 0.0
    ensures |t| == |rows|
    ensures forall i :: 0 <= i < |rows| ==> t[i] == (rows[i].0, ScaleRecord(rows[i].1, firstSum, secondSum, thirdSum))
  {
    seq(|rows|, i requires 0 <= i < |rows| => (rows[i].0, ScaleRecord(rows[i].1, firstSum, secondSum, thirdSum)))
  }

  /** The result of `normalize_odds`: the division by zero it raises when a
      place column of a non-empty table totals 0, or the rescaled table. */
  function Normalize(rows: Table): (r: Result<Table>)
  {
    var firstSum, secondSum, thirdSum := ColumnSum(rows, First), ColumnSum(rows, Second), ColumnSum(rows, Third);
    if |rows| == 0 then Ok(rows)
    else if firstSum == 0.0 || secondSum == 0.0 || thirdSum == 0.0 then Err(ZeroDivision)
    else Ok(Scale(rows, firstSum, secondSum, thirdSum))
  }

  /** The podium field recomputed from the three place fields. */
  function WithPodium(rows: Table): (t: Table)
    ensures |t| == |rows|
    ensures forall i :: 0 <= i < |rows| ==>
              t[i] == (rows[i].0, rows[i].1.(podium := rows[i].1.first + rows[i].1.second + rows[i].1.third))
  {
    seq(|rows|, i requires 0 <= i < |rows| =>
      (rows[i].0, rows[i].1.(podium := rows[i].1.first + rows[i].1.second + rows[i].1.third)))
  }

  /** The table of odds records that the two passes update in place. */
  class OddsTable {
    var rows: Table

    constructor (rows: Table)
      ensures this.rows == rows
    {
      this.rows := rows;
    }

    /** `normalize_odds`: total each place column, then divide every
        record's place odds by the totals.  The totals are checked before
        any record changes, so a division by zero leaves the table as it
        was. */
    method NormalizeOdds() returns (r: Result<Table>)
      modifies this
      ensures r == Normalize(old(rows))
      ensures r.Ok? ==> rows == r.value
      ensures r.Err? ==> rows == old(rows)
    {
      var firstSum, secondSum, thirdSum := 0.0, 0.0, 0.0;
      for i := 0 to |rows|
        invariant rows == old(rows)
        invariant firstSum == ColumnSum(rows[..i], First)
        invariant secondSum == ColumnSum(rows[..i], Second)
        invariant thirdSum == ColumnSum(rows[..i], Third)
      {
        assert rows[..i + 1][..i] == rows[..i];
        firstSum := firstSum + rows[i].1.first;
        secondSum := secondSum + rows[i].1.second;
        thirdSum := thirdSum + rows[i].1.third;
      }
      assert rows[..|rows|] == rows;

      if |rows| == 0 {
        return Ok(rows);
      }
      if firstSum == 0.0 || secondSum == 0.0 || thirdSum == 0.0 {
        return Err(ZeroDivision);
      }
      for i := 0 to |rows|
        invariant |rows| == |old(rows)|
        invariant forall k :: 0 <= k < i ==>
                    rows[k] == (old(rows)[k].0, ScaleRecord(old(rows)[k].1, firstSum, secondSum, thirdSum))
        invariant forall k :: i <= k < |rows| ==> rows[k] == old(rows)[k]
      {
        var record := rows[i].1;
        record := record.(first := record.first / firstSum);
        record := record.(second := record.second / secondSum);
        record := record.(third := record.third / thirdSum);
        rows := rows[i := (rows[i].0, record)];
      }
      assert rows == Scale(old(rows), firstSum, secondSum, thirdSum);
      r := Ok(rows);
    }

    /** The podium recomputation of `round_odds`; the rounding of the place
        odds to four decimals is not modelled. */
    method RoundOdds()
      modifies this
      ensures rows == WithPodium(old(rows))
    {
      for i := 0 to |rows|
        invariant |rows| == |old(rows)|
        invariant forall k :: 0 <= k < i ==>
                    rows[k] == (old(rows)[k].0, old(rows)[k].1.(podium := old(rows)[k].1.first + old(rows)[k].1.second + old(rows)[k].1.third))
        invariant forall k :: i <= k < |rows| ==> rows[k] == old(rows)[k]
      {
        var record := rows[i].1;
        var podium := record.first + record.second + record.third;
        rows := rows[i := (rows[i].0, record.(podium := podium))];
      }
    }
  }

  /// Properties

  /** Normalisation fails exactly when the table is non-empty and one of
      the place columns totals 0. */
  lemma NormalizeErrors(rows: Table)
    ensures Normalize(rows).Err? <==>
              |rows| > 0 && (ColumnSum(rows, First) == 0.0 || ColumnSum(rows, Second) == 0.0 || ColumnSum(rows, Third) == 0.0)
  {
  }

  /** Dividing a column by `s` divides its total by `s`. */
  lemma {:induction false} ScaledColumn(rows: Table, s1: real, s2: real, s3: real, c: Column, s: real)
    requires s1 != 0.0 && s2 != 0.0 && s3 != 0.0
    requires (c == First && s == s1) || (c == Second && s == s2) || (c == Third && s == s3)
    ensures ColumnSum(Scale(rows, s1, s2, s3), c) * s == ColumnSum(rows, c)
  {
    if |rows| > 0 {
      var n := |rows| - 1;
      ScaledColumn(rows[..n], s1, s2, s3, c, s);
      assert Scale(rows, s1, s2, s3)[..n] == Scale(rows[..n], s1, s2, s3);
      var a, x := ColumnSum(Scale(rows[..n], s1, s2, s3), c), Field(rows[n].1, c);
      assert Field(Scale(rows, s1, s2, s3)[n].1, c) == x / s;
      assert (a + x / s) * s == a * s + (x / s) * s;
    }
  }

  lemma UnitColumn(x: real, s: real)
    requires s != 0.0 && x * s == s
    ensures x == 1.0
  {
    assert (x - 1.0) * s == 0.0;
  }

  /** After normalisation each place column totals 1. */
  lemma NormalizeColumnsSumToOne(rows: Table)
    requires Normalize(rows).Ok? && |rows| > 0
    ensures ColumnSum(Normalize(rows).value, First) == 1.0
    ensures ColumnSum(Normalize(rows).value, Second) == 1.0
    ensures ColumnSum(Normalize(rows).value, Third) == 1.0
  {
    var s1, s2, s3 := ColumnSum(rows, First), ColumnSum(rows, Second), ColumnSum(rows, Third);
    var t := Scale(rows, s1, s2, s3);
    ScaledColumn(rows, s1, s2, s3, First, s1);
    ScaledColumn(rows, s1, s2, s3, Second, s2);
    ScaledColumn(rows, s1, s2, s3, Third, s3);
    UnitColumn(ColumnSum(t, First), s1);
    UnitColumn(ColumnSum(t, Second), s2);
    UnitColumn(ColumnSum(t, Third), s3);
  }

  /** Normalisation keeps names, order and podium, and divides every place
      entry by its column's old total, so ratios within a column are kept. */
  lemma NormalizeRatios(rows: Table, i: int, j: int)
    requires Normalize(rows).Ok? && 0 <= i < |rows| && 0 <= j < |rows|
    ensures |Normalize(rows).value| == |rows|
    ensures Normalize(rows).value[i].0 == rows[i].0 && Normalize(rows).value[i].1.podium == rows[i].1.podium
    ensures Normalize(rows).value[i].1.first * rows[j].1.first == Normalize(rows).value[j].1.first * rows[i].1.first
    ensures Normalize(rows).value[i].1.second * rows[j].1.second == Normalize(rows).value[j].1.second * rows[i].1.second
    ensures Normalize(rows).value[i].1.third * rows[j].1.third == Normalize(rows).value[j].1.third * rows[i].1.third
  {
    var s1, s2, s3 := ColumnSum(rows, First), ColumnSum(rows, Second), ColumnSum(rows, Third);
    var t := Normalize(rows).value;
    assert t[i].1.first == rows[i].1.first / s1 && t[j].1.first == rows[j].1.first / s1;
    assert t[i].1.second == rows[i].1.second / s2 && t[j].1.second == rows[j].1.second / s2;
    assert t[i].1.third == rows[i].1.third / s3 && t[j].1.third == rows[j].1.third / s3;
    CrossRatio(rows[i].1.first, rows[j].1.first, s1);
    CrossRatio(rows[i].1.second, rows[j].1.second, s2);
    CrossRatio(rows[i].1.third, rows[j].1.third, s3);
  }

  lemma CrossRatio(x: real, y: real, s: real)
    requires s != 0.0
    ensures (x / s) * y == (y / s) * x
  {
  }

  lemma {:induction false} PodiumColumn(rows: Table)
    ensures ColumnSum(WithPodium(rows), Podium)
            == ColumnSum(rows, First) + ColumnSum(rows, Second) + ColumnSum(rows, Third)
  {
    if |rows| > 0 {
      var n := |rows| - 1;
      PodiumColumn(rows[..n]);
      assert WithPodium(rows)[..n] == WithPodium(rows[..n]);
    }
  }

  /** Once the table is normalised and the podium recomputed, the podium
      column totals 3: one each for first, second and third place. */
  lemma PodiumTotalsThree(rows: Table)
    requires Normalize(rows).Ok? && |rows| > 0
    ensures ColumnSum(WithPodium(Normalize(rows).value), Podium) == 3.0
  {
    NormalizeColumnsSumToOne(rows);
    PodiumColumn(Normalize(rows).value);
  }

  lemma {:induction false} ZeroThirdColumn(rows: Table)
    requires forall i :: 0 <= i < |rows| ==> rows[i].1.third == 0.0
    ensures ColumnSum(rows, Third) == 0.0
  {
    if |rows| > 0 {
      ZeroThirdColumn(rows[..|rows| - 1]);
    }
  }

  /** With one or two teams nobody can finish third behind two others, the
      third column totals 0, and `normalize_odds` divides by zero. */
  lemma FewTeamsNormalizeFails(d: Distribution, teams: Teams)
    requires 1 <= |teams| < 3
    ensures Normalize(WinningOdds(d, teams)).Err?
  {
    var table := WinningOdds(d, teams);
    forall i | 0 <= i < |teams|
      ensures table[i].1.third == 0.0
    {
      FewTeamsNoPairs(i, |teams|);
    }
    ZeroThirdColumn(table);
  }

  /// The program's pipeline

  /** What `main` writes, from the parsed score distribution, the parsed
      team list and the round count: the first division by zero met, or the
      normalised table with podium odds recomputed. */
  function Outcome(scoreDistribution: Multiplicities, teamInput: Teams, roundCount: int): (r: Result<Table>)
  {
    match Preprocessed(scoreDistribution, |teamInput|, roundCount)
    case Err(e) => Err(e)
    case Ok(d) =>
      match Normalize(WinningOdds(d, teamInput))
      case Err(e) => Err(e)
      case Ok(t) => Ok(WithPodium(t))
  }

  /** `main` without the file and argument handling: preprocess with the
      number of teams, compute the odds, normalise and recompute podiums. */
  method CalculateOdds(scoreDistribution: Multiplicities, teamInput: Teams, roundCount: int)
    returns (r: Result<Table>)
    ensures r == Outcome(scoreDistribution, teamInput, roundCount)
  {
    var teamCount := |teamInput|;
    var distribution := PreprocessScoreDistribution(scoreDistribution, teamCount, roundCount);
    if distribution.Err? {
      return Err(distribution.error);
    }
    var teamOutput := CalculateWinningOdds(distribution.value, teamInput);
    var table := new OddsTable(teamOutput);
    var normalized := table.NormalizeOdds();
    if normalized.Err? {
      return Err(normalized.error);
    }
    table.RoundOdds();
    return Ok(table.rows);
  }

  /** With one or two teams the program divides by zero, whatever the
      data file and the round count. */
  lemma OutcomeFewTeams(scoreDistribution: Multiplicities, teamInput: Teams, roundCount: int)
    requires 1 <= |teamInput| < 3
    ensures Outcome(scoreDistribution, teamInput, roundCount).Err?
  {
    PreprocessErrors(scoreDistribution, |teamInput|, roundCount);
    FewTeamsNormalizeFails(Preprocessed(scoreDistribution, |teamInput|, roundCount).value, teamInput);
  }

  /** Whenever the program succeeds on at least one team, the podium
      column of its output totals 3. */
  lemma OutcomePodium(scoreDistribution: Multiplicities, teamInput: Teams, roundCount: int)
    ensures var r := Outcome(scoreDistribution, teamInput, roundCount);
      r.Ok? && |teamInput| > 0 ==> |r.value| == |teamInput| && ColumnSum(r.value, Podium) == 3.0
  {
    var r := Outcome(scoreDistribution, teamInput, roundCount);
    if r.Ok? && |teamInput| > 0 {
      var d := Preprocessed(scoreDistribution, |teamInput|, roundCount).value;
      PodiumTotalsThree(WinningOdds(d, teamInput));
    }
  }

}
