/** The odds engine of CalculateOdds.py.

    A distribution lists `(score, weight)` pairs in the order of the JSON
    object it was read from; a team list gives `(name, starting score)` pairs
    in input order, and teams are referred to by their position in it.
    Floating-point weights are modelled as exact reals.
 */
module Odds {
  import opened Wrappers
  import opened Combinatorics
  import opened BetterSets

  /** `score -> multiplicity`, as read from a data file. */
  type Multiplicities = seq<(int, int)>
  /** `score -> probability`. */
  type Distribution = seq<(int, real)>
  /** `team name -> starting score`, in input order. */
  type Teams = seq<(string, real)>

  function Count(m: Multiplicities): (r: int)
  {
    if |m| == 0 then 0 else Count(m[..|m| - 1]) + m[|m| - 1].1
  }

  function Mass(d: Distribution): (r: real)
  {
    if |d| == 0 then 0.0 else Mass(d[..|d| - 1]) + d[|d| - 1].1
  }

  predicate NonNegativeCounts(m: Multiplicities)
  {
    forall i :: 0 <= i < |m| ==> m[i].1 >= 0
  }

  predicate NonNegativeWeights(d: Distribution)
  {
    forall i :: 0 <= i < |d| ==> d[i].1 >= 0.0
  }

  /** A probability distribution: non-negative weights summing to 1. */
  predicate IsDistribution(d: Distribution)
  {
    NonNegativeWeights(d) && Mass(d) == 1.0
  }

  lemma {:induction false} MassNonnegative(d: Distribution)
    requires NonNegativeWeights(d)
    ensures Mass(d) >= 0.0
  {
    if |d| > 0 {
      MassNonnegative(d[..|d| - 1]);
    }
  }

  lemma {:induction false} MassPrefix(d: Distribution, n: nat)
    requires NonNegativeWeights(d) && n <= |d|
    ensures 0.0 <= Mass(d[..n]) <= Mass(d)
    decreases |d| - n
  {
    MassNonnegative(d[..n]);
    if n < |d| {
      MassPrefix(d, n + 1);
      assert d[..n + 1][..n] == d[..n];
    } else {
      assert d[..n] == d;
    }
  }

  /// Preprocessing: multiplicities to probabilities

  /** `pow(team_count, round_count)` as a number: an integer power for a
      non-negative exponent, its reciprocal for a negative one, and a
      division by zero for a zero base with a negative exponent. */
  function OutcomeSpace(teamCount: int, roundCount: int): (r: Result<real>)
    ensures roundCount >= 0 ==> r == Ok(Pow(teamCount, roundCount) as real)
    ensures r.Err? <==> roundCount < 0 && teamCount == 0
  {
    if roundCount >= 0 then Ok(Pow(teamCount, roundCount) as real)
    else if teamCount == 0 then Err(ZeroDivision)
    else
      PowNonzero(teamCount, -roundCount);
      Ok(1.0 / (Pow(teamCount, -roundCount) as real))
  }

  /** For a negative exponent the space is the reciprocal of the power. */
  lemma OutcomeSpaceReciprocal(teamCount: int, roundCount: int)
    requires roundCount < 0 && teamCount != 0
    ensures OutcomeSpace(teamCount, roundCount).Ok?
    ensures OutcomeSpace(teamCount, roundCount).value * (Pow(teamCount, -roundCount) as real) == 1.0
  {
    PowNonzero(teamCount, -roundCount);
    DivisionInverse(1.0, Pow(teamCount, -roundCount) as real);
  }

  lemma {:induction false} PowNonzero(b: int, e: nat)
    requires b != 0
    ensures Pow(b, e) != 0
  {
    if e > 0 {
      PowNonzero(b, e - 1);
      MulNonzero(b, Pow(b, e - 1));
    }
  }

  lemma MulNonzero(x: int, y: int)
    requires x != 0 && y != 0
    ensures x * y != 0
  {
  }

  lemma {:induction false} PowZeroBase(e: nat)
    requires e > 0
    ensures Pow(0, e) == 0
  {
  }

  /** With at least one team the outcome space is positive. */
  lemma OutcomeSpacePositive(teamCount: int, roundCount: int)
    requires teamCount >= 1
    ensures OutcomeSpace(teamCount, roundCount).Ok? && OutcomeSpace(teamCount, roundCount).value > 0.0
  {
    if roundCount >= 0 {
      PowPositive(teamCount, roundCount);
    } else {
      PowPositive(teamCount, -roundCount);
      QuotientPositive(1.0, Pow(teamCount, -roundCount) as real);
    }
  }

  lemma QuotientPositive(x: real, p: real)
    requires x > 0.0 && p > 0.0
    ensures x / p > 0.0
  {
  }

  /** Every multiplicity divided by `space`, keys unchanged. */
  function Divide(m: Multiplicities, space: real): (d: Distribution)
    requires space != 0.0
    ensures |d| == |m|
  {
    if |m| == 0 then [] else Divide(m[..|m| - 1], space) + [(m[|m| - 1].0, m[|m| - 1].1 as real / space)]
  }

  /** The result of `preprocess_score_distribution`: the error it raises,
      or the new distribution. */
  function Preprocessed(m: Multiplicities, teamCount: int, roundCount: int): (r: Result<Distribution>)
  {
    match OutcomeSpace(teamCount, roundCount)
    case Err(e) => Err(e)
    case Ok(space) =>
      if space == 0.0 then (if |m| == 0 then Ok([]) else Err(ZeroDivision))
      else Ok(Divide(m, space))
  }

  /** `preprocess_score_distribution`: fill a new distribution entry by
      entry with each multiplicity divided by the outcome space. */
  method PreprocessScoreDistribution(scoreDistribution: Multiplicities, teamCount: int, roundCount: int)
    returns (r: Result<Distribution>)
    ensures r == Preprocessed(scoreDistribution, teamCount, roundCount)
  {
    var outcomeSpace := OutcomeSpace(teamCount, roundCount);
    if outcomeSpace.Err? {
      return Err(outcomeSpace.error);
    }
    var space := outcomeSpace.value;
    var newDistribution: Distribution := [];
    for i := 0 to |scoreDistribution|
      invariant i == 0 ==> newDistribution == []
      invariant i > 0 ==> space != 0.0 && newDistribution == Divide(scoreDistribution[..i], space)
    {
      if space == 0.0 {
        return Err(ZeroDivision);
      }
      assert scoreDistribution[..i + 1][..i] == scoreDistribution[..i];
      var (score, multiplicity) := scoreDistribution[i];
      newDistribution := newDistribution + [(score, multiplicity as real / space)];
    }
    assert scoreDistribution[..|scoreDistribution|] == scoreDistribution;
    return Ok(newDistribution);
  }

  /** Preprocessing fails exactly when there is no team and either the
      exponent is negative or some multiplicity has to be divided by
      `0 ^ round_count == 0`. */
  lemma PreprocessErrors(m: Multiplicities, teamCount: int, roundCount: int)
    ensures Preprocessed(m, teamCount, roundCount).Err?
            <==> teamCount == 0 && (roundCount < 0 || (roundCount > 0 && |m| > 0))
  {
    if teamCount == 0 && roundCount > 0 {
      PowZeroBase(roundCount);
    }
    if teamCount != 0 && roundCount >= 0 {
      PowNonzero(teamCount, roundCount);
    }
    if teamCount != 0 && roundCount < 0 {
      OutcomeSpaceReciprocal(teamCount, roundCount);
    }
  }

  lemma {:induction false} DivideEntries(m: Multiplicities, space: real)
    requires space != 0.0
    ensures forall i :: 0 <= i < |m| ==> Divide(m, space)[i].0 == m[i].0 && Divide(m, space)[i].1 * space == m[i].1 as real
  {
    if |m| > 0 {
      DivideEntries(m[..|m| - 1], space);
      DivisionInverse(m[|m| - 1].1 as real, space);
    }
  }

  lemma DivisionInverse(x: real, space: real)
    requires space != 0.0
    ensures (x / space) * space == x
  {
  }

  /** Preprocessing keeps every score, in order, and gives each one its
      multiplicity divided by the outcome space. */
  lemma PreprocessEntries(m: Multiplicities, teamCount: int, roundCount: int)
    requires Preprocessed(m, teamCount, roundCount).Ok?
    ensures OutcomeSpace(teamCount, roundCount).Ok?
    ensures |Preprocessed(m, teamCount, roundCount).value| == |m|
    ensures forall i :: 0 <= i < |m| ==>
              Preprocessed(m, teamCount, roundCount).value[i].0 == m[i].0 &&
              Preprocessed(m, teamCount, roundCount).value[i].1 * OutcomeSpace(teamCount, roundCount).value == m[i].1 as real
  {
    var space := OutcomeSpace(teamCount, roundCount).value;
    if space != 0.0 {
      DivideEntries(m, space);
    }
  }

  /** The probabilities add up to the total multiplicity divided by the
      outcome space. */
  lemma PreprocessMass(m: Multiplicities, teamCount: int, roundCount: int)
    requires Preprocessed(m, teamCount, roundCount).Ok?
    ensures Mass(Preprocessed(m, teamCount, roundCount).value) * OutcomeSpace(teamCount, roundCount).value == Count(m) as real
  {
    var space := OutcomeSpace(teamCount, roundCount).value;
    var d := Preprocessed(m, teamCount, roundCount).value;
    assert (space != 0.0 && d == Divide(m, space)) || (space == 0.0 && |m| == 0 && d == []);
    PreprocessedMass(m, space, d);
  }

  lemma PreprocessedMass(m: Multiplicities, space: real, d: Distribution)
    requires (space != 0.0 && d == Divide(m, space)) || (space == 0.0 && |m| == 0 && d == [])
    ensures Mass(d) * space == Count(m) as real
  {
    if space != 0.0 {
      DivideMassScaled(m, space);
    }
  }

  lemma DivideMassScaled(m: Multiplicities, space: real)
    requires space != 0.0
    ensures Mass(Divide(m, space)) * space == Count(m) as real
  {
    DivideMassScales(m, space);
  }

  /** `x` is `a` scaled by `w`. */
  predicate IsScaled(x: real, a: real, w: real)
  {
    x == a * w
  }

  lemma {:induction false} DivideMassScales(m: Multiplicities, space: real)
    requires space != 0.0
    ensures IsScaled(Count(m) as real, Mass(Divide(m, space)), space)
  {
    if |m| > 0 {
      DivideMassScales(m[..|m| - 1], space);
      DivideMassLast(m, space);
      AddQuotient(Mass(Divide(m, space)), Mass(Divide(m[..|m| - 1], space)), m[|m| - 1].1 as real, space,
                  Count(m) as real, Count(m[..|m| - 1]) as real);
    }
  }

  lemma DivideMassLast(m: Multiplicities, space: real)
    requires space != 0.0 && |m| > 0
    ensures Mass(Divide(m, space)) == Mass(Divide(m[..|m| - 1], space)) + m[|m| - 1].1 as real / space
  {
    assert Divide(m, space)[..|m| - 1] == Divide(m[..|m| - 1], space);
  }

  /** Adding `x / space` to a mass adds `x` to its scaled value. */
  lemma AddQuotient(total: real, rest: real, x: real, space: real, count: real, restCount: real)
    requires space != 0.0 && total == rest + x / space && count == restCount + x
    requires IsScaled(restCount, rest, space)
    ensures IsScaled(count, total, space)
  {
  }

  /** Non-negative multiplicities and at least one team give non-negative
      probabilities. */
  lemma PreprocessNonnegative(m: Multiplicities, teamCount: int, roundCount: int)
    requires NonNegativeCounts(m) && teamCount >= 1
    ensures Preprocessed(m, teamCount, roundCount).Ok?
    ensures NonNegativeWeights(Preprocessed(m, teamCount, roundCount).value)
  {
    OutcomeSpacePositive(teamCount, roundCount);
    var space := OutcomeSpace(teamCount, roundCount).value;
    DivideNonnegative(m, space);
  }

  lemma {:induction false} DivideNonnegative(m: Multiplicities, space: real)
    requires NonNegativeCounts(m) && space > 0.0
    ensures NonNegativeWeights(Divide(m, space))
  {
    if |m| > 0 {
      DivideNonnegative(m[..|m| - 1], space);
      QuotientNonnegative(m[|m| - 1].1 as real, space);
    }
  }

  lemma QuotientNonnegative(x: real, space: real)
    requires x >= 0.0 && space > 0.0
    ensures x / space >= 0.0
  {
  }

  /** When the multiplicities add up to `team_count ^ round_count`, the
      result is a probability distribution. */
  lemma PreprocessDistribution(m: Multiplicities, teamCount: int, roundCount: nat)
    requires NonNegativeCounts(m) && teamCount >= 1
    requires Count(m) == Pow(teamCount, roundCount)
    ensures Preprocessed(m, teamCount, roundCount).Ok?
    ensures IsDistribution(Preprocessed(m, teamCount, roundCount).value)
  {
    PreprocessNonnegative(m, teamCount, roundCount);
    OutcomeSpacePositive(teamCount, roundCount);
    PreprocessMass(m, teamCount, roundCount);
    UnitMass(Preprocessed(m, teamCount, roundCount).value, OutcomeSpace(teamCount, roundCount).value, Count(m) as real);
  }

  lemma UnitMass(d: Distribution, space: real, c: real)
    requires space > 0.0 && Mass(d) * space == c && c == space
    ensures Mass(d) == 1.0
  {
    var x := Mass(d);
    assert (x - 1.0) * space == 0.0;
  }

  /// probability_team_greater

  /** Total weight of the scores `sc` with `base >= sc + otherStart`, in
      the order of the distribution. */
  function Greater(d: Distribution, base: real, otherStart: real): (r: real)
  {
    if |d| == 0 then 0.0
    else Greater(d[..|d| - 1], base, otherStart) + (if base >= d[|d| - 1].0 as real + otherStart then d[|d| - 1].1 else 0.0)
  }

  /** The probability that `team`, drawing `score`, finishes with at least
      the total of `otherTeam` (ties count). */
  function ProbabilityGreater(d: Distribution, teams: Teams, team: int, otherTeam: int, score: int): (r: real)
    requires 0 <= team < |teams| && 0 <= otherTeam < |teams|
  {
    Greater(d, score as real + teams[team].1, teams[otherTeam].1)
  }

  /** `probability_team_greater`. */
  method ProbabilityTeamGreater(team: int, otherTeam: int, score: int, scoreDistribution: Distribution, teamInput: Teams)
    returns (odds: real)
    requires 0 <= team < |teamInput| && 0 <= otherTeam < |teamInput|
    ensures odds == ProbabilityGreater(scoreDistribution, teamInput, team, otherTeam, score)
  {
    var baseScore := score as real + teamInput[team].1;
    odds := 0.0;
    for i := 0 to |scoreDistribution|
      invariant odds == Greater(scoreDistribution[..i], baseScore, teamInput[otherTeam].1)
    {
      assert scoreDistribution[..i + 1][..i] == scoreDistribution[..i];
      var otherScore := scoreDistribution[i].0 as real + teamInput[otherTeam].1;
      if baseScore >= otherScore {
        odds := odds + scoreDistribution[i].1;
      }
    }
    assert scoreDistribution[..|scoreDistribution|] == scoreDistribution;
  }

  lemma {:induction false} GreaterBounds(d: Distribution, base: real, otherStart: real)
    requires NonNegativeWeights(d)
    ensures 0.0 <= Greater(d, base, otherStart) <= Mass(d)
  {
    if |d| > 0 {
      GreaterBounds(d[..|d| - 1], base, otherStart);
    }
  }

  lemma {:induction false} GreaterMonotone(d: Distribution, base: real, base': real, otherStart: real, otherStart': real)
    requires NonNegativeWeights(d) && base <= base' && otherStart' <= otherStart
    ensures Greater(d, base, otherStart) <= Greater(d, base', otherStart')
  {
    if |d| > 0 {
      GreaterMonotone(d[..|d| - 1], base, base', otherStart, otherStart');
    }
  }

  /** Over a probability distribution the result is a probability. */
  lemma ProbabilityGreaterBounds(d: Distribution, teams: Teams, team: int, otherTeam: int, score: int)
    requires IsDistribution(d) && 0 <= team < |teams| && 0 <= otherTeam < |teams|
    ensures 0.0 <= ProbabilityGreater(d, teams, team, otherTeam, score) <= 1.0
  {
    GreaterBounds(d, score as real + teams[team].1, teams[otherTeam].1);
  }

  /** A higher draw, or a higher starting score for `team`, never lowers
      the probability; nor does a lower starting score for the other team. */
  lemma ProbabilityGreaterMonotone(d: Distribution, teams: Teams, teams': Teams, team: int, otherTeam: int, score: int, score': int)
    requires NonNegativeWeights(d) && |teams| == |teams'|
    requires 0 <= team < |teams| && 0 <= otherTeam < |teams| && team != otherTeam
    requires score <= score' && teams[team].1 <= teams'[team].1 && teams'[otherTeam].1 <= teams[otherTeam].1
    ensures ProbabilityGreater(d, teams, team, otherTeam, score) <= ProbabilityGreater(d, teams', team, otherTeam, score')
  {
    GreaterMonotone(d, score as real + teams[team].1, score' as real + teams'[team].1, teams[otherTeam].1, teams'[otherTeam].1);
  }

  /// compare_teams_at_score

  predicate ValidTeam(teams: Teams, team: int)
  {
    0 <= team < |teams|
  }

  /** The factor team `i` contributes at a draw of `score`: nothing for
      `team` itself, the chance that `i` beats `team` when `i` is one of
      the better teams, and the chance that `team` holds `i` otherwise. */
  function Factor(d: Distribution, teams: Teams, team: int, betterTeams: seq<int>, score: int, i: int): (r: real)
    requires ValidTeam(teams, team) && ValidTeam(teams, i)
  {
    if i == team then 1.0
    else if i in betterTeams then 1.0 - ProbabilityGreater(d, teams, team, i, score)
    else ProbabilityGreater(d, teams, team, i, score)
  }

  /** The product of the factors of teams `0 .. n - 1`. */
  function AtScorePrefix(d: Distribution, teams: Teams, team: int, betterTeams: seq<int>, score: int, n: nat): (r: real)
    requires ValidTeam(teams, team) && n <= |teams|
  {
    if n == 0 then 1.0
    else AtScorePrefix(d, teams, team, betterTeams, score, n - 1) * Factor(d, teams, team, betterTeams, score, n - 1)
  }

  function AtScore(d: Distribution, teams: Teams, team: int, betterTeams: seq<int>, score: int): (r: real)
    requires ValidTeam(teams, team)
  {
    AtScorePrefix(d, teams, team, betterTeams, score, |teams|)
  }

  /** `compare_teams_at_score`. */
  method CompareTeamsAtScore(team: int, betterTeams: seq<int>, score: int, scoreDistribution: Distribution, teamInput: Teams)
    returns (odds: real)
    requires ValidTeam(teamInput, team)
    ensures odds == AtScore(scoreDistribution, teamInput, team, betterTeams, score)
  {
    odds := 1.0;
    for i := 0 to |teamInput|
      invariant odds == AtScorePrefix(scoreDistribution, teamInput, team, betterTeams, score, i)
    {
      if i == team {
        continue;
      }
      if i in betterTeams {
        var p := ProbabilityTeamGreater(team, i, score, scoreDistribution, teamInput);
        odds := odds * (1.0 - p);
      } else {
        var p := ProbabilityTeamGreater(team, i, score, scoreDistribution, teamInput);
        odds := odds * p;
      }
    }
  }

  lemma UnitProduct(x: real, y: real)
    requires 0.0 <= x <= 1.0 && 0.0 <= y <= 1.0
    ensures 0.0 <= x * y <= 1.0
  {
    MulNonnegativeReal(x, y);
    MulNonnegativeReal(1.0 - x, y);
    assert y - x * y == (1.0 - x) * y;
  }

  lemma MulNonnegativeReal(a: real, b: real)
    requires a >= 0.0 && b >= 0.0
    ensures a * b >= 0.0
  {
  }

  lemma FactorBounds(d: Distribution, teams: Teams, team: int, betterTeams: seq<int>, score: int, i: int)
    requires IsDistribution(d) && ValidTeam(teams, team) && ValidTeam(teams, i)
    ensures 0.0 <= Factor(d, teams, team, betterTeams, score, i) <= 1.0
  {
    ProbabilityGreaterBounds(d, teams, team, i, score);
  }

  lemma {:induction false} AtScorePrefixBounds(d: Distribution, teams: Teams, team: int, betterTeams: seq<int>, score: int, n: nat)
    requires IsDistribution(d) && ValidTeam(teams, team) && n <= |teams|
    ensures 0.0 <= AtScorePrefix(d, teams, team, betterTeams, score, n) <= 1.0
  {
    if n > 0 {
      AtScorePrefixBounds(d, teams, team, betterTeams, score, n - 1);
      FactorBounds(d, teams, team, betterTeams, score, n - 1);
      UnitProduct(AtScorePrefix(d, teams, team, betterTeams, score, n - 1), Factor(d, teams, team, betterTeams, score, n - 1));
    }
  }

  /** Over a probability distribution, the chance of finishing behind
      exactly the better teams at a given draw is a probability. */
  lemma AtScoreBounds(d: Distribution, teams: Teams, team: int, betterTeams: seq<int>, score: int)
    requires IsDistribution(d) && ValidTeam(teams, team)
    ensures 0.0 <= AtScore(d, teams, team, betterTeams, score) <= 1.0
  {
    AtScorePrefixBounds(d, teams, team, betterTeams, score, |teams|);
  }

  /// compare_teams

  /** The expectation over the first `n` draws of the distribution. */
  function CompareSum(d: Distribution, teams: Teams, team: int, betterTeams: seq<int>, n: nat): (r: real)
    requires ValidTeam(teams, team) && n <= |d|
  {
    if n == 0 then 0.0
    else CompareSum(d, teams, team, betterTeams, n - 1) + Weighted(d, teams, team, betterTeams, n - 1)
  }

  /** The contribution of draw `k`: its chance times its weight. */
  function Weighted(d: Distribution, teams: Teams, team: int, betterTeams: seq<int>, k: nat): (r: real)
    requires ValidTeam(teams, team) && k < |d|
  {
    AtScore(d, teams, team, betterTeams, d[k].0) * d[k].1
  }

  /** The probability that `team` finishes behind exactly `betterTeams`. */
  function CompareProbability(d: Distribution, teams: Teams, team: int, betterTeams: seq<int>): (r: real)
    requires ValidTeam(teams, team)
  {
    CompareSum(d, teams, team, betterTeams, |d|)
  }

  /** `compare_teams`. */
  method CompareTeams(team: int, betterTeams: seq<int>, scoreDistribution: Distribution, teamInput: Teams)
    returns (odds: real)
    requires ValidTeam(teamInput, team)
    ensures odds == CompareProbability(scoreDistribution, teamInput, team, betterTeams)
  {
    odds := 0.0;
    for i := 0 to |scoreDistribution|
      invariant odds == CompareSum(scoreDistribution, teamInput, team, betterTeams, i)
    {
      var scoreOdds := CompareTeamsAtScore(team, betterTeams, scoreDistribution[i].0, scoreDistribution, teamInput);
      scoreOdds := scoreOdds * scoreDistribution[i].1;
      assert scoreOdds == Weighted(scoreDistribution, teamInput, team, betterTeams, i);
      odds := odds + scoreOdds;
    }
  }

  lemma WeightedBounds(d: Distribution, teams: Teams, team: int, betterTeams: seq<int>, k: nat)
    requires IsDistribution(d) && ValidTeam(teams, team) && k < |d|
    ensures 0.0 <= Weighted(d, teams, team, betterTeams, k) <= d[k].1
  {
    AtScoreBounds(d, teams, team, betterTeams, d[k].0);
    var a, w := AtScore(d, teams, team, betterTeams, d[k].0), d[k].1;
    assert 0.0 <= a * w;
    assert w - a * w == (1.0 - a) * w;
    assert 0.0 <= (1.0 - a) * w;
  }

  lemma {:induction false} CompareSumBounds(d: Distribution, teams: Teams, team: int, betterTeams: seq<int>, n: nat)
    requires IsDistribution(d) && ValidTeam(teams, team) && n <= |d|
    ensures 0.0 <= CompareSum(d, teams, team, betterTeams, n) <= Mass(d[..n])
  {
    if n > 0 {
      CompareSumBounds(d, teams, team, betterTeams, n - 1);
      WeightedBounds(d, teams, team, betterTeams, n - 1);
      assert d[..n][..n - 1] == d[..n - 1];
    }
  }

  /** Over a probability distribution, `compare_teams` is a probability. */
  lemma CompareProbabilityBounds(d: Distribution, teams: Teams, team: int, betterTeams: seq<int>)
    requires IsDistribution(d) && ValidTeam(teams, team)
    ensures 0.0 <= CompareProbability(d, teams, team, betterTeams) <= 1.0
  {
    CompareSumBounds(d, teams, team, betterTeams, |d|);
    assert d[..|d|] == d;
  }

  /// First, second and third place

  /** `compare_teams` summed over a list of better sets, in order. */
  function SumCompare(d: Distribution, teams: Teams, team: int, sets: seq<seq<int>>): (r: real)
    requires ValidTeam(teams, team)
  {
    if |sets| == 0 then 0.0
    else SumCompare(d, teams, team, sets[..|sets| - 1]) + CompareProbability(d, teams, team, sets[|sets| - 1])
  }

  lemma {:induction false} SumCompareAppend(d: Distribution, teams: Teams, team: int, a: seq<seq<int>>, b: seq<seq<int>>)
    requires ValidTeam(teams, team)
    ensures SumCompare(d, teams, team, a + b) == SumCompare(d, teams, team, a) + SumCompare(d, teams, team, b)
  {
    if |b| > 0 {
      SumCompareAppend(d, teams, team, a, b[..|b| - 1]);
      assert (a + b)[..|a + b| - 1] == a + b[..|b| - 1];
    } else {
      assert a + b == a;
    }
  }

  /** One more better set adds its `compare_teams` probability. */
  lemma SumCompareSnoc(d: Distribution, teams: Teams, team: int, sets: seq<seq<int>>, s: seq<int>)
    requires ValidTeam(teams, team)
    ensures SumCompare(d, teams, team, sets + [s]) == SumCompare(d, teams, team, sets) + CompareProbability(d, teams, team, s)
  {
    assert (sets + [s])[..|sets|] == sets;
  }

  lemma {:induction false} SumCompareBounds(d: Distribution, teams: Teams, team: int, sets: seq<seq<int>>)
    requires IsDistribution(d) && ValidTeam(teams, team)
    ensures 0.0 <= SumCompare(d, teams, team, sets) <= |sets| as real
  {
    if |sets| > 0 {
      SumCompareBounds(d, teams, team, sets[..|sets| - 1]);
      CompareProbabilityBounds(d, teams, team, sets[|sets| - 1]);
    }
  }

  function FirstOdds(d: Distribution, teams: Teams, team: int): (r: real)
    requires ValidTeam(teams, team)
  {
    CompareProbability(d, teams, team, [])
  }

  function SecondOdds(d: Distribution, teams: Teams, team: int): (r: real)
    requires ValidTeam(teams, team)
  {
    SumCompare(d, teams, team, SecondSets(team, |teams|))
  }

  function ThirdOdds(d: Distribution, teams: Teams, team: int): (r: real)
    requires ValidTeam(teams, team)
  {
    SumCompare(d, teams, team, ThirdSets(team, |teams|, |teams|))
  }

  /** `calculate_team_first_odds`: finishing behind nobody. */
  method CalculateTeamFirstOdds(team: int, scoreDistribution: Distribution, teamInput: Teams) returns (odds: real)
    requires ValidTeam(teamInput, team)
    ensures odds == FirstOdds(scoreDistribution, teamInput, team)
  {
    odds := CompareTeams(team, [], scoreDistribution, teamInput);
  }

  /** `calculate_team_second_odds`: finishing behind exactly one other team,
      summed over the other teams. */
  method CalculateTeamSecondOdds(team: int, scoreDistribution: Distribution, teamInput: Teams) returns (odds: real)
    requires ValidTeam(teamInput, team)
    ensures odds == SecondOdds(scoreDistribution, teamInput, team)
  {
    odds := 0.0;
    for team2 := 0 to |teamInput|
      invariant odds == SumCompare(scoreDistribution, teamInput, team, SecondSets(team, team2))
    {
      if team2 == team {
        assert SecondSets(team, team2 + 1) == SecondSets(team, team2);
        continue;
      }
      var c := CompareTeams(team, [team2], scoreDistribution, teamInput);
      assert SecondSets(team, team2 + 1) == SecondSets(team, team2) + [[team2]];
      SumCompareSnoc(scoreDistribution, teamInput, team, SecondSets(team, team2), [team2]);
      odds := odds + c;
    }
  }

  /** `calculate_team_third_odds`: finishing behind exactly two other teams,
      summed over the unordered pairs of other teams. */
  method CalculateTeamThirdOdds(team: int, scoreDistribution: Distribution, teamInput: Teams) returns (odds: real)
    requires ValidTeam(teamInput, team)
    ensures odds == ThirdOdds(scoreDistribution, teamInput, team)
  {
    odds := 0.0;
    for team2 := 0 to |teamInput|
      invariant odds == SumCompare(scoreDistribution, teamInput, team, ThirdSets(team, team2, |teamInput|))
    {
      ThirdSetsStep(scoreDistribution, teamInput, team, team2, |teamInput|);
      if team2 == team {
        continue;
      }
      var pairOdds := PairOdds(team, team2, scoreDistribution, teamInput);
      odds := odds + pairOdds;
    }
  }

  /** The inner loop of `calculate_team_third_odds` for one `team_2`: the
      odds summed over the partners `team_3 > team_2` other than `team`. */
  method PairOdds(team: int, team2: int, scoreDistribution: Distribution, teamInput: Teams) returns (odds: real)
    requires ValidTeam(teamInput, team)
    ensures odds == SumCompare(scoreDistribution, teamInput, team, PairsUpTo(team, team2, |teamInput|))
  {
    odds := 0.0;
    for team3 := 0 to |teamInput|
      invariant odds == SumCompare(scoreDistribution, teamInput, team, PairsUpTo(team, team2, team3))
    {
      PairsStep(scoreDistribution, teamInput, team, team2, team3);
      if team3 == team || team3 <= team2 {
        continue;
      }
      var c := CompareTeams(team, [team2, team3], scoreDistribution, teamInput);
      odds := odds + c;
    }
  }

  /** One step of the third-place driver's inner loop. */
  lemma PairsStep(d: Distribution, teams: Teams, team: int, team2: int, team3: int)
    requires ValidTeam(teams, team) && team3 >= 0
    ensures SumCompare(d, teams, team, PairsUpTo(team, team2, team3 + 1))
            == SumCompare(d, teams, team, PairsUpTo(team, team2, team3))
               + (if team3 == team || team3 <= team2 then 0.0 else CompareProbability(d, teams, team, [team2, team3]))
  {
    if !(team3 == team || team3 <= team2) {
      assert PairsUpTo(team, team2, team3 + 1) == PairsUpTo(team, team2, team3) + [[team2, team3]];
      SumCompareSnoc(d, teams, team, PairsUpTo(team, team2, team3), [team2, team3]);
    } else {
      assert PairsUpTo(team, team2, team3 + 1) == PairsUpTo(team, team2, team3);
    }
  }

  /** One step of the third-place driver's outer loop. */
  lemma ThirdSetsStep(d: Distribution, teams: Teams, team: int, team2: int, n: int)
    requires ValidTeam(teams, team) && team2 >= 0
    ensures SumCompare(d, teams, team, ThirdSets(team, team2 + 1, n))
            == SumCompare(d, teams, team, ThirdSets(team, team2, n))
               + (if team2 == team then 0.0 else SumCompare(d, teams, team, PairsUpTo(team, team2, n)))
  {
    if team2 != team {
      assert ThirdSets(team, team2 + 1, n) == ThirdSets(team, team2, n) + PairsUpTo(team, team2, n);
      SumCompareAppend(d, teams, team, ThirdSets(team, team2, n), PairsUpTo(team, team2, n));
    } else {
      assert ThirdSets(team, team2 + 1, n) == ThirdSets(team, team2, n);
    }
  }

  /** The first-place odds are a probability. */
  lemma FirstOddsBounds(d: Distribution, teams: Teams, team: int)
    requires IsDistribution(d) && ValidTeam(teams, team)
    ensures 0.0 <= FirstOdds(d, teams, team) <= 1.0
  {
    CompareProbabilityBounds(d, teams, team, []);
  }

  /// Per-team records

  /** The odds record of one team. */
  datatype OddsRecord = OddsRecord(first: real, second: real, third: real, podium: real)

  function TeamOdds(d: Distribution, teams: Teams, team: int): (r: OddsRecord)
    requires ValidTeam(teams, team)
  {
    var first := FirstOdds(d, teams, team);
    var second := SecondOdds(d, teams, team);
    var third := ThirdOdds(d, teams, team);
    OddsRecord(first, second, third, first + second + third)
  }

  /** `calculate_team_odds`: the three place odds and their sum. */
  method CalculateTeamOdds(team: int, scoreDistribution: Distribution, teamInput: Teams) returns (teamOdds: OddsRecord)
    requires ValidTeam(teamInput, team)
    ensures teamOdds == TeamOdds(scoreDistribution, teamInput, team)
    ensures teamOdds.podium == teamOdds.first + teamOdds.second + teamOdds.third
  {
    var first := CalculateTeamFirstOdds(team, scoreDistribution, teamInput);
    var second := CalculateTeamSecondOdds(team, scoreDistribution, teamInput);
    var third := CalculateTeamThirdOdds(team, scoreDistribution, teamInput);
    teamOdds := OddsRecord(first, second, third, first + second + third);
  }

  /** The output table: team name and odds record, in input order. */
  type Table = seq<(string, OddsRecord)>

  /** The table `calculate_winning_odds` produces. */
  function WinningOdds(d: Distribution, teams: Teams): (t: Table)
    ensures |t| == |teams|
  {
    seq(|teams|, i requires 0 <= i < |teams| => (teams[i].0, TeamOdds(d, teams, i)))
  }

  /** `calculate_winning_odds`: one record per team, under the team's
      name, in input order. */
  method CalculateWinningOdds(scoreDistribution: Distribution, teamInput: Teams)
    returns (teamOutput: Table)
    ensures |teamOutput| == |teamInput|
    ensures forall i :: 0 <= i < |teamInput| ==>
              teamOutput[i] == (teamInput[i].0, TeamOdds(scoreDistribution, teamInput, i))
    ensures teamOutput == WinningOdds(scoreDistribution, teamInput)
  {
    teamOutput := [];
    for team := 0 to |teamInput|
      invariant |teamOutput| == team
      invariant forall i :: 0 <= i < team ==> teamOutput[i] == (teamInput[i].0, TeamOdds(scoreDistribution, teamInput, i))
    {
      var odds := CalculateTeamOdds(team, scoreDistribution, teamInput);
      teamOutput := teamOutput + [(teamInput[team].0, odds)];
    }
  }

}
