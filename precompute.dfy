/** The score-distribution builder of Precompute.py.

    A placement vector `p` says, for each finishing position `i`, in how many
    rounds a team finished there.  Its score is the dot product with the
    points table `SCORING`, and its multiplicity is the number of round-by-
    round finishing sequences that produce it, a multinomial coefficient.
    The builder enumerates every placement vector of `PLAYER_COUNT` entries
    summing to the number of rounds and accumulates `score -> multiplicity`.
 */
module Precompute {
  import opened Combinatorics
  import opened Sums

  /** Marble Rally 2020: 20 finishing positions. */
  const PLAYER_COUNT: nat := 20
  const SCORING: seq<int> := [20, 17, 14, 12, 11, 10, 9, 8, 7, 6, 5, 4, 3, 2, 1, 0, 0, 0, 0, 0]

  /** The points table has one entry per finishing position, each between
      0 and the winner's 20 points. */
  lemma ScoringShape()
    ensures |SCORING| == PLAYER_COUNT
    ensures forall i :: 0 <= i < |SCORING| ==> 0 <= SCORING[i] <= 20
  {
    forall i | 0 <= i < |SCORING|
      ensures 0 <= SCORING[i] <= 20
    {
      assert i < 10 || i >= 10;
    }
  }

  /// Scores

  /** `SCORING[0] * p[0] + ... + SCORING[|p|-1] * p[|p|-1]`. */
  function ScoreOf(p: seq<int>): (r: int)
    requires |p| <= |SCORING|
  {
    if |p| == 0 then 0 else ScoreOf(p[..|p| - 1]) + SCORING[|p| - 1] * p[|p| - 1]
  }

  /** `calculate_score`: the accumulator loop over the positions. */
  method CalculateScore(placements: seq<int>) returns (score: int)
    requires |placements| <= |SCORING|
    ensures score == ScoreOf(placements)
  {
    score := 0;
    for i := 0 to |placements|
      invariant score == ScoreOf(placements[..i])
    {
      assert placements[..i + 1][..i] == placements[..i];
      score := score + SCORING[i] * placements[i];
    }
    assert placements[..|placements|] == placements;
  }

  /** A score lies between 0 and 20 points per round taken part in. */
  lemma {:induction false} ScoreBounds(p: seq<int>)
    requires |p| <= |SCORING| && NonNegative(p)
    ensures 0 <= ScoreOf(p) <= 20 * Sum(p)
  {
    if |p| > 0 {
      var q := p[..|p| - 1];
      ScoreBounds(q);
      ScoringShape();
      ScoreStep(SCORING[|p| - 1], p[|p| - 1]);
    }
  }

  lemma ScoreStep(s: int, x: int)
    requires 0 <= s <= 20 && x >= 0
    ensures 0 <= s * x <= 20 * x
  {
  }

  /// Multiplicities

  /** One division step of `calculate_multiplicity` is exact: once the
      first `i` factorials are divided out, what is left is divisible by
      the next one, and the quotient has that factor removed as well. */
  lemma MultiplicityStepExact(p: seq<int>, i: int)
    requires NonNegative(p) && 0 <= i < |p|
    ensures (Multinomial(p) * ProdFact(p[i..])) % Factorial(p[i]) == 0
    ensures (Multinomial(p) * ProdFact(p[i..])) / Factorial(p[i]) == Multinomial(p) * ProdFact(p[i + 1..])
  {
    assert p[i..][1..] == p[i + 1..];
    assert ProdFact(p[i..]) == Factorial(p[i]) * ProdFact(p[i + 1..]);
    ExactDivision(Multinomial(p), ProdFact(p[i + 1..]), Factorial(p[i]));
  }

  /** `a * (f * b)` is divisible by `f`, with quotient `a * b`. */
  lemma ExactDivision(a: int, b: int, f: int)
    requires f > 0
    ensures (a * (f * b)) % f == 0 && (a * (f * b)) / f == a * b
  {
    MulRearrange(a, b, f);
    DivMul(a * b, f);
  }

  lemma MulRearrange(a: int, b: int, f: int)
    ensures a * (f * b) == (a * b) * f
  {
  }

  lemma DivMul(q: int, f: int)
    requires f > 0
    ensures (q * f) % f == 0 && (q * f) / f == q
  {
    var d, r := (q * f) / f, (q * f) % f;
    assert q * f == d * f + r && 0 <= r < f;
    assert (q - d) * f == r;
    if q - d >= 1 {
      assert false;
    } else if q - d <= -1 {
      assert false;
    }
  }

  /** `calculate_multiplicity`: sum the entries, then divide `sum!` by each
      entry's factorial in turn.  The result is the multinomial coefficient. */
  method CalculateMultiplicity(placements: seq<int>) returns (multiplicity: int)
    requires NonNegative(placements)
    ensures multiplicity == Multinomial(placements)
    ensures multiplicity * ProdFact(placements) == Factorial(Sum(placements))
  {
    var sum := 0;
    for i := 0 to |placements|
      invariant sum == Sum(placements[..i])
    {
      assert placements[..i + 1][..i] == placements[..i];
      sum := sum + placements[i];
    }
    assert placements[..|placements|] == placements;

    MultinomialFactorials(placements);
    multiplicity := Factorial(sum);
    assert placements[0..] == placements;
    for i := 0 to |placements|
      invariant multiplicity == Multinomial(placements) * ProdFact(placements[i..])
    {
      MultiplicityStepExact(placements, i);
      multiplicity := multiplicity / Factorial(placements[i]);
    }
    assert placements[|placements|..] == [];
  }

  /// Enumeration of placement vectors

  /** `pre + c` for every `c` in `cs`, in order. */
  function Extend(pre: seq<int>, cs: seq<seq<int>>): (r: seq<seq<int>>)
    ensures |r| == |cs|
  {
    if |cs| == 0 then [] else [pre + cs[0]] + Extend(pre, cs[1..])
  }

  /** The placement vectors visited by `calculate_score_distribution` with
      `rounds` rounds and `placements` positions left to fill, in visiting
      order: the first entry runs over `0 .. rounds`. */
  function Compositions(rounds: int, placements: nat): (r: seq<seq<int>>)
    decreases placements, 1, 0
  {
    if placements == 0 then (if rounds == 0 then [[]] else [])
    else CompositionsFrom(rounds, placements, 0)
  }

  /** The part of `Compositions(rounds, placements)` whose first entry is at
      least `i`. */
  function CompositionsFrom(rounds: int, placements: nat, i: int): (r: seq<seq<int>>)
    requires placements >= 1
    decreases placements, 0, if i > rounds then 0 else rounds - i + 1
  {
    if i > rounds then []
    else Extend([i], Compositions(rounds - i, placements - 1)) + CompositionsFrom(rounds, placements, i + 1)
  }

  lemma {:induction false} ExtendAppend(pre: seq<int>, a: seq<seq<int>>, b: seq<seq<int>>)
    ensures Extend(pre, a + b) == Extend(pre, a) + Extend(pre, b)
  {
    if |a| > 0 {
      assert (a + b)[1..] == a[1..] + b;
      ExtendAppend(pre, a[1..], b);
    } else {
      assert a + b == b;
    }
  }

  lemma {:induction false} ExtendExtend(pre: seq<int>, q: seq<int>, cs: seq<seq<int>>)
    ensures Extend(pre, Extend(q, cs)) == Extend(pre + q, cs)
  {
    if |cs| > 0 {
      ExtendExtend(pre, q, cs[1..]);
      assert pre + (q + cs[0]) == pre + q + cs[0];
    }
  }

  lemma {:induction false} ExtendEmpty(cs: seq<seq<int>>)
    ensures Extend([], cs) == cs
  {
    if |cs| > 0 {
      ExtendEmpty(cs[1..]);
      assert [] + cs[0] == cs[0];
    }
  }

  lemma {:induction false} ExtendMember(pre: seq<int>, cs: seq<seq<int>>, v: seq<int>)
    ensures v in Extend(pre, cs) <==> exists c :: c in cs && v == pre + c
  {
    if |cs| > 0 {
      ExtendMember(pre, cs[1..], v);
      if v == pre + cs[0] {
        assert cs[0] in cs;
      }
      forall c | c in cs[1..]
        ensures c in cs
      {
      }
      if exists c :: c in cs && v == pre + c {
        var c :| c in cs && v == pre + c;
        if c != cs[0] {
          assert c in cs[1..];
        }
      }
    }
  }

  /** Every visited vector is a composition: `placements` non-negative
      entries summing to `rounds`. */
  lemma {:induction false} CompositionsSound(rounds: int, placements: nat, v: seq<int>)
    requires v in Compositions(rounds, placements)
    ensures |v| == placements && Sum(v) == rounds && NonNegative(v)
    decreases placements, 1, 0
  {
    if placements > 0 {
      CompositionsFromSound(rounds, placements, 0, v);
    }
  }

  lemma {:induction false} CompositionsFromSound(rounds: int, placements: nat, i: int, v: seq<int>)
    requires placements >= 1 && i >= 0
    requires v in CompositionsFrom(rounds, placements, i)
    ensures |v| == placements && Sum(v) == rounds && NonNegative(v) && i <= v[0]
    decreases placements, 0, if i > rounds then 0 else rounds - i + 1
  {
    var a := Extend([i], Compositions(rounds - i, placements - 1));
    var b := CompositionsFrom(rounds, placements, i + 1);
    assert CompositionsFrom(rounds, placements, i) == a + b;
    if v in a {
      ExtendMember([i], Compositions(rounds - i, placements - 1), v);
      var c :| c in Compositions(rounds - i, placements - 1) && v == [i] + c;
      CompositionsSound(rounds - i, placements - 1, c);
      assert v[1..] == c;
      SumFront(v);
    } else {
      CompositionsFromSound(rounds, placements, i + 1, v);
    }
  }

  /** Every composition is visited. */
  lemma {:induction false} CompositionsComplete(rounds: int, placements: nat, v: seq<int>)
    requires |v| == placements && Sum(v) == rounds && NonNegative(v)
    ensures v in Compositions(rounds, placements)
    decreases placements, 1, 0
  {
    if placements == 0 {
      assert v == [];
    } else {
      SumFront(v);
      SumNonnegative(v[1..]);
      CompositionsFromComplete(rounds, placements, 0, v);
    }
  }

  lemma {:induction false} CompositionsFromComplete(rounds: int, placements: nat, i: int, v: seq<int>)
    requires placements >= 1 && |v| == placements && Sum(v) == rounds && NonNegative(v)
    requires 0 <= i <= v[0]
    ensures v in CompositionsFrom(rounds, placements, i)
    decreases placements, 0, if i > rounds then 0 else rounds - i + 1
  {
    SumFront(v);
    SumNonnegative(v[1..]);
    var a := Extend([i], Compositions(rounds - i, placements - 1));
    var b := CompositionsFrom(rounds, placements, i + 1);
    assert CompositionsFrom(rounds, placements, i) == a + b;
    if v[0] == i {
      var c := v[1..];
      CompositionsComplete(rounds - i, placements - 1, c);
      assert v == [i] + c;
      ExtendMember([i], Compositions(rounds - i, placements - 1), v);
      assert v in a;
    } else {
      CompositionsFromComplete(rounds, placements, i + 1, v);
      assert v in b;
    }
  }

  /** With no rounds left the only vector is all zeros. */
  lemma {:induction false} CompositionsNoRounds(placements: nat)
    ensures Compositions(0, placements) == [Zeros(placements)]
  {
    if placements > 0 {
      CompositionsNoRounds(placements - 1);
      assert CompositionsFrom(0, placements, 1) == [];
      assert Extend([0], [Zeros(placements - 1)]) == [[0] + Zeros(placements - 1)];
    }
  }

  /// Accumulating into the distribution

  /** A vector that can reach the leaf: non-negative entries and no more
      positions than the points table. */
  predicate Leaf(v: seq<int>)
  {
    NonNegative(v) && |v| <= |SCORING|
  }

  predicate AllLeaves(vs: seq<seq<int>>)
  {
    forall j :: 0 <= j < |vs| ==> Leaf(vs[j])
  }

  /** The leaf's update of the dictionary: add `multiplicity` to the entry
      for `score`, creating it when missing. */
  function Add(d: map<int, int>, score: int, multiplicity: int): (r: map<int, int>)
    ensures r.Keys == d.Keys + {score}
    ensures r[score] == (if score in d then d[score] else 0) + multiplicity
    ensures forall k :: k in d && k != score ==> r[k] == d[k]
  {
    if score in d then d[score := d[score] + multiplicity] else d[score := multiplicity]
  }

  /** The dictionary after the leaf has run for each vector of `vs` in turn. */
  function AddAll(d: map<int, int>, vs: seq<seq<int>>): (r: map<int, int>)
    requires AllLeaves(vs)
    decreases |vs|
  {
    if |vs| == 0 then d
    else
      assert vs[0] in vs;
      AddAll(Add(d, ScoreOf(vs[0]), Multinomial(vs[0])), vs[1..])
  }

  lemma {:induction false} AddAllAppend(d: map<int, int>, a: seq<seq<int>>, b: seq<seq<int>>)
    requires AllLeaves(a) && AllLeaves(b)
    ensures AllLeaves(a + b)
    ensures AddAll(d, a + b) == AddAll(AddAll(d, a), b)
    decreases |a|
  {
    if |a| > 0 {
      assert a[0] in a;
      assert (a + b)[1..] == a[1..] + b;
      AddAllAppend(Add(d, ScoreOf(a[0]), Multinomial(a[0])), a[1..], b);
    } else {
      assert a + b == b;
    }
  }

  /** The vectors reached from `pre` with `rounds` rounds and `placements`
      positions left, known to be leaves. */
  function Leaves(pre: seq<int>, rounds: int, placements: nat): (vs: seq<seq<int>>)
    requires Leaf(pre) && |pre| + placements <= |SCORING|
    ensures AllLeaves(vs)
    ensures vs == Extend(pre, Compositions(rounds, placements))
    ensures forall v :: v in vs <==> Completes(pre, rounds, placements, v)
  {
    var cs := Compositions(rounds, placements);
    forall v | v in Extend(pre, cs)
      ensures Leaf(v)
    {
      ExtendMember(pre, cs, v);
      var c :| c in cs && v == pre + c;
      CompositionsSound(rounds, placements, c);
    }
    forall v
      ensures v in Extend(pre, cs) <==> Completes(pre, rounds, placements, v)
    {
      LeavesMember(pre, rounds, placements, v);
    }
    Extend(pre, cs)
  }

  /** `v` is `pre` followed by `placements` non-negative entries that add
      up to `rounds`: a valid placement vector below a call with prefix
      `pre`. */
  predicate Completes(pre: seq<int>, rounds: int, placements: nat, v: seq<int>)
  {
    |v| == |pre| + placements && v[..|pre|] == pre && NonNegative(v[|pre|..]) && Sum(v[|pre|..]) == rounds
  }

  lemma LeavesMember(pre: seq<int>, rounds: int, placements: nat, v: seq<int>)
    ensures v in Extend(pre, Compositions(rounds, placements)) <==> Completes(pre, rounds, placements, v)
  {
    var cs := Compositions(rounds, placements);
    ExtendMember(pre, cs, v);
    if v in Extend(pre, cs) {
      var c :| c in cs && v == pre + c;
      CompositionsSound(rounds, placements, c);
      assert v[..|pre|] == pre && v[|pre|..] == c;
    }
    if Completes(pre, rounds, placements, v) {
      CompositionsComplete(rounds, placements, v[|pre|..]);
      assert v == pre + v[|pre|..];
    }
  }

  function LeavesFrom(pre: seq<int>, rounds: int, placements: nat, i: int): (vs: seq<seq<int>>)
    requires Leaf(pre) && |pre| + placements <= |SCORING| && placements >= 1 && i >= 0
    ensures AllLeaves(vs)
    ensures vs == Extend(pre, CompositionsFrom(rounds, placements, i))
  {
    var cs := CompositionsFrom(rounds, placements, i);
    forall v | v in Extend(pre, cs)
      ensures Leaf(v)
    {
      ExtendMember(pre, cs, v);
      var c :| c in cs && v == pre + c;
      CompositionsFromSound(rounds, placements, i, c);
    }
    Extend(pre, cs)
  }

  /** The dictionary that `calculate_score_distribution` fills in place. */
  class ScoreDistribution {
    var counts: map<int, int>

    constructor ()
      ensures counts == map[]
    {
      counts := map[];
    }
  }

  /** The dictionary after `calculate_score_distribution(rounds, placements,
      current, d)`, following the recursion: a completed vector adds its
      multiplicity under its score, a dead end changes nothing, and
      otherwise every next entry `0 .. rounds` is tried in turn. */
  function Visit(d: map<int, int>, current: seq<int>, rounds: int, placements: nat): (r: map<int, int>)
    requires Leaf(current) && |current| + placements <= |SCORING|
    decreases placements, 1, 0
  {
    if rounds == 0 && placements == 0 then Add(d, ScoreOf(current), Multinomial(current))
    else if placements == 0 then d
    else VisitFrom(d, current, rounds, placements, 0)
  }

  /** The loop of the recursion from next entry `i` onwards. */
  function VisitFrom(d: map<int, int>, current: seq<int>, rounds: int, placements: nat, i: int): (r: map<int, int>)
    requires Leaf(current) && |current| + placements <= |SCORING| && placements >= 1 && i >= 0
    decreases placements, 0, if i > rounds then 0 else rounds - i + 1
  {
    if i > rounds then d
    else
      assert Leaf(current + [i]);
      VisitFrom(Visit(d, current + [i], rounds - i, placements - 1), current, rounds, placements, i + 1)
  }

  /** `calculate_score_distribution`: visit every completion of `current`
      by `placements` entries summing to `rounds`, and add each completed
      vector's multiplicity under its score. */
  method CalculateScoreDistribution(rounds: int, placements: nat, current: seq<int>, dist: ScoreDistribution)
    requires Leaf(current) && |current| + placements <= |SCORING|
    modifies dist
    ensures dist.counts == Visit(old(dist.counts), current, rounds, placements)
    decreases placements
  {
    if rounds == 0 && placements == 0 {
      var score := CalculateScore(current);
      var multiplicity := CalculateMultiplicity(current);
      if score in dist.counts {
        dist.counts := dist.counts[score := dist.counts[score] + multiplicity];
      } else {
        dist.counts := dist.counts[score := multiplicity];
      }
      return;
    }

    if placements == 0 {
      return;
    }

    var i := 0;
    while i <= rounds
      invariant i >= 0
      invariant VisitFrom(dist.counts, current, rounds, placements, i) == Visit(old(dist.counts), current, rounds, placements)
      decreases rounds - i
    {
      var newPlacements := current + [i];
      assert Leaf(newPlacements);
      CalculateScoreDistribution(rounds - i, placements - 1, newPlacements, dist);
      i := i + 1;
    }
  }

  /** The recursion adds exactly the vectors `Leaves` lists, in order. */
  lemma {:induction false} VisitLeaves(d: map<int, int>, current: seq<int>, rounds: int, placements: nat)
    requires Leaf(current) && |current| + placements <= |SCORING|
    ensures Visit(d, current, rounds, placements) == AddAll(d, Leaves(current, rounds, placements))
    decreases placements, 1, 0
  {
    if rounds == 0 && placements == 0 {
      assert current + [] == current;
      assert Leaves(current, rounds, placements) == [current];
    } else if placements == 0 {
      assert Leaves(current, rounds, placements) == [];
    } else {
      assert Leaves(current, rounds, placements) == LeavesFrom(current, rounds, placements, 0);
      VisitFromLeaves(d, current, rounds, placements, 0);
    }
  }

  lemma {:induction false} VisitFromLeaves(d: map<int, int>, current: seq<int>, rounds: int, placements: nat, i: int)
    requires Leaf(current) && |current| + placements <= |SCORING| && placements >= 1 && i >= 0
    ensures VisitFrom(d, current, rounds, placements, i) == AddAll(d, LeavesFrom(current, rounds, placements, i))
    decreases placements, 0, if i > rounds then 0 else rounds - i + 1
  {
    if i > rounds {
      assert LeavesFrom(current, rounds, placements, i) == [];
    } else {
      var next := current + [i];
      assert Leaf(next);
      var d' := Visit(d, next, rounds - i, placements - 1);
      assert d' == AddAll(d, Leaves(next, rounds - i, placements - 1)) by {
        VisitLeaves(d, next, rounds - i, placements - 1);
      }
      assert VisitFrom(d', current, rounds, placements, i + 1) == AddAll(d', LeavesFrom(current, rounds, placements, i + 1)) by {
        VisitFromLeaves(d', current, rounds, placements, i + 1);
      }
      VisitStep(d, d', current, next, rounds, placements, i);
    }
  }

  /** Visiting the vectors with first free entry `i` and then those with a
      larger one is visiting all those with first free entry at least `i`. */
  lemma VisitStep(d: map<int, int>, d': map<int, int>, pre: seq<int>, next: seq<int>, rounds: int, placements: nat, i: int)
    requires Leaf(pre) && |pre| + placements <= |SCORING| && placements >= 1 && 0 <= i <= rounds
    requires next == pre + [i] && Leaf(next)
    requires d' == AddAll(d, Leaves(next, rounds - i, placements - 1))
    ensures AddAll(d', LeavesFrom(pre, rounds, placements, i + 1)) == AddAll(d, LeavesFrom(pre, rounds, placements, i))
  {
    var cs := Compositions(rounds - i, placements - 1);
    ExtendAppend(pre, Extend([i], cs), CompositionsFrom(rounds, placements, i + 1));
    ExtendExtend(pre, [i], cs);
    AddAllAppend(d, Leaves(pre + [i], rounds - i, placements - 1), LeavesFrom(pre, rounds, placements, i + 1));
  }

  /** The distribution `create_data(rounds)` returns. */
  function Distribution(rounds: int): (r: map<int, int>)
  {
    assert Leaf([]);
    AddAll(map[], Leaves([], rounds, PLAYER_COUNT))
  }

  /** `create_data`: run the enumeration from an empty dictionary. */
  method CreateData(rounds: int) returns (scoreDistribution: map<int, int>)
    ensures scoreDistribution == Distribution(rounds)
  {
    var dist := new ScoreDistribution();
    assert Leaf([]);
    CalculateScoreDistribution(rounds, PLAYER_COUNT, [], dist);
    scoreDistribution := dist.counts;
    VisitLeaves(map[], [], rounds, PLAYER_COUNT);
  }

  /// Properties of the finished distribution

  predicate AllNonNegative(vs: seq<seq<int>>)
  {
    forall v :: v in vs ==> NonNegative(v)
  }

  /** Sum of the multiplicities of the vectors in `vs`. */
  function SumMult(vs: seq<seq<int>>): (r: int)
    requires AllNonNegative(vs)
  {
    if |vs| == 0 then 0
    else
      assert vs[0] in vs;
      Multinomial(vs[0]) + SumMult(vs[1..])
  }

  lemma {:induction false} SumMultAppend(a: seq<seq<int>>, b: seq<seq<int>>)
    requires AllNonNegative(a) && AllNonNegative(b)
    ensures AllNonNegative(a + b) && SumMult(a + b) == SumMult(a) + SumMult(b)
  {
    if |a| > 0 {
      assert (a + b)[1..] == a[1..] + b;
      SumMultAppend(a[1..], b);
    } else {
      assert a + b == b;
    }
  }

  /** Prefixing the entry `j` to vectors that sum to `rounds - j` multiplies
      each multiplicity by `C(rounds, j)`. */
  lemma {:induction false} SumMultPrefix(j: int, rounds: int, cs: seq<seq<int>>)
    requires 0 <= j <= rounds
    requires forall c :: c in cs ==> NonNegative(c) && Sum(c) == rounds - j
    ensures AllNonNegative(cs) && AllNonNegative(Extend([j], cs))
    ensures SumMult(Extend([j], cs)) == Binom(rounds, j) * SumMult(cs)
  {
    if |cs| > 0 {
      var c := cs[0];
      assert c in cs;
      var v := [j] + c;
      assert v[1..] == c;
      assert Multinomial(v) == Binom(rounds, j) * Multinomial(c);
      SumMultPrefix(j, rounds, cs[1..]);
      assert Extend([j], cs)[1..] == Extend([j], cs[1..]);
      assert AllNonNegative(Extend([j], cs)) by {
        forall w | w in Extend([j], cs)
          ensures NonNegative(w)
        {
          if w != v {
            assert w in Extend([j], cs[1..]);
          }
        }
      }
      PrefixArith(Binom(rounds, j), Multinomial(c), SumMult(cs[1..]));
    }
  }

  lemma PrefixArith(b: int, m: int, s: int)
    ensures b * m + b * s == b * (m + s)
  {
  }

  lemma CompositionsNonNegative(rounds: int, placements: nat)
    ensures AllNonNegative(Compositions(rounds, placements))
  {
    forall v | v in Compositions(rounds, placements)
      ensures NonNegative(v)
    {
      CompositionsSound(rounds, placements, v);
    }
  }

  /** The multinomial theorem: the multiplicities of all compositions of
      `rounds` into `placements` parts add up to `placements ^ rounds`, the
      number of ways to choose a finishing position in every round. */
  lemma {:induction false} MultinomialTheorem(rounds: nat, placements: nat)
    ensures AllNonNegative(Compositions(rounds, placements))
    ensures SumMult(Compositions(rounds, placements)) == Pow(placements, rounds)
    decreases placements, 1, 0
  {
    CompositionsNonNegative(rounds, placements);
    if placements == 0 {
      if rounds == 0 {
        assert Compositions(rounds, placements) == [[]];
        assert SumMult([[]]) == Multinomial([]);
      }
    } else {
      MultinomialTheoremFrom(rounds, placements, 0);
      BinomialTheorem(rounds, placements - 1);
    }
  }

  lemma {:induction false} MultinomialTheoremFrom(rounds: nat, placements: nat, i: nat)
    requires placements >= 1
    ensures AllNonNegative(CompositionsFrom(rounds, placements, i))
    ensures SumMult(CompositionsFrom(rounds, placements, i)) == BinomSuffix(rounds, placements - 1, i)
    decreases placements, 0, if i > rounds then 0 else rounds - i + 1
  {
    if i <= rounds {
      var cs := Compositions(rounds - i, placements - 1);
      MultinomialTheorem(rounds - i, placements - 1);
      MultinomialTheoremFrom(rounds, placements, i + 1);
      forall c | c in cs
        ensures NonNegative(c) && Sum(c) == rounds - i
      {
        CompositionsSound(rounds - i, placements - 1, c);
      }
      SumMultPrefix(i, rounds, cs);
      SumMultAppend(Extend([i], cs), CompositionsFrom(rounds, placements, i + 1));
    }
  }

  /** Running the leaf for each vector adds their multiplicities to the
      dictionary's total. */
  lemma {:induction false} AddAllTotal(d: map<int, int>, vs: seq<seq<int>>)
    requires AllLeaves(vs)
    ensures AllNonNegative(vs)
    ensures Total(AddAll(d, vs)) == Total(d) + SumMult(vs)
    decreases |vs|
  {
    if |vs| > 0 {
      assert vs[0] in vs;
      var d' := Add(d, ScoreOf(vs[0]), Multinomial(vs[0]));
      TotalUpdate(d, ScoreOf(vs[0]), (if ScoreOf(vs[0]) in d then d[ScoreOf(vs[0])] else 0) + Multinomial(vs[0]));
      AddAllTotal(d', vs[1..]);
    }
  }

  /** The leaf never removes a score and never lowers a multiplicity. */
  lemma {:induction false} AddAllMonotone(d: map<int, int>, vs: seq<seq<int>>, k: int)
    requires AllLeaves(vs) && k in d
    ensures k in AddAll(d, vs) && AddAll(d, vs)[k] >= d[k]
    decreases |vs|
  {
    if |vs| > 0 {
      assert vs[0] in vs;
      MultinomialNonnegative(vs[0]);
      AddAllMonotone(Add(d, ScoreOf(vs[0]), Multinomial(vs[0])), vs[1..], k);
    }
  }

  /** Starting from non-negative multiplicities, every multiplicity stays
      non-negative. */
  lemma {:induction false} AddAllNonnegative(d: map<int, int>, vs: seq<seq<int>>)
    requires AllLeaves(vs)
    requires forall k :: k in d ==> d[k] >= 0
    ensures forall k :: k in AddAll(d, vs) ==> AddAll(d, vs)[k] >= 0
    decreases |vs|
  {
    if |vs| > 0 {
      assert vs[0] in vs;
      MultinomialNonnegative(vs[0]);
      AddAllNonnegative(Add(d, ScoreOf(vs[0]), Multinomial(vs[0])), vs[1..]);
    }
  }

  /** Every multiplicity `create_data` records is non-negative. */
  lemma DistributionNonnegative(rounds: int)
    ensures forall k :: k in Distribution(rounds) ==> Distribution(rounds)[k] >= 0
  {
    assert Leaf([]);
    AddAllNonnegative(map[], Leaves([], rounds, PLAYER_COUNT));
  }

  /** A score is in the dictionary afterwards exactly when it was before or
      it is the score of one of the vectors. */
  lemma {:induction false} AddAllKeys(d: map<int, int>, vs: seq<seq<int>>, k: int)
    requires AllLeaves(vs)
    ensures k in AddAll(d, vs) <==> k in d || exists v :: v in vs && Leaf(v) && ScoreOf(v) == k
    decreases |vs|
  {
    if |vs| > 0 {
      assert vs[0] in vs;
      AddAllKeys(Add(d, ScoreOf(vs[0]), Multinomial(vs[0])), vs[1..], k);
      forall v | v in vs[1..]
        ensures v in vs
      {
      }
      if exists v :: v in vs && Leaf(v) && ScoreOf(v) == k {
        var v :| v in vs && Leaf(v) && ScoreOf(v) == k;
        if v != vs[0] {
          assert v in vs[1..];
        }
      }
    }
  }

  /** `create_data(rounds)` has multiplicities summing to `20 ^ rounds`, the
      size of the outcome space. */
  lemma DistributionTotal(rounds: nat)
    ensures Total(Distribution(rounds)) == Pow(PLAYER_COUNT, rounds)
  {
    var vs := Leaves([], rounds, PLAYER_COUNT);
    ExtendEmpty(Compositions(rounds, PLAYER_COUNT));
    AddAllTotal(map[], vs);
    MultinomialTheorem(rounds, PLAYER_COUNT);
  }

  /** `create_data(0)` is `{0: 1}`. */
  lemma DistributionNoRounds()
    ensures Distribution(0) == map[0 := 1]
  {
    CompositionsNoRounds(PLAYER_COUNT);
    ExtendEmpty(Compositions(0, PLAYER_COUNT));
    var z := Zeros(PLAYER_COUNT);
    MultinomialZeros(PLAYER_COUNT);
    ZerosScore(PLAYER_COUNT);
    assert Leaves([], 0, PLAYER_COUNT) == [z];
  }

  lemma {:induction false} ZerosScore(n: nat)
    requires n <= |SCORING|
    ensures ScoreOf(Zeros(n)) == 0
  {
    if n > 0 {
      ZerosScore(n - 1);
      ZerosPrefix(n);
    }
  }

  lemma {:induction false} ZerosPrefix(n: nat)
    requires n > 0
    ensures Zeros(n)[..n - 1] == Zeros(n - 1) && Zeros(n)[n - 1] == 0
  {
    if n > 1 {
      ZerosPrefix(n - 1);
      assert Zeros(n)[1..] == Zeros(n - 1);
    }
  }

  /** A negative number of rounds has no completions: the result is empty. */
  lemma DistributionNegativeRounds(rounds: int)
    requires rounds < 0
    ensures Distribution(rounds) == map[]
  {
    assert CompositionsFrom(rounds, PLAYER_COUNT, 0) == [];
  }

  /** Every score in `create_data(rounds)` lies between 0 and `20 * rounds`. */
  lemma DistributionScores(rounds: int, k: int)
    requires k in Distribution(rounds)
    ensures 0 <= k <= 20 * rounds
  {
    var vs := Leaves([], rounds, PLAYER_COUNT);
    ExtendEmpty(Compositions(rounds, PLAYER_COUNT));
    AddAllKeys(map[], vs, k);
    var v :| v in vs && Leaf(v) && ScoreOf(v) == k;
    CompositionsSound(rounds, PLAYER_COUNT, v);
    ScoreBounds(v);
  }

}
