/** The place odds of CalculateOdds.py are probabilities.

    Fix a draw for `team` and write `p(i)` for the chance that `team` holds
    team `i` at that draw. The at-score product of a better set is the
    chance that exactly the teams of that set finish ahead of `team`, so the
    products for no team, for every single team and for every pair add up to
    the chance that at most two teams finish ahead: at most 1. The proof adds
    the teams one at a time, as the prefix products of `AtScorePrefix` do.
    It then swaps the sum over better sets with the sum over draws, so the
    first-, second- and third-place odds of one team add up to at most 1.
 */
module PlaceBounds {
  import opened Odds
  import opened BetterSets

  /// Sums over better sets

  /** The sum of `g` over a list of better sets, in list order. */
  function SetsSum(g: seq<int> -> real, sets: seq<seq<int>>): (r: real)
  {
    if |sets| == 0 then 0.0 else SetsSum(g, sets[..|sets| - 1]) + g(sets[|sets| - 1])
  }

  lemma {:induction false} SetsSumAppend(g: seq<int> -> real, a: seq<seq<int>>, b: seq<seq<int>>)
    ensures SetsSum(g, a + b) == SetsSum(g, a) + SetsSum(g, b)
    decreases |b|
  {
    if |b| > 0 {
      SetsSumAppend(g, a, b[..|b| - 1]);
      assert (a + b)[..|a + b| - 1] == a + b[..|b| - 1];
    } else {
      assert a + b == a;
    }
  }

  lemma SetsSumSnoc(g: seq<int> -> real, sets: seq<seq<int>>, b: seq<int>)
    ensures SetsSum(g, sets + [b]) == SetsSum(g, sets) + g(b)
  {
    assert (sets + [b])[..|sets|] == sets;
  }

  /** `g` of the singletons `[j]`, `j < m`, `j != team`. */
  function Singles(g: seq<int> -> real, team: int, m: int): (r: real)
    decreases m
  {
    if m <= 0 then 0.0 else Singles(g, team, m - 1) + (if m - 1 == team then 0.0 else g([m - 1]))
  }

  /** `g` of the pairs `[j, i]`, `j < i < k`, `i != team`. */
  function Row(g: seq<int> -> real, team: int, j: int, k: int): (r: real)
    decreases k
  {
    if k <= 0 then 0.0 else Row(g, team, j, k - 1) + (if k - 1 == team || k - 1 <= j then 0.0 else g([j, k - 1]))
  }

  /** The rows of the outer indices `j < m`, `j != team`, up to `c`. */
  function Pairs(g: seq<int> -> real, team: int, m: int, c: int): (r: real)
    decreases m
  {
    if m <= 0 then 0.0 else Pairs(g, team, m - 1, c) + (if m - 1 == team then 0.0 else Row(g, team, m - 1, c))
  }

  /** `g` of the pairs `[j, c]`, `j < m`, `j != team`. */
  function Column(g: seq<int> -> real, team: int, c: int, m: int): (r: real)
    decreases m
  {
    if m <= 0 then 0.0 else Column(g, team, c, m - 1) + (if m - 1 == team then 0.0 else g([m - 1, c]))
  }

  lemma {:induction false} SinglesSets(g: seq<int> -> real, team: int, m: int)
    ensures SetsSum(g, SecondSets(team, m)) == Singles(g, team, m)
    decreases m
  {
    if m > 0 {
      SinglesSets(g, team, m - 1);
      var pre := SecondSets(team, m - 1);
      if m - 1 != team {
        assert SecondSets(team, m) == pre + [[m - 1]];
        SetsSumSnoc(g, pre, [m - 1]);
      } else {
        assert SecondSets(team, m) == pre;
      }
    }
  }

  lemma {:induction false} RowSets(g: seq<int> -> real, team: int, j: int, k: int)
    ensures SetsSum(g, PairsUpTo(team, j, k)) == Row(g, team, j, k)
    decreases k
  {
    if k > 0 {
      RowSets(g, team, j, k - 1);
      var pre := PairsUpTo(team, j, k - 1);
      if k - 1 == team || k - 1 <= j {
        assert PairsUpTo(team, j, k) == pre;
      } else {
        assert PairsUpTo(team, j, k) == pre + [[j, k - 1]];
        SetsSumSnoc(g, pre, [j, k - 1]);
      }
    }
  }

  lemma {:induction false} PairsSets(g: seq<int> -> real, team: int, m: int, c: int)
    ensures SetsSum(g, ThirdSets(team, m, c)) == Pairs(g, team, m, c)
    decreases m
  {
    if m > 0 {
      PairsSets(g, team, m - 1, c);
      if m - 1 != team {
        assert ThirdSets(team, m, c) == ThirdSets(team, m - 1, c) + PairsUpTo(team, m - 1, c);
        SetsSumAppend(g, ThirdSets(team, m - 1, c), PairsUpTo(team, m - 1, c));
        RowSets(g, team, m - 1, c);
      } else {
        assert ThirdSets(team, m, c) == ThirdSets(team, m - 1, c);
      }
    }
  }


  /** One step of scaling a running sum: if the sum so far and the new
      term are both scaled by `f`, so is the total. */
  lemma ScaleStep(total': real, rest': real, y': real, total: real, rest: real, y: real, f: real)
    requires total' == rest' + y' && total == rest + y
    requires IsScaled(rest', rest, f) && IsScaled(y', y, f)
    ensures IsScaled(total', total, f)
  {
  }

  /** Multiplying every term by `f` multiplies the sum by `f`. */
  lemma {:induction false} SetsSumScale(g: seq<int> -> real, g': seq<int> -> real, sets: seq<seq<int>>, f: real)
    requires forall j :: 0 <= j < |sets| ==> g'(sets[j]) == g(sets[j]) * f
    ensures IsScaled(SetsSum(g', sets), SetsSum(g, sets), f)
    decreases |sets|
  {
    if |sets| > 0 {
      SetsSumScale(g, g', sets[..|sets| - 1], f);
      ScaleStep(SetsSum(g', sets), SetsSum(g', sets[..|sets| - 1]), g'(sets[|sets| - 1]),
                SetsSum(g, sets), SetsSum(g, sets[..|sets| - 1]), g(sets[|sets| - 1]), f);
    }
  }

  lemma {:induction false} SinglesScale(g: seq<int> -> real, g': seq<int> -> real, team: int, m: int, f: real)
    requires forall j :: 0 <= j < m && j != team ==> g'([j]) == g([j]) * f
    ensures IsScaled(Singles(g', team, m), Singles(g, team, m), f)
    decreases m
  {
    if m > 0 {
      SinglesScale(g, g', team, m - 1, f);
      ScaleStep(Singles(g', team, m), Singles(g', team, m - 1), if m - 1 == team then 0.0 else g'([m - 1]),
                Singles(g, team, m), Singles(g, team, m - 1), if m - 1 == team then 0.0 else g([m - 1]), f);
    }
  }

  lemma {:induction false} RowScale(g: seq<int> -> real, g': seq<int> -> real, team: int, j: int, k: int, f: real)
    requires forall i :: j < i < k && i != team ==> g'([j, i]) == g([j, i]) * f
    ensures IsScaled(Row(g', team, j, k), Row(g, team, j, k), f)
    decreases k
  {
    if k > 0 {
      RowScale(g, g', team, j, k - 1, f);
      ScaleStep(Row(g', team, j, k), Row(g', team, j, k - 1), if k - 1 == team || k - 1 <= j then 0.0 else g'([j, k - 1]),
                Row(g, team, j, k), Row(g, team, j, k - 1), if k - 1 == team || k - 1 <= j then 0.0 else g([j, k - 1]), f);
    }
  }

  lemma {:induction false} PairsScale(g: seq<int> -> real, g': seq<int> -> real, team: int, m: int, c: int, f: real)
    requires forall j, i :: 0 <= j < m && j < i < c && j != team && i != team ==> g'([j, i]) == g([j, i]) * f
    ensures IsScaled(Pairs(g', team, m, c), Pairs(g, team, m, c), f)
    decreases m
  {
    if m > 0 {
      PairsScale(g, g', team, m - 1, c, f);
      if m - 1 != team {
        RowScale(g, g', team, m - 1, c, f);
      }
      ScaleStep(Pairs(g', team, m, c), Pairs(g', team, m - 1, c), if m - 1 == team then 0.0 else Row(g', team, m - 1, c),
                Pairs(g, team, m, c), Pairs(g, team, m - 1, c), if m - 1 == team then 0.0 else Row(g, team, m - 1, c), f);
    }
  }

  lemma {:induction false} RowNone(g: seq<int> -> real, team: int, j: int, k: int)
    requires k <= j + 1
    ensures Row(g, team, j, k) == 0.0
    decreases k
  {
    if k > 0 {
      RowNone(g, team, j, k - 1);
    }
  }

  /** Letting the inner index reach `c` adds the column `[j, c]`, `j` below
      both `m` and `c`. */
  lemma {:induction false} PairsColumn(g: seq<int> -> real, team: int, m: int, c: int)
    requires 0 <= m <= c
    ensures Pairs(g, team, m, c + 1) == Pairs(g, team, m, c) + (if c == team then 0.0 else Column(g, team, c, m))
    decreases m
  {
    if m > 0 {
      PairsColumn(g, team, m - 1, c);
    }
  }

  lemma {:induction false} ColumnSingles(g: seq<int> -> real, h: seq<int> -> real, team: int, c: int, m: int, q: real)
    requires forall j :: 0 <= j < m && j != team ==> g([j, c]) == h([j]) * q
    ensures IsScaled(Column(g, team, c, m), Singles(h, team, m), q)
    decreases m
  {
    if m > 0 {
      ColumnSingles(g, h, team, c, m - 1, q);
      ScaleStep(Column(g, team, c, m), Column(g, team, c, m - 1), if m - 1 == team then 0.0 else g([m - 1, c]),
                Singles(h, team, m), Singles(h, team, m - 1), if m - 1 == team then 0.0 else h([m - 1]), q);
    }
  }

  lemma OneStep(g: seq<int> -> real, g': seq<int> -> real, team: int, n: nat, f: real, q: real)
    requires forall j :: 0 <= j < n && j != team ==> g'([j]) == g([j]) * f
    requires n != team ==> g'([n]) == g([]) * q
    ensures IsMix(Singles(g', team, n + 1), Singles(g, team, n), f, if n == team then 0.0 else g([]), q)
  {
    SinglesScale(g, g', team, n, f);
    AddScaled(Singles(g', team, n + 1), Singles(g', team, n), Singles(g, team, n), f, g'([n]), g([]), q, n == team);
  }

  lemma TwoStep(g: seq<int> -> real, g': seq<int> -> real, team: int, n: nat, f: real, q: real)
    requires ScaledPairs(g, g', team, n, f)
    requires n != team ==> Joined(g, g', team, n, q)
    ensures IsMix(Pairs(g', team, n + 1, n + 1), Pairs(g, team, n, n), f, if n == team then 0.0 else Singles(g, team, n), q)
  {
    PairsGrow(g', team, n);
    PairsScale(g, g', team, n, n, f);
    if n != team {
      ColumnSingles(g', g, team, n, n, q);
    }
    AddScaled(Pairs(g', team, n + 1, n + 1), Pairs(g', team, n, n), Pairs(g, team, n, n), f,
              Column(g', team, n, n), Singles(g, team, n), q, n == team);
  }

  /** Adding team `n` adds the pairs `[j, n]`. */
  lemma PairsGrow(g: seq<int> -> real, team: int, n: nat)
    ensures Pairs(g, team, n + 1, n + 1) == Pairs(g, team, n, n) + (if n == team then 0.0 else Column(g, team, n, n))
  {
    RowNone(g, team, n, n + 1);
    PairsColumn(g, team, n, n);
  }

  /** A sum of a term scaled by `f` and, unless `skip`, one scaled by `q`. */
  lemma AddScaled(t: real, x: real, a: real, f: real, y: real, b: real, q: real, skip: bool)
    requires t == x + (if skip then 0.0 else y)
    requires IsScaled(x, a, f) && (!skip ==> IsScaled(y, b, q))
    ensures IsMix(t, a, f, if skip then 0.0 else b, q)
  {
  }

  /** `t` is `x` scaled by `f` plus `y` scaled by `q`. */
  predicate IsMix(t: real, x: real, f: real, y: real, q: real)
  {
    t == x * f + y * q
  }
  /// One draw

  /** The chance, at one draw, that `team` holds each team. */
  function Probs(d: Distribution, teams: Teams, team: int, score: int): (ps: seq<real>)
    requires ValidTeam(teams, team)
    ensures |ps| == |teams|
    ensures forall i :: 0 <= i < |teams| ==> ps[i] == ProbabilityGreater(d, teams, team, i, score)
  {
    seq(|teams|, i requires 0 <= i < |teams| => ProbabilityGreater(d, teams, team, i, score))
  }

  predicate Unit(ps: seq<real>)
  {
    forall i :: 0 <= i < |ps| ==> 0.0 <= ps[i] <= 1.0
  }

  lemma ProbsUnit(d: Distribution, teams: Teams, team: int, score: int)
    requires IsDistribution(d) && ValidTeam(teams, team)
    ensures Unit(Probs(d, teams, team, score))
  {
    forall i | 0 <= i < |teams|
      ensures 0.0 <= Probs(d, teams, team, score)[i] <= 1.0
    {
      ProbabilityGreaterBounds(d, teams, team, i, score);
    }
  }

  /** Team `i`'s factor in the product of better set `b`, given the chances
      `ps` that `team` holds each team: `Factor` on plain numbers. */
  function HoldFactor(team: int, ps: seq<real>, b: seq<int>, i: nat): (r: real)
    requires i < |ps|
  {
    if i == team then 1.0 else if i in b then 1.0 - ps[i] else ps[i]
  }

  /** The product of the factors of teams `0 .. n - 1`: `AtScorePrefix` on
      plain numbers. */
  function Product(team: int, ps: seq<real>, b: seq<int>, n: nat): (r: real)
    requires n <= |ps|
  {
    if n == 0 then 1.0 else Product(team, ps, b, n - 1) * HoldFactor(team, ps, b, n - 1)
  }

  /** The products over the first `n` teams, as a weight on better sets. */
  function Weights(team: int, ps: seq<real>, n: nat): (g: seq<int> -> real)
    requires n <= |ps|
  {
    b => Product(team, ps, b, n)
  }

  lemma MulEqual(x: real, y: real, x': real, y': real)
    requires x == x' && y == y'
    ensures x * y == x' * y'
  {
  }

  /** The at-score product is the product of the hold factors. */
  lemma {:induction false} AtScoreProduct(d: Distribution, teams: Teams, team: int, b: seq<int>, score: int, n: nat)
    requires ValidTeam(teams, team) && n <= |teams|
    ensures AtScorePrefix(d, teams, team, b, score, n) == Product(team, Probs(d, teams, team, score), b, n)
  {
    if n > 0 {
      AtScoreProduct(d, teams, team, b, score, n - 1);
      FactorHold(d, teams, team, b, score, n - 1);
      PrefixUnfold(d, teams, team, b, score, n);
      ProductUnfold(team, Probs(d, teams, team, score), b, n);
      SameScaled(AtScorePrefix(d, teams, team, b, score, n), AtScorePrefix(d, teams, team, b, score, n - 1),
                 Factor(d, teams, team, b, score, n - 1),
                 Product(team, Probs(d, teams, team, score), b, n), Product(team, Probs(d, teams, team, score), b, n - 1),
                 HoldFactor(team, Probs(d, teams, team, score), b, n - 1));
    }
  }

  lemma PrefixUnfold(d: Distribution, teams: Teams, team: int, b: seq<int>, score: int, n: nat)
    requires ValidTeam(teams, team) && 0 < n <= |teams|
    ensures IsScaled(AtScorePrefix(d, teams, team, b, score, n), AtScorePrefix(d, teams, team, b, score, n - 1),
                     Factor(d, teams, team, b, score, n - 1))
  {
  }

  lemma ProductUnfold(team: int, ps: seq<real>, b: seq<int>, n: nat)
    requires 0 < n <= |ps|
    ensures IsScaled(Product(team, ps, b, n), Product(team, ps, b, n - 1), HoldFactor(team, ps, b, n - 1))
  {
  }

  /** Equal numbers scaled by equal factors are equal. */
  lemma SameScaled(x: real, a: real, w: real, x': real, a': real, w': real)
    requires IsScaled(x, a, w) && IsScaled(x', a', w') && a == a' && w == w'
    ensures x == x'
  {
  }

  /** One team's factor is its hold factor. */
  lemma FactorHold(d: Distribution, teams: Teams, team: int, b: seq<int>, score: int, i: nat)
    requires ValidTeam(teams, team) && i < |teams|
    ensures Factor(d, teams, team, b, score, i) == HoldFactor(team, Probs(d, teams, team, score), b, i)
  {
  }

  /** The product over the first `n` teams depends only on which of them
      are in the better set. */
  lemma {:induction false} ProductAgree(team: int, ps: seq<real>, b: seq<int>, b': seq<int>, n: nat)
    requires n <= |ps|
    requires forall i :: 0 <= i < n ==> (i in b <==> i in b')
    ensures Product(team, ps, b, n) == Product(team, ps, b', n)
  {
    if n > 0 {
      ProductAgree(team, ps, b, b', n - 1);
      assert HoldFactor(team, ps, b, n - 1) == HoldFactor(team, ps, b', n - 1);
    }
  }

  /** A team `n` other than `team` and outside the better set contributes
      the chance that it finishes behind. */
  lemma ProductHeld(team: int, ps: seq<real>, b: seq<int>, n: nat)
    requires n < |ps| && n != team && n !in b
    ensures Weights(team, ps, n + 1)(b) == Weights(team, ps, n)(b) * ps[n]
  {
    assert HoldFactor(team, ps, b, n) == ps[n];
  }

  /** `team` itself contributes nothing. */
  lemma ProductSkip(team: int, ps: seq<real>, b: seq<int>, n: nat)
    requires n < |ps| && n == team
    ensures Weights(team, ps, n + 1)(b) == Weights(team, ps, n)(b) * 1.0
  {
    assert HoldFactor(team, ps, b, n) == 1.0;
  }

  /** A team `n` in the better set contributes the chance that it finishes
      ahead; below `n` only the rest of the set matters. */
  lemma ProductInside(team: int, ps: seq<real>, b: seq<int>, b': seq<int>, n: nat)
    requires n < |ps| && n != team && n in b
    requires forall i :: 0 <= i < n ==> (i in b <==> i in b')
    ensures Weights(team, ps, n + 1)(b) == Weights(team, ps, n)(b') * (1.0 - ps[n])
  {
    ProductAgree(team, ps, b, b', n);
    assert HoldFactor(team, ps, b, n) == 1.0 - ps[n];
  }

  /** At one draw, over the teams added so far: the chances that nobody,
      exactly one team and exactly two teams finish ahead of `team`. */
  datatype Ahead = Ahead(none: real, one: real, two: real)

  predicate Bounded(a: Ahead)
  {
    0.0 <= a.none && 0.0 <= a.one && 0.0 <= a.two && a.none + a.one + a.two <= 1.0
  }

  /** Adding a team that finishes behind `team` with chance `q`. */
  function Step(a: Ahead, q: real): (r: Ahead)
  {
    Ahead(a.none * q, a.one * q + a.none * (1.0 - q), a.two * q + a.one * (1.0 - q))
  }

  /** The recurrence over the first `n` teams; `team` itself adds nothing. */
  function AheadChances(team: int, ps: seq<real>, n: nat): (a: Ahead)
    requires n <= |ps|
  {
    if n == 0 then Ahead(1.0, 0.0, 0.0)
    else if n - 1 == team then AheadChances(team, ps, n - 1)
    else Step(AheadChances(team, ps, n - 1), ps[n - 1])
  }

  /** Adding a team keeps the three chances probabilities whose sum is at
      most 1. */
  lemma StepBounds(a: Ahead, q: real)
    requires Bounded(a) && 0.0 <= q <= 1.0
    ensures Bounded(Step(a, q))
  {
    var z, o, w := a.none, a.one, a.two;
    MulNonnegativeReal(z, q);
    MulNonnegativeReal(o, q);
    MulNonnegativeReal(w, q);
    MulNonnegativeReal(z, 1.0 - q);
    MulNonnegativeReal(o, 1.0 - q);
    assert z * q + (o * q + z * (1.0 - q)) + (w * q + o * (1.0 - q)) == (z + o + w) * q + (z + o) * (1.0 - q);
    MulNonnegativeReal(1.0 - (z + o + w), q);
    MulNonnegativeReal(1.0 - (z + o), 1.0 - q);
  }

  lemma {:induction false} AheadBounds(team: int, ps: seq<real>, n: nat)
    requires Unit(ps) && n <= |ps|
    ensures Bounded(AheadChances(team, ps, n))
  {
    if n > 0 {
      AheadBounds(team, ps, n - 1);
      if n - 1 != team {
        StepBounds(AheadChances(team, ps, n - 1), ps[n - 1]);
      }
    }
  }

  /** `a` holds the weights summed over no team, over the singletons the
      second-place driver tries and over the pairs the third-place driver
      tries, among the first `n` teams. */
  predicate Matches(a: Ahead, g: seq<int> -> real, team: int, n: int)
  {
    a.none == g([]) && a.one == Singles(g, team, n) && a.two == Pairs(g, team, n, n)
  }

  /** From the first `n` teams to the first `n + 1`, with weights `g` and
      `g'`: every set without `n` is scaled by `f`, and a set with `n` in
      it weighs `q` times the set without it. */
  predicate Scaled(g: seq<int> -> real, g': seq<int> -> real, team: int, n: int, f: real, q: real)
  {
    && g'([]) == g([]) * f
    && ScaledSingles(g, g', team, n, f)
    && ScaledPairs(g, g', team, n, f)
    && (n != team ==> g'([n]) == g([]) * q && Joined(g, g', team, n, q))
  }

  predicate ScaledSingles(g: seq<int> -> real, g': seq<int> -> real, team: int, n: int, f: real)
  {
    forall j :: 0 <= j < n && j != team ==> g'([j]) == g([j]) * f
  }

  predicate ScaledPairs(g: seq<int> -> real, g': seq<int> -> real, team: int, n: int, f: real)
  {
    forall j, i :: 0 <= j < n && j < i < n && j != team && i != team ==> g'([j, i]) == g([j, i]) * f
  }

  predicate Joined(g: seq<int> -> real, g': seq<int> -> real, team: int, n: int, q: real)
  {
    forall j :: 0 <= j < n && j != team ==> g'([j, n]) == g([j]) * q
  }


  /** Adding a team held with chance `p` moves the sums along with the
      recurrence. */
  lemma StepMatches(a: Ahead, g: seq<int> -> real, g': seq<int> -> real, team: int, n: nat, p: real)
    requires n != team && Matches(a, g, team, n) && Scaled(g, g', team, n, p, 1.0 - p)
    ensures Matches(Step(a, p), g', team, n + 1)
  {
    StepNone(a, g, g', team, n, p);
    StepOne(a, g, g', team, n, p);
    StepTwo(a, g, g', team, n, p);
  }

  lemma StepNone(a: Ahead, g: seq<int> -> real, g': seq<int> -> real, team: int, n: nat, p: real)
    requires n != team && Matches(a, g, team, n) && Scaled(g, g', team, n, p, 1.0 - p)
    ensures Step(a, p).none == g'([])
  {
    MulEqual(a.none, p, g([]), p);
  }

  lemma StepOne(a: Ahead, g: seq<int> -> real, g': seq<int> -> real, team: int, n: nat, p: real)
    requires n != team && Matches(a, g, team, n) && Scaled(g, g', team, n, p, 1.0 - p)
    ensures Step(a, p).one == Singles(g', team, n + 1)
  {
    OneStep(g, g', team, n, p, 1.0 - p);
    MulEqual(a.one, p, Singles(g, team, n), p);
    MulEqual(a.none, 1.0 - p, g([]), 1.0 - p);
  }

  lemma StepTwo(a: Ahead, g: seq<int> -> real, g': seq<int> -> real, team: int, n: nat, p: real)
    requires n != team && Matches(a, g, team, n) && Scaled(g, g', team, n, p, 1.0 - p)
    ensures Step(a, p).two == Pairs(g', team, n + 1, n + 1)
  {
    TwoStep(g, g', team, n, p, 1.0 - p);
    MulEqual(a.two, p, Pairs(g, team, n, n), p);
    MulEqual(a.one, 1.0 - p, Singles(g, team, n), 1.0 - p);
  }

  /** Adding `team` itself changes neither the recurrence nor the sums. */
  lemma SkipMatches(a: Ahead, g: seq<int> -> real, g': seq<int> -> real, team: int, n: nat)
    requires n == team && Matches(a, g, team, n) && Scaled(g, g', team, n, 1.0, 0.0)
    ensures Matches(a, g', team, n + 1)
  {
    OneStep(g, g', team, n, 1.0, 0.0);
    TwoStep(g, g', team, n, 1.0, 0.0);
  }

  lemma HeldSingles(team: int, ps: seq<real>, n: nat)
    requires n < |ps| && n != team
    ensures ScaledSingles(Weights(team, ps, n), Weights(team, ps, n + 1), team, n, ps[n])
  {
    forall j | 0 <= j < n && j != team
      ensures Weights(team, ps, n + 1)([j]) == Weights(team, ps, n)([j]) * ps[n]
    {
      ProductHeld(team, ps, [j], n);
    }
  }

  lemma HeldPairs(team: int, ps: seq<real>, n: nat)
    requires n < |ps| && n != team
    ensures ScaledPairs(Weights(team, ps, n), Weights(team, ps, n + 1), team, n, ps[n])
  {
    forall j, i | 0 <= j < n && j < i < n && j != team && i != team
      ensures Weights(team, ps, n + 1)([j, i]) == Weights(team, ps, n)([j, i]) * ps[n]
    {
      ProductHeld(team, ps, [j, i], n);
    }
  }

  lemma HeldJoined(team: int, ps: seq<real>, n: nat)
    requires n < |ps| && n != team
    ensures Joined(Weights(team, ps, n), Weights(team, ps, n + 1), team, n, 1.0 - ps[n])
  {
    forall j | 0 <= j < n && j != team
      ensures Weights(team, ps, n + 1)([j, n]) == Weights(team, ps, n)([j]) * (1.0 - ps[n])
    {
      ProductInside(team, ps, [j, n], [j], n);
    }
  }

  /** The products scale as `Scaled` says when a team other than `team`
      is added. */
  lemma WeightsHeld(team: int, ps: seq<real>, n: nat)
    requires n < |ps| && n != team
    ensures Scaled(Weights(team, ps, n), Weights(team, ps, n + 1), team, n, ps[n], 1.0 - ps[n])
  {
    ProductHeld(team, ps, [], n);
    HeldSingles(team, ps, n);
    HeldPairs(team, ps, n);
    ProductInside(team, ps, [n], [], n);
    HeldJoined(team, ps, n);
  }

  lemma SkipSingles(team: int, ps: seq<real>, n: nat)
    requires n < |ps| && n == team
    ensures ScaledSingles(Weights(team, ps, n), Weights(team, ps, n + 1), team, n, 1.0)
  {
    forall j | 0 <= j < n && j != team
      ensures Weights(team, ps, n + 1)([j]) == Weights(team, ps, n)([j]) * 1.0
    {
      ProductSkip(team, ps, [j], n);
    }
  }

  lemma SkipPairs(team: int, ps: seq<real>, n: nat)
    requires n < |ps| && n == team
    ensures ScaledPairs(Weights(team, ps, n), Weights(team, ps, n + 1), team, n, 1.0)
  {
    forall j, i | 0 <= j < n && j < i < n && j != team && i != team
      ensures Weights(team, ps, n + 1)([j, i]) == Weights(team, ps, n)([j, i]) * 1.0
    {
      ProductSkip(team, ps, [j, i], n);
    }
  }

  /** The products do not change when `team` itself is added. */
  lemma WeightsSkip(team: int, ps: seq<real>, n: nat)
    requires n < |ps| && n == team
    ensures Scaled(Weights(team, ps, n), Weights(team, ps, n + 1), team, n, 1.0, 0.0)
  {
    ProductSkip(team, ps, [], n);
    SkipSingles(team, ps, n);
    SkipPairs(team, ps, n);
  }

  lemma MatchesEqual(a: Ahead, b: Ahead, g: seq<int> -> real, team: int, n: int)
    requires a == b && Matches(b, g, team, n)
    ensures Matches(a, g, team, n)
  {
  }

  lemma AheadSumsSkip(team: int, ps: seq<real>, n: nat)
    requires 0 < n <= |ps| && n - 1 == team
    requires Matches(AheadChances(team, ps, n - 1), Weights(team, ps, n - 1), team, n - 1)
    ensures Matches(AheadChances(team, ps, n), Weights(team, ps, n), team, n)
  {
    WeightsSkip(team, ps, n - 1);
    SkipMatches(AheadChances(team, ps, n - 1), Weights(team, ps, n - 1), Weights(team, ps, n), team, n - 1);
    MatchesEqual(AheadChances(team, ps, n), AheadChances(team, ps, n - 1), Weights(team, ps, n), team, n);
  }

  lemma AheadSumsHeld(team: int, ps: seq<real>, n: nat)
    requires 0 < n <= |ps| && n - 1 != team
    requires Matches(AheadChances(team, ps, n - 1), Weights(team, ps, n - 1), team, n - 1)
    ensures Matches(AheadChances(team, ps, n), Weights(team, ps, n), team, n)
  {
    WeightsHeld(team, ps, n - 1);
    StepMatches(AheadChances(team, ps, n - 1), Weights(team, ps, n - 1), Weights(team, ps, n), team, n - 1, ps[n - 1]);
    MatchesEqual(AheadChances(team, ps, n), Step(AheadChances(team, ps, n - 1), ps[n - 1]), Weights(team, ps, n), team, n);
  }

  /** The recurrence computes the weights summed over the better sets of
      the place drivers. */
  lemma {:induction false} AheadSums(team: int, ps: seq<real>, n: nat)
    requires n <= |ps|
    ensures Matches(AheadChances(team, ps, n), Weights(team, ps, n), team, n)
  {
    if n > 0 {
      AheadSums(team, ps, n - 1);
      if n - 1 == team {
        AheadSumsSkip(team, ps, n);
      } else {
        AheadSumsHeld(team, ps, n);
      }
    }
  }

  /// Over all draws

  /** The at-score products of draw `k`, as a weight on better sets. */
  function DrawWeights(d: Distribution, teams: Teams, team: int, k: nat): (g: seq<int> -> real)
    requires ValidTeam(teams, team) && k < |d|
  {
    Weights(team, Probs(d, teams, team, d[k].0), |teams|)
  }

  /** The `compare_teams` terms of draw `k`: its weight times the
      at-score product, as a weight on better sets. */
  function DrawTerms(d: Distribution, teams: Teams, team: int, k: nat): (g: seq<int> -> real)
    requires ValidTeam(teams, team) && k < |d|
  {
    b => DrawWeights(d, teams, team, k)(b) * d[k].1
  }

  /** Over the first `m` draws, the `compare_teams` terms summed over a
      list of better sets. */
  function DrawSum(d: Distribution, teams: Teams, team: int, sets: seq<seq<int>>, m: nat): (r: real)
    requires ValidTeam(teams, team) && m <= |d|
  {
    if m == 0 then 0.0
    else DrawSum(d, teams, team, sets, m - 1) + SetsSum(DrawTerms(d, teams, team, m - 1), sets)
  }

  lemma {:induction false} DrawSumEmpty(d: Distribution, teams: Teams, team: int, m: nat)
    requires ValidTeam(teams, team) && m <= |d|
    ensures DrawSum(d, teams, team, [], m) == 0.0
  {
    if m > 0 {
      DrawSumEmpty(d, teams, team, m - 1);
    }
  }

  /** A draw's `compare_teams` term is its weight times the product. */
  lemma WeightedProduct(d: Distribution, teams: Teams, team: int, b: seq<int>, k: nat)
    requires ValidTeam(teams, team) && k < |d|
    ensures Weighted(d, teams, team, b, k) == DrawTerms(d, teams, team, k)(b)
  {
    AtScoreProduct(d, teams, team, b, d[k].0, |teams|);
    MulEqual(AtScore(d, teams, team, b, d[k].0), d[k].1, DrawWeights(d, teams, team, k)(b), d[k].1);
  }

  /** One more better set adds its `compare_teams` sum over the draws. */
  lemma {:induction false} DrawSumSnoc(d: Distribution, teams: Teams, team: int, sets: seq<seq<int>>, b: seq<int>, m: nat)
    requires ValidTeam(teams, team) && m <= |d|
    ensures DrawSum(d, teams, team, sets + [b], m) == DrawSum(d, teams, team, sets, m) + CompareSum(d, teams, team, b, m)
  {
    if m > 0 {
      DrawSumSnoc(d, teams, team, sets, b, m - 1);
      SetsSumSnoc(DrawTerms(d, teams, team, m - 1), sets, b);
      WeightedProduct(d, teams, team, b, m - 1);
    }
  }

  /** Summing `compare_teams` over the better sets is summing, over the
      draws, the weight times the summed at-score products. */
  lemma {:induction false} SumCompareDraws(d: Distribution, teams: Teams, team: int, sets: seq<seq<int>>)
    requires ValidTeam(teams, team)
    ensures SumCompare(d, teams, team, sets) == DrawSum(d, teams, team, sets, |d|)
    decreases |sets|
  {
    if |sets| == 0 {
      DrawSumEmpty(d, teams, team, |d|);
    } else {
      var pre := sets[..|sets| - 1];
      SumCompareDraws(d, teams, team, pre);
      assert sets == pre + [sets[|sets| - 1]];
      DrawSumSnoc(d, teams, team, pre, sets[|sets| - 1], |d|);
    }
  }

  /** At one draw, the products summed over no team, one team and two
      teams are probabilities adding up to at most 1. */
  lemma DrawAhead(d: Distribution, teams: Teams, team: int, k: nat)
    requires IsDistribution(d) && ValidTeam(teams, team) && k < |d|
    ensures 0.0 <= SetsSum(DrawWeights(d, teams, team, k), [[]])
    ensures 0.0 <= SetsSum(DrawWeights(d, teams, team, k), SecondSets(team, |teams|))
    ensures 0.0 <= SetsSum(DrawWeights(d, teams, team, k), ThirdSets(team, |teams|, |teams|))
    ensures SetsSum(DrawWeights(d, teams, team, k), [[]]) + SetsSum(DrawWeights(d, teams, team, k), SecondSets(team, |teams|))
            + SetsSum(DrawWeights(d, teams, team, k), ThirdSets(team, |teams|, |teams|)) <= 1.0
  {
    ProbsUnit(d, teams, team, d[k].0);
    AheadSums(team, Probs(d, teams, team, d[k].0), |teams|);
    AheadBounds(team, Probs(d, teams, team, d[k].0), |teams|);
    SinglesSets(DrawWeights(d, teams, team, k), team, |teams|);
    PairsSets(DrawWeights(d, teams, team, k), team, |teams|, |teams|);
    SetsSumSnoc(DrawWeights(d, teams, team, k), [], []);
  }


  /** Terms scaled by a weight `w` from probabilities adding up to at most
      1 are non-negative and add up to at most `w`. */
  lemma ScaledBound(x1: real, x2: real, x3: real, a: real, b: real, c: real, w: real)
    requires IsScaled(x1, a, w) && IsScaled(x2, b, w) && IsScaled(x3, c, w)
    requires 0.0 <= a && 0.0 <= b && 0.0 <= c && a + b + c <= 1.0 && 0.0 <= w
    ensures 0.0 <= x1 && 0.0 <= x2 && 0.0 <= x3 && x1 + x2 + x3 <= w
  {
    MulNonnegativeReal(a, w);
    MulNonnegativeReal(b, w);
    MulNonnegativeReal(c, w);
    MulNonnegativeReal(1.0 - (a + b + c), w);
    assert a * w + b * w + c * w == w - (1.0 - (a + b + c)) * w;
  }


  /** Scaling weights by `w` scales three sums that are probabilities
      adding up to at most 1 into sums adding up to at most `w`. */
  lemma ScaledSums(g: seq<int> -> real, g': seq<int> -> real, s1: seq<seq<int>>, s2: seq<seq<int>>, s3: seq<seq<int>>, w: real)
    requires forall b :: g'(b) == g(b) * w
    requires 0.0 <= SetsSum(g, s1) && 0.0 <= SetsSum(g, s2) && 0.0 <= SetsSum(g, s3)
    requires SetsSum(g, s1) + SetsSum(g, s2) + SetsSum(g, s3) <= 1.0 && 0.0 <= w
    ensures 0.0 <= SetsSum(g', s1) && 0.0 <= SetsSum(g', s2) && 0.0 <= SetsSum(g', s3)
    ensures SetsSum(g', s1) + SetsSum(g', s2) + SetsSum(g', s3) <= w
  {
    SetsSumScale(g, g', s1, w);
    SetsSumScale(g, g', s2, w);
    SetsSumScale(g, g', s3, w);
    ScaledBound(SetsSum(g', s1), SetsSum(g', s2), SetsSum(g', s3), SetsSum(g, s1), SetsSum(g, s2), SetsSum(g, s3), w);
  }

  /** Draw `k`'s terms for no team, one team and two teams ahead are
      non-negative and add up to at most its weight. */
  lemma DrawTermsBound(d: Distribution, teams: Teams, team: int, k: nat)
    requires IsDistribution(d) && ValidTeam(teams, team) && k < |d|
    ensures 0.0 <= SetsSum(DrawTerms(d, teams, team, k), [[]])
    ensures 0.0 <= SetsSum(DrawTerms(d, teams, team, k), SecondSets(team, |teams|))
    ensures 0.0 <= SetsSum(DrawTerms(d, teams, team, k), ThirdSets(team, |teams|, |teams|))
    ensures SetsSum(DrawTerms(d, teams, team, k), [[]]) + SetsSum(DrawTerms(d, teams, team, k), SecondSets(team, |teams|))
            + SetsSum(DrawTerms(d, teams, team, k), ThirdSets(team, |teams|, |teams|)) <= d[k].1
  {
    DrawAhead(d, teams, team, k);
    assert d[k].1 >= 0.0;
    ScaledSums(DrawWeights(d, teams, team, k), DrawTerms(d, teams, team, k),
               [[]], SecondSets(team, |teams|), ThirdSets(team, |teams|, |teams|), d[k].1);
  }

  lemma MassStep(d: Distribution, m: nat)
    requires 0 < m <= |d|
    ensures Mass(d[..m]) == Mass(d[..m - 1]) + d[m - 1].1
  {
    assert d[..m][..m - 1] == d[..m - 1];
  }

  lemma {:induction false} DrawsBound(d: Distribution, teams: Teams, team: int, m: nat)
    requires IsDistribution(d) && ValidTeam(teams, team) && m <= |d|
    ensures 0.0 <= DrawSum(d, teams, team, [[]], m)
    ensures 0.0 <= DrawSum(d, teams, team, SecondSets(team, |teams|), m)
    ensures 0.0 <= DrawSum(d, teams, team, ThirdSets(team, |teams|, |teams|), m)
    ensures DrawSum(d, teams, team, [[]], m) + DrawSum(d, teams, team, SecondSets(team, |teams|), m)
            + DrawSum(d, teams, team, ThirdSets(team, |teams|, |teams|), m) <= Mass(d[..m])
  {
    if m > 0 {
      DrawsBound(d, teams, team, m - 1);
      DrawTermsBound(d, teams, team, m - 1);
      MassStep(d, m);
    }
  }


  /** Over a probability distribution, the chances of finishing first,
      second and third are non-negative and add up to at most 1. */
  lemma PlacesAtMostOne(d: Distribution, teams: Teams, team: int)
    requires IsDistribution(d) && ValidTeam(teams, team)
    ensures 0.0 <= FirstOdds(d, teams, team) && 0.0 <= SecondOdds(d, teams, team) && 0.0 <= ThirdOdds(d, teams, team)
    ensures FirstOdds(d, teams, team) + SecondOdds(d, teams, team) + ThirdOdds(d, teams, team) <= 1.0
  {
    SumCompareDraws(d, teams, team, [[]]);
    assert SumCompare(d, teams, team, [[]]) == FirstOdds(d, teams, team);
    SumCompareDraws(d, teams, team, SecondSets(team, |teams|));
    SumCompareDraws(d, teams, team, ThirdSets(team, |teams|, |teams|));
    DrawsBound(d, teams, team, |d|);
    assert d[..|d|] == d;
  }

  /// The place odds of one team

  /** The second-place odds are a probability. */
  lemma SecondOddsBounds(d: Distribution, teams: Teams, team: int)
    requires IsDistribution(d) && ValidTeam(teams, team)
    ensures 0.0 <= SecondOdds(d, teams, team) <= 1.0
  {
    PlacesAtMostOne(d, teams, team);
  }

  /** The third-place odds are a probability, and 0 with fewer than three
      teams. */
  lemma ThirdOddsBounds(d: Distribution, teams: Teams, team: int)
    requires IsDistribution(d) && ValidTeam(teams, team)
    ensures 0.0 <= ThirdOdds(d, teams, team) <= 1.0
    ensures |teams| < 3 ==> ThirdOdds(d, teams, team) == 0.0
  {
    PlacesAtMostOne(d, teams, team);
    if |teams| < 3 {
      FewTeamsNoPairs(team, |teams|);
    }
  }

  /** Every field of a team's record is a probability over a probability
      distribution, the three places are exclusive, and the podium is the
      sum of the places. */
  lemma TeamOddsBounds(d: Distribution, teams: Teams, team: int)
    requires IsDistribution(d) && ValidTeam(teams, team)
    ensures TeamOdds(d, teams, team).first + TeamOdds(d, teams, team).second + TeamOdds(d, teams, team).third <= 1.0
    ensures 0.0 <= TeamOdds(d, teams, team).first <= 1.0
    ensures 0.0 <= TeamOdds(d, teams, team).second <= 1.0
    ensures 0.0 <= TeamOdds(d, teams, team).third <= 1.0
    ensures 0.0 <= TeamOdds(d, teams, team).podium <= 1.0
    ensures TeamOdds(d, teams, team).podium
            == TeamOdds(d, teams, team).first + TeamOdds(d, teams, team).second + TeamOdds(d, teams, team).third
  {
    PlacesAtMostOne(d, teams, team);
  }

}
