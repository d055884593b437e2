/** The sets of "better" teams that the first, second and third place
    drivers of CalculateOdds.py hand to `compare_teams`.

    The second-place driver tries every other team `j` in index order; the
    third-place driver tries every index pair `j < k` of other teams, with
    `j` in the outer loop and `k` in the inner one.
 */
module BetterSets {

  /** `[j]` for each `j` in `0 .. n - 1` other than `team`, in order. */
  function SecondSets(team: int, n: int): (r: seq<seq<int>>)
    decreases n
  {
    if n <= 0 then []
    else SecondSets(team, n - 1) + (if n - 1 == team then [] else [[n - 1]])
  }

  /** The inner loop of the third-place driver for outer index `j`, run
      over the indices below `k`: `[j, k']` for `j < k' < k`, `k' != team`. */
  function PairsUpTo(team: int, j: int, k: int): (r: seq<seq<int>>)
    decreases k
  {
    if k <= 0 then []
    else PairsUpTo(team, j, k - 1) + (if k - 1 == team || k - 1 <= j then [] else [[j, k - 1]])
  }

  /** The third-place driver's pairs with outer index below `i` and inner
      index below `n`. */
  function ThirdSets(team: int, i: int, n: int): (r: seq<seq<int>>)
    decreases i
  {
    if i <= 0 then []
    else ThirdSets(team, i - 1, n) + (if i - 1 == team then [] else PairsUpTo(team, i - 1, n))
  }

  predicate NoDuplicates(ss: seq<seq<int>>)
  {
    forall a, b :: 0 <= a < b < |ss| ==> ss[a] != ss[b]
  }

  lemma NoDuplicatesAppend(x: seq<seq<int>>, y: seq<seq<int>>)
    requires NoDuplicates(x) && NoDuplicates(y)
    requires forall s :: s in x ==> s !in y
    ensures NoDuplicates(x + y)
  {
    forall a, b | 0 <= a < b < |x + y|
      ensures (x + y)[a] != (x + y)[b]
    {
      if a < |x| && b >= |x| {
        assert (x + y)[a] in x;
        assert (x + y)[b] == y[b - |x|];
      }
    }
  }

  /// Second place: exactly the singletons of other teams, each once.

  lemma {:induction false} SecondSetsExact(team: int, n: int, s: seq<int>)
    ensures s in SecondSets(team, n) <==> |s| == 1 && 0 <= s[0] < n && s[0] != team
    decreases n
  {
    if n > 0 {
      SecondSetsExact(team, n - 1, s);
      if |s| == 1 && s[0] == n - 1 {
        assert s == [n - 1];
      }
    }
  }

  lemma {:induction false} SecondSetsNoDuplicates(team: int, n: int)
    ensures NoDuplicates(SecondSets(team, n))
    decreases n
  {
    if n > 0 {
      SecondSetsNoDuplicates(team, n - 1);
      var last := if n - 1 == team then [] else [[n - 1]];
      forall s | s in SecondSets(team, n - 1)
        ensures s !in last
      {
        SecondSetsExact(team, n - 1, s);
      }
      NoDuplicatesAppend(SecondSets(team, n - 1), last);
    }
  }

  /** One singleton for each of the other `n - 1` teams. */
  lemma {:induction false} SecondSetsCount(team: int, n: int)
    requires 0 <= team < n
    ensures |SecondSets(team, n)| == n - 1
  {
    SecondSetsCountBelow(team, n);
  }

  lemma {:induction false} SecondSetsCountBelow(team: int, n: int)
    requires n >= 0 && team >= 0
    ensures |SecondSets(team, n)| == if team < n then n - 1 else n
    decreases n
  {
    if n > 0 {
      SecondSetsCountBelow(team, n - 1);
    }
  }

  /// Third place: exactly the pairs j < k of other teams, each once.

  lemma {:induction false} PairsExact(team: int, j: int, k: int, s: seq<int>)
    ensures s in PairsUpTo(team, j, k) <==> |s| == 2 && s[0] == j && 0 <= s[1] < k && j < s[1] && s[1] != team
    decreases k
  {
    if k > 0 {
      PairsExact(team, j, k - 1, s);
      if |s| == 2 && s[0] == j && s[1] == k - 1 {
        assert s == [j, k - 1];
      }
    }
  }

  lemma {:induction false} ThirdSetsExact(team: int, i: int, n: int, s: seq<int>)
    ensures s in ThirdSets(team, i, n) <==>
              |s| == 2 && 0 <= s[0] < i && s[0] != team && s[0] < s[1] < n && s[1] != team
    decreases i
  {
    if i > 0 {
      var prev := ThirdSets(team, i - 1, n);
      assert s in prev <==> |s| == 2 && 0 <= s[0] < i - 1 && s[0] != team && s[0] < s[1] < n && s[1] != team by {
        ThirdSetsExact(team, i - 1, n, s);
      }
      if i - 1 != team {
        var last := PairsUpTo(team, i - 1, n);
        assert s in ThirdSets(team, i, n) <==> s in prev || s in last;
        assert s in last <==> |s| == 2 && s[0] == i - 1 && 0 <= s[1] < n && i - 1 < s[1] && s[1] != team by {
          PairsExact(team, i - 1, n, s);
        }
      }
    }
  }

  lemma {:induction false} PairsNoDuplicates(team: int, j: int, k: int)
    ensures NoDuplicates(PairsUpTo(team, j, k))
    decreases k
  {
    if k > 0 {
      PairsNoDuplicates(team, j, k - 1);
      var last := if k - 1 == team || k - 1 <= j then [] else [[j, k - 1]];
      forall s | s in PairsUpTo(team, j, k - 1)
        ensures s !in last
      {
        PairsExact(team, j, k - 1, s);
      }
      NoDuplicatesAppend(PairsUpTo(team, j, k - 1), last);
    }
  }

  lemma {:induction false} ThirdSetsNoDuplicates(team: int, i: int, n: int)
    ensures NoDuplicates(ThirdSets(team, i, n))
    decreases i
  {
    if i > 0 {
      ThirdSetsNoDuplicates(team, i - 1, n);
      var last := if i - 1 == team then [] else PairsUpTo(team, i - 1, n);
      PairsNoDuplicates(team, i - 1, n);
      forall s | s in ThirdSets(team, i - 1, n)
        ensures s !in last
      {
        assert |s| == 2 && s[0] < i - 1 by {
          ThirdSetsExact(team, i - 1, n, s);
        }
        assert s !in PairsUpTo(team, i - 1, n) by {
          PairsExact(team, i - 1, n, s);
        }
      }
      NoDuplicatesAppend(ThirdSets(team, i - 1, n), last);
    }
  }

  lemma {:induction false} PairsCount(team: int, j: int, k: int)
    requires 0 <= j < k
    ensures |PairsUpTo(team, j, k)| == k - j - 1 - (if j < team < k then 1 else 0)
    decreases k
  {
    if k > j + 1 {
      PairsCount(team, j, k - 1);
    } else {
      PairsNone(team, j, k);
    }
  }

  lemma {:induction false} PairsNone(team: int, j: int, k: int)
    requires k <= j + 1
    ensures PairsUpTo(team, j, k) == []
    decreases k
  {
    if k > 0 {
      PairsNone(team, j, k - 1);
    }
  }

  /** Twice the number of pairs with outer index below `i`. */
  lemma {:induction false} ThirdSetsCountBelow(team: int, i: int, n: int)
    requires 0 <= i <= n && 0 <= team < n
    ensures 2 * |ThirdSets(team, i, n)|
            == i * (2 * n - 1 - i) - 2 * (if team < i then n - 1 - team else 0) - 2 * (if i < team then i else team)
    decreases i
  {
    if i > 0 {
      ThirdSetsCountBelow(team, i - 1, n);
      if i - 1 != team {
        PairsCount(team, i - 1, n);
      }
      CountStep(i - 1, n);
    }
  }

  lemma CountStep(i: int, n: int)
    ensures (i + 1) * (2 * n - 1 - (i + 1)) == i * (2 * n - 1 - i) + 2 * (n - i - 1)
  {
  }

  /** One pair for each of the `C(n - 1, 2)` unordered pairs of other teams. */
  lemma ThirdSetsCount(team: int, n: int)
    requires 0 <= team < n
    ensures 2 * |ThirdSets(team, n, n)| == (n - 1) * (n - 2)
  {
    ThirdSetsCountBelow(team, n, n);
  }

  /** With fewer than three teams there is no pair to try. */
  lemma FewTeamsNoPairs(team: int, n: int)
    requires 0 <= team < n < 3
    ensures ThirdSets(team, n, n) == []
  {
    ThirdSetsCount(team, n);
  }

}
