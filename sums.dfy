/** Order-independent sums over the values of a finite map.

    The source iterates Python dictionaries and accumulates their values; the
    iteration order never matters for the result, so the sums here pick keys in
    no particular order and `TotalRemove` shows that any key
    may be taken out first.
 */
module Sums {

  /** Sum of the values of a map of integers. */
  ghost function Total(m: map<int, int>): (r: int)
    decreases |m|
  {
    if m.Keys == {} then 0
    else
      NonEmptyHasKey(m.Keys);
      var k :| k in m.Keys;
      assert |m - {k}| < |m| by { assert (m - {k}).Keys < m.Keys; }
      m[k] + Total(m - {k})
  }

  lemma NonEmptyHasKey(s: set<int>)
    requires s != {}
    ensures exists k :: k in s
  {
    if forall k :: k !in s {
      assert false;
    }
  }

  lemma CardRemove<V>(m: map<int, V>, k: int)
    requires k in m
    ensures |m - {k}| == |m| - 1
  {
    assert (m - {k}).Keys == m.Keys - {k};
  }

  lemma {:induction false} TotalRemove(m: map<int, int>, k: int)
    requires k in m
    ensures Total(m) == m[k] + Total(m - {k})
    decreases |m|
  {
    var j :| j in m && Total(m) == m[j] + Total(m - {j});
    if j != k {
      CardRemove(m, j);
      CardRemove(m, k);
      TotalRemove(m - {j}, k);
      TotalRemove(m - {k}, j);
      assert m - {j} - {k} == m - {k} - {j};
    }
  }

  /** Overwriting a key changes the total by the difference of the values. */
  lemma TotalUpdate(m: map<int, int>, k: int, v: int)
    ensures Total(m[k := v]) == Total(m) - (if k in m then m[k] else 0) + v
  {
    TotalRemove(m[k := v], k);
    if k in m {
      TotalRemove(m, k);
      assert m[k := v] - {k} == m - {k};
    } else {
      assert m[k := v] - {k} == m;
    }
  }

}
