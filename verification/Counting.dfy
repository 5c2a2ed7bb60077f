/** Cardinalities shared by the other modules. */
module Counting {

  lemma SubsetCounts<T>(a: set<T>, b: set<T>)
    requires a <= b
    ensures |a| <= |b|
  {
    assert b == a + (b - a);
  }

  /** An injective map has as many values as keys. */
  lemma {:induction false} InjectiveCounts<K, V>(m: map<K, V>)
    requires forall j, k | j in m && k in m && j != k :: m[j] != m[k]
    ensures |m.Values| == |m.Keys|
    decreases |m|
  {
    if m != map[] {
      var k :| k in m;
      var rest := m - {k};
      assert rest.Keys == m.Keys - {k} && |rest.Keys| == |rest| && |m.Keys| == |m|;
      InjectiveCounts(rest);
      forall v ensures v in m.Values <==> v in rest.Values || v == m[k] {
        if v in m.Values {
          var j :| j in m && m[j] == v;
          assert j == k || (j in rest && rest[j] == v);
        }
      }
      assert m.Values == rest.Values + {m[k]};
    }
  }

  /** The integers from `lo` up to but not including `hi`. */
  function Range(lo: int, hi: int): (r: set<int>)
    ensures forall i :: i in r <==> lo <= i < hi
    ensures lo <= hi ==> |r| == hi - lo
    decreases hi - lo
  {
    if lo >= hi then {} else Range(lo, hi - 1) + {hi - 1}
  }
}
