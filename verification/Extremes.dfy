/** The newest key of a table, as `ORDER BY ... DESC LIMIT 1` picks it, and the pruning that keeps the newest few. */
module Extremes {

  predicate IsLatest(keys: set<int>, m: int) { m in keys && forall k :: k in keys ==> k <= m }

  ghost function Latest(keys: set<int>): (m: int)
    requires keys != {}
    ensures IsLatest(keys, m)
  {
    LatestExists(keys);
    var m :| IsLatest(keys, m);
    m
  }

  lemma {:induction false} Member<K>(keys: set<K>) returns (x: K)
    requires keys != {}
    ensures x in keys
  {
    x :| x in keys;
  }

  lemma {:induction false} LatestExists(keys: set<int>)
    requires keys != {}
    ensures exists m :: IsLatest(keys, m)
  {
    var x := Member(keys);
    var rest := keys - {x};
    assert forall k :: k in keys ==> k in rest || k == x;
    if rest == {} {
      assert IsLatest(keys, x);
    } else {
      LatestExists(rest);
      var m :| IsLatest(rest, m);
      assert IsLatest(keys, if m < x then x else m);
    }
  }

  /** The entries with fewer than n newer ones. */
  function KeepNewest<V>(m: map<int, V>, n: nat): map<int, V>
  {
    map k | k in m && |set j | j in m && j > k| < n :: m[k]
  }

  lemma {:induction false} PruneKeepsLatest<V>(m: map<int, V>, n: nat)
    requires n > 0
    ensures forall k :: k in KeepNewest(m, n) ==> k in m && KeepNewest(m, n)[k] == m[k]
    ensures m != map[] ==> Latest(m.Keys) in KeepNewest(m, n)
  {
    if m != map[] {
      var k := Latest(m.Keys);
      assert (set j | j in m && j > k) == {};
    }
  }
}
