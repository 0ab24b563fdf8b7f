/** Facts shared by the modules: optional values and the size of a map after one change. */
module Common {

  datatype Option<+T> = None | Some(value: T)

  /** Taking one key out of a map makes it smaller by exactly one. */
  lemma RemoveCard<K, V>(m: map<K, V>, k: K)
    requires k in m
    ensures |m - {k}| == |m| - 1
  {
    assert (m - {k}).Keys == m.Keys - {k};
  }

  /** Writing a key makes a map larger by one exactly when the key is new. */
  lemma InsertCard<K, V>(m: map<K, V>, k: K, v: V)
    ensures |m[k := v]| == if k in m then |m| else |m| + 1
  {
    assert m[k := v].Keys == m.Keys + {k};
  }

  /** A map is empty exactly when it has no key. */
  lemma EmptyCard<K, V>(m: map<K, V>)
    ensures |m| == 0 <==> forall k :: k !in m
  {
    if m != map[] {
      var k :| k in m;
      RemoveCard(m, k);
    }
  }

  /** A map with fewer keys is no larger. */
  lemma {:induction false} SubsetCard<K, V>(m: map<K, V>, n: map<K, V>)
    requires m.Keys <= n.Keys
    ensures |m| <= |n|
    decreases |m|
  {
    if m != map[] {
      var k :| k in m;
      RemoveCard(m, k);
      RemoveCard(n, k);
      SubsetCard(m - {k}, n - {k});
    }
  }
}
