/** Python dictionaries: keys are unique and keep the order of their first insertion. */
module OrderedDict {
  import opened Wrappers

  type Dict<K, V> = seq<(K, V)>

  ghost predicate DistinctKeys<K, V>(d: Dict<K, V>) {
    forall i, j :: 0 <= i < j < |d| ==> d[i].0 != d[j].0
  }

  function Get<K(==), V>(d: Dict<K, V>, k: K): Option<V> {
    if d == [] then None else if d[0].0 == k then Some(d[0].1) else Get(d[1..], k)
  }

  /** `d[k] = v`: an existing key keeps its place. */
  function Put<K(==), V>(d: Dict<K, V>, k: K, v: V): Dict<K, V> {
    if d == [] then [(k, v)] else if d[0].0 == k then [(k, v)] + d[1..] else [d[0]] + Put(d[1..], k, v)
  }

  function Keys<K, V>(d: Dict<K, V>): seq<K> {
    seq(|d|, i requires 0 <= i < |d| => d[i].0)
  }

  lemma {:induction false} GetFinds<K, V>(d: Dict<K, V>, k: K)
    ensures Get(d, k).Some? <==> exists i :: 0 <= i < |d| && d[i].0 == k
    ensures Get(d, k).Some? ==> exists i :: 0 <= i < |d| && d[i] == (k, Get(d, k).value)
  {
    if d != [] && d[0].0 != k {
      GetFinds(d[1..], k);
      if j :| 0 <= j < |d| && d[j].0 == k {
        assert d[1..][j - 1].0 == k;
      }
      if Get(d, k).Some? {
        var i :| 0 <= i < |d[1..]| && d[1..][i] == (k, Get(d, k).value);
        assert d[i + 1] == (k, Get(d, k).value);
      }
    }
  }

  /** With distinct keys, every entry is found under its key. */
  lemma {:induction false} GetAt<K, V>(d: Dict<K, V>, i: nat)
    requires i < |d| && DistinctKeys(d)
    ensures Get(d, d[i].0) == Some(d[i].1)
  {
    if i == 0 {
    } else {
      assert d[0].0 != d[i].0;
      GetAt(d[1..], i - 1);
    }
  }

  /** With distinct keys, what is found is exactly what is stored. */
  lemma Lookup<K, V>(d: Dict<K, V>, k: K)
    requires DistinctKeys(d)
    ensures forall i :: 0 <= i < |d| && d[i].0 == k ==> Get(d, k) == Some(d[i].1)
    ensures Get(d, k).None? <==> forall i :: 0 <= i < |d| ==> d[i].0 != k
  {
    GetFinds(d, k);
    forall i | 0 <= i < |d| && d[i].0 == k ensures Get(d, k) == Some(d[i].1) {
      GetAt(d, i);
    }
  }

  lemma {:induction false} GetAfterPut<K, V>(d: Dict<K, V>, k: K, v: V, k': K)
    ensures Get(Put(d, k, v), k') == if k' == k then Some(v) else Get(d, k')
  {
    if d != [] && d[0].0 != k {
      GetAfterPut(d[1..], k, v, k');
    }
  }

  lemma {:induction false} PutKeys<K, V>(d: Dict<K, V>, k: K, v: V)
    ensures Keys(Put(d, k, v)) == if Get(d, k).Some? then Keys(d) else Keys(d) + [k]
  {
    if d != [] && d[0].0 != k {
      PutKeys(d[1..], k, v);
      var p := Put(d[1..], k, v);
      assert Keys([d[0]] + p) == [d[0].0] + Keys(p);
      assert Keys(d) == [d[0].0] + Keys(d[1..]);
    }
  }

  lemma PutKeepsDistinct<K, V>(d: Dict<K, V>, k: K, v: V)
    requires DistinctKeys(d)
    ensures DistinctKeys(Put(d, k, v))
  {
    PutKeys(d, k, v);
    GetFinds(d, k);
    var p := Put(d, k, v);
    forall i, j | 0 <= i < j < |p| ensures p[i].0 != p[j].0 {
      assert p[i].0 == Keys(p)[i] && p[j].0 == Keys(p)[j] && |Keys(p)| == |p|;
      assert i < |d| ==> Keys(d)[i] == d[i].0;
      assert j < |d| ==> Keys(d)[j] == d[j].0;
    }
  }

  /** A new key goes to the end. */
  lemma {:induction false} PutNew<K, V>(d: Dict<K, V>, k: K, v: V)
    requires Get(d, k).None?
    ensures Put(d, k, v) == d + [(k, v)]
  {
    if d == [] {
    } else {
      PutNew(d[1..], k, v);
      assert d == [d[0]] + d[1..];
    }
  }

  /** Every entry after a `Put` is an old entry or the new one. */
  lemma {:induction false} PutAt<K, V>(d: Dict<K, V>, key: K, v: V)
    ensures forall i :: 0 <= i < |Put(d, key, v)| ==>
              Put(d, key, v)[i] == (key, v) || (i < |d| && Put(d, key, v)[i] == d[i])
  {
    if d != [] && d[0].0 != key {
      PutAt(d[1..], key, v);
      var p := Put(d[1..], key, v);
      forall i | 0 <= i < |Put(d, key, v)|
        ensures Put(d, key, v)[i] == (key, v) || (i < |d| && Put(d, key, v)[i] == d[i])
      {
        if i > 0 {
          assert Put(d, key, v)[i] == p[i - 1];
        }
      }
    }
  }
}
