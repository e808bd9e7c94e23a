/**
 * A Python `dict` as the source uses it: an insertion-ordered list of
 * key/value pairs. `d[k] = v` replaces the value of an existing key in place
 * and appends a new key at the end; iteration follows insertion order.
 */
module PyDict {

  type Dict<K, V> = seq<(K, V)>

  function Keys<K, V>(d: Dict<K, V>): (ks: seq<K>)
    ensures |ks| == |d|
    ensures forall i :: 0 <= i < |d| ==> ks[i] == d[i].0
  {
    seq(|d|, i requires 0 <= i < |d| => d[i].0)
  }

  /** What every Python dict satisfies: no key twice. */
  ghost predicate UniqueKeys<K, V>(d: Dict<K, V>)
  {
    forall i, j :: 0 <= i < j < |d| ==> d[i].0 != d[j].0
  }

  /** `d[k]` for a key that is present. */
  function Get<K(==), V>(d: Dict<K, V>, k: K): V
    requires k in Keys(d)
    decreases |d|
  {
    if d[0].0 == k then d[0].1 else Get(d[1..], k)
  }

  /** In a dict, `d[k]` is the value stored beside `k`. */
  lemma {:induction false} GetAt<K, V>(d: Dict<K, V>, i: nat)
    requires UniqueKeys(d) && i < |d|
    ensures d[i].0 in Keys(d) && Get(d, d[i].0) == d[i].1
    decreases |d|
  {
    if i > 0 {
      assert d[0].0 != d[i].0;
      assert d[1..][i - 1] == d[i];
      GetAt(d[1..], i - 1);
    }
  }

  /** `d[k] = v`. */
  function Put<K(==), V>(d: Dict<K, V>, k: K, v: V): (r: Dict<K, V>)
    ensures k in Keys(d) ==> Keys(r) == Keys(d)
    ensures k !in Keys(d) ==> r == d + [(k, v)]
    ensures forall i :: 0 <= i < |d| && d[i].0 != k ==> r[i] == d[i]
    decreases |d|
  {
    if d == [] then [(k, v)]
    else if d[0].0 == k then [(k, v)] + d[1..]
    else [d[0]] + Put(d[1..], k, v)
  }

  /** After `d[k] = v`, `d[k]` is `v`. */
  lemma {:induction false} PutGet<K, V>(d: Dict<K, V>, k: K, v: V)
    ensures k in Keys(Put(d, k, v)) && Get(Put(d, k, v), k) == v
    decreases |d|
  {
    var r := Put(d, k, v);
    if d == [] || d[0].0 == k {
      assert Keys(r)[0] == k;
    } else {
      PutGet(d[1..], k, v);
      var r' := Put(d[1..], k, v);
      assert r == [d[0]] + r';
      var i :| 0 <= i < |r'| && Keys(r')[i] == k;
      assert Keys(r)[i + 1] == k;
      assert r[1..] == r';
    }
  }

  /** The only key `d[k] = v` can add is `k`. */
  lemma PutKeys<K, V>(d: Dict<K, V>, k: K, v: V, k': K)
    requires k' in Keys(Put(d, k, v))
    ensures k' == k || k' in Keys(d)
  {
    if k !in Keys(d) {
      var r := Put(d, k, v);
      var i :| 0 <= i < |r| && Keys(r)[i] == k';
      if i < |d| {
        assert Keys(d)[i] == k';
      }
    }
  }

  /** `d[k] = v` keeps the keys unique. */
  lemma {:induction false} PutUnique<K, V>(d: Dict<K, V>, k: K, v: V)
    requires UniqueKeys(d)
    ensures UniqueKeys(Put(d, k, v))
    decreases |d|
  {
    if d != [] && d[0].0 != k {
      var r' := Put(d[1..], k, v);
      assert UniqueKeys(d[1..]);
      PutUnique(d[1..], k, v);
      if d[0].0 in Keys(r') {
        PutKeys(d[1..], k, v, d[0].0);
        assert false;
      }
      assert Put(d, k, v) == [d[0]] + r';
      forall i, j | 0 <= i < j < |[d[0]] + r'| ensures ([d[0]] + r')[i].0 != ([d[0]] + r')[j].0 {
        if i == 0 {
          assert Keys(r')[j - 1] == r'[j - 1].0;
        }
      }
    } else if d != [] {
      assert Put(d, k, v) == [(k, v)] + d[1..];
    }
  }

  /** `d[k] = v` leaves every other key's value as it was. */
  lemma {:induction false} PutOthers<K, V>(d: Dict<K, V>, k: K, v: V, k': K)
    requires k' != k && k' in Keys(d)
    ensures k' in Keys(Put(d, k, v)) && Get(Put(d, k, v), k') == Get(d, k')
    decreases |d|
  {
    if d[0].0 != k' {
      if d[0].0 == k {
        assert Put(d, k, v)[1..] == d[1..];
      } else {
        assert Put(d, k, v)[1..] == Put(d[1..], k, v);
        PutOthers(d[1..], k, v, k');
      }
    }
  }

  /** The dict as a finite map, for statements where order does not matter. */
  function ToMap<K(==), V>(d: Dict<K, V>): (m: map<K, V>)
    ensures m.Keys == set k | k in Keys(d)
    ensures forall k :: k in Keys(d) ==> m[k] == Get(d, k)
  {
    map k | k in Keys(d) :: Get(d, k)
  }

  /** Adding a new last key to a dict adds it to the map view. */
  lemma ToMapSnoc<K, V>(d: Dict<K, V>)
    requires UniqueKeys(d) && d != []
    ensures ToMap(d) == ToMap(d[..|d| - 1])[d[|d| - 1].0 := d[|d| - 1].1]
  {
    var n := |d| - 1;
    var init := d[..n];
    assert Keys(d) == Keys(init) + [d[n].0];
    forall k | k in Keys(init) ensures Get(d, k) == Get(init, k) {
      var i :| 0 <= i < n && Keys(init)[i] == k;
      GetAt(init, i);
      GetAt(d, i);
    }
    GetAt(d, n);
  }
}
