/**
 * Kotlin's default `Map` is a `LinkedHashMap`: it iterates in insertion order, `put` on a
 * present key replaces the value in place and `put` on a new key appends. The maps whose
 * order the core observes (equalizer bands, saved configs) are modelled as lists of
 * entries with distinct keys; `ToMap` gives the plain map they stand for.
 */
module LinkedMaps {
  import opened Wrappers

  type Entries<K, V> = seq<(K, V)>

  /** No key occurs twice. */
  predicate DistinctKeys<K(==), V>(kvs: Entries<K, V>) {
    forall i, j :: 0 <= i < j < |kvs| ==> kvs[i].0 != kvs[j].0
  }

  function Keys<K(==), V>(kvs: Entries<K, V>): (ks: set<K>)
    ensures forall i :: 0 <= i < |kvs| ==> kvs[i].0 in ks
    ensures forall k :: k in ks ==> exists i :: 0 <= i < |kvs| && kvs[i].0 == k
  {
    set i | 0 <= i < |kvs| :: kvs[i].0
  }

  /** `keys.toList()`: the keys in iteration order. */
  function KeyList<K(==), V>(kvs: Entries<K, V>): (ks: seq<K>)
    ensures |ks| == |kvs| && forall i :: 0 <= i < |kvs| ==> ks[i] == kvs[i].0
  {
    seq(|kvs|, i requires 0 <= i < |kvs| => kvs[i].0)
  }

  /** `values.toList()`: the values in iteration order. */
  function Values<K(==), V>(kvs: Entries<K, V>): (vs: seq<V>)
    ensures |vs| == |kvs| && forall i :: 0 <= i < |kvs| ==> vs[i] == kvs[i].1
  {
    seq(|kvs|, i requires 0 <= i < |kvs| => kvs[i].1)
  }

  /** The keys of a non-empty list: its first key and the keys of the rest. */
  lemma KeysCons<K, V>(kvs: Entries<K, V>)
    requires kvs != []
    ensures Keys(kvs) == {kvs[0].0} + Keys(kvs[1..])
  {
    forall x | x in Keys(kvs) ensures x in {kvs[0].0} + Keys(kvs[1..]) {
      var i :| 0 <= i < |kvs| && kvs[i].0 == x;
      if i > 0 { assert kvs[1..][i - 1].0 == x; }
    }
    forall x | x in Keys(kvs[1..]) ensures x in Keys(kvs) {
      var i :| 0 <= i < |kvs[1..]| && kvs[1..][i].0 == x;
      assert kvs[i + 1].0 == x;
    }
  }

  /** The plain map an entry list stands for; an earlier entry wins over a later one
      with the same key (which a list with distinct keys never has). */
  function ToMap<K(==), V>(kvs: Entries<K, V>): (m: map<K, V>)
    ensures m.Keys == Keys(kvs)
  {
    if kvs == [] then map[]
    else
      KeysCons(kvs);
      ToMap(kvs[1..])[kvs[0].0 := kvs[0].1]
  }

  /** `m[k]`, null when absent. */
  function Get<K(==), V>(kvs: Entries<K, V>, k: K): (r: Option<V>)
    ensures r.None? <==> k !in Keys(kvs)
  {
    var m := ToMap(kvs);
    if k in m then Some(m[k]) else None
  }

  /** The entry at position i is what its key maps to. */
  lemma {:induction false} ToMapAt<K, V>(kvs: Entries<K, V>, i: nat)
    requires DistinctKeys(kvs) && i < |kvs|
    ensures kvs[i].0 in ToMap(kvs) && ToMap(kvs)[kvs[i].0] == kvs[i].1
  {
    if i > 0 {
      assert kvs[1..][i - 1] == kvs[i];
      assert kvs[0].0 != kvs[i].0;
      ToMapAt(kvs[1..], i - 1);
    }
  }

  /** `put(k, v)` on a copy (`m + (k to v)`, `toMutableMap().apply { put(k, v) }`). */
  function Put<K(==), V>(kvs: Entries<K, V>, k: K, v: V): (r: Entries<K, V>)
  {
    if kvs == [] then [(k, v)]
    else if kvs[0].0 == k then [(k, v)] + kvs[1..]
    else [kvs[0]] + Put(kvs[1..], k, v)
  }

  /** `put` keeps every other entry where it stands and either replaces the entry of a
      present key in place or appends a new one. */
  lemma {:induction false} PutPositions<K, V>(kvs: Entries<K, V>, k: K, v: V)
    ensures k in Keys(kvs) ==> |Put(kvs, k, v)| == |kvs|
    ensures k !in Keys(kvs) ==> Put(kvs, k, v) == kvs + [(k, v)]
    ensures forall i :: 0 <= i < |kvs| && kvs[i].0 != k ==> Put(kvs, k, v)[i] == kvs[i]
  {
    if kvs != [] {
      KeysCons(kvs);
      if kvs[0].0 != k {
        PutPositions(kvs[1..], k, v);
        assert Put(kvs, k, v) == [kvs[0]] + Put(kvs[1..], k, v);
        assert kvs == [kvs[0]] + kvs[1..];
      }
    }
  }

  /** After `put`, the keys are the old keys and `k`. */
  lemma {:induction false} PutKeys<K, V>(kvs: Entries<K, V>, k: K, v: V)
    ensures Keys(Put(kvs, k, v)) == Keys(kvs) + {k}
  {
    var r := Put(kvs, k, v);
    KeysCons(r);
    if kvs == [] {
      assert r[1..] == [];
      assert Keys<K, V>([]) == {};
    } else {
      KeysCons(kvs);
      if kvs[0].0 != k {
        PutKeys(kvs[1..], k, v);
        assert r[1..] == Put(kvs[1..], k, v);
      } else {
        assert r[1..] == kvs[1..];
      }
    }
  }

  /** Keys are distinct in a list exactly when they are in its tail and the head's key
      is not among the tail's. */
  lemma DistinctCons<K, V>(kvs: Entries<K, V>)
    requires kvs != []
    ensures DistinctKeys(kvs) <==> DistinctKeys(kvs[1..]) && kvs[0].0 !in Keys(kvs[1..])
  {
    var t := kvs[1..];
    if DistinctKeys(t) && kvs[0].0 !in Keys(t) {
      forall i, j | 0 <= i < j < |kvs| ensures kvs[i].0 != kvs[j].0 {
        assert kvs[j] == t[j - 1];
        if i > 0 { assert kvs[i] == t[i - 1]; }
      }
    }
    if DistinctKeys(kvs) {
      forall i, j | 0 <= i < j < |t| ensures t[i].0 != t[j].0 {
        assert t[i] == kvs[i + 1] && t[j] == kvs[j + 1];
      }
      forall m | 0 <= m < |t| ensures t[m].0 != kvs[0].0 {
        assert t[m] == kvs[m + 1];
      }
    }
  }

  /** `put` keeps keys distinct. */
  lemma {:induction false} PutDistinct<K, V>(kvs: Entries<K, V>, k: K, v: V)
    requires DistinctKeys(kvs)
    ensures DistinctKeys(Put(kvs, k, v))
  {
    var r := Put(kvs, k, v);
    if kvs != [] {
      DistinctCons(kvs);
      DistinctCons(r);
      if kvs[0].0 != k {
        PutDistinct(kvs[1..], k, v);
        PutKeys(kvs[1..], k, v);
        assert r[1..] == Put(kvs[1..], k, v);
      } else {
        assert r[1..] == kvs[1..];
      }
    }
  }

  /** As a plain map, `put` sets exactly key `k`. */
  lemma {:induction false} PutToMap<K, V>(kvs: Entries<K, V>, k: K, v: V)
    ensures ToMap(Put(kvs, k, v)) == ToMap(kvs)[k := v]
  {
    if kvs != [] {
      var r, m := Put(kvs, k, v), ToMap(kvs[1..]);
      if kvs[0].0 != k {
        PutToMap(kvs[1..], k, v);
        assert r[0] == kvs[0] && r[1..] == Put(kvs[1..], k, v);
        UpdateSwap(m, k, v, kvs[0].0, kvs[0].1);
      } else {
        assert r[0] == (k, v) && r[1..] == kvs[1..];
        UpdateTwice(m, k, kvs[0].1, v);
      }
    }
  }

  /** Setting two different keys in either order gives the same map. */
  lemma UpdateSwap<K, V>(m: map<K, V>, a: K, x: V, b: K, y: V)
    requires a != b
    ensures m[a := x][b := y] == m[b := y][a := x]
  {
  }

  /** Setting a key twice keeps the second value. */
  lemma UpdateTwice<K, V>(m: map<K, V>, a: K, x: V, y: V)
    ensures m[a := x][a := y] == m[a := y]
  {
  }

  /** Every entry after `put` is the new one or an old one. */
  lemma {:induction false} PutMembers<K, V>(kvs: Entries<K, V>, k: K, v: V)
    ensures forall p :: p in Put(kvs, k, v) ==> p == (k, v) || p in kvs
  {
    if kvs != [] {
      if kvs[0].0 != k {
        PutMembers(kvs[1..], k, v);
        assert Put(kvs, k, v) == [kvs[0]] + Put(kvs[1..], k, v);
        assert kvs == [kvs[0]] + kvs[1..];
      } else {
        assert Put(kvs, k, v) == [(k, v)] + kvs[1..];
        assert kvs == [kvs[0]] + kvs[1..];
      }
    }
  }

  /** `put` leaves every existing key at its position. */
  lemma {:induction false} PutKeysInPlace<K, V>(kvs: Entries<K, V>, k: K, v: V)
    ensures |kvs| <= |Put(kvs, k, v)|
    ensures forall i :: 0 <= i < |kvs| ==> Put(kvs, k, v)[i].0 == kvs[i].0
  {
    if kvs != [] {
      var r := Put(kvs, k, v);
      if kvs[0].0 != k {
        PutKeysInPlace(kvs[1..], k, v);
        assert r == [kvs[0]] + Put(kvs[1..], k, v);
        assert forall i :: 1 <= i < |kvs| ==> r[i] == Put(kvs[1..], k, v)[i - 1];
      } else {
        assert r == [(k, v)] + kvs[1..];
      }
    }
  }

  /** Replacing the value of a present key keeps the key order. */
  lemma PutKeyList<K, V>(kvs: Entries<K, V>, k: K, v: V)
    requires k in Keys(kvs)
    ensures KeyList(Put(kvs, k, v)) == KeyList(kvs)
  {
    PutPositions(kvs, k, v);
    PutKeysInPlace(kvs, k, v);
  }

  /** `filterKeys { keep(it) }` (and `filter` on the key): keeps order. */
  function FilterKeys<K(==), V>(kvs: Entries<K, V>, keep: K -> bool): (r: Entries<K, V>)
    ensures |r| <= |kvs|
  {
    if kvs == [] then []
    else (if keep(kvs[0].0) then [kvs[0]] else []) + FilterKeys(kvs[1..], keep)
  }

  /** The filter keeps exactly the entries whose key passes. */
  lemma {:induction false} FilterKeysMembers<K, V>(kvs: Entries<K, V>, keep: K -> bool)
    ensures forall p :: p in FilterKeys(kvs, keep) ==> p in kvs && keep(p.0)
    ensures forall p :: p in kvs && keep(p.0) ==> p in FilterKeys(kvs, keep)
  {
    if kvs != [] {
      FilterKeysMembers(kvs[1..], keep);
      assert kvs == [kvs[0]] + kvs[1..];
    }
  }

  /** Filtering keeps keys distinct. */
  lemma {:induction false} FilterKeysDistinct<K, V>(kvs: Entries<K, V>, keep: K -> bool)
    requires DistinctKeys(kvs)
    ensures DistinctKeys(FilterKeys(kvs, keep))
  {
    if kvs != [] {
      var rest := FilterKeys(kvs[1..], keep);
      DistinctCons(kvs);
      FilterKeysDistinct(kvs[1..], keep);
      if keep(kvs[0].0) {
        var r := [kvs[0]] + rest;
        FilterKeysMembers(kvs[1..], keep);
        forall i | 0 <= i < |rest| ensures rest[i].0 != kvs[0].0 {
          var q := rest[i];
          assert q in FilterKeys(kvs[1..], keep);
          assert q in kvs[1..];
          var j :| 0 <= j < |kvs[1..]| && kvs[1..][j] == q;
          assert q.0 in Keys(kvs[1..]);
        }
        assert r[1..] == rest;
        DistinctCons(r);
      }
    }
  }

  /** A filter every key passes leaves the list as it is. */
  lemma {:induction false} FilterKeysAll<K, V>(kvs: Entries<K, V>, keep: K -> bool)
    requires forall i :: 0 <= i < |kvs| ==> keep(kvs[i].0)
    ensures FilterKeys(kvs, keep) == kvs
  {
    if kvs != [] {
      assert forall i :: 0 <= i < |kvs[1..]| ==> kvs[1..][i] == kvs[i + 1];
      FilterKeysAll(kvs[1..], keep);
      assert kvs == [kvs[0]] + kvs[1..];
    }
  }

  /** The plain map restricted to the keys `keep` accepts. */
  function Restrict<K(==), V>(m: map<K, V>, keep: K -> bool): (r: map<K, V>)
    ensures forall k :: k in r ==> k in m && keep(k) && r[k] == m[k]
    ensures forall k :: k in m && keep(k) ==> k in r
  {
    map k | k in m && keep(k) :: m[k]
  }

  /** Restricting commutes with setting a key. */
  lemma RestrictUpdate<K, V>(m: map<K, V>, keep: K -> bool, k: K, v: V)
    ensures keep(k) ==> Restrict(m[k := v], keep) == Restrict(m, keep)[k := v]
    ensures !keep(k) ==> Restrict(m[k := v], keep) == Restrict(m, keep)
  {
    if keep(k) {
      var a := Restrict(m[k := v], keep);
      var b := Restrict(m, keep)[k := v];
      assert a.Keys == b.Keys;
    } else {
      var a := Restrict(m[k := v], keep);
      var b := Restrict(m, keep);
      assert a.Keys == b.Keys;
    }
  }

  /** As a plain map, filtering keeps exactly the kept keys and their values. */
  lemma {:induction false} FilterKeysToMap<K, V>(kvs: Entries<K, V>, keep: K -> bool)
    ensures ToMap(FilterKeys(kvs, keep)) == Restrict(ToMap(kvs), keep)
  {
    if kvs != [] {
      FilterKeysToMap(kvs[1..], keep);
      RestrictUpdate(ToMap(kvs[1..]), keep, kvs[0].0, kvs[0].1);
      var rest := FilterKeys(kvs[1..], keep);
      if keep(kvs[0].0) {
        var r := [kvs[0]] + rest;
        assert FilterKeys(kvs, keep) == r;
        assert r[0] == kvs[0] && r[1..] == rest;
      } else {
        assert FilterKeys(kvs, keep) == [] + rest == rest;
      }
    }
  }

  /** `mapValues { f(it.value) }`: same keys, same order. */
  function MapValues<K(==), V, W>(kvs: Entries<K, V>, f: V -> W): (r: Entries<K, W>)
    ensures |r| == |kvs| && forall i :: 0 <= i < |kvs| ==> r[i] == (kvs[i].0, f(kvs[i].1))
  {
    seq(|kvs|, i requires 0 <= i < |kvs| => (kvs[i].0, f(kvs[i].1)))
  }

  /** `keys.associateWith(f)`: an entry per distinct key, in order of first occurrence. */
  function AssociateWith<K(==), V>(keys: seq<K>, f: K -> V): (r: Entries<K, V>)
    decreases |keys|
  {
    if keys == [] then []
    else Put(AssociateWith(keys[..|keys| - 1], f), keys[|keys| - 1], f(keys[|keys| - 1]))
  }

  /** `associateWith` holds no key twice. */
  lemma {:induction false} AssociateWithDistinct<K, V>(keys: seq<K>, f: K -> V)
    ensures DistinctKeys(AssociateWith(keys, f))
  {
    if keys != [] {
      var init := keys[..|keys| - 1];
      AssociateWithDistinct(init, f);
      PutDistinct(AssociateWith(init, f), keys[|keys| - 1], f(keys[|keys| - 1]));
    }
  }

  /** `associateWith` has exactly the given keys. */
  lemma {:induction false} AssociateWithKeys<K, V>(keys: seq<K>, f: K -> V)
    ensures Keys(AssociateWith(keys, f)) == set k | k in keys
  {
    if keys != [] {
      var init := keys[..|keys| - 1];
      var last := keys[|keys| - 1];
      AssociateWithKeys(init, f);
      PutKeys(AssociateWith(init, f), last, f(last));
      assert keys == init + [last];
      assert (set k | k in keys) == (set k | k in init) + {last};
    }
  }

  /** As a plain map, `associateWith` maps every given key `k` to `f(k)`. */
  lemma {:induction false} AssociateWithToMap<K, V>(keys: seq<K>, f: K -> V)
    ensures ToMap(AssociateWith(keys, f)) == map k | k in keys :: f(k)
  {
    if keys != [] {
      var init := keys[..|keys| - 1];
      var last := keys[|keys| - 1];
      AssociateWithToMap(init, f);
      PutToMap(AssociateWith(init, f), last, f(last));
      assert keys == init + [last];
      var want := map k | k in keys :: f(k);
      var got := ToMap(AssociateWith(keys, f));
      assert got == (map k | k in init :: f(k))[last := f(last)];
      assert got.Keys == want.Keys;
    }
  }

  /** `associateWith` looks only at the given keys. */
  lemma {:induction false} AssociateWithCongruent<K, V>(keys: seq<K>, f: K -> V, g: K -> V)
    requires forall k :: k in keys ==> f(k) == g(k)
    ensures AssociateWith(keys, f) == AssociateWith(keys, g)
  {
    if keys != [] {
      var init := keys[..|keys| - 1];
      assert forall k :: k in init ==> k in keys;
      AssociateWithCongruent(init, f, g);
      assert keys[|keys| - 1] in keys;
    }
  }

  /** Looking a key up in `associateWith`. */
  lemma AssociateWithGet<K, V>(keys: seq<K>, f: K -> V, k: K)
    ensures Get(AssociateWith(keys, f), k) == if k in keys then Some(f(k)) else None
  {
    AssociateWithToMap(keys, f);
  }
}
