/** Insertion-ordered dictionaries, and the bounded form the adapter caches in. */
module OrderedStore {

  const MAX_CACHED_ITEMS := 128

  /** `keys` is the insertion order; re-assigning a key keeps its place. */
  datatype Store<K(==), V> = Store(keys: seq<K>, vals: map<K, V>) {
    ghost predicate Valid() {
      && (set k | k in keys) == vals.Keys
      && forall i, j :: 0 <= i < j < |keys| ==> keys[i] != keys[j]
    }

    ghost predicate Bounded() { Valid() && |keys| <= MAX_CACHED_ITEMS }

    predicate Has(k: K) { k in vals }

    function Get(k: K): V
      requires Has(k)
    {
      vals[k]
    }

    function Put(k: K, v: V): Store<K, V> {
      Store(if k in vals then keys else keys + [k], vals[k := v])
    }

    function DropOldest(): Store<K, V>
      requires keys != []
    {
      Store(keys[1..], vals - {keys[0]})
    }

    function TrimTo(limit: nat): Store<K, V>
      decreases |keys|
    {
      if |keys| <= limit then this else DropOldest().TrimTo(limit)
    }

    /** `_bounded_store(store, key, value)`. */
    function BoundedPut(k: K, v: V): Store<K, V> {
      Put(k, v).TrimTo(MAX_CACHED_ITEMS)
    }
  }

  lemma PutValid<K, V>(s: Store<K, V>, k: K, v: V)
    requires s.Valid()
    ensures s.Put(k, v).Valid()
  {
  }

  lemma DropOldestValid<K, V>(s: Store<K, V>)
    requires s.Valid() && s.keys != []
    ensures s.DropOldest().Valid()
  {
    var d := s.DropOldest();
    forall x | x in d.vals
      ensures x in d.keys
    {
      assert x in s.vals.Keys;
      var i :| 0 <= i < |s.keys| && s.keys[i] == x;
      assert d.keys[i - 1] == x;
    }
    forall x | x in d.keys
      ensures x in d.vals
    {
      assert x in s.keys;
      assert x in s.vals.Keys;
    }
  }

  /** Storing into a bounded store keeps it bounded and keeps the new entry; the only entry it can
      lose is the oldest, and only when the key is new and the store full. */
  lemma BoundedPutKeeps<K, V>(s: Store<K, V>, k: K, v: V)
    requires s.Bounded()
    ensures s.BoundedPut(k, v).Bounded()
    ensures s.BoundedPut(k, v).vals ==
            if !s.Has(k) && |s.keys| == MAX_CACHED_ITEMS then s.vals[k := v] - {s.keys[0]} else s.vals[k := v]
    ensures s.BoundedPut(k, v).Has(k) && s.BoundedPut(k, v).Get(k) == v
  {
    var p := s.Put(k, v);
    PutValid(s, k, v);
    if |p.keys| > MAX_CACHED_ITEMS {
      DropOldestValid(p);
      assert p.keys[0] == s.keys[0];
      assert p.TrimTo(MAX_CACHED_ITEMS) == p.DropOldest();
    }
  }

  /** The order of eviction is that of insertion: a new key goes last, and a held one keeps its place. */
  lemma BoundedPutKeys<K, V>(s: Store<K, V>, k: K, v: V)
    requires s.Bounded()
    ensures s.BoundedPut(k, v).keys ==
            if s.Has(k) then s.keys
            else if |s.keys| == MAX_CACHED_ITEMS then s.keys[1..] + [k] else s.keys + [k]
  {
    var p := s.Put(k, v);
    if |p.keys| > MAX_CACHED_ITEMS {
      assert p.TrimTo(MAX_CACHED_ITEMS) == p.DropOldest();
    }
  }

  function PutAll<K, V>(s: Store<K, V>, puts: seq<(K, V)>): Store<K, V>
    decreases |puts|
  {
    if puts == [] then s else PutAll(s.BoundedPut(puts[0].0, puts[0].1), puts[1..])
  }

  /** How many keys enter that are not held when they come. */
  function Entering<K, V>(s: Store<K, V>, puts: seq<(K, V)>): nat
    decreases |puts|
  {
    if puts == [] then 0
    else
      (if s.Has(puts[0].0) then 0 else 1) + Entering(s.BoundedPut(puts[0].0, puts[0].1), puts[1..])
  }

  lemma {:induction false} NeverBack<K, V>(s: Store<K, V>, puts: seq<(K, V)>, k: K)
    requires s.Bounded() && !s.Has(k) && forall p :: p in puts ==> p.0 != k
    ensures !PutAll(s, puts).Has(k)
    decreases |puts|
  {
    if puts != [] {
      BoundedPutKeeps(s, puts[0].0, puts[0].1);
      NeverBack(s.BoundedPut(puts[0].0, puts[0].1), puts[1..], k);
    }
  }

  /** Over any run of stores, an entry that is not stored again is still held, with its value, if and only if no more
      than the bound of keys have come since its own, itself included. */
  lemma {:induction false} HeldIff<K, V>(s: Store<K, V>, puts: seq<(K, V)>, i: nat)
    requires s.Bounded() && i < |s.keys| && forall p :: p in puts ==> p.0 != s.keys[i]
    ensures s.Has(s.keys[i])
    ensures var n := PutAll(s, puts);
            && (n.Has(s.keys[i]) <==> |s.keys| - i + Entering(s, puts) <= MAX_CACHED_ITEMS)
            && (n.Has(s.keys[i]) ==> n.Get(s.keys[i]) == s.Get(s.keys[i]))
    decreases |puts|
  {
    KeysAreHeld(s);
    hide Store.BoundedPut, Store.Valid;
    if puts != [] {
      var k, v := puts[0].0, puts[0].1;
      BoundedPutKeeps(s, k, v);
      BoundedPutKeys(s, k, v);
      var n := s.BoundedPut(k, v);
      if s.Has(k) || |s.keys| < MAX_CACHED_ITEMS {
        HeldIff(n, puts[1..], i);
      } else if i > 0 {
        KeyApart(s, i);
        HeldIff(n, puts[1..], i - 1);
      } else {
        NeverBack(n, puts[1..], s.keys[0]);
      }
    }
  }

  lemma KeyApart<K, V>(s: Store<K, V>, i: nat)
    requires s.Valid() && 0 < i < |s.keys|
    ensures s.keys[i] != s.keys[0]
  {
  }

  lemma KeysAreHeld<K, V>(s: Store<K, V>)
    requires s.Valid()
    ensures forall i :: 0 <= i < |s.keys| ==> s.Has(s.keys[i])
  {
    forall i | 0 <= i < |s.keys|
      ensures s.Has(s.keys[i])
    {
      assert s.keys[i] in s.keys;
    }
  }

  /** Within the bound nothing is dropped. */
  lemma BoundedPutFits<K, V>(s: Store<K, V>, k: K, v: V)
    requires |s.Put(k, v).keys| <= MAX_CACHED_ITEMS
    ensures s.BoundedPut(k, v) == s.Put(k, v)
  {
  }

  method BoundedStore<K(==), V>(store: Store<K, V>, k: K, v: V) returns (r: Store<K, V>)
    ensures r == store.BoundedPut(k, v)
  {
    r := store.Put(k, v);
    while |r.keys| > MAX_CACHED_ITEMS
      invariant r.TrimTo(MAX_CACHED_ITEMS) == store.BoundedPut(k, v)
      decreases |r.keys|
    {
      r := r.DropOldest();
    }
  }
}
