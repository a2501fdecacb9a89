/** A map that remembers the order in which its keys first came, as the language's
    own `Map` does; caps evict from its front. */
module InsertionMap {
  import opened Common

  datatype Table<V> = Table(entries: map<string, V>, order: seq<string>)

  ghost predicate Valid<V>(t: Table<V>) {
    (forall i, k :: 0 <= i < k < |t.order| ==> t.order[i] != t.order[k]) &&
    (forall key :: key in t.entries <==> key in t.order)
  }

  /** A known key keeps its place, a new one goes to the end. */
  function Put<V>(t: Table<V>, key: string, value: V): Table<V> {
    Table(t.entries[key := value], if key in t.entries then t.order else t.order + [key])
  }

  function Filter(order: seq<string>, keys: set<string>): seq<string> {
    if order == [] then [] else (if order[0] in keys then [order[0]] else []) + Filter(order[1..], keys)
  }

  /** Only the entries under `keys`, in the same order. */
  function Restrict<V>(t: Table<V>, keys: set<string>): Table<V> {
    Table(map key | key in t.entries && key in keys :: t.entries[key], Filter(t.order, keys))
  }

  function Drop<V>(t: Table<V>, key: string): Table<V> {
    Restrict(t, t.entries.Keys - {key})
  }

  /** The oldest entries go until at most `cap` are left. */
  ghost function Evict<V>(t: Table<V>, cap: nat): Table<V>
    requires Valid(t)
    decreases |t.order|
  {
    if |t.order| <= cap then t
    else
      DropIsValid(t, t.order[0]);
      DropIsShorter(t, t.order[0]);
      Evict(Drop(t, t.order[0]), cap)
  }

  lemma {:induction false} FilterKeeps(order: seq<string>, keys: set<string>, key: string)
    ensures key in Filter(order, keys) <==> key in order && key in keys
  {
    if order != [] { FilterKeeps(order[1..], keys, key); }
  }

  lemma {:induction false} FilterIsDistinct(order: seq<string>, keys: set<string>)
    requires forall i, k :: 0 <= i < k < |order| ==> order[i] != order[k]
    ensures var f := Filter(order, keys); forall i, k :: 0 <= i < k < |f| ==> f[i] != f[k]
  {
    if order != [] {
      FilterIsDistinct(order[1..], keys);
      FilterKeeps(order[1..], keys, order[0]);
    }
  }

  lemma {:induction false} FilterIsShorter(order: seq<string>, keys: set<string>)
    ensures |Filter(order, keys)| <= |order|
    ensures (exists key <- order :: key !in keys) ==> |Filter(order, keys)| < |order|
    ensures (forall key <- order :: key in keys) ==> Filter(order, keys) == order
  {
    if order != [] {
      FilterIsShorter(order[1..], keys);
      if key :| key in order && key !in keys && key != order[0] {
        assert key in order[1..];
      }
    }
  }

  lemma PutIsValid<V>(t: Table<V>, key: string, value: V)
    requires Valid(t)
    ensures Valid(Put(t, key, value))
  {
  }

  lemma RestrictIsValid<V>(t: Table<V>, keys: set<string>)
    requires Valid(t)
    ensures Valid(Restrict(t, keys))
  {
    FilterIsDistinct(t.order, keys);
    var r := Restrict(t, keys);
    assert r.order == Filter(t.order, keys);
    assert forall i, k :: 0 <= i < k < |r.order| ==> r.order[i] != r.order[k];
    forall key ensures key in Restrict(t, keys).order <==> key in t.order && key in keys {
      FilterKeeps(t.order, keys, key);
    }
  }

  lemma DropIsValid<V>(t: Table<V>, key: string)
    requires Valid(t)
    ensures Valid(Drop(t, key))
  {
    RestrictIsValid(t, t.entries.Keys - {key});
  }

  lemma DropIsShorter<V>(t: Table<V>, key: string)
    requires Valid(t) && key in t.order
    ensures |Drop(t, key).order| < |t.order|
  {
    FilterIsShorter(t.order, t.entries.Keys - {key});
  }

  /** Eviction only takes entries away, and brings the table to its cap. */
  lemma {:induction false} EvictOnlyTakes<V>(t: Table<V>, cap: nat)
    requires Valid(t)
    ensures var e := Evict(t, cap);
            Valid(e) && |e.order| <= cap &&
            forall key <- e.entries :: key in t.entries && e.entries[key] == t.entries[key]
    decreases |t.order|
  {
    if |t.order| > cap {
      DropIsValid(t, t.order[0]);
      DropIsShorter(t, t.order[0]);
      EvictOnlyTakes(Drop(t, t.order[0]), cap);
    }
  }

  lemma SizeIsLength<V>(t: Table<V>)
    requires Valid(t)
    ensures |t.entries.Keys| == |t.order|
    decreases |t.order|
  {
    DistinctSize(t.order);
    assert t.entries.Keys == set key | key in t.order;
  }

  lemma {:induction false} DistinctSize(order: seq<string>)
    requires forall i, k :: 0 <= i < k < |order| ==> order[i] != order[k]
    ensures |set key | key in order| == |order|
  {
    if order == [] {
      assert (set key | key in order) == {};
    } else {
      DistinctSize(order[1..]);
      assert (set key | key in order) == (set key | key in order[1..]) + {order[0]};
    }
  }

  /* ------------------------------------ ageing ---------------------------------- */

  /** Keys stored one after the other. */
  function PutAll<V>(t: Table<V>, keys: seq<string>, value: V): Table<V>
    decreases |keys|
  {
    if keys == [] then t else PutAll(Put(t, keys[0], value), keys[1..], value)
  }

  lemma {:induction false} PutAllIsValid<V>(t: Table<V>, keys: seq<string>, value: V)
    requires Valid(t)
    ensures Valid(PutAll(t, keys, value))
    decreases |keys|
  {
    if keys != [] {
      PutIsValid(t, keys[0], value);
      PutAllIsValid(Put(t, keys[0], value), keys[1..], value);
    }
  }

  predicate AllNew<V>(t: Table<V>, keys: seq<string>) {
    (forall i, k :: 0 <= i < k < |keys| ==> keys[i] != keys[k]) && forall i :: 0 <= i < |keys| ==> keys[i] !in t.entries
  }

  lemma RestIsNew<V>(t: Table<V>, keys: seq<string>, value: V)
    requires keys != [] && AllNew(t, keys)
    ensures AllNew(Put(t, keys[0], value), keys[1..]) && Put(t, keys[0], value).order == t.order + [keys[0]]
  {
  }

  /** New keys line up in the order they came, whatever happens to those known. */
  lemma {:induction false} OrderIsArrival<V>(t: Table<V>, keys: seq<string>, value: V)
    requires AllNew(t, keys)
    ensures PutAll(t, keys, value).order == t.order + keys
    decreases |keys|
  {
    if keys == [] {
      assert t.order + keys == t.order;
    } else {
      RestIsNew(t, keys, value);
      OrderIsArrival(Put(t, keys[0], value), keys[1..], value);
      assert t.order + [keys[0]] + keys[1..] == t.order + keys;
    }
  }

  lemma {:induction false} FilterAll(order: seq<string>, keys: set<string>)
    requires forall key <- order :: key in keys
    ensures Filter(order, keys) == order
  {
    if order != [] { FilterAll(order[1..], keys); }
  }

  lemma DropFirst<V>(t: Table<V>)
    requires Valid(t) && t.order != []
    ensures Drop(t, t.order[0]).order == t.order[1..]
  {
    var keys := t.entries.Keys - {t.order[0]};
    forall key <- t.order[1..] ensures key in keys {
      assert key in t.order;
    }
    FilterAll(t.order[1..], keys);
  }

  /** Eviction leaves the newest keys, as many as the cap allows. */
  lemma {:induction false} EvictKeepsNewest<V>(t: Table<V>, cap: nat)
    requires Valid(t)
    ensures Evict(t, cap).order == if |t.order| <= cap then t.order else t.order[|t.order| - cap..]
    decreases |t.order|
  {
    if |t.order| > cap {
      DropIsValid(t, t.order[0]);
      DropFirst(t);
      EvictKeepsNewest(Drop(t, t.order[0]), cap);
    }
  }

  /** So of any number of keys that came, the last ones to come are kept. */
  lemma NewestAreKept<V>(keys: seq<string>, value: V, cap: nat)
    requires forall i, k :: 0 <= i < k < |keys| ==> keys[i] != keys[k]
    ensures var all := PutAll(Table(map[], []), keys, value);
            Valid(all) && Evict(all, cap).order == if |keys| <= cap then keys else keys[|keys| - cap..]
  {
    var none: Table<V> := Table(map[], []);
    PutAllIsValid(none, keys, value);
    OrderIsArrival(none, keys, value);
    assert none.order + keys == keys;
    EvictKeepsNewest(PutAll(none, keys, value), cap);
  }

  /* ------------------------------------ the loops ------------------------------- */

  function Fresh<V>(t: Table<V>, stale: V -> bool): set<string> {
    set key | key in t.entries && !stale(t.entries[key])
  }

  /** The keys left once the first `n` in order have been looked at. */
  function LeftAfter<V>(t: Table<V>, stale: V -> bool, n: nat): set<string>
    requires n <= |t.order|
  {
    set key | key in t.entries && !(key in t.order[..n] && stale(t.entries[key]))
  }

  lemma {:induction false} FilterTwice(order: seq<string>, a: set<string>, b: set<string>)
    ensures Filter(Filter(order, a), b) == Filter(order, a * b)
  {
    if order != [] {
      var rest := Filter(order[1..], a);
      FilterTwice(order[1..], a, b);
      assert Filter(order, a) == if order[0] in a then [order[0]] + rest else rest;
      assert Filter(order, a * b) == (if order[0] in a * b then [order[0]] else []) + Filter(rest, b);
      if order[0] in a {
        assert ([order[0]] + rest)[1..] == rest;
      }
    }
  }

  lemma RestrictTwice<V>(t: Table<V>, a: set<string>, b: set<string>)
    ensures Restrict(Restrict(t, a), b) == Restrict(t, a * b)
  {
    FilterTwice(t.order, a, b);
  }

  lemma RestrictToAll<V>(t: Table<V>)
    requires Valid(t)
    ensures Restrict(t, t.entries.Keys) == t
  {
    FilterIsShorter(t.order, t.entries.Keys);
  }

  lemma OneLookedAt<V>(t: Table<V>, stale: V -> bool, i: nat)
    requires Valid(t) && i < |t.order|
    ensures var r, key := Restrict(t, LeftAfter(t, stale, i)), t.order[i];
            key in r.entries && r.entries[key] == t.entries[key] &&
            Restrict(t, LeftAfter(t, stale, i + 1)) == if stale(t.entries[key]) then Drop(r, key) else r
  {
    var left, key := LeftAfter(t, stale, i), t.order[i];
    assert t.order[..i + 1] == t.order[..i] + [key];
    assert key in t.order && key !in t.order[..i];
    if stale(t.entries[key]) {
      var others := Restrict(t, left).entries.Keys - {key};
      assert LeftAfter(t, stale, i + 1) == left * others;
      RestrictTwice(t, left, others);
    } else {
      assert LeftAfter(t, stale, i + 1) == left;
    }
  }

  /** Deletes while it iterates, as the language allows. */
  method Sweep<V>(t: Table<V>, stale: V -> bool) returns (r: Table<V>)
    requires Valid(t)
    ensures r == Restrict(t, Fresh(t, stale))
  {
    r := t;
    RestrictToAll(t);
    assert LeftAfter(t, stale, 0) == t.entries.Keys;
    for i := 0 to |t.order|
      invariant r == Restrict(t, LeftAfter(t, stale, i))
    {
      var key := t.order[i];
      OneLookedAt(t, stale, i);
      if stale(r.entries[key]) { r := Drop(r, key); }
    }
    assert LeftAfter(t, stale, |t.order|) == Fresh(t, stale);
  }

  method EvictOldest<V>(t: Table<V>, cap: nat) returns (r: Table<V>)
    requires Valid(t)
    ensures r == Evict(t, cap)
  {
    r := t;
    while |r.order| > cap
      invariant Valid(r) && Evict(r, cap) == Evict(t, cap)
      decreases |r.order|
    {
      DropIsValid(r, r.order[0]);
      DropIsShorter(r, r.order[0]);
      r := Drop(r, r.order[0]);
    }
  }
}
