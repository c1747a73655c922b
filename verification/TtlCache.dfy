// The sharded LRU cache with per-entry expiry: in each shard a map into a
// recency list of mutable elements, kept in agreement.
module TtlCache {
  import opened Wrappers
  import L = TtlLines

  class Element<V> {
    const key: string
    var value: V
    var expiresAt: nat

    constructor (key: string, value: V, expiresAt: nat)
      ensures this.key == key && this.value == value && this.expiresAt == expiresAt
    {
      this.key := key;
      this.value := value;
      this.expiresAt := expiresAt;
    }
  }

  // ---- The recency list, front first ----

  ghost predicate Within<V>(order: seq<Element<V>>, repr: set<Element<V>>) {
    order == [] || (order[0] in repr && Within(order[1..], repr))
  }

  // The list as values.
  ghost function LinesOf<V>(order: seq<Element<V>>, repr: set<Element<V>>): (lines: seq<L.Line<V>>)
    requires Within(order, repr)
    reads repr
    ensures |lines| == |order|
  {
    if order == [] then []
    else [L.Line(order[0].key, order[0].value, order[0].expiresAt)] + LinesOf(order[1..], repr)
  }

  function KeysOf<V>(order: seq<Element<V>>): set<string> {
    if order == [] then {} else {order[0].key} + KeysOf(order[1..])
  }

  // Every list element is the one its key maps to, and keys are distinct.
  ghost predicate Indexed<V>(order: seq<Element<V>>, entries: map<string, Element<V>>) {
    order == [] ||
      (&& order[0].key in entries && entries[order[0].key] == order[0]
       && order[0].key !in KeysOf(order[1..])
       && Indexed(order[1..], entries))
  }

  // The list without element, as the list library's Remove leaves it.
  function Removed<V>(order: seq<Element<V>>, element: Element<V>): seq<Element<V>> {
    if order == [] then []
    else if order[0] == element then order[1..]
    else [order[0]] + Removed(order[1..], element)
  }

  lemma {:induction false} ElementWithin<V>(order: seq<Element<V>>, entries: map<string, Element<V>>,
      repr: set<Element<V>>, key: string)
    requires Indexed(order, entries) && Within(order, repr) && key in KeysOf(order)
    ensures key in entries && entries[key] in repr && entries[key].key == key
  {
    if order[0].key != key { ElementWithin(order[1..], entries, repr, key); }
  }

  lemma {:induction false} FindIndexed<V>(order: seq<Element<V>>, entries: map<string, Element<V>>,
      repr: set<Element<V>>, key: string)
    requires Indexed(order, entries) && Within(order, repr)
    ensures L.Find(LinesOf(order, repr), key) ==
      if key in KeysOf(order) && key in entries then Some(L.Line(key, entries[key].value, entries[key].expiresAt))
      else None
  {
    if order != [] { FindIndexed(order[1..], entries, repr, key); }
  }

  lemma {:induction false} IndexedWithout<V>(order: seq<Element<V>>, entries: map<string, Element<V>>, key: string)
    requires Indexed(order, entries) && key !in KeysOf(order)
    ensures Indexed(order, entries - {key})
  {
    if order != [] { IndexedWithout(order[1..], entries, key); }
  }

  lemma {:induction false} IndexedMore<V>(order: seq<Element<V>>, entries: map<string, Element<V>>, key: string,
      element: Element<V>)
    requires Indexed(order, entries) && key !in KeysOf(order)
    ensures Indexed(order, entries[key := element])
  {
    if order != [] { IndexedMore(order[1..], entries, key, element); }
  }

  lemma {:induction false} RemovedIndexed<V>(order: seq<Element<V>>, entries: map<string, Element<V>>,
      repr: set<Element<V>>, element: Element<V>)
    requires Indexed(order, entries) && Within(order, repr)
    requires element.key in KeysOf(order) && element.key in entries && entries[element.key] == element
    ensures var rest := Removed(order, element);
      && KeysOf(rest) == KeysOf(order) - {element.key} && |rest| == |order| - 1
      && Indexed(rest, entries) && Within(rest, repr)
      && LinesOf(rest, repr) == L.Without(LinesOf(order, repr), element.key)
  {
    if order[0] != element {
      RemovedIndexed(order[1..], entries, repr, element);
    }
  }

  lemma {:induction false} LastRemoved<V>(order: seq<Element<V>>, entries: map<string, Element<V>>,
      repr: set<Element<V>>)
    requires order != [] && Indexed(order, entries) && Within(order, repr)
    ensures var last := order[|order| - 1];
      && last.key in KeysOf(order) && last.key in entries && entries[last.key] == last
      && Removed(order, last) == order[..|order| - 1]
      && L.Without(LinesOf(order, repr), last.key) == LinesOf(order, repr)[..|order| - 1]
  {
    if |order| > 1 {
      LastRemoved(order[1..], entries, repr);
    }
  }

  // Lines are those of their elements, wherever the footprint is recorded.
  lemma {:induction false} WithinMore<V>(order: seq<Element<V>>, repr: set<Element<V>>, element: Element<V>)
    requires Within(order, repr)
    ensures Within(order, repr + {element}) && LinesOf(order, repr + {element}) == LinesOf(order, repr)
  {
    if order != [] { WithinMore(order[1..], repr, element); }
  }

  lemma {:induction false} WithinLess<V>(order: seq<Element<V>>, repr: set<Element<V>>, entries: map<string,
      Element<V>>, element: Element<V>)
    requires Within(order, repr) && Indexed(order, entries) && element.key !in KeysOf(order)
    ensures Within(order, repr - {element}) && LinesOf(order, repr - {element}) == LinesOf(order, repr)
  {
    if order != [] { WithinLess(order[1..], repr, entries, element); }
  }

  lemma {:induction false} LinesKeyed<V>(order: seq<Element<V>>, entries: map<string, Element<V>>,
      repr: set<Element<V>>)
    requires Indexed(order, entries) && Within(order, repr)
    ensures L.Keyed(LinesOf(order, repr)) && L.Keys(LinesOf(order, repr)) == KeysOf(order)
  {
    if order != [] { LinesKeyed(order[1..], entries, repr); }
  }

  class Shard<V> {
    const capacity: nat
    var entries: map<string, Element<V>>
    var order: seq<Element<V>>
    ghost var repr: set<Element<V>>

    ghost predicate Valid()
      reads this
    {
      && capacity >= 1 && |order| <= capacity
      && Indexed(order, entries) && KeysOf(order) == entries.Keys
      && Within(order, repr)
    }

    ghost function Lines(): seq<L.Line<V>>
      requires Valid()
      reads this, repr
    {
      LinesOf(order, repr)
    }

    constructor (capacity: nat)
      requires capacity >= 1
      ensures Valid() && this.capacity == capacity && Lines() == [] && repr == {}
    {
      this.capacity := capacity;
      entries := map[];
      order := [];
      repr := {};
    }

    method RemoveLocked(element: Element<V>)
      requires Valid() && element.key in entries && entries[element.key] == element
      modifies this
      ensures Valid() && repr == old(repr) && Lines() == L.Without(old(Lines()), element.key)
      ensures order == Removed(old(order), element) && entries == old(entries) - {element.key}
    {
      RemovedIndexed(order, entries, repr, element);
      order := Removed(order, element);
      IndexedWithout(order, entries, element.key);
      entries := entries - {element.key};
    }

    method MoveToFront(element: Element<V>)
      requires Valid() && element.key in entries && entries[element.key] == element
      modifies this
      ensures Valid() && repr == old(repr) && entries == old(entries)
      ensures Lines() == [L.Line(element.key, element.value, element.expiresAt)] + L.Without(old(Lines()), element.key)
      ensures order == [element] + Removed(old(order), element)
    {
      RemovedIndexed(order, entries, repr, element);
      ElementWithin(order, entries, repr, element.key);
      ghost var rest := Removed(order, element);
      order := [element] + Removed(order, element);
      assert order[1..] == rest;
    }

    method Get(key: string, now: nat) returns (value: Option<V>)
      requires Valid()
      modifies this
      ensures Valid() && repr == old(repr) && (Lines(), value) == L.Get(old(Lines()), key, now)
    {
      FindIndexed(order, entries, repr, key);
      if key !in entries {
        return None;
      }
      ElementWithin(order, entries, repr, key);
      var item := entries[key];
      if now > item.expiresAt {
        RemoveLocked(item);
        return None;
      }
      MoveToFront(item);
      return Some(item.value);
    }

    method Set(key: string, value: V, now: nat, ttl: int)
      requires Valid()
      modifies this, repr
      ensures Valid() && fresh(repr - old(repr))
      ensures Lines() == L.Set(old(Lines()), capacity, key, value, now, ttl)
    {
      if ttl <= 0 {
        return;
      }
      FindIndexed(order, entries, repr, key);
      hide Indexed, Within, Removed, L.Without, L.Find, KeysOf, LinesOf;
      if key in entries {
        Refresh(key, value, now + ttl);
      } else {
        if |order| >= capacity {
          Evict();
        }
        Insert(key, value, now + ttl);
      }
    }

    method Evict()
      requires Valid() && order != []
      modifies this
      ensures Valid() && repr == old(repr) && |order| == |old(order)| - 1 && entries.Keys <= old(entries).Keys
      ensures Lines() == old(Lines())[..|old(Lines())| - 1]
    {
      LastRemoved(order, entries, repr);
      RemoveLocked(order[|order| - 1]);
    }

    method Refresh(key: string, value: V, expiresAt: nat)
      requires Valid() && key in entries
      modifies this, repr
      ensures Valid() && repr == old(repr)
      ensures Lines() == [L.Line(key, value, expiresAt)] + L.Without(old(Lines()), key)
    {
      ElementWithin(order, entries, repr, key);
      var item := entries[key];
      MoveToFront(item);
      Overwrite(item, value, expiresAt);
    }

    method Overwrite(item: Element<V>, value: V, expiresAt: nat)
      requires Valid() && order != [] && item == order[0]
      modifies item
      ensures Valid() && Lines() == [L.Line(item.key, value, expiresAt)] + old(Lines())[1..]
    {
      WithinLess(order[1..], repr, entries, item);
      item.value := value;
      item.expiresAt := expiresAt;
      WithinLess(order[1..], repr, entries, item);
    }

    method Insert(key: string, value: V, expiresAt: nat)
      requires Valid() && |order| < capacity && key !in entries
      modifies this
      ensures Valid() && fresh(repr - old(repr)) && Lines() == [L.Line(key, value, expiresAt)] + old(Lines())
    {
      var element := new Element(key, value, expiresAt);
      ghost var rest := order;
      WithinMore(rest, repr, element);
      IndexedMore(rest, entries, key, element);
      order := [element] + order;
      entries := entries[key := element];
      repr := repr + {element};
      assert order[1..] == rest;
    }

    method Delete(key: string)
      requires Valid()
      modifies this
      ensures Valid() && repr == old(repr) && Lines() == L.Delete(old(Lines()), key)
    {
      FindIndexed(order, entries, repr, key);
      if key in entries {
        ElementWithin(order, entries, repr, key);
        RemoveLocked(entries[key]);
      }
    }
  }

  // ---- The sixteen shards ----

  const SHARD_COUNT := 16

  function PerShard(capacity: nat): nat {
    if capacity / SHARD_COUNT < 1 then 1 else capacity / SHARD_COUNT
  }

  // What a capacity is worth: an equal share for each shard, at least one entry.
  lemma PerShardIs(capacity: nat)
    ensures capacity >= SHARD_COUNT ==>
      SHARD_COUNT * PerShard(capacity) <= capacity < SHARD_COUNT * (PerShard(capacity) + 1)
    ensures capacity < SHARD_COUNT ==> PerShard(capacity) == 1
  {
  }

  class TTL<V> {
    const shards: seq<Shard<V>>
    const hash: string -> nat

    function ShardFor(key: string): nat {
      hash(key) % SHARD_COUNT
    }

    // Sixteen valid shards that share no shard object and no element.
    ghost predicate Valid()
      reads this, shards
    {
      && |shards| == SHARD_COUNT
      && (forall i :: 0 <= i < SHARD_COUNT ==> shards[i].Valid())
      && (forall i, j :: 0 <= i < j < SHARD_COUNT ==> shards[i] != shards[j] && shards[i].repr !! shards[j].repr)
    }

    ghost function LinesAt(k: nat): seq<L.Line<V>>
      requires Valid() && k < SHARD_COUNT
      reads this, shards, shards[k].repr
    {
      shards[k].Lines()
    }

    // The entries of the first n shards.
    ghost function Size(n: nat): nat
      requires Valid() && n <= SHARD_COUNT
      reads this, shards, set k, e | 0 <= k < |shards| && e in shards[k].repr :: e
    {
      if n == 0 then 0 else Size(n - 1) + |LinesAt(n - 1)|
    }

    lemma Keyed(k: nat)
      requires Valid() && k < SHARD_COUNT
      ensures L.Keyed(LinesAt(k))
    {
      LinesKeyed(shards[k].order, shards[k].entries, shards[k].repr);
    }

    method Get(key: string, now: nat) returns (value: Option<V>)
      requires Valid()
      modifies shards[ShardFor(key)]
      ensures Valid()
      ensures shards[ShardFor(key)].repr == old(shards[ShardFor(key)].repr)
      ensures (LinesAt(ShardFor(key)), value) == L.Get(old(LinesAt(ShardFor(key))), key, now)
      ensures forall k :: 0 <= k < SHARD_COUNT && k != ShardFor(key) ==> LinesAt(k) == old(LinesAt(k))
    {
      hide Indexed, Within, LinesOf, KeysOf;
      value := shards[ShardFor(key)].Get(key, now);
    }

    method Set(key: string, value: V, now: nat, ttl: int)
      requires Valid()
      modifies shards[ShardFor(key)], shards[ShardFor(key)].repr
      ensures Valid() && fresh(shards[ShardFor(key)].repr - old(shards[ShardFor(key)].repr))
      ensures LinesAt(ShardFor(key)) ==
        L.Set(old(LinesAt(ShardFor(key))), shards[ShardFor(key)].capacity, key, value, now, ttl)
      ensures forall k :: 0 <= k < SHARD_COUNT && k != ShardFor(key) ==> LinesAt(k) == old(LinesAt(k))
    {
      hide Indexed, Within, LinesOf, KeysOf;
      shards[ShardFor(key)].Set(key, value, now, ttl);
    }

    method Delete(key: string)
      requires Valid()
      modifies shards[ShardFor(key)]
      ensures Valid()
      ensures shards[ShardFor(key)].repr == old(shards[ShardFor(key)].repr)
      ensures LinesAt(ShardFor(key)) == L.Delete(old(LinesAt(ShardFor(key))), key)
      ensures forall k :: 0 <= k < SHARD_COUNT && k != ShardFor(key) ==> LinesAt(k) == old(LinesAt(k))
    {
      hide Indexed, Within, LinesOf, KeysOf;
      shards[ShardFor(key)].Delete(key);
    }

    method Do(op: L.Op<V>)
      requires Valid()
      modifies shards[ShardFor(op.key)], shards[ShardFor(op.key)].repr
      ensures Valid() && fresh(shards[ShardFor(op.key)].repr - old(shards[ShardFor(op.key)].repr))
      ensures forall k :: 0 <= k < SHARD_COUNT ==>
        LinesAt(k) ==
          if k == ShardFor(op.key) then L.Apply(old(LinesAt(k)), shards[k].capacity, op) else old(LinesAt(k))
    {
      hide L.Get, L.Set, L.Delete, Indexed, Within, LinesOf, KeysOf;
      match op {
        case GetOp(key, at) => var _ := Get(key, at);
        case SetOp(key, value, at, ttl) => Set(key, value, at, ttl);
        case DeleteOp(key) => Delete(key);
      }
    }

    constructor (capacity: nat, hash: string -> nat)
      ensures Valid() && this.hash == hash
      ensures forall k :: 0 <= k < SHARD_COUNT ==> fresh(shards[k]) && shards[k].repr == {}
      ensures forall k :: 0 <= k < SHARD_COUNT ==> LinesAt(k) == [] && shards[k].capacity == PerShard(capacity)
    {
      var perShard := PerShard(capacity);
      var built: seq<Shard<V>> := [];
      for i := 0 to SHARD_COUNT
        invariant |built| == i
        invariant forall k :: 0 <= k < i ==> fresh(built[k]) && built[k].Valid() && built[k].repr == {}
        invariant forall k :: 0 <= k < i ==> built[k].Lines() == [] && built[k].capacity == perShard
        invariant forall j, k :: 0 <= j < k < i ==> built[j] != built[k]
      {
        var shard := new Shard<V>(perShard);
        built := built + [shard];
      }
      this.shards := built;
      this.hash := hash;
    }
  }

  // ---- Whole runs of a cache ----

  // The operations that go to shard k.
  function OpsOf<V>(ops: seq<L.Op<V>>, hash: string -> nat, k: nat): seq<L.Op<V>> {
    if ops == [] then []
    else
      var op := ops[|ops| - 1];
      OpsOf(ops[..|ops| - 1], hash, k) + if hash(op.key) % SHARD_COUNT == k then [op] else []
  }

  function LinesAfter<V>(capacity: nat, hash: string -> nat, ops: seq<L.Op<V>>, k: nat): seq<L.Line<V>> {
    L.Play(PerShard(capacity), OpsOf(ops, hash, k))
  }

  lemma OpsMore<V>(ops: seq<L.Op<V>>, op: L.Op<V>, hash: string -> nat, k: nat)
    ensures OpsOf(ops + [op], hash, k) == OpsOf(ops, hash, k) + if hash(op.key) % SHARD_COUNT == k then [op] else []
  {
    assert (ops + [op])[..|ops|] == ops;
  }

  lemma LinesMore<V>(capacity: nat, hash: string -> nat, ops: seq<L.Op<V>>, op: L.Op<V>, k: nat)
    ensures LinesAfter(capacity, hash, ops + [op], k) ==
      if hash(op.key) % SHARD_COUNT == k then L.Apply(LinesAfter(capacity, hash, ops, k), PerShard(capacity), op)
      else LinesAfter(capacity, hash, ops, k)
  {
    OpsMore(ops, op, hash, k);
    var own := OpsOf(ops, hash, k);
    assert (own + [op])[..|own|] == own && own + [] == own;
  }

  // One more operation on a cache that has been put through the first i.
  method Further<V>(cache: TTL<V>, capacity: nat, ops: seq<L.Op<V>>, i: nat)
    requires cache.Valid() && i < |ops|
    requires forall k :: 0 <= k < SHARD_COUNT ==> cache.shards[k].capacity == PerShard(capacity)
    requires forall k :: 0 <= k < SHARD_COUNT ==> cache.LinesAt(k) == LinesAfter(capacity, cache.hash, ops[..i], k)
    modifies cache.shards[cache.ShardFor(ops[i].key)], cache.shards[cache.ShardFor(ops[i].key)].repr
    ensures var k := cache.ShardFor(ops[i].key);
      cache.Valid() && fresh(cache.shards[k].repr - old(cache.shards[k].repr))
    ensures forall k :: 0 <= k < SHARD_COUNT ==> cache.LinesAt(k) == LinesAfter(capacity, cache.hash, ops[..i + 1], k)
  {
    assert ops[..i + 1] == ops[..i] + [ops[i]];
    forall k { LinesMore(capacity, cache.hash, ops[..i], ops[i], k); }
    hide LinesAfter, PerShard, L.Apply, Indexed, Within, LinesOf, KeysOf;
    cache.Do(ops[i]);
  }

  // A new cache put through these operations: every shard holds what the
  // operations that went to it leave in a list of its capacity.
  method Replay<V>(capacity: nat, hash: string -> nat, ops: seq<L.Op<V>>) returns (cache: TTL<V>)
    ensures fresh(cache) && cache.Valid() && cache.hash == hash
    ensures forall k :: 0 <= k < SHARD_COUNT ==> cache.LinesAt(k) == LinesAfter(capacity, hash, ops, k)
    ensures forall k :: 0 <= k < SHARD_COUNT ==> fresh(cache.shards[k]) && fresh(cache.shards[k].repr)
    ensures cache.Size(SHARD_COUNT) == SizeAfter(capacity, hash, ops, SHARD_COUNT)
  {
    NoneAfter<V>(capacity, hash);
    hide LinesAfter, PerShard, Indexed, Within, LinesOf, KeysOf;
    cache := new TTL(capacity, hash);
    for i := 0 to |ops|
      invariant fresh(cache) && cache.Valid() && cache.hash == hash
      invariant forall k :: 0 <= k < SHARD_COUNT ==> fresh(cache.shards[k]) && fresh(cache.shards[k].repr)
      invariant forall k :: 0 <= k < SHARD_COUNT ==> cache.shards[k].capacity == PerShard(capacity)
      invariant forall k :: 0 <= k < SHARD_COUNT ==> cache.LinesAt(k) == LinesAfter(capacity, hash, ops[..i], k)
    {
      Further(cache, capacity, ops, i);
    }
    assert ops[..|ops|] == ops;
    SizeIsAfter(cache, capacity, ops, SHARD_COUNT);
  }

  lemma NoneAfter<V>(capacity: nat, hash: string -> nat)
    ensures forall k :: LinesAfter<V>(capacity, hash, [], k) == []
  {
  }

  // Operations of other shards do not concern a key.
  lemma {:induction false} LatestOwn<V>(ops: seq<L.Op<V>>, hash: string -> nat, key: string)
    ensures L.Latest(OpsOf(ops, hash, hash(key) % SHARD_COUNT), key) == L.Latest(ops, key)
  {
    if ops != [] {
      var own := OpsOf(ops[..|ops| - 1], hash, hash(key) % SHARD_COUNT);
      LatestOwn(ops[..|ops| - 1], hash, key);
      assert (own + [ops[|ops| - 1]])[..|own|] == own && own + [] == own;
    }
  }

  lemma ServedAfter<V>(capacity: nat, hash: string -> nat, ops: seq<L.Op<V>>, n: nat, key: string, now: nat)
    requires var own := OpsOf(ops, hash, hash(key) % SHARD_COUNT);
      && L.Uses(PerShard(capacity), own, n, key) && L.Spared(own, n + 1, key)
      && |L.Touched(own[n + 1..], key)| < if capacity < 16 then 1 else capacity / 16
    ensures L.Latest(ops, key).Some?
    ensures now <= L.Latest(ops, key).value.expiresAt ==>
      L.Get(LinesAfter(capacity, hash, ops, hash(key) % SHARD_COUNT), key, now).1
        == Some(L.Latest(ops, key).value.value)
  {
    hide L.Uses, L.Spared, L.Touched, L.Latest, L.Get, L.Play, OpsOf;
    L.RecentlyUsedIsServed(PerShard(capacity), OpsOf(ops, hash, hash(key) % SHARD_COUNT), n, key, now);
    LatestOwn(ops, hash, key);
  }

  // A built cache serves what was used: a key set with a positive lifetime or hit
  // as its shard's operation n is served, with its latest value, up to its expiry,
  // if it was not deleted since and fewer other keys of its shard were touched than
  // the shard's share of the capacity holds.
  method UsedIsServed<V>(capacity: nat, hash: string -> nat, ops: seq<L.Op<V>>, n: nat, key: string, now: nat)
      returns (value: Option<V>)
    requires var own := OpsOf(ops, hash, hash(key) % SHARD_COUNT);
      && L.Uses(PerShard(capacity), own, n, key) && L.Spared(own, n + 1, key)
      && |L.Touched(own[n + 1..], key)| < if capacity < 16 then 1 else capacity / 16
    ensures L.Latest(ops, key).Some?
    ensures now <= L.Latest(ops, key).value.expiresAt ==> value == Some(L.Latest(ops, key).value.value)
  {
    hide L.Latest, L.Get, LinesAfter, Indexed, Within, LinesOf, KeysOf;
    ServedAfter(capacity, hash, ops, n, key, now);
    var cache := Replay(capacity, hash, ops);
    value := cache.Get(key, now);
  }

  // The entries of the first n shards after these operations.
  function SizeAfter<V>(capacity: nat, hash: string -> nat, ops: seq<L.Op<V>>, n: nat): nat {
    if n == 0 then 0 else SizeAfter(capacity, hash, ops, n - 1) + |LinesAfter(capacity, hash, ops, n - 1)|
  }

  lemma {:induction false} SizeBound<V>(capacity: nat, hash: string -> nat, ops: seq<L.Op<V>>, n: nat)
    ensures SizeAfter(capacity, hash, ops, n) <= n * PerShard(capacity)
  {
    hide LinesAfter, PerShard;
    if n > 0 {
      SizeBound(capacity, hash, ops, n - 1);
      LinesBound(capacity, hash, ops, n - 1);
      assert n * PerShard(capacity) == (n - 1) * PerShard(capacity) + PerShard(capacity);
    }
  }

  lemma LinesBound<V>(capacity: nat, hash: string -> nat, ops: seq<L.Op<V>>, k: nat)
    ensures |LinesAfter(capacity, hash, ops, k)| <= PerShard(capacity)
  {
    L.PlayRefines(PerShard(capacity), OpsOf(ops, hash, k));
  }

  // A key of every shard.
  predicate OneKeyEach(hash: string -> nat, keys: seq<string>) {
    |keys| == SHARD_COUNT && forall k :: 0 <= k < SHARD_COUNT ==> hash(keys[k]) % SHARD_COUNT == k
  }

  // One store in each of the first n shards fills them.
  lemma {:induction false} Fill<V>(capacity: nat, hash: string -> nat, keys: seq<string>, v: V,
      n: nat) returns (ops: seq<L.Op<V>>)
    requires n <= SHARD_COUNT && OneKeyEach(hash, keys)
    ensures forall k :: 0 <= k < SHARD_COUNT ==> |LinesAfter(capacity, hash, ops, k)| == if k < n then 1 else 0
  {
    if n == 0 {
      ops := [];
    } else {
      var before := Fill(capacity, hash, keys, v, n - 1);
      var op := L.SetOp(keys[n - 1], v, 0, 1);
      ops := before + [op];
      forall k | 0 <= k < SHARD_COUNT { LinesMore(capacity, hash, before, op, k); }
    }
  }

  lemma {:induction false} FilledSize<V>(capacity: nat, hash: string -> nat, ops: seq<L.Op<V>>, n: nat)
    requires n <= SHARD_COUNT && forall k :: 0 <= k < SHARD_COUNT ==> |LinesAfter(capacity, hash, ops, k)| == 1
    ensures SizeAfter(capacity, hash, ops, n) == n
  {
    if n > 0 { FilledSize(capacity, hash, ops, n - 1); }
  }

  // A cache built with this capacity, under a hash that reaches every shard, never
  // exceeds it in any run if and only if the capacity is at least sixteen; below
  // that every shard still keeps one entry.
  lemma CapacityHolds<V>(capacity: nat, hash: string -> nat, keys: seq<string>, v: V)
    requires OneKeyEach(hash, keys)
    ensures capacity >= SHARD_COUNT <==>
      forall ops: seq<L.Op<V>> :: SizeAfter(capacity, hash, ops, SHARD_COUNT) <= capacity
  {
    hide SizeAfter, LinesAfter;
    forall ops: seq<L.Op<V>> ensures SizeAfter(capacity, hash, ops, SHARD_COUNT) <= SHARD_COUNT * PerShard(capacity) {
      SizeBound(capacity, hash, ops, SHARD_COUNT);
    }
    if capacity < SHARD_COUNT {
      var full := Fill(capacity, hash, keys, v, SHARD_COUNT);
      FilledSize(capacity, hash, full, SHARD_COUNT);
    }
  }

  // The entries of the object itself, after Replay, are those counted here.
  lemma {:induction false} SizeIsAfter<V>(cache: TTL<V>, capacity: nat, ops: seq<L.Op<V>>, n: nat)
    requires cache.Valid() && n <= SHARD_COUNT
    requires forall k :: 0 <= k < SHARD_COUNT ==> cache.LinesAt(k) == LinesAfter(capacity, cache.hash, ops, k)
    ensures cache.Size(n) == SizeAfter(capacity, cache.hash, ops, n)
  {
    if n > 0 { SizeIsAfter(cache, capacity, ops, n - 1); }
  }
}
