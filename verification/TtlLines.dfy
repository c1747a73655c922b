// What one shard of the local cache does, as functions on its recency list, and
// what any sequence of operations on it guarantees.
module TtlLines {
  import opened Wrappers

  // One cached value; it may be served up to and including expiresAt.
  datatype Line<V> = Line(key: string, value: V, expiresAt: nat)

  function Keys<V>(lines: seq<Line<V>>): set<string> {
    if lines == [] then {} else {lines[0].key} + Keys(lines[1..])
  }

  // Distinct keys.
  predicate Keyed<V>(lines: seq<Line<V>>) {
    lines == [] || (lines[0].key !in Keys(lines[1..]) && Keyed(lines[1..]))
  }

  function Find<V>(lines: seq<Line<V>>, key: string): Option<Line<V>> {
    if lines == [] then None
    else if lines[0].key == key then Some(lines[0])
    else Find(lines[1..], key)
  }

  function Without<V>(lines: seq<Line<V>>, key: string): seq<Line<V>> {
    if lines == [] then []
    else if lines[0].key == key then lines[1..]
    else [lines[0]] + Without(lines[1..], key)
  }

  function Get<V>(lines: seq<Line<V>>, key: string, now: nat): (seq<Line<V>>, Option<V>) {
    match Find(lines, key)
    case None => (lines, None)
    case Some(line) =>
      if now > line.expiresAt then (Without(lines, key), None)
      else ([line] + Without(lines, key), Some(line.value))
  }

  function Set<V>(lines: seq<Line<V>>, capacity: nat, key: string, value: V, now: nat, ttl: int): seq<Line<V>> {
    if ttl <= 0 then lines
    else
      var line := Line(key, value, now + ttl);
      if Find(lines, key).Some? then [line] + Without(lines, key)
      else if |lines| >= capacity && lines != [] then [line] + lines[..|lines| - 1]
      else [line] + lines
  }

  function Delete<V>(lines: seq<Line<V>>, key: string): seq<Line<V>> {
    if Find(lines, key).Some? then Without(lines, key) else lines
  }

  // ---- Operation sequences ----

  datatype Op<V> =
    | GetOp(key: string, at: nat)
    | SetOp(key: string, value: V, at: nat, ttl: int)
    | DeleteOp(key: string)

  function Apply<V>(lines: seq<Line<V>>, capacity: nat, op: Op<V>): seq<Line<V>> {
    match op
    case GetOp(key, at) => Get(lines, key, at).0
    case SetOp(key, value, at, ttl) => Set(lines, capacity, key, value, at, ttl)
    case DeleteOp(key) => Delete(lines, key)
  }

  function Play<V>(capacity: nat, ops: seq<Op<V>>): seq<Line<V>> {
    if ops == [] then [] else Apply(Play(capacity, ops[..|ops| - 1]), capacity, ops[|ops| - 1])
  }

  // The plain expiring map: what the latest positive-TTL Set of a key with no
  // later Delete stored. A Set without a lifetime leaves the old value.
  function Latest<V>(ops: seq<Op<V>>, key: string): Option<Line<V>> {
    if ops == [] then None
    else
      var before := Latest(ops[..|ops| - 1], key);
      match ops[|ops| - 1]
      case SetOp(k, value, at, ttl) => if k == key && ttl > 0 then Some(Line(key, value, at + ttl)) else before
      case DeleteOp(k) => if k == key then None else before
      case GetOp(_, _) => before
  }

  // ---- Lists ----

  lemma {:induction false} FindIn<V>(lines: seq<Line<V>>, key: string)
    ensures Find(lines, key).Some? <==> key in Keys(lines)
    ensures Find(lines, key).Some? ==> Find(lines, key).value.key == key
  {
    if lines != [] { FindIn(lines[1..], key); }
  }

  lemma {:induction false} WithoutKeys<V>(lines: seq<Line<V>>, key: string)
    requires Keyed(lines)
    ensures Keyed(Without(lines, key)) && Keys(Without(lines, key)) == Keys(lines) - {key}
    ensures |Without(lines, key)| == |lines| - (if key in Keys(lines) then 1 else 0)
  {
    if lines != [] {
      WithoutKeys(lines[1..], key);
    }
  }

  lemma {:induction false} WithoutFinds<V>(lines: seq<Line<V>>, key: string, other: string)
    requires Keyed(lines) && other != key
    ensures Find(Without(lines, key), other) == Find(lines, other)
  {
    if lines != [] && lines[0].key != key {
      WithoutFinds(lines[1..], key, other);
    }
  }

  // Dropping the last line removes its key and no other.
  lemma {:induction false} DropLast<V>(lines: seq<Line<V>>, key: string)
    requires Keyed(lines) && lines != []
    ensures Keyed(lines[..|lines| - 1]) && Keys(lines[..|lines| - 1]) == Keys(lines) - {lines[|lines| - 1].key}
    ensures Find(lines[..|lines| - 1], key).Some? ==> Find(lines[..|lines| - 1], key) == Find(lines, key)
  {
    if |lines| > 1 {
      DropLast(lines[1..], key);
      assert lines[..|lines| - 1] == [lines[0]] + lines[1..][..|lines| - 2];
      assert lines[..|lines| - 1][1..] == lines[1..][..|lines| - 2];
      LastIn(lines[1..]);
    }
  }

  lemma {:induction false} LastIn<V>(lines: seq<Line<V>>)
    requires lines != []
    ensures lines[|lines| - 1].key in Keys(lines)
  {
    if |lines| > 1 { LastIn(lines[1..]); }
  }

  lemma Front<V>(line: Line<V>, rest: seq<Line<V>>, key: string)
    ensures ([line] + rest)[1..] == rest
    ensures Keyed([line] + rest) <==> line.key !in Keys(rest) && Keyed(rest)
    ensures Keys([line] + rest) == {line.key} + Keys(rest)
    ensures Find([line] + rest, key) == if line.key == key then Some(line) else Find(rest, key)
  {
    assert ([line] + rest)[1..] == rest;
  }

  // ---- The cache refines the expiring map ----

  // The list has distinct keys, is within capacity, and agrees with the map.
  ghost predicate Refines<V>(lines: seq<Line<V>>, capacity: nat, ops: seq<Op<V>>) {
    && Keyed(lines) && |lines| <= capacity
    && forall key :: Find(lines, key).Some? ==> Find(lines, key) == Latest(ops, key)
  }

  lemma GetRefines<V>(lines: seq<Line<V>>, capacity: nat, ops: seq<Op<V>>, key: string, now: nat)
    requires Refines(lines, capacity, ops)
    ensures Refines(Get(lines, key, now).0, capacity, ops)
  {
    FindIn(lines, key);
    WithoutKeys(lines, key);
    FindIn(Without(lines, key), key);
    var after := Get(lines, key, now).0;
    if Find(lines, key).Some? {
      var line := Find(lines, key).value;
      Front(line, Without(lines, key), key);
      forall j | Find(after, j).Some? ensures Find(after, j) == Latest(ops, j) {
        Front(line, Without(lines, key), j);
        if j != key { WithoutFinds(lines, key, j); }
      }
    }
  }

  lemma DeleteRefines<V>(lines: seq<Line<V>>, capacity: nat, ops: seq<Op<V>>, key: string)
    requires Refines(lines, capacity, ops)
    ensures Refines(Delete(lines, key), capacity, ops + [DeleteOp(key)])
  {
    assert (ops + [DeleteOp(key)])[..|ops|] == ops;
    FindIn(lines, key);
    WithoutKeys(lines, key);
    FindIn(Without(lines, key), key);
    forall j | Find(Delete(lines, key), j).Some?
      ensures Find(Delete(lines, key), j) == Latest(ops + [DeleteOp(key)], j)
    {
      if j != key { WithoutFinds(lines, key, j); }
    }
  }

  lemma SetRefines<V>(lines: seq<Line<V>>, capacity: nat, ops: seq<Op<V>>, key: string, value: V, now: nat, ttl: int)
    requires Refines(lines, capacity, ops) && capacity > 0
    ensures Refines(Set(lines, capacity, key, value, now, ttl), capacity, ops + [SetOp(key, value, now, ttl)])
  {
    var ops' := ops + [SetOp(key, value, now, ttl)];
    assert ops'[..|ops|] == ops;
    if ttl > 0 {
      FindIn(lines, key);
      WithoutKeys(lines, key);
      var full := |lines| >= capacity && lines != [];
      var rest := if Find(lines, key).Some? then Without(lines, key) else if full then lines[..|lines| - 1] else lines;
      if full { DropLast(lines, key); }
      Front(Line(key, value, now + ttl), rest, key);
      forall j | Find([Line(key, value, now + ttl)] + rest, j).Some?
        ensures Find([Line(key, value, now + ttl)] + rest, j) == Latest(ops', j)
      {
        Front(Line(key, value, now + ttl), rest, j);
        if j != key {
          WithoutFinds(lines, key, j);
          if full { DropLast(lines, j); }
        }
      }
    }
  }

  // After any operations the list has distinct keys, stays within capacity, and
  // holds for each of its keys exactly what the expiring map holds.
  lemma {:induction false} PlayRefines<V>(capacity: nat, ops: seq<Op<V>>)
    requires capacity > 0
    ensures Refines(Play(capacity, ops), capacity, ops)
  {
    if ops != [] {
      var before, op := ops[..|ops| - 1], ops[|ops| - 1];
      PlayRefines(capacity, before);
      assert ops == before + [op];
      hide Refines, Find, Without;
      match op
      case GetOp(key, at) =>
        GetRefines(Play(capacity, before), capacity, before, key, at);
        GetLeavesMap(Get(Play(capacity, before), key, at).0, capacity, before, op);
      case SetOp(key, value, at, ttl) => SetRefines(Play(capacity, before), capacity, before, key, value, at, ttl);
      case DeleteOp(key) => DeleteRefines(Play(capacity, before), capacity, before, key);
    }
  }

  lemma GetLeavesMap<V>(lines: seq<Line<V>>, capacity: nat, ops: seq<Op<V>>, op: Op<V>)
    requires Refines(lines, capacity, ops) && op.GetOp?
    ensures Refines(lines, capacity, ops + [op])
  {
    assert (ops + [op])[..|ops|] == ops;
  }

  // A hit returns the value of the latest positive-TTL Set that no Delete
  // followed, not past its expiry.
  lemma HitIsLatest<V>(capacity: nat, ops: seq<Op<V>>, key: string, now: nat)
    requires capacity > 0 && Get(Play(capacity, ops), key, now).1.Some?
    ensures Latest(ops, key).Some? && now <= Latest(ops, key).value.expiresAt
    ensures Get(Play(capacity, ops), key, now).1 == Some(Latest(ops, key).value.value)
  {
    PlayRefines(capacity, ops);
    FindIn(Play(capacity, ops), key);
  }

  // ---- The LRU stack property ----

  // The keys more recently used than key.
  function Ahead<V>(lines: seq<Line<V>>, key: string): set<string> {
    if lines == [] || lines[0].key == key then {} else {lines[0].key} + Ahead(lines[1..], key)
  }

  // The other keys these operations look up or store.
  function Touched<V>(ops: seq<Op<V>>, key: string): set<string> {
    if ops == [] then {} else Touched(ops[..|ops| - 1], key) + Mover(ops[|ops| - 1], key)
  }

  // No operation deletes key or looks it up past the expiry of its latest value.
  ghost predicate Spared<V>(ops: seq<Op<V>>, from: nat, key: string) {
    forall n :: from <= n < |ops| ==>
      && (ops[n].DeleteOp? ==> ops[n].key != key)
      && (ops[n].GetOp? && ops[n].key == key ==>
            Latest(ops[..n], key).Some? && ops[n].at <= Latest(ops[..n], key).value.expiresAt)
  }

  lemma {:induction false} AheadIn<V>(lines: seq<Line<V>>, key: string)
    ensures Ahead(lines, key) <= Keys(lines) - {key}
  {
    if lines != [] && lines[0].key != key { AheadIn(lines[1..], key); }
  }

  // Every other key is ahead of the last one.
  lemma {:induction false} AheadOfLast<V>(lines: seq<Line<V>>)
    requires Keyed(lines) && lines != []
    ensures |Ahead(lines, lines[|lines| - 1].key)| == |lines| - 1
  {
    var rest := lines[1..];
    if rest != [] {
      LastIn(rest);
      AheadOfLast(rest);
      AheadIn(rest, lines[|lines| - 1].key);
    }
  }

  lemma {:induction false} AheadDrop<V>(lines: seq<Line<V>>, key: string)
    requires key in Keys(lines) && lines[|lines| - 1].key != key
    ensures Ahead(lines[..|lines| - 1], key) == Ahead(lines, key)
  {
    if lines[0].key != key {
      assert lines[..|lines| - 1][1..] == lines[1..][..|lines| - 2];
      AheadDrop(lines[1..], key);
    }
  }

  lemma {:induction false} AheadWithout<V>(lines: seq<Line<V>>, key: string, other: string)
    requires Keyed(lines) && key in Keys(lines) && key != other
    ensures key in Keys(Without(lines, other)) && Ahead(Without(lines, other), key) <= Ahead(lines, key)
  {
    if lines[0].key != other && lines[0].key != key {
      AheadWithout(lines[1..], key, other);
    }
  }

  // The other key an operation may move to the front.
  function Mover<V>(op: Op<V>, key: string): set<string> {
    match op
    case GetOp(k, _) => {k} - {key}
    case SetOp(k, _, _, ttl) => if ttl > 0 then {k} - {key} else {}
    case DeleteOp(_) => {}
  }

  // One operation that spares key keeps it, and only the operation's own key
  // moves ahead of it.
  lemma StackStep<V>(lines: seq<Line<V>>, capacity: nat, op: Op<V>, touched: set<string>, key: string)
    requires Keyed(lines) && key in Keys(lines) && Ahead(lines, key) <= touched
    requires op.DeleteOp? ==> op.key != key
    requires op.GetOp? && op.key == key ==> Find(lines, key).Some? && op.at <= Find(lines, key).value.expiresAt
    requires |touched + Mover(op, key)| < capacity
    ensures key in Keys(Apply(lines, capacity, op))
    ensures Ahead(Apply(lines, capacity, op), key) <= touched + Mover(op, key)
  {
    match op
    case GetOp(k, at) => GetStackStep(lines, k, at, touched, key);
    case DeleteOp(k) =>
      FindIn(lines, k);
      AheadWithout(lines, key, k);
    case SetOp(k, value, at, ttl) => if ttl > 0 { SetStackStep(lines, capacity, op, touched, key); }
  }

  lemma GetStackStep<V>(lines: seq<Line<V>>, k: string, at: nat, touched: set<string>, key: string)
    requires Keyed(lines) && key in Keys(lines) && Ahead(lines, key) <= touched
    requires k == key ==> Find(lines, key).Some? && at <= Find(lines, key).value.expiresAt
    ensures key in Keys(Get(lines, k, at).0)
    ensures Ahead(Get(lines, k, at).0, key) <= touched + ({k} - {key})
  {
    FindIn(lines, k);
    if k != key { AheadWithout(lines, key, k); }
    if Find(lines, k).Some? {
      FrontAhead(Find(lines, k).value, Without(lines, k), key);
    }
  }

  lemma FrontAhead<V>(line: Line<V>, rest: seq<Line<V>>, key: string)
    ensures Keys([line] + rest) == {line.key} + Keys(rest)
    ensures Ahead([line] + rest, key) == if line.key == key then {} else {line.key} + Ahead(rest, key)
  {
    assert ([line] + rest)[1..] == rest;
  }

  lemma SetStackStep<V>(lines: seq<Line<V>>, capacity: nat, op: Op<V>, touched: set<string>, key: string)
    requires Keyed(lines) && key in Keys(lines) && Ahead(lines, key) <= touched && op.SetOp? && op.ttl > 0
    requires |touched + Mover(op, key)| < capacity
    ensures key in Keys(Apply(lines, capacity, op))
    ensures Ahead(Apply(lines, capacity, op), key) <= touched + Mover(op, key)
  {
    var line := Line(op.key, op.value, op.at + op.ttl);
    FindIn(lines, op.key);
    if op.key in Keys(lines) {
      Front(line, Without(lines, op.key), key);
      if op.key != key { AheadWithout(lines, key, op.key); }
    } else if |lines| >= capacity {
      AheadIn(lines, key);
      if lines[|lines| - 1].key == key {
        AheadOfLast(lines);
        SubsetSize(Ahead(lines, key) + {op.key}, touched + Mover(op, key));
        assert false;
      }
      DropLast(lines, key);
      AheadDrop(lines, key);
      Front(line, lines[..|lines| - 1], key);
    } else {
      Front(line, lines, key);
    }
  }

  // A key used at the front is still cached after operations that spare it and
  // touch fewer than capacity distinct other keys; the keys ahead of it are
  // among those touched.
  lemma {:induction false} StackProperty<V>(capacity: nat, ops: seq<Op<V>>, from: nat, key: string)
    requires from <= |ops| && Spared(ops, from, key) && |Touched(ops[from..], key)| < capacity
    requires Play(capacity, ops[..from]) != [] && Play(capacity, ops[..from])[0].key == key
    ensures key in Keys(Play(capacity, ops))
    ensures Ahead(Play(capacity, ops), key) <= Touched(ops[from..], key)
  {
    if |ops| == from {
      assert ops[..from] == ops;
    } else {
      var before, op := ops[..|ops| - 1], ops[|ops| - 1];
      assert ops[from..][..|ops| - from - 1] == before[from..] && before[..from] == ops[..from];
      SubsetSize(Touched(before[from..], key), Touched(ops[from..], key));
      SparedPrefix(ops, from, key);
      StackProperty(capacity, before, from, key);
      PlayRefines(capacity, before);
      FindIn(Play(capacity, before), key);
      StackStep(Play(capacity, before), capacity, op, Touched(before[from..], key), key);
    }
  }

  lemma SparedPrefix<V>(ops: seq<Op<V>>, from: nat, key: string)
    requires from < |ops| && Spared(ops, from, key)
    ensures Spared(ops[..|ops| - 1], from, key)
    ensures ops[|ops| - 1].DeleteOp? ==> ops[|ops| - 1].key != key
    ensures ops[|ops| - 1].GetOp? && ops[|ops| - 1].key == key ==>
      Latest(ops[..|ops| - 1], key).Some? && ops[|ops| - 1].at <= Latest(ops[..|ops| - 1], key).value.expiresAt
  {
    var before := ops[..|ops| - 1];
    forall m | from <= m < |before| ensures before[m] == ops[m] && before[..m] == ops[..m] {}
  }

  lemma {:induction false} SubsetSize<T>(a: set<T>, b: set<T>)
    requires a <= b
    ensures |a| <= |b|
  {
    if a != {} {
      var x :| x in a;
      SubsetSize(a - {x}, b - {x});
    }
  }

  // Operation n stores key with a positive lifetime or looks it up and hits.
  ghost predicate Uses<V>(capacity: nat, ops: seq<Op<V>>, n: nat, key: string) {
    && n < |ops| && ops[n].key == key
    && match ops[n]
       case SetOp(_, _, _, ttl) => ttl > 0
       case GetOp(_, at) => Get(Play(capacity, ops[..n]), key, at).1.Some?
       case DeleteOp(_) => false
  }

  lemma UsedInFront<V>(capacity: nat, ops: seq<Op<V>>, n: nat, key: string)
    requires capacity > 0 && Uses(capacity, ops, n, key)
    ensures Play(capacity, ops[..n + 1]) != [] && Play(capacity, ops[..n + 1])[0].key == key
  {
    assert ops[..n + 1][..n] == ops[..n];
    FindIn(Play(capacity, ops[..n]), key);
  }

  // A key set with a positive lifetime or hit at operation n is served, with its
  // latest value, by every lookup up to its expiry, as long as it is not deleted
  // and fewer than capacity other keys of the shard were touched since.
  lemma RecentlyUsedIsServed<V>(capacity: nat, ops: seq<Op<V>>, n: nat, key: string, now: nat)
    requires Uses(capacity, ops, n, key) && Spared(ops, n + 1, key) && |Touched(ops[n + 1..], key)| < capacity
    ensures Latest(ops, key).Some?
    ensures now <= Latest(ops, key).value.expiresAt ==>
      Get(Play(capacity, ops), key, now).1 == Some(Latest(ops, key).value.value)
  {
    UsedInFront(capacity, ops, n, key);
    StackProperty(capacity, ops, n + 1, key);
    PlayRefines(capacity, ops);
    FindIn(Play(capacity, ops), key);
  }

  // The same in plain words for a store: from then on the key is served, with the
  // value stored, up to and including ttl later and no longer, as long as it is
  // neither stored again nor deleted, and not looked up after its expiry.
  lemma SetIsServed<V>(capacity: nat, ops: seq<Op<V>>, n: nat, key: string, now: nat)
    requires n < |ops| && ops[n].SetOp? && ops[n].key == key && ops[n].ttl > 0
    requires forall m :: n < m < |ops| && ops[m].key == key ==> ops[m].GetOp? && ops[m].at <= ops[n].at + ops[n].ttl
    requires |Touched(ops[n + 1..], key)| < capacity
    ensures Get(Play(capacity, ops), key, now).1 ==
      if now <= ops[n].at + ops[n].ttl then Some(ops[n].value) else None
  {
    LatestSet(ops, n, key);
    forall m | n + 1 <= m < |ops| ensures ops[m].key == key ==> Latest(ops[..m], key) == Latest(ops, key) {
      if ops[m].key == key {
        assert forall i :: n < i < m && ops[..m][i].key == key ==> ops[..m][i].GetOp?;
        LatestSet(ops[..m], n, key);
      }
    }
    RecentlyUsedIsServed(capacity, ops, n, key, now);
    PlayRefines(capacity, ops);
    FoundIsLatest(capacity, ops, n, key);
  }

  lemma FoundIsLatest<V>(capacity: nat, ops: seq<Op<V>>, n: nat, key: string)
    requires Uses(capacity, ops, n, key) && Spared(ops, n + 1, key) && |Touched(ops[n + 1..], key)| < capacity
    ensures Find(Play(capacity, ops), key) == Latest(ops, key)
  {
    UsedInFront(capacity, ops, n, key);
    StackProperty(capacity, ops, n + 1, key);
    PlayRefines(capacity, ops);
    FindIn(Play(capacity, ops), key);
  }

  lemma {:induction false} LatestSet<V>(ops: seq<Op<V>>, n: nat, key: string)
    requires n < |ops| && ops[n].SetOp? && ops[n].key == key && ops[n].ttl > 0
    requires forall m :: n < m < |ops| && ops[m].key == key ==> ops[m].GetOp?
    ensures Latest(ops, key) == Some(Line(key, ops[n].value, ops[n].at + ops[n].ttl))
  {
    if n < |ops| - 1 { LatestSet(ops[..|ops| - 1], n, key); }
  }

  predicate Touches<V>(op: Op<V>, key: string) {
    op.key == key && (op.GetOp? || (op.SetOp? && op.ttl > 0))
  }

  // The keys that count as touched: the others that are looked up or stored.
  lemma {:induction false} TouchedIs<V>(ops: seq<Op<V>>, key: string, other: string)
    ensures other in Touched(ops, key) <==>
      other != key && exists i :: 0 <= i < |ops| && Touches(ops[i], other)
  {
    if ops != [] {
      var before, last := ops[..|ops| - 1], ops[|ops| - 1];
      TouchedIs(before, key, other);
      assert ops == before + [last];
      if i :| 0 <= i < |before| && Touches(before[i], other) {
        assert ops[i] == before[i];
      }
    }
  }

  // ---- One operation, key by key ----

  // A lookup keeps every other line, and its own unless it has expired.
  lemma GetFinds<V>(lines: seq<Line<V>>, key: string, now: nat, other: string)
    requires Keyed(lines)
    ensures Keyed(Get(lines, key, now).0)
    ensures var hit := Find(lines, key).Some? && now <= Find(lines, key).value.expiresAt;
      && Get(lines, key, now).1 == (if hit then Some(Find(lines, key).value.value) else None)
      && Find(Get(lines, key, now).0, other) == if other == key && !hit then None else Find(lines, other)
  {
    FindIn(lines, key);
    WithoutKeys(lines, key);
    FindIn(Without(lines, key), other);
    if Find(lines, key).Some? { Front(Find(lines, key).value, Without(lines, key), other); }
    if other != key { WithoutFinds(lines, key, other); }
  }

  // A store with a positive lifetime leaves its line in place and may evict, but
  // not change, another.
  lemma SetFinds<V>(lines: seq<Line<V>>, capacity: nat, key: string, value: V, now: nat, ttl: int, other: string)
    requires Keyed(lines) && ttl > 0
    ensures Keyed(Set(lines, capacity, key, value, now, ttl))
    ensures Find(Set(lines, capacity, key, value, now, ttl), key) == Some(Line(key, value, now + ttl))
    ensures var found := Find(Set(lines, capacity, key, value, now, ttl), other);
      other != key && found.Some? ==> found == Find(lines, other)
  {
    FindIn(lines, key);
    WithoutKeys(lines, key);
    var full := |lines| >= capacity && lines != [];
    var rest := if Find(lines, key).Some? then Without(lines, key) else if full then lines[..|lines| - 1] else lines;
    if full { DropLast(lines, other); }
    Front(Line(key, value, now + ttl), rest, other);
    if other != key { WithoutFinds(lines, key, other); }
  }

  lemma DeleteFinds<V>(lines: seq<Line<V>>, key: string, other: string)
    requires Keyed(lines)
    ensures Keyed(Delete(lines, key))
    ensures Find(Delete(lines, key), other) == if other == key then None else Find(lines, other)
  {
    FindIn(lines, key);
    WithoutKeys(lines, key);
    FindIn(Without(lines, key), other);
    if other != key { WithoutFinds(lines, key, other); }
  }
}
