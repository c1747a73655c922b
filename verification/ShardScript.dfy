// What the ballot script does to one shard of one poll, as a function on values,
// and the proof that sharding by voter refines one global voted-set and tally.
module ShardScript {
  import opened Wrappers

  // A counts hash and the instant its key expires.
  datatype Counts = Counts(fields: map<string, nat>, deadline: nat)

  // One shard: dedup keys with their deadlines, and the counts hash.
  // A key is live strictly before its deadline; a dead key reads as absent.
  datatype Shard = Shard(voted: map<string, nat>, counts: Option<Counts>)

  const EMPTY_SHARD := Shard(map[], None)

  function FieldOf(fields: map<string, nat>, id: string): nat {
    if id in fields then fields[id] else 0
  }

  predicate Voted(shard: Shard, voter: string, now: nat) {
    voter in shard.voted && now < shard.voted[voter]
  }

  function LiveFields(shard: Shard, now: nat): map<string, nat> {
    if shard.counts.Some? && now < shard.counts.value.deadline then shard.counts.value.fields else map[]
  }

  // HINCRBY fields id 1 for every listed id, in order.
  function Increment(fields: map<string, nat>, ids: seq<string>): map<string, nat> {
    if ids == [] then fields
    else
      var before := Increment(fields, ids[..|ids| - 1]);
      var id := ids[|ids| - 1];
      before[id := FieldOf(before, id) + 1]
  }

  lemma {:induction false} IncrementAdds(fields: map<string, nat>, ids: seq<string>, o: string)
    ensures FieldOf(Increment(fields, ids), o) == FieldOf(fields, o) + multiset(ids)[o]
    ensures Increment(fields, ids).Keys == fields.Keys + set id | id in ids
  {
    if ids != [] {
      var init, id := ids[..|ids| - 1], ids[|ids| - 1];
      assert ids == init + [id];
      IncrementAdds(fields, init, o);
      IncrementAdds(fields, init, id);
    }
  }

  // The atomic script: refuse a live dedup key, otherwise claim it, add one to
  // every selected field, and give a hash that was absent its one deadline.
  function CastBallot(shard: Shard, now: nat, voter: string, ids: seq<string>,
                      dedupTTL: nat, retention: nat): (Shard, bool)
  {
    if Voted(shard, voter, now) then (shard, false)
    else
      var voted := shard.voted[voter := now + dedupTTL];
      if ids == [] then (Shard(voted, shard.counts), true)
      else
        var live := shard.counts.Some? && now < shard.counts.value.deadline;
        var deadline := if live then shard.counts.value.deadline else now + retention;
        (Shard(voted, Some(Counts(Increment(LiveFields(shard, now), ids), deadline))), true)
  }

  // ---- Sharding refines one global store ----


  function SumField(shards: seq<Shard>, now: nat, o: string): nat {
    if shards == [] then 0
    else SumField(shards[..|shards| - 1], now, o) + FieldOf(LiveFields(shards[|shards| - 1], now), o)
  }

  // The voters a global store would refuse at this instant.
  ghost predicate GlobalVoted(shards: seq<Shard>, voter: string, now: nat) {
    exists k :: 0 <= k < |shards| && Voted(shards[k], voter, now)
  }

  // Every dedup key lies in the shard its voter hashes to.
  ghost predicate Placed(shards: seq<Shard>, crc: string -> nat) {
    |shards| > 0 &&
    forall k, voter :: 0 <= k < |shards| && voter in shards[k].voted ==> k == crc(voter) % |shards|
  }

  lemma {:induction false} SumFieldUpdate(shards: seq<Shard>, k: nat, shard: Shard, now: nat, o: string)
    requires k < |shards|
    ensures SumField(shards[k := shard], now, o) + FieldOf(LiveFields(shards[k], now), o)
         == SumField(shards, now, o) + FieldOf(LiveFields(shard, now), o)
  {
    var last := |shards| - 1;
    if k == last {
      assert shards[k := shard][..last] == shards[..last];
    } else {
      assert shards[k := shard][..last] == shards[..last][k := shard];
      SumFieldUpdate(shards[..last], k, shard, now, o);
    }
  }

  // A counts hash of this shard is alive or yet to be created.
  function DeadlineOf(shard: Shard): nat {
    if shard.counts.Some? then shard.counts.value.deadline else 0
  }

  // One ballot sent to its voter's shard acts as on a global store, now and at
  // every later instant: it is counted exactly if its voter is not marked; the
  // voter is then marked for the dedup lifetime, and everybody else as before; and
  // the summed tally gains its selections for as long as the shard's hash lives.
  lemma ShardingRefinesGlobal(shards: seq<Shard>, crc: string -> nat, now: nat, voter: string,
                              ids: seq<string>, dedupTTL: nat, retention: nat)
    requires Placed(shards, crc) && retention > 0
    ensures var k := crc(voter) % |shards|;
      var (shard, counted) := CastBallot(shards[k], now, voter, ids, dedupTTL, retention);
      var after := shards[k := shard];
      && Placed(after, crc)
      && counted == !GlobalVoted(shards, voter, now)
      && (forall v, t :: now <= t ==>
            (GlobalVoted(after, v, t) <==>
              if counted && v == voter then t < now + dedupTTL else GlobalVoted(shards, v, t)))
      && (forall o, t :: now <= t ==>
            SumField(after, t, o) ==
              SumField(shards, t, o) + if counted && t < DeadlineOf(shard) then multiset(ids)[o] else 0)
  {
    hide SumField, LiveFields, Increment;
    var k := crc(voter) % |shards|;
    var (shard, counted) := CastBallot(shards[k], now, voter, ids, dedupTTL, retention);
    var after := shards[k := shard];
    assert Voted(shards[k], voter, now) ==> GlobalVoted(shards, voter, now);
    forall v, t | now <= t
      ensures GlobalVoted(after, v, t) <==>
        if counted && v == voter then t < now + dedupTTL else GlobalVoted(shards, v, t)
    {
      MarkLasts(shards, crc, now, voter, ids, dedupTTL, retention, v, t);
    }
    forall o, t | now <= t
      ensures SumField(after, t, o) ==
        SumField(shards, t, o) + if counted && t < DeadlineOf(shard) then multiset(ids)[o] else 0
    {
      SumFieldUpdate(shards, k, shard, t, o);
      FieldGains(shards[k], now, t, voter, ids, dedupTTL, retention, o);
    }
  }

  lemma MarkLasts(shards: seq<Shard>, crc: string -> nat, now: nat, voter: string, ids: seq<string>,
                  dedupTTL: nat, retention: nat, v: string, t: nat)
    requires Placed(shards, crc) && now <= t
    ensures var k := crc(voter) % |shards|;
      var (shard, counted) := CastBallot(shards[k], now, voter, ids, dedupTTL, retention);
      GlobalVoted(shards[k := shard], v, t) <==>
        if counted && v == voter then t < now + dedupTTL else GlobalVoted(shards, v, t)
  {
    hide Increment, LiveFields;
    var k := crc(voter) % |shards|;
    var (shard, counted) := CastBallot(shards[k], now, voter, ids, dedupTTL, retention);
    var after := shards[k := shard];
    var j := crc(v) % |shards|;
    assert GlobalVoted(shards, v, t) <==> Voted(shards[j], v, t);
    assert GlobalVoted(after, v, t) <==> Voted(after[j], v, t);
  }

  // One field of the addressed shard, read at a later instant.
  lemma FieldGains(shard: Shard, now: nat, t: nat, voter: string, ids: seq<string>, dedupTTL: nat, retention: nat,
      o: string)
    requires now <= t && retention > 0
    ensures var (after, counted) := CastBallot(shard, now, voter, ids, dedupTTL, retention);
      FieldOf(LiveFields(after, t), o)
        == FieldOf(LiveFields(shard, t), o) + if counted && t < DeadlineOf(after) then multiset(ids)[o] else 0
  {
    IncrementAdds(LiveFields(shard, now), ids, o);
  }

  // ---- ... over every sequence of ballots ----

  datatype Ballot = Ballot(at: nat, voter: string, ids: seq<string>)

  // A single store: when each voter's mark ends, and the ballots counted.
  datatype Global = Global(marks: map<string, nat>, counted: seq<Ballot>)

  function GlobalCast(g: Global, b: Ballot, dedupTTL: nat): (Global, bool) {
    if b.voter in g.marks && b.at < g.marks[b.voter] then (g, false)
    else (Global(g.marks[b.voter := b.at + dedupTTL], g.counted + [b]), true)
  }

  function ShardedCast(shards: seq<Shard>, crc: string -> nat, b: Ballot, dedupTTL: nat, retention: nat): (seq<Shard>,
      bool)
    requires |shards| > 0
  {
    var k := crc(b.voter) % |shards|;
    var (shard, counted) := CastBallot(shards[k], b.at, b.voter, b.ids, dedupTTL, retention);
    (shards[k := shard], counted)
  }

  // The verdicts on these ballots, and the store after them.
  function PlayGlobal(bs: seq<Ballot>, dedupTTL: nat): (Global, seq<bool>) {
    if bs == [] then (Global(map[], []), [])
    else
      var (g, verdicts) := PlayGlobal(bs[..|bs| - 1], dedupTTL);
      var (g', counted) := GlobalCast(g, bs[|bs| - 1], dedupTTL);
      (g', verdicts + [counted])
  }

  function PlayShards(n: nat, bs: seq<Ballot>, crc: string -> nat, dedupTTL: nat,
      retention: nat): (result: (seq<Shard>, seq<bool>))
    requires n > 0
    ensures |result.0| == n
  {
    if bs == [] then (seq(n, _ => EMPTY_SHARD), [])
    else
      var (shards, verdicts) := PlayShards(n, bs[..|bs| - 1], crc, dedupTTL, retention);
      var (shards', counted) := ShardedCast(shards, crc, bs[|bs| - 1], dedupTTL, retention);
      (shards', verdicts + [counted])
  }

  // The selections of o among these ballots.
  function Selections(bs: seq<Ballot>, o: string): nat {
    if bs == [] then 0 else Selections(bs[..|bs| - 1], o) + multiset(bs[|bs| - 1].ids)[o]
  }

  predicate InOrder(bs: seq<Ballot>) {
    |bs| <= 1 || (bs[|bs| - 2].at <= bs[|bs| - 1].at && InOrder(bs[..|bs| - 1]))
  }

  // The shards hold exactly the global marks, at t and ever after.
  ghost predicate SameMarks(shards: seq<Shard>, g: Global, now: nat) {
    forall v, t :: now <= t ==> (GlobalVoted(shards, v, t) <==> v in g.marks && t < g.marks[v])
  }

  // The summed tally is at most the counted selections, and equal to them up to
  // the first instant at which a hash can expire.
  ghost predicate SameTally(shards: seq<Shard>, g: Global, now: nat, first: nat) {
    forall o, t :: now <= t ==>
      && SumField(shards, t, o) <= Selections(g.counted, o)
      && (t < first ==> SumField(shards, t, o) == Selections(g.counted, o))
  }

  // No hash expires before first.
  predicate Lasting(shards: seq<Shard>, first: nat) {
    forall k :: 0 <= k < |shards| && shards[k].counts.Some? ==> first <= shards[k].counts.value.deadline
  }

  // For every sequence of ballots the shards and the single store give the same
  // verdicts, mark the same voters at every instant from then on, and, until the
  // first ballot's retention is over, hold the same tally; later the summed tally
  // is never more.
  lemma {:induction false} ShardedRunsAsOne(n: nat, bs: seq<Ballot>, crc: string -> nat, dedupTTL: nat, retention: nat)
    requires n > 0 && retention > 0 && InOrder(bs)
    ensures var ((shards, verdicts), (g, expected)) :=
        (PlayShards(n, bs, crc, dedupTTL, retention), PlayGlobal(bs, dedupTTL));
      var now, first := if bs == [] then 0 else bs[|bs| - 1].at, if bs == [] then 0 else bs[0].at + retention;
      && Placed(shards, crc) && verdicts == expected
      && SameMarks(shards, g, now) && SameTally(shards, g, now, first) && Lasting(shards, first)
  {
    hide SumField, SameMarks, SameTally, Placed, Lasting, GlobalVoted, ShardedCast, GlobalCast;
    if bs == [] {
      EmptyShards(n, crc, 0);
    } else {
      var before, b := bs[..|bs| - 1], bs[|bs| - 1];
      ShardedRunsAsOne(n, before, crc, dedupTTL, retention);
      var shards, g := PlayShards(n, before, crc, dedupTTL, retention).0, PlayGlobal(before, dedupTTL).0;
      var was, first := if before == [] then 0 else before[|before| - 1].at, bs[0].at + retention;
      FirstEarliest(bs);
      if before == [] { EmptyShards(n, crc, first); }
      OneMore(shards, g, crc, b, was, first, dedupTTL, retention);
    }
  }

  lemma {:induction false} FirstEarliest(bs: seq<Ballot>)
    requires InOrder(bs) && bs != []
    ensures bs[0].at <= bs[|bs| - 1].at
  {
    if |bs| > 1 { FirstEarliest(bs[..|bs| - 1]); }
  }

  lemma {:induction false} SumEmpty(n: nat, t: nat, o: string)
    ensures SumField(seq(n, _ => EMPTY_SHARD), t, o) == 0
  {
    if n > 0 {
      var shards := seq(n, _ => EMPTY_SHARD);
      assert shards[..n - 1] == seq(n - 1, _ => EMPTY_SHARD);
      SumEmpty(n - 1, t, o);
    }
  }

  lemma EmptyShards(n: nat, crc: string -> nat, first: nat)
    requires n > 0
    ensures var shards, g := seq(n, _ => EMPTY_SHARD), Global(map[], []);
      Placed(shards, crc) && SameMarks(shards, g, 0) && SameTally(shards, g, 0, first) && Lasting(shards, first)
  {
    hide SumField;
    var shards := seq(n, _ => EMPTY_SHARD);
    forall o, t ensures SumField(shards, t, o) == 0 { SumEmpty(n, t, o); }
  }

  lemma OneMore(shards: seq<Shard>, g: Global, crc: string -> nat, b: Ballot, was: nat, first: nat, dedupTTL: nat,
      retention: nat)
    requires Placed(shards, crc) && SameMarks(shards, g, was)
    requires SameTally(shards, g, was, first) && Lasting(shards, first)
    requires was <= b.at && first <= b.at + retention && retention > 0
    ensures var ((shards', counted), (g', expected)) :=
        (ShardedCast(shards, crc, b, dedupTTL, retention), GlobalCast(g, b, dedupTTL));
      && counted == expected && Placed(shards', crc)
      && SameMarks(shards', g', b.at) && SameTally(shards', g', b.at, first) && Lasting(shards', first)
  {
    hide SumField, Increment, LiveFields, GlobalVoted;
    var k := crc(b.voter) % |shards|;
    hide Placed;
    ShardingRefinesGlobal(shards, crc, b.at, b.voter, b.ids, dedupTTL, retention);
    var (shard, counted) := CastBallot(shards[k], b.at, b.voter, b.ids, dedupTTL, retention);
    if counted {
      assert (g.counted + [b])[..|g.counted|] == g.counted;
    }
  }
}
