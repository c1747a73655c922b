// What a synchronisation or a Results call that nothing interrupts achieves, from
// any reachable state: the protocol does not get by on doing nothing.
module ProtocolProgress {
  import opened Wrappers
  import opened Entity
  import opened Repository
  import opened Results
  import opened ShardScript
  import opened Protocol
  import opened ProtocolTally
  import opened ProtocolInvariant
  import opened ProtocolPreservation
  import opened ProtocolTheorems
  import opened ProtocolRetention
  import opened ProtocolLostVote

  // No counter of this state is gone.
  ghost predicate Whole(c: Config, s: State) {
    |s.shards| == |s.epochs| == c.shards && forall k :: 0 <= k < c.shards ==> ShardIntact(s, k)
  }

  lemma ReachedInv(c: Config, s: State)
    requires WfConfig(c) && Reaches(c, s)
    ensures Inv(c, s) && |s.shards| == |s.epochs| == c.shards && |s.versions| > 0
  {
    hide Inv;
    var states, events := RunTo(c, s);
    RunInv(c, states, events, |states| - 1);
    Basics(c, s);
  }

  lemma Basics(c: Config, s: State)
    requires Inv(c, s)
    ensures |s.shards| == |s.epochs| == c.shards && |s.versions| > 0
    ensures s.tracked ==> Origin(s).Some?
  {
  }

  // ---- A synchronisation ----

  function Syncing(s: State, id: nat, pc: SyncPc): State {
    s.(syncs := s.syncs[id := Sync(s.now, pc)])
  }

  // These shards, read one after another with nothing in between.
  function ReadIn(s: State, order: seq<nat>): (scan: Scan)
    requires |s.shards| == |s.epochs| && forall i :: 0 <= i < |order| ==> order[i] < |s.shards|
    ensures forall k :: k in scan.read <==> k in order
  {
    if order == [] then NewScan(s)
    else
      assert order == order[..|order| - 1] + [order[|order| - 1]];
      ScanShard(s, ReadIn(s, order[..|order| - 1]), order[|order| - 1])
  }

  // An order of all the shards, none twice.
  ghost predicate Covers(s: State, order: seq<nat>) {
    && Distinct(order) && |s.shards| == |s.epochs|
    && (forall i :: 0 <= i < |order| ==> order[i] < |s.shards|)
    && forall k: nat :: k < |s.shards| ==> k in order
  }

  lemma ReadsLast(s: State, order: seq<nat>)
    requires |s.shards| == |s.epochs| && order != [] && Distinct(order)
    requires forall i :: 0 <= i < |order| ==> order[i] < |s.shards|
    ensures var n := |order| - 1;
      && ReadIn(s, order) == ScanShard(s, ReadIn(s, order[..n]), order[n])
      && order[n] !in ReadIn(s, order[..n]).read && order[n] in AllShards(|s.shards|)
  {
    hide ScanShard;
  }

  lemma ReadsAll(s: State, order: seq<nat>)
    requires Covers(s, order)
    ensures ReadIn(s, order).read == AllShards(|s.shards|)
  {
    hide ReadIn;
  }

  lemma SyncMoves(c: Config, s: State, id: nat, poll: Poll, scan: Scan, k: nat)
    requires |s.versions| > 0 && Unread(s, scan, k)
    ensures SyncMove(c, Syncing(s, id, SyncScan(poll, scan)), id, k,
                     Syncing(s, id, SyncScan(poll, ScanShard(s, scan, k))))
  {
    hide ScanShard;
    var before, after := Syncing(s, id, SyncScan(poll, scan)), Syncing(s, id, SyncScan(poll, ScanShard(s, scan, k)));
    ReadSame(s, before, scan, k);
    assert k in AllShards(|s.shards|);
    assert after.syncs == before.syncs[id := before.syncs[id].(pc := SyncScan(poll, ScanShard(s, scan, k)))];
  }

  // A read depends on the counters, the clock and the log only.
  lemma ReadSame(s: State, t: State, scan: Scan, k: nat)
    requires k < |s.shards| == |s.epochs| && t.shards == s.shards && t.epochs == s.epochs
    requires t.now == s.now && t.log == s.log
    ensures ScanShard(t, scan, k) == ScanShard(s, scan, k)
  {
  }

  lemma {:induction false} ReachScan(c: Config, s: State, id: nat, poll: Poll, order: seq<nat>)
    requires WfConfig(c) && |s.versions| > 0 && |s.shards| == |s.epochs| && Distinct(order)
    requires forall i :: 0 <= i < |order| ==> order[i] < |s.shards|
    requires Reaches(c, Syncing(s, id, SyncScan(poll, NewScan(s))))
    ensures Reaches(c, Syncing(s, id, SyncScan(poll, ReadIn(s, order))))
  {
    hide Reaches, SyncMove, ScanShard;
    if order != [] {
      var n := |order| - 1;
      ReachScan(c, s, id, poll, order[..n]);
      ReadsLast(s, order);
      hide ReadIn, Distinct;
      SyncMoves(c, s, id, poll, ReadIn(s, order[..n]), order[n]);
      ExtendSync(c, Syncing(s, id, SyncScan(poll, ReadIn(s, order[..n]))), id, order[n],
                 Syncing(s, id, SyncScan(poll, ReadIn(s, order))));
    }
  }

  lemma ReachLoad(c: Config, s: State, id: nat)
    requires WfConfig(c) && Reaches(c, s) && |s.versions| > 0 && s.tracked && id !in s.syncs && Origin(s).Some?
    ensures Reaches(c, Syncing(s, id, SyncScan(Origin(s).value, NewScan(s))))
  {
    hide Reaches, Init;
    var s1 := Syncing(s, id, SyncLoad);
    assert SyncSteps(c, s, BeginSync(id), s1);
    var s2 := Syncing(s, id, SyncScan(Origin(s).value, NewScan(s)));
    assert NewScan(s1) == NewScan(s) && Origin(s1) == Origin(s);
    assert s2.syncs == s1.syncs[id := s1.syncs[id].(pc := SyncScan(Origin(s).value, NewScan(s)))];
    hide Environment, AdminSteps, FlightSteps, CastSteps, SyncSteps, ReadSteps;
    Extend(c, s, BeginSync(id), s1);
    ExtendSync(c, s1, id, 0, s2);
  }

  // After the scan: the save, and for a settled poll the untracking.
  lemma ReachEnd(c: Config, s: State, id: nat, poll: Poll, scan: Scan) returns (s': State)
    requires WfConfig(c) && |s.versions| > 0 && scan.read == AllShards(|s.shards|)
    requires Reaches(c, Syncing(s, id, SyncScan(poll, scan)))
    ensures Reaches(c, s') && s' == s.(syncs := s'.syncs, durable := Upsert(s.durable, scan.acc),
                                       tracked := s.tracked && !Settled(c, poll, s.now))
  {
    hide Reaches, Settled, Upsert;
    var s1 := Syncing(s, id, SyncScan(poll, scan));
    var s2 := Syncing(s, id, SyncSaved(poll, scan)).(durable := Upsert(s.durable, scan.acc));
    assert s2.syncs == s1.syncs[id := s1.syncs[id].(pc := SyncSaved(poll, scan))];
    ExtendSync(c, s1, id, 0, s2);
    s' := s2;
    if Settled(c, poll, s.now) {
      s' := ReachDrop(c, s2, id, poll, scan);
    }
  }

  lemma ReachDrop(c: Config, s: State, id: nat, poll: Poll, scan: Scan) returns (s': State)
    requires c.shards > 0 && |s.versions| > 0 && Reaches(c, s) && Settled(c, poll, s.now)
    requires id in s.syncs && s.syncs[id] == Sync(s.now, SyncSaved(poll, scan))
    ensures Reaches(c, s') && s' == s.(syncs := s'.syncs, tracked := false)
  {
    hide Reaches;
    var s1 := Syncing(s, id, SyncSettled(poll, scan));
    assert s1.syncs == s.syncs[id := s.syncs[id].(pc := SyncSettled(poll, scan))];
    ExtendSync(c, s, id, 0, s1);
    s' := Syncing(s, id, SyncUntracked(poll, scan)).(tracked := false);
    assert s'.syncs == s1.syncs[id := s1.syncs[id].(pc := SyncUntracked(poll, scan))];
    ExtendSync(c, s1, id, 0, s');
  }

  // From every reachable state in which the poll is tracked a synchronisation can
  // run through at once, reading the shards in any order. It makes the durable
  // counts exact if no counter is gone, and it leaves the poll tracked exactly if
  // it has not settled.
  lemma SyncCompletes(c: Config, s: State, id: nat, order: seq<nat>) returns (s': State)
    requires WfConfig(c) && Reaches(c, s) && s.tracked && id !in s.syncs && Covers(s, order)
    ensures Reaches(c, s') && s'.log == s.log && s'.now == s.now && s'.versions == s.versions
    ensures Whole(c, s) ==> Exact(s')
    ensures |s.versions| > 0 && Origin(s).Some? && (s'.tracked <==> !Settled(c, Origin(s).value, s.now))
  {
    hide Reaches, Inv, Settled, ReadIn, Exact, Whole, Distinct;
    ReachedInv(c, s);
    Basics(c, s);
    var poll := Origin(s).value;
    ReachLoad(c, s, id);
    ReachScan(c, s, id, poll, order);
    var scan := ReadIn(s, order);
    ReadsAll(s, order);
    s' := ReachEnd(c, s, id, poll, scan);
    if Whole(c, s) {
      ReachedInv(c, Syncing(s, id, SyncScan(poll, scan)));
      WholeScan(c, s, order);
      ExactAfter(c, s, id, poll, scan);
    }
  }

  lemma {:induction false} WholeScan(c: Config, s: State, order: seq<nat>)
    requires Whole(c, s) && forall i :: 0 <= i < |order| ==> order[i] < c.shards
    ensures var scan := ReadIn(s, order); scan.intact && scan.fromLen == |s.log| == scan.toLen
  {
    hide ShardIntact;
    if order != [] { WholeScan(c, s, order[..|order| - 1]); }
  }

  lemma ExactAfter(c: Config, s: State, id: nat, poll: Poll, scan: Scan)
    requires WfConfig(c) && Inv(c, s) && |s.shards| == |s.epochs| == c.shards && |s.versions| > 0
    requires Inv(c, Syncing(s, id, SyncScan(poll, scan))) && scan.read == AllShards(|s.shards|)
    requires scan.intact && scan.fromLen == |s.log| == scan.toLen
    ensures forall t: State ::
      t.poll == s.poll && t.log == s.log && t.durable == Upsert(s.durable, scan.acc) ==> Exact(t)
  {
    hide VersionsOk, AdminsOk, CacheOk, CastsOk, LogOk, ShardsOk, DedupOk, QueriesOk, LoadedFrom;
    var t := Syncing(s, id, SyncScan(poll, scan));
    assert SyncOk(c, t.poll, t.versions, t.now, t.log, t.durable, t.syncs[id]);
    forall o | o in scan.acc ensures scan.acc[o] == Tally(s.log, o) {
      ScanBelowTally(c, t, scan, o);
      assert s.log[..|s.log|] == s.log;
    }
  }

  // ---- A Results call ----

  function Querying(s: State, id: nat, pc: ReadPc): State {
    s.(queries := s.queries[id := Query(|s.log|, pc)])
  }

  lemma QueryMoves(s: State, id: nat, durable: Option<map<string, nat>>, scan: Scan, k: nat)
    requires |s.versions| > 0 && Unread(s, scan, k)
    ensures ReadMove(Querying(s, id, ReadScan(durable, scan)), id, true, k,
                     Querying(s, id, ReadScan(durable, ScanShard(s, scan, k))))
  {
    hide ScanShard, Merged;
    var before := Querying(s, id, ReadScan(durable, scan));
    var after := Querying(s, id, ReadScan(durable, ScanShard(s, scan, k)));
    ReadSame(s, before, scan, k);
    assert k in AllShards(|s.shards|);
    assert after.queries == before.queries[id := before.queries[id].(pc := ReadScan(durable, ScanShard(s, scan, k)))];
  }

  lemma ExtendRead(c: Config, s: State, id: nat, ok: bool, k: nat, s': State)
    requires c.shards > 0 && Reaches(c, s) && |s.versions| > 0 && ReadMove(s, id, ok, k, s')
    ensures Reaches(c, s')
  {
    hide Reaches, ReadMove;
    assert ReadSteps(s, ReadStep(id, ok, k), s');
    hide AdminSteps, Environment, FlightSteps, CastSteps, SyncSteps, ReadSteps;
    Extend(c, s, ReadStep(id, ok, k), s');
  }

  lemma {:induction false} ReachQuery(c: Config, s: State, id: nat, durable: Option<map<string, nat>>, order: seq<nat>)
    requires WfConfig(c) && |s.versions| > 0 && |s.shards| == |s.epochs| && Distinct(order)
    requires forall i :: 0 <= i < |order| ==> order[i] < |s.shards|
    requires Reaches(c, Querying(s, id, ReadScan(durable, NewScan(s))))
    ensures Reaches(c, Querying(s, id, ReadScan(durable, ReadIn(s, order))))
  {
    hide Reaches, ReadMove, ScanShard;
    if order != [] {
      var n := |order| - 1;
      ReachQuery(c, s, id, durable, order[..n]);
      ReadsLast(s, order);
      hide ReadIn, Distinct;
      QueryMoves(s, id, durable, ReadIn(s, order[..n]), order[n]);
      ExtendRead(c, Querying(s, id, ReadScan(durable, ReadIn(s, order[..n]))), id, true, order[n],
                 Querying(s, id, ReadScan(durable, ReadIn(s, order))));
    }
  }

  lemma QueryAsks(s: State, id: nat, durableOk: bool)
    ensures ReadMove(Querying(s, id, ReadDurable), id, durableOk, 0,
                     Querying(s, id, ReadScan(if durableOk then Some(s.durable) else None, NewScan(s))))
  {
    hide ScanShard, Merged, OptionSet;
    var s1 := Querying(s, id, ReadDurable);
    var pc := ReadScan(if durableOk then Some(s.durable) else None, NewScan(s));
    assert NewScan(s1) == NewScan(s);
    assert Querying(s, id, pc).queries == s1.queries[id := s1.queries[id].(pc := pc)];
  }

  lemma ReachAsked(c: Config, s: State, id: nat, durableOk: bool)
    requires WfConfig(c) && Reaches(c, s) && |s.versions| > 1 && id !in s.queries
    ensures Reaches(c, Querying(s, id, ReadScan(if durableOk then Some(s.durable) else None, NewScan(s))))
  {
    hide Reaches, ReadMove, NewScan;
    ReachBegunQuery(c, s, id);
    QueryAsks(s, id, durableOk);
    ExtendRead(c, Querying(s, id, ReadDurable), id, durableOk, 0,
               Querying(s, id, ReadScan(if durableOk then Some(s.durable) else None, NewScan(s))));
  }

  lemma ReachBegunQuery(c: Config, s: State, id: nat)
    requires WfConfig(c) && Reaches(c, s) && |s.versions| > 1 && id !in s.queries
    ensures Reaches(c, Querying(s, id, ReadDurable))
  {
    hide Reaches, Init;
    assert ReadSteps(s, BeginRead(id), Querying(s, id, ReadDurable));
    hide Environment, AdminSteps, FlightSteps, CastSteps, SyncSteps, ReadSteps;
    Extend(c, s, BeginRead(id), Querying(s, id, ReadDurable));
  }

  // From every reachable state in which the poll exists a Results call can run
  // through at once, reading the shards in any order. With its live read it shows
  // exactly the true tally of every option if no counter is gone, whether the
  // durable read fails or not; without it, exactly the durable row.
  lemma QueryCompletes(c: Config, s: State, id: nat, durableOk: bool, liveOk: bool,
      order: seq<nat>) returns (s': State)
    requires WfConfig(c) && Reaches(c, s) && |s.versions| > 1 && id !in s.queries && (durableOk || liveOk)
    requires Covers(s, order)
    ensures Reaches(c, s') && s' == s.(queries := s'.queries) && id in s'.queries && s'.queries[id].pc.ReadDone?
    ensures s'.queries[id].pc.counts.Keys == OptionSet(s.poll)
    ensures liveOk && Whole(c, s) ==>
      forall o :: o in OptionSet(s.poll) ==> s'.queries[id].pc.counts[o] == Tally(s.log, o)
    ensures !liveOk ==> forall o :: o in OptionSet(s.poll) ==> s'.queries[id].pc.counts[o] == VotesOf(s.durable, o)
  {
    hide Reaches, Inv, Whole, ReadIn, Distinct;
    var durable := if durableOk then Some(s.durable) else None;
    ReachAsked(c, s, id, durableOk);
    if liveOk {
      ReachedInv(c, s);
      ReachQuery(c, s, id, durable, order);
      ReadsAll(s, order);
      s' := ReachShown(c, s, id, durable, ReadIn(s, order));
      if Whole(c, s) {
        ReachedInv(c, s');
        WholeScan(c, s, order);
        ShowsTally(c, s', id);
      }
    } else {
      var before := Querying(s, id, ReadScan(durable, NewScan(s)));
      s' := Querying(s, id, ReadDone(durable, None, Merged(OptionSet(s.poll), durable, None), |s.log|));
      assert s'.queries == before.queries[id := before.queries[id].(pc := s'.queries[id].pc)];
      ExtendRead(c, before, id, false, 0, s');
    }
  }

  // After the scan: the merge.
  lemma ReachShown(c: Config, s: State, id: nat, durable: Option<map<string, nat>>, scan: Scan) returns (s': State)
    requires c.shards > 0 && |s.versions| > 0 && scan.read == AllShards(|s.shards|)
    requires Reaches(c, Querying(s, id, ReadScan(durable, scan)))
    ensures Reaches(c, s') && s' == Querying(s, id,
      ReadDone(durable, Some(scan), Merged(OptionSet(s.poll), durable, Some(scan.acc)), |s.log|))
    ensures s'.queries[id].pc.counts.Keys == OptionSet(s.poll)
  {
    hide Reaches;
    var before := Querying(s, id, ReadScan(durable, scan));
    s' := Querying(s, id, ReadDone(durable, Some(scan), Merged(OptionSet(s.poll), durable, Some(scan.acc)), |s.log|));
    assert s'.queries == before.queries[id := before.queries[id].(pc := s'.queries[id].pc)];
    ExtendRead(c, before, id, true, 0, s');
  }

  lemma ShowsTally(c: Config, s: State, id: nat)
    requires Inv(c, s) && id in s.queries && s.queries[id].pc.ReadDone? && s.queries[id].begun == |s.log|
    requires s.queries[id].pc.ended == |s.log| && s.queries[id].pc.live.Some? && s.queries[id].pc.live.value.intact
    ensures forall o :: o in OptionSet(s.poll) ==>
      o in s.queries[id].pc.counts && s.queries[id].pc.counts[o] == Tally(s.log, o)
  {
    hide VersionsOk, AdminsOk, CacheOk, CastsOk, LogOk, ShardsOk, DedupOk, DurableOk, SyncsOk, ScanOk;
    assert QueryOk(c, s.poll, s.versions, s.log, s.queries[id]);
    assert s.log[..|s.log|] == s.log;
  }

  // ---- A ballot ----

  // A cast and the flight it waits for, both begun now.
  function Casting(s: State, id: nat, pc: CastPc, f: nat, leg: FlightPc, replica: nat, voter: string,
      ballot: seq<string>): State {
    s.(casts := s.casts[id := Cast(replica, s.now, voter, ballot, pc)],
       flights := s.flights[f := Flight(replica, s.now, leg)])
  }

  lemma ExtendEnvironment(c: Config, s: State, e: Event, s': State)
    requires c.shards > 0 && Reaches(c, s) && |s.versions| > 0 && Environment(c, s, e, s') && !e.LoseCounters?
    ensures Reaches(c, s')
  {
    hide Reaches, Environment, AdminSteps, FlightSteps, CastSteps, SyncSteps, ReadSteps;
    Extend(c, s, e, s');
  }

  // Neither tier of this replica has the poll.
  lemma ReachCold(c: Config, s: State, replica: nat)
    requires c.shards > 0 && Reaches(c, s) && |s.versions| > 0
    ensures Reaches(c, s.(local := s.local - {replica}, shared := None))
  {
    hide Reaches;
    var s1 := s.(local := s.local - {replica});
    ExtendEnvironment(c, s, Evict(replica), s1);
    ExtendEnvironment(c, s1, DropShared, s1.(shared := None));
  }

  lemma ReachWaiting(c: Config, s: State, id: nat, f: nat, replica: nat, voter: string, ballot: seq<string>)
    requires c.shards > 0 && Reaches(c, s) && |s.versions| > 0 && id !in s.casts && f !in s.flights
    ensures Reaches(c, Casting(s, id, CastWaiting(f), f, FlightLocal, replica, voter, ballot))
  {
    hide Reaches, Init;
    var s1 := s.(flights := s.flights[f := Flight(replica, s.now, FlightLocal)]);
    assert FlightSteps(c, s, BeginFlight(f, replica), s1);
    var s2 := Casting(s, id, CastBegin, f, FlightLocal, replica, voter, ballot);
    var s3 := Casting(s, id, CastWaiting(f), f, FlightLocal, replica, voter, ballot);
    assert s3.casts == s2.casts[id := s2.casts[id].(pc := CastWaiting(f))];
    hide Environment, AdminSteps, FlightSteps, SyncSteps, ReadSteps;
    Extend(c, s, BeginFlight(f, replica), s1);
    ExtendCast(c, s1, BeginCast(id, replica, voter, ballot), s2);
    ExtendCast(c, s2, JoinFlight(id, f), s3);
  }

  // One step of the flight; next is what it leaves in the tiers.
  lemma ReachLeg(c: Config, s: State, f: nat, leg: FlightPc, s': State)
    requires c.shards > 0 && Reaches(c, s) && |s.versions| > 0 && f in s.flights
    requires InTime(s, s.flights[f].start, c.requestTimeout)
    requires FlightNext(s, s.flights[f], true) == Some(leg)
    requires var at := s.flights[f];
      s' == s.(flights := s.flights[f := at.(pc := leg)],
        shared := if at.pc.FlightSetShared?
                  then Some(SharedEntry(at.pc.entry, s.now + SharedTTLFor(c, at.pc.entry.answer))) else s.shared,
        local := if at.pc.FlightSetLocal?
                 then s.local[at.replica := LocalEntry(at.pc.entry, s.now + LocalTTLFor(c, at.pc.entry.answer))]
                 else s.local)
    ensures Reaches(c, s')
  {
    hide Reaches, FlightNext, SharedTTLFor, LocalTTLFor;
    ExtendFlight(c, s, f, true, s');
  }

  // The answer of the origin, read now.
  function Loaded(s: State): Entry
    requires |s.versions| > 0
  {
    Entry(Origin(s), s.now, |s.versions| - 1)
  }

  // A flight that finds both tiers empty asks the origin and fills them.
  lemma ReachFilled(c: Config, s: State, f: nat, replica: nat) returns (s': State)
    requires c.shards > 0 && Reaches(c, s) && |s.versions| > 0
    requires f in s.flights && s.flights[f] == Flight(replica, s.now, FlightLocal)
    requires replica !in s.local && s.shared.None?
    ensures Reaches(c, s') && s' == s.(shared := s'.shared, local := s'.local, flights := s'.flights)
    ensures s'.flights == s.flights[f := Flight(replica, s.now, FlightDone(Loaded(s), s.now))]
    ensures replica in s'.local && s'.local[replica].entry == Loaded(s)
    ensures s'.shared.Some? && s'.shared.value.entry == Loaded(s)
  {
    hide Reaches, SharedTTLFor, LocalTTLFor;
    var entry := Loaded(s);
    var s1 := s.(flights := s.flights[f := Flight(replica, s.now, FlightShared)]);
    ReachLeg(c, s, f, FlightShared, s1);
    var s2 := s.(flights := s.flights[f := Flight(replica, s.now, FlightOrigin)]);
    assert s2.flights == s1.flights[f := s1.flights[f].(pc := FlightOrigin)];
    ReachLeg(c, s1, f, FlightOrigin, s2);
    var s3 := s.(flights := s.flights[f := Flight(replica, s.now, FlightSetShared(entry))]);
    assert s3.flights == s2.flights[f := s2.flights[f].(pc := FlightSetShared(entry))];
    ReachLeg(c, s2, f, FlightSetShared(entry), s3);
    s' := ReachStored(c, s, f, replica, s3);
  }

  lemma ReachStored(c: Config, s: State, f: nat, replica: nat, s3: State) returns (s': State)
    requires c.shards > 0 && Reaches(c, s3) && |s.versions| > 0
    requires s3 == s.(flights := s.flights[f := Flight(replica, s.now, FlightSetShared(Loaded(s)))])
    ensures Reaches(c, s') && s' == s.(shared := s'.shared, local := s'.local, flights := s'.flights)
    ensures s'.flights == s.flights[f := Flight(replica, s.now, FlightDone(Loaded(s), s.now))]
    ensures replica in s'.local && s'.local[replica].entry == Loaded(s)
    ensures s'.shared.Some? && s'.shared.value.entry == Loaded(s)
  {
    hide Reaches, SharedTTLFor, LocalTTLFor, LocalHit, SharedHit;
    var entry := Loaded(s);
    var s4 := s.(flights := s.flights[f := Flight(replica, s.now, FlightSetLocal(entry))],
                 shared := Some(SharedEntry(entry, s.now + SharedTTLFor(c, entry.answer))));
    assert s4.flights == s3.flights[f := s3.flights[f].(pc := FlightSetLocal(entry))];
    ReachLeg(c, s3, f, FlightSetLocal(entry), s4);
    s' := s4.(flights := s.flights[f := Flight(replica, s.now, FlightDone(entry, s.now))],
              local := s.local[replica := LocalEntry(entry, s.now + LocalTTLFor(c, entry.answer))]);
    assert s'.flights == s4.flights[f := s4.flights[f].(pc := FlightDone(entry, s.now))];
    ReachLeg(c, s4, f, FlightDone(entry, s.now), s');
  }

  // One check of a request that runs now.
  lemma ReachChecked(c: Config, s: State, id: nat, pc: CastPc)
    requires c.shards > 0 && Reaches(c, s) && |s.versions| > 0 && id in s.casts && s.casts[id].start == s.now
    requires CastNext(s, s.casts[id]) == Some(pc)
    ensures Reaches(c, WithCast(s, id, pc))
  {
    hide Reaches, CastNext;
    ExtendCast(c, s, CastStep(id), WithCast(s, id, pc));
  }

  // The request of a waiting cast whose flight has loaded an open poll.
  lemma ReachGuarded(c: Config, s: State, id: nat, f: nat, p: Cast, entry: Entry)
    requires c.shards > 0 && Reaches(c, s) && |s.versions| > 0
    requires id in s.casts && s.casts[id] == p && p.start == s.now && p.pc == CastWaiting(f)
    requires f in s.flights && s.flights[f].pc.FlightDone? && s.flights[f].pc.entry == entry
    requires entry.answer.Some? && IsOpenAt(entry.answer.value, s.now) && IsBallot(entry.answer.value, p.ballot)
    ensures Reaches(c, s.(casts := s.casts[id := p.(pc := CastGuarded(entry))]))
  {
    hide Reaches, IsOpenAt, IsBallot;
    ReachChecked(c, s, id, CastLoaded(entry));
    var s1 := WithCast(s, id, CastLoaded(entry));
    ReachChecked(c, s1, id, CastChecked(entry));
    var s2 := WithCast(s1, id, CastChecked(entry));
    ReachChecked(c, s2, id, CastGuarded(entry));
    assert WithCast(s2, id, CastGuarded(entry)).casts == s.casts[id := p.(pc := CastGuarded(entry))];
  }

  lemma ReachCounted(c: Config, s: State, id: nat, entry: Entry) returns (s': State)
    requires c.shards > 0 && Reaches(c, s) && |s.versions| > 0 && |s.shards| == |s.epochs| == c.shards
    requires id in s.casts && s.casts[id].start == s.now && s.casts[id].pc == CastGuarded(entry)
    ensures var p := s.casts[id];
      var k := Protocol.ShardOf(c, p.voter);
      var (shard, counted) := CastBallot(s.shards[k], s.now, p.voter, p.ballot, c.dedupTTL, c.retention);
      && Reaches(c, s')
      && s' == s.(casts := s'.casts, shards := s.shards[k := shard], epochs := s'.epochs, log := s'.log)
      && s'.casts == s.casts[id := p.(pc := CastDone(counted))]
      && s'.log == if counted then s.log + [Counted(s.now, p.voter, k, p.ballot, entry)] else s.log
  {
    ShardInRange(c, s.casts[id].voter);
    hide Reaches, Protocol.ShardOf, ShardScript.CastBallot;
    var p := s.casts[id];
    var k := Protocol.ShardOf(c, p.voter);
    var (shard, counted) := CastBallot(s.shards[k], s.now, p.voter, p.ballot, c.dedupTTL, c.retention);
    var live := s.shards[k].counts.Some? && s.now < s.shards[k].counts.value.deadline;
    s' := s.(casts := s.casts[id := p.(pc := CastDone(counted))], shards := s.shards[k := shard],
             epochs := if counted && !live then s.epochs[k := Epoch(|s.log|, s.now)] else s.epochs,
             log := if counted then s.log + [Counted(s.now, p.voter, k, p.ballot, entry)] else s.log);
    ExtendCast(c, s, Script(id, false), s');
  }

  lemma ShardInRange(c: Config, voter: string)
    requires c.shards > 0
    ensures Protocol.ShardOf(c, voter) < c.shards
  {
  }

  // From every reachable state in which the poll is open a request can run through
  // at once, past both tiers to the origin. Its ballot, if valid, is counted
  // exactly if the voter is not marked; it then adds its selections to the tally.
  lemma BallotCompletes(c: Config, s: State, id: nat, f: nat, replica: nat, voter: string,
      ballot: seq<string>) returns (s': State)
    requires WfConfig(c) && Reaches(c, s) && id !in s.casts && f !in s.flights && |s.versions| > 0
    requires Origin(s).Some? && IsOpenAt(Origin(s).value, s.now) && IsBallot(Origin(s).value, ballot)
    ensures Reaches(c, s') && s' == s.(casts := s'.casts, flights := s'.flights, local := s'.local,
      shared := s'.shared, shards := s'.shards, epochs := s'.epochs, log := s'.log)
    ensures id in s'.casts && s'.casts[id].pc.CastDone?
    ensures Protocol.ShardOf(c, voter) < |s.shards|
    ensures s'.casts[id].pc.counted <==> !Voted(s.shards[Protocol.ShardOf(c, voter)], voter, s.now)
    ensures s'.log == if s'.casts[id].pc.counted
      then s.log + [Counted(s.now, voter, Protocol.ShardOf(c, voter), ballot, Loaded(s))] else s.log
    ensures replica in s'.local && s'.local[replica].entry == Loaded(s)
    ensures s'.shared.Some? && s'.shared.value.entry == Loaded(s)
  {
    hide Reaches, Inv, IsOpenAt, IsBallot, Protocol.ShardOf;
    ReachedInv(c, s);
    ReachCold(c, s, replica);
    var s1 := s.(local := s.local - {replica}, shared := None);
    ReachWaiting(c, s1, id, f, replica, voter, ballot);
    var s2 := Casting(s1, id, CastWaiting(f), f, FlightLocal, replica, voter, ballot);
    var s3 := ReachFilled(c, s2, f, replica);
    var p := Cast(replica, s.now, voter, ballot, CastWaiting(f));
    ReachGuarded(c, s3, id, f, p, Loaded(s));
    ShardInRange(c, voter);
    s' := ReachCounted(c, s3.(casts := s3.casts[id := p.(pc := CastGuarded(Loaded(s)))]), id, Loaded(s));
  }

  // ---- An Activate or Finish ----

  function Asking(s: State, id: nat, replica: nat, target: PollStatus, pc: AdminPc): State {
    s.(admins := s.admins[id := Admin(replica, s.now, target, pc)])
  }

  lemma ReachAsking(c: Config, s: State, id: nat, replica: nat, target: PollStatus)
    requires c.shards > 0 && Reaches(c, s) && |s.versions| > 0 && id !in s.admins && target != Draft
    ensures Reaches(c, Asking(s, id, replica, target, AdminUpdate))
  {
    hide Reaches, Init;
    assert AdminSteps(c, s, BeginAdmin(id, replica, target), Asking(s, id, replica, target, AdminUpdate));
    hide Environment, AdminSteps, FlightSteps, CastSteps, SyncSteps, ReadSteps;
    Extend(c, s, BeginAdmin(id, replica, target), Asking(s, id, replica, target, AdminUpdate));
  }

  // From the accepted update to the two deletes.
  lemma ReachDropping(c: Config, s: State, id: nat, replica: nat, target: PollStatus, poll: Poll)
    requires c.shards > 0 && Reaches(c, Asking(s, id, replica, target, AdminGet)) && |s.versions| > 0
    requires Origin(s) == Some(poll)
    ensures Reaches(c, Asking(s.(tracked := s.tracked || target == Active), id, replica, target, AdminDropLocal(poll)))
  {
    hide Reaches;
    var s1 := Asking(s, id, replica, target, AdminGet);
    assert Origin(s1) == Origin(s);
    var s3 := Asking(s.(tracked := s.tracked || target == Active), id, replica, target, AdminDropLocal(poll));
    if target == Active {
      var s2 := Asking(s, id, replica, target, AdminTrack(poll));
      assert s2.admins == s1.admins[id := s1.admins[id].(pc := AdminTrack(poll))];
      ExtendAdmin(c, s1, id, true, s2);
      assert s3.admins == s2.admins[id := s2.admins[id].(pc := AdminDropLocal(poll))];
      ExtendAdmin(c, s2, id, true, s3);
    } else {
      assert s3.admins == s1.admins[id := s1.admins[id].(pc := AdminDropLocal(poll))];
      ExtendAdmin(c, s1, id, true, s3);
    }
  }

  lemma ReachDropped(c: Config, s: State, id: nat, replica: nat, target: PollStatus, poll: Poll)
    requires c.shards > 0 && Reaches(c, Asking(s, id, replica, target, AdminDropLocal(poll))) && |s.versions| > 0
    ensures Reaches(c, Asking(s, id, replica, target, AdminDone(poll)).(local := s.local - {replica}, shared := None))
  {
    hide Reaches;
    var s1 := Asking(s, id, replica, target, AdminDropLocal(poll));
    var s2 := Asking(s, id, replica, target, AdminDropShared(poll)).(local := s.local - {replica});
    assert s2.admins == s1.admins[id := s1.admins[id].(pc := AdminDropShared(poll))];
    ExtendAdmin(c, s1, id, true, s2);
    var s3 := Asking(s, id, replica, target, AdminDone(poll)).(local := s.local - {replica}, shared := None);
    assert s3.admins == s2.admins[id := s2.admins[id].(pc := AdminDone(poll))];
    ExtendAdmin(c, s2, id, true, s3);
  }

  lemma ReachUpdated(c: Config, s: State, id: nat, replica: nat, target: PollStatus)
    requires c.shards > 0 && Reaches(c, s) && |s.versions| > 0 && id !in s.admins && target != Draft
    requires Movable(s, target)
    ensures var moved := Moved(Origin(s).value, target, s.now);
      Reaches(c, Asking(s.(versions := s.versions + [Version(s.now, Some(moved))]), id, replica, target, AdminGet))
  {
    hide Reaches, Moved;
    ReachAsking(c, s, id, replica, target);
    var s1 := Asking(s, id, replica, target, AdminUpdate);
    assert Origin(s1) == Origin(s);
    var moved := Moved(Origin(s).value, target, s.now);
    var s2 := Asking(s.(versions := s.versions + [Version(s.now, Some(moved))]), id, replica, target, AdminGet);
    assert s2.admins == s1.admins[id := s1.admins[id].(pc := AdminGet)];
    ExtendAdmin(c, s1, id, true, s2);
  }

  lemma ReachMoved(c: Config, s: State, id: nat, replica: nat, target: PollStatus, moved: Poll) returns (s': State)
    requires c.shards > 0 && Reaches(c, s) && |s.versions| > 0 && id !in s.admins && target != Draft
    requires Movable(s, target) && moved == Moved(Origin(s).value, target, s.now)
    ensures Reaches(c, s') && s' == Asking(s, id, replica, target, AdminDone(moved)).(
      versions := s.versions + [Version(s.now, Some(moved))], tracked := s.tracked || target == Active,
      local := s.local - {replica}, shared := None)
  {
    hide Reaches, Movable, Moved;
    ReachUpdated(c, s, id, replica, target);
    var base := s.(versions := s.versions + [Version(s.now, Some(moved))]);
    assert Origin(base) == Some(moved);
    ReachDropping(c, base, id, replica, target, moved);
    var tracking := base.(tracked := s.tracked || target == Active);
    ReachDropped(c, tracking, id, replica, target, moved);
    s' := Asking(tracking, id, replica, target, AdminDone(moved)).(local := s.local - {replica}, shared := None);
  }

  lemma ReachConflict(c: Config, s: State, id: nat, replica: nat, target: PollStatus)
    requires c.shards > 0 && Reaches(c, s) && |s.versions| > 0 && id !in s.admins && target != Draft
    requires !Movable(s, target)
    ensures Reaches(c, Asking(s, id, replica, target, AdminConflict))
  {
    hide Reaches;
    ReachAsking(c, s, id, replica, target);
    var s1 := Asking(s, id, replica, target, AdminUpdate);
    assert Origin(s1) == Origin(s);
    var s2 := Asking(s, id, replica, target, AdminConflict);
    assert s2.admins == s1.admins[id := s1.admins[id].(pc := AdminConflict)];
    ExtendAdmin(c, s1, id, true, s2);
  }

  // From every reachable state in which the poll exists an Activate or Finish can
  // run through at once. If the poll is in a source status it takes the new one,
  // an activated poll is tracked, and neither tier of the replica has it any more;
  // otherwise nothing moves.
  lemma AdminCompletes(c: Config, s: State, id: nat, replica: nat, target: PollStatus) returns (s': State)
    requires c.shards > 0 && Reaches(c, s) && |s.versions| > 0 && id !in s.admins && target != Draft
    requires Origin(s).Some?
    ensures Reaches(c, s')
    ensures var poll := Origin(s).value;
      var moved := poll.(status := target, finishedAt := if target == Finished then Some(s.now) else None);
      if poll.status == Draft || (poll.status == Active && target == Finished) then
        s' == Asking(s, id, replica, target, AdminDone(moved)).(
          versions := s.versions + [Version(s.now, Some(moved))], tracked := s.tracked || target == Active,
          local := s.local - {replica}, shared := None)
      else s' == Asking(s, id, replica, target, AdminConflict)
  {
    hide Reaches, Asking;
    if Movable(s, target) {
      s' := ReachMoved(c, s, id, replica, target, Moved(Origin(s).value, target, s.now));
    } else {
      ReachConflict(c, s, id, replica, target);
      s' := Asking(s, id, replica, target, AdminConflict);
    }
  }

  // ---- A whole life ----

  // While no counter is lost before its deadline, all are whole until the first
  // ballot's retention is over.
  lemma WholeWithin(c: Config, s: State)
    requires WfConfig(c) && Reaches(c, s) && (s.log == [] || s.now < s.log[0].at + c.retention)
    ensures Whole(c, s)
  {
    hide Inv, FirstEpochs, ShardIntact;
    ReachedInv(c, s);
    var states, events := RunTo(c, s);
    RunFirst(c, states, events, |states| - 1);
    forall k | 0 <= k < c.shards ensures ShardIntact(s, k) { WholeEarly(c, s, k); }
  }

  lemma ReachCreated(c: Config, s: State)
    requires c.shards > 0 && Init(c, s)
    ensures Reaches(c, s.(versions := s.versions + [Version(0, Some(s.poll))],
                          durable := map id | id in OptionSet(s.poll) :: 0))
  {
    hide Reaches;
    Start(c, s);
    ExtendEnvironment(c, s, Create, s.(versions := s.versions + [Version(0, Some(s.poll))],
                                       durable := map id | id in OptionSet(s.poll) :: 0));
  }

  // The poll is created and activated at the first instant.
  lemma ReachOpened(c: Config, s: State) returns (s': State)
    requires c.shards > 0 && Init(c, s)
    ensures Reaches(c, s') && |s'.versions| > 0 && Origin(s') == Some(s.poll.(status := Active))
    ensures s' == s.(versions := s'.versions, durable := s'.durable, admins := s'.admins, tracked := true)
    ensures s'.admins.Keys == {0} && s'.shards == seq(c.shards, _ => EMPTY_SHARD)
    ensures s'.now == 0 && s'.log == [] && s'.casts == map[] && s'.flights == map[] && s'.syncs == map[]
  {
    hide Reaches;
    ReachCreated(c, s);
    var s1 := s.(versions := s.versions + [Version(0, Some(s.poll))],
                 durable := map id | id in OptionSet(s.poll) :: 0);
    s' := AdminCompletes(c, s1, 0, 0, Active);
    assert s.local - {0} == s.local;
  }

  lemma UpTo(c: Config, s: State) returns (order: seq<nat>)
    requires WfConfig(c) && Reaches(c, s)
    ensures Covers(s, order)
  {
    ReachedInv(c, s);
    order := seq(c.shards, k requires 0 <= k < c.shards => k);
    forall k: nat | k < c.shards ensures k in order { assert order[k] == k; }
  }

  // Every poll that is open at once can be created, opened, voted in with any valid
  // ballot, finished and settled, all while its counters last: it ends untracked,
  // with durable counts of exactly that ballot.
  lemma LifeCompletes(c: Config, s: State, voter: string, ballot: seq<string>) returns (s': State)
    requires WfConfig(c) && Init(c, s) && c.settleAfter < c.retention
    requires IsOpenAt(s.poll.(status := Active), 0) && IsBallot(s.poll.(status := Active), ballot)
    ensures Reaches(c, s') && s'.now == c.settleAfter && !s'.tracked && Exact(s')
    ensures |s'.versions| > 0 && Origin(s') == Some(s.poll.(status := Finished, finishedAt := Some(0)))
    ensures |s'.log| == 1 && s'.log[0].at == 0 && s'.log[0].voter == voter && s'.log[0].ballot == ballot
  {
    hide Reaches, Init, IsOpenAt, IsBallot, Exact, Whole, Protocol.ShardOf;
    var s1 := ReachOpened(c, s);
    assert !Voted(s1.shards[Protocol.ShardOf(c, voter)], voter, 0) by { ShardInRange(c, voter); }
    var s2 := BallotCompletes(c, s1, 0, 0, 0, voter, ballot);
    var s3 := AdminCompletes(c, s2, 1, 0, Finished);
    ExtendTick(c, s3, c.settleAfter);
    var s4 := s3.(now := c.settleAfter);
    WholeWithin(c, s4);
    var order := UpTo(c, s4);
    s' := SyncCompletes(c, s4, 0, order);
  }

  // ---- Lost counters ----

  // No counter is safe: any run can go on by losing those of any shard, which then
  // reads as empty at every later instant, and is whole only if it held no ballot.
  lemma CountersMayGo(c: Config, states: seq<State>, events: seq<Event>, k: nat) returns (s': State)
    requires WfConfig(c) && Run(c, states, events) && k < c.shards
    ensures Run(c, states + [s'], events + [LoseCounters(k)])
    ensures |s'.shards| == |s'.epochs| == c.shards && s'.log == states[|events|].log
    ensures forall t :: LiveFields(s'.shards[k], t) == map[]
    ensures ShardIntact(s', k) <==> forall i :: 0 <= i < |s'.log| ==> s'.log[i].shard != k
  {
    hide Inv, Step, Init;
    var s := states[|events|];
    RunInv(c, states, events, |events|);
    Basics(c, s);
    s' := s.(shards := s.shards[k := s.shards[k].(counts := None)]);
    LossIsStep(c, s, k);
    var all, more := states + [s'], events + [LoseCounters(k)];
    forall i | 0 <= i < |more| ensures Step(c, all[i], more[i], all[i + 1]) {
      if i < |events| { assert Step(c, states[i], events[i], states[i + 1]); }
    }
  }

  lemma LossIsStep(c: Config, s: State, k: nat)
    requires c.shards > 0 && |s.versions| > 0 && k < |s.shards|
    ensures Step(c, s, LoseCounters(k), s.(shards := s.shards[k := s.shards[k].(counts := None)]))
  {
    assert Environment(c, s, LoseCounters(k), s.(shards := s.shards[k := s.shards[k].(counts := None)]));
  }
}
