// The converses of the settle theorems: with a shorter window, or a retention
// that ends too early, a vote can be lost. The first run spends every delay in
// full: a fill reads the active poll just before Finish takes effect and writes it
// to the shared tier one timeout later; another replica copies it as it is about
// to expire; a voter is admitted by the copy on its last instant and the ballot is
// counted one timeout after that, just after a sync has read the shards; the sync
// then finds the poll settled. In the second run a lone ballot's hash expires
// before any sync has read it.
module ProtocolLostVote {
  import opened Wrappers
  import opened Entity
  import opened ShardScript
  import opened Repository
  import opened Protocol
  import opened ProtocolTally
  import opened ProtocolInvariant
  import opened ProtocolTheorems
  import opened ProtocolRetention

  // Some run in which no counters are lost leads to s.
  ghost predicate Reaches(c: Config, s: State)
    requires c.shards > 0
  {
    exists states, events :: Run(c, states, events) && CountersKept(events) && states[|states| - 1] == s
  }

  lemma Start(c: Config, s: State)
    requires c.shards > 0 && Init(c, s)
    ensures Reaches(c, s)
  {
    assert Run(c, [s], []);
    assert [s][|[s]| - 1] == s;
  }

  lemma Extend(c: Config, s: State, e: Event, s': State)
    requires c.shards > 0 && Reaches(c, s) && Step(c, s, e, s') && !e.LoseCounters?
    ensures Reaches(c, s')
  {
    hide Step, Init;
    var states, events :| Run(c, states, events) && CountersKept(events) && states[|states| - 1] == s;
    var states', events' := states + [s'], events + [e];
    forall i | 0 <= i < |events'| ensures Step(c, states'[i], events'[i], states'[i + 1]) {
      if i < |events| {
        assert Step(c, states[i], events[i], states[i + 1]);
      }
    }
    assert Run(c, states', events');
  }

  lemma ExtendTick(c: Config, s: State, to: nat)
    requires c.shards > 0 && Reaches(c, s) && |s.versions| > 0 && s.now <= to
    ensures Reaches(c, s.(now := to))
  {
    hide Reaches;
    assert Environment(c, s, Tick(to), s.(now := to));
    Extend(c, s, Tick(to), s.(now := to));
  }

  lemma ExtendAdmin(c: Config, s: State, id: nat, ok: bool, s': State)
    requires c.shards > 0 && Reaches(c, s) && |s.versions| > 0 && AdminMove(c, s, id, ok, s')
    ensures Reaches(c, s')
  {
    hide Reaches, AdminMove;
    assert AdminSteps(c, s, AdminStep(id, ok), s');
    hide AdminSteps, Environment, FlightSteps, CastSteps, SyncSteps, ReadSteps;
    Extend(c, s, AdminStep(id, ok), s');
  }

  lemma ExtendFlight(c: Config, s: State, id: nat, ok: bool, s': State)
    requires c.shards > 0 && Reaches(c, s) && |s.versions| > 0 && FlightMove(c, s, id, ok, s')
    ensures Reaches(c, s')
  {
    hide Reaches, FlightMove;
    assert FlightSteps(c, s, FlightStep(id, ok), s');
    hide AdminSteps, Environment, FlightSteps, CastSteps, SyncSteps, ReadSteps;
    Extend(c, s, FlightStep(id, ok), s');
  }

  lemma ExtendCast(c: Config, s: State, e: Event, s': State)
    requires c.shards > 0 && Reaches(c, s) && |s.versions| > 0 && CastSteps(c, s, e, s') && !e.LoseCounters?
    ensures Reaches(c, s')
  {
    hide Reaches, AdminSteps, Environment, FlightSteps, CastSteps, SyncSteps, ReadSteps;
    Extend(c, s, e, s');
  }

  lemma ExtendSync(c: Config, s: State, id: nat, k: nat, s': State)
    requires c.shards > 0 && Reaches(c, s) && |s.versions| > 0 && SyncMove(c, s, id, k, s')
    ensures Reaches(c, s')
  {
    hide Reaches, SyncMove;
    assert SyncSteps(c, s, SyncStep(id, k), s');
    hide AdminSteps, Environment, FlightSteps, CastSteps, SyncSteps, ReadSteps;
    Extend(c, s, SyncStep(id, k), s');
  }

  const THE_POLL := Poll("poll", "Q?", Single, 1, Draft, [PollOption("a", "A", 0)], 0, None, None, None)

  function ActivePoll(): Poll { Moved(THE_POLL, Active, 0) }

  function FinishedPoll(): Poll { Moved(ActivePoll(), Finished, 0) }

  function Opened(): seq<Version> {
    [Version(0, None), Version(0, Some(THE_POLL)), Version(0, Some(ActivePoll()))]
  }

  function Closed(c: Config): seq<Version> {
    Opened() + [Version(c.requestTimeout, Some(FinishedPoll()))]
  }

  // The copy of the active poll, read as Finish takes effect.
  function Stale(c: Config): Entry {
    Entry(Some(ActivePoll()), c.requestTimeout, 2)
  }

  function Fresh(c: Config): State {
    State(THE_POLL, 0, [Version(0, None)], map[], false,
          seq(c.shards, _ => EMPTY_SHARD), seq(c.shards, _ => Epoch(0, 0)),
          None, map[], map[], map[], map[], map[], map[], [])
  }

  // The poll is active and tracked; a Finish has read its clock at instant 0.
  function Finishing(c: Config): State {
    Fresh(c).(versions := Opened(), durable := map["a" := 0], tracked := true,
              admins := map[0 := Admin(0, 0, Active, AdminDone(ActivePoll())),
                            1 := Admin(0, 0, Finished, AdminUpdate)])
  }

  lemma ReachDraft(c: Config)
    requires WfConfig(c)
    ensures Reaches(c, Fresh(c).(versions := Opened()[..2], durable := map["a" := 0]))
  {
    var s0 := Fresh(c);
    Start(c, s0);
    hide Reaches, Init, AdminSteps, FlightSteps, CastSteps, SyncSteps, ReadSteps;
    var s1 := s0.(versions := Opened()[..2], durable := map["a" := 0]);
    assert OptionIDs(THE_POLL) == ["a"];
    assert s1.durable == map id | id in OptionSet(s0.poll) :: 0;
    assert s1.versions == s0.versions + [Version(s0.now, Some(s0.poll))];
    assert Environment(c, s0, Create, s1);
    Extend(c, s0, Create, s1);
  }

  lemma ReachBegun(c: Config, s: State, id: nat, replica: nat, target: PollStatus)
    requires c.shards > 0 && Reaches(c, s) && |s.versions| > 0 && id !in s.admins && target != Draft
    ensures Reaches(c, s.(admins := s.admins[id := Admin(replica, s.now, target, AdminUpdate)]))
  {
    var s' := s.(admins := s.admins[id := Admin(replica, s.now, target, AdminUpdate)]);
    assert AdminSteps(c, s, BeginAdmin(id, replica, target), s');
    hide Reaches, Environment, AdminSteps, FlightSteps, CastSteps, SyncSteps, ReadSteps;
    Extend(c, s, BeginAdmin(id, replica, target), s');
  }

  lemma ReachFinishing(c: Config)
    requires WfConfig(c)
    ensures Reaches(c, Finishing(c))
  {
    hide Reaches;
    ReachDraft(c);
    var s1 := Fresh(c).(versions := Opened()[..2], durable := map["a" := 0]);
    ReachBegun(c, s1, 0, 0, Active);
    var s2 := s1.(admins := s1.admins[0 := Admin(0, 0, Active, AdminUpdate)]);
    var s3 := s2.(admins := s2.admins[0 := s2.admins[0].(pc := AdminGet)], versions := Opened());
    assert s3.versions == s2.versions + [Version(0, Some(ActivePoll()))];
    ExtendAdmin(c, s2, 0, true, s3);
    var s4 := s3.(admins := s3.admins[0 := s3.admins[0].(pc := AdminTrack(ActivePoll()))]);
    ExtendAdmin(c, s3, 0, true, s4);
    var s5 := s4.(tracked := true, admins := s4.admins[0 := s4.admins[0].(pc := AdminDropLocal(ActivePoll()))]);
    ExtendAdmin(c, s4, 0, true, s5);
    var s6 := ReachDropped(c, s5, 0, ActivePoll());
    ReachBegun(c, s6, 1, 0, Finished);
    assert Finishing(c).admins == s6.admins[1 := Admin(0, 0, Finished, AdminUpdate)];
  }

  // A request that has only the two cache deletes left completes.
  lemma ReachDropped(c: Config, s: State, id: nat, poll: Poll) returns (s': State)
    requires c.shards > 0 && Reaches(c, s) && |s.versions| > 0 && id in s.admins
    requires s.admins[id].pc == AdminDropLocal(poll) && InTime(s, s.admins[id].start, c.requestTimeout)
    ensures s' == s.(admins := s.admins[id := s.admins[id].(pc := AdminDone(poll))],
                     local := s.local - {s.admins[id].replica}, shared := None)
    ensures Reaches(c, s')
  {
    hide Reaches;
    var s1 := s.(admins := s.admins[id := s.admins[id].(pc := AdminDropShared(poll))],
        local := s.local - {s.admins[id].replica});
    ExtendAdmin(c, s, id, true, s1);
    s' := s1.(admins := s1.admins[id := s1.admins[id].(pc := AdminDone(poll))], shared := None);
    ExtendAdmin(c, s1, id, true, s');
    assert s'.admins == s.admins[id := s.admins[id].(pc := AdminDone(poll))];
  }

  // Finish takes effect and completes.
  lemma ReachClosed(c: Config, s: State) returns (s': State)
    requires WfConfig(c) && Reaches(c, s) && s.versions == Opened() && s.now <= c.requestTimeout
    requires 1 in s.admins && s.admins[1] == Admin(0, 0, Finished, AdminUpdate)
    ensures s' == s.(versions := Opened() + [Version(s.now, Some(FinishedPoll()))],
                     admins := s.admins[1 := s.admins[1].(pc := AdminDone(FinishedPoll()))],
                     local := s.local - {0}, shared := None)
    ensures Reaches(c, s')
  {
    hide Reaches;
    var s1 := s.(versions := Opened() + [Version(s.now, Some(FinishedPoll()))],
        admins := s.admins[1 := s.admins[1].(pc := AdminGet)]);
    assert Movable(s, Finished);
    ExtendAdmin(c, s, 1, true, s1);
    var s2 := s1.(admins := s1.admins[1 := s1.admins[1].(pc := AdminDropLocal(FinishedPoll()))]);
    ExtendAdmin(c, s1, 1, true, s2);
    s' := ReachDropped(c, s2, 1, FinishedPoll());
    assert s'.admins == s.admins[1 := s.admins[1].(pc := AdminDone(FinishedPoll()))];
  }

  // Activate and Finish are complete.
  predicate AdminsDone(s: State) {
    forall a :: a in s.admins ==> s.admins[a].pc.AdminDone?
  }

  // Nothing has been counted or flushed yet, and no admin request is under way.
  ghost predicate Quiet(c: Config, s: State) {
    && AdminsDone(s)
    && s.poll == THE_POLL && s.durable == map["a" := 0] && s.tracked
    && s.shards == seq(c.shards, _ => EMPTY_SHARD) && |s.epochs| == c.shards
    && s.log == [] && s.casts == map[] && s.syncs == map[]
  }

  lemma ReachFlight(c: Config, s: State, id: nat, replica: nat)
    requires c.shards > 0 && Reaches(c, s) && |s.versions| > 0 && id !in s.flights
    ensures Reaches(c, s.(flights := s.flights[id := Flight(replica, s.now, FlightLocal)]))
  {
    var s' := s.(flights := s.flights[id := Flight(replica, s.now, FlightLocal)]);
    assert FlightSteps(c, s, BeginFlight(id, replica), s');
    hide Reaches, Environment, AdminSteps, FlightSteps, CastSteps, SyncSteps, ReadSteps;
    Extend(c, s, BeginFlight(id, replica), s');
  }

  // A flight moves to its next program counter without writing a cache tier.
  lemma MoveFlight(c: Config, s: State, id: nat, ok: bool) returns (s': State)
    requires c.shards > 0 && Reaches(c, s) && |s.versions| > 0 && id in s.flights
    requires InTime(s, s.flights[id].start, c.requestTimeout)
    requires s.flights[id].pc.FlightLocal? || s.flights[id].pc.FlightShared? || s.flights[id].pc.FlightOrigin?
    ensures FlightNext(s, s.flights[id], ok).Some?
    ensures s' == s.(flights := s.flights[id := s.flights[id].(pc := FlightNext(s, s.flights[id], ok).value)])
    ensures Reaches(c, s')
  {
    hide Reaches;
    s' := s.(flights := s.flights[id := s.flights[id].(pc := FlightNext(s, s.flights[id], ok).value)]);
    ExtendFlight(c, s, id, ok, s');
  }

  // A fill of replica 0 has read the active poll; Finish then takes effect.
  lemma ReachOverlap(c: Config) returns (s: State)
    requires WfConfig(c)
    ensures Reaches(c, s) && Quiet(c, s) && s.now == c.requestTimeout && s.versions == Closed(c)
    ensures s.local == map[] && s.flights == map[0 := Flight(0, c.requestTimeout, FlightSetShared(Stale(c)))]
  {
    hide Reaches;
    ReachFinishing(c);
    var s0 := Finishing(c);
    ExtendTick(c, s0, c.requestTimeout);
    var s1 := s0.(now := c.requestTimeout);
    ReachFlight(c, s1, 0, 0);
    var s2 := s1.(flights := s1.flights[0 := Flight(0, s1.now, FlightLocal)]);
    var s3 := MoveFlight(c, s2, 0, false);
    var s4 := MoveFlight(c, s3, 0, false);
    var s5 := MoveFlight(c, s4, 0, false);
    s := ReachClosed(c, s5);
  }

  // Its entry reaches the shared tier one request timeout later, and is copied
  // to replica 1 on its last instant, one more request timeout later.
  lemma ReachCopied(c: Config) returns (s: State)
    requires WfConfig(c)
    ensures Reaches(c, s) && Quiet(c, s) && s.versions == Closed(c)
    ensures s.now == 3 * c.requestTimeout + c.sharedTTL - 1
    ensures 1 in s.local && s.local[1] == LocalEntry(Stale(c), s.now + c.localTTL)
  {
    hide Reaches;
    var s0 := ReachOverlap(c);
    var written := 2 * c.requestTimeout;
    ExtendTick(c, s0, written);
    var s1 := s0.(now := written);
    var s2 := s1.(flights := s1.flights[0 := s1.flights[0].(pc := FlightSetLocal(Stale(c)))],
                  shared := Some(SharedEntry(Stale(c), written + c.sharedTTL)));
    ExtendFlight(c, s1, 0, true, s2);
    ExtendTick(c, s2, written + c.sharedTTL - 1);
    var s3 := s2.(now := written + c.sharedTTL - 1);
    s := CopyToReplica(c, s3);
  }

  lemma CopyToReplica(c: Config, s3: State) returns (s: State)
    requires WfConfig(c) && Reaches(c, s3) && Quiet(c, s3) && s3.versions == Closed(c)
    requires s3.now == 2 * c.requestTimeout + c.sharedTTL - 1
    requires s3.local == map[] && 1 !in s3.flights
    requires s3.shared == Some(SharedEntry(Stale(c), 2 * c.requestTimeout + c.sharedTTL))
    ensures Reaches(c, s) && Quiet(c, s) && s.versions == Closed(c)
    ensures s.now == 3 * c.requestTimeout + c.sharedTTL - 1
    ensures 1 in s.local && s.local[1] == LocalEntry(Stale(c), s.now + c.localTTL)
  {
    hide Reaches;
    ReachFlight(c, s3, 1, 1);
    var s4 := s3.(flights := s3.flights[1 := Flight(1, s3.now, FlightLocal)]);
    var s5 := MoveFlight(c, s4, 1, true);
    var s6 := MoveFlight(c, s5, 1, true);
    ExtendTick(c, s6, 3 * c.requestTimeout + c.sharedTTL - 1);
    var s7 := s6.(now := 3 * c.requestTimeout + c.sharedTTL - 1);
    s := WriteLocal(c, s7);
  }

  lemma WriteLocal(c: Config, s: State) returns (s': State)
    requires c.shards > 0 && Reaches(c, s) && |s.versions| > 0 && 1 in s.flights && s.local == map[]
    requires s.flights[1].pc == FlightSetLocal(Stale(c)) && s.flights[1].replica == 1
    requires InTime(s, s.flights[1].start, c.requestTimeout)
    ensures Reaches(c, s')
    ensures s' == s.(flights := s.flights[1 := s.flights[1].(pc := FlightDone(Stale(c), s.now))],
                     local := s.local[1 := LocalEntry(Stale(c), s.now + c.localTTL)])
  {
    hide Reaches;
    s' := s.(flights := s.flights[1 := s.flights[1].(pc := FlightDone(Stale(c), s.now))],
             local := s.local[1 := LocalEntry(Stale(c), s.now + c.localTTL)]);
    ExtendFlight(c, s, 1, true, s');
  }

  const VOTER := "voter"

  lemma TheBallot()
    ensures IsBallot(ActivePoll(), ["a"]) && IsOpenAt(ActivePoll(), 0)
    ensures OptionIDs(THE_POLL) == ["a"] && OptionSet(THE_POLL) == {"a"}
  {
    assert OptionIDs(ActivePoll()) == ["a"];
    assert OptionIDs(THE_POLL) == ["a"];
    assert "a" in OptionSet(ActivePoll());
  }

  // A voter is admitted by a local copy of the active poll.
  lemma ReachGuarded(c: Config, s: State, replica: nat, entry: Entry) returns (s': State)
    requires c.shards > 0 && Reaches(c, s) && |s.versions| > 0 && s.casts == map[]
    requires LocalHit(s, replica) && s.local[replica].entry == entry && entry.answer == Some(ActivePoll())
    ensures s' == s.(casts := map[0 := Cast(replica, s.now, VOTER, ["a"], CastGuarded(entry))])
    ensures Reaches(c, s')
  {
    hide Reaches;
    TheBallot();
    var s2 := s.(casts := s.casts[0 := Cast(replica, s.now, VOTER, ["a"], CastBegin)]);
    ExtendCast(c, s, BeginCast(0, replica, VOTER, ["a"]), s2);
    var s3 := MoveCast(c, s2, CastLoaded(entry));
    var s4 := MoveCast(c, s3, CastChecked(entry));
    s' := MoveCast(c, s4, CastGuarded(entry));
  }

  lemma MoveCast(c: Config, s: State, pc: CastPc) returns (s': State)
    requires c.shards > 0 && Reaches(c, s) && |s.versions| > 0 && 0 in s.casts
    requires InTime(s, s.casts[0].start, c.requestTimeout) && CastNext(s, s.casts[0]) == Some(pc)
    ensures s' == WithCast(s, 0, pc) && Reaches(c, s')
  {
    hide Reaches, CastNext, IsBallot;
    s' := WithCast(s, 0, pc);
    ExtendCast(c, s, CastStep(0), s');
  }

  function OneBallot(c: Config, at: nat, entry: Entry): Counted
    requires c.shards > 0
  {
    Counted(at, VOTER, ShardOf(c, VOTER), ["a"], entry)
  }

  // The first ballot is counted; its hash lives for the retention.
  lemma ReachCounted(c: Config, s: State, entry: Entry) returns (s': State)
    requires WfConfig(c) && Reaches(c, s) && |s.versions| > 0 && s.log == []
    requires s.shards == seq(c.shards, _ => EMPTY_SHARD) && |s.epochs| == c.shards
    requires 0 in s.casts && s.casts[0].pc == CastGuarded(entry)
    requires s.casts[0].voter == VOTER && s.casts[0].ballot == ["a"]
    requires InTime(s, s.casts[0].start, c.requestTimeout)
    ensures s' == s.(casts := s.casts[0 := s.casts[0].(pc := CastDone(true))],
                     shards := s'.shards, epochs := s'.epochs, log := [OneBallot(c, s.now, entry)])
    ensures Reaches(c, s') && |s'.shards| == |s'.epochs| == c.shards
    ensures forall k :: 0 <= k < c.shards && s'.shards[k].counts.Some? ==>
      s'.shards[k].counts.value.deadline == s.now + c.retention
  {
    hide Reaches, Increment;
    var k := ShardOf(c, VOTER);
    var (shard, counted) := ShardScript.CastBallot(s.shards[k], s.now, VOTER, ["a"], c.dedupTTL, c.retention);
    s' := s.(casts := s.casts[0 := s.casts[0].(pc := CastDone(true))], shards := s.shards[k := shard],
             epochs := s.epochs[k := Epoch(0, s.now)], log := [OneBallot(c, s.now, entry)]);
    assert s.log + [OneBallot(c, s.now, entry)] == s'.log;
    ExtendCast(c, s, Script(0, false), s');
  }

  // ---- A sync that finds nothing ----

  predicate NoFields(s: State) {
    forall k :: 0 <= k < |s.shards| ==> LiveFields(s.shards[k], s.now) == map[]
  }

  lemma {:induction false} ScannedNothing(s: State, n: nat)
    requires n <= |s.shards| == |s.epochs| && NoFields(s) && OptionSet(s.poll) == {"a"}
    ensures Scanned(s, n).acc == map["a" := 0]
    ensures s.log == [] ==> Scanned(s, n).intact
  {
    hide LiveFields;
    if n > 0 { ScannedNothing(s, n - 1); }
  }

  function Scanning(s: State, start: nat, scan: Scan): State {
    s.(syncs := map[0 := Sync(start, SyncScan(FinishedPoll(), scan))])
  }

  lemma ScanSame(s: State, start: nat, scan: Scan, n: nat)
    requires n < |s.shards| == |s.epochs|
    ensures ScanShard(Scanning(s, start, scan), Scanned(s, n), n) == Scanned(s, n + 1)
  {
    hide LiveFields;
  }

  lemma ScanMove(c: Config, s: State, n: nat)
    requires |s.versions| > 0 && n < |s.shards| == |s.epochs|
    ensures SyncMove(c, Scanning(s, s.now, Scanned(s, n)), 0, n, Scanning(s, s.now, Scanned(s, n + 1)))
  {
    hide ScanShard, Scanned;
    var before, after := Scanning(s, s.now, Scanned(s, n)), Scanning(s, s.now, Scanned(s, n + 1));
    ScanSame(s, s.now, Scanned(s, n), n);
    assert n !in Scanned(s, n).read && n in AllShards(|s.shards|);
    assert after.syncs == before.syncs[0 := before.syncs[0].(pc := SyncScan(FinishedPoll(), Scanned(s, n + 1)))];
  }

  lemma {:induction false} ReachScanned(c: Config, s: State, n: nat)
    requires WfConfig(c) && |s.versions| > 0 && n <= |s.shards| == |s.epochs|
    requires Reaches(c, Scanning(s, s.now, NewScan(s)))
    ensures Reaches(c, Scanning(s, s.now, Scanned(s, n)))
  {
    hide Reaches, ScanShard, SyncMove;
    if n > 0 {
      ReachScanned(c, s, n - 1);
      ScanMove(c, s, n - 1);
      ExtendSync(c, Scanning(s, s.now, Scanned(s, n - 1)), 0, n - 1, Scanning(s, s.now, Scanned(s, n)));
    }
  }

  lemma ReachLoaded(c: Config, s: State)
    requires WfConfig(c) && Reaches(c, s) && |s.versions| > 0 && Origin(s) == Some(FinishedPoll())
    requires s.syncs == map[] && s.tracked
    ensures Reaches(c, Scanning(s, s.now, NewScan(s)))
  {
    hide Reaches, Init;
    var s2 := s.(syncs := s.syncs[0 := Sync(s.now, SyncLoad)]);
    assert SyncSteps(c, s, BeginSync(0), s2);
    var s3 := Scanning(s, s.now, NewScan(s));
    assert s3.syncs == s2.syncs[0 := s2.syncs[0].(pc := SyncScan(FinishedPoll(), NewScan(s2)))];
    hide Environment, AdminSteps, FlightSteps, CastSteps, SyncSteps, ReadSteps;
    Extend(c, s, BeginSync(0), s2);
    ExtendSync(c, s2, 0, 0, s3);
  }

  // A sync reads no votes at this instant and saves that.
  lemma ReachFlushed(c: Config, s: State) returns (s': State, scan: Scan)
    requires WfConfig(c) && Reaches(c, s) && |s.versions| > 0 && Origin(s) == Some(FinishedPoll())
    requires s.poll == THE_POLL && s.durable == map["a" := 0] && s.tracked && s.syncs == map[]
    requires |s.shards| == |s.epochs| == c.shards && NoFields(s)
    ensures s' == s.(syncs := map[0 := Sync(s.now, SyncSaved(FinishedPoll(), scan))])
    ensures Reaches(c, s') && (s.log == [] ==> scan.intact)
  {
    hide Reaches, Scanned;
    TheBallot();
    ReachLoaded(c, s);
    ReachScanned(c, s, c.shards);
    ScannedNothing(s, c.shards);
    scan := Scanned(s, c.shards);
    s' := s.(syncs := map[0 := Sync(s.now, SyncSaved(FinishedPoll(), scan))]);
    ReachSaved(c, Scanning(s, s.now, scan), scan, s');
  }

  lemma ReachSaved(c: Config, s: State, scan: Scan, s': State)
    requires c.shards > 0 && Reaches(c, s) && |s.versions| > 0 && |s.shards| == c.shards && s.durable == map["a" := 0]
    requires scan.read == AllShards(c.shards) && scan.acc == map["a" := 0]
    requires s.syncs == map[0 := Sync(s.now, SyncScan(FinishedPoll(), scan))]
    requires s' == s.(syncs := map[0 := Sync(s.now, SyncSaved(FinishedPoll(), scan))])
    ensures Reaches(c, s')
  {
    hide Reaches;
    assert s'.syncs == s.syncs[0 := s.syncs[0].(pc := SyncSaved(FinishedPoll(), scan))];
    assert Upsert(s.durable, scan.acc) == s.durable;
    ExtendSync(c, s, 0, 0, s');
  }

  function AtEnd(s: State, start: nat, pc: SyncPc): State {
    s.(syncs := map[0 := Sync(start, pc)])
  }

  // It finds the poll settled and untracks it.
  lemma Untrack(c: Config, s: State, start: nat, scan: Scan) returns (s': State)
    requires WfConfig(c) && Reaches(c, s) && |s.versions| > 0 && c.settleAfter <= s.now <= start + c.syncTimeout
    requires s.syncs == map[0 := Sync(start, SyncSaved(FinishedPoll(), scan))]
    ensures s' == AtEnd(s, start, SyncUntracked(FinishedPoll(), scan)).(tracked := false)
    ensures Reaches(c, s')
  {
    hide Reaches;
    var s2 := AtEnd(s, start, SyncSettled(FinishedPoll(), scan));
    assert s2.syncs == s.syncs[0 := s.syncs[0].(pc := SyncSettled(FinishedPoll(), scan))];
    ExtendSync(c, s, 0, 0, s2);
    s' := AtEnd(s, start, SyncUntracked(FinishedPoll(), scan)).(tracked := false);
    ReachUntracked(c, s2, start, scan, s');
  }

  lemma ReachUntracked(c: Config, s: State, start: nat, scan: Scan, s': State)
    requires c.shards > 0 && Reaches(c, s) && |s.versions| > 0 && s.now <= start + c.syncTimeout
    requires s.syncs == map[0 := Sync(start, SyncSettled(FinishedPoll(), scan))]
    requires s' == AtEnd(s, start, SyncUntracked(FinishedPoll(), scan)).(tracked := false)
    ensures Reaches(c, s')
  {
    hide Reaches;
    assert s'.syncs == s.syncs[0 := s.syncs[0].(pc := SyncUntracked(FinishedPoll(), scan))];
    ExtendSync(c, s, 0, 0, s');
  }

  // ---- The two ways to lose a vote ----

  // The poll is untracked with a durable count of zero for its one ballot.
  ghost predicate OneLost(c: Config, s: State)
    requires c.shards > 0
  {
    && Reaches(c, s) && Untracked(s, 0) && AdminsDone(s)
    && |s.log| == 1 && s.log[0].ballot == ["a"] && s.durable == map["a" := 0]
  }

  lemma NotExact(c: Config, s: State)
    requires c.shards > 0 && OneLost(c, s)
    ensures Tally(s.log, "a") == 1 && !Exact(s)
  {
    hide Reaches;
    assert s.log[..0] == [];
  }

  function Late(c: Config): nat
    requires WfConfig(c)
  {
    4 * c.requestTimeout + c.sharedTTL + c.localTTL - 1
  }

  // The window is too short: the ballot is counted after the flush, by a voter
  // admitted by the copy on its last instant; then the sync untracks the poll.
  lemma LostVote(c: Config) returns (s: State)
    requires WfConfig(c) && !SettleSafe(c)
    ensures OneLost(c, s) && UntrackedClean(s, 0) && Within(s, c.settleAfter) && !Exact(s)
  {
    hide Reaches, NoFields;
    var s0 := ReachCopied(c);
    var last := s0.now + c.localTTL;
    ExtendTick(c, s0, last);
    var s1 := ReachGuarded(c, s0.(now := last), 1, Stale(c));
    ExtendTick(c, s1, Late(c));
    EmptyFields(c, s1.(now := Late(c)));
    var s2, scan := ReachFlushed(c, s1.(now := Late(c)));
    var s3 := ReachCounted(c, s2, Stale(c));
    var settled := if Late(c) < c.settleAfter then c.settleAfter else Late(c);
    ExtendTick(c, s3, settled);
    s := Untrack(c, s3.(now := settled), Late(c), scan);
    NotExact(c, s);
  }

  lemma EmptyFields(c: Config, s: State)
    requires s.shards == seq(c.shards, _ => EMPTY_SHARD)
    ensures NoFields(s)
  {
  }

  // The copy of the active poll a voter casts with at instant 0.
  function Current(): Entry { Entry(Some(ActivePoll()), 0, 2) }

  lemma ReachCached(c: Config) returns (s: State)
    requires WfConfig(c)
    ensures Reaches(c, s) && s.local == map[0 := LocalEntry(Current(), c.localTTL)]
    ensures s == Finishing(c).(local := s.local, flights := s.flights)
  {
    hide Reaches;
    ReachFinishing(c);
    var s1 := Finishing(c);
    ReachFlight(c, s1, 0, 0);
    var s2 := s1.(flights := s1.flights[0 := Flight(0, s1.now, FlightLocal)]);
    var s3 := MoveFlight(c, s2, 0, false);
    var s4 := MoveFlight(c, s3, 0, false);
    var s5 := MoveFlight(c, s4, 0, false);
    var s6 := s5.(flights := s5.flights[0 := s5.flights[0].(pc := FlightSetLocal(Current()))]);
    ExtendFlight(c, s5, 0, false, s6);
    s := s6.(flights := s6.flights[0 := s6.flights[0].(pc := FlightDone(Current(), 0))],
             local := s6.local[0 := LocalEntry(Current(), c.localTTL)]);
    ExtendFlight(c, s6, 0, true, s);
  }

  // The retention is too short: the only ballot's hash expires before any sync
  // has read it. Everything else happens at instant 0.
  lemma ExpiredVote(c: Config, horizon: nat) returns (s: State)
    requires WfConfig(c) && c.settleAfter <= horizon && c.retention <= horizon
    ensures OneLost(c, s) && Within(s, horizon) && !Exact(s)
  {
    hide Reaches, NoFields;
    var s0 := ReachCached(c);
    var s1 := ReachGuarded(c, s0, 0, Current());
    var s2 := ReachCounted(c, s1, Current());
    var s3 := ReachClosed(c, s2);
    ExtendTick(c, s3, horizon);
    var s4 := s3.(now := horizon);
    ExpiredFields(c, s4);
    var s5, scan := ReachFlushed(c, s4);
    s := Untrack(c, s5, horizon, scan);
    NotExact(c, s);
  }

  lemma ExpiredFields(c: Config, s: State)
    requires |s.shards| == c.shards
    requires forall k :: 0 <= k < c.shards && s.shards[k].counts.Some? ==> s.shards[k].counts.value.deadline <= s.now
    ensures NoFields(s)
  {
  }

  // ---- The settle theorem, both directions ----

  // In some run a sync untracks the settled poll at i, having met no expired or
  // lost counter, and at j or later the durable counts are not the counted ballots.
  ghost predicate VoteLost(c: Config, states: seq<State>, events: seq<Event>, i: nat, j: nat, id: nat)
    requires c.shards > 0
  {
    Run(c, states, events) && i <= j < |states| && UntrackedClean(states[i], id) && !Exact(states[j])
  }

  // The settle window is long enough exactly when no run loses a vote.
  lemma SettleTheorem(c: Config)
    requires WfConfig(c)
    ensures SettleSafe(c) <==> !exists states, events, i, j, id :: VoteLost(c, states, events, i, j, id)
  {
    hide Run, Exact, UntrackedClean, Reaches, CountersKept, Within;
    if SettleSafe(c) {
      forall states, events, i, j, id ensures !VoteLost(c, states, events, i, j, id) {
        if VoteLost(c, states, events, i, j, id) { NoLostVote(c, states, events, i, j, id); }
      }
    } else {
      var s := LostVote(c);
      var states, events := RunTo(c, s);
      assert VoteLost(c, states, events, |states| - 1, |states| - 1, 0);
    }
  }

  lemma RunTo(c: Config, s: State) returns (states: seq<State>, events: seq<Event>)
    requires c.shards > 0 && Reaches(c, s)
    ensures Run(c, states, events) && CountersKept(events) && |states| > 0 && states[|states| - 1] == s
  {
    states, events :| Run(c, states, events) && CountersKept(events) && states[|states| - 1] == s;
  }

  // In some run in which no counters are lost before their deadline a sync
  // untracks the settled poll at i, within this horizon of its first ballot, and
  // at j or later the durable counts are not the counted ballots.
  ghost predicate VoteLostWithin(c: Config, horizon: nat, states: seq<State>, events: seq<Event>, i: nat, j: nat,
      id: nat)
    requires c.shards > 0
  {
    && Run(c, states, events) && CountersKept(events) && i <= j < |states|
    && Untracked(states[i], id) && Within(states[i], horizon) && !Exact(states[j])
  }

  // For any horizon that leaves time to settle: no poll untracked within it of its
  // first ballot loses a vote if and only if the settle window is long enough and
  // the horizon is shorter than the counter retention.
  lemma HorizonTheorem(c: Config, horizon: nat)
    requires WfConfig(c) && c.settleAfter <= horizon
    ensures SettleSafe(c) && horizon < c.retention
       <==> !exists states, events, i, j, id :: VoteLostWithin(c, horizon, states, events, i, j, id)
  {
    hide Run, Exact, Untracked, CountersKept, Reaches, OneLost, Within;
    if SettleSafe(c) && horizon < c.retention {
      forall states, events, i, j, id ensures !VoteLostWithin(c, horizon, states, events, i, j, id) {
        if VoteLostWithin(c, horizon, states, events, i, j, id) {
          NoLostVoteWithin(c, horizon, states, events, i, j, id);
        }
      }
    } else {
      LostWithin(c, horizon);
    }
  }

  lemma LostWithin(c: Config, horizon: nat)
    requires WfConfig(c) && c.settleAfter <= horizon && !(SettleSafe(c) && horizon < c.retention)
    ensures exists states, events, i, j, id :: VoteLostWithin(c, horizon, states, events, i, j, id)
  {
    var s: State;
    if SettleSafe(c) { s := ExpiredVote(c, horizon); } else { s := LostVote(c); }
    var states, events := RunTo(c, s);
    assert VoteLostWithin(c, horizon, states, events, |states| - 1, |states| - 1, 0);
  }

  // ---- What the configuration loader lets through ----

  const SECOND := 1000
  const MINUTE := 60 * SECOND
  const HOUR := 60 * MINUTE

  // The ranges the loader enforces, in milliseconds.
  predicate Loadable(c: Config) {
    && 1 <= c.shards <= 1024
    && MINUTE <= c.dedupTTL <= 30 * 24 * HOUR && HOUR <= c.retention <= 90 * 24 * HOUR
    && 100 <= c.localTTL <= MINUTE && SECOND <= c.sharedTTL <= HOUR && SECOND <= c.negativeTTL <= 10 * MINUTE
    && c.localTTL <= c.sharedTTL
    && 100 <= c.requestTimeout <= MINUTE && SECOND <= c.syncTimeout <= 10 * MINUTE
    && MINUTE <= c.settleAfter <= 24 * HOUR
  }

  // The loader's defaults, for any shard hash.
  function Defaults(crc: string -> nat): Config {
    Config(16, crc, HOUR, 7 * 24 * HOUR, 2 * SECOND, MINUTE, 10 * SECOND, 5 * SECOND, 30 * SECOND, 10 * MINUTE)
  }

  // With the defaults a poll untracked within a horizon of its first ballot loses
  // no vote if and only if the horizon is shorter than seven days. The loader also
  // lets through a shared lifetime for which the window is too short, and a
  // retention under which, within an hour, a ballot can expire unread.
  lemma LoaderAdmitsLostVotes(crc: string -> nat, horizon: nat)
    requires 10 * MINUTE <= horizon
    ensures var c := Defaults(crc);
      Loadable(c) && (horizon < 7 * 24 * HOUR <==>
        !exists states, events, i, j, id :: VoteLostWithin(c, horizon, states, events, i, j, id))
    ensures var c := Defaults(crc).(sharedTTL := HOUR);
      Loadable(c) && exists states, events, i, j, id :: VoteLostWithin(c, horizon, states, events, i, j, id)
    ensures var c := Defaults(crc).(retention := HOUR);
      Loadable(c) && SettleSafe(c) && (HOUR <= horizon ==>
        exists states, events, i, j, id :: VoteLostWithin(c, horizon, states, events, i, j, id))
  {
    hide VoteLostWithin;
    HorizonTheorem(Defaults(crc), horizon);
    HorizonTheorem(Defaults(crc).(sharedTTL := HOUR), horizon);
    HorizonTheorem(Defaults(crc).(retention := HOUR), horizon);
  }
}
