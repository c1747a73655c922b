// The sequential code refines the protocol: a cast's call of the store, the
// Counters loop, the save, and the cache's lookup and invalidation each do what the
// corresponding steps do.
module Refinement {
  import opened Wrappers
  import opened Entity
  import P = Protocol
  import Inv = ProtocolInvariant
  import Snap = ProtocolSnapshot
  import S = ShardScript
  import Repo = Repository
  import VoteStore
  import SyncService
  import PollService
  import PollCache
  import L = TtlLines
  import Keys

  // The Redis keys of this poll hold exactly the protocol's shards.
  ghost predicate Held(strings: map<string, VoteStore.StringKey>, hashes: map<string, VoteStore.HashKey>,
      pollID: string, shards: seq<S.Shard>) {
    forall k :: 0 <= k < |shards| ==> VoteStore.Represents(strings, hashes, pollID, k, shards[k])
  }

  // Whatever Store.CastBallot leaves in Redis represents the shards after the
  // protocol's script step for the same cast at the same instant.
  lemma ScriptStepRefined(c: P.Config, s: P.State, id: nat, replyLost: bool, s': P.State,
                          strings: map<string, VoteStore.StringKey>, hashes: map<string, VoteStore.HashKey>,
                          strings': map<string, VoteStore.StringKey>, hashes': map<string, VoteStore.HashKey>,
                          pollID: string, cfg: VoteStore.Config)
    requires c.shards > 0 && P.ScriptMove(c, s, id, replyLost, s') && Keys.Canonical(pollID)
    requires cfg.dedupTTL == c.dedupTTL && cfg.retention == c.retention
    requires Held(strings, hashes, pollID, s.shards)
    requires var p := s.casts[id];
      VoteStore.Took(strings, hashes, strings', hashes', pollID, P.ShardOf(c, p.voter), p.voter, p.ballot, s.now, cfg,
        true)
    ensures Held(strings', hashes', pollID, s'.shards)
  {
    hide VoteStore.Represents, S.CastBallot, Keys.Canonical;
    var k := P.ShardOf(c, s.casts[id].voter);
    forall j | 0 <= j < |s'.shards| ensures VoteStore.Represents(strings', hashes', pollID, j, s'.shards[j]) {
      assert VoteStore.Represents(strings, hashes, pollID, j, s.shards[j]);
    }
  }

  lemma {:induction false} ScannedSums(s: P.State, n: nat, o: string)
    requires n <= |s.shards| == |s.epochs| && o in OptionSet(s.poll)
    ensures P.Scanned(s, n).acc.Keys == OptionSet(s.poll)
    ensures P.Scanned(s, n).acc[o] == S.SumField(s.shards[..n], s.now, o)
  {
    if n > 0 {
      ScannedSums(s, n - 1, o);
      assert s.shards[..n][..n - 1] == s.shards[..n - 1];
    }
  }

  // Store.CastBallot, called where the protocol's cast runs its script, leaves the
  // shards of the script step in Redis, and says whether that step counted the
  // ballot unless the reply is lost.
  method CastIsScriptStep(store: VoteStore.Store, c: P.Config, s: P.State, id: nat, s': P.State, pollID: string,
      fault: Fault)
      returns (result: Result<bool>)
    requires store.WellConfigured() && Keys.Canonical(pollID)
    requires store.cfg.shards == c.shards == |s.shards| && store.crc == c.crc
    requires store.cfg.dedupTTL == c.dedupTTL && store.cfg.retention == c.retention
    requires Held(store.client.strings, store.client.hashes, pollID, s.shards)
    requires fault != NotSent && P.ScriptMove(c, s, id, fault == ReplyLost, s')
    modifies store.client`strings, store.client`hashes
    ensures Held(store.client.strings, store.client.hashes, pollID, s'.shards)
    ensures fault == NoFault ==> s'.casts[id].pc.CastDone? && (result.Ok? <==> s'.casts[id].pc.counted)
    ensures fault == ReplyLost ==> result == Err(Unavailable) && s'.casts == s.casts
  {
    hide VoteStore.Represents, VoteStore.Took, VoteStore.Guarded, S.CastBallot, Keys.Canonical, Keys.VotedKey;
    var p := s.casts[id];
    ghost var strings, hashes, k := store.client.strings, store.client.hashes, P.ShardOf(c, p.voter);
    VerdictAgrees(c, s, id, strings, hashes, pollID);
    result := store.CastBallot(pollID, p.voter, p.ballot, s.now, fault);
    ScriptStepRefined(c, s, id, fault == ReplyLost, s', strings, hashes, store.client.strings, store.client.hashes,
        pollID, store.cfg);
  }

  lemma VerdictAgrees(c: P.Config, s: P.State, id: nat, strings: map<string, VoteStore.StringKey>,
                      hashes: map<string, VoteStore.HashKey>, pollID: string)
    requires c.shards > 0 && |s.shards| == c.shards && id in s.casts && Keys.Canonical(pollID)
    requires Held(strings, hashes, pollID, s.shards)
    ensures var p := s.casts[id];
      var k := P.ShardOf(c, p.voter);
      S.CastBallot(s.shards[k], s.now, p.voter, p.ballot, c.dedupTTL, c.retention).1
        == !VoteStore.StringLive(strings, Keys.VotedKey(pollID, k, p.voter), s.now)
  {
    hide Keys.VotedKey, VoteStore.VotedAs, VoteStore.CountsAs, VoteStore.StringLive, S.Voted, Keys.Canonical;
    var p := s.casts[id];
    var k := P.ShardOf(c, p.voter);
    assert VoteStore.Represents(strings, hashes, pollID, k, s.shards[k]);
    VoteStore.OwnVoted(strings, pollID, k, p.voter, c.dedupTTL, s.now, s.shards[k]);
  }

  // PollRepository.SaveResults, called with the sums of a complete scan where the
  // protocol's sync saves them, leaves the durable row of the save step.
  method SaveIsSyncStep(repo: Repo.PollRepository, c: P.Config, s: P.State, id: nat, k: nat, s': P.State,
      pollID: string)
      returns (result: Result<()>)
    requires repo.Valid() && pollID in repo.polls && pollID in repo.results && repo.results[pollID] == s.durable
    requires Repo.IdsOf(Repo.OptionsOf(repo.options, pollID)) == OptionSet(s.poll)
    requires Inv.Inv(c, s) && |s.versions| > 0 && P.SyncMove(c, s, id, k, s')
    requires s.syncs[id].pc.SyncScan? && s'.syncs[id].pc.SyncSaved?
    modifies repo`results
    ensures repo.Valid() && result.Ok?
    ensures pollID in repo.results && repo.results[pollID] == s'.durable
    ensures forall p :: p in old(repo.results) && p != pollID ==>
      p in repo.results && repo.results[p] == old(repo.results)[p]
  {
    hide Repo.Upsert, Repo.TablesOk, Repo.OptionsOf, Repo.IdsOf, Repo.AllIds, P.SyncMove, Inv.Inv;
    SaveStep(c, s, id, k, s');
    var acc := s.syncs[id].pc.scan.acc;
    Repo.OwnIds(repo.options, pollID);
    Repo.UpsertNone(s.durable);
    result := repo.SaveResults(pollID, acc, NoFault);
  }

  // SyncService.SyncPoll for an existing poll whose calls work, in one instant and
  // on the protocol's shards and durable row, settled or not: the row becomes that
  // of the protocol's save step after a complete scan.
  method SyncPollIsSync(svc: SyncService.Service, c: P.Config, s: P.State, pollID: string, trip: SyncService.Trip)
      returns (ok: bool)
    requires svc.repo.Valid() && svc.store.WellConfigured() && svc.store.cfg.shards == |s.shards| == |s.epochs|
    requires Held(svc.store.client.strings, svc.store.client.hashes, pollID, s.shards)
    requires pollID in svc.repo.polls && svc.repo.results[pollID] == s.durable && OptionSet(s.poll) != {}
    requires Repo.IdsOf(Repo.OptionsOf(svc.repo.options, pollID)) == OptionSet(s.poll)
    requires !trip.loadFails && !trip.countFails && trip.save != NotSent && trip.readAt == VoteStore.Always(s.now)
    modifies svc.repo`results, svc.store.client`tracked
    ensures svc.repo.Valid() && pollID in svc.repo.results
    ensures svc.repo.results[pollID] == Repo.Upsert(s.durable, P.Scanned(s, |s.shards|).acc)
  {
    hide VoteStore.SumLive, P.Scanned, Held, Repo.OptionsOf, Repo.IdsOf;
    ghost var hashes := svc.store.client.hashes;
    ghost var counts := SyncService.CountsAt(OptionSet(s.poll), hashes, pollID, |s.shards|, trip.readAt);
    ScanIsCounters(s, svc.store.client.strings, svc.store.client.hashes, pollID);
    ok := svc.SyncPoll(pollID, trip);
    assert svc.repo.results[pollID] == Repo.Upsert(s.durable, counts);
  }

  // PollService.Transition, called with the sources Activate and Finish pass, moves
  // the stored poll exactly where the protocol's conditional update does.
  method TransitionIsUpdate(svc: PollService.Service, s: P.State, target: PollStatus, at: nat, pollID: string)
      returns (result: Result<Poll>)
    requires svc.repo.Valid() && |s.versions| > 0 && target != Draft
    requires pollID in svc.repo.polls <==> P.Origin(s).Some?
    requires P.Origin(s).Some? ==> svc.repo.polls[pollID].status == P.Origin(s).value.status
    requires P.Origin(s).Some? ==> svc.repo.polls[pollID].finishedAt == P.Origin(s).value.finishedAt
    modifies svc.repo`polls
    ensures svc.repo.Valid()
    ensures result.Ok? <==> P.Movable(s, target)
    ensures P.Movable(s, target) ==> pollID in svc.repo.polls
    ensures P.Movable(s, target) ==>
      var moved := P.Moved(P.Origin(s).value, target, at);
      svc.repo.polls[pollID].status == moved.status && svc.repo.polls[pollID].finishedAt == moved.finishedAt
    ensures !P.Movable(s, target) ==> svc.repo.polls == old(svc.repo.polls)
  {
    var from := if target == Active then {Draft} else {Draft, Active};
    result := svc.Transition(pollID, true, from, target, at, NoFault, false);
  }

  // The poll of an accepted command, with fresh distinct ids, is one that a run of
  // the protocol may start with; before it is created nothing of it is stored.
  lemma AcceptedStarts(c: P.Config, l: PollService.Limits, cmd: PollService.Command, ids: seq<string>, at: int,
                       poll: Poll)
    requires PollService.Acceptable(l, cmd) && Distinct(ids) && PollService.Describes(cmd, ids, at, poll)
    ensures P.Init(c, P.State(poll, 0, [P.Version(0, None)], map[], false, seq(c.shards, _ => S.EMPTY_SHARD),
      seq(c.shards, _ => P.Epoch(0, 0)), None, map[], map[], map[], map[], map[], map[], []))
  {
    hide PollService.Acceptable, PollService.Describes, OptionIDs;
    PollService.AcceptedIsStorable(l, cmd, ids, at, poll);
  }

  lemma SaveStep(c: P.Config, s: P.State, id: nat, k: nat, s': P.State)
    requires |s.versions| > 0 && Inv.Inv(c, s) && P.SyncMove(c, s, id, k, s')
    requires s.syncs[id].pc.SyncScan? && s'.syncs[id].pc.SyncSaved?
    ensures id in s.syncs && s.syncs[id].pc.scan.acc.Keys == OptionSet(s.poll)
    ensures s'.durable == Repo.Upsert(s.durable, s.syncs[id].pc.scan.acc)
  {
    hide Repo.Upsert, P.ScanShard, P.Settled;
    assert Inv.SyncOk(c, s.poll, s.versions, s.now, s.log, s.durable, s.syncs[id]);
  }

  lemma ScannedCount(s: P.State, strings: map<string, VoteStore.StringKey>, hashes: map<string, VoteStore.HashKey>,
      pollID: string, o: string)
    requires |s.shards| == |s.epochs| && Held(strings, hashes, pollID, s.shards) && o in OptionSet(s.poll)
    ensures P.Scanned(s, |s.shards|).acc.Keys == OptionSet(s.poll)
    ensures P.Scanned(s, |s.shards|).acc[o] == VoteStore.SumLive(hashes, pollID, |s.shards|, o, VoteStore.Always(s.now))
  {
    hide P.Scanned, VoteStore.Represents, S.SumField, VoteStore.SumLive, OptionSet;
    ScannedSums(s, |s.shards|, o);
    VoteStore.SumLiveRefines(strings, hashes, pollID, s.shards, o, s.now);
    assert s.shards[..|s.shards|] == s.shards;
  }

  // The counts the synchroniser reads are those of an uninterrupted scan of the
  // protocol.
  lemma ScanIsCounters(s: P.State, strings: map<string, VoteStore.StringKey>, hashes: map<string, VoteStore.HashKey>,
      pollID: string)
    requires |s.shards| == |s.epochs| && Held(strings, hashes, pollID, s.shards) && OptionSet(s.poll) != {}
    ensures P.Scanned(s, |s.shards|).acc ==
      SyncService.CountsAt(OptionSet(s.poll), hashes, pollID, |s.shards|, VoteStore.Always(s.now))
  {
    hide P.Scanned, Held, VoteStore.SumLive, OptionSet;
    var acc := P.Scanned(s, |s.shards|).acc;
    forall o | o in OptionSet(s.poll)
      ensures acc.Keys == OptionSet(s.poll)
      ensures acc[o] == VoteStore.SumLive(hashes, pollID, |s.shards|, o, VoteStore.Always(s.now))
    {
      ScannedCount(s, strings, hashes, pollID, o);
    }
    var o :| o in OptionSet(s.poll);
    assert acc.Keys == OptionSet(s.poll);
  }

  // What the servers replied to the reads at these states.
  ghost function RepliesAt(c: P.Config, states: seq<P.State>, r: Snap.Reader, j: nat, rs: seq<Snap.ReadAt>)
      : seq<map<string, Option<nat>>>
    requires Snap.ReadTimes(c, states, r, j, rs)
    decreases |rs|
  {
    if rs == [] then []
    else
      var last := rs[|rs| - 1];
      RepliesAt(c, states, r, j, rs[..|rs| - 1])
      + [VoteStore.Reply(S.LiveFields(states[last.t].shards[last.k], states[last.t].now))]
  }

  lemma {:induction false} SumReadIsReplies(c: P.Config, states: seq<P.State>, r: Snap.Reader, j: nat,
                                            rs: seq<Snap.ReadAt>, o: string)
    requires Snap.ReadTimes(c, states, r, j, rs)
    ensures Snap.SumRead(c, states, r, j, rs, o) == VoteStore.SumReplies(RepliesAt(c, states, r, j, rs), o)
    ensures forall k, ids :: 0 <= k < |RepliesAt(c, states, r, j, rs)| ==>
      !VoteStore.Corrupt(RepliesAt(c, states, r, j, rs)[k], ids)
    decreases |rs|
  {
    hide Snap.Reads, S.LiveFields;
    if rs != [] {
      SumReadIsReplies(c, states, r, j, rs[..|rs| - 1], o);
      var replies := RepliesAt(c, states, r, j, rs);
      assert replies[..|replies| - 1] == RepliesAt(c, states, r, j, rs[..|rs| - 1]);
    }
  }

  // In every run, with ballots landing between the reads and the shards read in
  // any order, the scan of any sync or query is what the Gather loop makes of the
  // replies to its shard reads.
  lemma ScanIsGather(c: P.Config, states: seq<P.State>, events: seq<P.Event>, r: Snap.Reader, j: nat)
      returns (rs: seq<Snap.ReadAt>)
    requires P.WfConfig(c) && P.Run(c, states, events) && j < |states| && Snap.ScanOf(states[j], r).Some?
    ensures Snap.ReadTimes(c, states, r, j, rs) && Snap.Once(rs)
    ensures Snap.ShardsOf(rs) == Snap.ScanOf(states[j], r).value.read
    ensures var acc, replies := Snap.ScanOf(states[j], r).value.acc, RepliesAt(c, states, r, j, rs);
      && acc.Keys == OptionSet(states[0].poll)
      && (forall o :: o in acc ==> acc[o] == VoteStore.SumReplies(replies, o))
      && (forall k, ids :: 0 <= k < |replies| ==> !VoteStore.Corrupt(replies[k], ids))
  {
    hide Snap.Reads, Snap.ScanOf, Snap.AllWhole, P.Run, Snap.ReadTimes, Snap.Once;
    rs := Snap.ScanIsReads(c, states, events, r, j);
    forall o { SumReadIsReplies(c, states, r, j, rs, o); }
    SumReadIsReplies(c, states, r, j, rs, "");
  }

  // ---- A cache lookup is a flight ----

  // The local line of a replica, which may have dropped an expired entry.
  ghost predicate LocalView(line: Option<L.Line<PollCache.Answer>>, local: map<nat, P.LocalEntry>, replica: nat,
      now: nat) {
    if line.Some? then
      && replica in local
      && local[replica].entry.answer == line.value.value && local[replica].expiresAt == line.value.expiresAt
    else replica in local ==> local[replica].expiresAt < now
  }

  ghost predicate SharedView(shared: map<string, PollCache.Shared>, pollID: string, state: Option<P.SharedEntry>) {
    && (pollID in shared <==> state.Some?)
    && (state.Some? ==> shared[pollID].answer == state.value.entry.answer)
    && (state.Some? ==> shared[pollID].deadline == state.value.deadline)
  }

  // What a flight changes as it runs.
  datatype Leg = Leg(pc: P.FlightPc, local: map<nat, P.LocalEntry>, shared: Option<P.SharedEntry>)

  function WithLeg(s: P.State, id: nat, leg: Leg): P.State
    requires id in s.flights
  {
    s.(flights := s.flights[id := s.flights[id].(pc := leg.pc)], local := leg.local, shared := leg.shared)
  }

  // One more step; a flight that is done takes no more.
  function Fly(c: P.Config, s: P.State, replica: nat, leg: Leg, ok: bool): Leg
    requires |s.versions| > 0
  {
    match leg.pc
    case FlightLocal =>
      leg.(pc := if replica in leg.local && s.now <= leg.local[replica].expiresAt
                 then P.FlightDone(leg.local[replica].entry, s.now) else P.FlightShared)
    case FlightShared =>
      leg.(pc := if ok && leg.shared.Some? && s.now < leg.shared.value.deadline
                 then P.FlightSetLocal(leg.shared.value.entry) else P.FlightOrigin)
    case FlightOrigin => leg.(pc := P.FlightSetShared(P.Entry(P.Origin(s), s.now, |s.versions| - 1)))
    case FlightSetShared(entry) =>
      leg.(pc := P.FlightSetLocal(entry),
           shared := if ok then Some(P.SharedEntry(entry, s.now + P.SharedTTLFor(c, entry.answer))) else leg.shared)
    case FlightSetLocal(entry) =>
      leg.(pc := P.FlightDone(entry, s.now),
           local := leg.local[replica := P.LocalEntry(entry, s.now + P.LocalTTLFor(c, entry.answer))])
    case FlightDone(_, _) => leg
  }

  // Each of these steps is a step of the protocol.
  lemma FlyMoves(c: P.Config, s: P.State, id: nat, leg: Leg, ok: bool)
    requires |s.versions| > 0 && id in s.flights && !leg.pc.FlightDone?
    requires P.InTime(s, s.flights[id].start, c.requestTimeout)
    ensures P.FlightMove(c, WithLeg(s, id, leg), id, ok, WithLeg(s, id, Fly(c, s, s.flights[id].replica, leg, ok)))
  {
    hide P.SharedTTLFor, P.LocalTTLFor;
    var t, next := WithLeg(s, id, leg), Fly(c, s, s.flights[id].replica, leg, ok);
    assert P.FlightNext(t, t.flights[id], ok) == Some(next.pc);
    assert t.flights[id := t.flights[id].(pc := next.pc)] == s.flights[id := s.flights[id].(pc := next.pc)];
  }

  // A flight from its start, run without interruption: at most five steps.
  function Flown(c: P.Config, s: P.State, replica: nat, readOk: bool, writeOk: bool): Leg
    requires |s.versions| > 0
  {
    var missed := Fly(c, s, replica, Leg(P.FlightLocal, s.local, s.shared), true);
    var read := Fly(c, s, replica, missed, readOk);
    var fetched := Fly(c, s, replica, read, true);
    Fly(c, s, replica, Fly(c, s, replica, fetched, writeOk), true)
  }

  // Where a lookup at one instant gets its answer, as Cache.Resolve says.
  function AnswerOf(s: P.State, line: Option<L.Line<PollCache.Answer>>, shared: map<string, PollCache.Shared>,
                    pollID: string, readFails: bool): (PollCache.Answer, PollCache.Source)
    requires |s.versions| > 0
  {
    if PollCache.LocalLive(line, s.now) then (line.value.value, PollCache.Local)
    else if !readFails && PollCache.SharedLive(shared, pollID, s.now) then (shared[pollID].answer, PollCache.FromShared)
    else (P.Origin(s), PollCache.Origin)
  }

  // It ends with the answer Cache.Resolve serves and leaves both tiers as
  // Cache.Resolve leaves them.
  lemma LookupIsFlight(c: P.Config, s: P.State, replica: nat, line: Option<L.Line<PollCache.Answer>>,
                       shared: map<string, PollCache.Shared>, pollID: string, readFails: bool, writeFails: bool)
    requires |s.versions| > 0 && LocalView(line, s.local, replica, s.now) && SharedView(shared, pollID, s.shared)
    ensures var (answer, source) := AnswerOf(s, line, shared, pollID, readFails);
      var leg := Flown(c, s, replica, !readFails, !writeFails);
      && leg.pc.FlightDone? && leg.pc.entry.answer == answer
      && LocalView(if source == PollCache.Local then line
                   else Some(L.Line(pollID, answer, s.now + P.LocalTTLFor(c, answer))),
                   leg.local, replica, s.now)
      && SharedView(if source != PollCache.Origin || writeFails then shared
                    else shared[pollID := PollCache.Shared(answer, s.now + P.SharedTTLFor(c, answer))],
                    pollID, leg.shared)
  {
    hide P.LocalTTLFor, P.SharedTTLFor, P.Origin;
  }

  // Cache.Resolve at one instant, from tiers that are those of the protocol's
  // state and an origin that answers as the protocol's does: it serves the answer
  // of the uninterrupted flight and leaves both tiers as the flight does. When the
  // origin fails it writes nothing, like a flight that stops there.
  method ResolveIsFlight(cache: PollCache.Cache, s: P.State, replica: nat, pollID: string, trip: PollCache.Trip)
      returns (result: Result<Poll>)
    requires cache.local.Valid() && P.WfConfig(cache.cfg) && |s.versions| > 0
    requires trip.flightAt == trip.sharedAt == trip.writeAt == trip.storeAt == s.now
    requires LocalView(cache.Line(pollID), s.local, replica, s.now) && SharedView(cache.shared, pollID, s.shared)
    requires forall answer :: cache.OriginSays(pollID, answer) ==> answer == P.Origin(s)
    modifies cache`shared, cache.local.shards[cache.local.ShardFor(pollID)]
    modifies cache.local.shards[cache.local.ShardFor(pollID)].repr
    ensures cache.local.Valid()
    ensures var leg := Flown(cache.cfg, s, replica, !trip.readFails, !trip.writeFails);
      if result == Err(Unavailable) then
        && trip.originFails
        && LocalView(cache.Line(pollID), s.local, replica, s.now) && SharedView(cache.shared, pollID, s.shared)
      else
        && leg.pc.FlightDone?
        && result == (if leg.pc.entry.answer.Some? then Ok(leg.pc.entry.answer.value) else Err(NotFound))
        && LocalView(cache.Line(pollID), leg.local, replica, s.now) && SharedView(cache.shared, pollID, leg.shared)
  {
    hide Flown, P.WfConfig, P.Origin, P.LocalTTLFor, P.SharedTTLFor, L.Find, Repo.Answers;
    ghost var line, shared := cache.Line(pollID), cache.shared;
    var source;
    result, source := cache.Resolve(pollID, trip);
    LookupIsFlight(cache.cfg, s, replica, line, shared, pollID, trip.readFails, trip.writeFails);
  }

  // The two delete steps of an Activate or Finish, the second with a delete that
  // may fail.
  lemma DropsMove(c: P.Config, s: P.State, id: nat, poll: Poll, fails: bool)
    requires |s.versions| > 0 && id in s.admins && s.admins[id].pc == P.AdminDropLocal(poll)
    requires P.InTime(s, s.admins[id].start, c.requestTimeout)
    ensures var a := s.admins[id];
      var between := s.(admins := s.admins[id := a.(pc := P.AdminDropShared(poll))], local := s.local - {a.replica});
      var after := s.(admins := s.admins[id := a.(pc := P.AdminDone(poll))], local := s.local - {a.replica},
                      shared := if fails then s.shared else None);
      P.AdminMove(c, s, id, true, between) && P.AdminMove(c, between, id, !fails, after)
  {
    var a := s.admins[id];
    assert s.admins[id := a.(pc := P.AdminDropShared(poll))][id := a.(pc := P.AdminDone(poll))]
        == s.admins[id := a.(pc := P.AdminDone(poll))];
  }

  // Cache.Invalidate is the two delete steps of an Activate or Finish.
  method InvalidateIsDrops(cache: PollCache.Cache, s: P.State, replica: nat, pollID: string,
      fails: bool) returns (result: Result<()>)
    requires cache.local.Valid()
    requires LocalView(cache.Line(pollID), s.local, replica, s.now) && SharedView(cache.shared, pollID, s.shared)
    modifies cache`shared, cache.local.shards[cache.local.ShardFor(pollID)]
    ensures cache.local.Valid()
    ensures LocalView(cache.Line(pollID), s.local - {replica}, replica, s.now)
    ensures SharedView(cache.shared, pollID, if fails then s.shared else None)
  {
    result := cache.Invalidate(pollID, fails);
  }
}
