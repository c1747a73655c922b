// Every step of the protocol keeps the invariant.
module ProtocolPreservation {
  import opened Wrappers
  import opened Entity
  import opened ShardScript
  import opened Repository
  import opened Results
  import opened Protocol
  import opened ProtocolTally
  import opened ProtocolInvariant

  // ---- The clock moves on, or the origin gets a new version ----

  ghost predicate Later(versions: seq<Version>, now: nat, versions': seq<Version>, now': nat) {
    && now <= now'
    && versions <= versions'
    && |versions'| <= |versions| + 1
    && (|versions| < |versions'| ==> now <= versions'[|versions|].at)
  }

  lemma EntryLater(versions: seq<Version>, now: nat, versions': seq<Version>, now': nat, e: Entry)
    requires Later(versions, now, versions', now') && EntryOk(versions, now, e)
    ensures EntryOk(versions', now', e)
  {
  }

  lemma CacheLater(c: Config, s: State, versions': seq<Version>, now': nat)
    requires Later(s.versions, s.now, versions', now')
    requires CacheOk(c, s.versions, s.now, s.shared, s.local, s.flights)
    ensures CacheOk(c, versions', now', s.shared, s.local, s.flights)
  {
    forall e | EntryOk(s.versions, s.now, e) ensures EntryOk(versions', now', e) {
      EntryLater(s.versions, s.now, versions', now', e);
    }
  }

  lemma CastsLater(c: Config, s: State, versions': seq<Version>, now': nat)
    requires Later(s.versions, s.now, versions', now')
    requires CastsOk(c, s.versions, s.now, s.flights, s.casts)
    ensures CastsOk(c, versions', now', s.flights, s.casts)
  {
    forall e | EntryOk(s.versions, s.now, e) ensures EntryOk(versions', now', e) {
      EntryLater(s.versions, s.now, versions', now', e);
    }
  }

  lemma LogLater(c: Config, s: State, versions': seq<Version>, now': nat)
    requires Later(s.versions, s.now, versions', now')
    requires LogOk(c, s.versions, s.now, s.log)
    ensures LogOk(c, versions', now', s.log)
  {
    forall i | 0 <= i < |s.log| ensures CountedOk(c, versions', now', s.log[i]) {
      EntryLater(s.versions, s.now, versions', now', s.log[i].entry);
    }
  }

  lemma SyncsLater(c: Config, s: State, versions': seq<Version>, now': nat, durable': map<string, nat>)
    requires Later(s.versions, s.now, versions', now')
    requires durable' == s.durable || |s.versions| == 1
    requires SyncsOk(c, s.poll, s.versions, s.now, s.log, s.durable, s.syncs)
    ensures SyncsOk(c, s.poll, versions', now', s.log, durable', s.syncs)
  {
    forall p | LoadedFrom(s.versions, p) ensures LoadedFrom(versions', p) {
      var v :| 0 <= v < |s.versions| && s.versions[v].answer == Some(p);
      assert versions'[v].answer == Some(p);
    }
  }

  lemma QueriesLater(c: Config, s: State, versions': seq<Version>)
    requires s.versions <= versions'
    requires QueriesOk(c, s.poll, s.versions, s.log, s.queries)
    ensures QueriesOk(c, s.poll, versions', s.log, s.queries)
  {
  }

  lemma OriginLater(c: Config, s: State, s': State)
    requires Inv(c, s) && Later(s.versions, s.now, s'.versions, s'.now)
    requires s'.durable == s.durable || |s.versions| == 1
    ensures CacheOk(c, s'.versions, s'.now, s.shared, s.local, s.flights)
    ensures CastsOk(c, s'.versions, s'.now, s.flights, s.casts)
    ensures LogOk(c, s'.versions, s'.now, s.log)
    ensures SyncsOk(c, s.poll, s'.versions, s'.now, s.log, s'.durable, s.syncs)
    ensures QueriesOk(c, s.poll, s'.versions, s.log, s.queries)
  {
    hide VersionsOk, AdminsOk, CacheOk, CastsOk, LogOk, ShardsOk, DedupOk, DurableOk, SyncsOk, QueriesOk;
    CacheLater(c, s, s'.versions, s'.now);
    CastsLater(c, s, s'.versions, s'.now);
    LogLater(c, s, s'.versions, s'.now);
    SyncsLater(c, s, s'.versions, s'.now, s'.durable);
    QueriesLater(c, s, s'.versions);
  }

  lemma TickKept(c: Config, s: State, to: nat)
    requires s.now <= to
    requires VersionsOk(c, s.poll, s.versions, s.now, s.tracked) && AdminsOk(s.poll, s.versions, s.now, s.admins)
    ensures VersionsOk(c, s.poll, s.versions, to, s.tracked) && AdminsOk(s.poll, s.versions, to, s.admins)
    ensures Later(s.versions, s.now, s.versions, to)
  {
  }

  lemma CreateKept(c: Config, s: State, s': State)
    requires |s.versions| == 1 && Environment(c, s, Create, s')
    requires VersionsOk(c, s.poll, s.versions, s.now, s.tracked) && AdminsOk(s.poll, s.versions, s.now, s.admins)
    ensures VersionsOk(c, s.poll, s'.versions, s.now, s.tracked) && AdminsOk(s.poll, s'.versions, s.now, s.admins)
    ensures Later(s.versions, s.now, s'.versions, s.now) && DurableOk(s.poll, s'.versions, s.log, s'.durable)
  {
  }

  lemma LossKept(c: Config, s: State, k: nat)
    requires k < |s.shards|
    requires ShardsOk(c, s.poll, s.log, s.shards, s.epochs) && DedupOk(c, s.log, s.shards)
    ensures var lost := s.shards[k := s.shards[k].(counts := None)];
      ShardsOk(c, s.poll, s.log, lost, s.epochs) && DedupOk(c, s.log, lost)
  {
  }

  lemma DropKept(c: Config, s: State, replica: nat)
    requires CacheOk(c, s.versions, s.now, s.shared, s.local, s.flights)
    ensures CacheOk(c, s.versions, s.now, s.shared, s.local - {replica}, s.flights)
    ensures CacheOk(c, s.versions, s.now, None, s.local, s.flights)
  {
  }

  lemma EnvironmentKeeps(c: Config, s: State, e: Event, s': State)
    requires Inv(c, s) && |s.versions| > 0 && Environment(c, s, e, s')
    ensures Inv(c, s')
  {
    hide VersionsOk, AdminsOk, CacheOk, CastsOk, LogOk, ShardsOk, DedupOk, DurableOk, SyncsOk, QueriesOk;
    match e
    case Tick(to) =>
      TickKept(c, s, to);
      OriginLater(c, s, s');
      assert DurableOk(s'.poll, s'.versions, s'.log, s'.durable);
    case Create =>
      CreateKept(c, s, s');
      OriginLater(c, s, s');
    case LoseCounters(k) => LossKept(c, s, k);
    case Evict(replica) => DropKept(c, s, replica);
    case DropShared => DropKept(c, s, 0);
    case _ =>
  }

  // ---- Admin requests ----

  lemma UpdateKept(c: Config, s: State, a: Admin)
    requires VersionsOk(c, s.poll, s.versions, s.now, s.tracked) && AdminsOk(s.poll, s.versions, s.now, s.admins)
    requires AdminOk(s.poll, s.versions, s.now, a) && InTime(s, a.start, c.requestTimeout) && Movable(s, a.target)
    ensures var v := Version(s.now, Some(Moved(Origin(s).value, a.target, a.start)));
      && VersionsOk(c, s.poll, s.versions + [v], s.now, s.tracked)
      && AdminsOk(s.poll, s.versions + [v], s.now, s.admins)
      && AnswerRank(Latest(s.versions + [v])) == Rank(a.target)
      && Later(s.versions, s.now, s.versions + [v], s.now)
  {
    assert VersionOk(c, s.poll, s.versions[|s.versions| - 1]);
  }

  lemma LongerDurable(poll: Poll, versions: seq<Version>, versions': seq<Version>, log: seq<Counted>,
      durable: map<string, nat>)
    requires 1 < |versions| <= |versions'| && DurableOk(poll, versions, log, durable)
    ensures DurableOk(poll, versions', log, durable)
  {
  }

  lemma AdminUpdateKeeps(c: Config, s: State, id: nat, ok: bool, s': State)
    requires Inv(c, s) && |s.versions| > 0
    requires AdminMove(c, s, id, ok, s') && s.admins[id].pc.AdminUpdate? && Movable(s, s.admins[id].target)
    ensures Inv(c, s')
  {
    var a := s.admins[id];
    var v := Version(s.now, Some(Moved(Origin(s).value, a.target, a.start)));
    assert AdminOk(s.poll, s.versions, s.now, a) && |s.versions| > 1 by { hide CacheOk, CastsOk, LogOk; }
    hide VersionsOk, AdminOk, CacheOk, CastsOk, LogOk, ShardsOk, DedupOk, DurableOk, SyncsOk, QueriesOk;
    UpdateKept(c, s, a);
    assert s'.versions == s.versions + [v];
    OriginLater(c, s, s');
    LongerDurable(s.poll, s.versions, s'.versions, s.log, s.durable);
  }

  lemma AdminsKept(c: Config, s: State, id: nat, s': State)
    requires VersionsOk(c, s.poll, s.versions, s.now, s.tracked) && AdminsOk(s.poll, s.versions, s.now, s.admins)
    requires id in s.admins && AdminNext(s, s.admins[id]).Some?
    requires !(s.admins[id].pc.AdminUpdate? && Movable(s, s.admins[id].target))
    requires s'.admins == s.admins[id := s.admins[id].(pc := AdminNext(s, s.admins[id]).value)]
    ensures AdminsOk(s.poll, s.versions, s.now, s'.admins)
    ensures s.admins[id].pc.AdminTrack? ==> VersionsOk(c, s.poll, s.versions, s.now, true)
  {
    assert VersionOk(c, s.poll, s.versions[|s.versions| - 1]);
    assert AdminOk(s.poll, s.versions, s.now, s.admins[id]);
    assert AdminOk(s.poll, s.versions, s.now, s'.admins[id]);
  }

  lemma AdminMoveKeeps(c: Config, s: State, id: nat, ok: bool, s': State)
    requires Inv(c, s) && |s.versions| > 0
    requires AdminMove(c, s, id, ok, s') && !(s.admins[id].pc.AdminUpdate? && Movable(s, s.admins[id].target))
    ensures Inv(c, s')
  {
    hide VersionsOk, AdminsOk, CacheOk, CastsOk, LogOk, ShardsOk, DedupOk, DurableOk, SyncsOk, QueriesOk, Movable;
    AdminsKept(c, s, id, s');
    DropKept(c, s, s.admins[id].replica);
  }

  lemma NewAdminKept(c: Config, s: State, id: nat, a: Admin)
    requires AdminsOk(s.poll, s.versions, s.now, s.admins) && a.pc.AdminUpdate? && a.start == s.now && a.target != Draft
    ensures AdminsOk(s.poll, s.versions, s.now, s.admins[id := a])
  {
  }

  lemma AdminKeeps(c: Config, s: State, e: Event, s': State)
    requires Inv(c, s) && |s.versions| > 0 && AdminSteps(c, s, e, s')
    ensures Inv(c, s')
  {
    hide VersionsOk, AdminsOk, CacheOk, CastsOk, LogOk, ShardsOk, DedupOk, DurableOk, SyncsOk, QueriesOk;
    if e.AdminStep? {
      if s.admins[e.id].pc.AdminUpdate? && Movable(s, s.admins[e.id].target) {
        AdminUpdateKeeps(c, s, e.id, e.ok, s');
      } else {
        AdminMoveKeeps(c, s, e.id, e.ok, s');
      }
    } else {
      NewAdminKept(c, s, e.id, s'.admins[e.id]);
    }
  }

  // ---- Resolves ----

  lemma FlightNextOk(c: Config, s: State, id: nat, ok: bool)
    requires WfConfig(c) && |s.versions| > 0 && s.versions[|s.versions| - 1].at <= s.now
    requires CacheOk(c, s.versions, s.now, s.shared, s.local, s.flights)
    requires id in s.flights && FlightNext(s, s.flights[id], ok).Some?
    requires InTime(s, s.flights[id].start, c.requestTimeout)
    ensures var f := s.flights[id];
      && FlightOk(c, s.versions, s.now, f.(pc := FlightNext(s, f, ok).value))
      && (f.pc.FlightSetShared? ==>
           SharedOk(c, s.versions, s.now, SharedEntry(f.pc.entry, s.now + SharedTTLFor(c, f.pc.entry.answer))))
      && (f.pc.FlightSetLocal? ==>
           LocalOk(c, s.versions, s.now, LocalEntry(f.pc.entry, s.now + LocalTTLFor(c, f.pc.entry.answer))))
  {
  }

  lemma FlightCacheKept(c: Config, s: State, id: nat, ok: bool, s': State)
    requires WfConfig(c) && |s.versions| > 0 && s.versions[|s.versions| - 1].at <= s.now && FlightMove(c, s, id, ok, s')
    requires CacheOk(c, s.versions, s.now, s.shared, s.local, s.flights)
    ensures CacheOk(c, s.versions, s.now, s'.shared, s'.local, s'.flights)
  {
    hide SharedOk, LocalOk, FlightOk;
    FlightNextOk(c, s, id, ok);
  }

  lemma CallersKept(c: Config, s: State, id: nat, f: Flight)
    requires CastsOk(c, s.versions, s.now, s.flights, s.casts)
    requires id in s.flights ==> !s.flights[id].pc.FlightDone?
    requires f.pc.FlightDone? ==> f.pc.doneAt == s.now
    ensures CastsOk(c, s.versions, s.now, s.flights[id := f], s.casts)
  {
  }

  lemma FlightKeeps(c: Config, s: State, e: Event, s': State)
    requires WfConfig(c) && Inv(c, s) && |s.versions| > 0 && FlightSteps(c, s, e, s')
    ensures Inv(c, s')
  {
    assert s.versions[|s.versions| - 1].at <= s.now by { hide CacheOk, CastsOk; }
    hide VersionsOk, AdminsOk, CastsOk, LogOk, ShardsOk, DedupOk;
    hide DurableOk, SyncsOk, QueriesOk, FlightOk, SharedOk, LocalOk;
    if e.FlightStep? {
      FlightCacheKept(c, s, e.id, e.ok, s');
      CallersKept(c, s, e.id, s'.flights[e.id]);
    } else {
      CallersKept(c, s, e.id, s'.flights[e.id]);
      assert FlightOk(c, s.versions, s.now, Flight(e.replica, s.now, FlightLocal)) by { NewFlightOk(c, s, e.replica); }
    }
  }

  lemma NewFlightOk(c: Config, s: State, replica: nat)
    ensures FlightOk(c, s.versions, s.now, Flight(replica, s.now, FlightLocal))
  {
  }

  // ---- Ballots up to the script ----

  lemma CastNextOk(c: Config, s: State, id: nat)
    requires CastsOk(c, s.versions, s.now, s.flights, s.casts)
    requires CacheOk(c, s.versions, s.now, s.shared, s.local, s.flights)
    requires id in s.casts && CastNext(s, s.casts[id]).Some?
    ensures CastOk(c, s.versions, s.now, s.casts[id].(pc := CastNext(s, s.casts[id]).value))
  {
    hide EntryOk, IsBallot;
    assert CastOk(c, s.versions, s.now, s.casts[id]) && Joined(s.flights, s.casts[id]);
  }

  lemma CastsKept(c: Config, s: State, id: nat, p: Cast)
    requires CastsOk(c, s.versions, s.now, s.flights, s.casts)
    requires CastOk(c, s.versions, s.now, p) && Joined(s.flights, p)
    ensures CastsOk(c, s.versions, s.now, s.flights, s.casts[id := p])
  {
    hide CastOk, Joined;
  }

  lemma CastKeeps(c: Config, s: State, e: Event, s': State)
    requires c.shards > 0 && Inv(c, s) && CastSteps(c, s, e, s') && !e.Script?
    ensures Inv(c, s')
  {
    hide VersionsOk, AdminsOk, CacheOk, CastsOk, LogOk, ShardsOk, DedupOk, DurableOk, SyncsOk, QueriesOk;
    match e
    case BeginCast(id, replica, voter, ballot) => CastsKept(c, s, id, s'.casts[id]);
    case JoinFlight(id, flight) =>
      assert s.casts[id].start <= s.now by { StartedBefore(c, s, id); }
      CastsKept(c, s, id, s'.casts[id]);
    case CastStep(id) =>
      CastNextOk(c, s, id);
      CastsKept(c, s, id, s'.casts[id]);
    case _ =>
  }

  lemma StartedBefore(c: Config, s: State, id: nat)
    requires CastsOk(c, s.versions, s.now, s.flights, s.casts) && id in s.casts
    ensures s.casts[id].start <= s.now
  {
  }

  // ---- The ballot script ----

  lemma EntryRead(versions: seq<Version>, now: nat, e: Entry)
    ensures EntryOk(versions, now, e) ==> e.readAt <= now
  {
  }

  lemma CountedBallotOk(c: Config, s: State, id: nat)
    requires c.shards > 0 && CastsOk(c, s.versions, s.now, s.flights, s.casts) && LogOk(c, s.versions, s.now, s.log)
    requires id in s.casts && s.casts[id].pc.CastGuarded? && InTime(s, s.casts[id].start, c.requestTimeout)
    ensures var p := s.casts[id];
      LogOk(c, s.versions, s.now, s.log + [Counted(s.now, p.voter, ShardOf(c, p.voter), p.ballot, p.pc.entry)])
  {
    EntryRead(s.versions, s.now, s.casts[id].pc.entry);
    hide EntryOk, IsBallot;
    assert CastOk(c, s.versions, s.now, s.casts[id]);
  }

  lemma DurableAppend(s: State, x: Counted)
    requires DurableOk(s.poll, s.versions, s.log, s.durable)
    ensures DurableOk(s.poll, s.versions, s.log + [x], s.durable)
  {
    forall o | o in s.durable ensures s.durable[o] <= Tally(s.log + [x], o) { CountAppend(s.log, x, 0, {}, o); }
  }

  lemma ScanAppend(c: Config, poll: Poll, log: seq<Counted>, scan: Scan, x: Counted)
    requires ScanOk(c, poll, log, scan)
    ensures ScanOk(c, poll, log + [x], scan)
  {
    assert (log + [x])[..scan.toLen] == log[..scan.toLen] && (log + [x])[..scan.fromLen] == log[..scan.fromLen];
  }

  lemma SyncsAppend(c: Config, s: State, x: Counted)
    requires SyncsOk(c, s.poll, s.versions, s.now, s.log, s.durable, s.syncs) && x.at == s.now
    ensures SyncsOk(c, s.poll, s.versions, s.now, s.log + [x], s.durable, s.syncs)
  {
    hide ScanOk, LoadedFrom, Absorbed;
    forall y | y in s.syncs ensures SyncOk(c, s.poll, s.versions, s.now, s.log + [x], s.durable, s.syncs[y]) {
      var pc := s.syncs[y].pc;
      if pc.SyncScan? || pc.SyncSaved? || pc.SyncSettled? || pc.SyncUntracked? {
        ScanAppend(c, s.poll, s.log, pc.scan, x);
      }
    }
  }

  lemma QueryAppend(c: Config, poll: Poll, versions: seq<Version>, log: seq<Counted>, q: Query, x: Counted)
    requires QueryOk(c, poll, versions, log, q)
    ensures QueryOk(c, poll, versions, log + [x], q)
  {
    match q.pc
    case ReadDurable =>
    case ReadScan(durable, scan) =>
      hide ScanOk;
      ScanAppend(c, poll, log, scan, x);
      forall o ensures Tally(log, o) <= Tally(log + [x], o) { CountAppend(log, x, 0, {}, o); }
    case ReadDone(_, live, _, ended) =>
      hide ScanOk;
      if live.Some? { ScanAppend(c, poll, log, live.value, x); }
      assert (log + [x])[..ended] == log[..ended] && (log + [x])[..q.begun] == log[..q.begun];
  }

  lemma QueriesAppend(c: Config, s: State, x: Counted)
    requires QueriesOk(c, s.poll, s.versions, s.log, s.queries)
    ensures QueriesOk(c, s.poll, s.versions, s.log + [x], s.queries)
  {
    hide QueryOk;
    forall q | q in s.queries { QueryAppend(c, s.poll, s.versions, s.log, s.queries[q], x); }
  }

  // A counted ballot adds one to each field it selects, in the live hash of its
  // shard or in a fresh one whose epoch starts with it.
  lemma ShardAppend(c: Config, s: State, k: nat, x: Counted, shard: Shard, counted: bool)
    requires WfConfig(c) && ShardsOk(c, s.poll, s.log, s.shards, s.epochs) && k < c.shards
    requires (shard, counted) == ShardScript.CastBallot(s.shards[k], s.now, x.voter, x.ballot, c.dedupTTL, c.retention)
    requires counted && x.at == s.now && x.shard == k && IsBallot(s.poll, x.ballot)
    ensures var live := s.shards[k].counts.Some? && s.now < s.shards[k].counts.value.deadline;
      ShardOk(c, s.poll, s.log + [x], k, shard, if live then s.epochs[k] else Epoch(|s.log|, s.now))
  {
    assert ShardOk(c, s.poll, s.log, k, s.shards[k], s.epochs[k]);
    var live := s.shards[k].counts.Some? && s.now < s.shards[k].counts.value.deadline;
    var from := if live then s.epochs[k].from else |s.log|;
    var fields := LiveFields(s.shards[k], s.now);
    forall o ensures FieldOf(shard.counts.value.fields, o) == CountVotes(s.log + [x], from, {k}, o) {
      IncrementAdds(fields, x.ballot, o);
      CountAppend(s.log, x, from, {k}, o);
      DistinctOnce(x.ballot, o);
    }
    IncrementAdds(fields, x.ballot, "");
  }

  lemma {:induction false} DistinctOnce(ids: seq<string>, o: string)
    requires Distinct(ids)
    ensures multiset(ids)[o] == Bit(o in ids)
  {
    if ids != [] {
      var init := ids[..|ids| - 1];
      assert ids == init + [ids[|ids| - 1]];
      DistinctOnce(init, o);
    }
  }

  lemma ShardsAppend(c: Config, s: State, k: nat, x: Counted, shard: Shard, epoch: Epoch)
    requires ShardsOk(c, s.poll, s.log, s.shards, s.epochs) && k < c.shards && x.shard == k
    requires ShardOk(c, s.poll, s.log + [x], k, shard, epoch)
    ensures ShardsOk(c, s.poll, s.log + [x], s.shards[k := shard], s.epochs[k := epoch])
  {
    forall j | 0 <= j < c.shards && j != k ensures ShardOk(c, s.poll, s.log + [x], j, s.shards[j], s.epochs[j]) {
      assert ShardOk(c, s.poll, s.log, j, s.shards[j], s.epochs[j]);
      if s.shards[j].counts.Some? {
        forall o { CountAppend(s.log, x, s.epochs[j].from, {j}, o); }
      }
    }
  }

  lemma DedupAppend(c: Config, s: State, k: nat, x: Counted, shard: Shard)
    requires DedupOk(c, s.log, s.shards) && k < c.shards && c.shards > 0 && x.ballot != []
    requires x.shard == k == ShardOf(c, x.voter) && x.at == s.now
    requires forall i :: 0 <= i < |s.log| ==> s.log[i].shard == ShardOf(c, s.log[i].voter) && s.log[i].at <= s.now
    requires (shard, true) == ShardScript.CastBallot(s.shards[k], s.now, x.voter, x.ballot, c.dedupTTL, c.retention)
    ensures DedupOk(c, s.log + [x], s.shards[k := shard])
  {
    hide Increment, LiveFields;
  }

  // A stale copy admits only ballots the created poll admits.
  lemma AdmittedBallot(c: Config, s: State, e: Entry, ballot: seq<string>)
    requires VersionsOk(c, s.poll, s.versions, s.now, s.tracked)
    requires EntryOk(s.versions, s.now, e) && Admitted(e, ballot)
    ensures IsBallot(s.poll, ballot)
  {
    assert VersionOk(c, s.poll, s.versions[e.version]);
    assert OptionIDs(e.answer.value) == OptionIDs(s.poll);
  }

  lemma NonEmpty(poll: Poll, ballot: seq<string>)
    requires IsBallot(poll, ballot)
    ensures ballot != []
  {
  }

  lemma GuardedOk(c: Config, s: State, id: nat)
    requires CastsOk(c, s.versions, s.now, s.flights, s.casts) && id in s.casts && s.casts[id].pc.CastGuarded?
    ensures var p := s.casts[id]; EntryOk(s.versions, s.now, p.pc.entry) && Admitted(p.pc.entry, p.ballot)
    ensures CastOk(c, s.versions, s.now, s.casts[id])
  {
  }

  lemma LogShards(c: Config, s: State)
    requires LogOk(c, s.versions, s.now, s.log) && c.shards > 0
    ensures forall i :: 0 <= i < |s.log| ==> s.log[i].shard == ShardOf(c, s.log[i].voter) && s.log[i].at <= s.now
    ensures forall i :: 0 <= i < |s.log| ==> s.log[i].shard < c.shards
  {
    hide EntryOk, Admitted;
    assert forall i :: 0 <= i < |s.log| ==> CountedOk(c, s.versions, s.now, s.log[i]);
  }

  lemma ScriptKeeps(c: Config, s: State, id: nat, replyLost: bool, s': State)
    requires WfConfig(c) && Inv(c, s) && ScriptMove(c, s, id, replyLost, s')
    ensures Inv(c, s')
  {
    hide VersionsOk, AdminsOk, CacheOk, CastsOk, LogOk, ShardsOk, ShardOk, DedupOk, DurableOk, SyncsOk, QueriesOk;
    hide ShardScript.CastBallot, IsBallot, EntryOk, Admitted;
    var p := s.casts[id];
    var k := ShardOf(c, p.voter);
    var (shard, counted) := ShardScript.CastBallot(s.shards[k], s.now, p.voter, p.ballot, c.dedupTTL, c.retention);
    GuardedOk(c, s, id);
    CastDoneKept(c, s, id, counted);
    if counted {
      var x := Counted(s.now, p.voter, k, p.ballot, p.pc.entry);
      AdmittedBallot(c, s, p.pc.entry, p.ballot);
      NonEmpty(s.poll, p.ballot);
      CountedBallotOk(c, s, id);
      LogShards(c, s);
      DurableAppend(s, x);
      SyncsAppend(c, s, x);
      QueriesAppend(c, s, x);
      DedupAppend(c, s, k, x, shard);
      ShardAppend(c, s, k, x, shard, counted);
      ShardsAppend(c, s, k, x, shard, s'.epochs[k]);
      assert s'.epochs == s.epochs[k := s'.epochs[k]];
    } else {
      RefusedUnchanged(c, s, p, k);
      assert s.shards[k := shard] == s.shards;
    }
  }

  lemma CastDoneKept(c: Config, s: State, id: nat, counted: bool)
    requires CastsOk(c, s.versions, s.now, s.flights, s.casts) && id in s.casts
    ensures CastsOk(c, s.versions, s.now, s.flights, s.casts[id := s.casts[id].(pc := CastDone(counted))])
  {
    assert CastOk(c, s.versions, s.now, s.casts[id]);
    CastsKept(c, s, id, s.casts[id].(pc := CastDone(counted)));
  }

  lemma RefusedUnchanged(c: Config, s: State, p: Cast, k: nat)
    requires k < |s.shards|
    ensures var (shard, counted) :=
        ShardScript.CastBallot(s.shards[k], s.now, p.voter, p.ballot, c.dedupTTL, c.retention);
      !counted ==> shard == s.shards[k]
  {
  }

  // ---- Scans ----

  // Reading one more shard keeps each sum between the tallies at the first and
  // the latest read.
  lemma ScanShardOk(c: Config, s: State, scan: Scan, k: nat)
    requires ShardsOk(c, s.poll, s.log, s.shards, s.epochs)
    requires ScanOk(c, s.poll, s.log, scan) && k < c.shards && k !in scan.read
    ensures ScanOk(c, s.poll, s.log, ScanShard(s, scan, k))
  {
    hide ShardOk, ShardIntact, LiveFields;
    var scan' := ScanShard(s, scan, k);
    assert s.log[..|s.log|] == s.log;
    forall o | o in scan'.acc
      ensures scan'.acc[o] <= CountVotes(s.log[..scan'.toLen], 0, scan.read + {k}, o)
      ensures scan'.intact ==> CountVotes(s.log[..scan'.fromLen], 0, scan.read + {k}, o) <= scan'.acc[o]
    {
      ShardReadBounds(c, s, k, o);
      CountSplit(s.log, 0, scan.read, k, o);
      CountSplit(s.log[..scan'.fromLen], 0, scan.read, k, o);
      CountPrefix(s.log, scan.toLen, 0, scan.read, o);
      CountPrefix(s.log, scan'.fromLen, 0, {k}, o);
      if scan.read == {} { CountEmpty(s.log, 0, o); }
    }
  }

  // What one read of a shard returns: never more than its true tally, and all
  // of it when no counter has expired or been lost.
  lemma ShardReadBounds(c: Config, s: State, k: nat, o: string)
    requires k < c.shards && ShardsOk(c, s.poll, s.log, s.shards, s.epochs)
    ensures FieldOf(LiveFields(s.shards[k], s.now), o) <= CountVotes(s.log, 0, {k}, o)
    ensures ShardIntact(s, k) ==> FieldOf(LiveFields(s.shards[k], s.now), o) == CountVotes(s.log, 0, {k}, o)
  {
    assert ShardOk(c, s.poll, s.log, k, s.shards[k], s.epochs[k]);
    CountLater(s.log, s.epochs[k].from, {k}, o);
    CountLater(s.log, |s.log|, {k}, o);
  }

  lemma NewScanOk(c: Config, s: State, start: nat)
    ensures ScanOk(c, s.poll, s.log, NewScan(s)) && ScanAfter(s.log, start, NewScan(s))
  {
    forall o { CountEmpty(s.log[..|s.log|], 0, o); }
  }

  // ---- Synchronisation ----

  // A finished scan never exceeds the true tally.
  lemma ScanBelowTally(c: Config, s: State, scan: Scan, o: string)
    requires c.shards > 0 && LogOk(c, s.versions, s.now, s.log) && ScanOk(c, s.poll, s.log, scan)
    requires scan.read == AllShards(c.shards) && o in scan.acc
    ensures scan.acc[o] <= Tally(s.log[..scan.toLen], o) <= Tally(s.log, o)
    ensures scan.intact ==> Tally(s.log[..scan.fromLen], o) <= scan.acc[o]
  {
    hide LogOk;
    LogShards(c, s);
    CountAll(s.log[..scan.toLen], AllShards(c.shards), o);
    CountAll(s.log[..scan.fromLen], AllShards(c.shards), o);
    CountPrefix(s.log, scan.toLen, 0, {}, o);
  }

  lemma UpsertKept(c: Config, s: State, scan: Scan)
    requires c.shards > 0 && |s.versions| > 1
    requires LogOk(c, s.versions, s.now, s.log) && ScanOk(c, s.poll, s.log, scan) && scan.read == AllShards(c.shards)
    requires DurableOk(s.poll, s.versions, s.log, s.durable)
    requires SyncsOk(c, s.poll, s.versions, s.now, s.log, s.durable, s.syncs)
    ensures var saved := Upsert(s.durable, scan.acc);
      && DurableOk(s.poll, s.versions, s.log, saved)
      && SyncsOk(c, s.poll, s.versions, s.now, s.log, saved, s.syncs)
      && Absorbed(saved, scan)
  {
    hide LogOk, LoadedFrom, ScanAfter, Tally;
    var saved := Upsert(s.durable, scan.acc);
    forall o | o in saved ensures saved[o] <= Tally(s.log, o) { ScanBelowTally(c, s, scan, o); }
    forall other | Absorbed(s.durable, other) ensures Absorbed(saved, other) {}
  }

  lemma SyncNextOk(c: Config, s: State, id: nat, k: nat)
    requires c.shards > 0 && |s.versions| > 0 && VersionsOk(c, s.poll, s.versions, s.now, s.tracked)
    requires ShardsOk(c, s.poll, s.log, s.shards, s.epochs)
    requires SyncsOk(c, s.poll, s.versions, s.now, s.log, s.durable, s.syncs)
    requires id in s.syncs && SyncNext(c, s, s.syncs[id], k).Some? && InTime(s, s.syncs[id].start, c.syncTimeout)
    ensures var y := s.syncs[id].(pc := SyncNext(c, s, s.syncs[id], k).value);
      && |s.versions| > 1
      && (!y.pc.SyncSaved? ==> SyncOk(c, s.poll, s.versions, s.now, s.log, s.durable, y))
      && (y.pc.SyncSaved? ==>
           && LoadedFrom(s.versions, y.pc.poll) && y.pc.scan.read == AllShards(c.shards)
           && ScanOk(c, s.poll, s.log, y.pc.scan) && ScanAfter(s.log, y.start, y.pc.scan))
  {
    hide ScanOk, ShardsOk, Absorbed, ShardIntact, VersionsOk;
    var y := s.syncs[id];
    assert SyncOk(c, s.poll, s.versions, s.now, s.log, s.durable, y);
    match y.pc
    case SyncLoad =>
      NewScanOk(c, s, y.start);
      ExistingAnswer(c, s);
      assert s.versions[|s.versions| - 1].answer == Origin(s);
    case SyncScan(poll, scan) =>
      ShardCount(c, s);
      ScanBound(c, s, scan);
      if !Complete(s, scan) { ScanShardOk(c, s, scan, k); }
    case _ =>
  }

  lemma ExistingAnswer(c: Config, s: State)
    requires VersionsOk(c, s.poll, s.versions, s.now, s.tracked) && |s.versions| > 1
    ensures Origin(s).Some?
  {
    assert AnswerRank(s.versions[0].answer) < AnswerRank(s.versions[|s.versions| - 1].answer);
  }

  lemma ShardCount(c: Config, s: State)
    requires ShardsOk(c, s.poll, s.log, s.shards, s.epochs)
    ensures |s.shards| == |s.epochs| == c.shards
  {
  }

  lemma ScanBound(c: Config, s: State, scan: Scan)
    requires ScanOk(c, s.poll, s.log, scan)
    ensures scan.read <= AllShards(c.shards)
  {
  }

  lemma SyncsKept(c: Config, s: State, id: nat, y: Sync, durable: map<string, nat>)
    requires SyncsOk(c, s.poll, s.versions, s.now, s.log, durable, s.syncs)
    requires SyncOk(c, s.poll, s.versions, s.now, s.log, durable, y)
    ensures SyncsOk(c, s.poll, s.versions, s.now, s.log, durable, s.syncs[id := y])
  {
    hide SyncOk;
  }

  lemma TrackedKept(c: Config, s: State, tracked: bool)
    requires VersionsOk(c, s.poll, s.versions, s.now, s.tracked) && (tracked ==> s.tracked)
    ensures VersionsOk(c, s.poll, s.versions, s.now, tracked)
  {
  }

  lemma TrackedExists(c: Config, s: State)
    requires VersionsOk(c, s.poll, s.versions, s.now, s.tracked) && s.tracked
    ensures |s.versions| > 1
  {
  }

  lemma SyncKeeps(c: Config, s: State, e: Event, s': State)
    requires c.shards > 0 && |s.versions| > 0 && Inv(c, s) && SyncSteps(c, s, e, s')
    ensures Inv(c, s')
  {
    hide VersionsOk, AdminsOk, CacheOk, CastsOk, LogOk, ShardsOk, DedupOk, DurableOk, SyncsOk, QueriesOk;
    hide LoadedFrom, ScanOk, ScanAfter, Absorbed, Upsert;
    TrackedKept(c, s, s'.tracked);
    match e
    case BeginSync(id) =>
      TrackedExists(c, s);
      SyncsKept(c, s, id, s'.syncs[id], s.durable);
    case SyncStep(id, k) =>
      SyncNextOk(c, s, id, k);
      if s'.syncs[id].pc.SyncSaved? {
        UpsertKept(c, s, s'.syncs[id].pc.scan);
        StartedSync(c, s, id);
      }
      SyncsKept(c, s, id, s'.syncs[id], s'.durable);
    case _ =>
  }

  lemma StartedSync(c: Config, s: State, id: nat)
    requires SyncsOk(c, s.poll, s.versions, s.now, s.log, s.durable, s.syncs) && id in s.syncs
    ensures s.syncs[id].start <= s.now
  {
  }

  // ---- Results ----

  // The merge of a durable row and a finished scan lies between the tally when
  // the query began (if the live read is whole) and the tally now.
  lemma MergedOk(c: Config, s: State, begun: nat, durable: Option<map<string, nat>>, live: Option<Scan>)
    requires c.shards > 0 && LogOk(c, s.versions, s.now, s.log) && begun <= |s.log|
    requires durable.Some? ==> forall o :: o in durable.value ==> durable.value[o] <= Tally(s.log, o)
    requires live.Some? ==>
      ScanOk(c, s.poll, s.log, live.value) && live.value.read == AllShards(c.shards) && begun <= live.value.fromLen
    ensures var counts := Merged(OptionSet(s.poll), durable, if live.Some? then Some(live.value.acc) else None);
      && (forall o :: o in counts ==> counts[o] <= Tally(s.log[..|s.log|], o))
      && (durable.Some? ==> forall o :: o in counts ==> VotesOf(durable.value, o) <= counts[o])
      && (live.Some? && live.value.intact ==> forall o :: o in counts ==> Tally(s.log[..begun], o) <= counts[o])
  {
    hide LogOk;
    assert s.log[..|s.log|] == s.log;
    if live.Some? {
      assert live.value.acc.Keys == OptionSet(s.poll);
      forall o | o in live.value.acc
        ensures live.value.acc[o] <= Tally(s.log, o)
        ensures live.value.intact ==> Tally(s.log[..begun], o) <= live.value.acc[o]
      {
        ScanBelowTally(c, s, live.value, o);
        assert s.log[..live.value.fromLen][..begun] == s.log[..begun];
        CountPrefix(s.log[..live.value.fromLen], begun, 0, {}, o);
      }
    }
  }

  lemma QueryNextOk(c: Config, s: State, id: nat, ok: bool, k: nat)
    requires c.shards > 0 && LogOk(c, s.versions, s.now, s.log) && ShardsOk(c, s.poll, s.log, s.shards, s.epochs)
    requires DurableOk(s.poll, s.versions, s.log, s.durable)
    requires QueriesOk(c, s.poll, s.versions, s.log, s.queries)
    requires id in s.queries && QueryNext(s, s.queries[id], ok, k).Some?
    ensures QueryOk(c, s.poll, s.versions, s.log, s.queries[id].(pc := QueryNext(s, s.queries[id], ok, k).value))
  {
    hide ScanOk, LogOk, ShardsOk, ShardIntact;
    var q := s.queries[id];
    assert QueryOk(c, s.poll, s.versions, s.log, q);
    match q.pc
    case ReadDurable => NewScanOk(c, s, 0);
    case ReadScan(durable, scan) =>
      ShardCount(c, s);
      ScanBound(c, s, scan);
      if !ok {
        MergedOk(c, s, q.begun, durable, None);
      } else if !Complete(s, scan) {
        ScanShardOk(c, s, scan, k);
      } else {
        MergedOk(c, s, q.begun, durable, Some(scan));
      }
    case _ =>
  }

  lemma QueryKeeps(c: Config, s: State, e: Event, s': State)
    requires c.shards > 0 && |s.versions| > 0 && Inv(c, s) && ReadSteps(s, e, s')
    ensures Inv(c, s')
  {
    hide VersionsOk, AdminsOk, CacheOk, CastsOk, LogOk, ShardsOk, DedupOk, DurableOk, SyncsOk, QueryOk;
    match e
    case BeginRead(id) => NewQueryOk(c, s);
    case ReadStep(id, ok, k) => QueryNextOk(c, s, id, ok, k);
    case _ =>
  }

  lemma NewQueryOk(c: Config, s: State)
    requires |s.versions| > 1
    ensures QueryOk(c, s.poll, s.versions, s.log, Query(|s.log|, ReadDurable))
  {
  }

  // ---- Only the script and the environment touch the counters ----

  ghost predicate SameCounters(s: State, s': State) {
    s'.log == s.log && s'.shards == s.shards && s'.epochs == s.epochs && s'.now == s.now
  }

  lemma RequestsKeepCounters(c: Config, s: State, e: Event, s': State)
    requires |s.versions| > 0 && (AdminSteps(c, s, e, s') || FlightSteps(c, s, e, s'))
    ensures SameCounters(s, s')
  {
    hide FlightNext, AdminNext, Movable, Moved, Origin, SharedTTLFor, LocalTTLFor;
  }

  lemma ReadersKeepCounters(c: Config, s: State, e: Event, s': State)
    requires |s.versions| > 0 && (SyncSteps(c, s, e, s') || ReadSteps(s, e, s'))
    ensures SameCounters(s, s')
  {
    hide SyncNext, QueryNext;
  }

  lemma OthersKeepCounters(c: Config, s: State, e: Event, s': State)
    requires c.shards > 0 && Step(c, s, e, s') && !CastSteps(c, s, e, s') && !Environment(c, s, e, s')
    ensures SameCounters(s, s')
  {
    hide Environment, AdminSteps, FlightSteps, CastSteps, SyncSteps, ReadSteps, SameCounters;
    if SyncSteps(c, s, e, s') || ReadSteps(s, e, s') {
      ReadersKeepCounters(c, s, e, s');
    } else {
      RequestsKeepCounters(c, s, e, s');
    }
  }

  // ---- Every step, every run ----

  lemma StepKeeps(c: Config, s: State, e: Event, s': State)
    requires WfConfig(c) && Inv(c, s) && Step(c, s, e, s')
    ensures Inv(c, s')
  {
    hide Inv, Environment, AdminSteps, FlightSteps, CastSteps, SyncSteps, ReadSteps;
    if Environment(c, s, e, s') {
      EnvironmentKeeps(c, s, e, s');
    } else if AdminSteps(c, s, e, s') {
      AdminKeeps(c, s, e, s');
    } else if FlightSteps(c, s, e, s') {
      FlightKeeps(c, s, e, s');
    } else if CastSteps(c, s, e, s') {
      BallotKeeps(c, s, e, s');
    } else if SyncSteps(c, s, e, s') {
      SyncKeeps(c, s, e, s');
    } else {
      QueryKeeps(c, s, e, s');
    }
  }

  lemma BallotKeeps(c: Config, s: State, e: Event, s': State)
    requires WfConfig(c) && Inv(c, s) && CastSteps(c, s, e, s')
    ensures Inv(c, s')
  {
    hide Inv, ScriptMove;
    if e.Script? {
      ScriptKeeps(c, s, e.id, e.replyLost, s');
    } else {
      CastKeeps(c, s, e, s');
    }
  }

  lemma {:induction false} RunInv(c: Config, states: seq<State>, events: seq<Event>, i: nat)
    requires WfConfig(c) && Run(c, states, events) && i < |states|
    ensures Inv(c, states[i])
  {
    hide Inv, Step, Init;
    if i == 0 {
      InitInv(c, states[0]);
    } else {
      RunInv(c, states, events, i - 1);
      StepKeeps(c, states[i - 1], events[i - 1], states[i]);
    }
  }
}
