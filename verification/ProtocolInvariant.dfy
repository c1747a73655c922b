// What every reachable state of the protocol satisfies.
module ProtocolInvariant {
  import opened Wrappers
  import opened Entity
  import opened ShardScript
  import opened Repository
  import opened Results
  import opened Protocol
  import opened ProtocolTally

  // ---- The origin ----

  function AnswerRank(answer: Option<Poll>): nat {
    if answer.None? then 0 else Rank(answer.value.status)
  }

  function Latest(versions: seq<Version>): Option<Poll>
    requires |versions| > 0
  {
    versions[|versions| - 1].answer
  }

  // A copy of the poll differs from the created poll in status and finished_at only.
  ghost predicate SameContent(poll: Poll, copy: Poll) {
    copy == poll.(status := copy.status, finishedAt := copy.finishedAt)
  }

  // finished_at is set exactly when finished, by a clock read at most one
  // request before the update took effect.
  ghost predicate VersionOk(c: Config, poll: Poll, v: Version) {
    v.answer.Some? ==>
      && SameContent(poll, v.answer.value)
      && (v.answer.value.status == Finished <==> v.answer.value.finishedAt.Some?)
      && (v.answer.value.status == Finished ==>
            v.answer.value.finishedAt.value <= v.at <= v.answer.value.finishedAt.value + c.requestTimeout)
  }

  ghost predicate VersionsOk(c: Config, poll: Poll, versions: seq<Version>, now: nat, tracked: bool) {
    && WfPoll(poll)
    && |versions| > 0
    && versions[0].answer.None?
    && versions[|versions| - 1].at <= now
    && (forall i :: 0 <= i < |versions| ==> VersionOk(c, poll, versions[i]))
    && (forall i, j :: 0 <= i < j < |versions| ==>
          versions[i].at <= versions[j].at && AnswerRank(versions[i].answer) < AnswerRank(versions[j].answer))
    && (tracked ==> AnswerRank(Latest(versions)) >= 2)
  }

  // ---- The cache ----

  // The entry is what the origin answered at readAt.
  ghost predicate EntryOk(versions: seq<Version>, now: nat, e: Entry) {
    && e.version < |versions|
    && versions[e.version].answer == e.answer
    && versions[e.version].at <= e.readAt <= now
    && (e.version + 1 < |versions| ==> e.readAt <= versions[e.version + 1].at)
  }

  // No lookup serves an entry this long after the origin gave it.
  function Horizon(c: Config, answer: Option<Poll>): nat {
    SharedTTLFor(c, answer) + LocalTTLFor(c, answer) + 2 * c.requestTimeout
  }

  ghost predicate SharedOk(c: Config, versions: seq<Version>, now: nat, x: SharedEntry) {
    EntryOk(versions, now, x.entry)
    && x.deadline <= x.entry.readAt + c.requestTimeout + SharedTTLFor(c, x.entry.answer)
  }

  ghost predicate LocalOk(c: Config, versions: seq<Version>, now: nat, x: LocalEntry) {
    EntryOk(versions, now, x.entry) && x.expiresAt < x.entry.readAt + Horizon(c, x.entry.answer)
  }

  ghost predicate FlightOk(c: Config, versions: seq<Version>, now: nat, f: Flight) {
    && f.start <= now
    && match f.pc
       case FlightSetShared(e) => EntryOk(versions, now, e) && f.start <= e.readAt
       case FlightSetLocal(e) =>
         EntryOk(versions, now, e) && f.start < e.readAt + c.requestTimeout + SharedTTLFor(c, e.answer)
       case FlightDone(e, doneAt) =>
         EntryOk(versions, now, e) && f.start <= doneAt <= now && doneAt < e.readAt + Horizon(c, e.answer)
       case _ => true
  }

  ghost predicate CacheOk(c: Config, versions: seq<Version>, now: nat,
                          shared: Option<SharedEntry>, local: map<nat, LocalEntry>, flights: map<nat, Flight>)
  {
    && (shared.Some? ==> SharedOk(c, versions, now, shared.value))
    && (forall r :: r in local ==> LocalOk(c, versions, now, local[r]))
    && (forall f :: f in flights ==> FlightOk(c, versions, now, flights[f]))
  }

  // ---- Requests ----

  ghost predicate LoadedOk(c: Config, versions: seq<Version>, now: nat, start: nat, e: Entry) {
    EntryOk(versions, now, e) && start < e.readAt + Horizon(c, e.answer)
  }

  ghost predicate Admitted(e: Entry, ballot: seq<string>) {
    e.answer.Some? && e.answer.value.status == Active && IsBallot(e.answer.value, ballot)
  }

  // An instant of [from, upTo] lies in the poll's voting window.
  ghost predicate InWindow(poll: Poll, from: int, upTo: int) {
    && (poll.startsAt.Some? ==> poll.startsAt.value <= upTo)
    && (poll.endsAt.Some? ==> from < poll.endsAt.value)
  }

  ghost predicate CastOk(c: Config, versions: seq<Version>, now: nat, p: Cast) {
    && p.start <= now
    && match p.pc
       case CastLoaded(e) => LoadedOk(c, versions, now, p.start, e)
       case CastChecked(e) => LoadedOk(c, versions, now, p.start, e) && Admitted(e, p.ballot)
         && InWindow(e.answer.value, p.start, now)
       case CastGuarded(e) => LoadedOk(c, versions, now, p.start, e) && Admitted(e, p.ballot)
         && InWindow(e.answer.value, p.start, now)
       case _ => true
  }

  // A caller that joined a flight did so before the flight was done.
  ghost predicate Joined(flights: map<nat, Flight>, p: Cast) {
    p.pc.CastWaiting? ==>
      && p.pc.flight in flights
      && (flights[p.pc.flight].pc.FlightDone? ==> p.start <= flights[p.pc.flight].pc.doneAt)
  }

  ghost predicate CastsOk(c: Config, versions: seq<Version>, now: nat, flights: map<nat, Flight>, casts: map<nat,
      Cast>) {
    forall p :: p in casts ==> CastOk(c, versions, now, casts[p]) && Joined(flights, casts[p])
  }

  ghost predicate AdminOk(poll: Poll, versions: seq<Version>, now: nat, a: Admin)
    requires |versions| > 0
  {
    && a.start <= now
    && a.target != Draft
    && (a.pc.AdminGet? || a.pc.AdminTrack? ==> AnswerRank(Latest(versions)) >= Rank(a.target))
    && (a.pc.AdminTrack? || a.pc.AdminDropLocal? || a.pc.AdminDropShared? || a.pc.AdminDone? ==>
          Rank(a.pc.poll.status) >= Rank(a.target) && SameContent(poll, a.pc.poll))
  }

  ghost predicate AdminsOk(poll: Poll, versions: seq<Version>, now: nat, admins: map<nat, Admin>) {
    |versions| > 0 && forall a :: a in admins ==> AdminOk(poll, versions, now, admins[a])
  }

  // ---- Counting ----

  // A counted ballot was admitted by a copy of the active poll, and the script
  // ran before the copy's horizon plus one request had passed.
  ghost predicate CountedOk(c: Config, versions: seq<Version>, now: nat, x: Counted) {
    && c.shards > 0
    && x.at <= now
    && x.shard == ShardOf(c, x.voter)
    && EntryOk(versions, now, x.entry)
    && Admitted(x.entry, x.ballot)
    && InWindow(x.entry.answer.value, x.at - c.requestTimeout, x.at)
    && x.entry.readAt <= x.at
    && x.at < x.entry.readAt + Horizon(c, x.entry.answer) + c.requestTimeout
  }

  ghost predicate LogOk(c: Config, versions: seq<Version>, now: nat, log: seq<Counted>) {
    && (forall i :: 0 <= i < |log| ==> CountedOk(c, versions, now, log[i]))
    && (forall i, j :: 0 <= i < j < |log| ==> log[i].at <= log[j].at)
  }

  // The epoch of a counts hash: it began with a ballot of this shard, its
  // deadline is that instant plus retention, and its fields are the ballots since.
  ghost predicate ShardOk(c: Config, poll: Poll, log: seq<Counted>, k: nat, shard: Shard, epoch: Epoch) {
    shard.counts.Some? ==>
      var h := shard.counts.value;
      && epoch.from < |log| && log[epoch.from].shard == k && log[epoch.from].at == epoch.at
      && h.deadline == epoch.at + c.retention
      && h.fields.Keys <= OptionSet(poll)
      && (forall o :: FieldOf(h.fields, o) == CountVotes(log, epoch.from, {k}, o))
  }

  ghost predicate ShardsOk(c: Config, poll: Poll, log: seq<Counted>, shards: seq<Shard>, epochs: seq<Epoch>) {
    && |shards| == |epochs| == c.shards
    && (forall k :: 0 <= k < c.shards ==> ShardOk(c, poll, log, k, shards[k], epochs[k]))
  }

  // Every counted voter's dedup key lasts at least dedupTTL from the count.
  ghost predicate DedupOk(c: Config, log: seq<Counted>, shards: seq<Shard>) {
    && |shards| == c.shards
    && (forall i :: 0 <= i < |log| ==>
         && log[i].shard < c.shards
         && log[i].voter in shards[log[i].shard].voted
         && log[i].at + c.dedupTTL <= shards[log[i].shard].voted[log[i].voter])
    && (forall i, j :: 0 <= i < j < |log| && log[i].voter == log[j].voter ==>
         log[i].at + c.dedupTTL <= log[j].at)
  }

  // Each option's sum lies between the true tally of the shards read at the
  // first read (unless a counter was gone) and at the latest read.
  ghost predicate ScanOk(c: Config, poll: Poll, log: seq<Counted>, scan: Scan) {
    && scan.read <= AllShards(c.shards)
    && scan.fromLen <= scan.toLen <= |log|
    && scan.acc.Keys == OptionSet(poll)
    && (forall o :: o in scan.acc ==> scan.acc[o] <= CountVotes(log[..scan.toLen], 0, scan.read, o))
    && (scan.intact ==> forall o :: o in scan.acc ==>
          CountVotes(log[..scan.fromLen], 0, scan.read, o) <= scan.acc[o])
  }

  ghost predicate DurableOk(poll: Poll, versions: seq<Version>, log: seq<Counted>, durable: map<string, nat>) {
    && durable.Keys == (if |versions| > 1 then OptionSet(poll) else {})
    && (forall o :: o in durable ==> durable[o] <= Tally(log, o))
  }

  // The durable row has absorbed a finished scan.
  ghost predicate Absorbed(durable: map<string, nat>, scan: Scan) {
    forall o :: o in scan.acc ==> o in durable && scan.acc[o] <= durable[o]
  }

  // No ballot that the log had not yet at the scan's start was counted before the sync began.
  ghost predicate ScanAfter(log: seq<Counted>, start: nat, scan: Scan) {
    forall i :: scan.fromLen <= i < |log| ==> start <= log[i].at
  }

  ghost predicate LoadedFrom(versions: seq<Version>, poll: Poll) {
    exists v :: 0 <= v < |versions| && versions[v].answer == Some(poll)
  }

  ghost predicate SyncOk(c: Config, poll: Poll, versions: seq<Version>, now: nat, log: seq<Counted>,
      durable: map<string, nat>, y: Sync) {
    && y.start <= now
    && (y.pc.SyncLoad? ==> |versions| > 1)
    && !y.pc.SyncMissing? && !y.pc.SyncDropped?
    && (y.pc.SyncScan? || y.pc.SyncSaved? || y.pc.SyncSettled? || y.pc.SyncUntracked? ==>
         && |versions| > 1
         && LoadedFrom(versions, y.pc.poll)
         && ScanOk(c, poll, log, y.pc.scan) && ScanAfter(log, y.start, y.pc.scan))
    && (y.pc.SyncSaved? || y.pc.SyncSettled? || y.pc.SyncUntracked? ==>
         y.pc.scan.read == AllShards(c.shards) && Absorbed(durable, y.pc.scan))
    && (y.pc.SyncSettled? || y.pc.SyncUntracked? ==>
         && Settled(c, y.pc.poll, now)
         && y.pc.poll.finishedAt.value + c.settleAfter <= y.start + c.syncTimeout)
  }

  ghost predicate SyncsOk(c: Config, poll: Poll, versions: seq<Version>, now: nat, log: seq<Counted>,
      durable: map<string, nat>,
                          syncs: map<nat, Sync>)
  {
    forall y :: y in syncs ==> SyncOk(c, poll, versions, now, log, durable, syncs[y])
  }

  ghost predicate QueryOk(c: Config, poll: Poll, versions: seq<Version>, log: seq<Counted>, q: Query) {
    && q.begun <= |log|
    && |versions| > 1
    && match q.pc
       case ReadDurable => true
       case ReadScan(durable, scan) =>
         && (durable.Some? ==> forall o :: o in durable.value ==> durable.value[o] <= Tally(log, o))
         && ScanOk(c, poll, log, scan) && q.begun <= scan.fromLen
       case ReadDone(durable, live, counts, ended) =>
         && ended <= |log|
         && (live.Some? ==>
               && ScanOk(c, poll, log, live.value)
               && live.value.read == AllShards(c.shards) && q.begun <= live.value.fromLen)
         && counts.Keys == OptionSet(poll)
         && (forall o :: o in counts ==> counts[o] <= Tally(log[..ended], o))
         && (durable.Some? ==> forall o :: o in counts ==> VotesOf(durable.value, o) <= counts[o])
         && (live.Some? && live.value.intact ==>
               forall o :: o in counts ==> Tally(log[..q.begun], o) <= counts[o])
  }

  ghost predicate QueriesOk(c: Config, poll: Poll, versions: seq<Version>, log: seq<Counted>, queries: map<nat,
      Query>) {
    forall q :: q in queries ==> QueryOk(c, poll, versions, log, queries[q])
  }

  ghost predicate Inv(c: Config, s: State) {
    && VersionsOk(c, s.poll, s.versions, s.now, s.tracked)
    && AdminsOk(s.poll, s.versions, s.now, s.admins)
    && CacheOk(c, s.versions, s.now, s.shared, s.local, s.flights)
    && CastsOk(c, s.versions, s.now, s.flights, s.casts)
    && LogOk(c, s.versions, s.now, s.log)
    && ShardsOk(c, s.poll, s.log, s.shards, s.epochs)
    && DedupOk(c, s.log, s.shards)
    && DurableOk(s.poll, s.versions, s.log, s.durable)
    && SyncsOk(c, s.poll, s.versions, s.now, s.log, s.durable, s.syncs)
    && QueriesOk(c, s.poll, s.versions, s.log, s.queries)
  }

  lemma InitInv(c: Config, s: State)
    requires WfConfig(c) && Init(c, s)
    ensures Inv(c, s)
  {
  }
}
