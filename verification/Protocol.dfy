// The vote-counting protocol of one poll as a step relation over one state:
// API replicas cast ballots against possibly stale poll copies, admins move the
// poll through its lifecycle, sync jobs flush the sharded counters, and admin
// reads merge live and durable counts. Every Redis command, script and SQL
// statement is one atomic step; a process that stops stepping has crashed.
module Protocol {
  import opened Wrappers
  import opened Entity
  import opened ShardScript
  import opened Repository
  import opened Results

  // Durations are whole clock units. requestTimeout bounds one API request from
  // its start to its last effect, syncTimeout one synchronisation.
  datatype Config = Config(
    shards: nat, crc: string -> nat,
    dedupTTL: nat, retention: nat,
    localTTL: nat, sharedTTL: nat, negativeTTL: nat,
    requestTimeout: nat, syncTimeout: nat, settleAfter: nat)

  predicate WfConfig(c: Config) {
    && c.shards > 0 && c.dedupTTL > 0 && c.retention > 0
    && c.localTTL > 0 && c.sharedTTL > 0 && c.negativeTTL > 0
  }

  function ShardOf(c: Config, voter: string): nat
    requires c.shards > 0
  {
    c.crc(voter) % c.shards
  }

  // ---- State ----

  // One answer of the origin and the instant it took effect; None is "no such poll".
  datatype Version = Version(at: nat, answer: Option<Poll>)

  // A cached lookup, stamped (for the proofs only) with the instant and the
  // version at which the origin gave it.
  datatype Entry = Entry(answer: Option<Poll>, readAt: nat, version: nat)

  datatype SharedEntry = SharedEntry(entry: Entry, deadline: nat)
  datatype LocalEntry = LocalEntry(entry: Entry, expiresAt: nat)

  // One in-flight resolve of a replica; all its callers share the result.
  datatype FlightPc =
    | FlightLocal | FlightShared | FlightOrigin
    | FlightSetShared(entry: Entry) | FlightSetLocal(entry: Entry)
    | FlightDone(entry: Entry, doneAt: nat)
  datatype Flight = Flight(replica: nat, start: nat, pc: FlightPc)

  datatype CastPc =
    | CastBegin | CastWaiting(flight: nat)
    | CastLoaded(entry: Entry) | CastChecked(entry: Entry) | CastGuarded(entry: Entry)
    | CastDone(counted: bool)
  datatype Cast = Cast(replica: nat, start: nat, voter: string, ballot: seq<string>, pc: CastPc)

  // An Activate or Finish request; start is also the instant its clock was read.
  datatype AdminPc =
    | AdminUpdate | AdminGet | AdminTrack(poll: Poll)
    | AdminDropLocal(poll: Poll) | AdminDropShared(poll: Poll)
    | AdminDone(poll: Poll) | AdminConflict
  datatype Admin = Admin(replica: nat, start: nat, target: PollStatus, pc: AdminPc)

  // A read of the shards one after another, in any order: those read so far and
  // the sums. fromLen and toLen are the log lengths at the first and latest read;
  // intact says no counter read so far had expired or been lost.
  datatype Scan = Scan(read: set<nat>, acc: map<string, nat>, fromLen: nat, toLen: nat, intact: bool)

  datatype SyncPc =
    | SyncLoad | SyncScan(poll: Poll, scan: Scan) | SyncSaved(poll: Poll, scan: Scan)
    | SyncSettled(poll: Poll, scan: Scan) | SyncUntracked(poll: Poll, scan: Scan)
    | SyncMissing | SyncDropped
  datatype Sync = Sync(start: nat, pc: SyncPc)

  datatype ReadPc =
    | ReadDurable
    | ReadScan(durable: Option<map<string, nat>>, scan: Scan)
    | ReadDone(durable: Option<map<string, nat>>, live: Option<Scan>, counts: map<string, nat>, ended: nat)
  datatype Query = Query(begun: nat, pc: ReadPc)

  // A ballot the script counted, with the poll copy that admitted it.
  datatype Counted = Counted(at: nat, voter: string, shard: nat, ballot: seq<string>, entry: Entry)

  // The log position and instant at which a shard's current counts hash began.
  datatype Epoch = Epoch(from: nat, at: nat)

  datatype State = State(
    poll: Poll,
    now: nat,
    versions: seq<Version>,
    durable: map<string, nat>,
    tracked: bool,
    shards: seq<Shard>,
    epochs: seq<Epoch>,
    shared: Option<SharedEntry>,
    local: map<nat, LocalEntry>,
    flights: map<nat, Flight>,
    casts: map<nat, Cast>,
    admins: map<nat, Admin>,
    syncs: map<nat, Sync>,
    queries: map<nat, Query>,
    log: seq<Counted>)

  // What buildPoll hands to Create.
  predicate WfPoll(poll: Poll) {
    poll.status == Draft && poll.finishedAt.None? && Distinct(OptionIDs(poll))
  }

  predicate Init(c: Config, s: State) {
    && WfPoll(s.poll)
    && s.now == 0
    && s.versions == [Version(0, None)]
    && s.durable == map[]
    && !s.tracked
    && s.shards == seq(c.shards, _ => EMPTY_SHARD)
    && s.epochs == seq(c.shards, _ => Epoch(0, 0))
    && s.shared == None
    && s.local == map[]
    && s.flights == map[]
    && s.casts == map[]
    && s.admins == map[]
    && s.syncs == map[]
    && s.queries == map[]
    && s.log == []
  }

  // ---- Shared definitions of the steps ----

  function Origin(s: State): Option<Poll>
    requires |s.versions| > 0
  {
    s.versions[|s.versions| - 1].answer
  }

  function SharedTTLFor(c: Config, answer: Option<Poll>): nat {
    if answer.None? then c.negativeTTL else c.sharedTTL
  }

  function LocalTTLFor(c: Config, answer: Option<Poll>): nat {
    if answer.None? && c.negativeTTL < c.localTTL then c.negativeTTL else c.localTTL
  }

  predicate LocalHit(s: State, replica: nat) {
    replica in s.local && s.now <= s.local[replica].expiresAt
  }

  predicate SharedHit(s: State) {
    s.shared.Some? && s.now < s.shared.value.deadline
  }

  predicate InTime(s: State, start: nat, timeout: nat) {
    s.now <= start + timeout
  }

  // The statuses from which the conditional update moves to target.
  function Sources(target: PollStatus): set<PollStatus> {
    if target == Active then {Draft} else {Draft, Active}
  }

  function Moved(poll: Poll, target: PollStatus, at: nat): Poll {
    poll.(status := target, finishedAt := if target == Finished then Some(at) else None)
  }

  function NewScan(s: State): Scan {
    Scan({}, map id | id in OptionSet(s.poll) :: 0, |s.log|, |s.log|, true)
  }

  // Every ballot counted in this shard is in its live counts hash.
  predicate ShardIntact(s: State, k: nat)
    requires k < |s.shards| && k < |s.epochs|
  {
    forall i :: 0 <= i < |s.log| && s.log[i].shard == k ==>
      && s.epochs[k].from <= i
      && s.shards[k].counts.Some? && s.now < s.shards[k].counts.value.deadline
  }

  function AllShards(n: nat): set<nat>
    ensures forall k: nat :: k in AllShards(n) <==> k < n
  {
    if n == 0 then {} else AllShards(n - 1) + {n - 1}
  }

  // One more shard is read.
  function ScanShard(s: State, scan: Scan, k: nat): Scan
    requires k < |s.shards| == |s.epochs|
  {
    var fields := LiveFields(s.shards[k], s.now);
    Scan(scan.read + {k}, map id | id in scan.acc :: scan.acc[id] + FieldOf(fields, id),
         if scan.read == {} then |s.log| else scan.fromLen, |s.log|, scan.intact && ShardIntact(s, k))
  }

  // This shard may be read next.
  predicate Unread(s: State, scan: Scan, k: nat) {
    k < |s.shards| == |s.epochs| && k !in scan.read
  }

  predicate Complete(s: State, scan: Scan) {
    scan.read == AllShards(|s.shards|)
  }

  // n shard reads with nothing in between.
  function Scanned(s: State, n: nat): (scan: Scan)
    requires n <= |s.shards| == |s.epochs|
    ensures scan.read == AllShards(n)
  {
    if n == 0 then NewScan(s) else ScanShard(s, Scanned(s, n - 1), n - 1)
  }

  // ---- Steps ----

  datatype Event =
    | Tick(to: nat)
    | Create
    | LoseCounters(shard: nat)
    | Evict(replica: nat)
    | DropShared
    | BeginAdmin(id: nat, replica: nat, target: PollStatus)
    | AdminStep(id: nat, ok: bool)
    | BeginFlight(id: nat, replica: nat)
    | FlightStep(id: nat, ok: bool)
    | BeginCast(id: nat, replica: nat, voter: string, ballot: seq<string>)
    | JoinFlight(id: nat, flight: nat)
    | CastStep(id: nat)
    | Script(id: nat, replyLost: bool)
    | BeginSync(id: nat)
    | SyncStep(id: nat, shard: nat)
    | BeginRead(id: nat)
    | ReadStep(id: nat, ok: bool, shard: nat)

  predicate Environment(c: Config, s: State, e: Event, s': State)
    requires |s.versions| > 0
  {
    match e
    case Tick(to) => s.now <= to && s' == s.(now := to)
    case Create =>
      && |s.versions| == 1
      && s' == s.(versions := s.versions + [Version(s.now, Some(s.poll))],
                  durable := map id | id in OptionSet(s.poll) :: 0)
    case LoseCounters(k) =>
      && k < |s.shards|
      && s' == s.(shards := s.shards[k := s.shards[k].(counts := None)])
    case Evict(replica) => s' == s.(local := s.local - {replica})
    case DropShared => s' == s.(shared := None)
    case _ => false
  }

  predicate Movable(s: State, target: PollStatus)
    requires |s.versions| > 0
  {
    Origin(s).Some? && Origin(s).value.status in Sources(target)
  }

  function AdminNext(s: State, a: Admin): Option<AdminPc>
    requires |s.versions| > 0
  {
    match a.pc
    case AdminUpdate => Some(if Movable(s, a.target) then AdminGet else AdminConflict)
    case AdminGet =>
      if Origin(s).None? then None
      else if a.target == Active then Some(AdminTrack(Origin(s).value))
      else Some(AdminDropLocal(Origin(s).value))
    case AdminTrack(poll) => Some(AdminDropLocal(poll))
    case AdminDropLocal(poll) => Some(AdminDropShared(poll))
    case AdminDropShared(poll) => Some(AdminDone(poll))
    case _ => None
  }

  // The conditional update, the track, and the two cache deletes.
  predicate AdminMove(c: Config, s: State, id: nat, ok: bool, s': State)
    requires |s.versions| > 0
  {
    && id in s.admins
    && var a := s.admins[id];
    && InTime(s, a.start, c.requestTimeout)
    && AdminNext(s, a).Some?
    && s' == s.(
         admins := s.admins[id := a.(pc := AdminNext(s, a).value)],
         versions := if a.pc.AdminUpdate? && Movable(s, a.target)
                     then s.versions + [Version(s.now, Some(Moved(Origin(s).value, a.target, a.start)))]
                     else s.versions,
         tracked := s.tracked || a.pc.AdminTrack?,
         local := if a.pc.AdminDropLocal? then s.local - {a.replica} else s.local,
         shared := if a.pc.AdminDropShared? && ok then None else s.shared)
  }

  predicate AdminSteps(c: Config, s: State, e: Event, s': State)
    requires |s.versions| > 0
  {
    match e
    case BeginAdmin(id, replica, target) =>
      && id !in s.admins && target != Draft
      && s' == s.(admins := s.admins[id := Admin(replica, s.now, target, AdminUpdate)])
    case AdminStep(id, ok) => AdminMove(c, s, id, ok, s')
    case _ => false
  }

  // Local tier, shared tier (a failed read falls back to the origin like a
  // miss), origin, then the two writes.
  function FlightNext(s: State, f: Flight, ok: bool): Option<FlightPc>
    requires |s.versions| > 0
  {
    match f.pc
    case FlightLocal =>
      Some(if LocalHit(s, f.replica) then FlightDone(s.local[f.replica].entry, s.now) else FlightShared)
    case FlightShared =>
      Some(if ok && SharedHit(s) then FlightSetLocal(s.shared.value.entry) else FlightOrigin)
    case FlightOrigin => Some(FlightSetShared(Entry(Origin(s), s.now, |s.versions| - 1)))
    case FlightSetShared(entry) => Some(FlightSetLocal(entry))
    case FlightSetLocal(entry) => Some(FlightDone(entry, s.now))
    case FlightDone(_, _) => None
  }

  predicate FlightMove(c: Config, s: State, id: nat, ok: bool, s': State)
    requires |s.versions| > 0
  {
    && id in s.flights
    && var f := s.flights[id];
    && InTime(s, f.start, c.requestTimeout)
    && FlightNext(s, f, ok).Some?
    && s' == s.(
         flights := s.flights[id := f.(pc := FlightNext(s, f, ok).value)],
         shared := if f.pc.FlightSetShared? && ok
                   then Some(SharedEntry(f.pc.entry, s.now + SharedTTLFor(c, f.pc.entry.answer)))
                   else s.shared,
         local := if f.pc.FlightSetLocal?
                  then s.local[f.replica := LocalEntry(f.pc.entry, s.now + LocalTTLFor(c, f.pc.entry.answer))]
                  else s.local)
  }

  predicate FlightSteps(c: Config, s: State, e: Event, s': State)
    requires |s.versions| > 0
  {
    match e
    case BeginFlight(id, replica) =>
      && id !in s.flights
      && s' == s.(flights := s.flights[id := Flight(replica, s.now, FlightLocal)])
    case FlightStep(id, ok) => FlightMove(c, s, id, ok, s')
    case _ => false
  }

  function WithCast(s: State, id: nat, pc: CastPc): State
    requires id in s.casts
  {
    s.(casts := s.casts[id := s.casts[id].(pc := pc)])
  }

  function CastNext(s: State, p: Cast): Option<CastPc> {
    match p.pc
    case CastBegin => if LocalHit(s, p.replica) then Some(CastLoaded(s.local[p.replica].entry)) else None
    case CastWaiting(f) =>
      if f in s.flights && s.flights[f].pc.FlightDone? then Some(CastLoaded(s.flights[f].pc.entry)) else None
    case CastLoaded(entry) =>
      if entry.answer.Some? && IsOpenAt(entry.answer.value, s.now) && IsBallot(entry.answer.value, p.ballot)
      then Some(CastChecked(entry)) else None
    case CastChecked(entry) => Some(CastGuarded(entry))
    case _ => None
  }

  predicate CastMove(c: Config, s: State, id: nat, s': State) {
    && id in s.casts
    && InTime(s, s.casts[id].start, c.requestTimeout)
    && CastNext(s, s.casts[id]).Some?
    && s' == WithCast(s, id, CastNext(s, s.casts[id]).value)
  }

  // The script runs; if its reply is lost the client library may send it again.
  predicate ScriptMove(c: Config, s: State, id: nat, replyLost: bool, s': State)
    requires c.shards > 0
  {
    && id in s.casts
    && var p := s.casts[id];
    && InTime(s, p.start, c.requestTimeout)
    && p.pc.CastGuarded?
    && var k := ShardOf(c, p.voter);
    && k < |s.shards| && k < |s.epochs|
    && var (shard, counted) := ShardScript.CastBallot(s.shards[k], s.now, p.voter, p.ballot, c.dedupTTL, c.retention);
    && var live := s.shards[k].counts.Some? && s.now < s.shards[k].counts.value.deadline;
    && s' == s.(
         casts := if replyLost then s.casts else s.casts[id := p.(pc := CastDone(counted))],
         shards := s.shards[k := shard],
         epochs := if counted && !live then s.epochs[k := Epoch(|s.log|, s.now)] else s.epochs,
         log := if counted then s.log + [Counted(s.now, p.voter, k, p.ballot, p.pc.entry)] else s.log)
  }

  predicate CastSteps(c: Config, s: State, e: Event, s': State)
    requires c.shards > 0
  {
    match e
    case BeginCast(id, replica, voter, ballot) =>
      && id !in s.casts
      && s' == s.(casts := s.casts[id := Cast(replica, s.now, voter, ballot, CastBegin)])
    case JoinFlight(id, flight) =>
      && id in s.casts && s.casts[id].pc.CastBegin?
      && InTime(s, s.casts[id].start, c.requestTimeout)
      && flight in s.flights && s.flights[flight].replica == s.casts[id].replica && !s.flights[flight].pc.FlightDone?
      && s' == WithCast(s, id, CastWaiting(flight))
    case CastStep(id) => CastMove(c, s, id, s')
    case Script(id, replyLost) => ScriptMove(c, s, id, replyLost, s')
    case _ => false
  }

  predicate Settled(c: Config, poll: Poll, now: nat) {
    HasSettled(poll.status, poll.finishedAt, now, c.settleAfter)
  }

  function SyncNext(c: Config, s: State, y: Sync, k: nat): Option<SyncPc>
    requires |s.versions| > 0
  {
    match y.pc
    case SyncLoad => Some(if Origin(s).None? then SyncMissing else SyncScan(Origin(s).value, NewScan(s)))
    case SyncScan(poll, scan) =>
      if Complete(s, scan) then Some(SyncSaved(poll, scan))
      else if Unread(s, scan, k) then Some(SyncScan(poll, ScanShard(s, scan, k))) else None
    case SyncSaved(poll, scan) => if Settled(c, poll, s.now) then Some(SyncSettled(poll, scan)) else None
    case SyncSettled(poll, scan) => Some(SyncUntracked(poll, scan))
    case SyncMissing => Some(SyncDropped)
    case _ => None
  }

  predicate SyncMove(c: Config, s: State, id: nat, k: nat, s': State)
    requires |s.versions| > 0
  {
    && id in s.syncs
    && var y := s.syncs[id];
    && InTime(s, y.start, c.syncTimeout)
    && SyncNext(c, s, y, k).Some?
    && var next := SyncNext(c, s, y, k).value;
    && s' == s.(
         syncs := s.syncs[id := y.(pc := next)],
         durable := if next.SyncSaved? then Upsert(s.durable, next.scan.acc) else s.durable,
         tracked := s.tracked && !next.SyncUntracked? && !next.SyncDropped?)
  }

  predicate SyncSteps(c: Config, s: State, e: Event, s': State)
    requires |s.versions| > 0
  {
    match e
    case BeginSync(id) =>
      && id !in s.syncs && s.tracked
      && s' == s.(syncs := s.syncs[id := Sync(s.now, SyncLoad)])
    case SyncStep(id, k) => SyncMove(c, s, id, k, s')
    case _ => false
  }

  // Results: the durable row, then the shards, then the merge. Either read may
  // fail, but not both.
  function QueryNext(s: State, q: Query, ok: bool, k: nat): Option<ReadPc> {
    var ids := OptionSet(s.poll);
    match q.pc
    case ReadDurable => Some(ReadScan(if ok then Some(s.durable) else None, NewScan(s)))
    case ReadScan(durable, scan) =>
      if !ok then
        if durable.Some? then Some(ReadDone(durable, None, Merged(ids, durable, None), |s.log|)) else None
      else if Complete(s, scan) then Some(ReadDone(durable, Some(scan), Merged(ids, durable, Some(scan.acc)), |s.log|))
      else if Unread(s, scan, k) then Some(ReadScan(durable, ScanShard(s, scan, k))) else None
    case ReadDone(_, _, _, _) => None
  }

  predicate ReadMove(s: State, id: nat, ok: bool, k: nat, s': State) {
    && id in s.queries
    && QueryNext(s, s.queries[id], ok, k).Some?
    && s' == s.(queries := s.queries[id := s.queries[id].(pc := QueryNext(s, s.queries[id], ok, k).value)])
  }

  predicate ReadSteps(s: State, e: Event, s': State)
    requires |s.versions| > 0
  {
    match e
    case BeginRead(id) =>
      && id !in s.queries && |s.versions| > 1
      && s' == s.(queries := s.queries[id := Query(|s.log|, ReadDurable)])
    case ReadStep(id, ok, k) => ReadMove(s, id, ok, k, s')
    case _ => false
  }

  predicate Step(c: Config, s: State, e: Event, s': State)
    requires c.shards > 0
  {
    && |s.versions| > 0
    && (|| Environment(c, s, e, s')
        || AdminSteps(c, s, e, s')
        || FlightSteps(c, s, e, s')
        || CastSteps(c, s, e, s')
        || SyncSteps(c, s, e, s')
        || ReadSteps(s, e, s'))
  }

  // A run: states joined by steps from an initial state.
  ghost predicate Run(c: Config, states: seq<State>, events: seq<Event>)
    requires c.shards > 0
  {
    && |states| == |events| + 1
    && Init(c, states[0])
    && forall i :: 0 <= i < |events| ==> Step(c, states[i], events[i], states[i + 1])
  }
}
