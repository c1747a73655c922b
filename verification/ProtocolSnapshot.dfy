// The shards are read one after another, in any order, while ballots land: what a finished
// read of any sync or query returns, over every run.
module ProtocolSnapshot {
  import opened Wrappers
  import opened Entity
  import opened ShardScript
  import Results
  import opened Protocol
  import opened ProtocolTally
  import opened ProtocolInvariant
  import opened ProtocolPreservation
  import opened ProtocolTheorems

  datatype Reader = SyncReader(id: nat) | QueryReader(id: nat)

  // The reader has created its scan.
  predicate Started(s: State, r: Reader) {
    match r
    case SyncReader(id) => id in s.syncs && !s.syncs[id].pc.SyncLoad?
    case QueryReader(id) => id in s.queries && !s.queries[id].pc.ReadDurable?
  }

  function ScanOf(s: State, r: Reader): Option<Scan> {
    if !Started(s, r) then None
    else match r
      case SyncReader(id) => SyncScanOf(s.syncs[id].pc)
      case QueryReader(id) => QueryScanOf(s.queries[id].pc)
  }

  function SyncScanOf(pc: SyncPc): Option<Scan> {
    match pc
    case SyncScan(_, scan) => Some(scan)
    case SyncSaved(_, scan) => Some(scan)
    case SyncSettled(_, scan) => Some(scan)
    case SyncUntracked(_, scan) => Some(scan)
    case _ => None
  }

  function QueryScanOf(pc: ReadPc): Option<Scan> {
    match pc
    case ReadScan(_, scan) => Some(scan)
    case ReadDone(_, live, _, _) => live
    case ReadDurable => None
  }

  // The step from s to s' is this reader's read of shard k.
  predicate Reads(s: State, s': State, r: Reader, k: nat) {
    && ScanOf(s, r).Some? && k !in ScanOf(s, r).value.read
    && ScanOf(s', r).Some? && ScanOf(s', r).value.read == ScanOf(s, r).value.read + {k}
  }

  // A reader that starts does so with an empty scan.
  lemma ScanBegins(c: Config, s: State, e: Event, s': State, r: Reader)
    requires c.shards > 0 && Step(c, s, e, s') && !Started(s, r) && ScanOf(s', r).Some?
    ensures ScanOf(s', r) == Some(NewScan(s))
  {
    hide Environment, AdminSteps, FlightSteps, CastSteps, SyncSteps, ReadSteps, NewScan;
    if SyncSteps(c, s, e, s') {
      SyncBegins(c, s, e, s', r);
    } else if ReadSteps(s, e, s') {
      QueryBegins(s, e, s', r);
    } else {
      OthersKeepReaders(c, s, e, s');
      SameScan(s, s', r);
    }
  }

  lemma SyncBegins(c: Config, s: State, e: Event, s': State, r: Reader)
    requires |s.versions| > 0 && SyncSteps(c, s, e, s') && !Started(s, r) && ScanOf(s', r).Some?
    ensures ScanOf(s', r) == Some(NewScan(s))
  {
    hide ScanShard, Settled, NewScan;
  }

  lemma QueryBegins(s: State, e: Event, s': State, r: Reader)
    requires |s.versions| > 0 && ReadSteps(s, e, s') && !Started(s, r) && ScanOf(s', r).Some?
    ensures ScanOf(s', r) == Some(NewScan(s))
  {
    hide ScanShard, Results.Merged, NewScan;
  }

  // A started reader keeps its scan, reads one more shard, or has failed for good.
  lemma ScanStep(c: Config, s: State, e: Event, s': State, r: Reader)
    requires c.shards > 0 && Step(c, s, e, s') && Started(s, r)
    ensures Started(s', r)
    ensures ScanOf(s', r).Some? ==> ScanOf(s, r).Some?
    ensures ScanOf(s', r).Some? && ScanOf(s', r) != ScanOf(s, r) ==>
      && (e.SyncStep? || e.ReadStep?) && Unread(s, ScanOf(s, r).value, e.shard)
      && ScanOf(s', r).value == ScanShard(s, ScanOf(s, r).value, e.shard)
  {
    hide Environment, AdminSteps, FlightSteps, CastSteps, SyncSteps, ReadSteps, ScanShard, Started, ScanOf;
    if SyncSteps(c, s, e, s') {
      SyncScanStep(c, s, e, s', r);
    } else if ReadSteps(s, e, s') {
      QueryScanStep(c, s, e, s', r);
    } else {
      OthersKeepReaders(c, s, e, s');
      SameScan(s, s', r);
    }
  }

  lemma SameScan(s: State, s': State, r: Reader)
    requires s'.syncs == s.syncs && s'.queries == s.queries
    ensures Started(s', r) <==> Started(s, r)
    ensures ScanOf(s', r) == ScanOf(s, r)
  {
  }

  lemma OthersKeepReaders(c: Config, s: State, e: Event, s': State)
    requires c.shards > 0 && Step(c, s, e, s') && !SyncSteps(c, s, e, s') && !ReadSteps(s, e, s')
    ensures s'.syncs == s.syncs && s'.queries == s.queries
  {
    hide Environment, AdminSteps, FlightSteps, CastSteps, SyncSteps, ReadSteps;
    if CastSteps(c, s, e, s') {
      CastsKeepReaders(c, s, e, s');
    } else {
      RestKeepReaders(c, s, e, s');
    }
  }

  lemma CastsKeepReaders(c: Config, s: State, e: Event, s': State)
    requires c.shards > 0 && CastSteps(c, s, e, s')
    ensures s'.syncs == s.syncs && s'.queries == s.queries
  {
    hide ShardScript.CastBallot, CastNext;
  }

  lemma RestKeepReaders(c: Config, s: State, e: Event, s': State)
    requires |s.versions| > 0 && (Environment(c, s, e, s') || AdminSteps(c, s, e, s') || FlightSteps(c, s, e, s'))
    ensures s'.syncs == s.syncs && s'.queries == s.queries
  {
    hide FlightNext, AdminNext, Movable, Moved, Origin, SharedTTLFor, LocalTTLFor;
  }

  lemma SyncScanStep(c: Config, s: State, e: Event, s': State, r: Reader)
    requires |s.versions| > 0 && SyncSteps(c, s, e, s') && Started(s, r)
    ensures Started(s', r)
    ensures ScanOf(s', r).Some? ==> ScanOf(s, r).Some?
    ensures ScanOf(s', r).Some? && ScanOf(s', r) != ScanOf(s, r) ==>
      && (e.SyncStep? || e.ReadStep?) && Unread(s, ScanOf(s, r).value, e.shard)
      && ScanOf(s', r).value == ScanShard(s, ScanOf(s, r).value, e.shard)
  {
    hide ScanShard, Settled;
  }

  lemma QueryScanStep(c: Config, s: State, e: Event, s': State, r: Reader)
    requires |s.versions| > 0 && ReadSteps(s, e, s') && Started(s, r)
    ensures Started(s', r)
    ensures ScanOf(s', r).Some? ==> ScanOf(s, r).Some?
    ensures ScanOf(s', r).Some? && ScanOf(s', r) != ScanOf(s, r) ==>
      && (e.SyncStep? || e.ReadStep?) && Unread(s, ScanOf(s, r).value, e.shard)
      && ScanOf(s', r).value == ScanShard(s, ScanOf(s, r).value, e.shard)
  {
    hide ScanShard, Results.Merged;
  }

  // ---- The reads behind a scan ----

  // Shard k was read at state t.
  datatype ReadAt = ReadAt(t: nat, k: nat)

  // Reads of this reader, in this order, before state j.
  ghost predicate ReadTimes(c: Config, states: seq<State>, r: Reader, j: nat, rs: seq<ReadAt>) {
    && j < |states|
    && forall i :: 0 <= i < |rs| ==>
         && rs[i].t < j && (i > 0 ==> rs[i - 1].t < rs[i].t)
         && rs[i].k < |states[rs[i].t].shards| == |states[rs[i].t].epochs| == c.shards
         && Reads(states[rs[i].t], states[rs[i].t + 1], r, rs[i].k)
  }

  function ShardsOf(rs: seq<ReadAt>): set<nat> {
    if rs == [] then {} else ShardsOf(rs[..|rs| - 1]) + {rs[|rs| - 1].k}
  }

  // No shard is read twice.
  predicate Once(rs: seq<ReadAt>) {
    forall i, m :: 0 <= i < m < |rs| ==> rs[i].k != rs[m].k
  }

  // What these reads returned for an option, added up.
  ghost function SumRead(c: Config, states: seq<State>, r: Reader, j: nat, rs: seq<ReadAt>, o: string): nat
    requires ReadTimes(c, states, r, j, rs)
    decreases |rs|
  {
    if rs == [] then 0
    else
      var last := rs[|rs| - 1];
      SumRead(c, states, r, j, rs[..|rs| - 1], o)
      + FieldOf(LiveFields(states[last.t].shards[last.k], states[last.t].now), o)
  }

  ghost predicate SumsOf(c: Config, states: seq<State>, r: Reader, j: nat, rs: seq<ReadAt>, acc: map<string, nat>)
    requires ReadTimes(c, states, r, j, rs)
  {
    && acc.Keys == OptionSet(states[0].poll)
    && forall o :: o in acc ==> acc[o] == SumRead(c, states, r, j, rs, o)
  }

  // The log lengths at the first and the last of these states.
  ghost predicate EndsOf(states: seq<State>, rs: seq<ReadAt>, fromLen: nat, toLen: nat)
    requires forall i :: 0 <= i < |rs| ==> rs[i].t < |states|
  {
    rs != [] ==> fromLen == |states[rs[0].t].log| && toLen == |states[rs[|rs| - 1].t].log|
  }

  ghost predicate Readable(states: seq<State>, x: ReadAt) {
    x.t < |states| && x.k < |states[x.t].shards| && x.k < |states[x.t].epochs|
  }

  // Each shard was whole when it was read.
  ghost predicate AllWhole(states: seq<State>, rs: seq<ReadAt>) {
    forall i :: 0 <= i < |rs| ==> Readable(states, rs[i]) && ShardIntact(states[rs[i].t], rs[i].k)
  }

  // The scan is those reads.
  ghost predicate Traced(c: Config, states: seq<State>, r: Reader, j: nat, rs: seq<ReadAt>, scan: Scan) {
    && ReadTimes(c, states, r, j, rs) && Once(rs) && ShardsOf(rs) == scan.read
    && SumsOf(c, states, r, j, rs, scan.acc)
    && EndsOf(states, rs, scan.fromLen, scan.toLen)
    && (scan.intact <==> AllWhole(states, rs))
  }

  lemma {:induction false} LaterSums(c: Config, states: seq<State>, r: Reader, i: nat, j: nat, rs: seq<ReadAt>,
      o: string)
    requires ReadTimes(c, states, r, i, rs) && i <= j < |states|
    ensures ReadTimes(c, states, r, j, rs) && SumRead(c, states, r, j, rs, o) == SumRead(c, states, r, i, rs, o)
    decreases |rs|
  {
    hide Reads;
    if rs != [] { LaterSums(c, states, r, i, j, rs[..|rs| - 1], o); }
  }

  lemma LaterTrace(c: Config, states: seq<State>, r: Reader, i: nat, j: nat, rs: seq<ReadAt>, scan: Scan)
    requires Traced(c, states, r, i, rs, scan) && i <= j < |states|
    ensures Traced(c, states, r, j, rs, scan)
  {
    hide Reads, SumRead, AllWhole, Once;
    LaterSums(c, states, r, i, j, rs, "");
    forall o { LaterSums(c, states, r, i, j, rs, o); }
  }

  lemma TimesMore(c: Config, states: seq<State>, r: Reader, j: nat, rs: seq<ReadAt>, k: nat)
    requires ReadTimes(c, states, r, j, rs) && j + 1 < |states|
    requires k < |states[j].shards| == |states[j].epochs| == c.shards
    requires Reads(states[j], states[j + 1], r, k)
    ensures ReadTimes(c, states, r, j + 1, rs + [ReadAt(j, k)])
  {
    hide Reads;
  }

  lemma {:induction false} ShardsOfIn(rs: seq<ReadAt>, i: nat)
    requires i < |rs|
    ensures rs[i].k in ShardsOf(rs)
  {
    if i < |rs| - 1 { ShardsOfIn(rs[..|rs| - 1], i); }
  }

  lemma OnceMore(rs: seq<ReadAt>, x: ReadAt)
    requires Once(rs) && x.k !in ShardsOf(rs)
    ensures Once(rs + [x]) && ShardsOf(rs + [x]) == ShardsOf(rs) + {x.k}
  {
    assert (rs + [x])[..|rs|] == rs;
    forall i | 0 <= i < |rs| ensures rs[i].k != x.k { ShardsOfIn(rs, i); }
  }

  lemma SumsMore(c: Config, states: seq<State>, r: Reader, j: nat, rs: seq<ReadAt>, scan: Scan, k: nat)
    requires ReadTimes(c, states, r, j, rs) && j + 1 < |states| && k < |states[j].shards| == |states[j].epochs|
    requires ReadTimes(c, states, r, j + 1, rs + [ReadAt(j, k)]) && SumsOf(c, states, r, j, rs, scan.acc)
    ensures SumsOf(c, states, r, j + 1, rs + [ReadAt(j, k)], ScanShard(states[j], scan, k).acc)
  {
    hide Reads, LiveFields, FieldOf, ShardIntact, ReadTimes;
    var acc', rs' := ScanShard(states[j], scan, k).acc, rs + [ReadAt(j, k)];
    assert rs'[..|rs|] == rs;
    forall o | o in acc' ensures acc'[o] == SumRead(c, states, r, j + 1, rs', o) {
      LaterSums(c, states, r, j, j + 1, rs, o);
    }
  }

  lemma WholeMore(states: seq<State>, rs: seq<ReadAt>, x: ReadAt)
    requires Readable(states, x) && forall i :: 0 <= i < |rs| ==> Readable(states, rs[i])
    ensures AllWhole(states, rs + [x]) <==> AllWhole(states, rs) && ShardIntact(states[x.t], x.k)
  {
    hide ShardIntact;
    var rs' := rs + [x];
    assert rs'[|rs|] == x;
    forall i | 0 <= i < |rs| ensures rs'[i] == rs[i] {}
  }

  // One more shard read, at state j.
  lemma TraceMore(c: Config, states: seq<State>, r: Reader, j: nat, rs: seq<ReadAt>, scan: Scan, k: nat)
    requires Traced(c, states, r, j, rs, scan) && j + 1 < |states|
    requires k < |states[j].shards| == |states[j].epochs| == c.shards && k !in scan.read
    requires Reads(states[j], states[j + 1], r, k)
    ensures Traced(c, states, r, j + 1, rs + [ReadAt(j, k)], ScanShard(states[j], scan, k))
  {
    hide Reads, ShardIntact, LiveFields, SumsOf, AllWhole, Once;
    TimesMore(c, states, r, j, rs, k);
    OnceMore(rs, ReadAt(j, k));
    SumsMore(c, states, r, j, rs, scan, k);
    WholeMore(states, rs, ReadAt(j, k));
  }

  // Every scan of every run is the sum of its shard reads.
  lemma {:induction false} ScanIsReads(c: Config, states: seq<State>, events: seq<Event>, r: Reader, j: nat)
      returns (rs: seq<ReadAt>)
    requires WfConfig(c) && Run(c, states, events) && j < |states| && ScanOf(states[j], r).Some?
    ensures Traced(c, states, r, j, rs, ScanOf(states[j], r).value)
  {
    hide Inv, Step, Init, ScanOf, Started, Traced, ScanShard;
    NoReaderYet(c, states[0], r);
    var s, e, s' := states[j - 1], events[j - 1], states[j];
    assert Step(c, s, e, s');
    if Started(s, r) {
      ScanStep(c, s, e, s', r);
      rs := ScanIsReads(c, states, events, r, j - 1);
      var scan := ScanOf(s, r).value;
      if ScanOf(s', r) == ScanOf(s, r) {
        LaterTrace(c, states, r, j - 1, j, rs, scan);
      } else {
        RunInv(c, states, events, j - 1);
        CountedShards(c, s);
        OneRead(s, scan, e.shard);
        TraceMore(c, states, r, j - 1, rs, scan, e.shard);
        rs := rs + [ReadAt(j - 1, e.shard)];
      }
    } else {
      ScanBegins(c, s, e, s', r);
      RunGrows(c, states, events, 0, j - 1);
      rs := [];
      TraceNone(c, states, r, j, s);
    }
  }

  lemma OneRead(s: State, scan: Scan, k: nat)
    requires Unread(s, scan, k)
    ensures ScanShard(s, scan, k).read == scan.read + {k}
  {
  }

  lemma NoReaderYet(c: Config, s: State, r: Reader)
    requires Init(c, s)
    ensures ScanOf(s, r).None?
  {
  }

  lemma CountedShards(c: Config, s: State)
    requires Inv(c, s)
    ensures |s.shards| == |s.epochs| == c.shards
  {
  }

  lemma TraceNone(c: Config, states: seq<State>, r: Reader, j: nat, s: State)
    requires j < |states| && s.poll == states[0].poll
    ensures Traced(c, states, r, j, [], NewScan(s))
  {
  }

  // ---- The snapshot bracket ----

  lemma ScanHeld(c: Config, s: State, r: Reader)
    requires Inv(c, s) && ScanOf(s, r).Some?
    ensures ScanOk(c, s.poll, s.log, ScanOf(s, r).value)
    ensures LogOk(c, s.versions, s.now, s.log)
  {
    hide ScanOk, VersionsOk, AdminsOk, CacheOk, CastsOk, LogOk, ShardsOk, DedupOk, DurableOk;
    match r
    case SyncReader(id) => assert SyncOk(c, s.poll, s.versions, s.now, s.log, s.durable, s.syncs[id]);
    case QueryReader(id) => assert QueryOk(c, s.poll, s.versions, s.log, s.queries[id]);
  }

  // These are the reads of every shard, each once; the result for an option is the
  // sum of what they found, at most the tally at the last of them, and, if no
  // counter of any shard was gone when that shard was read, at least the tally at
  // the first.
  ghost predicate Brackets(c: Config, states: seq<State>, r: Reader, j: nat, rs: seq<ReadAt>, o: string, votes: nat) {
    && ReadTimes(c, states, r, j, rs) && Once(rs) && ShardsOf(rs) == AllShards(c.shards) && rs != []
    && votes == SumRead(c, states, r, j, rs, o)
    && votes <= Tally(states[rs[|rs| - 1].t].log, o)
    && (AllWhole(states, rs) ==> Tally(states[rs[0].t].log, o) <= votes)
  }

  // Every complete read of any sync or query in any run is so bracketed, in
  // whatever order it read the shards.
  lemma SnapshotBracket(c: Config, states: seq<State>, events: seq<Event>, r: Reader, j: nat, o: string)
    requires WfConfig(c) && Run(c, states, events) && j < |states| && o in OptionSet(states[j].poll)
    requires ScanOf(states[j], r).Some? && ScanOf(states[j], r).value.read == AllShards(c.shards)
    ensures o in ScanOf(states[j], r).value.acc
    ensures exists rs :: Brackets(c, states, r, j, rs, o, ScanOf(states[j], r).value.acc[o])
  {
    hide Inv, Run, ScanOf, SumRead, Reads, AllWhole, ScanOk, LogOk, Once;
    var scan := ScanOf(states[j], r).value;
    var rs := ScanIsReads(c, states, events, r, j);
    assert 0 in AllShards(c.shards);
    RunInv(c, states, events, j);
    ScanHeld(c, states[j], r);
    RunGrows(c, states, events, 0, j);
    ScanBelowTally(c, states[j], scan, o);
    RunGrows(c, states, events, rs[0].t, j);
    RunGrows(c, states, events, rs[|rs| - 1].t, j);
    assert states[j].log[..scan.toLen] == states[rs[|rs| - 1].t].log;
    assert states[j].log[..scan.fromLen] == states[rs[0].t].log;
    assert Brackets(c, states, r, j, rs, o, scan.acc[o]);
  }
}
