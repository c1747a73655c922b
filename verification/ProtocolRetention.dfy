// Counters that nothing but their own deadline can take away: when every counted
// ballot is still in a live hash, and what a caller can check to be sure of it.
module ProtocolRetention {
  import opened Wrappers
  import opened Entity
  import opened ShardScript
  import opened Protocol
  import opened ProtocolInvariant
  import opened ProtocolPreservation
  import opened ProtocolSnapshot
  import opened ProtocolTheorems

  // The server loses no counts hash before its deadline.
  predicate CountersKept(events: seq<Event>) {
    forall i :: 0 <= i < |events| ==> !events[i].LoseCounters?
  }

  // At most this long has passed since the first counted ballot.
  predicate Within(s: State, horizon: nat) {
    s.log == [] || s.now <= s.log[0].at + horizon
  }

  // Until the first ballot's retention is over, every ballot belongs to the
  // current epoch of its shard.
  ghost predicate FirstEpochs(c: Config, now: nat, log: seq<Counted>, shards: seq<Shard>, epochs: seq<Epoch>) {
    |log| > 0 && now < log[0].at + c.retention ==>
      forall i :: 0 <= i < |log| ==>
        && log[i].shard < |shards| == |epochs|
        && shards[log[i].shard].counts.Some? && epochs[log[i].shard].from <= i
  }

  // A hash of such a shard is alive.
  lemma EpochAlive(c: Config, s: State, k: nat)
    requires LogOk(c, s.versions, s.now, s.log) && ShardsOk(c, s.poll, s.log, s.shards, s.epochs) && k < c.shards
    requires |s.log| > 0 && s.now < s.log[0].at + c.retention && s.shards[k].counts.Some?
    ensures s.now < s.shards[k].counts.value.deadline
  {
    hide CountedOk;
    assert ShardOk(c, s.poll, s.log, k, s.shards[k], s.epochs[k]);
  }

  // Before the first ballot's retention is over every shard is whole.
  lemma WholeEarly(c: Config, s: State, k: nat)
    requires Inv(c, s) && FirstEpochs(c, s.now, s.log, s.shards, s.epochs) && k < c.shards
    requires s.log == [] || s.now < s.log[0].at + c.retention
    ensures |s.shards| == |s.epochs| == c.shards && ShardIntact(s, k)
  {
    hide VersionsOk, AdminsOk, CacheOk, CastsOk, LogOk, ShardOk, DedupOk, DurableOk, SyncsOk, QueriesOk;
    ShardCount(c, s);
    if s.log != [] && s.shards[k].counts.Some? { EpochAlive(c, s, k); }
  }

  lemma FirstScript(c: Config, s: State, id: nat, replyLost: bool, s': State)
    requires WfConfig(c) && Inv(c, s) && ScriptMove(c, s, id, replyLost, s')
    requires FirstEpochs(c, s.now, s.log, s.shards, s.epochs)
    ensures FirstEpochs(c, s'.now, s'.log, s'.shards, s'.epochs)
  {
    hide VersionsOk, AdminsOk, CacheOk, CastsOk, LogOk, ShardsOk, DedupOk, DurableOk, SyncsOk, QueriesOk;
    hide Increment, LiveFields, IsBallot, EntryOk, Voted;
    var p := s.casts[id];
    var k := ShardOf(c, p.voter);
    ShardCount(c, s);
    GuardedOk(c, s, id);
    NonEmpty(p.pc.entry.answer.value, p.ballot);
    if s.log != [] && s.now < s.log[0].at + c.retention && s.shards[k].counts.Some? { EpochAlive(c, s, k); }
    EpochsStarted(c, s);
    FirstUpdate(c, s, k, p, s');
  }

  lemma EpochsStarted(c: Config, s: State)
    requires ShardsOk(c, s.poll, s.log, s.shards, s.epochs)
    ensures |s.shards| == |s.epochs| == c.shards
    ensures forall j :: 0 <= j < c.shards && s.shards[j].counts.Some? ==> s.epochs[j].from < |s.log|
  {
    forall j | 0 <= j < c.shards ensures ShardOk(c, s.poll, s.log, j, s.shards[j], s.epochs[j]) {}
  }

  lemma FirstUpdate(c: Config, s: State, k: nat, p: Cast, s': State)
    requires |s.shards| == |s.epochs| == c.shards && k < c.shards && p.ballot != [] && s'.now == s.now
    requires FirstEpochs(c, s.now, s.log, s.shards, s.epochs)
    requires p.pc.CastGuarded?
    requires var live := s.shards[k].counts.Some? && s.now < s.shards[k].counts.value.deadline;
      var (shard, counted) := ShardScript.CastBallot(s.shards[k], s.now, p.voter, p.ballot, c.dedupTTL, c.retention);
      && s'.shards == s.shards[k := shard]
      && s'.epochs == (if counted && !live then s.epochs[k := Epoch(|s.log|, s.now)] else s.epochs)
      && s'.log == (if counted then s.log + [Counted(s.now, p.voter, k, p.ballot, p.pc.entry)] else s.log)
    requires s.log != [] && s.now < s.log[0].at + c.retention && s.shards[k].counts.Some? ==>
      s.now < s.shards[k].counts.value.deadline
    requires forall j :: 0 <= j < c.shards && s.shards[j].counts.Some? ==> s.epochs[j].from < |s.log|
    ensures FirstEpochs(c, s'.now, s'.log, s'.shards, s'.epochs)
  {
    hide Increment, LiveFields, Voted;
  }

  // Every other step leaves log, shards and epochs alone, a loss of counters apart.
  lemma RestFirst(c: Config, s: State, e: Event, s': State)
    requires c.shards > 0 && Step(c, s, e, s') && !CastSteps(c, s, e, s') && !e.LoseCounters?
    ensures s'.log == s.log && s'.shards == s.shards && s'.epochs == s.epochs && s.now <= s'.now
  {
    hide AdminSteps, FlightSteps, CastSteps, SyncSteps, ReadSteps;
    if !Environment(c, s, e, s') { OthersKeepCounters(c, s, e, s'); }
  }

  lemma CastsFirst(c: Config, s: State, e: Event, s': State)
    requires WfConfig(c) && Inv(c, s) && CastSteps(c, s, e, s')
    requires FirstEpochs(c, s.now, s.log, s.shards, s.epochs)
    ensures FirstEpochs(c, s'.now, s'.log, s'.shards, s'.epochs)
  {
    hide Inv, FirstEpochs, ScriptMove, CastNext;
    if e.Script? { FirstScript(c, s, e.id, e.replyLost, s'); }
  }

  lemma {:induction false} RunFirst(c: Config, states: seq<State>, events: seq<Event>, i: nat)
    requires WfConfig(c) && Run(c, states, events) && CountersKept(events) && i < |states|
    ensures var s := states[i]; FirstEpochs(c, s.now, s.log, s.shards, s.epochs)
  {
    hide Inv, Step, CastSteps;
    if i > 0 {
      var s, e, s' := states[i - 1], events[i - 1], states[i];
      assert Step(c, s, e, s');
      RunFirst(c, states, events, i - 1);
      RunInv(c, states, events, i - 1);
      if CastSteps(c, s, e, s') { CastsFirst(c, s, e, s'); } else { RestFirst(c, s, e, s'); }
    }
  }

  // If nothing but its deadline takes a hash away, no scan has met a counter that
  // was gone as long as the first ballot's retention is not over.
  lemma ScansWhole(c: Config, states: seq<State>, events: seq<Event>, r: Reader, j: nat)
    requires WfConfig(c) && Run(c, states, events) && CountersKept(events) && j < |states|
    requires ScanOf(states[j], r).Some?
    requires states[j].log == [] || states[j].now < states[j].log[0].at + c.retention
    ensures ScanOf(states[j], r).value.intact
  {
    hide Run, ScanOf, Inv, Reads, ShardIntact, FirstEpochs, SumsOf;
    var rs := ScanIsReads(c, states, events, r, j);
    forall i | 0 <= i < |rs| ensures ShardIntact(states[rs[i].t], rs[i].k) {
      var t := rs[i].t;
      RunGrows(c, states, events, t, j);
      RunInv(c, states, events, t);
      RunFirst(c, states, events, t);
      WholeEarly(c, states[t], rs[i].k);
    }
  }

  // Sync id has untracked the finished poll.
  predicate Untracked(s: State, id: nat) {
    id in s.syncs && s.syncs[id].pc.SyncUntracked?
  }

  // With a safe settle window, and the poll untracked within a horizon of its
  // first ballot that is shorter than the retention, no vote is lost: the durable
  // counts are and stay exact.
  lemma NoLostVoteWithin(c: Config, horizon: nat, states: seq<State>, events: seq<Event>, i: nat, j: nat, id: nat)
    requires WfConfig(c) && SettleSafe(c) && horizon < c.retention
    requires Run(c, states, events) && CountersKept(events) && i <= j < |states|
    requires Untracked(states[i], id) && Within(states[i], horizon)
    ensures Exact(states[j]) && states[j].log == states[i].log && states[j].durable == states[i].durable
  {
    hide Run, Exact, SettleSafe, CountersKept;
    ScansWhole(c, states, events, SyncReader(id), i);
    NoLostVote(c, states, events, i, j, id);
  }
}
