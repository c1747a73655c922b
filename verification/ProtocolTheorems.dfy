// What every run of the protocol guarantees.
module ProtocolTheorems {
  import opened Wrappers
  import opened Entity
  import opened ShardScript
  import opened Repository
  import opened Results
  import opened Protocol
  import opened ProtocolTally
  import opened ProtocolInvariant
  import opened ProtocolPreservation

  // ---- Staleness ----

  // The origin would have given this answer at instant t.
  ghost predicate Answered(versions: seq<Version>, t: nat, answer: Option<Poll>) {
    exists v :: 0 <= v < |versions| && versions[v].answer == answer && versions[v].at <= t
             && (v + 1 < |versions| ==> t <= versions[v + 1].at)
  }

  // How old an answer Poll may serve: both lifetimes of its kind (a miss lives
  // for NegativeTTL, then for the smaller of NegativeTTL and LocalTTL) and one
  // request timeout each for the fill that wrote the shared entry, the fill that
  // copied it to a replica, and the request that serves it.
  function StalenessBound(c: Config, answer: Option<Poll>): nat {
    if answer.None? then
      c.negativeTTL + (if c.negativeTTL < c.localTTL then c.negativeTTL else c.localTTL) + 3 * c.requestTimeout
    else c.sharedTTL + c.localTTL + 3 * c.requestTimeout
  }

  // Whatever fills, invalidations, failed deletes and evictions race, the answer
  // Poll serves at this step was the origin's answer at an instant t closer than
  // the bound; a local hit spares the last request timeout.
  lemma ServedFresh(c: Config, states: seq<State>, events: seq<Event>, i: nat, id: nat)
    requires WfConfig(c) && Run(c, states, events) && i < |events| && events[i] == CastStep(id)
    requires id in states[i].casts
    requires states[i].casts[id].pc.CastBegin? || states[i].casts[id].pc.CastWaiting?
    ensures states[i + 1].casts[id].pc.CastLoaded?
    ensures var answer, now := states[i + 1].casts[id].pc.entry.answer, states[i].now;
      exists t: nat :: t <= now < t + StalenessBound(c, answer) && Answered(states[i].versions, t, answer)
        && (states[i].casts[id].pc.CastBegin? ==> now < t + StalenessBound(c, answer) - c.requestTimeout)
  {
    RunInv(c, states, events, i);
    assert Step(c, states[i], events[i], states[i + 1]);
    ServedAtStep(c, states[i], id, states[i + 1]);
  }

  lemma ServedAtStep(c: Config, s: State, id: nat, s': State)
    requires Inv(c, s) && CastMove(c, s, id, s') && (s.casts[id].pc.CastBegin? || s.casts[id].pc.CastWaiting?)
    ensures s'.casts[id].pc.CastLoaded?
    ensures var e := s'.casts[id].pc.entry;
      && e.readAt <= s.now < e.readAt + StalenessBound(c, e.answer)
      && Answered(s.versions, e.readAt, e.answer)
      && (s.casts[id].pc.CastBegin? ==> s.now < e.readAt + StalenessBound(c, e.answer) - c.requestTimeout)
  {
    hide VersionsOk, AdminsOk, LogOk, ShardsOk, DedupOk, DurableOk, SyncsOk, QueriesOk;
    CastNextOk(c, s, id);
    assert CastOk(c, s.versions, s.now, s.casts[id]);
  }

  // ---- What never goes back ----

  // The log, the origin's history and the durable counts only grow; a finished
  // sync or query keeps its outcome; a new query begins at the current log.
  ghost predicate Grows(s: State, s': State) {
    && s'.poll == s.poll
    && s.now <= s'.now
    && s.log <= s'.log
    && s.versions <= s'.versions
    && (forall o :: o in s.durable ==> o in s'.durable && s.durable[o] <= s'.durable[o])
    && (forall y :: y in s.syncs && s.syncs[y].pc.SyncUntracked? ==> y in s'.syncs && s'.syncs[y] == s.syncs[y])
    && (forall q :: q in s.queries && s.queries[q].pc.ReadDone? ==> q in s'.queries && s'.queries[q] == s.queries[q])
    && (forall q :: q in s.queries ==> q in s'.queries && s'.queries[q].begun == s.queries[q].begun)
    && (forall q :: q in s'.queries && q !in s.queries ==> |s.log| <= s'.queries[q].begun)
  }

  lemma SyncGrows(c: Config, s: State, e: Event, s': State)
    requires |s.versions| > 0 && SyncSteps(c, s, e, s')
    ensures Grows(s, s')
  {
    hide Settled, ScanShard;
  }

  lemma QueryGrows(s: State, e: Event, s': State)
    requires |s.versions| > 0 && ReadSteps(s, e, s')
    ensures Grows(s, s')
  {
    hide ScanShard, Merged, OptionSet;
  }

  lemma EnvironmentGrows(c: Config, s: State, e: Event, s': State)
    requires |s.versions| > 0 && Environment(c, s, e, s') && DurableOk(s.poll, s.versions, s.log, s.durable)
    ensures Grows(s, s')
  {
  }

  lemma ActorGrows(c: Config, s: State, e: Event, s': State)
    requires |s.versions| > 0
    requires AdminSteps(c, s, e, s') || FlightSteps(c, s, e, s')
    ensures Grows(s, s')
  {
    hide Movable, AdminNext, FlightNext, Origin, Moved, LocalTTLFor, SharedTTLFor;
  }

  lemma CastGrows(c: Config, s: State, e: Event, s': State)
    requires c.shards > 0 && CastSteps(c, s, e, s')
    ensures Grows(s, s')
  {
    hide ShardScript.CastBallot, CastNext;
  }

  lemma StepGrows(c: Config, s: State, e: Event, s': State)
    requires c.shards > 0 && Step(c, s, e, s') && DurableOk(s.poll, s.versions, s.log, s.durable)
    ensures Grows(s, s')
  {
    hide Grows, DurableOk, Environment, AdminSteps, FlightSteps, CastSteps, SyncSteps, ReadSteps;
    if CastSteps(c, s, e, s') {
      CastGrows(c, s, e, s');
    } else if SyncSteps(c, s, e, s') {
      SyncGrows(c, s, e, s');
    } else if ReadSteps(s, e, s') {
      QueryGrows(s, e, s');
    } else if Environment(c, s, e, s') {
      EnvironmentGrows(c, s, e, s');
    } else {
      ActorGrows(c, s, e, s');
    }
  }

  lemma {:induction false} RunGrows(c: Config, states: seq<State>, events: seq<Event>, i: nat, j: nat)
    requires WfConfig(c) && Run(c, states, events) && i <= j < |states|
    ensures Grows(states[i], states[j])
  {
    hide Inv, Step, Init;
    if i < j {
      RunGrows(c, states, events, i, j - 1);
      RunInv(c, states, events, j - 1);
      DurableOf(c, states[j - 1]);
      StepGrows(c, states[j - 1], events[j - 1], states[j]);
    }
  }

  lemma DurableOf(c: Config, s: State)
    requires Inv(c, s)
    ensures DurableOk(s.poll, s.versions, s.log, s.durable)
  {
  }

  // ---- No vote is lost at settle ----

  // The settle window covers every way a vote can still be on its way: the
  // finishing request, the two fills and the casting request (one request
  // timeout each), both cache lifetimes, and the sync itself.
  predicate SettleSafe(c: Config) {
    c.settleAfter >= c.sharedTTL + c.localTTL + 4 * c.requestTimeout + c.syncTimeout
  }

  // Each durable count equals the number of counted ballots selecting the option.
  ghost predicate Exact(s: State) {
    && s.durable.Keys == OptionSet(s.poll)
    && forall o :: o in s.durable ==> s.durable[o] == Tally(s.log, o)
  }

  // Sync id has untracked the settled poll, and no counter it read had expired or been lost.
  predicate UntrackedClean(s: State, id: nat) {
    id in s.syncs && s.syncs[id].pc.SyncUntracked? && s.syncs[id].pc.scan.intact
  }

  // Once the poll is finished, every ballot was counted before this instant.
  lemma BallotsEnd(c: Config, s: State, poll: Poll, i: nat)
    requires Inv(c, s) && LoadedFrom(s.versions, poll) && poll.status == Finished && poll.finishedAt.Some?
    requires i < |s.log|
    ensures s.log[i].at < poll.finishedAt.value + c.sharedTTL + c.localTTL + 4 * c.requestTimeout
  {
    hide AdminsOk, CacheOk, CastsOk, ShardsOk, DedupOk, DurableOk, SyncsOk, QueriesOk;
    var x := s.log[i];
    assert CountedOk(c, s.versions, s.now, x);
    var v :| 0 <= v < |s.versions| && s.versions[v].answer == Some(poll);
    assert VersionOk(c, s.poll, s.versions[v]);
    var w := x.entry.version;
    assert AnswerRank(s.versions[w].answer) < AnswerRank(s.versions[v].answer);
    assert w < v;
    assert x.entry.readAt <= s.versions[w + 1].at <= s.versions[v].at;
  }

  // A settled sync read its counters after the last ballot, so its scan is exact.
  lemma SettledExact(c: Config, s: State, id: nat)
    requires WfConfig(c) && Inv(c, s) && SettleSafe(c) && UntrackedClean(s, id)
    ensures Exact(s) && s.syncs[id].pc.scan.fromLen == |s.log|
  {
    hide VersionsOk, AdminsOk, CacheOk, CastsOk, LogOk, ShardsOk, DedupOk, QueriesOk, LoadedFrom;
    var y := s.syncs[id];
    var scan := y.pc.scan;
    assert SyncOk(c, s.poll, s.versions, s.now, s.log, s.durable, y);
    if scan.fromLen < |s.log| {
      BallotsEnd(c, s, y.pc.poll, scan.fromLen);
      assert false;
    }
    forall o | o in s.durable ensures s.durable[o] == Tally(s.log, o) {
      ScanBelowTally(c, s, scan, o);
      assert s.log[..|s.log|] == s.log;
    }
  }

  // In a run with a safe settle window, from the state in which a sync has
  // untracked the finished poll on, no ballot is counted and the durable counts
  // are and stay exact.
  lemma NoLostVote(c: Config, states: seq<State>, events: seq<Event>, i: nat, j: nat, id: nat)
    requires WfConfig(c) && SettleSafe(c) && Run(c, states, events) && i <= j < |states|
    requires UntrackedClean(states[i], id)
    ensures Exact(states[j]) && states[j].log == states[i].log && states[j].durable == states[i].durable
  {
    hide Inv, Step, Exact;
    RunInv(c, states, events, i);
    RunInv(c, states, events, j);
    RunGrows(c, states, events, i, j);
    SettledExact(c, states[i], id);
    SettledExact(c, states[j], id);
    SameCounts(states[i], states[j]);
  }

  lemma SameCounts(s: State, s': State)
    requires Exact(s) && Exact(s') && s.log == s'.log && s.poll == s'.poll
    ensures s.durable == s'.durable
  {
  }

  // ---- Never over-reports ----

  lemma {:induction false} SumFieldBounds(c: Config, s: State, k: nat, o: string)
    requires ShardsOk(c, s.poll, s.log, s.shards, s.epochs) && k <= c.shards
    ensures SumField(s.shards[..k], s.now, o) <= CountVotes(s.log, 0, AllShards(k), o)
    ensures (forall j :: 0 <= j < k ==> ShardIntact(s, j)) ==>
      SumField(s.shards[..k], s.now, o) == CountVotes(s.log, 0, AllShards(k), o)
  {
    ShardCount(c, s);
    hide ShardsOk, ShardIntact, CountVotes, LiveFields, FieldOf;
    if k == 0 {
      assert AllShards(0) == {};
      CountEmpty(s.log, 0, o);
    } else {
      SumFieldBounds(c, s, k - 1, o);
      ShardReadBounds(c, s, k - 1, o);
      CountSplit(s.log, 0, AllShards(k - 1), k - 1, o);
      assert AllShards(k) == AllShards(k - 1) + {k - 1};
      assert s.shards[..k][..k - 1] == s.shards[..k - 1];
    }
  }

  // In every reachable state, whatever counters expired or were lost and
  // whichever steps failed: the live sums and the durable counts are at most
  // the true tally; the live sums equal it while no counter is gone.
  lemma NeverOverReports(c: Config, states: seq<State>, events: seq<Event>, i: nat, o: string)
    requires WfConfig(c) && Run(c, states, events) && i < |states|
    ensures var s := states[i];
      && |s.shards| == |s.epochs| == c.shards
      && SumField(s.shards, s.now, o) <= Tally(s.log, o)
      && VotesOf(s.durable, o) <= Tally(s.log, o)
      && ((forall k :: 0 <= k < c.shards ==> ShardIntact(s, k)) ==> SumField(s.shards, s.now, o) == Tally(s.log, o))
  {
    RunInv(c, states, events, i);
    TallyBounds(c, states[i], o);
  }

  lemma TallyBounds(c: Config, s: State, o: string)
    requires c.shards > 0 && Inv(c, s)
    ensures |s.shards| == |s.epochs| == c.shards
    ensures SumField(s.shards, s.now, o) <= Tally(s.log, o)
    ensures VotesOf(s.durable, o) <= Tally(s.log, o)
    ensures (forall k :: 0 <= k < c.shards ==> ShardIntact(s, k)) ==> SumField(s.shards, s.now, o) == Tally(s.log, o)
  {
    hide VersionsOk, AdminsOk, CacheOk, CastsOk, LogOk, ShardOk, DedupOk, SyncsOk, QueriesOk, ShardIntact;
    SumFieldBounds(c, s, c.shards, o);
    assert s.shards[..c.shards] == s.shards;
    LogShards(c, s);
    CountAll(s.log, AllShards(c.shards), o);
  }

  // Durable counts never decrease along a run.
  lemma DurableNeverDecreases(c: Config, states: seq<State>, events: seq<Event>, i: nat, j: nat, o: string)
    requires WfConfig(c) && Run(c, states, events) && i <= j < |states|
    ensures VotesOf(states[i].durable, o) <= VotesOf(states[j].durable, o)
  {
    RunGrows(c, states, events, i, j);
  }

  // ---- Results ----

  // A finished Results call reports at most the tally at its end and at least
  // the durable row it read; if its live read met no expired or lost counter,
  // at least the tally when it began.
  lemma ResultsBracket(c: Config, states: seq<State>, events: seq<Event>, i: nat, id: nat, o: string)
    requires WfConfig(c) && Run(c, states, events) && i < |states|
    requires id in states[i].queries && states[i].queries[id].pc.ReadDone? && o in OptionSet(states[i].poll)
    ensures var s, q := states[i], states[i].queries[id];
      && q.begun <= |s.log| && q.pc.ended <= |s.log| && o in q.pc.counts
      && q.pc.counts[o] <= Tally(s.log[..q.pc.ended], o)
      && (q.pc.durable.Some? ==> VotesOf(q.pc.durable.value, o) <= q.pc.counts[o])
      && (q.pc.live.Some? && q.pc.live.value.intact ==> Tally(s.log[..q.begun], o) <= q.pc.counts[o])
  {
    RunInv(c, states, events, i);
    hide VersionsOk, AdminsOk, CacheOk, CastsOk, LogOk, ShardsOk, DedupOk, DurableOk, SyncsOk;
    assert QueryOk(c, states[i].poll, states[i].versions, states[i].log, states[i].queries[id]);
  }

  // A Results call that begins after another ended never shows a smaller count,
  // provided its own live read is available and whole.
  lemma ResultsNonDecreasing(c: Config, states: seq<State>, events: seq<Event>, i: nat, j: nat, first: nat,
      second: nat, o: string)
    requires WfConfig(c) && Run(c, states, events) && i <= j < |states| && o in OptionSet(states[i].poll)
    requires first in states[i].queries && states[i].queries[first].pc.ReadDone?
    requires second !in states[i].queries
    requires second in states[j].queries && states[j].queries[second].pc.ReadDone?
    requires states[j].queries[second].pc.live.Some? && states[j].queries[second].pc.live.value.intact
    ensures o in states[i].queries[first].pc.counts && o in states[j].queries[second].pc.counts
    ensures states[i].queries[first].pc.counts[o] <= states[j].queries[second].pc.counts[o]
  {
    hide Inv, Step;
    RunGrows(c, states, events, i, j);
    ResultsBracket(c, states, events, i, first, o);
    ResultsBracket(c, states, events, j, second, o);
    var ended, begun := states[i].queries[first].pc.ended, states[j].queries[second].begun;
    assert states[i].log[..ended] == states[j].log[..begun][..ended];
    CountPrefix(states[j].log[..begun], ended, 0, {}, o);
  }

  // ---- Deduplication ----

  // Two counted ballots of one voter are at least DedupTTL apart, whatever
  // retries, lost replies and races produced them.
  lemma VotesApart(c: Config, states: seq<State>, events: seq<Event>, i: nat, a: nat, b: nat)
    requires WfConfig(c) && Run(c, states, events) && i < |states|
    requires a < b < |states[i].log| && states[i].log[a].voter == states[i].log[b].voter
    ensures states[i].log[a].at + c.dedupTTL <= states[i].log[b].at
    ensures states[i].log[a].shard == states[i].log[b].shard
  {
    RunInv(c, states, events, i);
    hide VersionsOk, AdminsOk, CacheOk, CastsOk, ShardsOk, DurableOk, SyncsOk, QueriesOk, LogOk;
    LogShards(c, states[i]);
  }

  // ---- Counter epochs ----

  // A counts hash expires exactly retention after the ballot that created it,
  // however many ballots followed, and its fields count the ballots of its
  // shard from that one on.
  lemma CounterEpoch(c: Config, states: seq<State>, events: seq<Event>, i: nat, k: nat)
    requires WfConfig(c) && Run(c, states, events) && i < |states| && k < c.shards
    requires |states[i].shards| == |states[i].epochs| == c.shards && states[i].shards[k].counts.Some?
    ensures var s, from := states[i], states[i].epochs[k].from;
      && from < |s.log| && s.log[from].shard == k
      && s.shards[k].counts.value.deadline == s.log[from].at + c.retention
      && s.shards[k].counts.value.fields.Keys <= OptionSet(s.poll)
      && forall o :: FieldOf(s.shards[k].counts.value.fields, o) == CountVotes(s.log, from, {k}, o)
  {
    RunInv(c, states, events, i);
    hide VersionsOk, AdminsOk, CacheOk, CastsOk, LogOk, DedupOk, DurableOk, SyncsOk, QueriesOk;
    assert ShardOk(c, states[i].poll, states[i].log, k, states[i].shards[k], states[i].epochs[k]);
  }
}
