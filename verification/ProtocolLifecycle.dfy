// Lifecycle, ballot validity and untracking over every run of the protocol.
module ProtocolLifecycle {
  import opened Wrappers
  import opened Entity
  import opened Repository
  import opened Protocol
  import opened ProtocolTally
  import opened ProtocolInvariant
  import opened ProtocolPreservation
  import opened ProtocolTheorems

  // ---- Lifecycle ----

  // The origin's history climbs strictly from "no poll" through draft, active
  // and finished; content never changes; finished_at is set exactly on the
  // finished version, which is the last and stays so.
  lemma StatusHistory(c: Config, states: seq<State>, events: seq<Event>, i: nat, j: nat)
    requires WfConfig(c) && Run(c, states, events) && i <= j < |states|
    ensures var vs := states[j].versions;
      && |vs| > 0 && vs[0].answer.None?
      && states[i].versions <= vs
      && (forall a, b :: 0 <= a < b < |vs| ==> AnswerRank(vs[a].answer) < AnswerRank(vs[b].answer))
      && (forall a :: 0 <= a < |vs| && vs[a].answer.Some? ==>
            && SameContent(states[0].poll, vs[a].answer.value)
            && (vs[a].answer.value.status == Finished <==> vs[a].answer.value.finishedAt.Some?)
            && (vs[a].answer.value.status == Finished ==> a == |vs| - 1))
    ensures |states[i].versions| > 0 && AnswerRank(Origin(states[i])) == 3 ==> states[j].versions == states[i].versions
  {
    hide Inv, Step, Init;
    RunInv(c, states, events, j);
    RunInv(c, states, events, i);
    RunGrows(c, states, events, i, j);
    RunGrows(c, states, events, 0, j);
    Climbs(c, states[j], states[i]);
  }

  lemma Climbs(c: Config, s: State, earlier: State)
    requires Inv(c, s) && Inv(c, earlier) && earlier.versions <= s.versions
    ensures var vs := s.versions;
      && |vs| > 0 && vs[0].answer.None?
      && (forall a, b :: 0 <= a < b < |vs| ==> AnswerRank(vs[a].answer) < AnswerRank(vs[b].answer))
      && (forall a :: 0 <= a < |vs| && vs[a].answer.Some? ==>
            && SameContent(s.poll, vs[a].answer.value)
            && (vs[a].answer.value.status == Finished <==> vs[a].answer.value.finishedAt.Some?)
            && (vs[a].answer.value.status == Finished ==> a == |vs| - 1))
    ensures |earlier.versions| > 0 && (AnswerRank(Origin(earlier)) == 3 ==> s.versions == earlier.versions)
  {
    hide AdminsOk, CacheOk, CastsOk, LogOk, ShardsOk, DedupOk, DurableOk, SyncsOk, QueriesOk;
    forall a | 0 <= a < |s.versions| ensures VersionOk(c, s.poll, s.versions[a]) {}
    forall a | 0 <= a < |s.versions| - 1 ensures AnswerRank(s.versions[a].answer) < 3 {
      assert AnswerRank(s.versions[a].answer) < AnswerRank(s.versions[a + 1].answer);
    }
  }

  // A conditional update that matched its row.
  ghost predicate Succeeds(s: State, e: Event, target: PollStatus) {
    && |s.versions| > 0 && e.AdminStep? && e.id in s.admins
    && s.admins[e.id].pc.AdminUpdate? && s.admins[e.id].target == target && Movable(s, target)
  }

  lemma UpdateEffect(c: Config, s: State, e: Event, s': State, target: PollStatus)
    requires c.shards > 0 && Step(c, s, e, s') && Succeeds(s, e, target)
    ensures |s'.versions| > 0 && AnswerRank(Origin(s')) == Rank(target)
  {
  }

  // Whatever requests race, successive successful transitions have rising
  // targets: at most one Activate and one Finish of a poll ever succeed, and no
  // Activate after a Finish.
  lemma TransitionsRise(c: Config, states: seq<State>, events: seq<Event>, a: nat, b: nat, first: PollStatus,
      second: PollStatus)
    requires WfConfig(c) && Run(c, states, events) && a < b < |events|
    requires Succeeds(states[a], events[a], first) && Succeeds(states[b], events[b], second)
    ensures Rank(first) < Rank(second)
  {
    hide Inv, Init, Step;
    assert Step(c, states[a], events[a], states[a + 1]);
    UpdateEffect(c, states[a], events[a], states[a + 1], first);
    StatusHistory(c, states, events, a + 1, b);
    var vs := states[b].versions;
    var at := |states[a + 1].versions| - 1;
    assert AnswerRank(vs[at].answer) == Rank(first);
    assert AnswerRank(vs[at].answer) <= AnswerRank(vs[|vs| - 1].answer);
    RunInv(c, states, events, b);
    AdminTarget(c, states[b], events[b].id);
  }

  lemma AdminTarget(c: Config, s: State, id: nat)
    requires Inv(c, s) && id in s.admins
    ensures s.admins[id].target != Draft
  {
    assert AdminOk(s.poll, s.versions, s.now, s.admins[id]);
  }

  // The poll an Activate or Finish returns is at or past the requested status.
  lemma TransitionReturns(c: Config, states: seq<State>, events: seq<Event>, i: nat, id: nat)
    requires WfConfig(c) && Run(c, states, events) && i < |states|
    requires id in states[i].admins && states[i].admins[id].pc.AdminDone?
    ensures var a := states[i].admins[id];
      Rank(a.target) <= Rank(a.pc.poll.status) && SameContent(states[i].poll, a.pc.poll)
  {
    RunInv(c, states, events, i);
    hide VersionsOk, CacheOk, CastsOk, LogOk, ShardsOk, DedupOk, DurableOk, SyncsOk, QueriesOk;
    assert AdminOk(states[i].poll, states[i].versions, states[i].now, states[i].admins[id]);
  }

  // ---- Untracking ----

  // The last step of a sync that loaded the poll finished, found it settled, and
  // has all its counters in the durable row.
  ghost predicate SettlingStep(c: Config, s: State, e: Event, s': State) {
    && e.SyncStep? && e.id in s.syncs && s.syncs[e.id].pc.SyncSettled?
    && var pc := s.syncs[e.id].pc;
    && pc.poll.status == Finished && LoadedFrom(s.versions, pc.poll) && Settled(c, pc.poll, s.now)
    && pc.scan.read == AllShards(c.shards) && Absorbed(s'.durable, pc.scan)
  }

  // An existing poll leaves the tracked set only at such a step.
  lemma UntrackedOnlySettled(c: Config, states: seq<State>, events: seq<Event>, i: nat)
    requires WfConfig(c) && Run(c, states, events) && i < |events|
    ensures states[i].tracked && !states[i + 1].tracked ==> SettlingStep(c, states[i], events[i], states[i + 1])
  {
    hide Init, Inv, SettlingStep;
    RunInv(c, states, events, i);
    if states[i].tracked && !states[i + 1].tracked { UntrackStep(c, states[i], events[i], states[i + 1]); }
  }

  lemma UntrackStep(c: Config, s: State, e: Event, s': State)
    requires WfConfig(c) && Inv(c, s) && Step(c, s, e, s') && s.tracked && !s'.tracked
    ensures SettlingStep(c, s, e, s')
  {
    hide VersionsOk, AdminsOk, CacheOk, CastsOk, LogOk, ShardsOk, DedupOk, DurableOk, QueriesOk;
    hide LoadedFrom, ScanOk, ScanAfter, Absorbed;
    OnlySyncUntracks(c, s, e, s');
    assert SyncOk(c, s.poll, s.versions, s.now, s.log, s.durable, s.syncs[e.id]);
  }

  lemma OthersKeepTracked(c: Config, s: State, e: Event, s': State)
    requires c.shards > 0 && |s.versions| > 0
    requires Environment(c, s, e, s') || AdminSteps(c, s, e, s') || FlightSteps(c, s, e, s')
    ensures s.tracked ==> s'.tracked
  {
    hide AdminNext, FlightNext;
  }

  lemma RequestsKeepTracked(c: Config, s: State, e: Event, s': State)
    requires c.shards > 0 && |s.versions| > 0 && (CastSteps(c, s, e, s') || ReadSteps(s, e, s'))
    ensures s.tracked ==> s'.tracked
  {
    hide CastNext, QueryNext, ShardScript.CastBallot;
  }

  lemma OnlySyncUntracks(c: Config, s: State, e: Event, s': State)
    requires c.shards > 0 && Step(c, s, e, s') && s.tracked && !s'.tracked
    ensures e.SyncStep? && e.id in s.syncs && SyncMove(c, s, e.id, e.shard, s') && s'.durable == s.durable
    ensures s.syncs[e.id].pc.SyncSettled? || s.syncs[e.id].pc.SyncMissing?
  {
    hide Environment, AdminSteps, FlightSteps, CastSteps, ReadSteps, ScanShard, Settled;
    if Environment(c, s, e, s') || AdminSteps(c, s, e, s') || FlightSteps(c, s, e, s') {
      OthersKeepTracked(c, s, e, s');
    } else if CastSteps(c, s, e, s') || ReadSteps(s, e, s') {
      RequestsKeepTracked(c, s, e, s');
    }
  }

  // ---- Ballots ----

  // Every counted ballot is valid for the poll as created, however stale the
  // copy that admitted it, and that copy differs in status and finished_at only.
  lemma CountedBallotsValid(c: Config, states: seq<State>, events: seq<Event>, i: nat, n: nat)
    requires WfConfig(c) && Run(c, states, events) && i < |states| && n < |states[i].log|
    ensures var x := states[i].log[n];
      && IsBallot(states[i].poll, x.ballot)
      && x.entry.answer.Some? && SameContent(states[i].poll, x.entry.answer.value)
  {
    RunInv(c, states, events, i);
    BallotValid(c, states[i], n);
  }

  lemma BallotValid(c: Config, s: State, n: nat)
    requires Inv(c, s) && n < |s.log|
    ensures var x := s.log[n];
      IsBallot(s.poll, x.ballot) && x.entry.answer.Some? && SameContent(s.poll, x.entry.answer.value)
  {
    hide AdminsOk, CacheOk, CastsOk, ShardsOk, DedupOk, DurableOk, SyncsOk, QueriesOk, IsBallot;
    assert CountedOk(c, s.versions, s.now, s.log[n]);
    AdmittedBallot(c, s, s.log[n].entry, s.log[n].ballot);
    assert VersionOk(c, s.poll, s.versions[s.log[n].entry.version]);
  }

  // A ballot is counted only while the poll is open, or was when its request began:
  // it lies in the voting window up to one request timeout, and the origin said
  // the poll was active less than the staleness bound before.
  lemma CountedWhileOpen(c: Config, states: seq<State>, events: seq<Event>, i: nat, n: nat)
    requires WfConfig(c) && Run(c, states, events) && i < |states| && n < |states[i].log|
    ensures var poll, at := states[i].poll, states[i].log[n].at;
      && (poll.startsAt.Some? ==> poll.startsAt.value <= at)
      && (poll.endsAt.Some? ==> at < poll.endsAt.value + c.requestTimeout)
    ensures exists t: nat, copy ::
      && Answered(states[i].versions, t, Some(copy)) && copy.status == Active
      && t <= states[i].log[n].at < t + c.sharedTTL + c.localTTL + 3 * c.requestTimeout
  {
    RunInv(c, states, events, i);
    OpenAtCount(c, states[i], n);
  }

  lemma OpenAtCount(c: Config, s: State, n: nat)
    requires Inv(c, s) && n < |s.log|
    ensures var poll, at := s.poll, s.log[n].at;
      && (poll.startsAt.Some? ==> poll.startsAt.value <= at)
      && (poll.endsAt.Some? ==> at < poll.endsAt.value + c.requestTimeout)
    ensures exists t: nat, copy ::
      && Answered(s.versions, t, Some(copy)) && copy.status == Active
      && t <= s.log[n].at < t + c.sharedTTL + c.localTTL + 3 * c.requestTimeout
  {
    hide AdminsOk, CacheOk, CastsOk, ShardsOk, DedupOk, DurableOk, SyncsOk, QueriesOk, IsBallot;
    var x := s.log[n];
    assert CountedOk(c, s.versions, s.now, x);
    assert VersionOk(c, s.poll, s.versions[x.entry.version]);
    CountedBefore(c, s, n);
    assert Answered(s.versions, x.entry.readAt, Some(x.entry.answer.value));
  }

  lemma CountedBefore(c: Config, s: State, n: nat)
    requires LogOk(c, s.versions, s.now, s.log) && n < |s.log|
    ensures s.log[n].entry.readAt <= s.now
    ensures s.log[n].entry.readAt <= s.log[n].at
  {
    hide IsBallot;
    assert CountedOk(c, s.versions, s.now, s.log[n]);
  }

  // The tallies of the options, summed.
  function TotalTally(log: seq<Counted>, ids: seq<string>): nat {
    if ids == [] then 0 else TotalTally(log, ids[..|ids| - 1]) + Tally(log, ids[|ids| - 1])
  }

  function Overlap(ids: seq<string>, ballot: seq<string>): nat {
    if ids == [] then 0 else Overlap(ids[..|ids| - 1], ballot) + Bit(ids[|ids| - 1] in ballot)
  }

  lemma {:induction false} TotalAppend(log: seq<Counted>, x: Counted, ids: seq<string>)
    ensures TotalTally(log + [x], ids) == TotalTally(log, ids) + Overlap(ids, x.ballot)
  {
    if ids != [] {
      TotalAppend(log, x, ids[..|ids| - 1]);
      CountAppend(log, x, 0, {}, ids[|ids| - 1]);
    }
  }

  function SetOf(ids: seq<string>): set<string> { set id | id in ids }

  lemma SetOfMore(ids: seq<string>)
    requires ids != []
    ensures SetOf(ids) == SetOf(ids[..|ids| - 1]) + {ids[|ids| - 1]}
  {
    assert forall id :: id in ids <==> id in ids[..|ids| - 1] || id == ids[|ids| - 1];
  }

  lemma OneMoreCommon(a: set<string>, b: set<string>, x: string)
    requires x !in a
    ensures |(a + {x}) * b| == |a * b| + Bit(x in b)
  {
    assert (a + {x}) * b == if x in b then a * b + {x} else a * b;
  }

  lemma {:induction false} OverlapSize(ids: seq<string>, ballot: seq<string>)
    requires Distinct(ids)
    ensures Overlap(ids, ballot) == |SetOf(ids) * SetOf(ballot)|
  {
    if ids != [] {
      var init, last := ids[..|ids| - 1], ids[|ids| - 1];
      OverlapSize(init, ballot);
      SetOfMore(ids);
      assert last !in SetOf(init) && (last in SetOf(ballot) <==> last in ballot);
      hide SetOf;
      OneMoreCommon(SetOf(init), SetOf(ballot), last);
    }
  }

  lemma {:induction false} DistinctSize(ballot: seq<string>)
    requires Distinct(ballot)
    ensures |SetOf(ballot)| == |ballot|
  {
    if ballot != [] {
      DistinctSize(ballot[..|ballot| - 1]);
      SetOfMore(ballot);
    }
  }

  // A valid ballot adds one to as many options as it selects.
  lemma BallotOverlap(poll: Poll, ballot: seq<string>)
    requires Distinct(OptionIDs(poll)) && IsBallot(poll, ballot)
    ensures 1 <= Overlap(OptionIDs(poll), ballot) == |ballot| <= EffectiveMaxChoices(poll)
  {
    var ids := OptionIDs(poll);
    OverlapSize(ids, ballot);
    DistinctSize(ballot);
    assert SetOf(ids) * SetOf(ballot) == SetOf(ballot);
  }

  lemma {:induction false} TotalBounds(poll: Poll, log: seq<Counted>)
    requires Distinct(OptionIDs(poll)) && forall n :: 0 <= n < |log| ==> IsBallot(poll, log[n].ballot)
    ensures |log| <= TotalTally(log, OptionIDs(poll)) <= EffectiveMaxChoices(poll) * |log|
  {
    hide OptionIDs, Distinct, IsBallot, Overlap, EffectiveMaxChoices;
    var ids := OptionIDs(poll);
    if log == [] {
      TotalEmpty(ids);
    } else {
      var init, x := log[..|log| - 1], log[|log| - 1];
      assert log == init + [x];
      TotalBounds(poll, init);
      TotalAppend(init, x, ids);
      BallotOverlap(poll, x.ballot);
      assert EffectiveMaxChoices(poll) * |log| == EffectiveMaxChoices(poll) * |init| + EffectiveMaxChoices(poll);
    }
  }

  lemma {:induction false} TotalEmpty(ids: seq<string>)
    ensures TotalTally([], ids) == 0
  {
    if ids != [] { TotalEmpty(ids[..|ids| - 1]); }
  }

  // The tallies sum to at least the ballots and at most the choice limit times
  // the ballots; for a single-choice poll they sum to exactly the ballots.
  lemma TalliesMatchBallots(c: Config, states: seq<State>, events: seq<Event>, i: nat)
    requires WfConfig(c) && Run(c, states, events) && i < |states|
    ensures var s := states[i];
      && |s.log| <= TotalTally(s.log, OptionIDs(s.poll)) <= EffectiveMaxChoices(s.poll) * |s.log|
      && (s.poll.kind == Single ==> TotalTally(s.log, OptionIDs(s.poll)) == |s.log|)
  {
    RunInv(c, states, events, i);
    BoundsAt(c, states[i]);
  }

  lemma BoundsAt(c: Config, s: State)
    requires Inv(c, s)
    ensures |s.log| <= TotalTally(s.log, OptionIDs(s.poll)) <= EffectiveMaxChoices(s.poll) * |s.log|
    ensures s.poll.kind == Single ==> TotalTally(s.log, OptionIDs(s.poll)) == |s.log|
  {
    hide AdminsOk, CacheOk, CastsOk, LogOk, ShardsOk, DedupOk, DurableOk, SyncsOk, QueriesOk, IsBallot, OptionIDs;
    forall n | 0 <= n < |s.log| ensures IsBallot(s.poll, s.log[n].ballot) { BallotValid(c, s, n); }
    TotalBounds(s.poll, s.log);
  }
}
