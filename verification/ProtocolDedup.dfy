// Deduplication over every run: which ballots are counted and which refused.
module ProtocolDedup {
  import opened ShardScript
  import opened Protocol
  import opened ProtocolInvariant
  import opened ProtocolPreservation

  // A counted ballot of this voter in this shard whose mark ends at this instant.
  predicate MarkedBy(c: Config, x: Counted, k: nat, voter: string, deadline: nat) {
    x.voter == voter && x.shard == k && deadline == x.at + c.dedupTTL
  }

  // Every dedup key stems from a counted ballot.
  ghost predicate MarksJustified(c: Config, log: seq<Counted>, shards: seq<Shard>) {
    forall k, v :: 0 <= k < |shards| && v in shards[k].voted ==>
      exists i :: 0 <= i < |log| && MarkedBy(c, log[i], k, v, shards[k].voted[v])
  }

  lemma JustifiedLonger(c: Config, log: seq<Counted>, log': seq<Counted>, shards: seq<Shard>)
    requires MarksJustified(c, log, shards) && log <= log'
    ensures MarksJustified(c, log', shards)
  {
    hide MarkedBy;
    forall k, v | 0 <= k < |shards| && v in shards[k].voted
      ensures exists i :: 0 <= i < |log'| && MarkedBy(c, log'[i], k, v, shards[k].voted[v])
    {
      var i :| 0 <= i < |log| && MarkedBy(c, log[i], k, v, shards[k].voted[v]);
      assert MarkedBy(c, log'[i], k, v, shards[k].voted[v]);
    }
  }

  lemma JustifiedScript(c: Config, s: State, id: nat, replyLost: bool, s': State)
    requires c.shards > 0 && ScriptMove(c, s, id, replyLost, s') && MarksJustified(c, s.log, s.shards)
    ensures MarksJustified(c, s'.log, s'.shards)
  {
    hide Increment, LiveFields, MarksJustified;
    var p := s.casts[id];
    var k := ShardOf(c, p.voter);
    var (shard, counted) := ShardScript.CastBallot(s.shards[k], s.now, p.voter, p.ballot, c.dedupTTL, c.retention);
    if counted {
      JustifiedLonger(c, s.log, s'.log, s.shards);
      JustifiedUpdate(c, s'.log, s.shards, k, p.voter, |s.log|, shard);
    } else {
      assert s'.shards == s.shards;
    }
  }

  lemma JustifiedUpdate(c: Config, log: seq<Counted>, shards: seq<Shard>, k: nat, voter: string, i: nat, shard: Shard)
    requires MarksJustified(c, log, shards) && k < |shards| && i < |log|
    requires log[i].voter == voter && log[i].shard == k
    requires shard.voted == shards[k].voted[voter := log[i].at + c.dedupTTL]
    ensures MarksJustified(c, log, shards[k := shard])
  {
    assert MarkedBy(c, log[i], k, voter, shard.voted[voter]);
  }

  lemma JustifiedStep(c: Config, s: State, e: Event, s': State)
    requires c.shards > 0 && Step(c, s, e, s') && MarksJustified(c, s.log, s.shards)
    ensures MarksJustified(c, s'.log, s'.shards)
  {
    hide MarksJustified, Environment, AdminSteps, FlightSteps, CastSteps, SyncSteps, ReadSteps;
    if CastSteps(c, s, e, s') {
      CastsJustified(c, s, e, s');
    } else {
      RestMarks(c, s, e, s');
      SameMarksJustified(c, s.log, s.shards, s'.shards);
    }
  }

  lemma CastsJustified(c: Config, s: State, e: Event, s': State)
    requires c.shards > 0 && CastSteps(c, s, e, s') && MarksJustified(c, s.log, s.shards)
    ensures MarksJustified(c, s'.log, s'.shards)
  {
    hide MarksJustified, ScriptMove, CastNext;
    if e.Script? { JustifiedScript(c, s, e.id, e.replyLost, s'); }
  }

  // Only the script touches the log and the dedup keys.
  lemma RestMarks(c: Config, s: State, e: Event, s': State)
    requires c.shards > 0 && Step(c, s, e, s') && !CastSteps(c, s, e, s')
    ensures s'.log == s.log && |s'.shards| == |s.shards|
    ensures forall k :: 0 <= k < |s.shards| ==> s'.shards[k].voted == s.shards[k].voted
  {
    hide AdminSteps, FlightSteps, CastSteps, SyncSteps, ReadSteps;
    if !Environment(c, s, e, s') { OthersKeepCounters(c, s, e, s'); }
  }

  lemma SameMarksJustified(c: Config, log: seq<Counted>, shards: seq<Shard>, shards': seq<Shard>)
    requires MarksJustified(c, log, shards) && |shards| == |shards'|
    requires forall k :: 0 <= k < |shards| ==> shards'[k].voted == shards[k].voted
    ensures MarksJustified(c, log, shards')
  {
    hide MarkedBy;
  }

  lemma {:induction false} RunJustified(c: Config, states: seq<State>, events: seq<Event>, i: nat)
    requires WfConfig(c) && Run(c, states, events) && i < |states|
    ensures MarksJustified(c, states[i].log, states[i].shards)
  {
    hide MarksJustified, Step;
    if i == 0 {
      NoMarks(c, states[0]);
    } else {
      RunJustified(c, states, events, i - 1);
      JustifiedStep(c, states[i - 1], events[i - 1], states[i]);
    }
  }

  lemma NoMarks(c: Config, s: State)
    requires Init(c, s)
    ensures MarksJustified(c, s.log, s.shards)
  {
  }

  // ---- What every run guarantees ----

  // In every reachable state each dedup key lies in the shard its voter hashes
  // to, so that the shards refine one store from there on.
  lemma MarksPlaced(c: Config, states: seq<State>, events: seq<Event>, i: nat)
    requires WfConfig(c) && Run(c, states, events) && i < |states|
    ensures |states[i].shards| == c.shards && Placed(states[i].shards, c.crc)
  {
    RunInv(c, states, events, i);
    RunJustified(c, states, events, i);
    var s := states[i];
    PlacedAt(c, s);
  }

  lemma PlacedAt(c: Config, s: State)
    requires c.shards > 0 && Inv(c, s) && MarksJustified(c, s.log, s.shards)
    ensures |s.shards| == c.shards && Placed(s.shards, c.crc)
  {
    hide VersionsOk, AdminsOk, CacheOk, CastsOk, LogOk, DedupOk, DurableOk, SyncsOk, QueriesOk;
    LogShards(c, s);
    forall k, v | 0 <= k < |s.shards| && v in s.shards[k].voted ensures k == c.crc(v) % |s.shards| {
      var i :| 0 <= i < |s.log| && MarkedBy(c, s.log[i], k, v, s.shards[k].voted[v]);
    }
  }

  // A ballot of this voter was counted less than DedupTTL before now.
  ghost predicate VotedRecently(c: Config, log: seq<Counted>, voter: string, now: nat) {
    exists i :: 0 <= i < |log| && log[i].voter == voter && now < log[i].at + c.dedupTTL
  }

  // At every script step of every run the ballot is counted if and only if no
  // ballot of its voter was counted less than DedupTTL ago; nothing else is
  // counted, and a refused ballot leaves every shard as it was.
  lemma CountedUnlessRecent(c: Config, states: seq<State>, events: seq<Event>, i: nat)
    requires WfConfig(c) && Run(c, states, events) && i < |events| && events[i].Script?
    ensures events[i].id in states[i].casts
    ensures var s, s', p := states[i], states[i + 1], states[i].casts[events[i].id];
      if VotedRecently(c, s.log, p.voter, s.now) then s'.log == s.log && s'.shards == s.shards
      else s'.log == s.log + [Counted(s.now, p.voter, ShardOf(c, p.voter), p.ballot, p.pc.entry)]
  {
    hide Inv, Init, VotedRecently;
    assert Step(c, states[i], events[i], states[i + 1]);
    RunInv(c, states, events, i);
    RunJustified(c, states, events, i);
    IsScript(c, states[i], events[i], states[i + 1]);
    CountedAt(c, states[i], events[i].id, events[i].replyLost, states[i + 1]);
  }

  lemma IsScript(c: Config, s: State, e: Event, s': State)
    requires c.shards > 0 && Step(c, s, e, s') && e.Script?
    ensures ScriptMove(c, s, e.id, e.replyLost, s')
  {
    hide ScriptMove;
  }

  lemma CountedAt(c: Config, s: State, id: nat, replyLost: bool, s': State)
    requires WfConfig(c) && Inv(c, s) && MarksJustified(c, s.log, s.shards) && ScriptMove(c, s, id, replyLost, s')
    ensures var p := s.casts[id];
      if VotedRecently(c, s.log, p.voter, s.now) then s'.log == s.log && s'.shards == s.shards
      else s'.log == s.log + [Counted(s.now, p.voter, ShardOf(c, p.voter), p.ballot, p.pc.entry)]
  {
    hide VersionsOk, AdminsOk, CacheOk, CastsOk, LogOk, ShardsOk;
    hide DedupOk, DurableOk, SyncsOk, QueriesOk, Increment, LiveFields;
    var p := s.casts[id];
    MarkIffRecent(c, s, p.voter);
    if Voted(s.shards[ShardOf(c, p.voter)], p.voter, s.now) {
      assert s.shards[ShardOf(c, p.voter) := s.shards[ShardOf(c, p.voter)]] == s.shards;
    }
  }

  lemma MarkIffRecent(c: Config, s: State, voter: string)
    requires c.shards > 0 && Inv(c, s) && MarksJustified(c, s.log, s.shards)
    ensures ShardOf(c, voter) < |s.shards|
    ensures Voted(s.shards[ShardOf(c, voter)], voter, s.now) <==> VotedRecently(c, s.log, voter, s.now)
  {
    hide VersionsOk, AdminsOk, CacheOk, CastsOk, LogOk, ShardsOk, DurableOk, SyncsOk, QueriesOk;
    LogShards(c, s);
    var k := ShardOf(c, voter);
    if Voted(s.shards[k], voter, s.now) {
      var i :| 0 <= i < |s.log| && MarkedBy(c, s.log[i], k, voter, s.shards[k].voted[voter]);
    }
  }
}
