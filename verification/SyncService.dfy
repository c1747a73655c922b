// The synchroniser: one cycle over every tracked poll.
module SyncService {
  import opened Wrappers
  import opened Entity
  import Repo = Repository
  import VoteStore

  // What befalls the calls for a poll, the instant at which each shard's counters
  // are read, and the one at which its settling is judged.
  datatype Trip = Trip(loadFails: bool, countFails: bool, save: Fault, untrack: Fault, readAt: nat -> nat,
    judgedAt: nat)

  // What a cycle does for one poll.
  datatype Outcome = Outcome(saved: Option<map<string, nat>>, untracked: bool, failed: bool)

  // The sums of the poll's options over its shards.
  function CountsAt(ids: set<string>, hashes: map<string, VoteStore.HashKey>, pollID: string, shards: nat,
      when: nat -> nat): map<string, nat> {
    map id | id in ids :: VoteStore.SumLive(hashes, pollID, shards, id, when)
  }

  // A missing poll, and one that has been finished for settleAfter, is to be untracked.
  predicate Due(row: Option<Repo.PollRow>, now: int, settleAfter: int) {
    row.Some? ==>
      row.value.status == Finished && row.value.finishedAt.Some? && now - row.value.finishedAt.value >= settleAfter
  }

  // The outcome for one poll, from that poll's own rows, keys and calls only.
  function OutcomeOf(row: Option<Repo.PollRow>, ids: set<string>, hashes: map<string, VoteStore.HashKey>,
                     pollID: string, shards: nat, settleAfter: int, trip: Trip): (outcome: Outcome)
    // An existing poll leaves the tracked set only after an acknowledged save of
    // counters read while it was finished, and once it has settled.
    ensures outcome.untracked && row.Some? ==>
      && outcome.saved == Some(CountsAt(ids, hashes, pollID, shards, trip.readAt))
      && (trip.save == NoFault || ids == {})
      && row.value.status == Finished && HasSettled(row.value.status, row.value.finishedAt, trip.judgedAt, settleAfter)
    // An existing poll's counters are saved in every cycle that gets that far,
    // settled or not, and a missing poll's never.
    ensures outcome.saved.Some? <==>
      row.Some? && !trip.loadFails && !trip.countFails && (trip.save != NotSent || ids == {})
    ensures outcome.saved.Some? ==> outcome.saved.value == CountsAt(ids, hashes, pollID, shards, trip.readAt)
    // It fails exactly if one of the calls it makes does: the load, then for an
    // existing poll the read and the save, then the untracking if it is due.
    ensures outcome.failed <==>
      (|| trip.loadFails
       || (row.Some? && trip.countFails)
       || (row.Some? && ids != {} && trip.save != NoFault)
       || (Due(row, trip.judgedAt, settleAfter) && trip.untrack != NoFault))
    ensures outcome.untracked <==>
      && !trip.loadFails
      && !(row.Some? && trip.countFails)
      && !(row.Some? && ids != {} && trip.save != NoFault)
      && Due(row, trip.judgedAt, settleAfter) && trip.untrack != NotSent
  {
    if trip.loadFails then Outcome(None, false, true)
    else if row.None? then Outcome(None, trip.untrack != NotSent, trip.untrack != NoFault)
    else if trip.countFails then Outcome(None, false, true)
    else
      var counts := CountsAt(ids, hashes, pollID, shards, trip.readAt);
      // No statement is sent for no counts.
      var save := if ids == {} then NoFault else trip.save;
      if save != NoFault then Outcome(if save == NotSent then None else Some(counts), false, true)
      else if !HasSettled(row.value.status, row.value.finishedAt, trip.judgedAt, settleAfter) then
        Outcome(Some(counts), false, false)
      else Outcome(Some(counts), trip.untrack != NotSent, trip.untrack != NoFault)
  }

  // The outcome this state has in store for a poll.
  function Planned(polls: map<string, Repo.PollRow>, options: seq<Repo.OptionRow>, hashes: map<string,
      VoteStore.HashKey>,
                   shards: nat, settleAfter: int, pollID: string, trip: Trip): Outcome {
    OutcomeOf(if pollID in polls then Some(polls[pollID]) else None,
              Repo.IdsOf(Repo.OptionsOf(options, pollID)), hashes, pollID, shards, settleAfter, trip)
  }

  // The durable row of a poll after a cycle that had this outcome for it.
  function RowAfter(row: map<string, nat>, outcome: Outcome): map<string, nat> {
    if outcome.saved.Some? then Repo.Upsert(row, outcome.saved.value) else row
  }

  // Exactly these polls have had their planned outcome; nothing else moved.
  ghost predicate Settles(done: set<string>, plan: map<string, Outcome>, tracked: set<string>, results: map<string,
      map<string, nat>>,
                       tracked': set<string>, results': map<string, map<string, nat>>)
    requires done <= plan.Keys
  {
    && (forall p :: p in tracked' <==> p in tracked && (p in done ==> !plan[p].untracked))
    && results'.Keys == results.Keys
    && (forall p :: p in results ==> results'[p] == if p in done then RowAfter(results[p], plan[p]) else results[p])
  }

  // n counts the failing ones of these polls.
  ghost predicate Counts(n: nat, done: set<string>, plan: map<string, Outcome>)
    requires done <= plan.Keys
  {
    n == |set p | p in done && plan[p].failed|
  }

  lemma CountsNone(plan: map<string, Outcome>)
    ensures Counts(0, {}, plan)
  {
  }

  lemma CountsOne(n: nat, done: set<string>, plan: map<string, Outcome>, p: string)
    requires done <= plan.Keys && p in plan && p !in done && Counts(n, done, plan)
    ensures Counts(if plan[p].failed then n + 1 else n, done + {p}, plan)
  {
    var before, after := set q | q in done && plan[q].failed, set q | q in done + {p} && plan[q].failed;
    assert after == if plan[p].failed then before + {p} else before;
  }

  lemma SettlesNone(plan: map<string, Outcome>, tracked: set<string>, results: map<string, map<string, nat>>)
    ensures Settles({}, plan, tracked, results, tracked, results)
  {
  }

  lemma SettlesOne(done: set<string>, plan: map<string, Outcome>, tracked: set<string>, results: map<string,
      map<string, nat>>,
                   tracked': set<string>, results': map<string, map<string, nat>>, p: string)
    requires done <= plan.Keys && p in plan && p !in done && Settles(done, plan, tracked, results, tracked', results')
    ensures Settles(done + {p}, plan, tracked, results,
      tracked' - (if plan[p].untracked then {p} else {}),
      if p in results' then results'[p := RowAfter(results'[p], plan[p])] else results')
  {
    hide RowAfter;
  }

  datatype Report = Report(tracked: nat, failed: nat)

  class Service {
    const repo: Repo.PollRepository
    const store: VoteStore.Store
    const settleAfter: int

    constructor (repo: Repo.PollRepository, store: VoteStore.Store, settleAfter: int)
      ensures this.repo == repo && this.store == store && this.settleAfter == settleAfter
    {
      this.repo, this.store, this.settleAfter := repo, store, settleAfter;
    }

    function Expected(pollID: string, trip: Trip): Outcome
      reads repo`polls, repo`options, store.client`hashes
    {
      Planned(repo.polls, repo.options, store.client.hashes, store.cfg.shards, settleAfter, pollID, trip)
    }

    // The polls among these for which some call fails.
    ghost function Failing(polls: set<string>, trips: string -> Trip): set<string>
      reads repo`polls, repo`options
    {
      set p | p in polls && !AllGood(p, trips(p))
    }

    // The calls for this poll reach the save and the save reaches the tables.
    predicate Saves(pollID: string, trip: Trip)
      reads repo`polls
    {
      pollID in repo.polls && !trip.loadFails && !trip.countFails && trip.save != NotSent
    }

    // The calls for this poll that are made all succeed.
    predicate AllGood(pollID: string, trip: Trip)
      reads repo`polls, repo`options
    {
      && !trip.loadFails
      && (pollID in repo.polls ==> !trip.countFails)
      && (pollID in repo.polls && Repo.IdsOf(Repo.OptionsOf(repo.options, pollID)) != {} ==> trip.save == NoFault)
      && (DueAt(pollID, trip.judgedAt) ==> trip.untrack == NoFault)
    }

    // The poll is missing, or was finished at least settleAfter before now.
    predicate DueAt(pollID: string, now: int)
      reads repo`polls
    {
      pollID in repo.polls ==>
        && repo.polls[pollID].status == Finished && repo.polls[pollID].finishedAt.Some?
        && now >= repo.polls[pollID].finishedAt.value + settleAfter
    }

    // Everything before the untracking succeeds, it is due, and it takes effect.
    predicate Untracks(pollID: string, trip: Trip)
      reads repo`polls, repo`options
    {
      && !trip.loadFails
      && (pollID in repo.polls ==> !trip.countFails)
      && (pollID in repo.polls && Repo.IdsOf(Repo.OptionsOf(repo.options, pollID)) != {} ==> trip.save == NoFault)
      && DueAt(pollID, trip.judgedAt) && trip.untrack != NotSent
    }

    lemma WhatIsPlanned(pollID: string, trip: Trip)
      ensures !Expected(pollID, trip).failed <==> AllGood(pollID, trip)
      ensures Expected(pollID, trip).untracked <==> Untracks(pollID, trip)
    {
      hide VoteStore.SumLive, Repo.OptionsOf, Repo.IdsOf;
    }

    // Each of the poll's options has the larger of its old count and the sum of
    // its live fields, whether the poll has settled or not.
    ghost predicate FlushedFrom(before: map<string, nat>, row: map<string, nat>, pollID: string, when: nat -> nat)
      reads repo`options, store.client`hashes
    {
      && row.Keys == before.Keys == Repo.IdsOf(Repo.OptionsOf(repo.options, pollID))
      && forall id :: id in row ==>
           row[id] == Repo.Max(before[id], VoteStore.SumLive(store.client.hashes, pollID, store.cfg.shards, id, when))
    }

    // What the plan means for the durable row.
    lemma SavesRow(pollID: string, trip: Trip)
      requires repo.Valid()
      ensures Saves(pollID, trip) ==> pollID in repo.results
      ensures Saves(pollID, trip) ==>
        FlushedFrom(repo.results[pollID], RowAfter(repo.results[pollID], Expected(pollID, trip)),
                    pollID, trip.readAt)
      ensures !Saves(pollID, trip) && pollID in repo.results ==>
        RowAfter(repo.results[pollID], Expected(pollID, trip)) == repo.results[pollID]
    {
      hide VoteStore.SumLive, Repo.OptionsOf, Repo.IdsOf;
      if pollID in repo.results { Repo.UpsertNone(repo.results[pollID]); }
    }

    // One poll: its counters are saved, settled or not, as far as the calls go; it
    // is untracked exactly when that is due and everything before succeeded.
    method SyncPoll(pollID: string, trip: Trip) returns (ok: bool)
      requires repo.Valid() && store.WellConfigured()
      modifies repo`results, store.client`tracked
      ensures repo.Valid()
      ensures ok <==> AllGood(pollID, trip)
      ensures store.client.tracked == old(store.client.tracked) - if Untracks(pollID, trip) then {pollID} else {}
      ensures repo.results.Keys == old(repo.results).Keys
      ensures forall p :: p in repo.results && p != pollID ==> repo.results[p] == old(repo.results)[p]
      ensures Saves(pollID, trip) ==> pollID in repo.results
      ensures Saves(pollID, trip) ==>
        FlushedFrom(old(repo.results)[pollID], repo.results[pollID], pollID, trip.readAt)
      ensures !Saves(pollID, trip) ==> repo.results == old(repo.results)
    {
      hide Saves, AllGood, Untracks, DueAt, FlushedFrom, Expected, Planned, RowAfter, Repo.TablesOk;
      SavesRow(pollID, trip);
      WhatIsPlanned(pollID, trip);
      ok := Attempt(pollID, trip);
    }

    // The calls, one after another.
    method Attempt(pollID: string, trip: Trip) returns (ok: bool)
      requires repo.Valid() && store.WellConfigured()
      modifies repo`results, store.client`tracked
      ensures repo.Valid()
      ensures ok == !Expected(pollID, trip).failed
      ensures store.client.tracked ==
        old(store.client.tracked) - if Expected(pollID, trip).untracked then {pollID} else {}
      ensures repo.results == if pollID in old(repo.results)
        then old(repo.results)[pollID := RowAfter(old(repo.results)[pollID], Expected(pollID, trip))]
        else old(repo.results)
    {
      hide Repo.Upsert, Repo.Answers, Repo.TablesOk, Repo.OptionsOf, Repo.IdsOf, Repo.AllIds;
      HasRow(pollID);
      Unsaved(pollID);
      var loaded := repo.GetPoll(pollID, trip.loadFails);
      if loaded.Err? {
        if loaded.code == NotFound {
          var dropped := store.UntrackPoll(pollID, trip.untrack);
          return dropped.Ok?;
        }
        return false;
      }
      var poll := loaded.value;
      ghost var rows :| Repo.Answers(rows, repo.polls, repo.options,
          pollID) && poll == Repo.PollOf(repo.polls[pollID], Repo.Selected(rows));
      Repo.AnswerIds(rows, repo.polls, repo.options, pollID);
      Repo.OwnIds(repo.options, pollID);
      var counts := store.Counters(pollID, OptionIDs(poll), trip.readAt, trip.countFails);
      if counts.Err? {
        return false;
      }
      assert counts.value == CountsAt(Repo.IdsOf(Repo.OptionsOf(repo.options, pollID)),
                                      store.client.hashes, pollID, store.cfg.shards, trip.readAt);
      var saved := repo.SaveResults(pollID, counts.value, trip.save);
      if saved.Err? {
        return false;
      }
      if HasSettled(poll.status, poll.finishedAt, trip.judgedAt, settleAfter) {
        var dropped := store.UntrackPoll(pollID, trip.untrack);
        return dropped.Ok?;
      }
      return true;
    }

    lemma HasRow(pollID: string)
      requires repo.Valid()
      ensures pollID in repo.polls <==> pollID in repo.results
    {
    }

    // A row that is not saved, or saved without counts, stays as it is.
    lemma Unsaved(pollID: string)
      ensures pollID in repo.results ==> repo.results[pollID := repo.results[pollID]] == repo.results
      ensures pollID in repo.results ==> Repo.Upsert(repo.results[pollID], map[]) == repo.results[pollID]
    {
      if pollID in repo.results { Repo.UpsertNone(repo.results[pollID]); }
    }

    // Every tracked poll, in any order, fares as its own rows, keys and calls say,
    // whatever happens to the others; Failed counts the polls with a failing call.
    method Sync(listFails: bool, trips: string -> Trip) returns (report: Report, ok: bool)
      requires repo.Valid() && store.WellConfigured()
      modifies repo`results, store.client`tracked
      ensures repo.Valid()
      ensures listFails ==> !ok && report == Report(0, 0)
      ensures listFails ==> repo.results == old(repo.results) && store.client.tracked == old(store.client.tracked)
      ensures !listFails ==>
        && report.tracked == |old(store.client.tracked)|
        && report.failed == |Failing(old(store.client.tracked), trips)|
        && (ok <==> Failing(old(store.client.tracked), trips) == {})
        && store.client.tracked == (set p | p in old(store.client.tracked) && !Untracks(p, trips(p)))
      ensures repo.results.Keys == old(repo.results).Keys
      ensures forall p :: p in repo.results ==>
        if !listFails && p in old(store.client.tracked) && Saves(p, trips(p))
        then FlushedFrom(old(repo.results)[p], repo.results[p], p, trips(p).readAt)
        else repo.results[p] == old(repo.results)[p]
    {
      if listFails {
        return Report(0, 0), false;
      }
      ghost var rows := repo.results;
      var all := store.client.tracked;
      ghost var plan := map p | p in all :: Expected(p, trips(p));
      PlanMeans(all, trips, plan);
      ghost var failing := Failing(all, trips);
      hide Expected, Saves, AllGood, Untracks, DueAt, FlushedFrom, Planned, RowAfter, Repo.TablesOk;
      var count := Cycle(all, trips, plan);
      assert failing == set p | p in all && plan[p].failed;
      return Report(|all|, count), count == 0;
    }

    lemma PlanMeans(all: set<string>, trips: string -> Trip, plan: map<string, Outcome>)
      requires repo.Valid() && plan.Keys == all && forall p :: p in all ==> plan[p] == Expected(p, trips(p))
      ensures forall p :: p in all ==>
        (plan[p].failed <==> !AllGood(p, trips(p))) && (plan[p].untracked <==> Untracks(p, trips(p)))
      ensures forall p :: p in all && p in repo.results && Saves(p, trips(p)) ==>
        FlushedFrom(repo.results[p], RowAfter(repo.results[p], plan[p]), p, trips(p).readAt)
      ensures forall p :: p in all && p in repo.results && !Saves(p, trips(p)) ==>
        RowAfter(repo.results[p], plan[p]) == repo.results[p]
    {
      hide AllGood, Untracks, Saves, FlushedFrom, RowAfter, Expected, Repo.TablesOk;
      forall p | p in all
        ensures (plan[p].failed <==> !AllGood(p, trips(p))) && (plan[p].untracked <==> Untracks(p, trips(p)))
      {
        WhatIsPlanned(p, trips(p));
      }
      forall p | p in all && p in repo.results
        ensures Saves(p, trips(p)) ==>
          FlushedFrom(repo.results[p], RowAfter(repo.results[p], plan[p]), p, trips(p).readAt)
        ensures !Saves(p, trips(p)) ==> RowAfter(repo.results[p], plan[p]) == repo.results[p]
      {
        SavesRow(p, trips(p));
      }
    }

    // The loop, against the outcomes planned for these polls.
    method Cycle(all: set<string>, trips: string -> Trip, ghost plan: map<string, Outcome>) returns (count: nat)
      requires repo.Valid() && store.WellConfigured() && all == plan.Keys
      requires forall p :: p in all ==> Expected(p, trips(p)) == plan[p]
      modifies repo`results, store.client`tracked
      ensures repo.Valid() && Counts(count, all, plan)
      ensures Settles(all, plan, old(store.client.tracked), old(repo.results), store.client.tracked, repo.results)
    {
      hide Planned, RowAfter, Repo.TablesOk, Settles, Counts;
      var rest := all;
      count := 0;
      CountsNone(plan);
      SettlesNone(plan, store.client.tracked, repo.results);
      assert all - rest == {};
      while rest != {}
        invariant repo.Valid() && rest <= all && Counts(count, all - rest, plan)
        invariant Settles(all - rest, plan, old(store.client.tracked), old(repo.results),
                          store.client.tracked, repo.results)
      {
        var pollID :| pollID in rest;
        SettlesOne(all - rest, plan, old(store.client.tracked), old(repo.results),
                   store.client.tracked, repo.results, pollID);
        CountsOne(count, all - rest, plan, pollID);
        assert all - rest + {pollID} == all - (rest - {pollID});
        rest := rest - {pollID};
        var done := Attempt(pollID, trips(pollID));
        if !done {
          count := count + 1;
        }
      }
      assert all - rest == all;
    }
  }
}
