// The two-tier poll cache of one replica: a local cache, a shared one, and the
// origin. How lookups and invalidations of many replicas interleave, and how
// stale an answer can get, is the business of the protocol.
module PollCache {
  import opened Wrappers
  import opened Entity
  import Repo = Repository
  import P = Protocol
  import L = TtlLines
  import TtlCache

  // A cached lookup; None is a poll known to be missing.
  type Answer = Option<Poll>

  datatype Shared = Shared(answer: Answer, deadline: nat)

  function Unwrap(answer: Answer): Result<Poll> {
    if answer.Some? then Ok(answer.value) else Err(NotFound)
  }

  // The instants at which the steps of a lookup happen and the calls that fail.
  datatype Trip = Trip(localAt: nat, flightAt: nat, sharedAt: nat, readFails: bool, originFails: bool,
                       writeAt: nat, writeFails: bool, storeAt: nat)

  datatype Source = Local | FromShared | Origin | Nowhere

  predicate SharedLive(shared: map<string, Shared>, pollID: string, now: nat) {
    pollID in shared && now < shared[pollID].deadline
  }

  // A line of the local cache that may be served.
  predicate LocalLive(line: Option<L.Line<Answer>>, now: nat) {
    line.Some? && now <= line.value.expiresAt
  }

  // Every other poll keeps its local line or loses it to eviction.
  ghost predicate OthersKept(before: seq<L.Line<Answer>>, after: seq<L.Line<Answer>>, pollID: string) {
    forall p :: p != pollID && L.Find(after, p).Some? ==> L.Find(after, p) == L.Find(before, p)
  }

  lemma KeptTwice(a: seq<L.Line<Answer>>, b: seq<L.Line<Answer>>, c: seq<L.Line<Answer>>, pollID: string)
    requires OthersKept(a, b, pollID) && OthersKept(b, c, pollID)
    ensures OthersKept(a, c, pollID)
  {
  }

  class Cache {
    const local: TtlCache.TTL<Answer>
    const origin: Repo.PollRepository
    const cfg: P.Config
    var shared: map<string, Shared>

    constructor (local: TtlCache.TTL<Answer>, origin: Repo.PollRepository, cfg: P.Config)
      ensures this.local == local && this.origin == origin && this.cfg == cfg && shared == map[]
    {
      this.local, this.origin, this.cfg, this.shared := local, origin, cfg, map[];
    }

    ghost function Line(pollID: string): Option<L.Line<Answer>>
      requires local.Valid()
      reads local, local.shards, local.shards[local.ShardFor(pollID)].repr
    {
      L.Find(local.LinesAt(local.ShardFor(pollID)), pollID)
    }

    // What the origin answers now.
    ghost predicate OriginSays(pollID: string, answer: Answer)
      reads origin
    {
      if pollID !in origin.polls then answer == None
      else exists rows :: Repo.Answers(rows, origin.polls, origin.options, pollID)
             && answer == Some(Repo.PollOf(origin.polls[pollID], Repo.Selected(rows)))
    }

    // Writes an answer of the origin to both tiers.
    method Store(pollID: string, answer: Answer, trip: Trip)
      requires local.Valid() && P.WfConfig(cfg)
      modifies this`shared, local.shards[local.ShardFor(pollID)], local.shards[local.ShardFor(pollID)].repr
      ensures local.Valid()
      ensures fresh(local.shards[local.ShardFor(pollID)].repr - old(local.shards[local.ShardFor(pollID)].repr))
      ensures shared == Written(old(shared), pollID, answer, trip)
      ensures Line(pollID) == Some(L.Line(pollID, answer, trip.storeAt + P.LocalTTLFor(cfg, answer)))
      ensures Line(pollID).value.expiresAt ==
        trip.storeAt + if answer.Some? || cfg.localTTL <= cfg.negativeTTL then cfg.localTTL else cfg.negativeTTL
      ensures !trip.writeFails ==> pollID in shared && shared[pollID].answer == answer
      ensures !trip.writeFails ==>
        shared[pollID].deadline == trip.writeAt + if answer.Some? then cfg.sharedTTL else cfg.negativeTTL
      ensures OthersKept(old(local.LinesAt(local.ShardFor(pollID))), local.LinesAt(local.ShardFor(pollID)), pollID)
    {
      hide L.Find, OthersKept, P.WfConfig;
      if !trip.writeFails {
        shared := shared[pollID := Shared(answer, trip.writeAt + P.SharedTTLFor(cfg, answer))];
      }
      Keep(pollID, answer, trip.storeAt);
    }

    method Keep(pollID: string, answer: Answer, at: nat)
      requires local.Valid() && P.WfConfig(cfg)
      modifies local.shards[local.ShardFor(pollID)], local.shards[local.ShardFor(pollID)].repr
      ensures local.Valid()
      ensures fresh(local.shards[local.ShardFor(pollID)].repr - old(local.shards[local.ShardFor(pollID)].repr))
      ensures Line(pollID) == Some(L.Line(pollID, answer, at + P.LocalTTLFor(cfg, answer)))
      ensures Line(pollID).value.expiresAt ==
        at + if answer.Some? || cfg.localTTL <= cfg.negativeTTL then cfg.localTTL else cfg.negativeTTL
      ensures OthersKept(old(local.LinesAt(local.ShardFor(pollID))), local.LinesAt(local.ShardFor(pollID)), pollID)
    {
      var k := local.ShardFor(pollID);
      ghost var before := local.LinesAt(k);
      local.Keyed(k);
      local.Set(pollID, answer, at, P.LocalTTLFor(cfg, answer));
      forall p ensures L.Find(local.LinesAt(k), pollID) == Some(L.Line(pollID, answer, at + P.LocalTTLFor(cfg, answer)))
        && (p != pollID && L.Find(local.LinesAt(k), p).Some? ==> L.Find(local.LinesAt(k), p) == L.Find(before, p))
      {
        L.SetFinds(before, local.shards[k].capacity, pollID, answer, at, P.LocalTTLFor(cfg, answer), p);
      }
    }

    // One local lookup.
    method Look(pollID: string, at: nat) returns (answer: Option<Answer>)
      requires local.Valid()
      modifies local.shards[local.ShardFor(pollID)]
      ensures local.Valid()
      ensures local.shards[local.ShardFor(pollID)].repr == old(local.shards[local.ShardFor(pollID)].repr)
      ensures answer == if LocalLive(old(Line(pollID)), at) then Some(old(Line(pollID)).value.value) else None
      ensures Line(pollID) == if LocalLive(old(Line(pollID)), at) then old(Line(pollID)) else None
      ensures OthersKept(old(local.LinesAt(local.ShardFor(pollID))), local.LinesAt(local.ShardFor(pollID)), pollID)
    {
      var k := local.ShardFor(pollID);
      ghost var before := local.LinesAt(k);
      local.Keyed(k);
      answer := local.Get(pollID, at);
      L.GetFinds(before, pollID, at, pollID);
      forall p | p != pollID ensures L.Find(local.LinesAt(k), p) == L.Find(before, p) {
        L.GetFinds(before, pollID, at, p);
      }
    }

    // This answer was given and is held locally for its lifetime from here on.
    ghost predicate Served(answer: Answer, at: nat, result: Result<Poll>, line: Option<L.Line<Answer>>) {
      result == Unwrap(answer) && line.Some?
      && line.value.value == answer && line.value.expiresAt == at + P.LocalTTLFor(cfg, answer)
    }

    function Written(shared: map<string, Shared>, pollID: string, answer: Answer, trip: Trip): map<string, Shared> {
      if trip.writeFails then shared else shared[pollID := Shared(answer, trip.writeAt + P.SharedTTLFor(cfg, answer))]
    }

    // The origin's turn in a flight, after both tiers have missed.
    method Fetch(pollID: string, trip: Trip) returns (result: Result<Poll>, source: Source)
      requires local.Valid() && P.WfConfig(cfg) && Line(pollID) == None
      modifies this`shared, local.shards[local.ShardFor(pollID)], local.shards[local.ShardFor(pollID)].repr
      ensures local.Valid() && (source == Origin || source == Nowhere)
      ensures fresh(local.shards[local.ShardFor(pollID)].repr - old(local.shards[local.ShardFor(pollID)].repr))
      ensures source == Origin ==> !trip.originFails && exists answer ::
        && OriginSays(pollID, answer) && Served(answer, trip.storeAt, result, Line(pollID))
        && shared == Written(old(shared), pollID, answer, trip)
      ensures source == Origin ==> (result.Ok? <==> pollID in origin.polls) && (result.Err? ==> result.code == NotFound)
      ensures source == Origin && result.Ok? ==> exists rows ::
        && Repo.Answers(rows, origin.polls, origin.options, pollID)
        && result.value == Repo.PollOf(origin.polls[pollID], Repo.Selected(rows))
      ensures source == Nowhere ==>
        trip.originFails && result == Err(Unavailable) && Line(pollID) == None && shared == old(shared)
      ensures OthersKept(old(local.LinesAt(local.ShardFor(pollID))), local.LinesAt(local.ShardFor(pollID)), pollID)
    {
      hide L.Find, P.LocalTTLFor, P.SharedTTLFor, P.WfConfig, Repo.Answers;
      var loaded := origin.GetPoll(pollID, trip.originFails);
      if loaded.Err? && loaded.code != NotFound {
        return loaded, Nowhere;
      }
      var answer := if loaded.Ok? then Some(loaded.value) else None;
      assert OriginSays(pollID, answer);
      Store(pollID, answer, trip);
      assert OriginSays(pollID, answer);
      return Unwrap(answer), Origin;
    }

    // A flight: it serves the local tier, else the shared tier (a failed read
    // counts as a miss), else the origin; only an answer of the origin reaches
    // the shared tier.
    method Resolve(pollID: string, trip: Trip) returns (result: Result<Poll>, source: Source)
      requires local.Valid() && P.WfConfig(cfg)
      modifies this`shared, local.shards[local.ShardFor(pollID)], local.shards[local.ShardFor(pollID)].repr
      ensures local.Valid()
      ensures fresh(local.shards[local.ShardFor(pollID)].repr - old(local.shards[local.ShardFor(pollID)].repr))
      ensures source == Local <==> LocalLive(old(Line(pollID)), trip.flightAt)
      ensures source == Local ==> Line(pollID) == old(Line(pollID)) && result == Unwrap(Line(pollID).value.value)
      ensures source == FromShared <==>
        && !LocalLive(old(Line(pollID)), trip.flightAt)
        && !trip.readFails && SharedLive(old(shared), pollID, trip.sharedAt)
      ensures source == FromShared ==> Served(old(shared)[pollID].answer, trip.storeAt, result, Line(pollID))
      ensures source == Origin ==> !trip.originFails && exists answer ::
        && OriginSays(pollID, answer) && Served(answer, trip.storeAt, result, Line(pollID))
        && shared == Written(old(shared), pollID, answer, trip)
      // What a served answer gives the caller: the poll, or not-found if missing.
      ensures source == Local && result.Ok? ==> old(Line(pollID)).value.value == Some(result.value)
      ensures source == Local && result.Err? ==> result.code == NotFound && old(Line(pollID)).value.value == None
      ensures source == FromShared && result.Ok? ==> old(shared)[pollID].answer == Some(result.value)
      ensures source == FromShared && result.Err? ==> result.code == NotFound && old(shared)[pollID].answer == None
      ensures source == Origin ==> (result.Ok? <==> pollID in origin.polls) && (result.Err? ==> result.code == NotFound)
      ensures source == Origin && result.Ok? ==> exists rows ::
        && Repo.Answers(rows, origin.polls, origin.options, pollID)
        && result.value == Repo.PollOf(origin.polls[pollID], Repo.Selected(rows))
      ensures source == Nowhere ==> trip.originFails && result == Err(Unavailable) && Line(pollID) == None
      ensures source != Origin ==> shared == old(shared)
      ensures OthersKept(old(local.LinesAt(local.ShardFor(pollID))), local.LinesAt(local.ShardFor(pollID)), pollID)
    {
      hide OthersKept, L.Find, P.LocalTTLFor, P.SharedTTLFor, P.WfConfig, Repo.Answers;
      ghost var k := local.ShardFor(pollID);
      ghost var before := local.LinesAt(k);
      var entry := Look(pollID, trip.flightAt);
      if entry.Some? {
        return Unwrap(entry.value), Local;
      }
      ghost var between := local.LinesAt(k);
      if !trip.readFails && SharedLive(shared, pollID, trip.sharedAt) {
        Keep(pollID, shared[pollID].answer, trip.storeAt);
        KeptTwice(before, between, local.LinesAt(k), pollID);
        return Unwrap(shared[pollID].answer), FromShared;
      }
      result, source := Fetch(pollID, trip);
      KeptTwice(before, between, local.LinesAt(k), pollID);
    }

    // A lookup that leads its own flight.
    method Poll(pollID: string, trip: Trip) returns (result: Result<Poll>, source: Source)
      requires local.Valid() && P.WfConfig(cfg)
      modifies this`shared, local.shards[local.ShardFor(pollID)], local.shards[local.ShardFor(pollID)].repr
      ensures local.Valid()
      ensures fresh(local.shards[local.ShardFor(pollID)].repr - old(local.shards[local.ShardFor(pollID)].repr))
      ensures source == Local <==> LocalLive(old(Line(pollID)), trip.localAt)
      ensures source == Local ==> Line(pollID) == old(Line(pollID)) && result == Unwrap(Line(pollID).value.value)
      ensures source == FromShared <==>
        !LocalLive(old(Line(pollID)), trip.localAt) && !trip.readFails && SharedLive(old(shared), pollID, trip.sharedAt)
      ensures source == FromShared ==> Served(old(shared)[pollID].answer, trip.storeAt, result, Line(pollID))
      ensures source == Origin ==> !trip.originFails && exists answer ::
        && OriginSays(pollID, answer) && Served(answer, trip.storeAt, result, Line(pollID))
        && shared == Written(old(shared), pollID, answer, trip)
      // What a served answer gives the caller: the poll, or not-found if missing.
      ensures source == Local && result.Ok? ==> old(Line(pollID)).value.value == Some(result.value)
      ensures source == Local && result.Err? ==> result.code == NotFound && old(Line(pollID)).value.value == None
      ensures source == FromShared && result.Ok? ==> old(shared)[pollID].answer == Some(result.value)
      ensures source == FromShared && result.Err? ==> result.code == NotFound && old(shared)[pollID].answer == None
      ensures source == Origin ==> (result.Ok? <==> pollID in origin.polls) && (result.Err? ==> result.code == NotFound)
      ensures source == Origin && result.Ok? ==> exists rows ::
        && Repo.Answers(rows, origin.polls, origin.options, pollID)
        && result.value == Repo.PollOf(origin.polls[pollID], Repo.Selected(rows))
      ensures source == Nowhere ==> trip.originFails && result == Err(Unavailable) && Line(pollID) == None
      ensures source != Origin ==> shared == old(shared)
      ensures OthersKept(old(local.LinesAt(local.ShardFor(pollID))), local.LinesAt(local.ShardFor(pollID)), pollID)
    {
      hide OthersKept, L.Find, P.LocalTTLFor, P.SharedTTLFor, P.WfConfig, Repo.Answers;
      ghost var k := local.ShardFor(pollID);
      ghost var before := local.LinesAt(k);
      var entry := Look(pollID, trip.localAt);
      if entry.Some? {
        return Unwrap(entry.value), Local;
      }
      ghost var between := local.LinesAt(k);
      result, source := Resolve(pollID, trip);
      KeptTwice(before, between, local.LinesAt(k), pollID);
    }

    // Drops the poll from the local tier and, unless the delete fails, the shared one.
    method Invalidate(pollID: string, fails: bool) returns (result: Result<()>)
      requires local.Valid()
      modifies this`shared, local.shards[local.ShardFor(pollID)]
      ensures local.Valid() && Line(pollID) == None
      ensures local.shards[local.ShardFor(pollID)].repr == old(local.shards[local.ShardFor(pollID)].repr)
      ensures OthersKept(old(local.LinesAt(local.ShardFor(pollID))), local.LinesAt(local.ShardFor(pollID)), pollID)
      ensures shared == if fails then old(shared) else old(shared) - {pollID}
      ensures result == if fails then Err(Unavailable) else Ok(())
    {
      var k := local.ShardFor(pollID);
      ghost var before := local.LinesAt(k);
      local.Keyed(k);
      local.Delete(pollID);
      forall p ensures L.Find(local.LinesAt(k), p) == if p == pollID then None else L.Find(before, p) {
        L.DeleteFinds(before, pollID, p);
      }
      if fails {
        return Err(Unavailable);
      }
      shared := shared - {pollID};
      return Ok(());
    }
  }

  // Two lookups of a poll in a row. What the first got from the origin, or from
  // the shared tier, the second gets from the local tier for exactly the local
  // lifetime of its kind, and after that, if the write and the read worked, from
  // the shared tier for as long as the shared lifetime lasts.
  method PollTwice(cache: Cache, pollID: string, first: Trip, second: Trip)
      returns (a: Result<Poll>, from: Source, b: Result<Poll>, then': Source)
    requires cache.local.Valid() && P.WfConfig(cache.cfg)
    modifies cache`shared, cache.local.shards[cache.local.ShardFor(pollID)]
    modifies cache.local.shards[cache.local.ShardFor(pollID)].repr
    ensures (from == Origin || from == FromShared) && a.Ok? ==>
      (then' == Local <==> second.localAt <= first.storeAt + cache.cfg.localTTL)
    ensures (from == Origin || from == FromShared) && a.Err? ==>
      (then' == Local <==>
        second.localAt <= first.storeAt + Shorter(cache.cfg.localTTL, cache.cfg.negativeTTL))
    ensures (from == Origin || from == FromShared) && then' == Local ==> b == a
    ensures from == Origin && !first.writeFails && !second.readFails && then' != Local ==>
      var lifetime := if a.Ok? then cache.cfg.sharedTTL else cache.cfg.negativeTTL;
      second.sharedAt < first.writeAt + lifetime ==> then' == FromShared && b == a
  {
    hide L.Find, Repo.Answers, OthersKept;
    a, from := cache.Poll(pollID, first);
    b, then' := cache.Poll(pollID, second);
  }

  function Shorter(a: nat, b: nat): (c: nat)
    ensures c <= a && c <= b && (c == a || c == b)
  {
    if a <= b then a else b
  }
}
