// The Redis vote store: the commands its scripts use, the two scripts, and the
// store operations, each proved against the functions on values.
module VoteStore {
  import opened Wrappers
  import opened Keys
  import S = ShardScript
  import R = RateLimit

  // A string key holding an integer, and a hash key; None is "no expiry".
  datatype StringKey = StringKey(n: nat, deadline: Option<nat>)
  datatype HashKey = HashKey(fields: map<string, nat>, deadline: Option<nat>)

  predicate Alive(deadline: Option<nat>, now: nat) {
    deadline.Some? ==> now < deadline.value
  }

  predicate StringLive(strings: map<string, StringKey>, key: string, now: nat) {
    key in strings && Alive(strings[key].deadline, now)
  }

  predicate HashLive(hashes: map<string, HashKey>, key: string, now: nat) {
    key in hashes && Alive(hashes[key].deadline, now)
  }

  function Fields(hashes: map<string, HashKey>, key: string, now: nat): map<string, nat> {
    if HashLive(hashes, key, now) then hashes[key].fields else map[]
  }

  function WindowIn(strings: map<string, StringKey>, key: string): Option<R.Window> {
    if key in strings && strings[key].deadline.Some?
    then Some(R.Window(strings[key].n, strings[key].deadline.value)) else None
  }

  // The part of a Redis server the store uses; every command is atomic and sees
  // one instant, and dead keys read as absent.
  class Redis {
    var strings: map<string, StringKey>
    var hashes: map<string, HashKey>
    var tracked: set<string>

    constructor ()
      ensures strings == map[] && hashes == map[] && tracked == {}
    {
      strings, hashes, tracked := map[], map[], {};
    }

    // SET key 1 NX EX ttl
    method SetNxEx(key: string, ttl: nat, now: nat) returns (done: bool)
      modifies this`strings
      ensures done == !StringLive(old(strings), key, now)
      ensures strings == if done then old(strings)[key := StringKey(1, Some(now + ttl))] else old(strings)
    {
      done := !StringLive(strings, key, now);
      if done {
        strings := strings[key := StringKey(1, Some(now + ttl))];
      }
    }

    // INCR key
    method Incr(key: string, now: nat) returns (n: nat)
      modifies this`strings
      ensures n == (if StringLive(old(strings), key, now) then old(strings)[key].n + 1 else 1)
      ensures strings == old(strings)[key := StringKey(n,
        if StringLive(old(strings), key, now) then old(strings)[key].deadline else None)]
    {
      if StringLive(strings, key, now) {
        n := strings[key].n + 1;
        strings := strings[key := strings[key].(n := n)];
      } else {
        n := 1;
        strings := strings[key := StringKey(1, None)];
      }
    }

    // EXPIRE key ttl, on a string key
    method ExpireString(key: string, ttl: nat, now: nat)
      modifies this`strings
      ensures strings == if StringLive(old(strings), key, now)
                         then old(strings)[key := old(strings)[key].(deadline := Some(now + ttl))] else old(strings)
    {
      if StringLive(strings, key, now) {
        strings := strings[key := strings[key].(deadline := Some(now + ttl))];
      }
    }

    // EXPIRE key ttl, on a hash key
    method ExpireHash(key: string, ttl: nat, now: nat)
      modifies this`hashes
      ensures hashes == if HashLive(old(hashes), key, now)
                        then old(hashes)[key := old(hashes)[key].(deadline := Some(now + ttl))] else old(hashes)
    {
      if HashLive(hashes, key, now) {
        hashes := hashes[key := hashes[key].(deadline := Some(now + ttl))];
      }
    }

    // HINCRBY key field 1
    method HIncr(key: string, field: string, now: nat)
      modifies this`hashes
      ensures hashes == old(hashes)[key :=
        HashKey(Fields(old(hashes), key, now)[field := S.FieldOf(Fields(old(hashes), key, now), field) + 1],
                if HashLive(old(hashes), key, now) then old(hashes)[key].deadline else None)]
    {
      var fields := Fields(hashes, key, now);
      var deadline := if HashLive(hashes, key, now) then hashes[key].deadline else None;
      hashes := hashes[key := HashKey(fields[field := S.FieldOf(fields, field) + 1], deadline)];
    }

    // A counter key as the window the guard specification speaks of.
    function WindowAt(key: string): Option<R.Window>
      reads this
    {
      WindowIn(strings, key)
    }

    // A guard key has been hit and always carries a deadline.
    predicate Windowed(key: string)
      reads this
    {
      key in strings ==> strings[key].deadline.Some? && strings[key].n > 0
    }

    // guardScript
    method GuardScript(rateKey: string, quotaKey: string, l: R.Limits, now: nat) returns (verdict: R.Verdict)
      requires rateKey != quotaKey && Windowed(rateKey) && Windowed(quotaKey) && l.rateWindow > 0 && l.quotaWindow > 0
      modifies this`strings
      ensures (WindowAt(rateKey), WindowAt(quotaKey), verdict) ==
        R.Guard(old(WindowAt(rateKey)), old(WindowAt(quotaKey)), now, l)
      ensures Windowed(rateKey) && Windowed(quotaKey)
      ensures strings - {rateKey, quotaKey} == old(strings) - {rateKey, quotaKey}
    {
      if l.rateLimit > 0 {
        var hits := CountHit(rateKey, l.rateWindow, now);
        if hits > l.rateLimit {
          return R.RateLimited;
        }
      }
      if l.quotaLimit > 0 {
        var used := CountHit(quotaKey, l.quotaWindow, now);
        if used > l.quotaLimit {
          return R.QuotaExceeded;
        }
      }
      return R.Allow;
    }

    // INCR, then EXPIRE on the first hit.
    method CountHit(key: string, window: nat, now: nat) returns (hits: nat)
      requires Windowed(key) && window > 0
      modifies this`strings
      ensures Windowed(key) && WindowAt(key) == Some(R.Hit(old(WindowAt(key)), now, window))
      ensures hits == WindowAt(key).value.hits
      ensures key in strings && strings == old(strings)[key := strings[key]]
    {
      hits := Incr(key, now);
      if hits == 1 {
        ExpireString(key, window, now);
      }
    }

    // castBallotScript
    method CastBallotScript(votedKey: string, countsKey: string, dedupTTL: nat, retention: nat, ids: seq<string>,
        now: nat)
        returns (counted: bool)
      requires retention > 0
      modifies this`strings, this`hashes
      ensures counted == !StringLive(old(strings), votedKey, now)
      ensures strings == if counted then old(strings)[votedKey := StringKey(1, Some(now + dedupTTL))] else old(strings)
      ensures !counted || ids == [] ==> hashes == old(hashes)
      ensures counted && ids != [] ==> hashes == old(hashes)[countsKey :=
        HashKey(S.Increment(Fields(old(hashes), countsKey, now), ids),
                if HashLive(old(hashes), countsKey, now) then old(hashes)[countsKey].deadline
                else Some(now + retention))]
    {
      counted := SetNxEx(votedKey, dedupTTL, now);
      if !counted {
        return;
      }
      var fresh' := !HashLive(hashes, countsKey, now);
      ghost var before := hashes;
      for i := 0 to |ids|
        invariant strings == old(strings)[votedKey := StringKey(1, Some(now + dedupTTL))]
        invariant i == 0 ==> hashes == before
        invariant i > 0 ==> hashes == before[countsKey :=
          HashKey(S.Increment(Fields(before, countsKey, now), ids[..i]),
                  if HashLive(before, countsKey, now) then before[countsKey].deadline else None)]
      {
        HIncr(countsKey, ids[i], now);
        assert ids[..i + 1][..i] == ids[..i];
      }
      assert ids[..|ids|] == ids;
      if fresh' {
        ExpireHash(countsKey, retention, now);
      }
    }
  }

  // ---- The store ----

  datatype Config = Config(shards: nat, dedupTTL: nat, retention: nat, limits: R.Limits)

  ghost predicate VotedAs(strings: map<string, StringKey>, pollID: string, k: nat, voted: map<string, nat>) {
    && (forall v :: v in voted <==> VotedKey(pollID, k, v) in strings)
    && (forall v :: v in voted ==> strings[VotedKey(pollID, k, v)].deadline == Some(voted[v]))
  }

  ghost predicate CountsAs(hashes: map<string, HashKey>, pollID: string, k: nat, counts: Option<S.Counts>) {
    && (counts.Some? <==> CountsKey(pollID, k) in hashes)
    && (counts.Some? ==> hashes[CountsKey(pollID, k)] == HashKey(counts.value.fields, Some(counts.value.deadline)))
  }

  // The keys of one shard hold exactly this shard value.
  ghost predicate Represents(strings: map<string, StringKey>, hashes: map<string, HashKey>, pollID: string, k: nat,
      shard: S.Shard) {
    VotedAs(strings, pollID, k, shard.voted) && CountsAs(hashes, pollID, k, shard.counts)
  }

  // Every shard of every canonical poll is as it was, except that, if taken,
  // this voter's shard of the poll has run the ballot script.
  ghost predicate Took(strings: map<string, StringKey>, hashes: map<string, HashKey>,
                       strings': map<string, StringKey>, hashes': map<string, HashKey>,
                       pollID: string, k: nat, voter: string, ids: seq<string>, at: nat, cfg: Config, taken: bool) {
    forall p, j, shard :: Canonical(p) && Represents(strings, hashes, p, j, shard) ==>
      Represents(strings', hashes', p, j,
        if taken && p == pollID && j == k
        then S.CastBallot(shard, at, voter, ids, cfg.dedupTTL, cfg.retention).0 else shard)
  }

  // The keyspace after the ballot script.
  function ScriptStrings(strings: map<string, StringKey>, votedKey: string, dedupTTL: nat,
      now: nat): map<string, StringKey> {
    if StringLive(strings, votedKey, now) then strings else strings[votedKey := StringKey(1, Some(now + dedupTTL))]
  }

  function ScriptHashes(strings: map<string, StringKey>, hashes: map<string, HashKey>, votedKey: string,
      countsKey: string,
                        retention: nat, ids: seq<string>, now: nat): map<string, HashKey> {
    if StringLive(strings, votedKey, now) || ids == [] then hashes
    else hashes[countsKey :=
      HashKey(S.Increment(Fields(hashes, countsKey, now), ids),
              if HashLive(hashes, countsKey, now) then hashes[countsKey].deadline else Some(now + retention))]
  }

  // On the keys of any canonical poll and shard, the script does what the ballot
  // function does to the addressed shard and leaves every other shard alone.
  lemma ScriptRefines(strings: map<string, StringKey>, hashes: map<string, HashKey>, pollID: string, k: nat,
      voter: string,
                      ids: seq<string>, dedupTTL: nat, retention: nat, now: nat, p: string, j: nat, shard: S.Shard)
    requires Canonical(pollID) && Canonical(p) && Represents(strings, hashes, p, j, shard)
    ensures var votedKey, countsKey := VotedKey(pollID, k, voter), CountsKey(pollID, k);
      Represents(ScriptStrings(strings, votedKey, dedupTTL, now),
                 ScriptHashes(strings, hashes, votedKey, countsKey, retention, ids, now), p, j,
                 if p == pollID && j == k then S.CastBallot(shard, now, voter, ids, dedupTTL, retention).0 else shard)
    ensures p == pollID && j == k ==>
      S.CastBallot(shard, now, voter, ids, dedupTTL, retention).1 ==
        !StringLive(strings, VotedKey(pollID, k, voter), now)
  {
    if p == pollID && j == k {
      OwnShard(strings, hashes, pollID, k, voter, ids, dedupTTL, retention, now, shard);
    } else {
      OtherShard(strings, hashes, pollID, k, voter, ids, dedupTTL, retention, now, p, j, shard);
    }
  }

  lemma KeysApart(pollID: string, k: nat, voter: string, p: string, j: nat)
    requires Canonical(pollID) && Canonical(p)
    ensures forall v :: VotedKey(p, j, v) == VotedKey(pollID, k, voter) ==> p == pollID && j == k && v == voter
    ensures CountsKey(p, j) == CountsKey(pollID, k) ==> p == pollID && j == k
  {
    hide VotedKey, CountsKey;
    forall v | VotedKey(p, j, v) == VotedKey(pollID, k, voter) ensures p == pollID && j == k && v == voter {
      VotedKeyInjective(p, j, v, pollID, k, voter);
    }
    if CountsKey(p, j) == CountsKey(pollID, k) { CountsKeyInjective(p, j, pollID, k); }
  }

  lemma OtherShard(strings: map<string, StringKey>, hashes: map<string, HashKey>, pollID: string, k: nat, voter: string,
                   ids: seq<string>, dedupTTL: nat, retention: nat, now: nat, p: string, j: nat, shard: S.Shard)
    requires Canonical(pollID) && Canonical(p) && Represents(strings, hashes, p, j, shard) && (p != pollID || j != k)
    ensures var votedKey, countsKey := VotedKey(pollID, k, voter), CountsKey(pollID, k);
      Represents(ScriptStrings(strings, votedKey, dedupTTL, now),
                 ScriptHashes(strings, hashes, votedKey, countsKey, retention, ids, now), p, j, shard)
  {
    hide VotedKey, CountsKey, S.Increment, StringLive, HashLive, Fields;
    KeysApart(pollID, k, voter, p, j);
  }

  lemma OwnShard(strings: map<string, StringKey>, hashes: map<string, HashKey>, pollID: string, k: nat, voter: string,
                 ids: seq<string>, dedupTTL: nat, retention: nat, now: nat, shard: S.Shard)
    requires Canonical(pollID) && Represents(strings, hashes, pollID, k, shard)
    ensures var votedKey, countsKey := VotedKey(pollID, k, voter), CountsKey(pollID, k);
      Represents(ScriptStrings(strings, votedKey, dedupTTL, now),
                 ScriptHashes(strings, hashes, votedKey, countsKey, retention, ids, now), pollID, k,
                 S.CastBallot(shard, now, voter, ids, dedupTTL, retention).0)
    ensures S.CastBallot(shard, now, voter, ids, dedupTTL, retention).1 ==
      !StringLive(strings, VotedKey(pollID, k, voter), now)
  {
    hide VotedKey, CountsKey, S.Increment, S.LiveFields, Fields, HashLive, Canonical, VotedAs;
    OwnVoted(strings, pollID, k, voter, dedupTTL, now, shard);
    FieldsRefine(hashes, pollID, k, shard, now);
  }

  lemma OwnVoted(strings: map<string, StringKey>, pollID: string, k: nat, voter: string, dedupTTL: nat, now: nat,
      shard: S.Shard)
    requires Canonical(pollID) && VotedAs(strings, pollID, k, shard.voted)
    ensures S.Voted(shard, voter, now) <==> StringLive(strings, VotedKey(pollID, k, voter), now)
    ensures VotedAs(strings[VotedKey(pollID, k, voter) := StringKey(1, Some(now + dedupTTL))], pollID, k,
      shard.voted[voter := now + dedupTTL])
  {
    hide VotedKey, CountsKey, Canonical;
    KeysApart(pollID, k, voter, pollID, k);
  }

  lemma FieldsRefine(hashes: map<string, HashKey>, pollID: string, k: nat, shard: S.Shard, now: nat)
    requires CountsAs(hashes, pollID, k, shard.counts)
    ensures Fields(hashes, CountsKey(pollID, k), now) == S.LiveFields(shard, now)
    ensures HashLive(hashes, CountsKey(pollID, k), now) <==> shard.counts.Some? && now < shard.counts.value.deadline
  {
    hide VotedKey, CountsKey;
  }

  // An option's sum over the first n shards of a poll, shard k read at when(k).
  function SumLive(hashes: map<string, HashKey>, pollID: string, n: nat, o: string, when: nat -> nat): nat {
    if n == 0 then 0
    else SumLive(hashes, pollID, n - 1, o, when) + S.FieldOf(Fields(hashes, CountsKey(pollID, n - 1), when(n - 1)), o)
  }

  function Always(now: nat): nat -> nat { _ => now }

  lemma {:induction false} SumLiveRefines(strings: map<string, StringKey>, hashes: map<string, HashKey>, pollID: string,
                                          shards: seq<S.Shard>, o: string, now: nat)
    requires forall k :: 0 <= k < |shards| ==> Represents(strings, hashes, pollID, k, shards[k])
    ensures SumLive(hashes, pollID, |shards|, o, Always(now)) == S.SumField(shards, now, o)
  {
    hide VotedAs, CountsAs, CountsKey, Fields, S.LiveFields, S.FieldOf;
    if shards != [] {
      var last := |shards| - 1;
      FieldsRefine(hashes, pollID, last, shards[last], now);
      SumLiveRefines(strings, hashes, pollID, shards[..last], o, now);
    }
  }

  // ---- The guard counters of every address ----

  // The keys of this address hold exactly these counters.
  ghost predicate Seen(strings: map<string, StringKey>, ip: string, s: R.Counters) {
    s.rate == WindowIn(strings, RateKey(ip)) && forall p :: R.QuotaOf(s, p) == WindowIn(strings, QuotaKey(ip, p))
  }

  // Every address's counters are as they were, except that, if served, this
  // address's have run the guard for this poll.
  ghost predicate Guarded(strings: map<string, StringKey>, strings': map<string, StringKey>,
                          ip: string, pollID: string, now: nat, l: R.Limits, served: bool) {
    forall a, s :: Address(a) && Seen(strings, a, s) ==>
      Seen(strings', a, if served && a == ip then R.Serve(s, R.Request(now, pollID), l).0 else s)
  }

  lemma GuardServes(strings: map<string, StringKey>, strings': map<string, StringKey>, ip: string, pollID: string,
      now: nat, l: R.Limits)
    requires Address(ip)
    requires strings - {RateKey(ip), QuotaKey(ip, pollID)} == strings' - {RateKey(ip), QuotaKey(ip, pollID)}
    requires var (rate, quota, _) :=
        R.Guard(WindowIn(strings, RateKey(ip)), WindowIn(strings, QuotaKey(ip, pollID)), now, l);
      WindowIn(strings', RateKey(ip)) == rate && WindowIn(strings', QuotaKey(ip, pollID)) == quota
    ensures Guarded(strings, strings', ip, pollID, now, l, true)
  {
    hide RateKey, QuotaKey, Address, WindowIn, R.Guard, Seen;
    forall a, s | Address(a) && Seen(strings, a, s)
      ensures Seen(strings', a, if a == ip then R.Serve(s, R.Request(now, pollID), l).0 else s)
    {
      GuardKeysInjective(a, "", ip, pollID);
      if a != ip { SameWindow(strings, strings', {RateKey(ip), QuotaKey(ip, pollID)}, RateKey(a)); }
      forall p
        ensures (a, p) != (ip, pollID) ==> WindowIn(strings', QuotaKey(a, p)) == WindowIn(strings, QuotaKey(a, p))
      {
        GuardKeysInjective(a, p, ip, pollID);
        GuardKeysInjective(ip, pollID, a, p);
        if (a, p) != (ip, pollID) {
          SameWindow(strings, strings', {RateKey(ip), QuotaKey(ip, pollID)}, QuotaKey(a, p));
        }
      }
      if a == ip {
        OwnCounters(strings, strings', ip, pollID, now, l, s);
      } else {
        SameCounters(strings, strings', a, s);
      }
    }
  }

  lemma SameWindow(strings: map<string, StringKey>, strings': map<string, StringKey>, moved: set<string>, key: string)
    requires strings - moved == strings' - moved && key !in moved
    ensures WindowIn(strings', key) == WindowIn(strings, key)
  {
    assert key in strings - moved <==> key in strings' - moved;
    assert key in strings ==> (strings - moved)[key] == (strings' - moved)[key];
  }

  lemma SameCounters(strings: map<string, StringKey>, strings': map<string, StringKey>, ip: string, s: R.Counters)
    requires Seen(strings, ip, s) && WindowIn(strings', RateKey(ip)) == WindowIn(strings, RateKey(ip))
    requires forall p :: WindowIn(strings', QuotaKey(ip, p)) == WindowIn(strings, QuotaKey(ip, p))
    ensures Seen(strings', ip, s)
  {
    hide RateKey, QuotaKey, WindowIn;
  }

  lemma OwnCounters(strings: map<string, StringKey>, strings': map<string, StringKey>, ip: string, pollID: string,
      now: nat, l: R.Limits, s: R.Counters)
    requires Seen(strings, ip, s)
    requires var (rate, quota, _) :=
        R.Guard(WindowIn(strings, RateKey(ip)), WindowIn(strings, QuotaKey(ip, pollID)), now, l);
      WindowIn(strings', RateKey(ip)) == rate && WindowIn(strings', QuotaKey(ip, pollID)) == quota
    requires forall p :: p != pollID ==> WindowIn(strings', QuotaKey(ip, p)) == WindowIn(strings, QuotaKey(ip, p))
    ensures Seen(strings', ip, R.Serve(s, R.Request(now, pollID), l).0)
  {
    hide RateKey, QuotaKey, WindowIn;
  }

  // The ballot script touches no guard key.
  lemma BallotSparesGuards(strings: map<string, StringKey>, pollID: string, k: nat, voter: string, dedupTTL: nat,
      at: nat,
                           ip: string, p: string, now: nat, l: R.Limits)
    ensures Guarded(strings, ScriptStrings(strings, VotedKey(pollID, k, voter), dedupTTL, at), ip, p, now, l, false)
  {
    hide RateKey, QuotaKey, VotedKey, Address, WindowIn, Seen;
    var key := VotedKey(pollID, k, voter);
    var strings' := ScriptStrings(strings, key, dedupTTL, at);
    assert strings - {key} == strings' - {key};
    forall a, s | Seen(strings, a, s) ensures Seen(strings', a, s) {
      GuardKeysApart(a, "", pollID, k, voter);
      SameWindow(strings, strings', {key}, RateKey(a));
      forall q ensures WindowIn(strings', QuotaKey(a, q)) == WindowIn(strings, QuotaKey(a, q)) {
        GuardKeysApart(a, q, pollID, k, voter);
        SameWindow(strings, strings', {key}, QuotaKey(a, q));
      }
      SameCounters(strings, strings', a, s);
    }
  }

  class Store {
    const client: Redis
    const cfg: Config
    const crc: string -> nat

    constructor (client: Redis, cfg: Config, crc: string -> nat)
      ensures this.client == client && this.cfg == cfg && this.crc == crc
    {
      this.client, this.cfg, this.crc := client, cfg, crc;
    }

    predicate WellConfigured() {
      && cfg.shards > 0 && cfg.dedupTTL > 0 && cfg.retention > 0
      && cfg.limits.rateWindow > 0 && cfg.limits.quotaWindow > 0
    }

    function ShardOf(voter: string): nat
      requires WellConfigured()
    {
      crc(voter) % cfg.shards
    }

    method Guard(ip: string, pollID: string, now: nat, fault: Fault) returns (result: Result<R.Verdict>)
      requires WellConfigured() && client.Windowed(RateKey(ip)) && client.Windowed(QuotaKey(ip, pollID))
      modifies client`strings
      ensures client.Windowed(RateKey(ip)) && client.Windowed(QuotaKey(ip, pollID))
      ensures fault == NotSent ==> client.strings == old(client.strings)
      ensures fault != NoFault ==> result == Err(Unavailable)
      ensures var (rate, quota, verdict) :=
          R.Guard(old(client.WindowAt(RateKey(ip))), old(client.WindowAt(QuotaKey(ip, pollID))), now, cfg.limits);
        && (fault != NotSent ==> client.WindowAt(RateKey(ip)) == rate && client.WindowAt(QuotaKey(ip, pollID)) == quota)
        && (fault == NoFault ==> result == Ok(verdict))
      ensures Address(ip) ==>
        Guarded(old(client.strings), client.strings, ip, pollID, now, cfg.limits, fault != NotSent)
      ensures client.strings - {RateKey(ip), QuotaKey(ip, pollID)} ==
        old(client.strings) - {RateKey(ip), QuotaKey(ip, pollID)}
    {
      if fault == NotSent {
        return Err(Unavailable);
      }
      GuardKeysApart(ip, pollID, "", 0, "");
      ghost var before := client.strings;
      var verdict := client.GuardScript(RateKey(ip), QuotaKey(ip, pollID), cfg.limits, now);
      if Address(ip) { GuardServes(before, client.strings, ip, pollID, now, cfg.limits); }
      result := if fault == ReplyLost then Err(Unavailable) else Ok(verdict);
    }

    method TrackPoll(pollID: string, fault: Fault) returns (result: Result<()>)
      modifies client`tracked
      ensures client.tracked == old(client.tracked) + if fault != NotSent then {pollID} else {}
      ensures result == if fault == NoFault then Ok(()) else Err(Unavailable)
    {
      if fault != NotSent {
        client.tracked := client.tracked + {pollID};
      }
      return if fault == NoFault then Ok(()) else Err(Unavailable);
    }

    method UntrackPoll(pollID: string, fault: Fault) returns (result: Result<()>)
      modifies client`tracked
      ensures client.tracked == old(client.tracked) - if fault != NotSent then {pollID} else {}
      ensures result == if fault == NoFault then Ok(()) else Err(Unavailable)
    {
      if fault != NotSent {
        client.tracked := client.tracked - {pollID};
      }
      return if fault == NoFault then Ok(()) else Err(Unavailable);
    }

    // Deduplicates the voter and counts the selected options, in the shard the
    // voter hashes to; a lost reply leaves the ballot counted.
    method CastBallot(pollID: string, voter: string, ids: seq<string>, now: nat,
        fault: Fault) returns (result: Result<bool>)
      requires WellConfigured() && Canonical(pollID)
      modifies client`strings, client`hashes
      ensures fault == NotSent ==> client.strings == old(client.strings) && client.hashes == old(client.hashes)
      ensures fault != NoFault ==> result == Err(Unavailable)
      ensures fault == NoFault ==>
        result == if StringLive(old(client.strings), VotedKey(pollID, ShardOf(voter), voter), now)
                  then Err(AlreadyVoted) else Ok(true)
      ensures client.strings == if fault == NotSent then old(client.strings)
        else ScriptStrings(old(client.strings), VotedKey(pollID, ShardOf(voter), voter), cfg.dedupTTL, now)
      ensures Took(old(client.strings), old(client.hashes), client.strings, client.hashes,
                   pollID, ShardOf(voter), voter, ids, now, cfg, fault != NotSent)
      ensures forall ip, p, t :: Guarded(old(client.strings), client.strings, ip, p, t, cfg.limits, false)
    {
      if fault == NotSent {
        return Err(Unavailable);
      }
      var k := ShardOf(voter);
      ghost var strings, hashes := client.strings, client.hashes;
      var counted := client.CastBallotScript(VotedKey(pollID, k, voter), CountsKey(pollID, k), cfg.dedupTTL,
          cfg.retention, ids, now);
      assert client.strings == ScriptStrings(strings, VotedKey(pollID, k, voter), cfg.dedupTTL, now);
      forall ip, p, t { BallotSparesGuards(strings, pollID, k, voter, cfg.dedupTTL, now, ip, p, t, cfg.limits); }
      assert client.hashes == ScriptHashes(strings, hashes, VotedKey(pollID, k, voter), CountsKey(pollID, k),
          cfg.retention, ids, now);
      forall p, j, shard | Canonical(p) && Represents(strings, hashes, p, j, shard)
        ensures Represents(client.strings, client.hashes, p, j,
          if p == pollID && j == k then S.CastBallot(shard, now, voter, ids, cfg.dedupTTL, cfg.retention).0 else shard)
      {
        ScriptRefines(strings, hashes, pollID, k, voter, ids, cfg.dedupTTL, cfg.retention, now, p, j, shard);
      }
      result := if fault == ReplyLost then Err(Unavailable) else if counted then Ok(true) else Err(AlreadyVoted);
    }

    // Sums each requested option over all shards of the poll, shard k read at
    // when(k); if any read of the pipeline fails there are no counts.
    method Counters(pollID: string, ids: seq<string>, when: nat -> nat,
        fails: bool) returns (result: Result<map<string, nat>>)
      requires WellConfigured()
      ensures fails ==> result == Err(Unavailable)
      ensures !fails ==> result.Ok? && result.value.Keys == (set id | id in ids)
      ensures !fails ==> forall id :: id in ids ==>
        result.value[id] == SumLive(client.hashes, pollID, cfg.shards, id, when)
    {
      var replies: seq<map<string, Option<nat>>> := [];
      for shard := 0 to cfg.shards
        invariant |replies| == shard
        invariant forall k :: 0 <= k < shard ==>
          replies[k] == Reply(Fields(client.hashes, CountsKey(pollID, k), when(k)))
      {
        replies := replies + [Reply(Fields(client.hashes, CountsKey(pollID, shard), when(shard)))];
      }
      if fails {
        return Err(Unavailable);
      }
      result := Gather(ids, replies);
      forall id { GatheredLive(client.hashes, pollID, replies, id, when); }
    }
  }

  // The reply to HGETALL, whose values are numbers unless something other than
  // the ballot script wrote them.
  function Reply(fields: map<string, nat>): map<string, Option<nat>> {
    map id | id in fields :: Some(fields[id])
  }

  function NumberOf(fields: map<string, Option<nat>>, id: string): nat {
    if id in fields && fields[id].Some? then fields[id].value else 0
  }

  function SumReplies(replies: seq<map<string, Option<nat>>>, id: string): nat {
    if replies == [] then 0 else SumReplies(replies[..|replies| - 1], id) + NumberOf(replies[|replies| - 1], id)
  }

  // A requested field of this reply is not a number.
  predicate Corrupt(fields: map<string, Option<nat>>, ids: set<string>) {
    exists id :: id in ids && id in fields && fields[id].None?
  }

  lemma {:induction false} GatheredLive(hashes: map<string, HashKey>, pollID: string, replies: seq<map<string,
      Option<nat>>>, id: string, when: nat -> nat)
    requires forall k :: 0 <= k < |replies| ==> replies[k] == Reply(Fields(hashes, CountsKey(pollID, k), when(k)))
    ensures SumReplies(replies, id) == SumLive(hashes, pollID, |replies|, id, when)
    ensures forall k, ids :: 0 <= k < |replies| ==> !Corrupt(replies[k], ids)
  {
    hide Fields, CountsKey;
    if replies != [] { GatheredLive(hashes, pollID, replies[..|replies| - 1], id, when); }
  }

  // The loop over the replies, whatever instants they stem from: each requested
  // option gets the sum of its fields, other fields are skipped, and a requested
  // field that is no number is an internal error.
  method Gather(ids: seq<string>, replies: seq<map<string, Option<nat>>>) returns (result: Result<map<string, nat>>)
    ensures result.Err? <==>
      exists k, id :: 0 <= k < |replies| && id in ids && id in replies[k] && replies[k][id].None?
    ensures result.Err? ==> result.code == Internal
    ensures result.Ok? ==> result.value.Keys == (set id | id in ids)
    ensures result.Ok? ==> forall id :: id in ids ==> result.value[id] == SumReplies(replies, id)
  {
    var counts: map<string, nat> := map id | id in ids :: 0;
    for k := 0 to |replies|
      invariant counts.Keys == set id | id in ids
      invariant forall id :: id in counts ==> counts[id] == SumReplies(replies[..k], id)
      invariant forall j :: 0 <= j < k ==> !Corrupt(replies[j], counts.Keys)
    {
      var sums := AddFields(counts, replies[k]);
      if sums.Err? {
        return sums;
      }
      assert replies[..k + 1][..k] == replies[..k];
      counts := sums.value;
    }
    assert replies[..|replies|] == replies;
    return Ok(counts);
  }

  // One shard's reply, its fields visited in any order.
  method AddFields(counts: map<string, nat>, fields: map<string, Option<nat>>) returns (sums: Result<map<string, nat>>)
    ensures sums.Err? <==> exists id :: id in counts && id in fields && fields[id].None?
    ensures sums.Err? ==> sums.code == Internal
    ensures sums.Ok? ==> sums.value.Keys == counts.Keys
    ensures sums.Ok? ==> forall id :: id in counts ==> sums.value[id] == counts[id] + NumberOf(fields, id)
  {
    var added, left := counts, fields.Keys;
    while left != {}
      invariant left <= fields.Keys && added.Keys == counts.Keys
      invariant forall id :: id in counts ==> added[id] == counts[id] + if id in left then 0 else NumberOf(fields, id)
      invariant forall id :: id in counts && id in fields && id !in left ==> fields[id].Some?
      decreases |left|
    {
      var id :| id in left;
      left := left - {id};
      if id in added {
        if fields[id].None? {
          return Err(Internal);
        }
        added := added[id := added[id] + fields[id].value];
      }
    }
    return Ok(added);
  }
}
