// The ballot path of one request, from the loaded poll copy to the script.
module VoteService {
  import opened Wrappers
  import opened Entity
  import opened Text
  import opened Keys
  import VoteStore
  import S = ShardScript
  import R = RateLimit

  datatype Command = Command(pollID: string, ids: seq<string>, token: string, ip: string)

  // When the request's steps happen and what the network does to its two scripts.
  datatype Trip = Trip(openAt: int, guardAt: nat, guardFault: Fault, scriptAt: nat, scriptFault: Fault)

  // The request passes every check before the guard.
  predicate Admitted(cmd: Command, wellFormed: bool, loaded: Result<Poll>, openAt: int) {
    && wellFormed && TrimSpace(cmd.token) != ""
    && loaded.Ok? && IsOpenAt(loaded.value, openAt) && IsBallot(loaded.value, cmd.ids)
  }

  ghost predicate Injective(f: string -> string) {
    forall x, y :: f(x) == f(y) ==> x == y
  }

  // Only the guard keys of this client and poll differ.
  ghost predicate OnlyGuardKeys(before: map<string, VoteStore.StringKey>, after: map<string, VoteStore.StringKey>,
      cmd: Command) {
    before - {RateKey(cmd.ip), QuotaKey(cmd.ip, cmd.pollID)} == after - {RateKey(cmd.ip), QuotaKey(cmd.ip, cmd.pollID)}
  }

  // The guard leaves every dedup key as it was.
  lemma GuardSparesVoted(before: map<string, VoteStore.StringKey>, after: map<string, VoteStore.StringKey>,
      cmd: Command, p: string, j: nat, v: string)
    requires OnlyGuardKeys(before, after, cmd)
    ensures VotedKey(p, j, v) in before <==> VotedKey(p, j, v) in after
    ensures VotedKey(p, j, v) in before ==> before[VotedKey(p, j, v)] == after[VotedKey(p, j, v)]
  {
    hide VotedKey, RateKey, QuotaKey;
    GuardKeysApart(cmd.ip, cmd.pollID, p, j, v);
    var key, guards := VotedKey(p, j, v), {RateKey(cmd.ip), QuotaKey(cmd.ip, cmd.pollID)};
    assert key in before - guards <==> key in after - guards;
    assert key in before ==> (before - guards)[key] == (after - guards)[key];
  }

  lemma GuardSparesShards(before: map<string, VoteStore.StringKey>, after: map<string, VoteStore.StringKey>,
      cmd: Command,
                          hashes: map<string, VoteStore.HashKey>, p: string, j: nat, shard: S.Shard)
    requires OnlyGuardKeys(before, after, cmd) && VoteStore.Represents(before, hashes, p, j, shard)
    ensures VoteStore.Represents(after, hashes, p, j, shard)
  {
    hide VotedKey, CountsKey, OnlyGuardKeys, VoteStore.CountsAs;
    forall v ensures (VotedKey(p, j, v) in before <==> VotedKey(p, j, v) in after)
      && (VotedKey(p, j, v) in before ==> before[VotedKey(p, j, v)] == after[VotedKey(p, j, v)])
    {
      GuardSparesVoted(before, after, cmd, p, j, v);
    }
  }

  lemma GuardTakesNone(before: map<string, VoteStore.StringKey>, after: map<string, VoteStore.StringKey>, cmd: Command,
                       hashes: map<string, VoteStore.HashKey>, k: nat, voter: string, at: nat, cfg: VoteStore.Config)
    requires OnlyGuardKeys(before, after, cmd)
    ensures VoteStore.Took(before, hashes, after, hashes, cmd.pollID, k, voter, cmd.ids, at, cfg, false)
  {
    hide VoteStore.Represents, OnlyGuardKeys;
    forall p, j, shard | VoteStore.Represents(before, hashes, p, j, shard)
      ensures VoteStore.Represents(after, hashes, p, j, shard)
    {
      GuardSparesShards(before, after, cmd, hashes, p, j, shard);
    }
  }

  lemma TakenAfter(before: map<string, VoteStore.StringKey>, guarded: map<string, VoteStore.StringKey>, cmd: Command,
                   hashes: map<string, VoteStore.HashKey>,
                   strings': map<string, VoteStore.StringKey>, hashes': map<string, VoteStore.HashKey>,
                   k: nat, voter: string, at: nat, cfg: VoteStore.Config, taken: bool)
    requires OnlyGuardKeys(before, guarded, cmd)
    requires VoteStore.Took(guarded, hashes, strings', hashes', cmd.pollID, k, voter, cmd.ids, at, cfg, taken)
    ensures VoteStore.Took(before, hashes, strings', hashes', cmd.pollID, k, voter, cmd.ids, at, cfg, taken)
  {
    hide VoteStore.Represents, OnlyGuardKeys, S.CastBallot;
    forall p, j, shard | Canonical(p) && VoteStore.Represents(before, hashes, p, j, shard)
      ensures VoteStore.Represents(guarded, hashes, p, j, shard)
    {
      GuardSparesShards(before, guarded, cmd, hashes, p, j, shard);
    }
  }

  lemma GuardThenBallot(a: map<string, VoteStore.StringKey>, b: map<string, VoteStore.StringKey>, c: map<string,
      VoteStore.StringKey>,
                        cmd: Command, now: nat, l: R.Limits, served: bool)
    requires VoteStore.Guarded(a, b, cmd.ip, cmd.pollID, now, l, served)
    requires VoteStore.Guarded(b, c, cmd.ip, cmd.pollID, now, l, false)
    ensures VoteStore.Guarded(a, c, cmd.ip, cmd.pollID, now, l, served)
  {
    hide VoteStore.Seen, R.Serve, Address;
  }

  lemma NotServed(a: map<string, VoteStore.StringKey>, cmd: Command, now: nat, l: R.Limits)
    ensures VoteStore.Guarded(a, a, cmd.ip, cmd.pollID, now, l, false)
  {
  }

  class Service {
    const store: VoteStore.Store
    const digest: string -> string

    constructor (store: VoteStore.Store, digest: string -> string)
      ensures this.store == store && this.digest == digest
    {
      this.store, this.digest := store, digest;
    }

    function VoterHash(pollID: string, token: string): string {
      digest(VoterPreimage(pollID, token))
    }

    // Different voters of a poll, and one voter in different polls, are told apart
    // as long as the digest tells different texts apart.
    lemma VoterHashInjective(pollID: string, token: string, pollID': string, token': string)
      requires Injective(digest) && Canonical(pollID) && Canonical(pollID')
      requires VoterHash(pollID, token) == VoterHash(pollID', token')
      ensures pollID == pollID' && token == token'
    {
      VoterPreimageInjective(pollID, token, pollID', token');
    }

    // This voter's dedup key in this poll is alive.
    predicate Marked(pollID: string, token: string, now: nat)
      requires store.WellConfigured()
      reads store.client
    {
      var voter := VoterHash(pollID, token);
      VoteStore.StringLive(store.client.strings, VotedKey(pollID, store.ShardOf(voter), voter), now)
    }

    // Keys other than the guard's and the voter's own are as they were, and so are
    // the marks of every other voter.
    lemma OthersUnmarked(before: map<string, VoteStore.StringKey>, guarded: map<string, VoteStore.StringKey>,
                         after: map<string, VoteStore.StringKey>, cmd: Command, at: nat,
                         p: string, token: string, now: nat)
      requires store.WellConfigured() && Injective(digest) && Canonical(cmd.pollID) && Canonical(p)
      requires OnlyGuardKeys(before, guarded, cmd) && (p, token) != (cmd.pollID, cmd.token)
      requires var own := VoterHash(cmd.pollID, cmd.token);
        after == guarded || after == VoteStore.ScriptStrings(
          guarded, VotedKey(cmd.pollID, store.ShardOf(own), own), store.cfg.dedupTTL, at)
      ensures var voter := VoterHash(p, token);
        VoteStore.StringLive(after, VotedKey(p, store.ShardOf(voter), voter), now) <==>
        VoteStore.StringLive(before, VotedKey(p, store.ShardOf(voter), voter), now)
    {
      hide VotedKey, Canonical, OnlyGuardKeys, VoterHash, Injective;
      var own, voter := VoterHash(cmd.pollID, cmd.token), VoterHash(p, token);
      GuardSparesVoted(before, guarded, cmd, p, store.ShardOf(voter), voter);
      if VotedKey(p, store.ShardOf(voter), voter) == VotedKey(cmd.pollID, store.ShardOf(own), own) {
        VotedKeyInjective(p, store.ShardOf(voter), voter, cmd.pollID, store.ShardOf(own), own);
        VoterHashInjective(p, token, cmd.pollID, cmd.token);
        assert false;
      }
    }

    // The guard's verdict on the present counters.
    function Verdict(cmd: Command, now: nat): R.Verdict
      reads store.client
    {
      R.Guard(store.client.WindowAt(RateKey(cmd.ip)), store.client.WindowAt(QuotaKey(cmd.ip, cmd.pollID)),
              now, store.cfg.limits).2
    }

    // Succeeds exactly when every check passes, the guard allows the request, and
    // the voter is not marked; then, and when only the last reply is lost, the
    // voter's shard takes the ballot. Every other shard of every poll is as before.
    method Cast(cmd: Command, wellFormed: bool, loaded: Result<Poll>, trip: Trip) returns (result: Result<()>)
      requires store.WellConfigured() && (loaded.Ok? ==> Canonical(cmd.pollID))
      requires store.client.Windowed(RateKey(cmd.ip)) && store.client.Windowed(QuotaKey(cmd.ip, cmd.pollID))
      modifies store.client`strings, store.client`hashes
      ensures var admitted := Admitted(cmd, wellFormed, loaded, trip.openAt);
        var allowed := old(Verdict(cmd, trip.guardAt)) == R.Allow;
        var reached := admitted && trip.guardFault == NoFault && allowed;
        && (result.Ok? <==>
              reached && trip.scriptFault == NoFault && !old(Marked(cmd.pollID, cmd.token, trip.scriptAt)))
        && (!admitted ==> store.client.strings == old(store.client.strings))
        && (!reached ==> store.client.hashes == old(store.client.hashes))
        && (reached && trip.scriptFault == NoFault && result.Err? ==> result.code == AlreadyVoted)
        && (admitted && trip.guardFault == NoFault && !allowed ==>
              result == Err(if old(Verdict(cmd, trip.guardAt)) == R.RateLimited then RateLimited else QuotaExceeded))
      ensures Address(cmd.ip) ==>
        VoteStore.Guarded(old(store.client.strings), store.client.strings,
          cmd.ip, cmd.pollID, trip.guardAt, store.cfg.limits,
          Admitted(cmd, wellFormed, loaded, trip.openAt) && trip.guardFault != NotSent)
      // Nobody votes in a poll that is not open, or with an invalid ballot; what is
      // wrong is told in the order of the checks.
      ensures result.Ok? ==>
        && wellFormed && loaded.Ok? && IsOpenAt(loaded.value, trip.openAt) && IsBallot(loaded.value, cmd.ids)
      ensures !wellFormed ==> result == Err(NotFound)
      ensures wellFormed && TrimSpace(cmd.token) == "" ==> result == Err(InvalidRequest)
      ensures wellFormed && TrimSpace(cmd.token) != "" && loaded.Err? ==> result == Err(loaded.code)
      ensures Admitted(cmd, wellFormed, loaded, trip.openAt) && trip.guardFault != NoFault ==>
        result == Err(Unavailable)
      // A voter whose ballot is counted is marked for the dedup lifetime from then
      // on; no other voter's mark, in this poll or any other, is touched.
      ensures result.Ok? ==> forall t :: trip.scriptAt <= t ==>
        (Marked(cmd.pollID, cmd.token, t) <==> t < trip.scriptAt + store.cfg.dedupTTL)
      ensures Injective(digest) && Canonical(cmd.pollID) ==> forall p, token, t ::
        Canonical(p) && (p, token) != (cmd.pollID, cmd.token) ==>
          (Marked(p, token, t) <==> old(Marked(p, token, t)))
      ensures (wellFormed && TrimSpace(cmd.token) != "" && loaded.Ok?
               && !Admitted(cmd, wellFormed, loaded, trip.openAt)) ==>
        result == Err(if IsOpenAt(loaded.value, trip.openAt) then InvalidRequest else Conflict)
      ensures VoteStore.Took(
        old(store.client.strings), old(store.client.hashes), store.client.strings, store.client.hashes,
        cmd.pollID, store.ShardOf(VoterHash(cmd.pollID, cmd.token)), VoterHash(cmd.pollID, cmd.token),
        cmd.ids, trip.scriptAt, store.cfg,
        && Admitted(cmd, wellFormed, loaded, trip.openAt) && trip.guardFault == NoFault
        && old(Verdict(cmd, trip.guardAt)) == R.Allow && trip.scriptFault != NotSent)
    {
      hide VoteStore.Took, VoteStore.Guarded, TrimSpace, R.Guard, VotedKey;
      hide RateKey, QuotaKey, VoterPreimage, Canonical, IsBallot, Injective;
      ghost var before, hashes, k, voter := store.client.strings, store.client.hashes,
        store.ShardOf(VoterHash(cmd.pollID, cmd.token)), VoterHash(cmd.pollID, cmd.token);
      GuardTakesNone(before, before, cmd, hashes, k, voter, trip.scriptAt, store.cfg);
      NotServed(before, cmd, trip.guardAt, store.cfg.limits);
      if !wellFormed {
        return Err(NotFound);
      }
      if TrimSpace(cmd.token) == "" {
        return Err(InvalidRequest);
      }
      if loaded.Err? {
        return Err(loaded.code);
      }
      if CheckOpenAt(loaded.value, trip.openAt).Some? {
        return Err(Conflict);
      }
      var fault := ValidateBallot(loaded.value, cmd.ids);
      if fault.Some? {
        return Err(InvalidRequest);
      }
      var verdict := store.Guard(cmd.ip, cmd.pollID, trip.guardAt, trip.guardFault);
      ghost var guarded := store.client.strings;
      GuardTakesNone(before, guarded, cmd, hashes, k, voter, trip.scriptAt, store.cfg);
      forall p, token, t | Injective(digest) && Canonical(p) && (p, token) != (cmd.pollID, cmd.token)
        ensures Marked(p, token, t) <==> old(Marked(p, token, t))
      {
        OthersUnmarked(before, guarded, guarded, cmd, trip.scriptAt, p, token, t);
      }
      if verdict.Err? {
        return Err(verdict.code);
      }
      if verdict.value != R.Allow {
        return Err(if verdict.value == R.RateLimited then RateLimited else QuotaExceeded);
      }
      GuardSparesVoted(before, guarded, cmd, cmd.pollID, k, voter);
      var counted := store.CastBallot(cmd.pollID, VoterHash(cmd.pollID, cmd.token), cmd.ids, trip.scriptAt,
          trip.scriptFault);
      TakenAfter(before, guarded, cmd, hashes, store.client.strings, store.client.hashes,
                 k, voter, trip.scriptAt, store.cfg,
                 trip.scriptFault != NotSent);
      forall p, token, t | Injective(digest) && Canonical(p) && (p, token) != (cmd.pollID, cmd.token)
        ensures Marked(p, token, t) <==> old(Marked(p, token, t))
      {
        OthersUnmarked(before, guarded, store.client.strings, cmd, trip.scriptAt, p, token, t);
      }
      if Address(cmd.ip) {
        GuardThenBallot(before, guarded, store.client.strings, cmd, trip.guardAt, store.cfg.limits, true);
      }
      return if counted.Ok? then Ok(()) else Err(counted.code);
    }
  }
}
