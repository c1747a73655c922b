# Voting service: a verified model

Dafny 4.11 model of the voting service: sharded vote counters in Redis, their
flush to PostgreSQL, the poll cache that decides who may vote, and the pieces
around them. `dafny verify dfyconfig.toml` checks all of it.

## How it is laid out

The protocol is a step relation over one state. Every script, Redis command and
SQL statement is one atomic step, and casts, cache fills, Activate and Finish
requests, synchronisations, Results reads, expiry, counter loss, eviction and
lost replies interleave freely. A process that stops stepping has crashed.

- `Protocol` has the state and the steps, `ProtocolTally` the log of counted
  ballots and the true tally it defines.
- `ProtocolInvariant` and `ProtocolPreservation`: what every step keeps.
- `ProtocolTheorems` and `ProtocolLifecycle`: what every run guarantees.
- `ProtocolSnapshot` and `ProtocolDedup`: what a read of the shards returns, and
  which ballots are counted, over every run.
- `ProtocolRetention`: how long counters that are not lost suffice.
- `ProtocolLostVote`: the settle theorems in both directions, by two runs that lose a vote.
- `ProtocolStaleness`: runs in which an answer is served at the very staleness bound.
- `ProtocolProgress`: what each request and synchronisation achieves when nothing interrupts it.

The sequential code is imperative, each method against functions on values which
the protocol uses as well: `VoteStore` (the Redis commands, both scripts, the store)
against `ShardScript` and `RateLimit`, with the key strings in `Keys`; `TtlCache`
(a map into a recency list) against `TtlLines`; `PollCache`; `Repository`;
`SyncService`; `PollService` with `Text`; `VoteService`; `Results`; `Entity`.
`Refinement` proves that a cast's call of the store, the counter loop, the save and
the cache's lookup and invalidation do what the protocol's steps do.

## Main results

- **Settling.** Take any horizon that leaves a poll time to settle, and a Redis
  that loses no counts hash before its deadline. Every poll untracked within the
  horizon of its first ballot ends with exact durable counts, in every run, if and
  only if SettleAfter is at least SharedTTL + LocalTTL + four request timeouts + the
  sync timeout, and the horizon is shorter than the counter retention. The
  configuration loader enforces neither. Its defaults are safe for polls settled
  within seven days of their first ballot; a poll open longer can lose votes, and
  so can any with SharedTTL alone at its permitted maximum.
- **Staleness.** An answer of the poll cache is older than the origin by less
  than SharedTTL + LocalTTL (for a miss, NegativeTTL and the smaller of
  NegativeTTL and LocalTTL) plus three request timeouts, and runs meet both bounds.
- **Counting.** Live, durable and reported counts never exceed the ballots
  counted. What a read of the shards returns lies between the tallies at its
  first and its last shard read, the lower end while no counter is gone. Over
  every run a ballot is counted exactly if none of its voter was counted less
  than DedupTTL ago, and the shards act as one store.
- **Limiting.** An interval of length L sees at most limit * (ceil(L/W) + 1) - 1
  allowed requests, and for L = W that many can occur.

## Assumptions

- One global clock; durations are whole units of it, and rate windows, dedup
  lifetime and counter retention are at least one second.
- Every process uses the same number of shards (cmd/api/main.go:57-65, cmd/worker/main.go:52-60).
- Poll ids are canonical: keys use the id as it came in, so an id has one spelling, without a
  colon or zero character (and, for `Keys.BallotKeysShareSlot`, without a closing brace).
- Polls are never deleted and their options never change after Create.
- The request timeout bounds a request from its start to its last effect, a
  script that the server runs late included; the sync timeout does so for a synchronisation.
- A Redis key is live strictly before its deadline; a local cache entry is
  served up to and including its expiry, since the source uses `After`.
- The protocol follows one poll: keys of different polls never meet, which
  `Keys` proves. Other polls show as eviction and guard rejection.
- A counts hash may be lost at any time, but no dedup key is lost before its
  deadline. `ProtocolTheorems.VotesApart` and `ProtocolDedup` rest on that.
- A rendered client address has no closing brace.
- The tracked set is never lost; a poll leaves it only by a synchronisation.
- `ProtocolTheorems.NoLostVote` and `ProtocolLostVote.SettleTheorem` allow counters
  to be lost, and speak of a settling sync that met no such counter
  (`UntrackedClean`); `ProtocolRetention` and `ProtocolLostVote.HorizonTheorem`
  allow none to be lost before its deadline, and ask for nothing else.
- The poll under discussion was tracked. If TrackPoll fails the poll is active
  and may be untracked, and a second Activate reports a conflict: `PollService.Service.Activate`.

## Where code and comments differ

- `NewTTL` says "at most capacity entries in total". That holds exactly for a
  capacity of 16 or more; each of the 16 shards always keeps at least one.
- Finish reads its clock before the conditional update, so finished_at can
  precede the instant the poll stops by up to one request timeout. The fourth
  request timeout in the settle bound is this one.
- A cache Set with a lifetime of zero or less leaves an old value in place.

## Model

| member | source | states |
|---|---|---|
| ProtocolLostVote.SettleTheorem | internal/service/sync.go:60-93 | SettleAfter covers both cache lifetimes, four request timeouts and the sync timeout if and only if no run untracks a poll by a sync that met no expired or lost counter, and has a durable count that differs from the counted ballots then or later |
| ProtocolLostVote.HorizonTheorem | internal/service/sync.go:60-93 | for any horizon that leaves time to settle: while the server loses no hash before its deadline, no poll untracked within the horizon of its first ballot loses a vote if and only if the settle window is safe and the horizon shorter than the retention |
| ProtocolRetention.NoLostVoteWithin | internal/service/sync.go:72-84 | under these conditions, which a caller can check, the durable counts are exact from the untracking on and no ballot is counted |
| ProtocolRetention.ScansWhole | internal/votestore/scripts.go:48-54 | while the server loses no hash before its deadline, no read of the shards has met a gone counter as long as the retention of the first ballot is not over |
| ProtocolLostVote.ExpiredVote | internal/votestore/scripts.go:48-54 | with a horizon no shorter than the retention, in some run the only ballot's hash expires before a sync reads it and the poll is untracked within the horizon with a count of zero |
| ProtocolTheorems.NoLostVote | internal/service/sync.go:72-84 | with a safe window, from the state where a sync that met no expired or lost counter untracked the poll on, no ballot is counted and each durable count equals the ballots selecting that option |
| ProtocolTheorems.SettledExact | internal/service/sync.go:72-84 | the settling sync's first shard read came after the last counted ballot, and the durable row is exact if it met no gone counter |
| ProtocolTheorems.BallotsEnd | internal/service/vote.go:48-78 | every ballot of a finished poll was counted within both cache lifetimes and four request timeouts of finished_at |
| ProtocolLostVote.LostVote | internal/service/sync.go:88-93 | with any shorter window some run, in which Activate and Finish complete, counts a ballot after the last flush and untracks the poll with a durable count of zero |
| ProtocolLostVote.LoaderAdmitsLostVotes | internal/config/config.go:146-229 | with the defaults no poll untracked within a horizon of its first ballot loses a vote if and only if the horizon is shorter than seven days; with SharedTTL alone at its maximum some run loses one, and so it does, within an hour, with the retention alone at its minimum |
| ProtocolTheorems.ServedFresh | internal/pollcache/cache.go:66-127 | whatever fills, invalidations, failed deletes and evictions race, an answer served at t was the origin's answer at an instant later than t minus the staleness bound of its kind |
| ProtocolStaleness.StalestPoll | internal/pollcache/cache.go:66-127 | for every configuration a run serves an open poll when the origin last gave that answer one unit less than the bound ago: SharedTTL + LocalTTL + three request timeouts is exact |
| ProtocolStaleness.StalestMiss | internal/pollcache/cache.go:93-127 | for every configuration and poll a run serves not-found one unit before NegativeTTL, the smaller of NegativeTTL and LocalTTL, and three request timeouts have passed since the poll was created |
| ProtocolPreservation.RunInv | internal/service/vote.go:40-79 | every state of every run keeps the invariant: history, caches, casts, log, shards, dedup keys, durable row, syncs and queries agree |
| ProtocolPreservation.StepKeeps | internal/service/sync.go:40-86 | each single step of any actor or of the environment keeps the invariant |
| ProtocolTheorems.NeverOverReports | internal/service/poll.go:290-312 | in every reachable state live sums and durable counts are at most the true tally, and live sums equal it while no counter is gone |
| ProtocolTheorems.DurableNeverDecreases | internal/repository/poll.go:307-314 | durable counts never decrease along a run |
| ProtocolTheorems.ResultsBracket | internal/service/poll.go:290-312 | a Results count is at most the tally at its end, at least the durable value it read, and, if no counter was gone at its live read, at least the tally at its begin |
| ProtocolTheorems.ResultsNonDecreasing | internal/service/poll.go:290-312 | a Results call that begins after another ended never shows a smaller count if its live read was available and whole |
| ProtocolSnapshot.SnapshotBracket | internal/votestore/redis.go:86-115 | for a complete read of any sync or query in any run there are states at which it read every shard once, in some order; each sum is what those reads found, at most the tally at the last of them, and at least the tally at the first if each shard was whole when read |
| ProtocolSnapshot.ScanIsReads | internal/votestore/redis.go:92-113 | every scan of every run, complete or not, is the sum of its shard reads, no shard read twice; its ends are the log lengths at the first and the last, and it is intact exactly if each shard read was whole |
| ProtocolPreservation.ScanBelowTally | internal/votestore/redis.go:86-115 | in a state, a complete scan is at most the tally at its last shard read and, when no counter was gone, at least the tally at its first shard read |
| ProtocolPreservation.ShardReadBounds | internal/votestore/redis.go:94-113 | one shard's live hash is at most that shard's true tally, and equal to it when the hash is whole |
| ProtocolPreservation.MergedOk | internal/service/poll.go:304-312 | the merge of a durable row and a scan lies between the tally at the begin of the query and the tally now |
| ProtocolTheorems.VotesApart | internal/votestore/scripts.go:44-46 | two counted ballots of one voter lie in one shard and at least DedupTTL apart, retries and lost replies included |
| ProtocolDedup.CountedUnlessRecent | internal/votestore/scripts.go:38-57 | at every script step of every run the ballot is counted if and only if no ballot of its voter was counted less than DedupTTL ago; a refused one leaves log and shards as they were |
| ProtocolDedup.MarksPlaced | internal/votestore/redis.go:142-145 | in every reachable state each dedup key lies in the shard its voter hashes to |
| ProtocolTheorems.CounterEpoch | internal/votestore/scripts.go:48-54 | a counts hash expires exactly the retention after the ballot that created it, and each field counts the ballots of that shard from that one on |
| ProtocolTheorems.RunGrows | internal/repository/poll.go:230-318 | log, history and durable row only grow, and finished syncs and queries keep their outcome |
| ProtocolLifecycle.StatusHistory | internal/repository/poll.go:230-254 | the stored status climbs strictly through draft, active, finished; finished_at is set exactly when finished and never changes; all other content is as created |
| ProtocolLifecycle.TransitionsRise | internal/service/poll.go:224-249 | among racing requests at most one Activate and one Finish succeed, and no Activate after a Finish |
| ProtocolLifecycle.TransitionReturns | internal/service/poll.go:251-272 | the poll a finished Activate or Finish returns is at or past the requested status |
| ProtocolLifecycle.UntrackedOnlySettled | internal/service/sync.go:60-86 | an existing poll leaves the tracked set only by a sync that loaded it finished, found it settled and had its counters absorbed by the durable row |
| ProtocolLifecycle.CountedBallotsValid | internal/service/vote.go:48-75 | every counted ballot, admitted by whatever stale copy, is a valid ballot of the poll as created |
| ProtocolLifecycle.CountedWhileOpen | internal/service/vote.go:48-75 | every counted ballot lies in the voting window, up to one request timeout past its end, and some copy of the poll that the origin gave less than the staleness bound before was active |
| ProtocolLifecycle.TalliesMatchBallots | internal/entity/poll.go:77-113 | ballots are at most the sum of tallies, which is at most the choice limit times the ballots; for single choice they are equal |
| ProtocolProgress.LifeCompletes | internal/service/sync.go:60-86 | every poll open at once, and every valid ballot of it, have a run in which the poll is created, activated, voted in by a request that waits for its cache fill, finished and settled, and ends untracked with durable counts of exactly that ballot |
| ProtocolProgress.BallotCompletes | internal/service/vote.go:48-78 | from every reachable state in which the poll is open, a request past both tiers can run through; its valid ballot is counted exactly if the voter is not marked, and the answer of the origin is then in both tiers |
| ProtocolProgress.AdminCompletes | internal/service/poll.go:224-272 | from every reachable state an Activate or Finish can run through; from a source status the poll moves, is tracked if activated and is gone from both tiers, and otherwise nothing moves |
| ProtocolProgress.SyncCompletes | internal/service/sync.go:60-86 | from every reachable state in which the poll is tracked a sync can run through, reading the shards in any order; it makes the durable counts exact if no counter is gone, and keeps the poll tracked exactly if it has not settled |
| ProtocolProgress.QueryCompletes | internal/service/poll.go:290-312 | from every reachable state a Results call can run through, reading the shards in any order; with its live read it shows exactly the true tally if no counter is gone, and without it exactly the durable row |
| ProtocolProgress.CountersMayGo | internal/votestore/redis.go:94-113 | any run can go on by losing the counters of any shard, which then reads as empty ever after and is whole only if it held no ballot: no theorem assumes a server that keeps them unless it says so |
| ShardScript.ShardingRefinesGlobal | internal/votestore/redis.go:65-83 | a ballot sent to its voter's shard is counted exactly when no shard has that voter marked; at every later instant the voter is then marked until the dedup lifetime is over, everybody else as before, and the summed tally has its selections while the hash lives |
| ShardScript.ShardedRunsAsOne | internal/votestore/redis.go:65-83 | for every sequence of ballots the shards and one unsharded store give the same verdicts, mark the same voters at every instant from then on and have the same tally until the first retention is over, and never a larger one |
| ShardScript.IncrementAdds | internal/votestore/scripts.go:49-51 | the increments add to each field its multiplicity in the ballot and create no other field |
| VoteStore.ScriptRefines | internal/votestore/scripts.go:38-57 | on real key strings, the ballot script does to the addressed shard what the ballot function does and leaves every other shard of every poll as it was |
| VoteStore.Redis.CastBallotScript | internal/votestore/scripts.go:38-57 | the script's whole effect on string and hash keys: refused and unchanged if marked, else marked, incremented, and given a deadline only if the hash was absent |
| VoteStore.Redis.GuardScript | internal/votestore/scripts.go:6-35 | the script moves the two windows and gives the verdict as the guard function says (RateLimit.GuardVerdict), touches no other key, and keeps deadlines on its keys |
| VoteStore.Redis.CountHit | internal/votestore/scripts.go:14-18 | INCR with EXPIRE on the first hit is one hit of a fixed window |
| VoteStore.Store.Guard | internal/votestore/redis.go:47-62 | a delivered call runs the guard on the counters of this address and poll and leaves those of every other address alone, an undelivered one moves nothing, and any failure is unavailability |
| VoteStore.Store.CastBallot | internal/votestore/redis.go:65-83 | reports a second vote exactly when the voter is marked; a lost reply leaves the ballot in its shard; all other shards and all guard counters are untouched |
| VoteStore.Store.Counters | internal/votestore/redis.go:86-115 | returns exactly the requested options, each with the sum of its fields live when their shard was read, one instant a shard; a failed pipeline is unavailability |
| VoteStore.AddFields | internal/votestore/redis.go:101-113 | one shard's reply, in any field order, adds each requested option's field and skips the others; it fails exactly if a requested field is no number |
| VoteStore.Gather | internal/votestore/redis.go:87-115 | whatever instants the replies stem from, each requested option gets the sum of its fields, and the result is an internal error exactly if a requested field is no number |
| VoteStore.SumLiveRefines | internal/votestore/redis.go:92-113 | the sum over the hash keys is the sum over the shard values they represent |
| VoteStore.Store.TrackPoll | internal/votestore/redis.go:118-123 | adds this poll and nothing else to the tracked set unless the call never arrives; fails with unavailability |
| VoteStore.Store.UntrackPoll | internal/votestore/redis.go:135-140 | removes this poll and nothing else from the tracked set unless the call never arrives; fails with unavailability |
| Keys.TagInjective | internal/votestore/redis.go:147-149 | a key under a shard tag determines the poll, the shard and the rest of the key |
| Keys.VotedKeyInjective | internal/votestore/redis.go:65-68 | dedup keys of different polls, shards or voters differ |
| Keys.CountsKeyInjective | internal/votestore/redis.go:94-96 | counts keys of different polls or shards differ |
| Keys.GuardKeysApart | internal/votestore/redis.go:47-50 | the rate and quota keys differ from each other and from every dedup key |
| Keys.GuardKeysInjective | internal/votestore/redis.go:47-50 | rate keys of different addresses differ, quota keys of different addresses or polls differ, and no rate key is a quota key |
| Keys.CountsKeyApart | internal/votestore/redis.go:65-68 | a counts key, which holds a hash, is none of the keys that hold strings |
| Keys.VoterPreimageInjective | internal/service/vote.go:82-88 | different (poll, token) pairs are digested from different texts |
| VoteService.Service.VoterHashInjective | internal/service/vote.go:82-88 | with a digest that tells texts apart, voter hashes of different polls or tokens differ |
| Keys.BallotKeysShareSlot | internal/votestore/redis.go:147-149 | dedup key and counts key of a ballot have one hash tag, made of poll and shard, so a cluster keeps them in one slot |
| Keys.GuardKeysShareSlot | internal/votestore/redis.go:47-50 | so do the rate and quota keys of an address |
| RateLimit.IntervalBound | internal/votestore/scripts.go:14-22 | any interval of length L, wherever it starts, sees at most limit * (ceil(L/W) + 1) - 1 passing requests |
| RateLimit.BoundIsMet | internal/votestore/scripts.go:14-22 | for every limit and window there are arrivals that reach the bound for an interval of one window |
| RateLimit.AllowedBoundIsMet | internal/votestore/scripts.go:14-34 | for every limit and window there are requests of which the guard allows that many in one window length, by the rate check alone or the quota check alone |
| RateLimit.GuardVerdict | internal/votestore/scripts.go:14-34 | a request is refused by the rate check exactly if the limit is positive and it is hit number more than the limit of its window, and by the quota check exactly if it passed and the same holds there; a limit of zero or less neither refuses nor counts |
| RateLimit.HitNumber | internal/votestore/scripts.go:14-18 | over any requests the counter's hit number is their number since its window opened, and the window opens with a request that finds no live one and ends one length later |
| RateLimit.NoLimits | internal/votestore/scripts.go:14-34 | with both limits zero or less every request is allowed |
| RateLimit.GuardBounds | internal/votestore/scripts.go:14-34 | over every request sequence of an address, allowed requests obey the rate bound, and those for one poll the quota bound |
| VoteStore.GuardServes | internal/votestore/redis.go:47-62 | the keyspace holds separate counters for every address: a guard call is one request of the run those bounds speak of for its own address, and no request for any other |
| RateLimit.QuotaGate | internal/votestore/scripts.go:24-32 | the quota counter of a poll is the window of just those of its requests that passed the rate check, and decides which are allowed |
| RateLimit.RateGate | internal/votestore/scripts.go:14-22 | the rate counter is the window of all requests of the address; no request is allowed that it stops, and with the quota off every other one is |
| TtlLines.PlayRefines | internal/ttlcache/ttlcache.go:50-104 | after any operations a shard has distinct keys, is within its capacity and holds for each of its keys what a plain expiring map holds |
| TtlLines.HitIsLatest | internal/ttlcache/ttlcache.go:50-68 | a hit returns the value of the latest positive-lifetime Set with no later Delete, not past its expiry |
| TtlLines.StackProperty | internal/ttlcache/ttlcache.go:71-94 | a key at the front stays, behind touched keys only, while it is not deleted or looked up expired and fewer than capacity other keys are touched |
| TtlLines.RecentlyUsedIsServed | internal/ttlcache/ttlcache.go:50-94 | a key set or hit is served, with its latest value, by every lookup up to its expiry under the same conditions |
| TtlLines.SetIsServed | internal/ttlcache/ttlcache.go:50-94 | a value stored with a positive lifetime is served up to and including that much later, and not after, while it is not replaced or deleted and fewer than capacity other keys are touched |
| TtlLines.TouchedIs | internal/ttlcache/ttlcache.go:50-94 | a key counts as touched exactly if it is another one and is looked up or stored with a positive lifetime |
| TtlCache.Shard.Get | internal/ttlcache/ttlcache.go:50-68 | map and list stay in one-to-one agreement and change as the lookup on lines says, expired entries removed |
| TtlCache.Shard.Set | internal/ttlcache/ttlcache.go:71-94 | map and list stay in agreement and within capacity and change as the store on lines says, evicting the last line when full |
| TtlCache.Shard.Delete | internal/ttlcache/ttlcache.go:97-104 | removes the key's line if present and no other |
| TtlCache.Shard.RemoveLocked | internal/ttlcache/ttlcache.go:106-109 | takes the element out of the list and its key out of the map, keeping both in agreement |
| TtlCache.TTL.Get | internal/ttlcache/ttlcache.go:50-68 | a lookup changes the key's shard only, as on lines |
| TtlCache.TTL.Set | internal/ttlcache/ttlcache.go:71-94 | a store changes the key's shard only, as on lines, and adds only new elements to it |
| TtlCache.TTL.Delete | internal/ttlcache/ttlcache.go:97-104 | a delete changes the key's shard only, as on lines |
| TtlCache.CapacityHolds | internal/ttlcache/ttlcache.go:33-47 | a cache built with a capacity never exceeds it, after any operations, if and only if it is at least sixteen (for a hash that reaches every shard) |
| TtlCache.PerShardIs | internal/ttlcache/ttlcache.go:33-37 | each of the sixteen shards has the sixteenth part of the capacity, rounded down, and at least one entry |
| TtlCache.UsedIsServed | internal/ttlcache/ttlcache.go:33-109 | in a cache built with a capacity and put through any operations, a used key is served with its latest value up to its expiry while it is not deleted and fewer other keys of its shard are touched than its part of the capacity |
| TtlCache.Replay | internal/ttlcache/ttlcache.go:33-109 | a new cache put through any operations holds in each shard what those that went there leave in a list of the shard's capacity, and has that many entries |
| PollCache.Cache.Poll | internal/pollcache/cache.go:66-78 | serves the local tier if live, else the shared tier if live and readable, else the origin: the poll it holds there, or not-found if missing there; only an answer of the origin reaches the shared tier; other polls keep their local line or are evicted |
| PollCache.Cache.Resolve | internal/pollcache/cache.go:80-102 | the same from the flight's own second local look on, and a failing origin leaves nothing cached |
| PollCache.PollTwice | internal/pollcache/cache.go:66-134 | what a lookup got from the origin or the shared tier, a second lookup gets from the local tier for exactly the local lifetime of its kind, and then, if write and read worked, from the shared tier until its lifetime is over |
| PollCache.Cache.Store | internal/pollcache/cache.go:104-127 | an answer is held locally for LocalTTL, or for the smaller of NegativeTTL and LocalTTL if the poll is missing, even if the shared write fails, and in the shared tier for SharedTTL or NegativeTTL if it does not |
| PollCache.Cache.Invalidate | internal/pollcache/cache.go:114-120 | the local line is gone in any case, the shared entry unless the delete fails, and no other poll's line changes |
| Repository.FlushConverges | internal/repository/poll.go:296-318 | overlapping, repeated or reordered saves of the same snapshots leave the same row |
| Repository.SaveAllPeak | internal/repository/poll.go:307-314 | after any saves each count is the maximum of the initial row and all snapshots, and the keys are the union of theirs |
| Repository.FlushKeepsKeys | internal/repository/poll.go:91-102 | saves of exactly the poll's options keep the row's key set, which Create made its option ids |
| Repository.UpsertRowsAll | internal/repository/poll.go:307-314 | the row-by-row conflict upsert of distinct keys is the pointwise maximum over the union of keys |
| Repository.PollRepository.SaveResults | internal/repository/poll.go:296-318 | splits the counts into columns and upserts them; only this poll's row changes, to the maximum; a missing poll or an option of no poll is an error that changes nothing, and a lost reply is one that saves |
| Repository.PollRepository.Create | internal/service/poll.go:64-89 | all three inserts are visible if the commit takes effect, acknowledged or not, and none otherwise; the result rows are zero for each option, and the table invariants hold |
| Repository.PollRepository.FoldPoll | internal/repository/poll.go:105-152 | folding any answer of the engine gives not-found exactly for a missing poll, else the stored header with the option rows in order |
| Repository.PollRepository.SelectPoll | internal/repository/poll.go:106-111 | an ordered answer of the engine always exists |
| Repository.PollRepository.UpdatePollStatus | internal/repository/poll.go:230-254 | moves exactly the addressed poll, exactly from a listed status, says whether it did, and keeps finished_at set exactly when finished; a failing statement is an error, with or without its effect |
| Repository.CreateThenLoad | internal/repository/poll.go:105-152 | for any physical order of the option rows, a load after Create gives back the created poll with its options in order |
| Repository.OneOrder | internal/repository/poll.go:111-111 | options with positions 0..n-1 have one order by position |
| PollService.BuildPoll | internal/service/poll.go:91-167 | accepts exactly the commands no rule speaks against, builds the described poll, and otherwise names the first broken rule in the order of the checks (`PollService.OrderOfChecks`) |
| PollService.AcceptedCommands | internal/service/poll.go:91-146 | the accepted commands, rule by rule |
| PollService.TextsAre | internal/service/poll.go:108-123 | the texts are exactly the trimmed ones of the options that are not blank, and all of them in order if none is blank |
| PollService.AcceptedIsStorable | internal/service/poll.go:91-167 | every accepted poll says what the command says, with trimmed distinct texts, positions 0..n-1, the fresh ids and a choice limit in force as stored, and meets all checks of the schema |
| Text.TrimmedForSchema | migrations/000001_initial.up.sql:14-33 | text trimmed of Unicode white space has nothing left that btrim would cut |
| Text.TrimSpaceIs | internal/service/poll.go:92-93 | trimming cuts white space at both ends and nothing else, all of it, and leaves nothing exactly of blank text |
| PollService.Service.Create | internal/service/poll.go:64-89 | succeeds exactly for acceptable commands with a working transaction; whenever the commit takes effect, even with its reply lost, every later load gives the described poll, and otherwise nothing changes |
| PollService.Service.Results | internal/service/poll.go:283-314 | fails only if both reads fail; otherwise each option gets the larger of its durable and live count and Total is their sum |
| PollService.Service.Transition | internal/service/poll.go:251-272 | moves the poll exactly from a listed status, returns it as stored, and reports conflict or not-found on a refused update |
| PollService.Service.Activate | internal/service/poll.go:224-236 | succeeds exactly if the update moves a draft poll and its reply, the reload and the tracking work; then the poll is tracked and gone from the local cache, and from the shared one unless that delete fails; otherwise the caches stay, though the status and the tracking may have moved; a poll past draft is refused with nothing changed |
| PollService.Service.Finish | internal/service/poll.go:239-249 | moves a draft or active poll, with finished_at at its clock, even if the reply or the reload fails; on success the poll is gone from the local cache, and from the shared one unless that delete fails; a finished poll is refused with nothing changed, so the first finish stands |
| Entity.ValidateBallot | internal/entity/poll.go:77-103 | accepts exactly the nonempty duplicate-free selections of the poll's options within the limit, and else names the first fault from the left |
| Entity.BallotsAllowed | internal/entity/poll.go:76-113 | a ballot is a nonempty duplicate-free choice of the poll's own options, one in a single-choice poll, else at most the limit if that lies between 1 and the number of options, and any number otherwise |
| Entity.CheckOpenAt | internal/entity/poll.go:116-127 | gives no fault exactly while the poll is active and the instant is in its half-open window |
| SyncService.OutcomeOf | internal/service/sync.go:60-93 | an existing poll is saved, settled or not, exactly if its calls get that far, with the counters just read; it is untracked exactly if it was finished when loaded, has settled, and its save was acknowledged; it fails exactly if a call that is made fails |
| SyncService.Service.SyncPoll | internal/service/sync.go:60-86 | whether settled or not, each option of the poll ends with the larger of its old count and the sum of its live fields; the poll is untracked exactly when missing or settled and all went well before; no other row or tracking moves |
| SyncService.Service.Sync | internal/service/sync.go:40-58 | in any order and with any failures every tracked poll ends with that row and that tracking, by its own rows, keys and calls; Failed counts exactly the polls with a failing call and the error is raised exactly if there are any |
| Refinement.ScriptStepRefined | internal/votestore/redis.go:65-83 | whatever the contract of the store call allows it to leave in Redis holds the shards of the protocol's script step, if Redis held the shards before |
| Refinement.CastIsScriptStep | internal/votestore/redis.go:65-83 | called where the protocol's cast runs its script, with the same shards and hash, Store.CastBallot leaves the shards of that step and reports success exactly if the step counted the ballot; with its reply lost it leaves the same and reports unavailability |
| Refinement.SaveIsSyncStep | internal/service/sync.go:76-78 | called with the sums of a sync's complete scan, PollRepository.SaveResults succeeds and leaves the durable row of the protocol's save step, other polls' rows untouched |
| Refinement.SyncPollIsSync | internal/service/sync.go:60-86 | called on the protocol's shards and durable row, settled or not, SyncService.SyncPoll leaves the durable row of the protocol's scan and save |
| Refinement.TransitionIsUpdate | internal/service/poll.go:224-272 | called as Activate and Finish call it, PollService.Transition succeeds and moves the stored poll exactly where the protocol's conditional update does |
| Refinement.ScanIsCounters | internal/votestore/redis.go:86-115 | the counts the Counters loop returns are those of an uninterrupted scan of the protocol |
| Refinement.ScanIsGather | internal/votestore/redis.go:92-113 | in every run, with ballots landing between the reads and the shards read in any order, the scan of any sync or query is what the Gather loop makes of the replies to its shard reads |
| Refinement.LookupIsFlight | internal/pollcache/cache.go:80-111 | a flight run without interruption ends with the first live answer of local tier, shared tier and origin, and writes the tiers that missed |
| Refinement.ResolveIsFlight | internal/pollcache/cache.go:80-111 | called on tiers and an origin that are those of the protocol's state, Cache.Resolve serves the flight's answer, its poll or not-found, and leaves both tiers as the flight does; with a failing origin it writes nothing |
| Refinement.InvalidateIsDrops | internal/pollcache/cache.go:114-120 | called on such tiers, Cache.Invalidate leaves them as the two delete steps of an Activate or Finish do |
| Refinement.DropsMove | internal/pollcache/cache.go:114-120 | these are steps of the protocol, the second with a delete that may fail |
| Refinement.AcceptedStarts | internal/service/poll.go:91-167 | the poll of every accepted command is one the runs of the protocol start with |
| Refinement.FlyMoves | internal/pollcache/cache.go:80-111 | every step of that flight is a step of the protocol |
| VoteService.Service.Cast | internal/service/vote.go:40-79 | succeeds exactly when every check passes, the guard allows it and the voter is not marked, and then marks the voter for exactly DedupTTL; with a digest that tells texts apart no other voter's mark in any poll moves; an inadmissible request touches no key and is told the first fault; the voter's shard takes the ballot also if only the last reply is lost, and no other shard or address changes |
| Results.Merge | internal/service/poll.go:304-312 | the counts are the larger of durable and live for exactly the poll's options, and Total is their sum |
| Results.NewResultsResponse | internal/controller/dto.go:100-119 | one row per option, in order, with its count and rounded share, which is 0 if nothing was counted |
| Results.PercentagesAddUp | internal/controller/dto.go:121-126 | when Total is positive the n percentages sum to within n/200 of 100 |
| Results.PercentagesWithin | internal/controller/dto.go:121-126 | each of them is within 0..100 |
| Results.PercentBoundIsMet | internal/controller/dto.go:121-126 | for every even n up to 20000 some counts make the sum exceed 100 by exactly n/200 |

## Left out

- HTTP handlers, routing, JSON, logging, middleware, health probes, process start: only their timeouts appear, as delay bounds.
- Environment parsing: its ranges appear in `ProtocolLostVote.Loadable` only.
- Redis, pgx and PostgreSQL beyond the commands used, each one atomic step; engine failures are parameters.
- SHA-256, CRC-32, maphash and UUID generation: arbitrary functions and fresh ids; deduplication is stated over voter hashes, so no claim on collisions is made.
- Cookie tokens, admin authentication and forwarded-address parsing: no part in counting.
- singleflight: a flight is one in-flight resolve whose result several casts of its replica share.
- Mutexes of the local cache and pointers of its list: each operation is atomic, and the recency list is a sequence of mutable elements.
- Float64 and int64 limits: counts are unbounded and percentages are exact reals.
- ListPollPage, CountPolls, ListOptionsByPollIDs, GetPollStatus and GetResults: reads whose contracts would repeat their statements.
- TtlCache.TTL.Get: does not model the clock of each call, which is an argument, nor the hash seed.
- PollCache.Cache.Poll: does not model other replicas between its steps; their interleaving and the resulting staleness are stated by ProtocolTheorems.ServedFresh.
- VoteStore.Store.Counters: no other call comes between its reads of the shards; that ballots do is stated by ProtocolSnapshot.SnapshotBracket and Refinement.ScanIsGather.
- Repository.CreateThenLoad: orders by position only; ties by id cannot occur, since a poll's positions are distinct.
- Repository.PollRepository.SaveResults: for options of another poll, which no caller passes, it saves as the schema allows but does not promise that a poll's row keeps exactly its own options.
