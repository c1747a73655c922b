// The true tally: what the log of counted ballots says each option received.
module ProtocolTally {
  import opened Protocol

  function Bit(b: bool): nat { if b then 1 else 0 }

  // The number of counted ballots that select o.
  function Tally(log: seq<Counted>, o: string): nat {
    if log == [] then 0
    else Tally(log[..|log| - 1], o) + Bit(o in log[|log| - 1].ballot)
  }

  // Those among them at log position from or later, in one of these shards.
  function CountVotes(log: seq<Counted>, from: nat, shards: set<nat>, o: string): nat {
    if |log| <= from then 0
    else
      var last := log[|log| - 1];
      CountVotes(log[..|log| - 1], from, shards, o) + Bit(last.shard in shards && o in last.ballot)
  }

  lemma CountAppend(log: seq<Counted>, x: Counted, from: nat, shards: set<nat>, o: string)
    ensures from <= |log| ==>
      CountVotes(log + [x], from, shards, o) ==
        CountVotes(log, from, shards, o) + Bit(x.shard in shards && o in x.ballot)
    ensures Tally(log + [x], o) == Tally(log, o) + Bit(o in x.ballot)
  {
    assert (log + [x])[..|log|] == log;
  }

  lemma {:induction false} CountEmpty(log: seq<Counted>, from: nat, o: string)
    ensures CountVotes(log, from, {}, o) == 0
  {
    if |log| > from { CountEmpty(log[..|log| - 1], from, o); }
  }

  lemma {:induction false} CountSplit(log: seq<Counted>, from: nat, shards: set<nat>, k: nat, o: string)
    requires k !in shards
    ensures CountVotes(log, from, shards + {k}, o) == CountVotes(log, from, shards, o) + CountVotes(log, from, {k}, o)
  {
    if |log| > from { CountSplit(log[..|log| - 1], from, shards, k, o); }
  }

  lemma {:induction false} CountAll(log: seq<Counted>, shards: set<nat>, o: string)
    requires forall i :: 0 <= i < |log| ==> log[i].shard in shards
    ensures CountVotes(log, 0, shards, o) == Tally(log, o)
  {
    if log != [] { CountAll(log[..|log| - 1], shards, o); }
  }

  lemma {:induction false} CountPrefix(log: seq<Counted>, n: nat, from: nat, shards: set<nat>, o: string)
    requires n <= |log|
    ensures CountVotes(log[..n], from, shards, o) <= CountVotes(log, from, shards, o)
    ensures Tally(log[..n], o) <= Tally(log, o)
  {
    if n < |log| {
      CountPrefix(log[..|log| - 1], n, from, shards, o);
      assert log[..|log| - 1][..n] == log[..n];
    } else {
      assert log[..n] == log;
    }
  }

  // Counting from a later position loses only ballots of those shards before it.
  lemma {:induction false} CountLater(log: seq<Counted>, from: nat, shards: set<nat>, o: string)
    ensures CountVotes(log, from, shards, o) <= CountVotes(log, 0, shards, o)
    ensures (forall i :: 0 <= i < |log| && log[i].shard in shards ==> from <= i)
            ==> CountVotes(log, from, shards, o) == CountVotes(log, 0, shards, o)
  {
    if log != [] {
      CountLater(log[..|log| - 1], from, shards, o);
    }
  }
}
