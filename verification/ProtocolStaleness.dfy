// The staleness bound is met: for every configuration a run serves an answer that
// the origin last gave one unit less than the bound ago. A fill reads the answer on
// its last instant and writes it to the shared tier one timeout later; a second
// replica copies it as it is about to expire and holds it one timeout later; a
// request shares a lookup on the last instant of the copy and is served one timeout
// after that.
module ProtocolStaleness {
  import opened Wrappers
  import opened Entity
  import opened Protocol
  import opened ProtocolTheorems
  import opened ProtocolLostVote
  import opened ProtocolProgress

  // The fill's entry reaches the shared tier and is almost past its lifetime there.
  lemma Written(c: Config, s: State, e: Entry) returns (s': State)
    requires WfConfig(c) && Reaches(c, s) && |s.versions| > 0
    requires s.local == map[] && s.flights == map[0 := Flight(0, s.now, FlightSetShared(e))]
    ensures Reaches(c, s')
    ensures var written := s.now + c.requestTimeout;
      s' == s.(now := written + SharedTTLFor(c, e.answer) - 1,
               flights := map[0 := Flight(0, s.now, FlightSetLocal(e))],
               shared := Some(SharedEntry(e, written + SharedTTLFor(c, e.answer))))
  {
    hide Reaches;
    var written := s.now + c.requestTimeout;
    ExtendTick(c, s, written);
    var s1 := s.(now := written);
    var s2 := s1.(flights := map[0 := Flight(0, s.now, FlightSetLocal(e))],
                  shared := Some(SharedEntry(e, written + SharedTTLFor(c, e.answer))));
    assert s2.flights == s1.flights[0 := s1.flights[0].(pc := FlightSetLocal(e))];
    ReachLeg(c, s1, 0, FlightSetLocal(e), s2);
    ExtendTick(c, s2, written + SharedTTLFor(c, e.answer) - 1);
    s' := s2.(now := written + SharedTTLFor(c, e.answer) - 1);
  }

  // Replica 1 copies it then, and holds it one timeout later.
  lemma Copied(c: Config, s: State, e: Entry) returns (s': State)
    requires WfConfig(c) && Reaches(c, s) && |s.versions| > 0 && s.local == map[] && 1 !in s.flights
    requires s.shared == Some(SharedEntry(e, s.now + 1))
    ensures Reaches(c, s')
    ensures var held := s.now + c.requestTimeout;
      s' == s.(now := held, flights := s.flights[1 := Flight(1, s.now, FlightDone(e, held))],
               local := map[1 := LocalEntry(e, held + LocalTTLFor(c, e.answer))])
  {
    hide Reaches, LocalTTLFor;
    var held := s.now + c.requestTimeout;
    ReachFlight(c, s, 1, 1);
    var s1 := s.(flights := s.flights[1 := Flight(1, s.now, FlightLocal)]);
    var s2 := s.(flights := s.flights[1 := Flight(1, s.now, FlightShared)]);
    assert s2.flights == s1.flights[1 := s1.flights[1].(pc := FlightShared)];
    ReachLeg(c, s1, 1, FlightShared, s2);
    var s3 := s.(flights := s.flights[1 := Flight(1, s.now, FlightSetLocal(e))]);
    assert s3.flights == s2.flights[1 := s2.flights[1].(pc := FlightSetLocal(e))];
    ReachLeg(c, s2, 1, FlightSetLocal(e), s3);
    s' := Held(c, s, e, s3);
  }

  lemma Held(c: Config, s: State, e: Entry, s3: State) returns (s': State)
    requires c.shards > 0 && Reaches(c, s3) && |s.versions| > 0 && s.local == map[]
    requires s3 == s.(flights := s.flights[1 := Flight(1, s.now, FlightSetLocal(e))])
    ensures Reaches(c, s')
    ensures var held := s.now + c.requestTimeout;
      s' == s.(now := held, flights := s.flights[1 := Flight(1, s.now, FlightDone(e, held))],
               local := map[1 := LocalEntry(e, held + LocalTTLFor(c, e.answer))])
  {
    hide Reaches, LocalTTLFor;
    var held := s.now + c.requestTimeout;
    ExtendTick(c, s3, held);
    var s4 := s3.(now := held);
    s' := s.(now := held, flights := s.flights[1 := Flight(1, s.now, FlightDone(e, held))],
             local := map[1 := LocalEntry(e, held + LocalTTLFor(c, e.answer))]);
    assert s'.flights == s4.flights[1 := s4.flights[1].(pc := FlightDone(e, held))];
    assert s'.local == s4.local[1 := LocalEntry(e, held + LocalTTLFor(c, e.answer))];
    ReachLeg(c, s4, 1, FlightDone(e, held), s');
  }

  // A request of replica 1 waits for a lookup that hits on the copy's last instant,
  // and may go on until its own timeout.
  lemma Waited(c: Config, s: State, e: Entry) returns (s': State)
    requires c.shards > 0 && Reaches(c, s) && |s.versions| > 0 && 2 !in s.flights && s.casts == map[]
    requires 1 in s.local && s.local[1].entry == e && s.now <= s.local[1].expiresAt
    ensures Reaches(c, s') && s'.versions == s.versions && s'.now == s.local[1].expiresAt + c.requestTimeout
    ensures 0 in s'.casts && s'.casts[0].pc == CastWaiting(2)
    ensures InTime(s', s'.casts[0].start, c.requestTimeout)
    ensures CastNext(s', s'.casts[0]) == Some(CastLoaded(e))
  {
    hide Reaches;
    var last := s.local[1].expiresAt;
    ExtendTick(c, s, last);
    var s1 := s.(now := last);
    ReachWaiting(c, s1, 0, 2, 1, VOTER, []);
    var s2 := Casting(s1, 0, CastWaiting(2), 2, FlightLocal, 1, VOTER, []);
    var s3 := Casting(s1, 0, CastWaiting(2), 2, FlightDone(e, last), 1, VOTER, []);
    assert s3.flights == s2.flights[2 := s2.flights[2].(pc := FlightDone(e, last))];
    ReachLeg(c, s2, 2, FlightDone(e, last), s3);
    ExtendTick(c, s3, last + c.requestTimeout);
    s' := s3.(now := last + c.requestTimeout);
  }

  // From a fill that has just read e, a run serves e at the very bound.
  lemma ServedLast(c: Config, s: State, e: Entry) returns (s': State)
    requires WfConfig(c) && Reaches(c, s) && |s.versions| > 0 && s.casts == map[]
    requires s.local == map[] && s.flights == map[0 := Flight(0, s.now, FlightSetShared(e))]
    ensures Reaches(c, s') && s'.versions == s.versions && s'.now + 1 == s.now + StalenessBound(c, e.answer)
    ensures 0 in s'.casts && s'.casts[0].pc == CastWaiting(2)
    ensures CastMove(c, s', 0, WithCast(s', 0, CastLoaded(e)))
  {
    hide Reaches;
    var s1 := Written(c, s, e);
    var s2 := Copied(c, s1, e);
    s' := Waited(c, s2, e);
  }

  // The origin has not given this answer since.
  ghost predicate LastGiven(versions: seq<Version>, at: nat, answer: Option<Poll>) {
    Answered(versions, at, answer) && forall t: nat :: Answered(versions, t, answer) ==> t <= at
  }

  lemma GivenUntil(versions: seq<Version>, v: nat)
    requires v + 1 < |versions| && versions[v].at <= versions[v + 1].at
    requires forall w :: 0 <= w < |versions| && versions[w].answer == versions[v].answer ==> w == v
    ensures LastGiven(versions, versions[v + 1].at, versions[v].answer)
  {
  }

  // For every configuration some request is told that the poll is active, and some
  // request that there is none, exactly one unit before the bound is over.
  lemma StalestPoll(c: Config) returns (s: State, at: nat, e: Entry)
    requires WfConfig(c)
    ensures Reaches(c, s) && 0 in s.casts && s.casts[0].pc.CastWaiting?
    ensures CastMove(c, s, 0, WithCast(s, 0, CastLoaded(e))) && e.answer.Some?
    ensures LastGiven(s.versions, at, e.answer)
    ensures s.now + 1 == at + c.sharedTTL + c.localTTL + 3 * c.requestTimeout
  {
    hide Reaches, CastMove;
    var s0 := ReachOverlap(c);
    e, at := Stale(c), c.requestTimeout;
    s := ServedLast(c, s0, e);
    GivenUntil(s.versions, 2);
  }

  lemma StalestMiss(c: Config, poll: Poll) returns (s: State, at: nat, e: Entry)
    requires WfConfig(c) && WfPoll(poll)
    ensures Reaches(c, s) && 0 in s.casts && s.casts[0].pc.CastWaiting?
    ensures CastMove(c, s, 0, WithCast(s, 0, CastLoaded(e))) && e.answer.None?
    ensures LastGiven(s.versions, at, None)
    ensures s.now + 1 == at + c.negativeTTL + 3 * c.requestTimeout
                       + if c.negativeTTL < c.localTTL then c.negativeTTL else c.localTTL
  {
    hide Reaches, CastMove;
    e, at := Entry(None, 0, 0), 0;
    var s0 := Missed(c, poll);
    s := ServedLast(c, s0, e);
    GivenUntil(s.versions, 0);
  }

  // A fill reads that there is no poll, just before it is created.
  lemma Missed(c: Config, poll: Poll) returns (s: State)
    requires WfConfig(c) && WfPoll(poll)
    ensures Reaches(c, s) && s.now == 0 && s.casts == map[] && s.local == map[]
    ensures s.versions == [Version(0, None), Version(0, Some(poll))]
    ensures s.flights == map[0 := Flight(0, 0, FlightSetShared(Entry(None, 0, 0)))]
  {
    hide Reaches;
    var s0 := Fresh(c).(poll := poll);
    Start(c, s0);
    ReachFlight(c, s0, 0, 0);
    var s1 := s0.(flights := map[0 := Flight(0, 0, FlightLocal)]);
    var s2 := MoveFlight(c, s1, 0, false);
    var s3 := MoveFlight(c, s2, 0, false);
    var s4 := MoveFlight(c, s3, 0, false);
    s := s4.(versions := s4.versions + [Version(0, Some(poll))], durable := map id | id in OptionSet(poll) :: 0);
    ExtendEnvironment(c, s4, Create, s);
  }
}
