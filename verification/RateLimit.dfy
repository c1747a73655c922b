// The fixed-window guard: a request counter whose key expires one window after
// its first hit, first per client address, then per address and poll.
module RateLimit {
  import opened Wrappers

  // A counter key and the instant it expires.
  datatype Window = Window(hits: nat, deadline: nat)

  datatype Verdict = Allow | RateLimited | QuotaExceeded

  // INCR, with EXPIRE on the first hit of a window.
  function Hit(w: Option<Window>, now: nat, length: nat): Window {
    if w.Some? && now < w.value.deadline then Window(w.value.hits + 1, w.value.deadline)
    else Window(1, now + length)
  }

  datatype Limits = Limits(rateLimit: int, rateWindow: nat, quotaLimit: int, quotaWindow: nat)

  // The whole script: the quota counter moves only for requests that passed
  // the rate check, and a limit of zero or less switches its check off.
  function Guard(rate: Option<Window>, quota: Option<Window>, now: nat, l: Limits): (Option<Window>, Option<Window>,
      Verdict) {
    var rate' := if l.rateLimit > 0 then Some(Hit(rate, now, l.rateWindow)) else rate;
    if l.rateLimit > 0 && rate'.value.hits > l.rateLimit then (rate', quota, Verdict.RateLimited)
    else
      var quota' := if l.quotaLimit > 0 then Some(Hit(quota, now, l.quotaWindow)) else quota;
      if l.quotaLimit > 0 && quota'.value.hits > l.quotaLimit then (rate', quota', Verdict.QuotaExceeded)
      else (rate', quota', Allow)
  }

  // Who is refused: exactly the requests that are hit number more than the limit
  // of their window; a limit of zero or less refuses nobody and counts nothing.
  lemma GuardVerdict(rate: Option<Window>, quota: Option<Window>, now: nat, l: Limits)
    ensures var (rate', quota', verdict) := Guard(rate, quota, now, l);
      && (verdict == Verdict.RateLimited <==> l.rateLimit > 0 && Hit(rate, now, l.rateWindow).hits > l.rateLimit)
      && (verdict == Verdict.QuotaExceeded <==>
            (&& !(l.rateLimit > 0 && Hit(rate, now, l.rateWindow).hits > l.rateLimit)
             && l.quotaLimit > 0 && Hit(quota, now, l.quotaWindow).hits > l.quotaLimit))
      && (l.rateLimit <= 0 ==> rate' == rate)
      && (l.rateLimit > 0 ==> rate' == Some(Hit(rate, now, l.rateWindow)))
      && (l.quotaLimit <= 0 || verdict == Verdict.RateLimited ==> quota' == quota)
      && (l.quotaLimit > 0 && verdict != Verdict.RateLimited ==> quota' == Some(Hit(quota, now, l.quotaWindow)))
  {
  }

  // ---- One counter: requests at nondecreasing instants ----

  predicate Ordered(at: seq<nat>) {
    |at| <= 1 || (at[|at| - 2] <= at[|at| - 1] && Ordered(at[..|at| - 1]))
  }

  // The counter after these requests.
  function After(at: seq<nat>, length: nat): Option<Window> {
    if at == [] then None else Some(Hit(After(at[..|at| - 1], length), at[|at| - 1], length))
  }

  // What the counter counts: the requests since its window opened, which the
  // request at place f did, one window length before the deadline.
  lemma {:induction false} HitNumber(at: seq<nat>, length: nat) returns (f: nat)
    requires length > 0 && Ordered(at) && at != []
    ensures f < |at|
    ensures var w := After(at, length).value;
      && w.hits == |at| - f && w.deadline == at[f] + length
      && (forall i :: f <= i < |at| ==> at[f] <= at[i] < w.deadline)
      && (f > 0 ==> After(at[..f], length).value.deadline <= at[f])
  {
    var before, now := at[..|at| - 1], at[|at| - 1];
    if before != [] && now < After(before, length).value.deadline {
      f := HitNumber(before, length);
      assert before[..f] == at[..f];
    } else {
      f := |at| - 1;
    }
  }

  // How many of these requests lie in [a, b) and pass the check.
  function Passed(at: seq<nat>, limit: nat, length: nat, a: int, b: int): nat {
    if at == [] then 0
    else
      var before, now := at[..|at| - 1], at[|at| - 1];
      Passed(before, limit, length, a, b)
      + if a <= now < b && Hit(After(before, length), now, length).hits <= limit then 1 else 0
  }

  function Min(a: nat, b: nat): nat { if a < b then a else b }

  lemma {:induction false} DeadlineAhead(at: seq<nat>, length: nat)
    requires length > 0 && at != []
    ensures at[|at| - 1] < After(at, length).value.deadline
    ensures Ordered(at) ==> After(at, length).value.deadline <= at[|at| - 1] + length
  {
    var before := at[..|at| - 1];
    if before != [] { DeadlineAhead(before, length); }
  }

  // k windows reach past a. If the first of them began at a or later, the k-th
  // ends at least k lengths after a; if it began before a, its first hit lies
  // outside the interval and one pass fewer counts.
  lemma {:induction false} WindowCount(at: seq<nat>, limit: nat, length: nat, a: int, b: int) returns (k: nat,
      inside: bool)
    requires length > 0 && limit > 0 && Ordered(at)
    ensures k == 0 ==> Passed(at, limit, length, a, b) == 0 && (at != [] ==> After(at, length).value.deadline <= a)
    ensures k > 0 ==> at != []
    ensures k > 0 ==>
      var w := After(at, length).value;
      && (inside ==>
            && a + k * length <= w.deadline
            && Passed(at, limit, length, a, b) <= limit * (k - 1) + Min(w.hits, limit))
      && (!inside ==>
            && a + (k - 1) * length < w.deadline
            && Passed(at, limit, length, a, b) + 1 <= limit * (k - 1) + Min(w.hits, limit))
  {
    if at == [] { return 0, false; }
    var before, now := at[..|at| - 1], at[|at| - 1];
    k, inside := WindowCount(before, limit, length, a, b);
    DeadlineAhead(at, length);
    var w := After(before, length);
    if w.Some? && now < w.value.deadline {
      return;
    }
    if k > 0 {
      NextWindow(a, k, length, limit);
      k := k + 1;
    } else if now + length > a {
      k, inside := 1, now >= a;
    }
  }

  lemma NextWindow(a: int, k: nat, length: nat, limit: nat)
    ensures a + (k + 1) * length == a + k * length + length
    ensures limit * k + limit == limit * (k + 1)
  {
  }

  // Windows needed to cover a span.
  function CeilDiv(span: nat, length: nat): nat
    requires length > 0
  {
    (span + length - 1) / length
  }

  lemma CeilDivBound(span: nat, length: nat, k: int)
    requires length > 0 && k * length < span
    ensures k < CeilDiv(span, length)
  {
    var q := CeilDiv(span, length);
    assert span + length - 1 == q * length + (span + length - 1) % length;
    assert k >= q ==> k * length >= q * length;
  }

  // In any interval of the given span, starting anywhere, at most
  // limit * (ceil(span / length) + 1) - 1 requests pass; twice the limit less one
  // when the span is one window.
  lemma {:induction false} IntervalBound(at: seq<nat>, limit: nat, length: nat, a: int, span: nat)
    requires length > 0 && limit > 0 && Ordered(at)
    ensures Passed(at, limit, length, a, a + span) <= limit * (CeilDiv(span, length) + 1) - 1
  {
    var windows := CeilDiv(span, length) + 1;
    assert limit * windows >= limit by { Monotone(limit, 1, windows); }
    if at != [] {
      if at[|at| - 1] >= a + span {
        IntervalBound(at[..|at| - 1], limit, length, a, span);
      } else {
        var k, inside := WindowCount(at, limit, length, a, a + span);
        DeadlineAhead(at, length);
        if k > 0 {
          assert limit * (k - 1) + limit == limit * k;
          if inside {
            assert a + k * length < a + span + length;
            assert (k - 1) * length == k * length - length;
            CeilDivBound(span, length, k - 1);
            Monotone(limit, k + 1, windows);
            assert limit * (k + 1) == limit * k + limit;
          } else {
            assert (k - 2) * length == (k - 1) * length - length;
            CeilDivBound(span, length, k - 2);
            Monotone(limit, k, windows);
          }
        }
      }
    }
  }

  lemma Monotone(limit: nat, k: nat, m: nat)
    requires k <= m
    ensures limit * k <= limit * m
  {
  }

  // ---- The bound is met ----

  function Repeat(t: nat, n: nat): seq<nat> {
    if n == 0 then [] else Repeat(t, n - 1) + [t]
  }

  // One request opens a window at 0, the rest of its share comes at its last
  // instant, and a whole new share one instant later.
  function Burst(limit: nat, length: nat): seq<nat>
    requires limit > 0 && length > 1
  {
    [0] + Repeat(length - 1, limit - 1) + Repeat(length, limit)
  }

  lemma AppendOne(at: seq<nat>, t: nat, limit: nat, length: nat, a: int, b: int)
    ensures var hit := Hit(After(at, length), t, length);
      && After(at + [t], length) == Some(hit)
      && Passed(at + [t], limit, length, a, b) ==
        Passed(at, limit, length, a, b) + if a <= t < b && hit.hits <= limit then 1 else 0
    ensures Ordered(at) && (at == [] || at[|at| - 1] <= t) ==> Ordered(at + [t])
  {
    assert (at + [t])[..|at|] == at;
  }

  function First(length: nat, n: nat): seq<nat>
    requires length > 0
  {
    [0] + Repeat(length - 1, n)
  }

  lemma Opening(limit: nat, length: nat)
    requires limit > 0 && length > 1
    ensures First(length, 0) == [0] && Ordered([0]) && After([0], length) == Some(Window(1, length))
    ensures Passed([0], limit, length, length - 1, 2 * length - 1) == 0
  {
    assert After([0][..0], length) == None;
  }

  lemma {:induction false} BurstFirst(limit: nat, length: nat, n: nat)
    requires limit > 0 && length > 1 && n < limit
    ensures var at := First(length, n);
      && at[|at| - 1] == (if n == 0 then 0 else length - 1)
      && After(at, length) == Some(Window(n + 1, length)) && Ordered(at)
      && Passed(at, limit, length, length - 1, 2 * length - 1) == n
  {
    hide After, Passed, Ordered;
    if n == 0 {
      Opening(limit, length);
    } else {
      BurstFirst(limit, length, n - 1);
      assert First(length, n) == First(length, n - 1) + [length - 1];
      AppendOne(First(length, n - 1), length - 1, limit, length, length - 1, 2 * length - 1);
    }
  }

  lemma {:induction false} BurstSecond(limit: nat, length: nat, n: nat)
    requires limit > 0 && length > 1 && n <= limit
    ensures var at := First(length, limit - 1) + Repeat(length, n);
      && at[|at| - 1] <= length && Ordered(at)
      && After(at, length) == Some(if n > 0 then Window(n, 2 * length) else Window(limit, length))
      && Passed(at, limit, length, length - 1, 2 * length - 1) == limit - 1 + n
  {
    hide After, Passed, Ordered, First;
    var first := First(length, limit - 1);
    BurstFirst(limit, length, limit - 1);
    if n > 0 {
      BurstSecond(limit, length, n - 1);
      assert first + Repeat(length, n) == first + Repeat(length, n - 1) + [length];
      AppendOne(first + Repeat(length, n - 1), length, limit, length, length - 1, 2 * length - 1);
    } else {
      assert first + Repeat(length, 0) == first;
    }
  }

  // Twice the limit less one requests do pass within one window length.
  lemma BoundIsMet(limit: nat, length: nat)
    requires limit > 0 && length > 1
    ensures Ordered(Burst(limit, length))
    ensures Passed(Burst(limit, length), limit, length, length - 1, 2 * length - 1) ==
      limit * (CeilDiv(length, length) + 1) - 1
  {
    BurstSecond(limit, length, limit);
    assert Burst(limit, length) == First(length, limit - 1) + Repeat(length, limit);
    CeilDivOne(length);
  }

  lemma CeilDivOne(length: nat)
    requires length > 0
    ensures CeilDiv(length, length) == 1
  {
    assert length + length - 1 == 1 * length + (length - 1);
  }

  // ---- The guard over every run of one client address ----

  datatype Request = Request(at: nat, pollID: string)

  // The rate counter and the quota counter of each poll.
  datatype Counters = Counters(rate: Option<Window>, quota: map<string, Window>)

  function QuotaOf(s: Counters, pollID: string): Option<Window> {
    if pollID in s.quota then Some(s.quota[pollID]) else None
  }

  function Serve(s: Counters, r: Request, l: Limits): (Counters, Verdict) {
    var (rate, quota, verdict) := Guard(s.rate, QuotaOf(s, r.pollID), r.at, l);
    (Counters(rate, if quota.Some? then s.quota[r.pollID := quota.value] else s.quota), verdict)
  }

  function Play(rs: seq<Request>, l: Limits): Counters {
    if rs == [] then Counters(None, map[]) else Serve(Play(rs[..|rs| - 1], l), rs[|rs| - 1], l).0
  }

  // The allowed requests of [a, b), of one poll or (None) of all.
  function Allowed(rs: seq<Request>, l: Limits, only: Option<string>, a: int, b: int): nat {
    if rs == [] then 0
    else
      var before, r := rs[..|rs| - 1], rs[|rs| - 1];
      Allowed(before, l, only, a, b)
      + if a <= r.at < b && (only.Some? ==> r.pollID == only.value) && Serve(Play(before, l), r, l).1 == Allow
        then 1 else 0
  }

  predicate InOrder(rs: seq<Request>) {
    |rs| <= 1 || (rs[|rs| - 2].at <= rs[|rs| - 1].at && InOrder(rs[..|rs| - 1]))
  }

  function Arrivals(rs: seq<Request>): seq<nat> {
    if rs == [] then [] else Arrivals(rs[..|rs| - 1]) + [rs[|rs| - 1].at]
  }

  // The instants of the requests of a poll that passed the rate check.
  function QuotaArrivals(rs: seq<Request>, l: Limits, pollID: string): seq<nat> {
    if rs == [] then []
    else
      var before, r := rs[..|rs| - 1], rs[|rs| - 1];
      QuotaArrivals(before, l, pollID)
      + if r.pollID == pollID && Serve(Play(before, l), r, l).1 != Verdict.RateLimited then [r.at] else []
  }

  // One request, as the rate counter sees it.
  lemma RateStep(s: Counters, r: Request, l: Limits)
    requires l.rateLimit > 0
    ensures var (after, verdict) := Serve(s, r, l);
      var hit := Hit(s.rate, r.at, l.rateWindow);
      && after.rate == Some(hit) && (verdict == Verdict.RateLimited <==> hit.hits > l.rateLimit)
      && (l.quotaLimit <= 0 ==> verdict == Allow || verdict == Verdict.RateLimited)
  {
    hide Hit;
  }

  lemma {:induction false} RateGate(rs: seq<Request>, l: Limits, only: Option<string>, a: int, b: int)
    requires InOrder(rs) && l.rateLimit > 0 && l.rateWindow > 0
    ensures Play(rs, l).rate == After(Arrivals(rs), l.rateWindow) && Ordered(Arrivals(rs))
    ensures Allowed(rs, l, only, a, b) <= Passed(Arrivals(rs), l.rateLimit, l.rateWindow, a, b)
    ensures l.quotaLimit <= 0 && only == None ==>
      Allowed(rs, l, only, a, b) == Passed(Arrivals(rs), l.rateLimit, l.rateWindow, a, b)
    ensures |Arrivals(rs)| == |rs| && (rs != [] ==> Arrivals(rs)[|rs| - 1] == rs[|rs| - 1].at)
  {
    hide After, Passed, Ordered, Hit, Serve;
    if rs == [] {
      NoArrivals("", l.rateLimit, l.rateWindow, a, b);
    } else {
      var before, r := rs[..|rs| - 1], rs[|rs| - 1];
      RateGate(before, l, only, a, b);
      RateStep(Play(before, l), r, l);
      AppendOne(Arrivals(before), r.at, l.rateLimit, l.rateWindow, a, b);
    }
  }

  // One request, as the quota counter of one poll sees it.
  lemma QuotaStep(s: Counters, r: Request, l: Limits, pollID: string)
    requires l.quotaLimit > 0
    ensures var (after, verdict) := Serve(s, r, l);
      var hit := Hit(QuotaOf(s, pollID), r.at, l.quotaWindow);
      if r.pollID == pollID && verdict != Verdict.RateLimited
      then QuotaOf(after, pollID) == Some(hit) && (verdict == Allow <==> hit.hits <= l.quotaLimit)
      else QuotaOf(after, pollID) == QuotaOf(s, pollID)
  {
    hide Hit;
  }

  lemma NoArrivals(pollID: string, limit: nat, length: nat, a: int, b: int)
    ensures QuotaOf(Counters(None, map[]), pollID) == None == After([], length) && Ordered([])
    ensures Passed([], limit, length, a, b) == 0
  {
  }

  lemma {:induction false} QuotaGate(rs: seq<Request>, l: Limits, pollID: string, a: int, b: int)
    requires InOrder(rs) && l.quotaLimit > 0 && l.quotaWindow > 0
    ensures QuotaOf(Play(rs, l), pollID) == After(QuotaArrivals(rs, l, pollID), l.quotaWindow)
    ensures Ordered(QuotaArrivals(rs, l, pollID))
    ensures Allowed(rs, l, Some(pollID), a, b) ==
      Passed(QuotaArrivals(rs, l, pollID), l.quotaLimit, l.quotaWindow, a, b)
    ensures QuotaArrivals(rs, l, pollID) != [] ==>
      rs != [] && QuotaArrivals(rs, l, pollID)[|QuotaArrivals(rs, l, pollID)| - 1] <= rs[|rs| - 1].at
  {
    hide After, Passed, Ordered, Hit, Serve, QuotaOf;
    if rs == [] {
      NoArrivals(pollID, l.quotaLimit, l.quotaWindow, a, b);
    } else {
      var before, r := rs[..|rs| - 1], rs[|rs| - 1];
      QuotaGate(before, l, pollID, a, b);
      QuotaStep(Play(before, l), r, l, pollID);
      var arrivals := QuotaArrivals(before, l, pollID);
      var passes := r.pollID == pollID && Serve(Play(before, l), r, l).1 != Verdict.RateLimited;
      assert QuotaArrivals(rs, l, pollID) == if passes then arrivals + [r.at] else arrivals;
      if passes {
        AppendOne(arrivals, r.at, l.quotaLimit, l.quotaWindow, a, b);
      }
    }
  }

  // The requests of [a, b), allowed or not.
  function Sent(rs: seq<Request>, a: int, b: int): nat {
    if rs == [] then 0 else Sent(rs[..|rs| - 1], a, b) + if a <= rs[|rs| - 1].at < b then 1 else 0
  }

  // With both checks off everything is allowed.
  lemma {:induction false} NoLimits(rs: seq<Request>, l: Limits, a: int, b: int)
    requires l.rateLimit <= 0 && l.quotaLimit <= 0
    ensures Allowed(rs, l, None, a, b) == Sent(rs, a, b)
  {
    if rs != [] {
      var s, r := Play(rs[..|rs| - 1], l), rs[|rs| - 1];
      NoLimits(rs[..|rs| - 1], l, a, b);
      GuardVerdict(s.rate, QuotaOf(s, r.pollID), r.at, l);
    }
  }

  // Requests for one poll at these instants.
  function Requests(at: seq<nat>, pollID: string): seq<Request> {
    if at == [] then [] else Requests(at[..|at| - 1], pollID) + [Request(at[|at| - 1], pollID)]
  }

  lemma {:induction false} RequestsArrive(at: seq<nat>, pollID: string)
    requires Ordered(at)
    ensures InOrder(Requests(at, pollID)) && Arrivals(Requests(at, pollID)) == at && |Requests(at, pollID)| == |at|
    ensures at != [] ==> Requests(at, pollID)[|at| - 1].at == at[|at| - 1]
  {
    if at != [] {
      var n := |at| - 1;
      OrderedInit(at);
      RequestsUnfold(at, pollID);
      hide InOrder, Arrivals, Ordered, Requests;
      RequestsArrive(at[..n], pollID);
      var before, r := Requests(at[..n], pollID), Request(at[n], pollID);
      InOrderMore(before, r);
      ArrivalsMore(before, r);
      assert at == at[..n] + [at[n]];
    }
  }

  lemma OrderedInit(at: seq<nat>)
    requires Ordered(at) && at != []
    ensures Ordered(at[..|at| - 1]) && (|at| > 1 ==> at[|at| - 2] <= at[|at| - 1])
  {
  }

  lemma RequestsUnfold(at: seq<nat>, pollID: string)
    requires at != []
    ensures Requests(at, pollID) == Requests(at[..|at| - 1], pollID) + [Request(at[|at| - 1], pollID)]
  {
  }

  lemma InOrderMore(before: seq<Request>, r: Request)
    requires InOrder(before) && (before == [] || before[|before| - 1].at <= r.at)
    ensures InOrder(before + [r])
  {
    assert (before + [r])[..|before|] == before;
  }

  lemma ArrivalsMore(before: seq<Request>, r: Request)
    ensures Arrivals(before + [r]) == Arrivals(before) + [r.at]
  {
    assert (before + [r])[..|before|] == before;
  }

  lemma {:induction false} AllForQuota(rs: seq<Request>, l: Limits, pollID: string)
    requires l.rateLimit <= 0 && forall i :: 0 <= i < |rs| ==> rs[i].pollID == pollID
    ensures QuotaArrivals(rs, l, pollID) == Arrivals(rs)
  {
    if rs != [] {
      AllForQuota(rs[..|rs| - 1], l, pollID);
      GuardVerdict(Play(rs[..|rs| - 1], l).rate, QuotaOf(Play(rs[..|rs| - 1], l), pollID), rs[|rs| - 1].at, l);
    }
  }

  lemma {:induction false} OnePoll(at: seq<nat>, pollID: string)
    ensures forall i :: 0 <= i < |Requests(at, pollID)| ==> Requests(at, pollID)[i].pollID == pollID
  {
    if at != [] { OnePoll(at[..|at| - 1], pollID); }
  }

  // The guard does let as many requests through in one window length as the bounds
  // say, be it the rate check alone or the quota check alone that counts them.
  lemma AllowedBoundIsMet(limit: nat, length: nat, pollID: string)
    requires limit > 0 && length > 1
    ensures var rs, bound := Requests(Burst(limit, length), pollID), limit * (CeilDiv(length, length) + 1) - 1;
      && InOrder(rs)
      && Allowed(rs, Limits(limit, length, 0, 1), None, length - 1, 2 * length - 1) == bound
      && Allowed(rs, Limits(0, 1, limit, length), Some(pollID), length - 1, 2 * length - 1) == bound
  {
    hide Allowed, Passed, Arrivals, QuotaArrivals, Burst, Requests, Play, After, Ordered, CeilDiv;
    var at := Burst(limit, length);
    BoundIsMet(limit, length);
    RequestsArrive(at, pollID);
    OnePoll(at, pollID);
    RateGate(Requests(at, pollID), Limits(limit, length, 0, 1), None, length - 1, 2 * length - 1);
    QuotaGate(Requests(at, pollID), Limits(0, 1, limit, length), pollID, length - 1, 2 * length - 1);
    AllForQuota(Requests(at, pollID), Limits(0, 1, limit, length), pollID);
  }

  // Whatever polls an address votes in and whenever, no interval sees more
  // allowed requests than the rate bound, nor more for one poll than the quota bound.
  lemma GuardBounds(rs: seq<Request>, l: Limits, pollID: string, a: int, span: nat)
    requires InOrder(rs) && l.rateWindow > 0 && l.quotaWindow > 0
    ensures l.rateLimit > 0 ==>
      Allowed(rs, l, None, a, a + span) <= l.rateLimit * (CeilDiv(span, l.rateWindow) + 1) - 1
    ensures l.quotaLimit > 0 ==>
      Allowed(rs, l, Some(pollID), a, a + span) <= l.quotaLimit * (CeilDiv(span, l.quotaWindow) + 1) - 1
  {
    if l.rateLimit > 0 { RateBound(rs, l, None, a, span); }
    if l.quotaLimit > 0 { QuotaBound(rs, l, pollID, a, span); }
  }

  lemma RateBound(rs: seq<Request>, l: Limits, only: Option<string>, a: int, span: nat)
    requires InOrder(rs) && l.rateLimit > 0 && l.rateWindow > 0
    ensures Allowed(rs, l, only, a, a + span) <= l.rateLimit * (CeilDiv(span, l.rateWindow) + 1) - 1
  {
    hide Allowed, Passed, CeilDiv;
    RateGate(rs, l, only, a, a + span);
    IntervalBound(Arrivals(rs), l.rateLimit, l.rateWindow, a, span);
  }

  lemma QuotaBound(rs: seq<Request>, l: Limits, pollID: string, a: int, span: nat)
    requires InOrder(rs) && l.quotaLimit > 0 && l.quotaWindow > 0
    ensures Allowed(rs, l, Some(pollID), a, a + span) <= l.quotaLimit * (CeilDiv(span, l.quotaWindow) + 1) - 1
  {
    hide Allowed, Passed, CeilDiv;
    QuotaGate(rs, l, pollID, a, a + span);
    IntervalBound(QuotaArrivals(rs, l, pollID), l.quotaLimit, l.quotaWindow, a, span);
  }
}
