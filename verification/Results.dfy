// Merging the live and durable counts, and presenting them as percentages.
module Results {
  import opened Wrappers
  import opened Entity
  import opened Repository

  function CountsOr(counts: Option<map<string, nat>>): map<string, nat> {
    if counts.Some? then counts.value else map[]
  }

  // max(live, durable) for every option of the poll.
  function Merged(ids: set<string>, durable: Option<map<string, nat>>, live: Option<map<string,
      nat>>): map<string, nat> {
    map id | id in ids :: Max(VotesOf(CountsOr(durable), id), VotesOf(CountsOr(live), id))
  }

  datatype PollResults = PollResults(poll: Poll, counts: map<string, nat>, total: nat)

  function TotalOver(ids: seq<string>, counts: map<string, nat>): nat {
    if ids == [] then 0 else TotalOver(ids[..|ids| - 1], counts) + VotesOf(counts, ids[|ids| - 1])
  }

  lemma MergedAt(ids: set<string>, durable: Option<map<string, nat>>, live: Option<map<string, nat>>)
    ensures Merged(ids, durable, live).Keys == ids
    ensures forall id :: id in ids ==>
      Merged(ids, durable, live)[id] == Max(VotesOf(CountsOr(durable), id), VotesOf(CountsOr(live), id))
  {
  }

  // The loop over the poll's options.
  method Merge(poll: Poll, durable: Option<map<string, nat>>, live: Option<map<string,
      nat>>) returns (results: PollResults)
    ensures results.poll == poll && results.counts == Merged(OptionSet(poll), durable, live)
    ensures results.total == TotalOver(OptionIDs(poll), results.counts)
  {
    var ids := OptionIDs(poll);
    ghost var all := Merged(OptionSet(poll), durable, live);
    MergedAt(OptionSet(poll), durable, live);
    hide Merged, CountsOr;
    var counts: map<string, nat>, total := map[], 0;
    for i := 0 to |ids|
      invariant forall j :: 0 <= j < i ==> ids[j] in counts
      invariant forall id :: id in counts ==> id in all && counts[id] == all[id]
      invariant total == TotalOver(ids[..i], all)
    {
      var id := ids[i];
      var count := VotesOf(CountsOr(durable), id);
      if VotesOf(CountsOr(live), id) > count {
        count := VotesOf(CountsOr(live), id);
      }
      assert ids[..i + 1] == ids[..i] + [id];
      counts := counts[id := count];
      total := total + count;
    }
    assert ids[..|ids|] == ids;
    assert counts == all;
    results := PollResults(poll, counts, total);
  }

  // ---- Percentages, over the reals ----

  // Rounds half away from zero.
  function Round(x: real): int {
    if x >= 0.0 then (x + 0.5).Floor else -((0.5 - x).Floor)
  }

  function Share(votes: int, total: int): real
    requires total > 0
  {
    votes as real * 10000.0 / total as real
  }

  function Percentage(votes: int, total: int): real {
    if total <= 0 then 0.0 else Round(Share(votes, total)) as real / 100.0
  }

  // Rounding goes to the nearest integer, and from the middle away from zero.
  lemma RoundIs(x: real, k: nat)
    ensures -0.5 <= Round(x) as real - x <= 0.5
    ensures Round(k as real + 0.5) == k + 1 && Round(-(k as real) - 0.5) == -(k + 1)
  {
  }

  // Nothing counted is shown as nothing; otherwise a percentage is a whole number
  // of hundredths.
  lemma PercentageIs(votes: int, total: int)
    ensures total <= 0 ==> Percentage(votes, total) == 0.0
    ensures total > 0 ==> 100.0 * Percentage(votes, total) == Round(Share(votes, total)) as real
  {
    hide Share, Round;
  }

  datatype OptionResult = OptionResult(id: string, text: string, votes: nat, percentage: real)

  method NewResultsResponse(results: PollResults) returns (options: seq<OptionResult>)
    ensures Presents(options, OptionIDs(results.poll), results.counts, results.total)
    ensures forall i :: 0 <= i < |options| ==>
      options[i].id == results.poll.options[i].id && options[i].text == results.poll.options[i].text
    ensures results.total == 0 ==> forall i :: 0 <= i < |options| ==> options[i].percentage == 0.0
  {
    options := [];
    for i := 0 to |results.poll.options|
      invariant |options| == i
      invariant forall j :: 0 <= j < i ==>
        && options[j].id == results.poll.options[j].id && options[j].text == results.poll.options[j].text
        && options[j].votes == VotesOf(results.counts, options[j].id)
        && options[j].percentage == Percentage(options[j].votes, results.total)
    {
      var option := results.poll.options[i];
      var votes := VotesOf(results.counts, option.id);
      options := options + [OptionResult(option.id, option.text, votes, Percentage(votes, results.total))];
    }
  }

  function SumPercent(options: seq<OptionResult>): real {
    if options == [] then 0.0 else SumPercent(options[..|options| - 1]) + options[|options| - 1].percentage
  }

  function SumVotes(options: seq<OptionResult>): nat {
    if options == [] then 0 else SumVotes(options[..|options| - 1]) + options[|options| - 1].votes
  }

  lemma ShareAdds(a: int, b: int, total: int)
    requires total > 0
    ensures Share(a + b, total) == Share(a, total) + Share(b, total)
  {
  }

  lemma ShareOrdered(votes: nat, total: int)
    requires total > 0 && votes <= total
    ensures 0.0 <= Share(votes, total) <= 10000.0
  {
    hide Share;
    ShareAdds(votes, total - votes, total);
    ShareOfAll(total);
    ShareSign(votes, total);
    ShareSign(total - votes, total);
  }

  // One option: a percentage of hundredths nearest to the exact share.
  lemma PercentageNear(votes: nat, total: int)
    requires total > 0
    ensures -1.0 <= 200.0 * Percentage(votes, total) - 2.0 * Share(votes, total) <= 1.0
    ensures votes <= total ==> 0.0 <= Percentage(votes, total) <= 100.0
  {
    hide Share;
    if votes <= total { ShareOrdered(votes, total); }
    assert Share(votes, total) >= 0.0 by { ShareSign(votes, total); }
  }

  lemma ShareSign(votes: nat, total: int)
    requires total > 0
    ensures Share(votes, total) >= 0.0
  {
  }

  lemma {:induction false} SumNear(options: seq<OptionResult>, total: int)
    requires total > 0
    requires forall i :: 0 <= i < |options| ==> options[i].percentage == Percentage(options[i].votes, total)
    ensures var off := 200.0 * SumPercent(options) - 2.0 * Share(SumVotes(options), total);
      -(|options| as real) <= off <= |options| as real
  {
    hide Share, Percentage;
    if options == [] {
      assert Share(0, total) == 0.0 by { ShareAdds(0, 0, total); }
    } else {
      var last := options[|options| - 1];
      SumNear(options[..|options| - 1], total);
      PercentageNear(last.votes, total);
      ShareAdds(SumVotes(options[..|options| - 1]), last.votes, total);
    }
  }

  // The rows the response shows for these options and counts.
  ghost predicate Presents(options: seq<OptionResult>, ids: seq<string>, counts: map<string, nat>, total: int) {
    && |options| == |ids|
    && forall i :: 0 <= i < |options| ==>
         options[i].votes == VotesOf(counts, ids[i]) && options[i].percentage == Percentage(options[i].votes, total)
  }

  // The percentages of a merged result together lie within n/200 of 100
  // whenever anything was counted.
  lemma PercentagesAddUp(ids: seq<string>, counts: map<string, nat>, options: seq<OptionResult>)
    requires TotalOver(ids, counts) > 0 && Presents(options, ids, counts, TotalOver(ids, counts))
    ensures -(|options| as real) <= 200.0 * (SumPercent(options) - 100.0) <= |options| as real
  {
    hide Percentage, Share, SumPercent, SumVotes, TotalOver;
    SumIsTotal(ids, counts, options);
    SumNear(options, TotalOver(ids, counts));
    ShareOfAll(TotalOver(ids, counts));
  }

  // And each of them lies within 0..100.
  lemma PercentagesWithin(ids: seq<string>, counts: map<string, nat>, options: seq<OptionResult>)
    requires TotalOver(ids, counts) > 0 && Presents(options, ids, counts, TotalOver(ids, counts))
    ensures forall i :: 0 <= i < |options| ==> 0.0 <= options[i].percentage <= 100.0
  {
    hide Percentage, TotalOver;
    forall i | 0 <= i < |options| ensures 0.0 <= options[i].percentage <= 100.0 {
      VotesWithinTotal(ids, counts, i);
      PercentageNear(options[i].votes, TotalOver(ids, counts));
    }
  }

  lemma ShareOfAll(total: int)
    requires total > 0
    ensures Share(total, total) == 10000.0
  {
  }

  lemma {:induction false} SumIsTotal(ids: seq<string>, counts: map<string, nat>, options: seq<OptionResult>)
    requires |options| == |ids| && forall i :: 0 <= i < |options| ==> options[i].votes == VotesOf(counts, ids[i])
    ensures SumVotes(options) == TotalOver(ids, counts)
  {
    if ids != [] { SumIsTotal(ids[..|ids| - 1], counts, options[..|ids| - 1]); }
  }

  lemma {:induction false} VotesWithinTotal(ids: seq<string>, counts: map<string, nat>, i: nat)
    requires i < |ids|
    ensures VotesOf(counts, ids[i]) <= TotalOver(ids, counts)
  {
    if i < |ids| - 1 { VotesWithinTotal(ids[..|ids| - 1], counts, i); }
  }

  // The bound is met for every even number of options up to 20000: all but the
  // last option get one vote of 20000, so that every share ends in half a hundredth.
  function Halves(n: nat): seq<nat> {
    if n == 0 then [] else Halves(n - 1) + [1]
  }

  function SumShown(votes: seq<nat>, total: int): real {
    if votes == [] then 0.0 else SumShown(votes[..|votes| - 1], total) + Percentage(votes[|votes| - 1], total)
  }

  function Sum(votes: seq<nat>): nat {
    if votes == [] then 0 else Sum(votes[..|votes| - 1]) + votes[|votes| - 1]
  }

  lemma {:induction false} HalvesShown(n: nat)
    ensures Sum(Halves(n)) == |Halves(n)| == n && 100.0 * SumShown(Halves(n), 20000) == n as real
  {
    hide Percentage;
    if n > 0 {
      HalvesShown(n - 1);
      HalfShown(1, 0);
    }
  }

  // A share of k and a half hundredths is rounded up.
  lemma HalfShown(votes: nat, k: nat)
    requires votes == 2 * k + 1
    ensures 100.0 * Percentage(votes, 20000) == (k + 1) as real
  {
    HalfShare(votes, k);
    hide Share;
    assert Round(k as real + 0.5) == k + 1;
  }

  lemma HalfShare(votes: nat, k: nat)
    requires votes == 2 * k + 1
    ensures Share(votes, 20000) == k as real + 0.5
  {
    var t: real := 20000.0;
    assert votes as real * 10000.0 == (k as real + 0.5) * t;
  }

  lemma PercentBoundIsMet(m: nat) returns (votes: seq<nat>)
    requires 1 <= m <= 10000
    ensures |votes| == 2 * m && Sum(votes) == 20000
    ensures 200.0 * (SumShown(votes, 20000) - 100.0) == |votes| as real
  {
    hide Percentage;
    var last := 20001 - 2 * m;
    votes := Halves(2 * m - 1) + [last];
    HalvesShown(2 * m - 1);
    assert votes[..2 * m - 1] == Halves(2 * m - 1);
    HalfShown(last, 10000 - m);
  }
}
