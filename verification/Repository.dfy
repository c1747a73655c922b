// The PostgreSQL tables of polls, options and results, and the statements on them.
module Repository {
  import opened Wrappers
  import opened Entity

  // ---- Result rows ----

  function VotesOf(row: map<string, nat>, id: string): nat {
    if id in row then row[id] else 0
  }

  function Max(a: nat, b: nat): nat { if a < b then b else a }

  // INSERT ... ON CONFLICT DO UPDATE SET votes = GREATEST(old, incoming).
  function Upsert(row: map<string, nat>, counts: map<string, nat>): map<string, nat> {
    map id | id in row.Keys + counts.Keys ::
      if id !in counts then row[id]
      else if id !in row then counts[id]
      else Max(row[id], counts[id])
  }

  // unnest of two columns of the same length.
  function Columns(ids: seq<string>, votes: seq<nat>): map<string, nat>
    requires |ids| == |votes|
  {
    if ids == [] then map[]
    else Columns(ids[..|ids| - 1], votes[..|votes| - 1])[ids[|ids| - 1] := votes[|votes| - 1]]
  }

  // The statement, row by row; it may not meet one key twice.
  function UpsertRows(row: map<string, nat>, ids: seq<string>, votes: seq<nat>): map<string, nat>
    requires |ids| == |votes| && Distinct(ids)
  {
    if ids == [] then row
    else
      var before := UpsertRows(row, ids[..|ids| - 1], votes[..|votes| - 1]);
      var id, v := ids[|ids| - 1], votes[|votes| - 1];
      before[id := if id in before then Max(before[id], v) else v]
  }

  // Upserting distinct keys one row at a time is the upsert of the whole map.
  lemma {:induction false} UpsertRowsAll(row: map<string, nat>, ids: seq<string>, votes: seq<nat>)
    requires |ids| == |votes| && Distinct(ids)
    ensures UpsertRows(row, ids, votes) == Upsert(row, Columns(ids, votes))
    ensures forall id :: id in Columns(ids, votes) <==> id in ids
  {
    hide Upsert;
    if ids != [] {
      var n := |ids| - 1;
      UpsertRowsAll(row, ids[..n], votes[..n]);
      assert forall id :: id in ids <==> id in ids[..n] || id == ids[n];
      UpsertOne(row, Columns(ids[..n], votes[..n]), ids[n], votes[n]);
    } else {
      UpsertNone(row);
    }
  }

  lemma UpsertNone(row: map<string, nat>)
    ensures Upsert(row, map[]) == row
  {
  }

  lemma UpsertOne(row: map<string, nat>, counts: map<string, nat>, id: string, v: nat)
    requires id !in counts
    ensures id in Upsert(row, counts) <==> id in row
    ensures Upsert(row, counts[id := v]) ==
      Upsert(row, counts)[id := if id in row then Max(Upsert(row, counts)[id], v) else v]
  {
  }

  // The row after these saves, in this order.
  function SaveAll(row: map<string, nat>, saves: seq<map<string, nat>>): map<string, nat> {
    if saves == [] then row else Upsert(SaveAll(row, saves[..|saves| - 1]), saves[|saves| - 1])
  }

  function Snapshots(saves: seq<map<string, nat>>): set<map<string, nat>> {
    if saves == [] then {} else {saves[0]} + Snapshots(saves[1..])
  }

  // v is the largest vote the row or any save holds for the option.
  ghost predicate IsPeak(row: map<string, nat>, saves: seq<map<string, nat>>, id: string, v: nat) {
    && VotesOf(row, id) <= v
    && (forall i :: 0 <= i < |saves| ==> VotesOf(saves[i], id) <= v)
    && (v == VotesOf(row, id) || exists i :: 0 <= i < |saves| && VotesOf(saves[i], id) == v)
  }

  lemma UpsertAt(row: map<string, nat>, counts: map<string, nat>, id: string)
    ensures VotesOf(Upsert(row, counts), id) == Max(VotesOf(row, id), VotesOf(counts, id))
    ensures id in Upsert(row, counts) <==> id in row || id in counts
  {
  }

  lemma PeakMore(row: map<string, nat>, saves: seq<map<string, nat>>, last: map<string, nat>, id: string, v: nat)
    requires IsPeak(row, saves, id, v)
    ensures IsPeak(row, saves + [last], id, Max(v, VotesOf(last, id)))
  {
    hide VotesOf;
    var all := saves + [last];
    assert all[|saves|] == last;
    if i :| 0 <= i < |saves| && VotesOf(saves[i], id) == v {
      assert all[i] == saves[i];
    }
  }

  // Some of these saves has the option.
  ghost predicate Somewhere(saves: seq<map<string, nat>>, id: string) {
    exists i :: 0 <= i < |saves| && id in saves[i]
  }

  lemma SomewhereMore(saves: seq<map<string, nat>>, last: map<string, nat>, id: string)
    ensures Somewhere(saves + [last], id) <==> Somewhere(saves, id) || id in last
  {
    var all := saves + [last];
    assert all[|saves|] == last;
    if i :| 0 <= i < |saves| && id in saves[i] {
      assert all[i] == saves[i];
    }
  }

  lemma {:induction false} SaveAllPeak(row: map<string, nat>, saves: seq<map<string, nat>>, id: string)
    ensures IsPeak(row, saves, id, VotesOf(SaveAll(row, saves), id))
    ensures id in SaveAll(row, saves) <==> id in row || Somewhere(saves, id)
  {
    if saves != [] {
      hide Upsert, IsPeak, Max, VotesOf, Somewhere;
      var init, last := saves[..|saves| - 1], saves[|saves| - 1];
      SaveAllPeak(row, init, id);
      assert saves == init + [last];
      UpsertAt(SaveAll(row, init), last, id);
      PeakMore(row, init, last, id, VotesOf(SaveAll(row, init), id));
      SomewhereMore(init, last, id);
    }
  }

  // Flushes converge: however saves overlap, repeat or are reordered, two
  // histories with the same snapshots leave the same row, each of whose counts
  // is the maximum of the initial row and all snapshots (SaveAllPeak).
  lemma FlushConverges(row: map<string, nat>, saves: seq<map<string, nat>>, others: seq<map<string, nat>>)
    requires Snapshots(saves) == Snapshots(others)
    ensures SaveAll(row, saves) == SaveAll(row, others)
  {
    hide IsPeak, SaveAll, Snapshots;
    var a, b := SaveAll(row, saves), SaveAll(row, others);
    forall id ensures (id in a <==> id in b) && VotesOf(a, id) == VotesOf(b, id) {
      Converge(row, saves, others, id);
    }
    assert forall id :: id in a ==> a[id] == VotesOf(a, id) == VotesOf(b, id) == b[id];
  }

  // Saves of exactly the poll's options never change the row's key set.
  lemma {:induction false} FlushKeepsKeys(row: map<string, nat>, saves: seq<map<string, nat>>)
    requires forall i :: 0 <= i < |saves| ==> saves[i].Keys == row.Keys
    ensures SaveAll(row, saves).Keys == row.Keys
  {
    if saves != [] { FlushKeepsKeys(row, saves[..|saves| - 1]); }
  }

  // One option of two histories with the same snapshots.
  lemma Converge(row: map<string, nat>, saves: seq<map<string, nat>>, others: seq<map<string, nat>>, id: string)
    requires Snapshots(saves) == Snapshots(others)
    ensures id in SaveAll(row, saves) <==> id in SaveAll(row, others)
    ensures VotesOf(SaveAll(row, saves), id) == VotesOf(SaveAll(row, others), id)
  {
    hide IsPeak, SaveAll;
    SaveAllPeak(row, saves, id);
    SaveAllPeak(row, others, id);
    var v, w := VotesOf(SaveAll(row, saves), id), VotesOf(SaveAll(row, others), id);
    SamePeak(row, saves, others, id, v, w);
    SamePeak(row, others, saves, id, w, v);
    SameMembers(saves, others);
    SameMembers(others, saves);
  }

  lemma SameMembers(saves: seq<map<string, nat>>, others: seq<map<string, nat>>)
    requires Snapshots(saves) == Snapshots(others)
    ensures forall i :: 0 <= i < |saves| ==> exists j :: 0 <= j < |others| && others[j] == saves[i]
  {
    forall i | 0 <= i < |saves| ensures exists j :: 0 <= j < |others| && others[j] == saves[i] {
      SnapshotAt(saves, saves[i]);
      SnapshotAt(others, saves[i]);
    }
  }

  lemma {:induction false} SnapshotAt(saves: seq<map<string, nat>>, s: map<string, nat>)
    ensures s in Snapshots(saves) <==> exists j :: 0 <= j < |saves| && saves[j] == s
  {
    if saves != [] {
      SnapshotAt(saves[1..], s);
      if j :| 0 <= j < |saves[1..]| && saves[1..][j] == s { assert saves[j + 1] == s; }
      if j :| 1 <= j < |saves| && saves[j] == s { assert saves[1..][j - 1] == s; }
    }
  }

  lemma SamePeak(row: map<string, nat>, saves: seq<map<string, nat>>, others: seq<map<string, nat>>, id: string,
      v: nat, w: nat)
    requires Snapshots(saves) == Snapshots(others)
    requires IsPeak(row, saves, id, v) && IsPeak(row, others, id, w)
    ensures v <= w
  {
    SameMembers(saves, others);
  }

  // ---- Poll rows ----

  datatype PollRow = PollRow(
    id: string, question: string, kind: PollType, maxChoices: int, status: PollStatus,
    createdAt: int, startsAt: Option<int>, endsAt: Option<int>, finishedAt: Option<int>)

  datatype OptionRow = OptionRow(pollID: string, option: PollOption)

  // One row of polls LEFT JOIN poll_options.
  datatype JoinRow = JoinRow(poll: PollRow, option: Option<PollOption>)

  // The inserted columns; finished_at is left NULL.
  function RowOf(poll: Poll): PollRow {
    PollRow(poll.id, poll.question, poll.kind, poll.maxChoices, poll.status,
            poll.createdAt, poll.startsAt, poll.endsAt, None)
  }

  function PollOf(row: PollRow, options: seq<PollOption>): Poll {
    Poll(row.id, row.question, row.kind, row.maxChoices, row.status,
         options, row.createdAt, row.startsAt, row.endsAt, row.finishedAt)
  }

  function OptionsOf(rows: seq<OptionRow>, pollID: string): seq<PollOption> {
    if rows == [] then []
    else if rows[0].pollID == pollID then [rows[0].option] + OptionsOf(rows[1..], pollID)
    else OptionsOf(rows[1..], pollID)
  }

  function RowsFor(poll: Poll): seq<OptionRow> {
    seq(|poll.options|, i requires 0 <= i < |poll.options| => OptionRow(poll.id, poll.options[i]))
  }

  predicate ByPosition(options: seq<PollOption>) {
    forall i, j :: 0 <= i < j < |options| ==> options[i].position <= options[j].position
  }

  // The rows the engine may return for a poll: none if it is missing, one
  // without an option if it has none, else its option rows in any physical
  // order, sorted by position.
  ghost predicate Answers(rows: seq<JoinRow>, polls: map<string, PollRow>, options: seq<OptionRow>, pollID: string) {
    if pollID !in polls then rows == []
    else if OptionsOf(options, pollID) == [] then rows == [JoinRow(polls[pollID], None)]
    else
      && (forall i :: 0 <= i < |rows| ==> rows[i].poll == polls[pollID] && rows[i].option.Some?)
      && multiset(Selected(rows)) == multiset(OptionsOf(options, pollID))
      && ByPosition(Selected(rows))
  }

  function Selected(rows: seq<JoinRow>): seq<PollOption> {
    if rows == [] then []
    else Selected(rows[..|rows| - 1]) + (if rows[|rows| - 1].option.Some? then [rows[|rows| - 1].option.value] else [])
  }

  // Options whose positions are 0..n-1 have exactly one order by position.
  lemma {:induction false} OneOrder(sorted: seq<PollOption>, options: seq<PollOption>)
    requires Bag(sorted) == Bag(options) && ByPosition(sorted)
    requires forall i :: 0 <= i < |options| ==> options[i].position == i
    ensures sorted == options
  {
    hide Bag, ByPosition;
    BagSize(sorted);
    BagSize(options);
    if options != [] {
      var n := |options| - 1;
      LastIsTop(sorted, options);
      DropLast(sorted);
      DropLast(options);
      Earlier(sorted);
      OneOrder(sorted[..n], options[..n]);
    }
  }

  lemma BagSize<T>(s: seq<T>)
    ensures |Bag(s)| == |s|
  {
  }

  lemma Earlier(sorted: seq<PollOption>)
    requires ByPosition(sorted) && sorted != []
    ensures ByPosition(sorted[..|sorted| - 1])
  {
  }

  lemma DropLast(s: seq<PollOption>)
    requires s != []
    ensures s == s[..|s| - 1] + [s[|s| - 1]]
    ensures Bag(s[..|s| - 1]) == Bag(s) - multiset{s[|s| - 1]}
  {
    assert s == s[..|s| - 1] + [s[|s| - 1]];
  }

  lemma LastIsTop(sorted: seq<PollOption>, options: seq<PollOption>)
    requires Bag(sorted) == Bag(options) && ByPosition(sorted)
    requires forall i :: 0 <= i < |options| ==> options[i].position == i
    requires |sorted| == |options| > 0
    ensures sorted[|sorted| - 1] == options[|options| - 1]
  {
    var n := |options| - 1;
    assert sorted[n] in multiset(options) && options[n] in multiset(sorted);
    var i :| 0 <= i <= n && options[i] == sorted[n];
    var j :| 0 <= j <= n && sorted[j] == options[n];
    assert sorted[j].position <= sorted[n].position;
  }

  function IdsOf(options: seq<PollOption>): set<string> {
    set o | o in options :: o.id
  }

  lemma LoadedIds(row: PollRow, options: seq<PollOption>)
    ensures OptionSet(PollOf(row, options)) == IdsOf(options)
  {
    var poll := PollOf(row, options);
    forall id ensures id in OptionSet(poll) <==> id in IdsOf(options) {
      if id in OptionSet(poll) {
        var j :| 0 <= j < |OptionIDs(poll)| && OptionIDs(poll)[j] == id;
        assert options[j] in options;
      }
      if id in IdsOf(options) {
        var j :| 0 <= j < |options| && options[j].id == id;
        assert OptionIDs(poll)[j] == id;
      }
    }
  }

  // Whatever rows answer, the loaded poll has the option ids of its table rows.
  lemma AnswerIds(rows: seq<JoinRow>, polls: map<string, PollRow>, options: seq<OptionRow>, pollID: string)
    requires Answers(rows, polls, options, pollID) && pollID in polls
    ensures OptionSet(PollOf(polls[pollID], Selected(rows))) == IdsOf(OptionsOf(options, pollID))
  {
    var own, got := OptionsOf(options, pollID), Selected(rows);
    LoadedIds(polls[pollID], got);
    if own == [] {
      assert rows[..0] == [];
    } else {
      assert forall o :: o in own <==> o in multiset(got);
    }
  }

  // What the tables keep: no option row without its poll, finished_at set
  // exactly when finished, and one result row for every option and no other.
  ghost predicate TablesOk(polls: map<string, PollRow>, options: seq<OptionRow>, results: map<string, map<string,
      nat>>) {
    && (forall p :: p !in polls ==> OptionsOf(options, p) == [])
    && (forall p :: p in polls ==> (polls[p].status == Finished <==> polls[p].finishedAt.Some?))
    && polls.Keys == results.Keys
    && (forall p :: p in polls ==> results[p].Keys == IdsOf(OptionsOf(options, p)))
  }

  class PollRepository {
    var polls: map<string, PollRow>
    var options: seq<OptionRow>
    var results: map<string, map<string, nat>>

    ghost predicate Valid()
      reads this
    {
      TablesOk(polls, options, results)
    }

    constructor ()
      ensures Valid() && polls == map[] && options == [] && results == map[]
    {
      polls, options, results := map[], [], map[];
    }

    // Begin, three inserts and commit; the call at index failing (if below 4)
    // fails, and then, or if the commit never arrives, nothing is visible.
    method Create(poll: Poll, failing: nat, commit: Fault) returns (result: Result<()>)
      requires Valid() && poll.status != Finished
      modifies this
      ensures Valid()
      ensures var inserted := failing >= 4 && poll.id !in old(polls);
        && result == (if inserted && commit == NoFault then Ok(()) else Err(Unavailable))
        && if inserted && commit != NotSent then
             && polls == old(polls)[poll.id := RowOf(poll)]
             && options == old(options) + RowsFor(poll)
             && results == old(results)[poll.id := map id | id in IdsOf(poll.options) :: 0]
           else polls == old(polls) && options == old(options) && results == old(results)
    {
      if failing == 0 { return Err(Unavailable); }
      // Inside the transaction: copies no other session sees.
      if failing == 1 || poll.id in polls { return Err(Unavailable); }
      var polls' := polls[poll.id := RowOf(poll)];
      if failing == 2 { return Err(Unavailable); }
      var options' := options + RowsFor(poll);
      if failing == 3 { return Err(Unavailable); }
      var results' := results[poll.id := map id | id in IdsOf(poll.options) :: 0];
      if commit == NotSent { return Err(Unavailable); }
      CreateKeepsTables(poll, polls, options, results);
      polls, options, results := polls', options', results';
      return if commit == NoFault then Ok(()) else Err(Unavailable);
    }

    // The joined rows of one poll.
    method SelectPoll(pollID: string) returns (rows: seq<JoinRow>)
      ensures Answers(rows, polls, options, pollID)
    {
      if pollID !in polls {
        return [];
      }
      var own := OptionsOf(options, pollID);
      if own == [] {
        return [JoinRow(polls[pollID], None)];
      }
      var sorted := Sorted(own);
      SortedSorts(own);
      rows := JoinRows(polls[pollID], sorted);
      JoinRowsSelect(polls[pollID], sorted);
    }

    // Folds the joined rows into one poll.
    method FoldPoll(pollID: string, rows: seq<JoinRow>) returns (result: Result<Poll>)
      requires Answers(rows, polls, options, pollID)
      ensures pollID !in polls <==> result == Err(NotFound)
      ensures pollID in polls ==> result == Ok(PollOf(polls[pollID], Selected(rows)))
    {
      var found := false;
      var row: Option<PollRow> := None;
      var selected: seq<PollOption> := [];
      for i := 0 to |rows|
        invariant found <==> i > 0
        invariant found ==> row == Some(rows[0].poll)
        invariant selected == Selected(rows[..i])
      {
        if !found {
          row := Some(rows[i].poll);
          found := true;
        }
        if rows[i].option.Some? {
          selected := selected + [rows[i].option.value];
        }
        assert rows[..i + 1][..i] == rows[..i];
      }
      assert rows[..|rows|] == rows;
      SomeRow(rows, polls, options, pollID);
      if !found {
        return Err(NotFound);
      }
      return Ok(PollOf(row.value, selected));
    }

    method GetPoll(pollID: string, fails: bool) returns (result: Result<Poll>)
      ensures fails ==> result == Err(Unavailable)
      ensures !fails && pollID !in polls ==> result == Err(NotFound)
      ensures !fails && pollID in polls ==> result.Ok? && exists rows ::
        Answers(rows, polls, options, pollID) && result.value == PollOf(polls[pollID], Selected(rows))
    {
      if fails {
        return Err(Unavailable);
      }
      var rows := SelectPoll(pollID);
      result := FoldPoll(pollID, rows);
    }

    // The conditional update: moves the poll only from one of the given statuses,
    // and says whether it did.
    method UpdatePollStatus(pollID: string, from: set<PollStatus>, to: PollStatus, at: int,
        fault: Fault) returns (updated: Result<bool>)
      requires Valid()
      modifies this`polls
      ensures Valid()
      ensures var matches := pollID in old(polls) && old(polls)[pollID].status in from;
        && updated == (if fault == NoFault then Ok(matches) else Err(Unavailable))
        && polls == if matches && fault != NotSent
             then old(polls)[pollID :=
               old(polls)[pollID].(status := to, finishedAt := if to == Finished then Some(at) else None)]
             else old(polls)
    {
      if fault == NotSent {
        return Err(Unavailable);
      }
      var matches := pollID in polls && polls[pollID].status in from;
      if matches {
        polls := polls[pollID := polls[pollID].(status := to, finishedAt := if to == Finished then Some(at) else None)];
      }
      return if fault == NoFault then Ok(matches) else Err(Unavailable);
    }

    method GetPollStatus(pollID: string, fails: bool) returns (status: Result<PollStatus>)
      ensures status ==
        if fails then Err(Unavailable) else if pollID in polls then Ok(polls[pollID].status) else Err(NotFound)
    {
      status := if fails then Err(Unavailable) else if pollID in polls then Ok(polls[pollID].status) else Err(NotFound);
    }

    method GetResults(pollID: string, fails: bool) returns (counts: Result<map<string, nat>>)
      ensures counts == if fails then Err(Unavailable) else Ok(if pollID in results then results[pollID] else map[])
    {
      counts := if fails then Err(Unavailable) else Ok(if pollID in results then results[pollID] else map[]);
    }

    // The upsert of absolute counts, never lowering a value. Counts of a missing
    // poll or of an option no poll has break a foreign key and leave no trace.
    method SaveResults(pollID: string, counts: map<string, nat>, fault: Fault) returns (saved: Result<()>)
      requires Valid()
      modifies this`results
      ensures counts.Keys <= IdsOf(OptionsOf(options, pollID)) ==> Valid()
      ensures var admitted := pollID in polls && counts.Keys <= AllIds(options);
        && (saved == if counts == map[] || (admitted && fault == NoFault) then Ok(()) else Err(Unavailable))
        && results == if counts != map[] && admitted && fault != NotSent
             then old(results)[pollID := Upsert(old(results)[pollID], counts)] else old(results)
    {
      if |counts| == 0 {
        return Ok(());
      }
      assert counts != map[];
      var optionIDs, votes := Split(counts);
      if fault == NotSent || pollID !in polls || !(counts.Keys <= AllIds(options)) {
        return Err(Unavailable);
      }
      UpsertRowsAll(results[pollID], optionIDs, votes);
      if counts.Keys <= IdsOf(OptionsOf(options, pollID)) { SaveKeepsTables(pollID, counts, polls, options, results); }
      results := results[pollID := UpsertRows(results[pollID], optionIDs, votes)];
      return if fault == NoFault then Ok(()) else Err(Unavailable);
    }
  }

  function AllIds(options: seq<OptionRow>): set<string> {
    if options == [] then {} else {options[0].option.id} + AllIds(options[1..])
  }

  lemma {:induction false} OwnIds(options: seq<OptionRow>, pollID: string)
    ensures IdsOf(OptionsOf(options, pollID)) <= AllIds(options)
  {
    if options != [] {
      OwnIds(options[1..], pollID);
      assert OptionsOf(options, pollID) ==
        (if options[0].pollID == pollID then [options[0].option] else []) + OptionsOf(options[1..], pollID);
    }
  }

  lemma SaveKeepsTables(pollID: string, counts: map<string, nat>,
                        polls: map<string, PollRow>, options: seq<OptionRow>, results: map<string, map<string, nat>>)
    requires TablesOk(polls, options, results) && pollID in polls && counts.Keys <= IdsOf(OptionsOf(options, pollID))
    ensures TablesOk(polls, options, results[pollID := Upsert(results[pollID], counts)])
  {
    assert Upsert(results[pollID], counts).Keys == results[pollID].Keys;
  }

  lemma CreateKeepsTables(poll: Poll, polls: map<string, PollRow>, options: seq<OptionRow>, results: map<string,
      map<string, nat>>)
    requires TablesOk(polls, options, results) && poll.id !in polls && poll.status != Finished
    ensures TablesOk(polls[poll.id := RowOf(poll)], options + RowsFor(poll),
                     results[poll.id := map id | id in IdsOf(poll.options) :: 0])
  {
    hide OptionsOf, RowsFor, IdsOf;
    forall p
      ensures OptionsOf(options + RowsFor(poll), p) == if p == poll.id then poll.options else OptionsOf(options, p)
    {
      OptionsAfterCreate(poll, options, p);
    }
  }

  lemma OptionsAfterCreate(poll: Poll, options: seq<OptionRow>, p: string)
    requires OptionsOf(options, poll.id) == []
    ensures OptionsOf(options + RowsFor(poll), p) == if p == poll.id then poll.options else OptionsOf(options, p)
  {
    hide OptionsOf;
    OptionsAppend(options, RowsFor(poll), p);
    if p == poll.id { OptionsOfOwn(RowsFor(poll), p, poll.options); } else { OptionsOfOther(RowsFor(poll), p); }
  }

  lemma {:induction false} OptionsOfOther(rows: seq<OptionRow>, pollID: string)
    requires forall i :: 0 <= i < |rows| ==> rows[i].pollID != pollID
    ensures OptionsOf(rows, pollID) == []
  {
    if rows != [] { OptionsOfOther(rows[1..], pollID); }
  }

  // ---- An answer of the engine always exists ----

  function Inserted(option: PollOption, sorted: seq<PollOption>): seq<PollOption> {
    if sorted == [] || option.position <= sorted[0].position then [option] + sorted
    else [sorted[0]] + Inserted(option, sorted[1..])
  }

  function Sorted(options: seq<PollOption>): seq<PollOption> {
    if options == [] then [] else Inserted(options[0], Sorted(options[1..]))
  }

  lemma {:induction false} InsertedMembers(option: PollOption, sorted: seq<PollOption>)
    ensures multiset(Inserted(option, sorted)) == multiset(sorted) + multiset{option}
  {
    if sorted != [] {
      assert sorted == [sorted[0]] + sorted[1..];
      if option.position > sorted[0].position { InsertedMembers(option, sorted[1..]); }
    }
  }

  lemma {:induction false} InsertedFrom(option: PollOption, sorted: seq<PollOption>, p: int)
    requires p <= option.position && forall i :: 0 <= i < |sorted| ==> p <= sorted[i].position
    ensures forall i :: 0 <= i < |Inserted(option, sorted)| ==> p <= Inserted(option, sorted)[i].position
  {
    if sorted != [] && option.position > sorted[0].position { InsertedFrom(option, sorted[1..], p); }
  }

  lemma {:induction false} InsertedSorts(option: PollOption, sorted: seq<PollOption>)
    requires ByPosition(sorted)
    ensures ByPosition(Inserted(option, sorted))
  {
    if sorted != [] && option.position > sorted[0].position {
      InsertedSorts(option, sorted[1..]);
      InsertedFrom(option, sorted[1..], sorted[0].position);
    }
  }

  lemma {:induction false} SortedSorts(options: seq<PollOption>)
    ensures ByPosition(Sorted(options)) && multiset(Sorted(options)) == multiset(options)
  {
    if options != [] {
      SortedSorts(options[1..]);
      InsertedSorts(options[0], Sorted(options[1..]));
      InsertedMembers(options[0], Sorted(options[1..]));
      assert options == [options[0]] + options[1..];
    }
  }

  function JoinRows(poll: PollRow, options: seq<PollOption>): seq<JoinRow> {
    if options == [] then []
    else JoinRows(poll, options[..|options| - 1]) + [JoinRow(poll, Some(options[|options| - 1]))]
  }

  lemma {:induction false} JoinRowsSelect(poll: PollRow, options: seq<PollOption>)
    ensures Selected(JoinRows(poll, options)) == options
    ensures forall i :: 0 <= i < |JoinRows(poll, options)| ==>
      JoinRows(poll, options)[i].poll == poll && JoinRows(poll, options)[i].option.Some?
  {
    if options != [] {
      var n := |options| - 1;
      JoinRowsSelect(poll, options[..n]);
      var rows := JoinRows(poll, options);
      assert rows[..|rows| - 1] == JoinRows(poll, options[..n]);
    }
  }

  // The two columns of the counts, in any order.
  method Split(counts: map<string, nat>) returns (optionIDs: seq<string>, votes: seq<nat>)
    ensures |optionIDs| == |votes| && Distinct(optionIDs)
    ensures Columns(optionIDs, votes) == counts
  {
    optionIDs, votes := [], [];
    var rest := counts.Keys;
    ghost var done: map<string, nat> := map[];
    while rest != {}
      invariant |optionIDs| == |votes| && Distinct(optionIDs)
      invariant rest <= counts.Keys && done.Keys == counts.Keys - rest
      invariant forall id :: id in done ==> done[id] == counts[id]
      invariant forall i :: 0 <= i < |optionIDs| ==> optionIDs[i] in done
      invariant Columns(optionIDs, votes) == done
    {
      var id :| id in rest;
      rest := rest - {id};
      Append(optionIDs, votes, id, counts[id]);
      optionIDs, votes := optionIDs + [id], votes + [counts[id]];
      done := done[id := counts[id]];
    }
    assert done == counts;
  }

  lemma Append(ids: seq<string>, votes: seq<nat>, id: string, v: nat)
    requires |ids| == |votes|
    ensures Columns(ids + [id], votes + [v]) == Columns(ids, votes)[id := v]
  {
    assert (ids + [id])[..|ids|] == ids && (votes + [v])[..|votes|] == votes;
  }

  lemma SomeRow(rows: seq<JoinRow>, polls: map<string, PollRow>, options: seq<OptionRow>, pollID: string)
    requires Answers(rows, polls, options, pollID)
    ensures rows == [] <==> pollID !in polls
    ensures rows != [] ==> rows[0].poll == polls[pollID]
  {
    var own := OptionsOf(options, pollID);
    if pollID in polls && own != [] {
      assert |Selected(rows)| == |multiset(Selected(rows))| == |multiset(own)| == |own|;
    }
  }

  // ---- Create then load ----

  lemma {:induction false} OptionsAppend(a: seq<OptionRow>, b: seq<OptionRow>, pollID: string)
    ensures OptionsOf(a + b, pollID) == OptionsOf(a, pollID) + OptionsOf(b, pollID)
  {
    if a == [] {
      assert a + b == b;
    } else {
      assert (a + b)[1..] == a[1..] + b;
      OptionsAppend(a[1..], b, pollID);
    }
  }

  lemma {:induction false} OptionsOfOwn(rows: seq<OptionRow>, pollID: string, own: seq<PollOption>)
    requires |rows| == |own| && forall i :: 0 <= i < |rows| ==> rows[i] == OptionRow(pollID, own[i])
    ensures OptionsOf(rows, pollID) == own
  {
    if rows != [] { OptionsOfOwn(rows[1..], pollID, own[1..]); }
  }

  // In any table whose option rows are some physical reordering of the rows
  // before Create plus the created ones, every answer of the engine loads the
  // poll as it was created, options in order.
  lemma CreateThenLoad(poll: Poll, polls: map<string, PollRow>, before: seq<OptionRow>, options: seq<OptionRow>,
      rows: seq<JoinRow>)
    requires OptionsOf(before, poll.id) == [] && poll.options != [] && poll.finishedAt.None?
    requires forall i :: 0 <= i < |poll.options| ==> poll.options[i].position == i
    requires multiset(options) == multiset(before + RowsFor(poll))
    requires poll.id in polls && polls[poll.id] == RowOf(poll)
    requires Answers(rows, polls, options, poll.id)
    ensures PollOf(polls[poll.id], Selected(rows)) == poll
  {
    OptionsAppend(before, RowsFor(poll), poll.id);
    OptionsOfOwn(RowsFor(poll), poll.id, poll.options);
    SameOptions(options, before + RowsFor(poll), poll.id);
    assert OptionsOf(options, poll.id) != [] by {
      assert |multiset(OptionsOf(options, poll.id))| == |multiset(poll.options)| == |poll.options|;
    }
    OneOrder(Selected(rows), poll.options);
  }

  function Bag<T>(s: seq<T>): (bag: multiset<T>) { multiset(s) }

  function TakenOut<T>(s: seq<T>, i: nat): seq<T>
    requires i < |s|
  {
    s[..i] + s[i + 1..]
  }

  lemma BagWithout<T>(s: seq<T>, i: nat)
    requires i < |s|
    ensures Bag(TakenOut(s, i)) == Bag(s) - multiset{s[i]}
  {
    assert s == s[..i] + ([s[i]] + s[i + 1..]);
  }

  // The table with its row i taken out.
  lemma OptionsWithout(b: seq<OptionRow>, i: nat, pollID: string)
    requires i < |b|
    ensures Bag(OptionsOf(b, pollID)) ==
      Bag(OptionsOf(TakenOut(b, i), pollID)) + if b[i].pollID == pollID then multiset{b[i].option} else multiset{}
  {
    OptionsAppend(b[..i], b[i + 1..], pollID);
    OptionsAppend(b[..i], [b[i]] + b[i + 1..], pollID);
    assert b == b[..i] + ([b[i]] + b[i + 1..]) && ([b[i]] + b[i + 1..])[1..] == b[i + 1..];
  }

  lemma Found<T>(a: seq<T>, b: seq<T>) returns (i: nat)
    requires Bag(a) == Bag(b) && a != []
    ensures i < |b| && b[i] == a[0]
  {
    assert a[0] in multiset(a);
    assert a[0] in multiset(b);
    i :| 0 <= i < |b| && b[i] == a[0];
  }

  lemma EmptyBag<T>(a: seq<T>, b: seq<T>)
    requires Bag(a) == Bag(b) && a == []
    ensures b == []
  {
    assert |b| == |multiset(b)| == 0;
  }

  lemma {:induction false} SameOptions(a: seq<OptionRow>, b: seq<OptionRow>, pollID: string)
    requires Bag(a) == Bag(b)
    ensures Bag(OptionsOf(a, pollID)) == Bag(OptionsOf(b, pollID))
    decreases |a|
  {
    hide Bag, OptionsOf, TakenOut;
    if a == [] {
      EmptyBag(a, b);
    } else {
      var i := Found(a, b);
      BagWithout(a, 0);
      BagWithout(b, i);
      OptionsWithout(a, 0, pollID);
      OptionsWithout(b, i, pollID);
      OneLess(a);
      SameOptions(TakenOut(a, 0), TakenOut(b, i), pollID);
    }
  }

  lemma OneLess<T>(s: seq<T>)
    requires s != []
    ensures |TakenOut(s, 0)| < |s|
  {
  }
}
