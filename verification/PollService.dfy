// The admin side: building and creating polls, moving them through their
// lifecycle, and reading results.
module PollService {
  import opened Wrappers
  import opened Entity
  import opened Text
  import Repo = Repository
  import Res = Results
  import VoteStore
  import PollCache

  datatype Limits = Limits(maxQuestionLength: int, maxOptionLength: int, maxOptions: int)

  datatype Command = Command(question: string, kind: string, maxChoices: int, options: seq<string>,
                             startsAt: Option<int>, endsAt: Option<int>)

  // Why a command is refused; every reason is reported as InvalidRequest.
  datatype Reason =
    | QuestionRequired | QuestionTooLong | UnsupportedType | OptionTooLong | OptionsNotDistinct
    | TooFewOptions | TooManyOptions | TooManyChoices | WindowNotOrdered

  datatype Built = Built(poll: Poll) | Rejected(reason: Reason)

  // An omitted type is single.
  function KindOf(kind: string): Option<PollType> {
    if kind == "" || kind == "single" then Some(Single)
    else if kind == "multiple" then Some(Multiple)
    else None
  }

  lemma KindNames(kind: string)
    ensures KindOf(kind) == Some(Multiple) <==> kind == "multiple"
    ensures KindOf(kind) == Some(Single) <==> kind == "single" || kind == ""
  {
  }

  // The option texts that are not blank, trimmed, in order.
  function Texts(options: seq<string>): seq<string> {
    if options == [] then []
    else
      var text := TrimSpace(options[|options| - 1]);
      Texts(options[..|options| - 1]) + if text == "" then [] else [text]
  }

  // Exactly the trimmed texts of the options that are not blank; without blank
  // options all of them, in order.
  lemma {:induction false} TextsAre(options: seq<string>, text: string)
    ensures text in Texts(options) <==> text != "" && exists i :: 0 <= i < |options| && TrimSpace(options[i]) == text
    ensures (forall i :: 0 <= i < |options| ==> TrimSpace(options[i]) != "") ==>
      |Texts(options)| == |options| && forall i :: 0 <= i < |options| ==> Texts(options)[i] == TrimSpace(options[i])
  {
    hide TrimSpace;
    if options != [] {
      var init := options[..|options| - 1];
      TextsAre(init, text);
      if i :| 0 <= i < |init| && TrimSpace(init[i]) == text { assert TrimSpace(options[i]) == text; }
      if i :| 0 <= i < |options| && TrimSpace(options[i]) == text {
        if i < |init| { assert TrimSpace(init[i]) == text; }
      }
    }
  }

  function Order(reason: Reason): nat {
    match reason
    case QuestionRequired => 0
    case QuestionTooLong => 1
    case UnsupportedType => 2
    case OptionTooLong => 3
    case OptionsNotDistinct => 3
    case TooFewOptions => 4
    case TooManyOptions => 5
    case TooManyChoices => 6
    case WindowNotOrdered => 7
  }

  // The question is checked first, then the type, the options one after another,
  // their number, the limit, and the window.
  lemma OrderOfChecks()
    ensures Order(QuestionRequired) < Order(QuestionTooLong) < Order(UnsupportedType) < Order(OptionTooLong)
    ensures Order(OptionTooLong) == Order(OptionsNotDistinct) < Order(TooFewOptions) < Order(TooManyOptions)
    ensures Order(TooManyOptions) < Order(TooManyChoices) < Order(WindowNotOrdered)
  {
  }

  // What each reason says about the command.
  ghost predicate Breaks(l: Limits, cmd: Command, reason: Reason) {
    var texts := Texts(cmd.options);
    match reason
    case QuestionRequired => TrimSpace(cmd.question) == ""
    case QuestionTooLong => |TrimSpace(cmd.question)| > l.maxQuestionLength
    case UnsupportedType => KindOf(cmd.kind).None?
    case OptionTooLong => exists i :: 0 <= i < |texts| && |texts[i]| > l.maxOptionLength
    case OptionsNotDistinct => !Distinct(texts)
    case TooFewOptions => |texts| < 2
    case TooManyOptions => |texts| > l.maxOptions
    case TooManyChoices => KindOf(cmd.kind) == Some(Multiple) && cmd.maxChoices > |texts|
    case WindowNotOrdered => cmd.startsAt.Some? && cmd.endsAt.Some? && cmd.endsAt.value <= cmd.startsAt.value
  }

  ghost predicate Acceptable(l: Limits, cmd: Command) {
    forall reason :: !Breaks(l, cmd, reason)
  }

  // The commands that are accepted, written out.
  lemma AcceptedCommands(l: Limits, cmd: Command)
    ensures var question, texts := TrimSpace(cmd.question), Texts(cmd.options);
      Acceptable(l, cmd) <==>
        && question != "" && |question| <= l.maxQuestionLength
        && (cmd.kind == "" || cmd.kind == "single" || cmd.kind == "multiple")
        && (forall i :: 0 <= i < |texts| ==> |texts[i]| <= l.maxOptionLength)
        && (forall i, j :: 0 <= i < j < |texts| ==> texts[i] != texts[j])
        && 2 <= |texts| <= l.maxOptions
        && (cmd.kind == "multiple" ==> cmd.maxChoices <= |texts|)
        && (cmd.startsAt.Some? && cmd.endsAt.Some? ==> cmd.startsAt.value < cmd.endsAt.value)
  {
    hide TrimSpace, Texts;
    forall reason
      ensures Breaks(l, cmd, reason) ==> reason in {QuestionRequired, QuestionTooLong, UnsupportedType, OptionTooLong,
        OptionsNotDistinct, TooFewOptions, TooManyOptions, TooManyChoices, WindowNotOrdered} {}
    if Acceptable(l, cmd) {
      assert !Breaks(l, cmd, QuestionRequired) && !Breaks(l, cmd, QuestionTooLong) && !Breaks(l, cmd, UnsupportedType);
      assert !Breaks(l, cmd, OptionTooLong) && !Breaks(l, cmd, OptionsNotDistinct) && !Breaks(l, cmd, TooFewOptions);
      assert !Breaks(l, cmd, TooManyOptions) && !Breaks(l, cmd, TooManyChoices) && !Breaks(l, cmd, WindowNotOrdered);
    }
  }

  // The poll an acceptable command describes, with these fresh ids.
  ghost predicate Describes(cmd: Command, ids: seq<string>, now: int, poll: Poll) {
    var texts := Texts(cmd.options);
    && |ids| > |texts|
    && poll.id == ids[0] && poll.question == TrimSpace(cmd.question)
    && Some(poll.kind) == KindOf(cmd.kind)
    && poll.maxChoices == (if poll.kind == Single then 1 else if cmd.maxChoices <= 0 then |texts| else cmd.maxChoices)
    && poll.status == Draft && poll.createdAt == now && poll.finishedAt.None?
    && poll.startsAt == cmd.startsAt && poll.endsAt == cmd.endsAt
    && |poll.options| == |texts|
    && forall i :: 0 <= i < |texts| ==> poll.options[i] == PollOption(ids[i + 1], texts[i], i)
  }

  lemma {:induction false} TextsPrefix(options: seq<string>, i: nat)
    requires i <= |options|
    ensures |Texts(options[..i])| <= |Texts(options)| <= |options|
    ensures Texts(options)[..|Texts(options[..i])|] == Texts(options[..i])
  {
    if i < |options| {
      var init := options[..|options| - 1];
      assert init[..i] == options[..i];
      TextsPrefix(init, i);
    } else {
      assert options[..i] == options;
      if options != [] { TextsPrefix(options[..i - 1], i - 1); assert options[..i - 1][..i - 1] == options[..i - 1]; }
    }
  }

  lemma TextsNone(options: seq<string>)
    ensures Texts(options[..0]) == []
  {
  }

  // One more raw option.
  lemma TextsStep(options: seq<string>, i: nat)
    requires i < |options|
    ensures Texts(options[..i + 1]) ==
      Texts(options[..i]) + if TrimSpace(options[i]) == "" then [] else [TrimSpace(options[i])]
  {
    assert options[..i + 1][..i] == options[..i];
  }

  // Accepts exactly the commands no reason speaks against; otherwise gives the
  // first reason in the order of the checks.
  method BuildPoll(l: Limits, cmd: Command, ids: seq<string>, now: int) returns (built: Built)
    requires |ids| > |cmd.options|
    ensures built.Built? <==> Acceptable(l, cmd)
    ensures built.Built? ==> Describes(cmd, ids, now, built.poll)
    ensures built.Rejected? ==> Breaks(l, cmd, built.reason)
    ensures built.Rejected? ==> forall r :: Breaks(l, cmd, r) ==> Order(built.reason) <= Order(r)
  {
    hide TrimSpace, Texts;
    var question := TrimSpace(cmd.question);
    if question == "" {
      assert Breaks(l, cmd, QuestionRequired);
      return Rejected(QuestionRequired);
    }
    if |question| > l.maxQuestionLength {
      assert Breaks(l, cmd, QuestionTooLong);
      return Rejected(QuestionTooLong);
    }
    if KindOf(cmd.kind).None? {
      assert Breaks(l, cmd, UnsupportedType);
      return Rejected(UnsupportedType);
    }
    var kind := KindOf(cmd.kind).value;

    var fault, texts := CollectTexts(l, cmd.options);
    if fault.Some? {
      assert Breaks(l, cmd, fault.value);
      return Rejected(fault.value);
    }
    if |texts| < 2 {
      assert Breaks(l, cmd, TooFewOptions);
      return Rejected(TooFewOptions);
    }
    if |texts| > l.maxOptions {
      assert Breaks(l, cmd, TooManyOptions);
      return Rejected(TooManyOptions);
    }

    var maxChoices := cmd.maxChoices;
    if kind == Single {
      maxChoices := 1;
    } else {
      if maxChoices <= 0 {
        maxChoices := |texts|;
      }
      if maxChoices > |texts| {
        assert Breaks(l, cmd, TooManyChoices);
        return Rejected(TooManyChoices);
      }
    }
    if cmd.startsAt.Some? && cmd.endsAt.Some? && !(cmd.endsAt.value > cmd.startsAt.value) {
      assert Breaks(l, cmd, WindowNotOrdered);
      return Rejected(WindowNotOrdered);
    }

    TextsPrefix(cmd.options, 0);
    var options: seq<PollOption> := [];
    for i := 0 to |texts|
      invariant |options| == i
      invariant forall j :: 0 <= j < i ==> options[j] == PollOption(ids[j + 1], texts[j], j)
    {
      options := options + [PollOption(ids[i + 1], texts[i], i)];
    }
    return Built(Poll(ids[0], question, kind, maxChoices, Draft, options, now, cmd.startsAt, cmd.endsAt, None));
  }

  // The loop over the raw options.
  method CollectTexts(l: Limits, options: seq<string>) returns (fault: Option<Reason>, texts: seq<string>)
    ensures fault.None? ==>
      texts == Texts(options) && Distinct(texts) && forall i :: 0 <= i < |texts| ==> |texts[i]| <= l.maxOptionLength
    ensures fault.Some? ==>
      || (fault == Some(OptionTooLong)
          && exists i :: 0 <= i < |Texts(options)| && |Texts(options)[i]| > l.maxOptionLength)
      || (fault == Some(OptionsNotDistinct) && !Distinct(Texts(options)))
  {
    hide TrimSpace, Texts;
    TextsNone(options);
    texts := [];
    var seen: set<string> := {};
    for i := 0 to |options|
      invariant texts == Texts(options[..i]) && Distinct(texts)
      invariant forall t :: t in seen <==> t in texts
      invariant forall j :: 0 <= j < |texts| ==> |texts[j]| <= l.maxOptionLength
    {
      var text := TrimSpace(options[i]);
      TextsStep(options, i);
      TextsPrefix(options, i + 1);
      if text != "" {
        ghost var all, more := Texts(options), Texts(options[..i + 1]);
        assert all[|texts|] == more[|texts|] == text;
        if |text| > l.maxOptionLength {
          return Some(OptionTooLong), texts;
        }
        if text in seen {
          ghost var j :| 0 <= j < |texts| && texts[j] == text;
          assert all[j] == more[j] == text;
          return Some(OptionsNotDistinct), texts;
        }
        seen := seen + {text};
        texts := texts + [text];
      }
    }
    assert options[..|options|] == options;
    fault := None;
  }

  // ---- The schema ----

  // The CHECK constraints on a row of polls.
  predicate PollRowOk(row: Repo.PollRow) {
    && Btrim(row.question) != ""
    && row.maxChoices >= 1
    && (row.kind != Single || row.maxChoices == 1)
    && (row.startsAt.None? || row.endsAt.None? || row.endsAt.value > row.startsAt.value)
    && (row.status == Finished <==> row.finishedAt.Some?)
  }

  // The CHECK constraints on the option rows of one poll, their primary key and
  // their unique position.
  predicate OptionRowsOk(rows: seq<Repo.OptionRow>) {
    && (forall i :: 0 <= i < |rows| ==> Btrim(rows[i].option.text) != "" && rows[i].option.position >= 0)
    && (forall i, j :: 0 <= i < j < |rows| ==>
          rows[i].option.id != rows[j].option.id && rows[i].option.position != rows[j].option.position)
  }

  lemma {:induction false} TextsTrimmed(options: seq<string>)
    ensures forall i :: 0 <= i < |Texts(options)| ==>
      Texts(options)[i] != "" && Btrim(Texts(options)[i]) == Texts(options)[i]
  {
    hide TrimSpace, Btrim;
    if options != [] {
      TextsTrimmed(options[..|options| - 1]);
      TrimmedForSchema(options[|options| - 1]);
    }
  }

  // Every accepted command gives a poll the schema accepts, with distinct option
  // texts, positions 0..n-1, and a choice limit that is in force as stored.
  lemma AcceptedIsStorable(l: Limits, cmd: Command, ids: seq<string>, now: int, poll: Poll)
    requires Acceptable(l, cmd) && Distinct(ids) && Describes(cmd, ids, now, poll)
    ensures PollRowOk(Repo.RowOf(poll)) && OptionRowsOk(Repo.RowsFor(poll))
    ensures Distinct(OptionIDs(poll)) && 2 <= |poll.options| <= l.maxOptions
    ensures forall i, j :: 0 <= i < j < |poll.options| ==> poll.options[i].text != poll.options[j].text
    ensures forall i :: 0 <= i < |poll.options| ==> poll.options[i].position == i
    ensures EffectiveMaxChoices(poll) == poll.maxChoices <= |poll.options|
    // It says what the command says.
    ensures poll.question == TrimSpace(cmd.question) && poll.startsAt == cmd.startsAt && poll.endsAt == cmd.endsAt
    ensures poll.id == ids[0] && poll.createdAt == now && poll.status == Draft && poll.finishedAt.None?
    ensures |poll.options| == |Texts(cmd.options)|
    ensures forall i :: 0 <= i < |poll.options| ==>
      poll.options[i].text == Texts(cmd.options)[i] && poll.options[i].id == ids[i + 1]
    ensures poll.kind == if cmd.kind == "multiple" then Multiple else Single
    ensures poll.kind == Multiple ==>
      poll.maxChoices == if cmd.maxChoices <= 0 then |poll.options| else cmd.maxChoices
  {
    hide TrimSpace, Btrim, Texts, Acceptable;
    Spared(l, cmd);
    TextsTrimmed(cmd.options);
    TrimmedForSchema(cmd.question);
  }

  lemma Spared(l: Limits, cmd: Command)
    requires Acceptable(l, cmd)
    ensures TrimSpace(cmd.question) != "" && Distinct(Texts(cmd.options)) && 2 <= |Texts(cmd.options)| <= l.maxOptions
    ensures KindOf(cmd.kind) == Some(Multiple) ==> cmd.maxChoices <= |Texts(cmd.options)|
    ensures cmd.startsAt.Some? && cmd.endsAt.Some? ==> cmd.endsAt.value > cmd.startsAt.value
  {
    hide TrimSpace, Texts;
    assert !Breaks(l, cmd, QuestionRequired) && !Breaks(l, cmd, OptionsNotDistinct) && !Breaks(l, cmd, TooFewOptions);
    assert !Breaks(l, cmd, TooManyOptions) && !Breaks(l, cmd, TooManyChoices) && !Breaks(l, cmd, WindowNotOrdered);
  }

  // ---- The service ----

  class Service {
    const repo: Repo.PollRepository
    const store: VoteStore.Store
    const cache: PollCache.Cache
    const limits: Limits

    constructor (repo: Repo.PollRepository, store: VoteStore.Store, cache: PollCache.Cache, limits: Limits)
      ensures this.repo == repo && this.store == store && this.cache == cache && this.limits == limits
    {
      this.repo, this.store, this.cache, this.limits := repo, store, cache, limits;
    }

    // Every load of this id gives back this poll.
    ghost predicate Loads(poll: Poll)
      reads repo
    {
      && poll.id in repo.polls
      && forall rows :: Repo.Answers(rows, repo.polls, repo.options, poll.id) ==>
           Repo.PollOf(repo.polls[poll.id], Repo.Selected(rows)) == poll
    }

    // Builds the poll and inserts it in one transaction. If the commit takes
    // effect, acknowledged or not, every later load gives the described poll.
    method Create(cmd: Command, ids: seq<string>, now: int, failing: nat, commit: Fault) returns (result: Result<Poll>)
      requires repo.Valid() && |ids| > |cmd.options| && ids[0] !in repo.polls
      modifies repo
      ensures repo.Valid()
      ensures !Acceptable(limits, cmd) ==> result == Err(InvalidRequest)
      ensures result.Ok? <==> Acceptable(limits, cmd) && failing >= 4 && commit == NoFault
      ensures Acceptable(limits, cmd) && failing >= 4 && commit != NotSent ==>
        exists poll :: Describes(cmd, ids, now, poll) && Loads(poll) && (result.Ok? ==> result.value == poll)
      ensures !(Acceptable(limits, cmd) && failing >= 4 && commit != NotSent) ==>
        repo.polls == old(repo.polls) && repo.options == old(repo.options) && repo.results == old(repo.results)
    {
      hide Acceptable, Repo.Answers;
      var built := BuildPoll(limits, cmd, ids, now);
      if built.Rejected? {
        return Err(InvalidRequest);
      }
      var poll := built.poll;
      ghost var before := repo.options;
      var inserted := repo.Create(poll, failing, commit);
      Spared(limits, cmd);
      if failing >= 4 && commit != NotSent {
        forall rows | Repo.Answers(rows, repo.polls, repo.options, poll.id)
          ensures Repo.PollOf(repo.polls[poll.id], Repo.Selected(rows)) == poll
        {
          Repo.CreateThenLoad(poll, repo.polls, before, repo.options, rows);
        }
        assert Loads(poll);
      }
      return if inserted.Ok? then Ok(poll) else Err(inserted.code);
    }

    // A failed read counts as nothing read.
    function Found(read: Result<map<string, nat>>): Option<map<string, nat>> {
      if read.Ok? then Some(read.value) else None
    }

    // Merges the live counters with the durable row; fails only if both reads do.
    method Results(pollID: string, loaded: Result<Poll>, durableFails: bool, liveFails: bool,
        when: nat -> nat) returns (result: Result<Res.PollResults>)
      requires store.WellConfigured()
      ensures loaded.Err? ==> result == Err(loaded.code)
      ensures loaded.Ok? && durableFails && liveFails ==> result == Err(Unavailable)
      ensures loaded.Ok? && !(durableFails && liveFails) ==>
        && result.Ok? && result.value.poll == loaded.value
        && result.value.counts.Keys == OptionSet(loaded.value)
        && result.value.total == Res.TotalOver(OptionIDs(loaded.value), result.value.counts)
        && forall id :: id in OptionSet(loaded.value) ==>
             result.value.counts[id] == Repo.Max(
               if durableFails || pollID !in repo.results then 0 else Repo.VotesOf(repo.results[pollID], id),
               if liveFails then 0 else VoteStore.SumLive(store.client.hashes, pollID, store.cfg.shards, id, when))
    {
      if loaded.Err? {
        return Err(loaded.code);
      }
      var poll := loaded.value;
      var durable := repo.GetResults(pollID, durableFails);
      var live := store.Counters(pollID, OptionIDs(poll), when, liveFails);
      if durable.Err? && live.Err? {
        return Err(Unavailable);
      }
      var results := Res.Merge(poll, Found(durable), Found(live));
      return Ok(results);
    }

    // The update reaches the table and matches the poll's row.
    predicate Moves(pollID: string, wellFormed: bool, from: set<PollStatus>, fault: Fault)
      reads repo
    {
      wellFormed && fault != NotSent && pollID in repo.polls && repo.polls[pollID].status in from
    }

    function Moved(polls: map<string, Repo.PollRow>, pollID: string, to: PollStatus, at: int): map<string, Repo.PollRow>
      requires pollID in polls
    {
      polls[pollID := polls[pollID].(status := to, finishedAt := if to == Finished then Some(at) else None)]
    }

    // The conditional update, then the poll as stored; on a refused update the
    // current status is read only to word the conflict.
    method Transition(pollID: string, wellFormed: bool, from: set<PollStatus>, to: PollStatus, at: int,
                      fault: Fault, rereadFails: bool) returns (result: Result<Poll>)
      requires repo.Valid()
      modifies repo`polls
      ensures repo.Valid()
      ensures var moves := old(Moves(pollID, wellFormed, from, fault));
        && repo.polls == (if moves then Moved(old(repo.polls), pollID, to, at) else old(repo.polls))
        && (result.Ok? <==> moves && fault == NoFault && !rereadFails)
      ensures result.Ok? ==> exists rows ::
        Repo.Answers(rows, repo.polls, repo.options, pollID)
        && result.value == Repo.PollOf(repo.polls[pollID], Repo.Selected(rows))
      ensures wellFormed && fault == NoFault && !rereadFails && result.Err? ==>
        result.code == if pollID in repo.polls then Conflict else NotFound
    {
      if !wellFormed {
        return Err(NotFound);
      }
      var updated := repo.UpdatePollStatus(pollID, from, to, at, fault);
      if updated.Err? {
        return Err(updated.code);
      }
      if !updated.value {
        var current := repo.GetPollStatus(pollID, rereadFails);
        return Err(if current.Ok? then Conflict else current.code);
      }
      result := repo.GetPoll(pollID, rereadFails);
    }

    // Drops the poll from both tiers; a failing delete is only logged.
    method Drop(pollID: string, fails: bool)
      requires cache.local.Valid()
      modifies cache`shared, cache.local.shards[cache.local.ShardFor(pollID)]
      ensures cache.local.Valid() && cache.Line(pollID) == None
      ensures cache.shared == if fails then old(cache.shared) else old(cache.shared) - {pollID}
    {
      var _ := cache.Invalidate(pollID, fails);
    }

    // Opens a draft poll, tracks it and drops it from the caches. If tracking
    // fails the poll is active, possibly untracked, and still cached as a draft;
    // a second Activate can only report a conflict.
    method Activate(pollID: string, wellFormed: bool, at: int, fault: Fault, rereadFails: bool, track: Fault,
        dropFails: bool)
        returns (result: Result<Poll>)
      requires repo.Valid() && cache.local.Valid()
      modifies repo`polls, store.client`tracked, cache`shared, cache.local.shards[cache.local.ShardFor(pollID)]
      ensures repo.Valid() && cache.local.Valid()
      ensures var moves := old(Moves(pollID, wellFormed, {Draft}, fault));
        var moved := moves && fault == NoFault && !rereadFails;
        && repo.polls == (if moves then Moved(old(repo.polls), pollID, Active, at) else old(repo.polls))
        && (result.Ok? <==> moved && track == NoFault)
        && store.client.tracked == (old(store.client.tracked) + if moved && track != NotSent then {pollID} else {})
        && cache.Line(pollID) == (if result.Ok? then None else old(cache.Line(pollID)))
        && cache.shared == (if result.Ok? && !dropFails then old(cache.shared) - {pollID} else old(cache.shared))
      ensures result.Ok? ==> result.value.status == Active
      // A poll that left draft, tracked or not, is never activated again.
      ensures pollID in old(repo.polls) && old(repo.polls)[pollID].status != Draft ==>
        result.Err? && repo.polls == old(repo.polls) && store.client.tracked == old(store.client.tracked)
    {
      hide Repo.TablesOk, Repo.Answers, Repo.Selected;
      var moved := Transition(pollID, wellFormed, {Draft}, Active, at, fault, rereadFails);
      if moved.Err? {
        return moved;
      }
      var tracked := store.TrackPoll(pollID, track);
      if tracked.Err? {
        return Err(tracked.code);
      }
      Drop(pollID, dropFails);
      return moved;
    }

    // Closes a poll that is not finished yet, and drops it from the caches; the
    // first finish stands.
    method Finish(pollID: string, wellFormed: bool, at: int, fault: Fault, rereadFails: bool, dropFails: bool)
        returns (result: Result<Poll>)
      requires repo.Valid() && cache.local.Valid()
      modifies repo`polls, cache`shared, cache.local.shards[cache.local.ShardFor(pollID)]
      ensures repo.Valid() && cache.local.Valid()
      ensures var moves := old(Moves(pollID, wellFormed, {Draft, Active}, fault));
        && repo.polls == (if moves then Moved(old(repo.polls), pollID, Finished, at) else old(repo.polls))
        && (result.Ok? <==> moves && fault == NoFault && !rereadFails)
        && cache.Line(pollID) == (if result.Ok? then None else old(cache.Line(pollID)))
        && cache.shared == (if result.Ok? && !dropFails then old(cache.shared) - {pollID} else old(cache.shared))
      ensures result.Ok? ==> result.value.status == Finished && result.value.finishedAt == Some(at)
      ensures pollID in old(repo.polls) && old(repo.polls)[pollID].status == Finished ==>
        result.Err? && repo.polls == old(repo.polls)
    {
      result := Transition(pollID, wellFormed, {Draft, Active}, Finished, at, fault, rereadFails);
      if result.Ok? {
        Drop(pollID, dropFails);
      }
    }
  }
}
