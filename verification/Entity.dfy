// The core voting model: polls, their lifecycle, and what a valid ballot is.
module Entity {
  import opened Wrappers

  datatype PollStatus = Draft | Active | Finished

  datatype PollType = Single | Multiple

  datatype PollOption = PollOption(id: string, text: string, position: int)

  datatype Poll = Poll(
    id: string,
    question: string,
    kind: PollType,
    maxChoices: int,
    status: PollStatus,
    options: seq<PollOption>,
    createdAt: int,
    startsAt: Option<int>,
    endsAt: Option<int>,
    finishedAt: Option<int>)

  datatype BallotError = NothingSelected | TooManySelected(limit: int) | UnknownOption | DuplicateOption

  datatype OpenError = NotAccepting | NotStarted | Ended

  // How far a status lies along draft, active, finished.
  function Rank(status: PollStatus): nat {
    match status
    case Draft => 1
    case Active => 2
    case Finished => 3
  }

  function OptionIDs(poll: Poll): seq<string> {
    seq(|poll.options|, i requires 0 <= i < |poll.options| => poll.options[i].id)
  }

  function OptionSet(poll: Poll): set<string> {
    set id | id in OptionIDs(poll)
  }

  predicate Distinct<T(==)>(s: seq<T>) {
    forall i, j :: 0 <= i < j < |s| ==> s[i] != s[j]
  }

  function EffectiveMaxChoices(poll: Poll): int {
    if poll.kind == Single then 1
    else if poll.maxChoices <= 0 || poll.maxChoices > |poll.options| then |poll.options|
    else poll.maxChoices
  }

  // A ballot the poll may count: nonempty, within the choice limit, and a
  // duplicate-free selection of the poll's own options.
  predicate IsBallot(poll: Poll, ids: seq<string>) {
    && 1 <= |ids| <= EffectiveMaxChoices(poll)
    && (forall i :: 0 <= i < |ids| ==> ids[i] in OptionSet(poll))
    && Distinct(ids)
  }

  ghost predicate HasOption(poll: Poll, id: string) {
    exists j :: 0 <= j < |poll.options| && poll.options[j].id == id
  }

  lemma InOptions(poll: Poll, id: string)
    ensures id in OptionSet(poll) <==> HasOption(poll, id)
  {
    if id in OptionSet(poll) {
      var j :| 0 <= j < |OptionIDs(poll)| && OptionIDs(poll)[j] == id;
      assert poll.options[j].id == id;
    }
    if j :| 0 <= j < |poll.options| && poll.options[j].id == id {
      assert OptionIDs(poll)[j] == id;
    }
  }

  // What a ballot may hold: in a single-choice poll one option of the poll and no
  // more; in any other any selection of distinct options of the poll that is not
  // empty and not larger than a sensible limit, which is one between 1 and the
  // number of options, and otherwise all of them.
  lemma BallotsAllowed(poll: Poll, ids: seq<string>)
    ensures var n := |poll.options|;
      IsBallot(poll, ids) <==>
        && (forall i :: 0 <= i < |ids| ==> HasOption(poll, ids[i]))
        && (forall i, j :: 0 <= i < j < |ids| ==> ids[i] != ids[j])
        && |ids| > 0
        && (poll.kind == Single ==> |ids| == 1)
        && (poll.kind == Multiple ==> |ids| <= if 1 <= poll.maxChoices <= n then poll.maxChoices else n)
  {
    forall i | 0 <= i < |ids| ensures ids[i] in OptionSet(poll) <==> HasOption(poll, ids[i]) {
      InOptions(poll, ids[i]);
    }
    assert poll.kind == Single || poll.kind == Multiple;
    hide HasOption, OptionSet;
  }

  // A poll takes ballots while it is active and in [startsAt, endsAt), an absent
  // end being no bound.
  lemma OpenWhen(poll: Poll, now: int)
    ensures IsOpenAt(poll, now) <==>
      && poll.status == Active
      && !(poll.startsAt.Some? && now < poll.startsAt.value)
      && !(poll.endsAt.Some? && now >= poll.endsAt.value)
  {
  }

  // The first rule a selection breaks, read left to right.
  ghost predicate FirstFault(poll: Poll, ids: seq<string>, i: nat, fault: BallotError) {
    && i < |ids|
    && (forall j :: 0 <= j < i ==> ids[j] in OptionSet(poll))
    && Distinct(ids[..i])
    && (if ids[i] !in OptionSet(poll) then fault == UnknownOption
        else ids[i] in ids[..i] && fault == DuplicateOption)
  }

  method ValidateBallot(poll: Poll, ids: seq<string>) returns (fault: Option<BallotError>)
    ensures fault.None? <==> IsBallot(poll, ids)
    ensures |ids| == 0 ==> fault == Some(NothingSelected)
    ensures |ids| > 0 && |ids| > EffectiveMaxChoices(poll) ==> fault == Some(TooManySelected(EffectiveMaxChoices(poll)))
    ensures 1 <= |ids| <= EffectiveMaxChoices(poll) && fault.Some? ==> exists i :: FirstFault(poll, ids, i, fault.value)
  {
    if |ids| == 0 {
      return Some(NothingSelected);
    }
    var maxChoices := EffectiveMaxChoices(poll);
    if |ids| > maxChoices {
      return Some(TooManySelected(maxChoices));
    }
    var known: set<string> := {};
    for k := 0 to |poll.options|
      invariant known == set j | 0 <= j < k :: poll.options[j].id
    {
      known := known + {poll.options[k].id};
    }
    assert known == OptionSet(poll) by {
      forall id ensures id in known <==> id in OptionSet(poll) {
        if id in OptionSet(poll) {
          var j :| 0 <= j < |OptionIDs(poll)| && OptionIDs(poll)[j] == id;
          assert poll.options[j].id == id;
        }
        if id in known {
          var j :| 0 <= j < |poll.options| && poll.options[j].id == id;
          assert OptionIDs(poll)[j] == id;
        }
      }
    }
    var seen: set<string> := {};
    for i := 0 to |ids|
      invariant seen == set j | 0 <= j < i :: ids[j]
      invariant forall j :: 0 <= j < i ==> ids[j] in OptionSet(poll)
      invariant Distinct(ids[..i])
    {
      if ids[i] !in known {
        assert FirstFault(poll, ids, i, UnknownOption);
        return Some(UnknownOption);
      }
      if ids[i] in seen {
        assert FirstFault(poll, ids, i, DuplicateOption);
        return Some(DuplicateOption);
      }
      seen := seen + {ids[i]};
    }
    assert ids[..|ids|] == ids;
    return None;
  }

  // A finished poll has settled once settleAfter has passed since finished_at.
  predicate HasSettled(status: PollStatus, finishedAt: Option<int>, now: int, settleAfter: int) {
    status == Finished && finishedAt.Some? && now - finishedAt.value >= settleAfter
  }

  // A poll takes ballots while it is active and now lies in [startsAt, endsAt).
  predicate IsOpenAt(poll: Poll, now: int) {
    && poll.status == Active
    && (poll.startsAt.Some? ==> poll.startsAt.value <= now)
    && (poll.endsAt.Some? ==> now < poll.endsAt.value)
  }

  function CheckOpenAt(poll: Poll, now: int): (fault: Option<OpenError>)
    ensures fault.None? <==> IsOpenAt(poll, now)
    ensures fault == Some(NotAccepting) <==> poll.status != Active
    ensures fault == Some(NotStarted) ==> poll.startsAt.Some? && now < poll.startsAt.value
    ensures fault == Some(Ended) ==> poll.endsAt.Some? && poll.endsAt.value <= now
  {
    if poll.status != Active then Some(NotAccepting)
    else if poll.startsAt.Some? && now < poll.startsAt.value then Some(NotStarted)
    else if poll.endsAt.Some? && !(now < poll.endsAt.value) then Some(Ended)
    else None
  }
}
