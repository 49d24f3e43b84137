/** The status of a post, derived from the statuses of its targets. */
module PostAggregate {
  import opened Common

  datatype Status =
    | Draft | Queued | Publishing | Published | PartiallyPublished | WaitingProvider | Retrying
    | Failed | Dlq | DeadLetter | BlockedAuth | DriveRequiredFailed
    | Unknown(text: string)
  {
    predicate IsFailure() { Failed? || Dlq? || DeadLetter? || BlockedAuth? || DriveRequiredFailed? }

    predicate IsTerminal() { Published? || PartiallyPublished? || IsFailure() }
  }

  /** The first status that no case knows, if there is one. */
  function FirstUnknown(targets: seq<Status>): Option<Status> {
    if targets == [] then None
    else if targets[0].Unknown? then Some(targets[0])
    else FirstUnknown(targets[1..])
  }

  /** What the statuses that occur mean together: everything done, then whatever is still
      moving in this order, then a partial result, then drafts alone, then failure. */
  function Meaning(present: set<Status>): Status {
    if present == {} then Draft
    else if present == {Published} then Published
    else if Publishing in present then Publishing
    else if Retrying in present then Retrying
    else if WaitingProvider in present then WaitingProvider
    else if Queued in present then Queued
    else if Published in present || PartiallyPublished in present then PartiallyPublished
    else if present == {Draft} then Draft
    else Failed
  }

  function Present(targets: seq<Status>): set<Status> { set s | s in targets }

  const FAILURES := {Failed, Dlq, DeadLetter, BlockedAuth, DriveRequiredFailed}

  /** The nine flags of the pass over the targets. */
  datatype Flags = Flags(allPublished: bool, allDraft: bool, allFailed: bool, anyPublished: bool, anyPartial: bool,
                         anyPublishing: bool, anyRetrying: bool, anyWaitingProvider: bool, anyQueued: bool)
  {
    ghost predicate Describe(present: set<Status>) {
      && (allPublished <==> Only(present, {Published})) && (allDraft <==> Only(present, {Draft}))
      && (allFailed <==> Only(present, FAILURES))
      && (anyPublished <==> Published in present) && (anyPartial <==> PartiallyPublished in present)
      && (anyPublishing <==> Publishing in present) && (anyRetrying <==> Retrying in present)
      && (anyWaitingProvider <==> WaitingProvider in present) && (anyQueued <==> Queued in present)
    }

    /** The flags after one more target. */
    function Seen(s: Status): Flags
      requires !s.Unknown?
    {
      match s
      case Published => this.(anyPublished := true, allDraft := false, allFailed := false)
      case PartiallyPublished => this.(anyPartial := true, allPublished := false, allDraft := false, allFailed := false)
      case Publishing => this.(anyPublishing := true, allPublished := false, allDraft := false, allFailed := false)
      case Retrying => this.(anyRetrying := true, allPublished := false, allDraft := false, allFailed := false)
      case WaitingProvider => this.(anyWaitingProvider := true, allPublished := false, allDraft := false, allFailed := false)
      case Queued => this.(anyQueued := true, allPublished := false, allDraft := false, allFailed := false)
      case Draft => this.(allPublished := false, allFailed := false)
      case _ => this.(allPublished := false, allDraft := false)
    }
  }

  ghost predicate Only(present: set<Status>, allowed: set<Status>) { present <= allowed }

  lemma OnlyOneMore(present: set<Status>, s: Status, allowed: set<Status>)
    ensures Only(present + {s}, allowed) <==> Only(present, allowed) && s in allowed
  {
    assert s in present + {s};
  }

  lemma SeenDescribes(flags: Flags, present: set<Status>, s: Status)
    requires flags.Describe(present) && !s.Unknown?
    ensures flags.Seen(s).Describe(present + {s})
  {
    OnlyOneMore(present, s, {Published});
    OnlyOneMore(present, s, {Draft});
    OnlyOneMore(present, s, FAILURES);
    FailuresAre(s);
    hide Only;
  }

  lemma FailuresAre(s: Status)
    ensures s in FAILURES <==> s.IsFailure()
  {}

  /** One pass over the targets with nine flags, then a cascade. */
  method Resolve(targets: seq<Status>) returns (r: Result<Status, Status>)
    ensures r == if FirstUnknown(targets).Some? then Err(FirstUnknown(targets).value) else Ok(Meaning(Present(targets)))
  {
    if |targets| == 0 {
      return Ok(Draft);
    }
    var flags := Flags(true, true, true, false, false, false, false, false, false);
    NonePresent(targets);
    for i := 0 to |targets|
      invariant FirstUnknown(targets) == FirstUnknown(targets[i..])
      invariant flags.Describe(Present(targets[..i]))
    {
      hide Present, FirstUnknown, Flags.Describe, Flags.Seen, Meaning;
      PresentOneMore(targets, i);
      if targets[i].Unknown? {
        return Err(targets[i]);
      }
      SeenDescribes(flags, Present(targets[..i]), targets[i]);
      flags := flags.Seen(targets[i]);
    }
    assert targets[..|targets|] == targets;
    FirstPresent(targets);
    hide Present, FirstUnknown;
    ghost var present := Present(targets);
    assert present == {Published} <==> flags.allPublished;
    assert present == {Draft} <==> flags.allDraft;
    if flags.allPublished {
      return Ok(Published);
    }
    if flags.anyPublishing {
      return Ok(Publishing);
    }
    if flags.anyRetrying {
      return Ok(Retrying);
    }
    if flags.anyWaitingProvider {
      return Ok(WaitingProvider);
    }
    if flags.anyQueued {
      return Ok(Queued);
    }
    if flags.anyPublished || flags.anyPartial {
      return Ok(PartiallyPublished);
    }
    if flags.allFailed {
      return Ok(Failed);
    }
    if flags.allDraft {
      return Ok(Draft);
    }
    return Ok(Failed);
  }

  lemma NonePresent(targets: seq<Status>)
    ensures Present(targets[..0]) == {} && targets[0..] == targets
  {}

  lemma FirstPresent(targets: seq<Status>)
    ensures targets != [] ==> targets[0] in Present(targets)
    ensures FirstUnknown([]) == None
  {}

  lemma PresentOneMore(targets: seq<Status>, i: nat)
    requires i < |targets|
    ensures Present(targets[..i + 1]) == Present(targets[..i]) + {targets[i]}
    ensures FirstUnknown(targets[i..]) == if targets[i].Unknown? then Some(targets[i]) else FirstUnknown(targets[i + 1..])
  {
    assert targets[..i + 1] == targets[..i] + [targets[i]];
    assert targets[i..][1..] == targets[i + 1..];
  }

  lemma OnlyOne(targets: seq<Status>, s: Status)
    requires targets != []
    ensures Present(targets) == {s} <==> forall k :: 0 <= k < |targets| ==> targets[k] == s
  {
    assert targets[0] in Present(targets);
    if Present(targets) == {s} {
      forall k | 0 <= k < |targets|
        ensures targets[k] == s
      {
        assert targets[k] in Present(targets);
      }
    }
  }

  ghost predicate AllKnown(targets: seq<Status>) { forall s :: s in targets ==> !s.Unknown? }

  lemma {:induction false} KnownExactly(targets: seq<Status>)
    ensures FirstUnknown(targets).None? <==> AllKnown(targets)
  {
    if targets != [] {
      KnownExactly(targets[1..]);
      assert targets == [targets[0]] + targets[1..];
    }
  }

  /** The status that is reported as unknown is the first one that is. */
  lemma {:induction false} FirstUnknownExactly(targets: seq<Status>, i: nat)
    requires i < |targets| && targets[i].Unknown? && forall j :: 0 <= j < i ==> !targets[j].Unknown?
    ensures FirstUnknown(targets) == Some(targets[i])
  {
    if i > 0 {
      assert forall j :: 0 <= j < i - 1 ==> targets[1..][j] == targets[j + 1];
      FirstUnknownExactly(targets[1..], i - 1);
    }
  }

  /** The outcome ignores the order and the multiplicity of the targets, and so does
      whether there is one. */
  lemma OrderFree(targets: seq<Status>, others: seq<Status>)
    requires forall s :: s in targets <==> s in others
    ensures FirstUnknown(targets).None? <==> FirstUnknown(others).None?
    ensures Meaning(Present(targets)) == Meaning(Present(others))
  {
    KnownExactly(targets);
    KnownExactly(others);
    assert Present(targets) == Present(others);
  }

  /** A post counts as published exactly when it has targets and all are published. */
  lemma PublishedExactly(targets: seq<Status>)
    requires AllKnown(targets)
    ensures Meaning(Present(targets)) == Published <==> targets != [] && forall s :: s in targets ==> s == Published
  {
    if targets != [] {
      OnlyOne(targets, Published);
      assert targets[0] in targets && targets[0] in Present(targets);
    }
  }

  /** The outcome is terminal exactly when some target is not a draft and every such
      target is terminal; without drafts, exactly when every target is. */
  lemma TerminalExactly(targets: seq<Status>)
    requires AllKnown(targets)
    ensures
      var outcome := Meaning(Present(targets));
      && (outcome.IsTerminal() <==>
            (exists s :: s in targets && s != Draft) && forall s :: s in targets && s != Draft ==> s.IsTerminal())
      && (Draft !in targets && targets != [] ==> (outcome.IsTerminal() <==> forall s :: s in targets ==> s.IsTerminal()))
  {
    var present := Present(targets);
    assert forall s :: s in targets <==> s in present;
    if targets != [] {
      OnlyOne(targets, Draft);
      assert targets[0] in targets;
    }
    assert forall s :: s in present && !s.IsTerminal() && s != Draft ==> s in {Publishing, Retrying, WaitingProvider, Queued};
  }

  /** Failure is the outcome exactly for failures alone or beside drafts; the last line of
      the cascade is reached exactly by the latter. */
  lemma FailedExactly(targets: seq<Status>)
    requires AllKnown(targets)
    ensures Meaning(Present(targets)) == Failed <==>
              (exists s :: s in targets && s.IsFailure()) && forall s :: s in targets ==> s.IsFailure() || s == Draft
  {
    var present := Present(targets);
    assert forall s :: s in targets <==> s in present;
    if Meaning(present) == Failed {
      assert present != {} && present != {Draft};
      assert exists s :: s in present && s != Draft;
    }
  }

  /** Among moving targets the outcome is the furthest one: publishing before retrying,
      before waiting for the provider, before queued, whatever else there is. */
  lemma MovingExactly(targets: seq<Status>)
    requires AllKnown(targets)
    ensures
      var outcome := Meaning(Present(targets));
      && (outcome == Publishing <==> Publishing in targets)
      && (outcome == Retrying <==> Retrying in targets && Publishing !in targets)
      && (outcome == WaitingProvider <==> WaitingProvider in targets && Publishing !in targets && Retrying !in targets)
      && (outcome == Queued <==>
           Queued in targets && Publishing !in targets && Retrying !in targets && WaitingProvider !in targets)
  {
    var present := Present(targets);
    assert forall s :: s in targets <==> s in present;
  }

  /** A post is a draft exactly when it has no targets or only drafts. */
  lemma DraftExactly(targets: seq<Status>)
    requires AllKnown(targets)
    ensures Meaning(Present(targets)) == Draft <==> forall s :: s in targets ==> s == Draft
  {
    var present := Present(targets);
    assert forall s :: s in targets <==> s in present;
    if targets != [] {
      OnlyOne(targets, Draft);
      assert targets[0] in targets;
    }
  }

  predicate IsActive(s: Status) { s in {Publishing, Retrying, WaitingProvider, Queued} }

  /** The comment above the rules promises a partial outcome as soon as one target is
      published and another is not. The code keeps that promise exactly when no target is
      still moving. */
  lemma PartialExactly(targets: seq<Status>)
    requires AllKnown(targets) && Published in targets
    ensures Meaning(Present(targets)) == PartiallyPublished <==>
              (exists s :: s in targets && s != Published) && forall s :: s in targets ==> !IsActive(s)
  {
    var present := Present(targets);
    assert forall s :: s in targets <==> s in present;
    OnlyOne(targets, Published);
  }

  /** With a published target and a moving one the outcome is that of the moving ones. */
  lemma QueuedBeatsPublished()
    ensures Meaning({Published, Queued}) == Queued
  {
    assert Queued in {Published, Queued};
  }
}
