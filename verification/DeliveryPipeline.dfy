/** The publishing pipeline of one delivery: its graph of states, and the boundary after
    which the video must stay private. */
module DeliveryPipeline {
  import opened Common

  datatype State =
    | Queued | TargetValidating | TargetValidated | MediaDownloading | MediaVerified
    | PrivateUploadQueued | PrivateUploading | PrivateUploaded
    | ThumbnailPending | ThumbnailUploading | ThumbnailApplied
    | ReadyToPublish | Publishing | Published
    | BlockedTarget | BlockedAuth | MediaInvalid | PrivateUploadFailed
    | ThumbnailFailed | PublishFailed | Cancelled
    | Unknown(text: string)
  {
    predicate IsPrivateFloorReached() {
      this in {PrivateUploaded, ThumbnailPending, ThumbnailUploading, ThumbnailApplied, ReadyToPublish, Publishing, Published}
    }

    predicate IsErrorExit() {
      this in {BlockedTarget, BlockedAuth, MediaInvalid, PrivateUploadFailed, ThumbnailFailed, PublishFailed, Cancelled}
    }

    predicate IsTerminal() { Published? || IsErrorExit() }

    predicate CanTransitionTo(target: State) { target in Successors(this) }

    /** The one happy step from here, if there is one. */
    function Next(): Option<State> {
      match this
      case Queued => Some(TargetValidating)
      case TargetValidating => Some(TargetValidated)
      case TargetValidated => Some(MediaDownloading)
      case MediaDownloading => Some(MediaVerified)
      case MediaVerified => Some(PrivateUploadQueued)
      case PrivateUploadQueued => Some(PrivateUploading)
      case PrivateUploading => Some(PrivateUploaded)
      case PrivateUploaded => Some(ThumbnailPending)
      case ThumbnailPending => Some(ThumbnailUploading)
      case ThumbnailUploading => Some(ThumbnailApplied)
      case ThumbnailApplied => Some(ReadyToPublish)
      case ReadyToPublish => Some(Publishing)
      case Publishing => Some(Published)
      case _ => None
    }

    /** The guard before every change of the video's privacy. */
    predicate EnforcePrivacyInvariant(finalPrivacy: string) {
      !IsPrivateFloorReached() || IsPrivate(finalPrivacy)
    }
  }

  function Successors(s: State): set<State> {
    match s
    case Queued => {TargetValidating, BlockedTarget, Cancelled}
    case TargetValidating => {TargetValidated, BlockedTarget, Cancelled}
    case TargetValidated => {MediaDownloading, BlockedTarget, BlockedAuth, Cancelled}
    case MediaDownloading => {MediaVerified, MediaInvalid, BlockedAuth, Cancelled}
    case MediaVerified => {PrivateUploadQueued, MediaInvalid, BlockedAuth, Cancelled}
    case PrivateUploadQueued => {PrivateUploading, PrivateUploadFailed, Cancelled}
    case PrivateUploading => {PrivateUploaded, PrivateUploadFailed, Cancelled}
    case PrivateUploaded => {ThumbnailPending, ThumbnailFailed}
    case ThumbnailPending => {ThumbnailUploading, ThumbnailFailed}
    case ThumbnailUploading => {ThumbnailApplied, ThumbnailFailed}
    case ThumbnailApplied => {ReadyToPublish, PublishFailed}
    case ReadyToPublish => {Publishing, PublishFailed}
    case Publishing => {Published, PublishFailed}
    case _ => {}
  }

  function Lower(c: char): char {
    if 'A' <= c <= 'Z' then ((c as int) + 32) as char else c
  }

  /** The text is "private" in any mix of cases. */
  predicate IsPrivate(s: string) {
    |s| == |"private"| && forall i :: 0 <= i < |s| ==> Lower(s[i]) == "private"[i]
  }

  function HappyPath(): (path: seq<State>)
    ensures |path| == 14
  {
    [Queued, TargetValidating, TargetValidated, MediaDownloading, MediaVerified, PrivateUploadQueued, PrivateUploading,
     PrivateUploaded, ThumbnailPending, ThumbnailUploading, ThumbnailApplied, ReadyToPublish, Publishing, Published]
  }

  // ------------------------------------------------------------- runs of the graph

  /** The states a delivery passes through, from the queue on. */
  ghost predicate IsRun(run: seq<State>) {
    run != [] && run[0] == Queued && forall i :: 0 < i < |run| ==> run[i - 1].CanTransitionTo(run[i])
  }

  function Last(run: seq<State>): State
    requires run != []
  {
    run[|run| - 1]
  }

  /** A front part of the happy path, or one that leaves it by an error exit at the end. */
  ghost predicate PathThenExit(run: seq<State>) {
    && run != [] && |run| <= 14
    && (forall i :: 0 <= i < |run| - 1 ==> run[i] == HappyPath()[i])
    && (|| Last(run) == HappyPath()[|run| - 1]
        || (|run| > 1 && Last(run).IsErrorExit() && HappyPath()[|run| - 2].CanTransitionTo(Last(run))))
  }

  /** The happy successor is the only one that is not an error exit, and exactly the
      terminal states have none. */
  lemma GraphShape(s: State, t: State)
    ensures !s.Unknown? ==> (s.Next().None? <==> s.IsTerminal())
    ensures s.IsTerminal() || s.Unknown? <==> Successors(s) == {}
    ensures s.CanTransitionTo(t) && !t.IsErrorExit() <==> s.Next() == Some(t)
  {
    if s.Next().Some? {
      assert s.Next().value in Successors(s);
    }
  }

  /** Which exit is open where along the happy path: validation blocks the target up to the
      download, authorization is lost around the media, the upload and the thumbnail and
      the publication fail in their own stretches, and cancelling ends at the boundary. */
  lemma ExitsExactly(i: nat)
    requires i < 14
    ensures
      var s := HappyPath()[i];
      && (s.CanTransitionTo(BlockedTarget) <==> i <= 2)
      && (s.CanTransitionTo(BlockedAuth) <==> 2 <= i <= 4)
      && (s.CanTransitionTo(MediaInvalid) <==> 3 <= i <= 4)
      && (s.CanTransitionTo(PrivateUploadFailed) <==> 5 <= i <= 6)
      && (s.CanTransitionTo(Cancelled) <==> i <= 6)
      && (s.CanTransitionTo(ThumbnailFailed) <==> 7 <= i <= 9)
      && (s.CanTransitionTo(PublishFailed) <==> 10 <= i <= 12)
  {}

  /** Every letter of the text is that of "private" or of "PRIVATE". */
  lemma PrivateInAnyCase(s: string)
    ensures IsPrivate(s) <==> |s| == 7 && forall i :: 0 <= i < 7 ==> s[i] == "private"[i] || s[i] == "PRIVATE"[i]
  {
    forall i | 0 <= i < 7 && |s| == 7
      ensures Lower(s[i]) == "private"[i] <==> s[i] == "private"[i] || s[i] == "PRIVATE"[i]
    {
      assert "PRIVATE"[i] as int + 32 == "private"[i] as int;
      assert 'A' <= "PRIVATE"[i] <= 'Z' && 'a' <= "private"[i] <= 'z';
    }
  }

  lemma HappyNext(i: nat)
    requires i < 14
    ensures HappyPath()[i].Next() == if i < 13 then Some(HappyPath()[i + 1]) else None
    ensures HappyPath()[i].IsTerminal() <==> i == 13
    ensures HappyPath()[i].IsPrivateFloorReached() <==> i >= 7
    ensures HappyPath()[i] == PrivateUploaded <==> i == 7
    ensures HappyPath()[i] == Published <==> i == 13
    ensures !HappyPath()[i].Unknown? && !HappyPath()[i].IsErrorExit()
  {}

  /** The runs are exactly the front parts of the happy path, each perhaps with one last
      step into an error exit that the graph allows there. */
  lemma {:induction false} RunsAreThePath(run: seq<State>)
    ensures IsRun(run) <==> PathThenExit(run)
  {
    if |run| <= 1 {
    } else {
      var front, last := run[..|run| - 1], Last(run);
      RunsAreThePath(front);
      OneStepOn(run);
      hide Successors, HappyPath, PathThenExit;
      assert IsRun(run) <==> IsRun(front) && Last(front).CanTransitionTo(last);
    }
  }

  lemma OneStepOn(run: seq<State>)
    requires |run| > 1
    ensures
      var front := run[..|run| - 1];
      PathThenExit(run) <==> PathThenExit(front) && Last(front).CanTransitionTo(Last(run))
  {
    var front, n := run[..|run| - 1], |run| - 1;
    GraphShape(Last(front), Last(run));
    if n <= 14 {
      HappyNext(n - 1);
    }
    hide Successors, HappyPath;
  }

  /** Every run takes at most thirteen steps, and those that end in publication are all
      one and the same path. */
  lemma PublishedRuns(run: seq<State>)
    requires IsRun(run)
    ensures |run| <= 14
    ensures Last(run) == Published <==> run == HappyPath()
  {
    RunsAreThePath(run);
    HappyNext(|run| - 1);
    HappyNext(13);
    hide Successors, HappyPath, IsRun;
  }

  /** The last state alone tells whether the delivery ever had its private upload; the two
      exits after the boundary tell it too, although the floor predicate denies it. */
  lemma BoundaryIsRemembered(run: seq<State>)
    requires IsRun(run)
    ensures PrivateUploaded in run <==>
              Last(run).IsPrivateFloorReached() || Last(run) == ThumbnailFailed || Last(run) == PublishFailed
  {
    RunsAreThePath(run);
    var n := |run| - 1;
    HappyNext(n);
    HappyNext(7);
    if n > 0 {
      LateExits(n - 1, Last(run));
    }
    hide Successors, HappyPath, IsRun;
    if n > 7 {
      assert run[7] == PrivateUploaded;
    } else if n == 7 {
      assert Last(run) == run[7];
    }
    forall i | 0 <= i < n
      ensures run[i] == PrivateUploaded <==> i == 7
    {
      HappyNext(i);
    }
  }

  /** The error exits before the boundary and those after it. */
  lemma LateExits(i: nat, exit: State)
    requires i < 14
    ensures HappyPath()[i].CanTransitionTo(exit) && exit.IsErrorExit() ==>
              !exit.IsPrivateFloorReached() && (i >= 7 <==> exit == ThumbnailFailed || exit == PublishFailed)
    ensures HappyPath()[i].CanTransitionTo(exit) && exit == Cancelled ==> i < 7
  {}

  /** No delivery is cancelled once its private upload is done. */
  lemma NeverCancelledAfterBoundary(run: seq<State>, i: nat, j: nat)
    requires IsRun(run) && i < j < |run| && run[i] == PrivateUploaded
    ensures run[j] != Cancelled
  {
    var front := run[..j + 1];
    assert front[i] == PrivateUploaded;
    BoundaryIsRemembered(front);
  }

  // ------------------------------------------------------------ the video's privacy

  /** A delivery and the privacy of its video, once there is one. */
  datatype Delivery = Delivery(state: State, privacy: Option<string>)

  datatype Event = Move(target: State) | UpdateVideo(finalPrivacy: string)

  /** Moves follow the graph; the upload creates a private video; updates pass the guard. */
  function Apply(d: Delivery, ev: Event): Delivery {
    match ev
    case Move(target) =>
      if !d.state.CanTransitionTo(target) then d
      else Delivery(target, if target == PrivateUploaded then Some("private") else d.privacy)
    case UpdateVideo(finalPrivacy) =>
      if d.privacy.Some? && d.state.EnforcePrivacyInvariant(finalPrivacy) then d.(privacy := Some(finalPrivacy)) else d
  }

  function ApplyAll(d: Delivery, evs: seq<Event>): Delivery {
    if evs == [] then d else Apply(ApplyAll(d, evs[..|evs| - 1]), evs[|evs| - 1])
  }

  const START := Delivery(Queued, None)

  predicate StaysPrivate(d: Delivery) { d.privacy.Some? ==> IsPrivate(d.privacy.value) }

  /** An update to something else while the delivery sits in a failed state. */
  predicate LeaksOn(d: Delivery, ev: Event) {
    (d.state == ThumbnailFailed || d.state == PublishFailed) && ev.UpdateVideo? && !IsPrivate(ev.finalPrivacy)
  }

  /** A video exists exactly in the states after the boundary. */
  lemma {:induction false} VideoExists(evs: seq<Event>)
    ensures
      var d := ApplyAll(START, evs);
      d.privacy.Some? <==> d.state.IsPrivateFloorReached() || d.state == ThumbnailFailed || d.state == PublishFailed
  {
    if evs != [] {
      VideoExists(evs[..|evs| - 1]);
    }
  }

  lemma ApplyOneMore(d: Delivery, evs: seq<Event>, n: nat)
    requires n < |evs|
    ensures ApplyAll(d, evs[..n + 1]) == Apply(ApplyAll(d, evs[..n]), evs[n])
  {
    assert evs[..n + 1][..n] == evs[..n];
  }

  lemma {:induction false} PrivateWithoutLeaks(evs: seq<Event>, n: nat)
    requires n <= |evs|
    requires forall m :: 0 <= m < n ==> !LeaksOn(ApplyAll(START, evs[..m]), evs[m])
    ensures StaysPrivate(ApplyAll(START, evs[..n]))
  {
    if n > 0 {
      PrivateWithoutLeaks(evs, n - 1);
      VideoExists(evs[..n - 1]);
      ApplyOneMore(START, evs, n - 1);
      hide ApplyAll, Successors;
      assert IsPrivate("private");
    }
  }

  /** The guard keeps the video private at every moment of a run exactly when nobody
      updates it to something else in one of the two failed states, where it lets
      everything through. */
  lemma PrivateExactly(evs: seq<Event>)
    ensures
      (forall n :: 0 <= n <= |evs| ==> StaysPrivate(ApplyAll(START, evs[..n]))) <==>
      (forall n :: 0 <= n < |evs| ==> !LeaksOn(ApplyAll(START, evs[..n]), evs[n]))
  {
    if forall n :: 0 <= n < |evs| ==> !LeaksOn(ApplyAll(START, evs[..n]), evs[n]) {
      forall n | 0 <= n <= |evs|
        ensures StaysPrivate(ApplyAll(START, evs[..n]))
      {
        PrivateWithoutLeaks(evs, n);
      }
    } else {
      var n :| 0 <= n < |evs| && LeaksOn(ApplyAll(START, evs[..n]), evs[n]);
      VideoExists(evs[..n]);
      ApplyOneMore(START, evs, n);
      hide ApplyAll, Successors;
      assert !StaysPrivate(ApplyAll(START, evs[..n + 1]));
    }
  }

  /** A run in which the guard lets a public video through. */
  lemma GuardCanLeak() returns (evs: seq<Event>)
    ensures ApplyAll(START, evs) == Delivery(PublishFailed, Some("public"))
  {
    evs := seq(10, i requires 0 <= i < 10 => Move(HappyPath()[i + 1])) + [Move(PublishFailed), UpdateVideo("public")];
    var d := START;
    var i := 0;
    while i < 10
      invariant 0 <= i <= 10
      invariant d == ApplyAll(START, evs[..i])
      invariant d == Delivery(HappyPath()[i], if i >= 7 then Some("private") else None)
    {
      HappyNext(i);
      HappyNext(i + 1);
      GraphShape(HappyPath()[i], HappyPath()[i + 1]);
      ApplyOneMore(START, evs, i);
      d := Apply(d, evs[i]);
      i := i + 1;
    }
    ApplyOneMore(START, evs, 10);
    ApplyOneMore(START, evs, 11);
    assert evs[..12] == evs;
  }
}
