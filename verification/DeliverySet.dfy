/** The status of a delivery set, rolled up from any number of child deliveries. */
module DeliverySet {
  import opened DeliveryPipeline

  datatype SetStatus = Pending | InProgress | Succeeded | Partial | Failed | AllCancelled
  {
    predicate IsTerminal() { Succeeded? || Partial? || Failed? || AllCancelled? }
  }

  ghost predicate AnyPublished(children: seq<State>) { exists i :: 0 <= i < |children| && children[i] == Published }

  /** A child that failed; a cancelled one did not. */
  ghost predicate AnyFailed(children: seq<State>) {
    exists i :: 0 <= i < |children| && children[i].IsErrorExit() && children[i] != Cancelled
  }

  ghost predicate AnyUnfinished(children: seq<State>) { exists i :: 0 <= i < |children| && !children[i].IsTerminal() }

  ghost predicate EveryCancelled(children: seq<State>) { forall i :: 0 <= i < |children| ==> children[i] == Cancelled }

  /** What the status says about the children. */
  ghost predicate Describes(status: SetStatus, children: seq<State>) {
    match status
    case Pending => children == []
    case InProgress => AnyUnfinished(children)
    case AllCancelled => children != [] && EveryCancelled(children)
    case Succeeded => !AnyUnfinished(children) && AnyPublished(children) && !AnyFailed(children)
    case Partial => !AnyUnfinished(children) && AnyPublished(children) && AnyFailed(children)
    case Failed => !AnyUnfinished(children) && !AnyPublished(children) && AnyFailed(children)
  }

  /** The rollup: one pass with four counters. An unknown or empty child state counts as
      one in progress. */
  method AggregateStatus(childStates: seq<State>) returns (status: SetStatus)
    ensures Describes(status, childStates)
  {
    if |childStates| == 0 {
      return Pending;
    }
    var published, errorExits, cancelled, inProgress := 0, 0, 0, 0;
    var allCancelled := true;
    for i := 0 to |childStates|
      invariant published >= 0 && errorExits >= 0 && cancelled >= 0 && inProgress >= 0
      invariant published + errorExits + cancelled + inProgress == i
      invariant published > 0 <==> AnyPublished(childStates[..i])
      invariant errorExits > 0 <==> AnyFailed(childStates[..i])
      invariant inProgress > 0 <==> AnyUnfinished(childStates[..i])
      invariant allCancelled <==> EveryCancelled(childStates[..i])
      invariant allCancelled <==> cancelled == i
    {
      var s := childStates[i];
      OneMore(childStates, i);
      if s == Unknown("") {
        inProgress := inProgress + 1;
        allCancelled := false;
      } else if s == Cancelled {
        cancelled := cancelled + 1;
      } else if s == Published {
        published := published + 1;
        allCancelled := false;
      } else if s.IsTerminal() {
        errorExits := errorExits + 1;
        allCancelled := false;
      } else {
        inProgress := inProgress + 1;
        allCancelled := false;
      }
    }
    assert childStates[..|childStates|] == childStates;
    if allCancelled {
      return AllCancelled;
    }
    if inProgress > 0 {
      return InProgress;
    }
    if published == |childStates| - cancelled {
      return Succeeded;
    }
    if published > 0 && errorExits > 0 {
      return Partial;
    }
    return Failed;
  }

  lemma OneMore(children: seq<State>, i: nat)
    requires i < |children|
    ensures AnyPublished(children[..i + 1]) <==> AnyPublished(children[..i]) || children[i] == Published
    ensures AnyFailed(children[..i + 1]) <==>
              AnyFailed(children[..i]) || (children[i].IsErrorExit() && children[i] != Cancelled)
    ensures AnyUnfinished(children[..i + 1]) <==> AnyUnfinished(children[..i]) || !children[i].IsTerminal()
    ensures EveryCancelled(children[..i + 1]) <==> EveryCancelled(children[..i]) && children[i] == Cancelled
  {
    assert children[..i + 1] == children[..i] + [children[i]];
  }

  /** Every collection of children has exactly one status. */
  lemma ExactlyOneStatus(children: seq<State>) returns (status: SetStatus)
    ensures Describes(status, children)
    ensures forall other :: Describes(other, children) ==> other == status
  {
    status :=
      if children == [] then Pending
      else if AnyUnfinished(children) then InProgress
      else if EveryCancelled(children) then AllCancelled
      else if AnyPublished(children) then if AnyFailed(children) then Partial else Succeeded
      else Failed;
    if children != [] && EveryCancelled(children) {
      assert children[0] == Cancelled;
      assert !AnyUnfinished(children) && !AnyPublished(children) && !AnyFailed(children);
    }
  }

  /** The status is final exactly when every child is, and never pending for children. */
  lemma FinalExactly(children: seq<State>, status: SetStatus)
    requires Describes(status, children) && children != []
    ensures status.IsTerminal() <==> forall i :: 0 <= i < |children| ==> children[i].IsTerminal()
    ensures status != Pending
  {
    if status.AllCancelled? {
      assert children[0] == Cancelled;
    }
  }

  /** Only which states occur matters, not where nor how often. */
  lemma OrderFree(children: seq<State>, others: seq<State>, status: SetStatus)
    requires Describes(status, children)
    requires forall s :: s in children <==> s in others
    ensures Describes(status, others)
  {
    assert forall i :: 0 <= i < |children| ==> children[i] in others;
    assert forall i :: 0 <= i < |others| ==> others[i] in children;
    assert children != [] ==> children[0] in others;
    assert others != [] ==> others[0] in children;
  }

  // ------------------------------------------------------------- the set over time

  datatype Request = Request(child: nat, target: State)

  /** A request moves its child if the graph allows it, and is refused otherwise. */
  predicate Accepted(children: seq<State>, r: Request) {
    r.child < |children| && children[r.child].CanTransitionTo(r.target)
  }

  function Serve(children: seq<State>, r: Request): seq<State> {
    if Accepted(children, r) then children[r.child := r.target] else children
  }

  function ServeAll(children: seq<State>, rs: seq<Request>): seq<State> {
    if rs == [] then children else Serve(ServeAll(children, rs[..|rs| - 1]), rs[|rs| - 1])
  }

  function Moves(children: seq<State>, rs: seq<Request>): nat {
    if rs == [] then 0
    else
      var front := rs[..|rs| - 1];
      Moves(children, front) + if Accepted(ServeAll(children, front), rs[|rs| - 1]) then 1 else 0
  }

  /** How many steps a delivery in this state has left at most. */
  function Remaining(s: State): nat {
    match s
    case Queued => 13
    case TargetValidating => 12
    case TargetValidated => 11
    case MediaDownloading => 10
    case MediaVerified => 9
    case PrivateUploadQueued => 8
    case PrivateUploading => 7
    case PrivateUploaded => 6
    case ThumbnailPending => 5
    case ThumbnailUploading => 4
    case ThumbnailApplied => 3
    case ReadyToPublish => 2
    case Publishing => 1
    case _ => 0
  }

  function TotalRemaining(children: seq<State>): nat {
    if children == [] then 0 else Remaining(children[0]) + TotalRemaining(children[1..])
  }

  lemma StepCosts(s: State, t: State)
    requires s.CanTransitionTo(t)
    ensures Remaining(t) < Remaining(s) && !t.Unknown?
  {}

  lemma {:induction false} TotalUpdated(children: seq<State>, i: nat, s: State)
    requires i < |children|
    ensures TotalRemaining(children[i := s]) == TotalRemaining(children) - Remaining(children[i]) + Remaining(s)
  {
    hide Remaining;
    if i > 0 {
      TotalUpdated(children[1..], i - 1, s);
      assert children[i := s][1..] == children[1..][i - 1 := s];
    } else {
      assert children[i := s][1..] == children[1..];
    }
  }

  /** A settled set never changes again: every later request is refused. */
  lemma {:induction false} SettledStays(children: seq<State>, status: SetStatus, rs: seq<Request>)
    requires Describes(status, children) && status.IsTerminal()
    ensures ServeAll(children, rs) == children && Describes(status, ServeAll(children, rs))
  {
    if rs != [] {
      SettledStays(children, status, rs[..|rs| - 1]);
      FinalExactly(children, status);
      var r := rs[|rs| - 1];
      if r.child < |children| {
        GraphShape(children[r.child], r.target);
      }
      hide Describes, Successors;
    }
  }

  /** Every accepted request uses up a step. */
  lemma {:induction false} MovesAreLimited(children: seq<State>, rs: seq<Request>)
    ensures Moves(children, rs) + TotalRemaining(ServeAll(children, rs)) <= TotalRemaining(children)
  {
    if rs != [] {
      var front, r := rs[..|rs| - 1], rs[|rs| - 1];
      var before := ServeAll(children, front);
      MovesAreLimited(children, front);
      if Accepted(before, r) {
        StepCosts(before[r.child], r.target);
        TotalUpdated(before, r.child, r.target);
      }
      hide Remaining, Successors;
    }
  }

  lemma {:induction false} QueuedTotal(children: seq<State>)
    requires forall i :: 0 <= i < |children| ==> children[i] == Queued
    ensures TotalRemaining(children) == 13 * |children|
  {
    if children != [] {
      QueuedTotal(children[1..]);
    }
  }

  lemma {:induction false} NothingRemains(children: seq<State>)
    requires TotalRemaining(children) == 0 && forall i :: 0 <= i < |children| ==> !children[i].Unknown?
    ensures forall i :: 0 <= i < |children| ==> children[i].IsTerminal()
  {
    if children != [] {
      NothingRemains(children[1..]);
      assert forall i :: 1 <= i < |children| ==> children[i] == children[1..][i - 1];
    }
  }

  lemma {:induction false} KnownStays(children: seq<State>, rs: seq<Request>)
    requires forall i :: 0 <= i < |children| ==> !children[i].Unknown?
    ensures |ServeAll(children, rs)| == |children|
    ensures forall i :: 0 <= i < |children| ==> !ServeAll(children, rs)[i].Unknown?
  {
    if rs != [] {
      var before, r := ServeAll(children, rs[..|rs| - 1]), rs[|rs| - 1];
      KnownStays(children, rs[..|rs| - 1]);
      if Accepted(before, r) {
        StepCosts(before[r.child], r.target);
      }
      hide Successors, Remaining;
    }
  }

  /** A set of n queued children is settled after at most 13 n steps: no run takes more,
      a run that has taken them all is final, and a run that is not final can go on. */
  lemma SettledWithin(children: seq<State>, rs: seq<Request>, status: SetStatus)
    requires children != [] && forall i :: 0 <= i < |children| ==> children[i] == Queued
    requires Describes(status, ServeAll(children, rs))
    ensures Moves(children, rs) <= 13 * |children|
    ensures Moves(children, rs) == 13 * |children| ==> status.IsTerminal()
    ensures !status.IsTerminal() <==> exists r :: Accepted(ServeAll(children, rs), r)
  {
    var after := ServeAll(children, rs);
    MovesAreLimited(children, rs);
    QueuedTotal(children);
    KnownStays(children, rs);
    FinalExactly(after, status);
    if Moves(children, rs) == 13 * |children| {
      NothingRemains(after);
    }
    if !status.IsTerminal() {
      var i :| 0 <= i < |after| && !after[i].IsTerminal();
      GraphShape(after[i], Queued);
      var t :| t in Successors(after[i]);
      assert Accepted(after, Request(i, t));
    } else {
      forall r: Request | r.child < |after|
        ensures !Accepted(after, r)
      {
        GraphShape(after[r.child], r.target);
      }
    }
  }
}
