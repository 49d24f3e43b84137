/** What the grant lock is for: whoever asks the provider has looked at the stored row
    while holding the lock, and has held it ever since. */
module RenewLock {
  import opened Common
  import opened Envelope
  import opened TokenMerge
  import opened GrantRefresh
  import opened RenewProtocol
  import opened RenewConservation
  import RenewEpisode

  /** The flight holds the grant lock at every moment from n to m of the run. */
  ghost predicate Held(g: Grant, s0: State, evs: seq<Event>, n: nat, m: nat, f: nat) {
    n <= m <= |evs| && forall k :: n <= k <= m ==> Run(g, s0, evs[..k]).grantLock == Some(f)
  }

  /** What the flight has seen at moment m is the row that was stored at moment n, and it
      has held the lock in between. */
  ghost predicate LookedAt(g: Grant, s0: State, evs: seq<Event>, n: nat, m: nat, f: nat) {
    && Held(g, s0, evs, n, m, f) && Run(g, s0, evs[..m]).IsFlight(f)
    && var then_, now_ := Run(g, s0, evs[..n]), Run(g, s0, evs[..m]);
       var me := now_.flights[f];
       && SeenBy(me.phase) == Some(then_.Row(me.tokenType))
       && then_.now <= now_.now
       && (me.phase.Stale? ==> then_.now <= me.phase.checkedAt)
  }

  /** The provider was called at moment m, about the row that was stored at moment n and
      that was found stale since; by the flight that held the lock all the time. */
  ghost predicate AskedAbout(g: Grant, s0: State, evs: seq<Event>, n: nat, m: nat, call: Call) {
    && Held(g, s0, evs, n, m, call.flight) && m < |evs| && evs[m] == Ask(call.flight)
    && Run(g, s0, evs[..n]).Row(call.tokenType) == Some(call.stored)
    && Run(g, s0, evs[..n]).now <= call.checkedAt <= call.at == Run(g, s0, evs[..m]).now
    && !FreshStored(Some(call.stored), call.checkedAt, g.window)
  }

  ghost predicate SomeLook(g: Grant, s0: State, evs: seq<Event>, m: nat, f: nat) {
    exists n: nat :: LookedAt(g, s0, evs, n, m, f)
  }

  ghost predicate SomeAsk(g: Grant, s0: State, evs: seq<Event>, call: Call) {
    exists n: nat, m: nat :: AskedAbout(g, s0, evs, n, m, call)
  }

  /** A flight sees something new only by looking, inside the lock. */
  lemma LooksInside(g: Grant, s: State, ev: Event)
    requires FlightEvent(ev) && s.IsFlight(ev.f)
    ensures
      var me, after := s.flights[ev.f], NextPhase(g, s, ev);
      && (SeenBy(after).Some? && SeenBy(after) != SeenBy(me.phase) ==> me.phase.Locked? && SeenBy(after) == Some(s.Row(me.tokenType)))
      && (after.Stale? && after != me.phase ==> SeenBy(after) == SeenBy(me.phase) && after.checkedAt == s.now)
  {
    hide Prepared, RefreshMaterial, FreshStored, Linked;
  }

  lemma NewFlightIsBegun(flights: seq<Flight>, more: seq<Flight>, f: nat)
    requires f < |more|
    requires more == flights || (|more| == |flights| + 1 && more[..|flights|] == flights && more[|flights|].phase == Begun)
    ensures (f < |flights| && more[f] == flights[f]) || (f == |flights| && more[f].phase == Begun)
  {
    assert f < |flights| && more != flights ==> more[f] == more[..|flights|][f];
  }

  /** One step changes the phase of a flight that has seen something, if at all, by the
      flight's own next move. */
  lemma StepMoves(g: Grant, s: State, ev: Event, f: nat)
    requires Step(g, s, ev).IsFlight(f) && SeenBy(Step(g, s, ev).flights[f].phase).Some?
    ensures s.IsFlight(f) && Step(g, s, ev).flights[f].tokenType == s.flights[f].tokenType
    ensures
      var before, after := s.flights[f].phase, Step(g, s, ev).flights[f].phase;
      after == before || (FlightEvent(ev) && ev.f == f && after == NextPhase(g, s, ev))
  {
    StepFlights(g, s, ev);
    hide Step, NextPhase, SeenBy;
    BegunSawNothing();
    if ByCaller(ev) {
      NewFlightIsBegun(s.flights, Step(g, s, ev).flights, f);
    } else if FlightEvent(ev) && s.IsFlight(ev.f) && ev.CommitTx? && s.flights[ev.f].phase.Written? {
      SeenByOver(ev.acknowledged);
    }
  }

  /** Who has seen something is inside the lock. */
  lemma SeenHolds(s: State, f: nat)
    requires LockAgrees(s) && s.IsFlight(f) && (SeenBy(s.flights[f].phase).Some? || s.flights[f].phase.Locked?)
    ensures s.grantLock == Some(f)
  {}

  /** What one step does to what a flight has seen. */
  lemma StepSees(g: Grant, s: State, ev: Event, f: nat)
    requires Safe(g, s) && Step(g, s, ev).IsFlight(f) && SeenBy(Step(g, s, ev).flights[f].phase).Some?
    ensures s.IsFlight(f) && Step(g, s, ev).flights[f].tokenType == s.flights[f].tokenType
    ensures s.grantLock == Some(f) && Step(g, s, ev).grantLock == Some(f)
    ensures
      var before, after := s.flights[f].phase, Step(g, s, ev).flights[f].phase;
      && (SeenBy(after) == SeenBy(before) || SeenBy(after) == Some(s.Row(s.flights[f].tokenType)))
      && (after.Stale? ==> after == before || (SeenBy(after) == SeenBy(before) && after.checkedAt == s.now))
  {
    var t := Step(g, s, ev);
    StepSafe(g, s, ev);
    StepMoves(g, s, ev, f);
    if t.flights[f].phase != s.flights[f].phase {
      LooksInside(g, s, ev);
    }
    hide Step, NextPhase, FreshStored, RefreshMaterial, SeenBy;
    SeenHolds(t, f);
    SeenHolds(s, f);
  }

  /** The call that a flight makes when it asks at this moment. */
  function CallNow(s: State, f: nat): Call
    requires s.IsFlight(f) && s.flights[f].phase.Stale?
  {
    Call(f, s.flights[f].tokenType, s.flights[f].phase.stored, s.flights[f].phase.checkedAt, s.now, s.grantLock)
  }

  /** A new call is about what the calling flight has seen and found stale. */
  lemma StepCalls(g: Grant, s: State, ev: Event)
    requires Safe(g, s)
    ensures Step(g, s, ev).calls == s.calls ||
            (ev.Ask? && s.IsFlight(ev.f) && s.flights[ev.f].phase.Stale? && Step(g, s, ev).calls == s.calls + [CallNow(s, ev.f)])
  {
    hide FreshStored, RefreshMaterial;
    if ev.Tick? {
    } else if ByCaller(ev) {
      CallerTouches(g, s, ev);
      hide CallerStep;
    } else if ByWorld(ev) {
      WorldTouches(g, s, ev);
      hide WorldStep;
    } else if s.IsFlight(ev.f) {
      if ev.CommitTx? && s.flights[ev.f].phase.Written? {
        StepPublishes(g, s, ev.f, ev.acknowledged);
      } else {
        StepQuiet(g, s, ev);
        NextPhaseSound(g, s, ev);
      }
      hide Step, NextPhase;
    }
  }

  lemma HeldOn(g: Grant, s0: State, evs: seq<Event>, n: nat, m: nat, f: nat)
    requires m < |evs| && Held(g, s0, evs, n, m, f) && Run(g, s0, evs[..m + 1]).grantLock == Some(f)
    ensures Held(g, s0, evs, n, m + 1, f)
  {
    hide Run;
  }

  lemma HeldNow(g: Grant, s0: State, evs: seq<Event>, m: nat, f: nat)
    requires m <= |evs| && Run(g, s0, evs[..m]).grantLock == Some(f)
    ensures Held(g, s0, evs, m, m, f)
  {
    hide Run;
  }

  /** What the next event does to a flight that has seen something by then. */
  lemma NextSees(g: Grant, s0: State, evs: seq<Event>, m: nat, f: nat)
    requires Initial(s0) && m < |evs|
    requires Run(g, s0, evs[..m + 1]).IsFlight(f) && SeenBy(Run(g, s0, evs[..m + 1]).flights[f].phase).Some?
    ensures
      var s, t := Run(g, s0, evs[..m]), Run(g, s0, evs[..m + 1]);
      && s.IsFlight(f) && t.flights[f].tokenType == s.flights[f].tokenType && s.now <= t.now
      && s.grantLock == Some(f) && t.grantLock == Some(f)
      && var before, after := s.flights[f].phase, t.flights[f].phase;
         && (SeenBy(after) == SeenBy(before) || SeenBy(after) == Some(s.Row(s.flights[f].tokenType)))
         && (after.Stale? ==> after == before || (SeenBy(after) == SeenBy(before) && after.checkedAt == s.now))
  {
    hide Run, Step, Safe, SeenBy;
    InitialIsSafe(g, s0);
    EveryRunSafe(g, s0, evs[..m]);
    RunOneMore(g, s0, evs, m);
    StepSees(g, Run(g, s0, evs[..m]), evs[m], f);
    RenewEpisode.StepMonotone(g, Run(g, s0, evs[..m]), evs[m]);
  }

  /** The lock and the look stay with the flight from one moment to the next. */
  lemma LookedOn(g: Grant, s0: State, evs: seq<Event>, m: nat, f: nat, n: nat)
    requires Initial(s0) && m < |evs|
    requires
      var t := Run(g, s0, evs[..m + 1]);
      t.IsFlight(f) && SeenBy(t.flights[f].phase).Some?
    requires
      var s := Run(g, s0, evs[..m]);
      s.IsFlight(f) ==>
        SeenBy(Run(g, s0, evs[..m + 1]).flights[f].phase) == SeenBy(s.flights[f].phase) && LookedAt(g, s0, evs, n, m, f)
    ensures LookedAt(g, s0, evs, n, m + 1, f)
  {
    hide Run, SeenBy, Held;
    NextSees(g, s0, evs, m, f);
    HeldOn(g, s0, evs, n, m, f);
    HeldInRange(g, s0, evs, n, m, f);
  }

  lemma HeldInRange(g: Grant, s0: State, evs: seq<Event>, n: nat, m: nat, f: nat)
    requires Held(g, s0, evs, n, m, f)
    ensures n <= m <= |evs|
  {}

  lemma LooksNow(g: Grant, s0: State, evs: seq<Event>, m: nat, f: nat)
    requires Initial(s0) && m < |evs|
    requires
      var t := Run(g, s0, evs[..m + 1]);
      t.IsFlight(f) && SeenBy(t.flights[f].phase).Some?
    requires
      var s := Run(g, s0, evs[..m]);
      s.IsFlight(f) ==> SeenBy(Run(g, s0, evs[..m + 1]).flights[f].phase) != SeenBy(s.flights[f].phase)
    ensures LookedAt(g, s0, evs, m, m + 1, f)
  {
    hide Run, SeenBy, Held;
    NextSees(g, s0, evs, m, f);
    HeldNow(g, s0, evs, m, f);
    HeldOn(g, s0, evs, m, m, f);
    SeenWhenStale(Run(g, s0, evs[..m]).flights[f].phase, Run(g, s0, evs[..m + 1]).flights[f].phase);
  }

  lemma SeenWhenStale(before: Phase, after: Phase)
    ensures after == before ==> SeenBy(after) == SeenBy(before)
  {}

  /** At this moment of a run every flight that has seen anything, and every call that was
      logged, goes back to a look under the lock. */
  ghost predicate Accounted(g: Grant, s0: State, evs: seq<Event>, m: nat)
    requires m <= |evs|
  {
    var s := Run(g, s0, evs[..m]);
    && (forall f: nat :: s.IsFlight(f) && SeenBy(s.flights[f].phase).Some? ==> SomeLook(g, s0, evs, m, f))
    && (forall i :: 0 <= i < |s.calls| ==> SomeAsk(g, s0, evs, s.calls[i]))
  }

  lemma AccountedOneMore(g: Grant, s0: State, evs: seq<Event>, m: nat)
    requires Initial(s0) && m < |evs| && Accounted(g, s0, evs, m)
    ensures Accounted(g, s0, evs, m + 1)
  {
    var s, t := Run(g, s0, evs[..m]), Run(g, s0, evs[..m + 1]);
    hide Run, LookedAt, SomeAsk, FreshStored, RefreshMaterial, SeenBy;
    forall f: nat | t.IsFlight(f) && SeenBy(t.flights[f].phase).Some?
      ensures SomeLook(g, s0, evs, m + 1, f)
    {
      if s.IsFlight(f) && SeenBy(t.flights[f].phase) == SeenBy(s.flights[f].phase) {
        assert SomeLook(g, s0, evs, m, f);
        var n: nat :| LookedAt(g, s0, evs, n, m, f);
        LookedOn(g, s0, evs, m, f, n);
      } else {
        LooksNow(g, s0, evs, m, f);
      }
    }
    forall i | 0 <= i < |t.calls|
      ensures SomeAsk(g, s0, evs, t.calls[i])
    {
      CallOneMore(g, s0, evs, m, i);
    }
  }

  lemma NextCalls(g: Grant, s0: State, evs: seq<Event>, m: nat)
    requires Initial(s0) && m < |evs|
    ensures
      var s, t := Run(g, s0, evs[..m]), Run(g, s0, evs[..m + 1]);
      t.calls == s.calls ||
      (&& evs[m].Ask? && s.IsFlight(evs[m].f) && s.flights[evs[m].f].phase.Stale?
       && t.calls == s.calls + [CallNow(s, evs[m].f)]
       && var phase := s.flights[evs[m].f].phase;
          phase.checkedAt <= s.now && !FreshStored(Some(phase.stored), phase.checkedAt, g.window))
  {
    hide Run, Step, FreshStored, RefreshMaterial, CallNow;
    InitialIsSafe(g, s0);
    EveryRunSafe(g, s0, evs[..m]);
    RunOneMore(g, s0, evs, m);
    StepCalls(g, Run(g, s0, evs[..m]), evs[m]);
  }

  lemma CallOneMore(g: Grant, s0: State, evs: seq<Event>, m: nat, i: nat)
    requires Initial(s0) && m < |evs| && Accounted(g, s0, evs, m) && i < |Run(g, s0, evs[..m + 1]).calls|
    ensures SomeAsk(g, s0, evs, Run(g, s0, evs[..m + 1]).calls[i])
  {
    var s := Run(g, s0, evs[..m]);
    hide Run, FreshStored, SomeAsk, SomeLook, CallNow, SeenBy;
    NextCalls(g, s0, evs, m);
    if i == |s.calls| {
      AskIsAccounted(g, s0, evs, m, evs[m].f);
    }
  }

  lemma AskIsAccounted(g: Grant, s0: State, evs: seq<Event>, m: nat, f: nat)
    requires m < |evs| && evs[m] == Ask(f) && Accounted(g, s0, evs, m)
    requires
      var s := Run(g, s0, evs[..m]);
      && s.IsFlight(f) && s.flights[f].phase.Stale?
      && s.flights[f].phase.checkedAt <= s.now
      && !FreshStored(Some(s.flights[f].phase.stored), s.flights[f].phase.checkedAt, g.window)
    ensures SomeAsk(g, s0, evs, CallNow(Run(g, s0, evs[..m]), f))
  {
    hide Run, FreshStored, Held;
    assert SomeLook(g, s0, evs, m, f);
    var n: nat :| LookedAt(g, s0, evs, n, m, f);
    HeldInRange(g, s0, evs, n, m, f);
    assert AskedAbout(g, s0, evs, n, m, CallNow(Run(g, s0, evs[..m]), f));
  }

  /** In every run, with saves, revocations, relinking and failures anywhere in it: the
      provider is only ever called about a row that the calling flight found stored while
      it held the grant lock, that it then found stale, and by a flight that has held the
      lock from the look to the call; and a flight that is still at work has held it from
      its look until now. */
  lemma {:induction false} CalledUnderTheLock(g: Grant, s0: State, evs: seq<Event>, m: nat)
    requires Initial(s0) && m <= |evs|
    ensures Accounted(g, s0, evs, m)
  {
    hide SomeLook, SomeAsk;
    if m == 0 {
      assert evs[..0] == [];
    } else {
      CalledUnderTheLock(g, s0, evs, m - 1);
      AccountedOneMore(g, s0, evs, m - 1);
    }
  }

  // ------------------------------------------------------------- the lock on the account

  /** Whoever works inside a lock transaction holds the row lock of its account, and that
      account is linked to the grant. */
  ghost predicate RowLocksAgree(g: Grant, s: State) {
    forall f :: 0 <= f < |s.flights| && !s.flights[f].phase.Begun? && !s.flights[f].phase.Over? ==>
      var account := s.flights[f].account;
      account in s.rowLocks && s.rowLocks[account] == f && Linked(g, s, account)
  }

  lemma RowLockTaken(g: Grant, s: State, ev: Event)
    requires FlightEvent(ev) && s.IsFlight(ev.f)
    ensures
      var me, after := s.flights[ev.f], NextPhase(g, s, ev);
      && (after.RowLocked? && after != me.phase ==> me.phase.Begun? && me.account !in s.rowLocks && Linked(g, s, me.account))
      && (me.phase.Begun? ==> after == me.phase || after.RowLocked? || after.Over?)
      && (me.phase.Over? ==> after == me.phase) && (after.Begun? ==> after == me.phase)
  {
    hide Prepared, RefreshMaterial, FreshStored, Linked;
  }

  lemma EnterRowLocks(s: State, f: nat, after: Phase, commits: bool)
    requires s.IsFlight(f)
    ensures
      var t, before := Enter(s, f, after, commits), s.flights[f].phase;
      && t.accounts == s.accounts && t.flights == s.flights[f := s.flights[f].(phase := after)]
      && (if after == before then t.rowLocks == s.rowLocks
          else if after.Over? then forall a :: a in s.rowLocks && s.rowLocks[a] != f ==> a in t.rowLocks && t.rowLocks[a] == s.rowLocks[a]
          else if after.RowLocked? then t.rowLocks == s.rowLocks[s.flights[f].account := f]
          else t.rowLocks == s.rowLocks)
  {
    hide State.Put, State.Row;
    if after == s.flights[f].phase {
      assert s.flights[f := s.flights[f].(phase := after)] == s.flights;
    } else if after.Over? {
      EndRowLocks(s, f, after.outcome);
      if commits && s.flights[f].phase.Written? {
        PublishTouches(s.End(f, after.outcome), f, s.flights[f].phase);
      }
      hide State.End, Publish;
    }
  }

  lemma EndRowLocks(s: State, f: nat, outcome: Outcome)
    requires s.IsFlight(f)
    ensures
      var t := s.End(f, outcome);
      && t.accounts == s.accounts && t.flights == s.flights[f := s.flights[f].(phase := Over(outcome))]
      && forall a :: a in s.rowLocks && s.rowLocks[a] != f ==> a in t.rowLocks && t.rowLocks[a] == s.rowLocks[a]
  {}

  lemma FlightKeepsRowLocks(g: Grant, s: State, ev: Event)
    requires RowLocksAgree(g, s) && FlightEvent(ev) && s.IsFlight(ev.f)
    ensures RowLocksAgree(g, Step(g, s, ev))
  {
    StepEnters(g, s, ev);
    RowLockTaken(g, s, ev);
    EnterRowLocks(s, ev.f, NextPhase(g, s, ev), ev.CommitTx?);
    hide Step, NextPhase, Enter;
  }

  lemma CallerKeepsRowLocks(g: Grant, s: State, ev: Event)
    requires RowLocksAgree(g, s) && ByCaller(ev)
    ensures RowLocksAgree(g, CallerStep(g, s, ev))
  {
    CallerTouches(g, s, ev);
    hide CallerStep;
    var t := CallerStep(g, s, ev);
    forall f | 0 <= f < |t.flights|
      ensures (f < |s.flights| && t.flights[f] == s.flights[f]) || t.flights[f].phase == Begun
    {
      NewFlightIsBegun(s.flights, t.flights, f);
    }
  }

  lemma WorldKeepsRowLocks(g: Grant, s: State, ev: Event)
    requires RowLocksAgree(g, s) && ByWorld(ev)
    ensures RowLocksAgree(g, WorldStep(g, s, ev))
  {
    if !ev.Relink? {
      WorldKeepsAccounts(g, s, ev);
      WorldTouches(g, s, ev);
      hide WorldStep;
    }
    hide Decrypt;
  }

  lemma StepKeepsRowLocks(g: Grant, s: State, ev: Event)
    requires RowLocksAgree(g, s)
    ensures RowLocksAgree(g, Step(g, s, ev))
  {
    hide CallerStep, WorldStep, FlightStep;
    if ev.Tick? {
    } else if ByCaller(ev) {
      CallerKeepsRowLocks(g, s, ev);
      hide RowLocksAgree;
    } else if ByWorld(ev) {
      WorldKeepsRowLocks(g, s, ev);
      hide RowLocksAgree;
    } else if s.IsFlight(ev.f) {
      hide Step, RowLocksAgree;
      FlightKeepsRowLocks(g, s, ev);
    }
  }

  lemma WorldKeepsAccounts(g: Grant, s: State, ev: Event)
    requires ByWorld(ev) && !ev.Relink?
    ensures WorldStep(g, s, ev).accounts == s.accounts
  {
    if ev.SaveWrite? {
      SaveWriteTouches(g, s, ev);
      hide WorldStep;
    }
    hide Decrypt, State.Row;
  }

  /** No relinking races a refresh: at every moment of every run a flight inside its lock
      transaction holds the row lock of its account, alone, and the account is linked to
      the grant that is being refreshed. */
  lemma {:induction false} LinkedUnderTheLock(g: Grant, s0: State, evs: seq<Event>)
    requires Initial(s0)
    ensures RowLocksAgree(g, Run(g, s0, evs))
  {
    hide Step;
    if evs != [] {
      LinkedUnderTheLock(g, s0, evs[..|evs| - 1]);
      StepKeepsRowLocks(g, Run(g, s0, evs[..|evs| - 1]), evs[|evs| - 1]);
    }
  }

  // -------------------------------------------------- locks go, and flights do not double

  predicate Working(phase: Phase) { !phase.Begun? && !phase.Over? }

  /** Every row lock belongs to a flight of its account that is inside its transaction. */
  ghost predicate RowLocksHeld(s: State) {
    forall a :: a in s.rowLocks ==>
      s.IsFlight(s.rowLocks[a]) && s.flights[s.rowLocks[a]].account == a && Working(s.flights[s.rowLocks[a]].phase)
  }

  lemma EndReleases(s: State, f: nat, outcome: Outcome)
    requires s.IsFlight(f)
    ensures forall a :: a in s.End(f, outcome).rowLocks ==> a in s.rowLocks && s.rowLocks[a] != f && s.End(f, outcome).rowLocks[a] == s.rowLocks[a]
  {}

  lemma EnterReleases(s: State, f: nat, after: Phase, commits: bool)
    requires s.IsFlight(f) && after.Over? && after != s.flights[f].phase
    ensures
      var t := Enter(s, f, after, commits);
      forall a :: a in t.rowLocks ==> a in s.rowLocks && s.rowLocks[a] != f && t.rowLocks[a] == s.rowLocks[a]
  {
    EndReleases(s, f, after.outcome);
    if commits && s.flights[f].phase.Written? {
      PublishTouches(s.End(f, after.outcome), f, s.flights[f].phase);
    }
    hide State.End, Publish;
  }

  lemma FlightKeepsHeld(g: Grant, s: State, ev: Event)
    requires RowLocksHeld(s) && FlightEvent(ev) && s.IsFlight(ev.f)
    ensures RowLocksHeld(Step(g, s, ev))
  {
    var after := NextPhase(g, s, ev);
    StepEnters(g, s, ev);
    RowLockTaken(g, s, ev);
    EnterRowLocks(s, ev.f, after, ev.CommitTx?);
    if after.Over? && after != s.flights[ev.f].phase {
      EnterReleases(s, ev.f, after, ev.CommitTx?);
    }
    hide Step, NextPhase, Enter, Linked;
  }

  lemma StepKeepsHeld(g: Grant, s: State, ev: Event)
    requires RowLocksHeld(s)
    ensures RowLocksHeld(Step(g, s, ev))
  {
    hide CallerStep, WorldStep, FlightStep;
    if ByCaller(ev) {
      CallerTouches(g, s, ev);
      var t := CallerStep(g, s, ev);
      assert forall f :: 0 <= f < |s.flights| && t.flights != s.flights ==> t.flights[f] == t.flights[..|s.flights|][f];
    } else if ByWorld(ev) {
      WorldTouches(g, s, ev);
    } else if !ev.Tick? && s.IsFlight(ev.f) {
      hide Step, RowLocksHeld;
      FlightKeepsHeld(g, s, ev);
    }
  }

  /** No lock outlives its transaction: from a state without row locks, in every run, every
      row lock belongs to a flight that is still at work. */
  lemma {:induction false} LocksAreReleased(g: Grant, s0: State, evs: seq<Event>)
    requires Initial(s0) && s0.rowLocks == map[]
    ensures RowLocksHeld(Run(g, s0, evs))
  {
    hide Step;
    if evs != [] {
      LocksAreReleased(g, s0, evs[..|evs| - 1]);
      StepKeepsHeld(g, Run(g, s0, evs[..|evs| - 1]), evs[|evs| - 1]);
    }
  }

  /** A flight that is not over is the one its host remembers for its token type. */
  ghost predicate Remembered(s: State) {
    && (forall f :: 0 <= f < |s.flights| && !s.flights[f].phase.Over? ==>
         var key := (s.flights[f].host, s.flights[f].tokenType);
         key in s.live && s.live[key] == f)
    && (forall key :: key in s.live ==> s.IsFlight(s.live[key]))
  }

  lemma FlightKeepsRemembered(g: Grant, s: State, ev: Event)
    requires Remembered(s) && FlightEvent(ev) && s.IsFlight(ev.f)
    ensures Remembered(Step(g, s, ev))
  {
    StepEnters(g, s, ev);
    RowLockTaken(g, s, ev);
    EnterRowLocks(s, ev.f, NextPhase(g, s, ev), ev.CommitTx?);
    EnterKeepsLive(s, ev.f, NextPhase(g, s, ev), ev.CommitTx?);
    hide Step, NextPhase, Enter, Linked;
  }

  lemma EnterKeepsLive(s: State, f: nat, after: Phase, commits: bool)
    requires s.IsFlight(f)
    ensures Enter(s, f, after, commits).live == s.live
  {
    if after.Over? && commits && s.flights[f].phase.Written? {
      PublishTouches(s.End(f, after.outcome), f, s.flights[f].phase);
    }
    hide Publish;
  }

  lemma CallerKeepsRemembered(g: Grant, s: State, ev: Event)
    requires Remembered(s) && ByCaller(ev)
    ensures Remembered(CallerStep(g, s, ev))
  {
    hide NextStage, Linked;
  }

  lemma ForgetKeepsRemembered(g: Grant, s: State, ev: Event)
    requires Remembered(s) && ByWorld(ev)
    ensures Remembered(WorldStep(g, s, ev))
  {
    WorldTouches(g, s, ev);
    if !ev.Forget? {
      RenewEpisode.OnlyForgetForgets(g, s, ev);
      hide WorldStep;
    }
    hide Decrypt;
  }

  lemma StepKeepsRemembered(g: Grant, s: State, ev: Event)
    requires Remembered(s)
    ensures Remembered(Step(g, s, ev))
  {
    hide CallerStep, WorldStep, FlightStep;
    if ev.Tick? {
    } else if ByCaller(ev) {
      CallerKeepsRemembered(g, s, ev);
      hide Remembered;
    } else if ByWorld(ev) {
      ForgetKeepsRemembered(g, s, ev);
      hide Remembered;
    } else if s.IsFlight(ev.f) {
      hide Step, Remembered;
      FlightKeepsRemembered(g, s, ev);
    }
  }

  /** Two flights of one host for one token type, neither of them over. */
  predicate Doubles(a: Flight, b: Flight) {
    a.host == b.host && a.tokenType == b.tokenType && !a.phase.Over? && !b.phase.Over?
  }

  /** Concurrent requests do not queue duplicate transactions: at every moment of every run
      a host has at most one flight per token type that is not over. */
  lemma {:induction false} OneFlightPerHost(g: Grant, s0: State, evs: seq<Event>)
    requires Initial(s0)
    ensures
      var s := Run(g, s0, evs);
      && Remembered(s)
      && forall f, h :: 0 <= f < |s.flights| && 0 <= h < |s.flights| && Doubles(s.flights[f], s.flights[h]) ==> f == h
  {
    hide Step;
    if evs != [] {
      OneFlightPerHost(g, s0, evs[..|evs| - 1]);
      StepKeepsRemembered(g, Run(g, s0, evs[..|evs| - 1]), evs[|evs| - 1]);
    }
  }
}
