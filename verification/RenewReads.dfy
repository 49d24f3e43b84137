/** What callers are served: never anything but a row that was stored while they waited. */
module RenewReads {
  import opened Common
  import opened Envelope
  import opened TokenMerge
  import opened GrantRefresh
  import Lazy = LazyReencrypt
  import opened RenewProtocol

  function SawOf(stage: Stage): Option<Option<Token>> {
    if stage.Peeked? || stage.Reread? then Some(stage.seen) else None
  }

  /** What the caller has seen by moment m was stored at moment n, when it was already
      waiting. */
  ghost predicate SawAt(g: Grant, s0: State, evs: seq<Event>, n: nat, m: nat, c: nat) {
    && n <= m <= |evs| && c in Run(g, s0, evs[..n]).callers && c in Run(g, s0, evs[..m]).callers
    && var me := Run(g, s0, evs[..m]).callers[c];
       SawOf(me.stage) == Some(Run(g, s0, evs[..n]).Row(me.tokenType))
  }

  /** Read at this instant the row has not expired, and its text, type, expiry and scopes
      are those of the token. */
  ghost predicate Gives(g: Grant, row: Option<Token>, now: int, token: Lazy.OAuthToken) {
    && row.Some? && !Lazy.ExpiredAt(row.value, now)
    && Decrypt(g.ring, if row.value.encryptedAccess == [] then row.value.encryptedToken else row.value.encryptedAccess) == Ok(token.accessToken)
    && token.tokenType == row.value.tokenType && token.expiresAt == row.value.KnownExpiry() && token.scopes == row.value.KnownScopes()
  }

  lemma ReadGives(g: Grant, row: Option<Token>, now: int, token: Lazy.OAuthToken)
    requires Lazy.Read(g.ring, row, now) == Ok(token)
    ensures Gives(g, row, now, token)
  {
    Lazy.ReadExactly(g.ring, row, now);
    hide Lazy.Read, Decrypt, Lazy.ExpiredAt;
  }

  /** The token the caller was given by moment m was read, at moment k, from the row that
      was stored at moment n. */
  ghost predicate GotAt(g: Grant, s0: State, evs: seq<Event>, n: nat, k: nat, m: nat, c: nat) {
    && n <= k <= m <= |evs| && c in Run(g, s0, evs[..n]).callers && c in Run(g, s0, evs[..m]).callers
    && var me := Run(g, s0, evs[..m]).callers[c];
       me.stage.Returned? && Gives(g, Run(g, s0, evs[..n]).Row(me.tokenType), Run(g, s0, evs[..k]).now, me.stage.result)
  }

  ghost predicate SawStored(g: Grant, s0: State, evs: seq<Event>, m: nat, c: nat) {
    exists n: nat :: SawAt(g, s0, evs, n, m, c)
  }

  ghost predicate GotStored(g: Grant, s0: State, evs: seq<Event>, m: nat, c: nat) {
    exists n: nat, k: nat :: GotAt(g, s0, evs, n, k, m, c)
  }

  /** Every caller that has seen a row, or was given a token, has it from the store. */
  ghost predicate FromStore(g: Grant, s0: State, evs: seq<Event>, m: nat)
    requires m <= |evs|
  {
    var s := Run(g, s0, evs[..m]);
    forall c :: c in s.callers ==>
      && (SawOf(s.callers[c].stage).Some? ==> SawStored(g, s0, evs, m, c))
      && (s.callers[c].stage.Returned? ==> GotStored(g, s0, evs, m, c))
  }

  lemma NextStageSees(g: Grant, s: State, ev: Event)
    requires ByCaller(ev) && ev.c in s.callers
    ensures
      var me, after := s.callers[ev.c], NextStage(g, s, ev);
      && (SawOf(after).Some? ==> after == me.stage || SawOf(after) == Some(s.Row(me.tokenType)))
      && (after.Returned? ==>
           after == me.stage || (SawOf(me.stage).Some? && Lazy.Read(g.ring, SawOf(me.stage).value, s.now) == Ok(after.result)))
  {
    hide Lazy.Read, FreshStored, Linked, State.Row;
  }

  lemma OwnStage(g: Grant, s: State, ev: Event)
    requires ByCaller(ev) && ev.c in s.callers
    ensures
      var t, before := CallerStep(g, s, ev), s.callers[ev.c];
      && t.callers == s.callers[ev.c := before.(stage := t.callers[ev.c].stage)]
      && (var after := t.callers[ev.c].stage; after == before.stage || after.Joined? || after == NextStage(g, s, ev))
  {
    hide NextStage, Linked;
    var before := s.callers[ev.c];
    assert s.callers[ev.c := before.(stage := before.stage)] == s.callers;
  }

  lemma Newcomer(g: Grant, s: State, ev: Event)
    requires ByCaller(ev) && ev.c !in s.callers
    ensures
      var t := CallerStep(g, s, ev);
      || t.callers == s.callers
      || (ev.c in t.callers && t.callers == s.callers[ev.c := t.callers[ev.c]]
          && (t.callers[ev.c].stage == Ready || t.callers[ev.c].stage == Elsewhere))
  {
    hide Linked;
  }

  lemma CallerStepStages(g: Grant, s: State, ev: Event, c: nat)
    requires ByCaller(ev) && c in CallerStep(g, s, ev).callers
    ensures
      var me := CallerStep(g, s, ev).callers[c];
      if c !in s.callers then !me.stage.Returned? && SawOf(me.stage).None?
      else
        me.tokenType == s.callers[c].tokenType
        && (me.stage == s.callers[c].stage || me.stage.Joined? || (ev.c == c && me.stage == NextStage(g, s, ev)))
  {
    if ev.c in s.callers {
      OwnStage(g, s, ev);
    } else {
      Newcomer(g, s, ev);
    }
    hide CallerStep, NextStage;
  }

  /** What one step does to what a caller has seen. */
  lemma StepStages(g: Grant, s: State, ev: Event, c: nat)
    requires c in Step(g, s, ev).callers
    ensures
      var me := Step(g, s, ev).callers[c];
      var tt := me.tokenType;
      && (SawOf(me.stage).Some? || me.stage.Returned? ==> c in s.callers && s.callers[c].tokenType == tt)
      && (SawOf(me.stage).Some? ==> me.stage == s.callers[c].stage || SawOf(me.stage) == Some(s.Row(tt)))
      && (me.stage.Returned? ==>
           var before := s.callers[c].stage;
           me.stage == before || (SawOf(before).Some? && Lazy.Read(g.ring, SawOf(before).value, s.now) == Ok(me.stage.result)))
  {
    if ByCaller(ev) {
      CallerStepStages(g, s, ev, c);
      if ev.c in s.callers {
        NextStageSees(g, s, ev);
      }
      hide CallerStep, NextStage, Lazy.Read, State.Row;
    } else {
      OthersKeepCallers(g, s, ev);
      hide Step, Lazy.Read, State.Row;
    }
  }

  lemma OthersKeepCallers(g: Grant, s: State, ev: Event)
    requires !ByCaller(ev)
    ensures Step(g, s, ev).callers == s.callers
  {
    if ByWorld(ev) {
      WorldTouches(g, s, ev);
      hide WorldStep;
    } else if !ev.Tick? && s.IsFlight(ev.f) {
      if ev.CommitTx? && s.flights[ev.f].phase.Written? {
        StepPublishes(g, s, ev.f, ev.acknowledged);
      } else {
        StepQuiet(g, s, ev);
      }
      hide Step, NextPhase, Logged;
    }
  }

  lemma StoreOneMore(g: Grant, s0: State, evs: seq<Event>, m: nat, c: nat)
    requires m < |evs| && FromStore(g, s0, evs, m) && c in Run(g, s0, evs[..m + 1]).callers
    ensures
      var me := Run(g, s0, evs[..m + 1]).callers[c];
      && (SawOf(me.stage).Some? ==> SawStored(g, s0, evs, m + 1, c))
      && (me.stage.Returned? ==> GotStored(g, s0, evs, m + 1, c))
  {
    hide Run, Step, Lazy.Read, Gives, State.Row;
    var s, me := Run(g, s0, evs[..m]), Run(g, s0, evs[..m + 1]).callers[c];
    RunOneMore(g, s0, evs, m);
    StepStages(g, s, evs[m], c);
    if SawOf(me.stage).Some? {
      if me.stage == s.callers[c].stage {
        assert SawStored(g, s0, evs, m, c);
        var n: nat :| SawAt(g, s0, evs, n, m, c);
        assert SawAt(g, s0, evs, n, m + 1, c);
      } else {
        assert SawAt(g, s0, evs, m, m + 1, c);
      }
    } else if me.stage.Returned? {
      if me.stage == s.callers[c].stage {
        assert GotStored(g, s0, evs, m, c);
        var n: nat, k: nat :| GotAt(g, s0, evs, n, k, m, c);
        assert GotAt(g, s0, evs, n, k, m + 1, c);
      } else {
        assert SawStored(g, s0, evs, m, c);
        var n: nat :| SawAt(g, s0, evs, n, m, c);
        ReadGives(g, SawOf(s.callers[c].stage).value, s.now, me.stage.result);
        assert GotAt(g, s0, evs, n, m, m + 1, c);
      }
    }
  }

  /** In every run, with saves, revocations, relinking and failures anywhere in it: whoever
      is given a token has it from a row that was stored, with the scopes that the grant
      then had, at a moment when the caller was already waiting, and that had not expired
      when it was read. */
  lemma {:induction false} ServedFromStore(g: Grant, s0: State, evs: seq<Event>, m: nat)
    requires s0.callers == map[] && m <= |evs|
    ensures FromStore(g, s0, evs, m)
  {
    hide Step, SawStored, GotStored;
    if m == 0 {
      assert evs[..0] == [];
    } else {
      ServedFromStore(g, s0, evs, m - 1);
      forall c | c in Run(g, s0, evs[..m]).callers
        ensures
          var me := Run(g, s0, evs[..m]).callers[c];
          && (SawOf(me.stage).Some? ==> SawStored(g, s0, evs, m, c))
          && (me.stage.Returned? ==> GotStored(g, s0, evs, m, c))
      {
        StoreOneMore(g, s0, evs, m - 1, c);
      }
    }
  }

  /** The answer of the fast path to what the caller has seen: the token when it is neither
      expired nor inside the window and opens; a failure when it is there, has not expired
      and does not open; in every other case the slow path. */
  lemma JudgedExactly(g: Grant, s: State, c: nat)
    requires c in s.callers && s.callers[c].stage.Peeked?
    ensures
      var seen, t := s.callers[c].stage.seen, Step(g, s, Judge(c));
      var usable := seen.Some? && !Lazy.ExpiredAt(seen.value, s.now);
      var opens := seen.Some? && Decrypt(g.ring, seen.value.AccessCiphertext()).Ok?;
      && t == s.(callers := t.callers) && c in t.callers
      && t.callers == s.callers[c := s.callers[c].(stage := t.callers[c].stage)]
      && (t.callers[c].stage.Returned? <==> usable && opens && !StaleAt(seen.value, s.now, g.window))
      && (t.callers[c].stage.Failed? <==> usable && !opens)
      && (t.callers[c].stage.Slow? <==> !usable || (opens && StaleAt(seen.value, s.now, g.window)))
  {
    Lazy.ReadExactly(g.ring, s.callers[c].stage.seen, s.now);
    hide Decrypt, Lazy.Read, Lazy.ExpiredAt, Linked;
  }

  /** What a caller does about the flight it waits for: nothing until that is over; it fails
      with it; and when it has not failed the caller reads the row again, provided that its
      own account still belongs to the grant. */
  lemma LandedExactly(g: Grant, s: State, c: nat)
    requires c in s.callers && s.callers[c].stage.Joined? && s.IsFlight(s.callers[c].stage.flight)
    ensures
      var me, t := s.callers[c], Step(g, s, Land(c));
      var phase, linked := s.flights[me.stage.flight].phase, me.account in s.accounts && s.accounts[me.account] == g.id;
      && c in t.callers && t.rows == s.rows
      && (t.callers[c].stage == me.stage <==> !phase.Over?)
      && (t.callers[c].stage.Failed? <==> phase.Over? && phase.outcome.FlightFailed?)
      && (t.callers[c].stage.Elsewhere? <==> phase.Over? && !phase.outcome.FlightFailed? && !linked)
      && (t.callers[c].stage == Reread(s.Row(me.tokenType)) <==> phase.Over? && !phase.outcome.FlightFailed? && linked)
  {
    hide State.Row;
  }

  /** The answer after a flight that has not failed: the token when it has not expired and
      opens, else a failure. */
  lemma FinishedExactly(g: Grant, s: State, c: nat)
    requires c in s.callers && s.callers[c].stage.Reread?
    ensures
      var seen, t := s.callers[c].stage.seen, Step(g, s, Finish(c));
      && c in t.callers && (t.callers[c].stage.Returned? || t.callers[c].stage.Failed?)
      && (t.callers[c].stage.Returned? <==>
           seen.Some? && !Lazy.ExpiredAt(seen.value, s.now) && Decrypt(g.ring, seen.value.AccessCiphertext()).Ok?)
  {
    Lazy.ReadExactly(g.ring, s.callers[c].stage.seen, s.now);
    hide Decrypt, Lazy.Read, Lazy.ExpiredAt, Linked;
  }

  // ------------------------------------------------- where the committed rows come from

  /** By moment m the provider has given this flight this reply. */
  ghost predicate Replied(evs: seq<Event>, m: nat, f: nat, reply: Reply) {
    exists n :: 0 <= n < m && n < |evs| && evs[n] == Answer(f, reply)
  }

  ghost predicate PhaseSourced(evs: seq<Event>, m: nat, f: nat, phase: Phase) {
    && (phase.Answered? ==> Replied(evs, m, f, phase.reply))
    && (phase.Written? ==> Replied(evs, m, f, Issued(phase.data)))
  }

  ghost predicate Sourced(g: Grant, s0: State, evs: seq<Event>, m: nat)
    requires m <= |evs|
  {
    var s := Run(g, s0, evs[..m]);
    && (forall f :: 0 <= f < |s.flights| ==> PhaseSourced(evs, m, f, s.flights[f].phase))
    && (forall i :: 0 <= i < |s.commits| ==> Replied(evs, m, s.commits[i].flight, Issued(s.commits[i].data)))
  }

  lemma NextPhaseReply(g: Grant, s: State, ev: Event)
    requires FlightEvent(ev) && s.IsFlight(ev.f)
    ensures
      var before, after := s.flights[ev.f].phase, NextPhase(g, s, ev);
      && (after.Answered? ==> after == before || ev == Answer(ev.f, after.reply))
      && (after.Written? ==> after == before || (before.Answered? && before.reply == Issued(after.data)))
  {
    hide Prepared, RefreshMaterial, FreshStored, Linked;
  }

  lemma StepCommits(g: Grant, s: State, ev: Event)
    ensures
      var commits := Step(g, s, ev).commits;
      || commits == s.commits
      || (&& ev.CommitTx? && s.IsFlight(ev.f) && s.flights[ev.f].phase.Written? && |commits| == |s.commits| + 1
          && commits[..|s.commits|] == s.commits && commits[|s.commits|].flight == ev.f
          && commits[|s.commits|].data == s.flights[ev.f].phase.data)
  {
    if ByCaller(ev) {
      CallerTouches(g, s, ev);
      hide CallerStep;
    } else if ByWorld(ev) {
      WorldTouches(g, s, ev);
      hide WorldStep;
    } else if !ev.Tick? && s.IsFlight(ev.f) {
      if ev.CommitTx? && s.flights[ev.f].phase.Written? {
        StepPublishes(g, s, ev.f, ev.acknowledged);
      } else {
        StepQuiet(g, s, ev);
      }
      hide Step, NextPhase, Logged;
    }
  }

  lemma RepliedLater(evs: seq<Event>, m: nat, f: nat, reply: Reply)
    requires Replied(evs, m, f, reply)
    ensures Replied(evs, m + 1, f, reply)
  {
    var n :| 0 <= n < m && n < |evs| && evs[n] == Answer(f, reply);
  }

  lemma NewFlightsBegin(flights: seq<Flight>, more: seq<Flight>, f: nat)
    requires f < |more|
    requires more == flights || (|more| == |flights| + 1 && more[..|flights|] == flights && more[|flights|].phase == Begun)
    ensures (f < |flights| && more[f] == flights[f]) || more[f].phase == Begun
  {
    assert f < |flights| && more != flights ==> more[f] == more[..|flights|][f];
  }

  /** What one step does to the reply that a flight holds. */
  lemma StepReply(g: Grant, s: State, ev: Event, f: nat)
    requires f < |Step(g, s, ev).flights|
    ensures
      var after := Step(g, s, ev).flights[f].phase;
      && (after.Answered? ==> ev == Answer(f, after.reply) || (s.IsFlight(f) && s.flights[f].phase == after))
      && (after.Written? ==>
           s.IsFlight(f) && var before := s.flights[f].phase;
             before == after || (before.Answered? && before.reply == Issued(after.data)))
  {
    StepFlights(g, s, ev);
    hide Step, NextPhase;
    if ByCaller(ev) {
      NewFlightsBegin(s.flights, Step(g, s, ev).flights, f);
    } else if FlightEvent(ev) && s.IsFlight(ev.f) {
      NextPhaseReply(g, s, ev);
    }
  }

  lemma FlightSourcedOneMore(g: Grant, s0: State, evs: seq<Event>, m: nat, f: nat)
    requires m < |evs| && Sourced(g, s0, evs, m) && f < |Run(g, s0, evs[..m + 1]).flights|
    ensures PhaseSourced(evs, m + 1, f, Run(g, s0, evs[..m + 1]).flights[f].phase)
  {
    var s, after := Run(g, s0, evs[..m]), Run(g, s0, evs[..m + 1]).flights[f].phase;
    RunOneMore(g, s0, evs, m);
    StepReply(g, s, evs[m], f);
    hide Run, Step, Replied;
    if s.IsFlight(f) {
      assert PhaseSourced(evs, m, f, s.flights[f].phase);
    }
    var before := if s.IsFlight(f) then s.flights[f].phase else Begun;
    if after.Answered? {
      SourcedReply(evs, m, f, before, after.reply);
    } else if after.Written? {
      SourcedReply(evs, m, f, before, Issued(after.data));
    }
  }

  lemma SourcedReply(evs: seq<Event>, m: nat, f: nat, before: Phase, reply: Reply)
    requires m < |evs| && PhaseSourced(evs, m, f, before)
    requires || (before.Answered? && before.reply == reply)
             || (before.Written? && Issued(before.data) == reply)
             || evs[m] == Answer(f, reply)
    ensures Replied(evs, m + 1, f, reply)
  {
    if Replied(evs, m, f, reply) {
      RepliedLater(evs, m, f, reply);
    }
  }

  /** In every run each row that a flight made visible holds the data of a reply which the
      provider gave to that very flight. */
  lemma {:induction false} CommitsAreReplies(g: Grant, s0: State, evs: seq<Event>, m: nat)
    requires Initial(s0) && m <= |evs|
    ensures Sourced(g, s0, evs, m)
  {
    hide Step, Replied, PhaseSourced;
    if m == 0 {
      assert evs[..0] == [];
    } else {
      CommitsAreReplies(g, s0, evs, m - 1);
      var s, t := Run(g, s0, evs[..m - 1]), Run(g, s0, evs[..m]);
      RunOneMore(g, s0, evs, m - 1);
      StepCommits(g, s, evs[m - 1]);
      forall f | 0 <= f < |t.flights|
        ensures PhaseSourced(evs, m, f, t.flights[f].phase)
      {
        FlightSourcedOneMore(g, s0, evs, m - 1, f);
      }
      forall i | 0 <= i < |t.commits|
        ensures Replied(evs, m, t.commits[i].flight, Issued(t.commits[i].data))
      {
        if i < |s.commits| {
          assert t.commits[i] == t.commits[..|s.commits|][i] == s.commits[i];
          RepliedLater(evs, m - 1, t.commits[i].flight, Issued(t.commits[i].data));
        } else {
          var f := evs[m - 1].f;
          assert PhaseSourced(evs, m - 1, f, s.flights[f].phase);
          SourcedReply(evs, m - 1, f, s.flights[f].phase, Issued(t.commits[i].data));
        }
      }
    }
  }
}
