/** The refresh of one shared grant as a protocol: any number of callers on any number of
    hosts and accounts, a flight per host and token type, the row and grant locks of the
    database, and a clock; every read, lock, call and commit is a step of its own. */
module RenewProtocol {
  import opened Common
  import opened Envelope
  import opened TokenMerge
  import opened GrantRefresh
  import opened LazyReencrypt

  // ----------------------------------------------------------------------- state

  datatype Outcome = FreshAlready | Refreshed | FlightFailed(asked: bool)

  /** How far the lock transaction of a flight has come. */
  datatype Phase =
    | Begun
    | RowLocked
    | Locked
    | Looked(found: Option<Token>)
    | Stale(stored: Token, checkedAt: int)
    | Asked(stored: Token)
    | Answered(stored: Token, reply: Reply)
    | Written(token: Token, over: Token, data: TokenData, accessAt: int)
    | Marked
    | Over(outcome: Outcome)
  {
    predicate HoldsGrant() { !Begun? && !RowLocked? && !Over? }

    predicate HasAsked() { Asked? || Answered? || Written? || Marked? }
  }

  datatype Flight = Flight(host: nat, account: int, tokenType: string, phase: Phase)

  datatype Stage =
    | Ready
    | Peeked(seen: Option<Token>)
    | Slow
    | Joined(flight: nat)
    | Reread(seen: Option<Token>)
    | Returned(result: OAuthToken)
    | Elsewhere
    | Failed

  datatype Caller = Caller(host: nat, account: int, tokenType: string, stage: Stage)

  /** A provider call: by whom, on which stored token, found stale when, and who held the
      grant lock at that moment. */
  datatype Call = Call(flight: nat, tokenType: string, stored: Token, checkedAt: int, at: int, holder: Option<nat>)

  /** A refreshed row that became visible, with the answer it came from. */
  datatype Commit = Commit(flight: nat, tokenType: string, row: Token, data: TokenData, accessAt: int)

  /** A save that has looked for the row to merge over and not yet written. */
  datatype PendingSave = PendingSave(tokenType: string, seen: Option<Token>)

  datatype Grant = Grant(id: int, window: int, ring: Keyring)

  datatype State = State(
    now: int, rows: map<string, Token>, scopes: seq<string>, accounts: map<int, int>,
    rowLocks: map<int, nat>, grantLock: Option<nat>,
    flights: seq<Flight>, live: map<(nat, string), nat>, callers: map<nat, Caller>, saves: map<nat, PendingSave>,
    calls: seq<Call>, commits: seq<Commit>)
  {
    predicate IsFlight(f: nat) { f < |flights| }

    /** A token row as it is found, with the scopes of the grant. */
    function Row(tokenType: string): Option<Token> {
      if tokenType in rows then Some(WithScopes(rows[tokenType], scopes)) else None
    }

    function Put(token: Token): State {
      this.(rows := rows[token.tokenType := Upserted(Row(token.tokenType), token)], scopes := ScopesPut(scopes, token))
    }

    function WithPhase(f: nat, phase: Phase): State
      requires IsFlight(f)
    {
      this.(flights := flights[f := flights[f].(phase := phase)])
    }

    function WithStage(c: nat, stage: Stage): State
      requires c in callers
    {
      this.(callers := callers[c := callers[c].(stage := stage)])
    }

    /** The transaction of the flight ends and all its locks go. */
    function End(f: nat, outcome: Outcome): State
      requires IsFlight(f)
    {
      WithPhase(f, Over(outcome)).(
        rowLocks := map a | a in rowLocks && rowLocks[a] != f :: rowLocks[a],
        grantLock := if grantLock == Some(f) then None else grantLock)
    }
  }

  // ---------------------------------------------------------------------- events

  datatype Event =
    // callers
    | Start(c: nat, host: nat, account: int, tokenType: string)
    | Peek(c: nat)
    | Judge(c: nat)
    | Join(c: nat)
    | Land(c: nat)
    | Finish(c: nat)
    | Cancel(c: nat)
    // flights
    | LockRow(f: nat)
    | LockGrant(f: nat)
    | Look(f: nat)
    | Decide(f: nat)
    | Ask(f: nat)
    | Answer(f: nat, reply: Reply)
    | Write(f: nat, active: KeyId, amb: Ambient)
    | Mark(f: nat)
    | CommitTx(f: nat, acknowledged: bool)
    | Abort(f: nat)
    // the rest of the world
    | Tick(elapsed: nat)
    | Forget(host: nat, tokenType: string)
    | SaveLook(n: nat, tokenType: string)
    | SaveWrite(n: nat, active: KeyId, account: int, data: TokenData, amb: Ambient)
    | RevokeRows
    | Relink(account: int, grant: int)
    | Reencrypt(tokenType: string, ciphertext: Bytes)

  predicate ByCaller(ev: Event) {
    ev.Start? || ev.Peek? || ev.Judge? || ev.Join? || ev.Land? || ev.Finish? || ev.Cancel?
  }

  predicate ByWorld(ev: Event) {
    ev.Forget? || ev.SaveLook? || ev.SaveWrite? || ev.RevokeRows? || ev.Relink? || ev.Reencrypt?
  }

  /** One step; an event whose moment has not come changes nothing. */
  function Step(g: Grant, s: State, ev: Event): State {
    if ev.Tick? then s.(now := s.now + ev.elapsed)
    else if ByCaller(ev) then CallerStep(g, s, ev)
    else if ByWorld(ev) then WorldStep(g, s, ev)
    else if s.IsFlight(ev.f) then FlightStep(g, s, ev)
    else s
  }

  /** What a caller does: look on the fast path, join or lead a flight, and read the
      committed row again when the flight has succeeded. A flight can be joined until its
      host has forgotten it. */
  function CallerStep(g: Grant, s: State, ev: Event): State
    requires ByCaller(ev)
  {
    if ev.Start? then
      if ev.c in s.callers then s
      else s.(callers := s.callers[ev.c := Caller(ev.host, ev.account, ev.tokenType,
                                                  if Linked(g, s, ev.account) then Ready else Elsewhere)])
    else if ev.c !in s.callers then s
    else
      var me := s.callers[ev.c];
      var key := (me.host, me.tokenType);
      if ev.Join? && me.stage.Slow? && !(key in s.live && s.IsFlight(s.live[key])) then
        var f := |s.flights|;
        s.WithStage(ev.c, Joined(f)).(
          flights := s.flights + [Flight(me.host, me.account, me.tokenType, Begun)],
          live := s.live[key := f])
      else
        var stage := NextStage(g, s, ev);
        if stage == me.stage then s else s.WithStage(ev.c, stage)
  }

  /** The next stage of a caller that does not lead; the same one when the event is not
      due. */
  function NextStage(g: Grant, s: State, ev: Event): Stage
    requires ByCaller(ev) && ev.c in s.callers
  {
    var me := s.callers[ev.c];
    var key := (me.host, me.tokenType);
    match (ev, me.stage)
    case (Peek(_), Ready) => Peeked(s.Row(me.tokenType))
    case (Judge(_), Peeked(seen)) =>
      (match Read(g.ring, seen, s.now)
       case Ok(token) => if FreshStored(seen, s.now, g.window) then Returned(token) else Slow
       case Err(why) => if why.Unreadable? then Failed else Slow)
    case (Join(_), Slow) => if key in s.live then Joined(s.live[key]) else Slow
    case (Land(_), Joined(f)) =>
      if !s.IsFlight(f) || !s.flights[f].phase.Over? then me.stage
      else if s.flights[f].phase.outcome.FlightFailed? then Failed
      else if Linked(g, s, me.account) then Reread(s.Row(me.tokenType))
      else Elsewhere
    case (Finish(_), Reread(seen)) =>
      (match Read(g.ring, seen, s.now)
       case Ok(token) => Returned(token)
       case Err(_) => Failed)
    case (Cancel(_), stage) => if stage.Returned? then stage else Failed
    case (_, stage) => stage
  }

  predicate Linked(g: Grant, s: State, account: int) {
    account in s.accounts && s.accounts[account] == g.id
  }

  /** Where the commit of a written row leads; without an acknowledgement the flight has
      failed, although the row is there. */
  function Committed(acknowledged: bool): Phase {
    Over(if acknowledged then Refreshed else FlightFailed(true))
  }

  predicate FlightEvent(ev: Event) {
    ev.LockRow? || ev.LockGrant? || ev.Look? || ev.Decide? || ev.Ask? || ev.Answer? || ev.Write? || ev.Mark? || ev.CommitTx? || ev.Abort?
  }

  /** The next phase of a flight inside its lock transaction; the same one when the event
      is not due. */
  function NextPhase(g: Grant, s: State, ev: Event): Phase
    requires FlightEvent(ev) && s.IsFlight(ev.f)
  {
    var me := s.flights[ev.f];
    var phase := me.phase;
    match ev
    case LockRow(_) =>
      if !phase.Begun? || me.account in s.rowLocks then phase
      else if Linked(g, s, me.account) then RowLocked
      else Over(FlightFailed(false))
    case LockGrant(_) => if phase.RowLocked? && s.grantLock.None? then Locked else phase
    case Look(_) => if phase.Locked? then Looked(s.Row(me.tokenType)) else phase
    case Decide(_) =>
      if !phase.Looked? then phase
      else if FreshStored(phase.found, s.now, g.window) then Over(FreshAlready)
      else if phase.found.None? then Over(FlightFailed(false))
      else Stale(phase.found.value, s.now)
    case Ask(_) =>
      if !phase.Stale? then phase
      else if RefreshMaterial(g.ring, phase.stored, me.tokenType).Err? then Over(FlightFailed(false))
      else Asked(phase.stored)
    case Answer(_, reply) => if phase.Asked? then Answered(phase.stored, reply) else phase
    case Write(_, active, amb) =>
      if !phase.Answered? || !phase.reply.Issued? || active !in g.ring.keys then phase
      else
        (match Prepared(Encryptor(g.ring, active), Some(phase.stored), g.id, me.account, phase.reply.data, amb)
         case Ok(token) => Written(token, phase.stored, phase.reply.data, amb.accessAt)
         case Err(_) => Over(FlightFailed(true)))
    case Mark(_) => if phase.Answered? && phase.reply.InvalidGrant? then Marked else phase
    case CommitTx(_, acknowledged) =>
      if phase.Written? then Committed(acknowledged)
      else if phase.Marked? then Over(FlightFailed(true))
      else phase
    case Abort(_) => if phase.Over? then phase else Over(FlightFailed(phase.HasAsked()))
  }

  /** Entering a phase takes and releases locks, logs the provider call, and publishes the
      written row when it is a commit that ends the flight. */
  function Enter(s: State, f: nat, after: Phase, commits: bool): State
    requires s.IsFlight(f)
  {
    var before := s.flights[f].phase;
    if after == before then s
    else if after.Over? && commits && before.Written? then Publish(s.End(f, after.outcome), f, before)
    else if after.Over? then s.End(f, after.outcome)
    else if after.RowLocked? then s.WithPhase(f, after).(rowLocks := s.rowLocks[s.flights[f].account := f])
    else if after.Locked? then s.WithPhase(f, after).(grantLock := Some(f))
    else if after.Asked? && before.Stale? then
      s.WithPhase(f, after).(calls := Logged(s, f, after))
    else s.WithPhase(f, after)
  }

  /** The calls made so far and the one that this phase change makes. */
  function Logged(s: State, f: nat, after: Phase): seq<Call>
    requires s.IsFlight(f)
  {
    var me := s.flights[f];
    if me.phase.Stale? && after.Asked? then
      s.calls + [Call(f, me.tokenType, me.phase.stored, me.phase.checkedAt, s.now, s.grantLock)]
    else s.calls
  }

  function Publish(s: State, f: nat, written: Phase): State
    requires written.Written?
  {
    var tt, t := written.token.tokenType, s.Put(written.token);
    t.(commits := s.commits + [Commit(f, tt, t.Row(tt).value, written.data, written.accessAt)])
  }

  function FlightStep(g: Grant, s: State, ev: Event): State
    requires FlightEvent(ev) && s.IsFlight(ev.f)
  {
    Enter(s, ev.f, NextPhase(g, s, ev), ev.CommitTx?)
  }

  /** Saves, revocations, relinking and re-encryption by everybody else, and the moment a
      host forgets a flight that is over. A save looks and writes at two moments; it waits
      for a refreshed row that is written but not committed and takes no other lock. */
  function WorldStep(g: Grant, s: State, ev: Event): State
    requires ByWorld(ev)
  {
    match ev
    case Forget(host, tokenType) =>
      var key := (host, tokenType);
      if key in s.live && s.IsFlight(s.live[key]) && s.flights[s.live[key]].phase.Over? then s.(live := s.live - {key}) else s
    case SaveLook(n, tokenType) => if n in s.saves then s else s.(saves := s.saves[n := PendingSave(tokenType, s.Row(tokenType))])
    case SaveWrite(n, active, account, data, amb) =>
      if n !in s.saves || s.saves[n].tokenType != data.tokenType || active !in g.ring.keys || RowWritten(s, data.tokenType) then s
      else
        (match Prepared(Encryptor(g.ring, active), s.saves[n].seen, g.id, account, data, amb)
         case Ok(token) => s.Put(token).(saves := s.saves - {n})
         case Err(_) => s.(saves := s.saves - {n}))
    case RevokeRows => s.(rows := map[])
    case Relink(account, grant) => if account in s.rowLocks then s else s.(accounts := s.accounts[account := grant])
    case Reencrypt(tokenType, c) =>
      if tokenType in s.rows && c != [] && Decrypt(g.ring, c).Ok?
         && Decrypt(g.ring, c) == Decrypt(g.ring, s.rows[tokenType].AccessCiphertext())
      then s.(rows := s.rows[tokenType := WithCiphertext(s.rows[tokenType], c)])
      else s
  }

  predicate RowWritten(s: State, tokenType: string) {
    exists f :: 0 <= f < |s.flights| && s.flights[f].phase.Written? && s.flights[f].phase.token.tokenType == tokenType
  }

  function Run(g: Grant, s: State, evs: seq<Event>): State {
    if evs == [] then s else Step(g, Run(g, s, evs[..|evs| - 1]), evs[|evs| - 1])
  }

  lemma RunOneMore(g: Grant, s0: State, evs: seq<Event>, m: nat)
    requires m < |evs|
    ensures Run(g, s0, evs[..m + 1]) == Step(g, Run(g, s0, evs[..m]), evs[m])
  {
    hide Step;
    assert evs[..m + 1][..m] == evs[..m];
  }

  // ------------------------------------------------------- safety over every run

  /** The grant lock has exactly the holder that thinks so. */
  ghost predicate LockAgrees(s: State) {
    forall f :: 0 <= f < |s.flights| ==> (s.flights[f].phase.HoldsGrant() <==> s.grantLock == Some(f))
  }

  ghost predicate LockInRange(s: State) {
    s.grantLock.Some? ==> s.IsFlight(s.grantLock.value)
  }

  ghost predicate StaleWhenChecked(g: Grant, s: State) {
    forall f :: 0 <= f < |s.flights| && s.flights[f].phase.Stale? ==>
      var phase := s.flights[f].phase;
      phase.checkedAt <= s.now && !FreshStored(Some(phase.stored), phase.checkedAt, g.window)
  }

  /** The provider was called by the lock holder, on a token stale at an earlier check. */
  ghost predicate CallGuarded(g: Grant, s: State, call: Call) {
    && s.IsFlight(call.flight) && call.holder == Some(call.flight)
    && call.checkedAt <= call.at <= s.now
    && !FreshStored(Some(call.stored), call.checkedAt, g.window)
    && RefreshMaterial(g.ring, call.stored, call.tokenType).Ok?
  }

  ghost predicate Safe(g: Grant, s: State) {
    && LockInRange(s) && LockAgrees(s) && StaleWhenChecked(g, s)
    && forall i :: 0 <= i < |s.calls| ==> CallGuarded(g, s, s.calls[i])
  }

  ghost predicate Initial(s: State) {
    s.flights == [] && s.live == map[] && s.callers == map[] && s.calls == [] && s.commits == [] && s.grantLock == None
  }

  lemma InitialIsSafe(g: Grant, s: State)
    requires Initial(s)
    ensures Safe(g, s)
  {}

  /** A phase change inside or outside the lock keeps the lock with its holder. */
  lemma PhaseSafe(g: Grant, s: State, f: nat, phase: Phase)
    requires Safe(g, s) && s.IsFlight(f)
    requires phase.HoldsGrant() <==> s.flights[f].phase.HoldsGrant()
    requires phase.Stale? ==> phase.checkedAt <= s.now && !FreshStored(Some(phase.stored), phase.checkedAt, g.window)
    ensures Safe(g, s.WithPhase(f, phase))
  {
    hide FreshStored, RefreshMaterial;
  }

  lemma EndSafe(g: Grant, s: State, f: nat, outcome: Outcome)
    requires Safe(g, s) && s.IsFlight(f)
    ensures Safe(g, s.End(f, outcome))
  {
    hide FreshStored, RefreshMaterial;
  }

  /** Safety looks only at flights, calls, the grant lock and the clock. */
  lemma FrameSafe(g: Grant, s: State, t: State)
    requires Safe(g, s)
    requires t.flights == s.flights && t.calls == s.calls && t.grantLock == s.grantLock && t.now >= s.now
    ensures Safe(g, t)
  {
    hide FreshStored, RefreshMaterial;
  }

  lemma AskSafe(g: Grant, s: State, t: State, f: nat)
    requires Safe(g, s) && s.IsFlight(f) && s.flights[f].phase.Stale?
    requires
      var me := s.flights[f];
      && RefreshMaterial(g.ring, me.phase.stored, me.tokenType).Ok?
      && t == s.WithPhase(f, Asked(me.phase.stored)).(
                calls := s.calls + [Call(f, me.tokenType, me.phase.stored, me.phase.checkedAt, s.now, s.grantLock)])
    ensures Safe(g, t)
  {
    hide FreshStored, RefreshMaterial;
  }

  lemma LockGrantSafe(g: Grant, s: State, f: nat)
    requires Safe(g, s) && s.IsFlight(f) && s.flights[f].phase.RowLocked? && s.grantLock.None?
    ensures Safe(g, s.WithPhase(f, Locked).(grantLock := Some(f)))
  {
    hide FreshStored, RefreshMaterial;
  }

  lemma JoinSafe(g: Grant, s: State, t: State, flight: Flight)
    requires Safe(g, s) && flight.phase.Begun?
    requires t.flights == s.flights + [flight] && t.calls == s.calls && t.grantLock == s.grantLock && t.now == s.now
    ensures Safe(g, t)
  {
    hide FreshStored, RefreshMaterial;
  }

  /** What the next phase says about the lock and the freshness check. */
  lemma NextPhaseSound(g: Grant, s: State, ev: Event)
    requires FlightEvent(ev) && s.IsFlight(ev.f)
    ensures
      var f, before, after := ev.f, s.flights[ev.f].phase, NextPhase(g, s, ev);
      && (after.Locked? && after != before ==> before.RowLocked? && s.grantLock.None?)
      && (after.Asked? && after != before ==>
           before.Stale? && after.stored == before.stored
           && RefreshMaterial(g.ring, before.stored, s.flights[f].tokenType).Ok?)
      && (after.Stale? && after != before ==>
           after.checkedAt == s.now && !FreshStored(Some(after.stored), after.checkedAt, g.window))
      && (!after.Over? && !after.Locked? ==> (after.HoldsGrant() <==> before.HoldsGrant()))
      && (before.Stale? && !ev.Ask? ==> !after.Asked?)
      && (before.Stale? && ev.Ask? ==> after == Over(FlightFailed(false)) || after == Asked(before.stored))
  {
    hide Prepared, RefreshMaterial, FreshStored, Linked;
  }

  lemma FlightStepSafe(g: Grant, s: State, ev: Event)
    requires Safe(g, s) && FlightEvent(ev) && s.IsFlight(ev.f)
    ensures Safe(g, FlightStep(g, s, ev))
  {
    NextPhaseSound(g, s, ev);
    hide Safe, NextPhase, RefreshMaterial, Publish, FreshStored;
    var f, before, after, t := ev.f, s.flights[ev.f].phase, NextPhase(g, s, ev), FlightStep(g, s, ev);
    if after == before {
    } else if after.Over? {
      EndSafe(g, s, f, after.outcome);
      if before.Written? {
        PublishTouches(s.End(f, after.outcome), f, before);
        FrameSafe(g, s.End(f, after.outcome), Publish(s.End(f, after.outcome), f, before));
      }
    } else if after.RowLocked? {
      PhaseSafe(g, s, f, after);
      FrameSafe(g, s.WithPhase(f, after), t);
    } else if after.Locked? {
      LockGrantSafe(g, s, f);
    } else if after.Asked? {
      AskSafe(g, s, t, f);
    } else {
      PhaseSafe(g, s, f, after);
    }
  }

  // What the steps of each kind leave alone.

  lemma CallerTouches(g: Grant, s: State, ev: Event)
    requires ByCaller(ev)
    ensures
      var t := CallerStep(g, s, ev);
      && t == s.(callers := t.callers, flights := t.flights, live := t.live)
      && (t.flights == s.flights ||
          (|t.flights| == |s.flights| + 1 && t.flights[..|s.flights|] == s.flights && t.flights[|s.flights|].phase == Begun))
  {
    hide NextStage, Linked;
  }

  lemma SaveWriteTouches(g: Grant, s: State, ev: Event)
    requires ev.SaveWrite?
    ensures
      var t := WorldStep(g, s, ev);
      t == s.(rows := t.rows, scopes := t.scopes, saves := t.saves)
  {
    hide Prepared, Upserted, Decrypt, RowWritten, ScopesPut, State.Row;
  }

  lemma WorldTouches(g: Grant, s: State, ev: Event)
    requires ByWorld(ev)
    ensures
      var t := WorldStep(g, s, ev);
      t == s.(rows := t.rows, scopes := t.scopes, accounts := t.accounts, saves := t.saves, live := t.live)
  {
    if ev.SaveWrite? {
      SaveWriteTouches(g, s, ev);
      hide WorldStep;
    }
    hide Prepared, State.Put, Decrypt, RowWritten, State.Row;
  }

  lemma PublishTouches(s: State, f: nat, written: Phase)
    requires written.Written?
    ensures
      var t := Publish(s, f, written);
      t == s.(rows := t.rows, scopes := t.scopes, commits := t.commits) && s.commits <= t.commits
  {
    hide Upserted;
  }

  lemma EnterQuiet(s: State, f: nat, after: Phase, commits: bool)
    requires s.IsFlight(f) && !(commits && s.flights[f].phase.Written?)
    ensures
      var t := Enter(s, f, after, commits);
      && t == s.(flights := t.flights, rowLocks := t.rowLocks, grantLock := t.grantLock, calls := t.calls)
      && t.flights == s.flights[f := s.flights[f].(phase := after)]
      && (after.RowLocked? ==> t.grantLock == s.grantLock)
      && t.calls == Logged(s, f, after)
      && (after == s.flights[f].phase ==> t == s)
  {
    hide Publish;
    var me := s.flights[f];
    if after == me.phase {
      assert s.flights[f := me.(phase := after)] == s.flights && Logged(s, f, after) == s.calls;
    } else if after.Over? {
      assert Logged(s, f, after) == s.calls;
      EndTouches(s, f, after.outcome);
      hide State.End;
    }
  }

  lemma EndTouches(s: State, f: nat, outcome: Outcome)
    requires s.IsFlight(f)
    ensures
      var t := s.End(f, outcome);
      t == s.(flights := s.flights[f := s.flights[f].(phase := Over(outcome))], rowLocks := t.rowLocks, grantLock := t.grantLock)
  {}

  lemma EnterPublishes(s: State, f: nat, after: Phase)
    requires s.IsFlight(f) && s.flights[f].phase.Written? && after.Over?
    ensures
      var t, written := Enter(s, f, after, true), s.flights[f].phase;
      var tt := written.token.tokenType;
      var row, scopes := Upserted(s.Row(tt), written.token), ScopesPut(s.scopes, written.token);
      && t == s.(rows := s.rows[tt := row], scopes := scopes,
                 commits := s.commits + [Commit(f, tt, WithScopes(row, scopes), written.data, written.accessAt)],
                 flights := s.flights[f := s.flights[f].(phase := after)],
                 rowLocks := t.rowLocks, grantLock := t.grantLock)
  {
    hide Upserted;
    assert Enter(s, f, after, true) == Publish(s.End(f, after.outcome), f, s.flights[f].phase);
  }

  lemma StepSafe(g: Grant, s: State, ev: Event)
    requires Safe(g, s)
    ensures Safe(g, Step(g, s, ev))
  {
    hide Safe, CallerStep, WorldStep, FlightStep;
    var t := Step(g, s, ev);
    if ev.Tick? {
      FrameSafe(g, s, t);
    } else if ByCaller(ev) {
      CallerTouches(g, s, ev);
      if t.flights == s.flights {
        FrameSafe(g, s, t);
      } else {
        JoinSafe(g, s, t, t.flights[|s.flights|]);
      }
    } else if ByWorld(ev) {
      WorldTouches(g, s, ev);
      FrameSafe(g, s, t);
    } else if s.IsFlight(ev.f) {
      FlightStepSafe(g, s, ev);
    }
  }

  /** In every run, with saves, revocations and relinking anywhere in it, at most one
      flight is inside the grant lock, and the provider is called only by the lock holder
      on a token that was stale at an earlier check. That it is the stored token, looked at
      inside the lock, is the subject of RenewLock. */
  lemma {:induction false} EveryRunSafe(g: Grant, s: State, evs: seq<Event>)
    requires Safe(g, s)
    ensures Safe(g, Run(g, s, evs))
  {
    if evs != [] {
      EveryRunSafe(g, s, evs[..|evs| - 1]);
      StepSafe(g, Run(g, s, evs[..|evs| - 1]), evs[|evs| - 1]);
    }
  }

  // ------------------------------------------- the protocol and the single refresh

  /** The steps of one flight with nobody else moving; steps that do not apply are idle,
      and the last one rolls back what is still open. */
  function Before(g: Grant, s: State, f: nat): State {
    Step(g, Step(g, Step(g, Step(g, Step(g, s, LockRow(f)), LockGrant(f)), Look(f)), Decide(f)), Ask(f))
  }

  function After(g: Grant, s: State, f: nat, reply: Reply, active: KeyId, amb: Ambient): State {
    Step(g, Step(g, Step(g, Step(g, Step(g, s, Answer(f, reply)), Write(f, active, amb)), Mark(f)), CommitTx(f, true)), Abort(f))
  }

  /** A database whose rows and scopes for this grant are those of the state. */
  ghost predicate SameRows(g: Grant, s: State, db: Db) {
    ScopesOf(db, g.id) == s.scopes && forall tt :: Find(db, g.id, tt) == s.Row(tt)
  }

  predicate UndisturbedEnv(g: Grant, s: State, env: Env) {
    && env.beginOk && env.lockedGrant == Some(g.id) && env.lockOk && env.findOk && env.freshAt == s.now
    && env.markOk && env.saveOk && env.statusTxOk && env.commit.Acknowledged?
  }

  /** A flight event is exactly the entry into its next phase. */
  lemma StepEnters(g: Grant, s: State, ev: Event)
    requires FlightEvent(ev) && s.IsFlight(ev.f)
    ensures Step(g, s, ev) == Enter(s, ev.f, NextPhase(g, s, ev), ev.CommitTx?)
  {
    hide NextPhase, CallerStep, WorldStep, Enter;
  }

  lemma StepOfFlight(g: Grant, s: State, ev: Event)
    requires FlightEvent(ev) && s.IsFlight(ev.f)
    ensures Step(g, s, ev) == FlightStep(g, s, ev)
  {
    hide CallerStep, WorldStep, FlightStep;
  }

  lemma StepPublishes(g: Grant, s: State, f: nat, acknowledged: bool)
    requires s.IsFlight(f) && s.flights[f].phase.Written?
    ensures
      var t, written := Step(g, s, CommitTx(f, acknowledged)), s.flights[f].phase;
      var tt := written.token.tokenType;
      var row, scopes := Upserted(s.Row(tt), written.token), ScopesPut(s.scopes, written.token);
      && t == s.(rows := s.rows[tt := row], scopes := scopes,
                 commits := s.commits + [Commit(f, tt, WithScopes(row, scopes), written.data, written.accessAt)],
                 flights := s.flights[f := s.flights[f].(phase := Committed(acknowledged))],
                 rowLocks := t.rowLocks, grantLock := t.grantLock)
  {
    StepEnters(g, s, CommitTx(f, acknowledged));
    EnterPublishes(s, f, Committed(acknowledged));
    hide Step, Enter, Upserted, RefreshMaterial, FreshStored, Prepared, Linked;
  }

  lemma StepQuiet(g: Grant, s: State, ev: Event)
    requires FlightEvent(ev) && s.IsFlight(ev.f)
    requires !(ev.CommitTx? && s.flights[ev.f].phase.Written?)
    ensures
      var t, after := Step(g, s, ev), NextPhase(g, s, ev);
      && t == s.(flights := s.flights[ev.f := s.flights[ev.f].(phase := after)],
                 rowLocks := t.rowLocks, grantLock := t.grantLock, calls := t.calls)
      && (after.RowLocked? ==> t.grantLock == s.grantLock)
      && t.calls == Logged(s, ev.f, after)
      && (after == s.flights[ev.f].phase ==> t == s)
  {
    StepEnters(g, s, ev);
    EnterQuiet(s, ev.f, NextPhase(g, s, ev), ev.CommitTx?);
    hide Step, NextPhase, Enter, Logged;
  }

  /** What one step does to the flights. */
  lemma StepFlights(g: Grant, s: State, ev: Event)
    ensures
      var more := Step(g, s, ev).flights;
      if ByCaller(ev) then
        more == s.flights || (|more| == |s.flights| + 1 && more[..|s.flights|] == s.flights && more[|s.flights|].phase == Begun)
      else if FlightEvent(ev) && s.IsFlight(ev.f) then
        more == s.flights[ev.f := s.flights[ev.f].(phase :=
          if ev.CommitTx? && s.flights[ev.f].phase.Written? then Committed(ev.acknowledged) else NextPhase(g, s, ev))]
      else more == s.flights
  {
    hide NextPhase, Logged;
    if ByCaller(ev) {
      CallerTouches(g, s, ev);
      hide CallerStep;
    } else if ByWorld(ev) {
      WorldTouches(g, s, ev);
      hide WorldStep;
    } else if FlightEvent(ev) && s.IsFlight(ev.f) {
      if ev.CommitTx? && s.flights[ev.f].phase.Written? {
        StepPublishes(g, s, ev.f, ev.acknowledged);
      } else {
        StepQuiet(g, s, ev);
      }
      hide Step;
    }
  }

  lemma SoloLooks(g: Grant, s: State, f: nat)
    requires s.IsFlight(f) && s.flights[f].phase.Begun? && s.grantLock.None?
    requires s.flights[f].account !in s.rowLocks && Linked(g, s, s.flights[f].account)
    ensures
      var me, t := s.flights[f], Step(g, Step(g, Step(g, s, LockRow(f)), LockGrant(f)), Look(f));
      && t.rows == s.rows && t.scopes == s.scopes && t.now == s.now && t.IsFlight(f)
      && t.flights[f] == me.(phase := Looked(s.Row(me.tokenType)))
  {
    hide Step, FlightStep, FreshStored, RefreshMaterial, Linked, Logged, Prepared;
    StepQuiet(g, s, LockRow(f));
    var s1 := Step(g, s, LockRow(f));
    StepQuiet(g, s1, LockGrant(f));
    StepQuiet(g, Step(g, s1, LockGrant(f)), Look(f));
  }

  /** Up to the provider call, an undisturbed flight decides like the single refresh: it
      asks exactly when the refresh does, and otherwise it is over with the same verdict. */
  lemma SoloBefore(g: Grant, s: State, f: nat)
    requires s.IsFlight(f) && s.flights[f].phase.Begun? && s.grantLock.None?
    requires s.flights[f].account !in s.rowLocks && Linked(g, s, s.flights[f].account)
    ensures
      var me, t, stored := s.flights[f], Before(g, s, f), s.Row(s.flights[f].tokenType);
      && t.rows == s.rows && t.scopes == s.scopes && t.IsFlight(f) && t.flights[f].(phase := Begun) == me
      && t.flights[f].phase ==
         if FreshStored(stored, s.now, g.window) then Over(FreshAlready)
         else if stored.None? || RefreshMaterial(g.ring, stored.value, me.tokenType).Err? then Over(FlightFailed(false))
         else Asked(stored.value)
  {
    hide Step, FlightStep, FreshStored, RefreshMaterial, Linked, Logged, Prepared;
    SoloLooks(g, s, f);
    var s3 := Step(g, Step(g, Step(g, s, LockRow(f)), LockGrant(f)), Look(f));
    StepQuiet(g, s3, Decide(f));
    StepQuiet(g, Step(g, s3, Decide(f)), Ask(f));
  }

  /** The phases an answered flight passes through before its commit. */
  lemma SoloWrites(g: Grant, s: State, f: nat, reply: Reply, active: KeyId, amb: Ambient)
    requires s.IsFlight(f) && active in g.ring.keys
    requires s.flights[f].phase.Over? || s.flights[f].phase.Asked?
    ensures
      var me := s.flights[f];
      var t := Step(g, Step(g, Step(g, s, Answer(f, reply)), Write(f, active, amb)), Mark(f));
      && t.rows == s.rows && t.scopes == s.scopes && t.IsFlight(f)
      && (me.phase.Over? ==> t.flights[f].phase.Over?)
      && (me.phase.Asked? ==>
           if reply.Issued? && Prepared(Encryptor(g.ring, active), Some(me.phase.stored), g.id, me.account, reply.data, amb).Ok? then
             t.flights[f].phase ==
               Written(Prepared(Encryptor(g.ring, active), Some(me.phase.stored), g.id, me.account, reply.data, amb).value,
                       me.phase.stored, reply.data, amb.accessAt)
           else !t.flights[f].phase.Written?)
  {
    hide Step, Prepared, Upserted, Logged;
    StepQuiet(g, s, Answer(f, reply));
    var s1 := Step(g, s, Answer(f, reply));
    StepQuiet(g, s1, Write(f, active, amb));
    var s2 := Step(g, s1, Write(f, active, amb));
    StepQuiet(g, s2, Mark(f));
  }

  /** The end of a flight: the written row appears, or nothing does. */
  lemma SoloEnds(g: Grant, s: State, f: nat)
    requires s.IsFlight(f)
    ensures
      var t := Step(g, Step(g, s, CommitTx(f, true)), Abort(f));
      if s.flights[f].phase.Written? then
        var token := s.flights[f].phase.token;
        t.rows == s.Put(token).rows && t.scopes == s.Put(token).scopes
      else t.rows == s.rows && t.scopes == s.scopes
  {
    hide Step, Upserted, NextPhase, Logged;
    if s.flights[f].phase.Written? {
      StepPublishes(g, s, f, true);
    } else {
      StepQuiet(g, s, CommitTx(f, true));
    }
    StepQuiet(g, Step(g, s, CommitTx(f, true)), Abort(f));
  }

  lemma SoloAfter(g: Grant, s: State, f: nat, reply: Reply, active: KeyId, amb: Ambient)
    requires s.IsFlight(f) && active in g.ring.keys
    requires s.flights[f].phase.Over? || s.flights[f].phase.Asked?
    ensures s.flights[f].phase.Over? ==> After(g, s, f, reply, active, amb).rows == s.rows && After(g, s, f, reply, active, amb).scopes == s.scopes
    ensures s.flights[f].phase.Asked? ==>
      var me, t := s.flights[f], After(g, s, f, reply, active, amb);
      if reply.Issued? && Prepared(Encryptor(g.ring, active), Some(me.phase.stored), g.id, me.account, reply.data, amb).Ok? then
        var token := Prepared(Encryptor(g.ring, active), Some(me.phase.stored), g.id, me.account, reply.data, amb).value;
        t.rows == s.Put(token).rows && t.scopes == s.Put(token).scopes
      else t.rows == s.rows && t.scopes == s.scopes
  {
    hide Step, Prepared, Upserted;
    SoloWrites(g, s, f, reply, active, amb);
    SoloEnds(g, Step(g, Step(g, Step(g, s, Answer(f, reply)), Write(f, active, amb)), Mark(f)), f);
  }

  /** The rows and scopes after a single refresh with nothing in its way. */
  lemma SingleRefreshPuts(e: Encryptor, db: Db, account: int, tokenType: string, refresher: Bytes -> Reply,
                          grant: int, window: int, env: Env)
    requires e.Valid()
    requires env.saveOk && env.statusTxOk && env.commit.Acknowledged?
    ensures
      var x := Refresh(e, Caps(true, true, true), db, account, tokenType, refresher, grant, window, env);
      var stored := Find(db, grant, tokenType);
      if x.called.Some? && refresher(x.called.value).Issued?
         && Prepared(e, stored, grant, account, refresher(x.called.value).data, env.amb).Ok? then
        var after := Apply(db, PutToken(Prepared(e, stored, grant, account, refresher(x.called.value).data, env.amb).value));
        x.db.rows == after.rows && x.db.scopes == after.scopes
      else x.db.rows == db.rows && x.db.scopes == db.scopes
  {
    hide Prepared, FreshStored, RefreshMaterial, Upserted, ScopesOf;
  }

  lemma SameRowsPut(g: Grant, s: State, db: Db, token: Token)
    requires SameRows(g, s, db) && token.grant == g.id
    ensures SameRows(g, s.Put(token), Apply(db, PutToken(token)))
  {
    hide Upserted;
    var t, after := s.Put(token), Apply(db, PutToken(token));
    assert ScopesOf(after, g.id) == t.scopes;
    forall tt
      ensures Find(after, g.id, tt) == t.Row(tt)
    {
      assert Find(db, g.id, tt) == s.Row(tt);
    }
  }

  /** Only rows and scopes matter. */
  lemma SameRowsFrame(g: Grant, s: State, t: State, db: Db, db': Db)
    requires SameRows(g, s, db)
    requires t.rows == s.rows && t.scopes == s.scopes && db'.rows == db.rows && db'.scopes == db.scopes
    ensures SameRows(g, t, db')
  {
    forall tt
      ensures Find(db', g.id, tt) == t.Row(tt)
    {
      assert Find(db, g.id, tt) == s.Row(tt);
    }
  }

  /** An undisturbed flight leaves rows and scopes exactly as the single refresh does. */
  lemma SoloRefines(g: Grant, s: State, f: nat, db: Db, refresher: Bytes -> Reply, active: KeyId, env: Env)
    requires s.IsFlight(f) && s.flights[f].phase.Begun? && s.grantLock.None?
    requires s.flights[f].account !in s.rowLocks && Linked(g, s, s.flights[f].account)
    requires active in g.ring.keys && SameRows(g, s, db) && UndisturbedEnv(g, s, env)
    ensures
      var me := s.flights[f];
      var x := Refresh(Encryptor(g.ring, active), Caps(true, true, true), db, me.account, me.tokenType, refresher,
                       g.id, g.window, env);
      var reply := if x.called.Some? then refresher(x.called.value) else ProviderFailed;
      SameRows(g, After(g, Before(g, s, f), f, reply, active, env.amb), x.db)
  {
    var me := s.flights[f];
    var e := Encryptor(g.ring, active);
    var x := Refresh(e, Caps(true, true, true), db, me.account, me.tokenType, refresher, g.id, g.window, env);
    var reply := if x.called.Some? then refresher(x.called.value) else ProviderFailed;
    assert Find(db, g.id, me.tokenType) == s.Row(me.tokenType);
    CalledByDecision(e, Caps(true, true, true), db, me.account, me.tokenType, refresher, g.id, g.window, env);
    SingleRefreshPuts(e, db, me.account, me.tokenType, refresher, g.id, g.window, env);
    SoloBefore(g, s, f);
    var t := Before(g, s, f);
    SoloAfter(g, t, f, reply, active, env.amb);
    hide Before, After, Prepared, FreshStored, RefreshMaterial, Refresh, SameRows, Apply, State.Put;
    var stored := s.Row(me.tokenType);
    SameRowsFrame(g, s, t, db, db);
    if x.called.Some? && reply.Issued? && Prepared(e, stored, g.id, me.account, reply.data, env.amb).Ok? {
      var token := Prepared(e, stored, g.id, me.account, reply.data, env.amb).value;
      SameRowsPut(g, t, db, token);
      SameRowsFrame(g, t.Put(token), After(g, t, f, reply, active, env.amb), Apply(db, PutToken(token)), x.db);
    } else {
      SameRowsFrame(g, t, After(g, t, f, reply, active, env.amb), db, x.db);
    }
  }
}
