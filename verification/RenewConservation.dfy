/** What becomes of the refresh token when saves and refreshes overlap: both look at a row
    first and write later, and what they carry over is what they saw. */
module RenewConservation {
  import opened Common
  import opened Envelope
  import opened TokenMerge
  import opened GrantRefresh
  import Lazy = LazyReencrypt
  import GrantHistory
  import opened RenewProtocol

  function RefreshOf(row: Option<Token>): Bytes {
    if row.Some? then row.value.encryptedRefresh else []
  }

  function TextOf(ring: Keyring, ciphertext: Bytes): Option<Bytes> {
    match Decrypt(ring, ciphertext)
    case Ok(text) => Some(text)
    case Err(_) => None
  }

  /** The refresh token that the stored row of this type holds. */
  function Stored(g: Grant, s: State, tt: string): Option<Bytes> { TextOf(g.ring, RefreshOf(s.Row(tt))) }

  /** A write that becomes visible: to which type, merged over what, from which data. */
  datatype Shown = Shown(tokenType: string, seen: Option<Token>, data: TokenData)

  function Visible(g: Grant, s: State, ev: Event): Option<Shown> {
    if ev.SaveWrite? then
      if ev.n in s.saves && s.saves[ev.n].tokenType == ev.data.tokenType && ev.active in g.ring.keys
         && !RowWritten(s, ev.data.tokenType)
         && Prepared(Encryptor(g.ring, ev.active), s.saves[ev.n].seen, g.id, ev.account, ev.data, ev.amb).Ok?
      then Some(Shown(ev.data.tokenType, s.saves[ev.n].seen, ev.data))
      else None
    else if ev.CommitTx? && s.IsFlight(ev.f) && s.flights[ev.f].phase.Written? then
      var phase := s.flights[ev.f].phase;
      Some(Shown(phase.token.tokenType, Some(phase.over), phase.data))
    else None
  }

  // ------------------------------------------------------------ what a write carries over

  /** The refresh ciphertext of a merged row: a new one, or what was seen. */
  ghost predicate Carries(ring: Keyring, token: Token, seen: Option<Token>, data: TokenData) {
    && token.tokenType == data.tokenType
    && (data.refreshToken != [] ==>
         token.encryptedRefresh != [] && TextOf(ring, token.encryptedRefresh) == Some(data.refreshToken))
    && (data.refreshToken == [] ==>
         token.encryptedRefresh == RefreshOf(seen) && (RefreshOf(seen) != [] ==> TextOf(ring, RefreshOf(seen)).Some?))
  }

  lemma PreparedCarries(e: Encryptor, seen: Option<Token>, grant: int, account: int, data: TokenData, amb: Ambient)
    requires e.Valid() && e.ring.aead.Sound() && Prepared(e, seen, grant, account, data, amb).Ok?
    ensures Carries(e.ring, Prepared(e, seen, grant, account, data, amb).value, seen, data)
  {
    if data.refreshToken != [] {
      EncryptedReadable(e, amb.refreshNonce.value, data.refreshToken);
    }
    hide Encrypted, Decrypt, NonBlank;
  }

  /** Every written row carries what its flight saw. */
  ghost predicate AllCarry(g: Grant, flights: seq<Flight>) {
    forall f :: 0 <= f < |flights| && flights[f].phase.Written? ==>
      Carries(g.ring, flights[f].phase.token, Some(flights[f].phase.over), flights[f].phase.data)
  }

  lemma NextPhaseCarries(g: Grant, s: State, ev: Event)
    requires g.ring.aead.Sound() && FlightEvent(ev) && s.IsFlight(ev.f)
    ensures
      var after := NextPhase(g, s, ev);
      after.Written? && after != s.flights[ev.f].phase ==> Carries(g.ring, after.token, Some(after.over), after.data)
  {
    var me := s.flights[ev.f];
    if ev.Write? && me.phase.Answered? && me.phase.reply.Issued? && ev.active in g.ring.keys {
      var e := Encryptor(g.ring, ev.active);
      if Prepared(e, Some(me.phase.stored), g.id, me.account, me.phase.reply.data, ev.amb).Ok? {
        PreparedCarries(e, Some(me.phase.stored), g.id, me.account, me.phase.reply.data, ev.amb);
      }
    }
    hide Carries, Prepared, RefreshMaterial, FreshStored, Linked;
  }

  lemma MoreFlightsCarry(g: Grant, flights: seq<Flight>, more: seq<Flight>)
    requires AllCarry(g, flights)
    requires more == flights || (|more| == |flights| + 1 && more[..|flights|] == flights && more[|flights|].phase == Begun)
    ensures AllCarry(g, more)
  {
    hide Carries;
    assert forall f :: 0 <= f < |flights| && more != flights ==> more[f] == more[..|flights|][f];
  }

  lemma StepCarries(g: Grant, s: State, ev: Event)
    requires g.ring.aead.Sound() && AllCarry(g, s.flights)
    ensures AllCarry(g, Step(g, s, ev).flights)
  {
    hide CallerStep, WorldStep, FlightStep, NextPhase, Carries, Logged;
    if ByCaller(ev) {
      CallerTouches(g, s, ev);
      var t := CallerStep(g, s, ev);
      MoreFlightsCarry(g, s.flights, t.flights);
      hide AllCarry;
    } else if ByWorld(ev) {
      WorldTouches(g, s, ev);
    } else if !ev.Tick? && s.IsFlight(ev.f) {
      if ev.CommitTx? && s.flights[ev.f].phase.Written? {
        StepPublishes(g, s, ev.f, ev.acknowledged);
      } else {
        NextPhaseCarries(g, s, ev);
        StepQuiet(g, s, ev);
      }
      hide Step;
    }
  }

  lemma {:induction false} RunCarries(g: Grant, s: State, evs: seq<Event>)
    requires g.ring.aead.Sound() && AllCarry(g, s.flights)
    ensures AllCarry(g, Run(g, s, evs).flights)
  {
    hide Step;
    if evs != [] {
      RunCarries(g, s, evs[..|evs| - 1]);
      StepCarries(g, Run(g, s, evs[..|evs| - 1]), evs[|evs| - 1]);
    }
  }

  /** What one event does to the refresh ciphertexts of the rows. */
  lemma StepRefresh(g: Grant, s: State, ev: Event, tt: string)
    requires g.ring.aead.Sound() && AllCarry(g, s.flights)
    ensures
      var before, after := RefreshOf(s.Row(tt)), RefreshOf(Step(g, s, ev).Row(tt));
      var write := Visible(g, s, ev);
      if ev.RevokeRows? then after == []
      else if write.None? || write.value.tokenType != tt then after == before
      else if write.value.data.refreshToken != [] then TextOf(g.ring, after) == Some(write.value.data.refreshToken)
      else
        && after == (if RefreshOf(write.value.seen) != [] then RefreshOf(write.value.seen) else before)
        && (RefreshOf(write.value.seen) != [] ==> TextOf(g.ring, RefreshOf(write.value.seen)).Some?)
  {
    if ByWorld(ev) {
      WorldRefresh(g, s, ev, tt);
      hide *;
      StepOfWorld(g, s, ev);
    } else if !ev.Tick? && !ByCaller(ev) && s.IsFlight(ev.f) && ev.CommitTx? && s.flights[ev.f].phase.Written? {
      hide Step, TextOf, RefreshOf, Carries, AllCarry, Visible;
      CommitRefresh(g, s, ev, tt);
    } else {
      hide TextOf, RefreshOf, AllCarry;
      OthersKeepRows(g, s, ev);
      hide Step;
    }
  }

  lemma OthersKeepRows(g: Grant, s: State, ev: Event)
    requires !ByWorld(ev)
    requires !(ev.CommitTx? && s.IsFlight(ev.f) && s.flights[ev.f].phase.Written?)
    ensures Step(g, s, ev).rows == s.rows
  {
    if ByCaller(ev) {
      CallerTouches(g, s, ev);
      hide CallerStep;
    } else if !ev.Tick? && s.IsFlight(ev.f) {
      StepQuiet(g, s, ev);
      hide Step, NextPhase, Logged;
    }
  }

  lemma CommitRefresh(g: Grant, s: State, ev: Event, tt: string)
    requires AllCarry(g, s.flights)
    requires ev.CommitTx? && s.IsFlight(ev.f) && s.flights[ev.f].phase.Written?
    ensures
      var before, after := RefreshOf(s.Row(tt)), RefreshOf(Step(g, s, ev).Row(tt));
      var write := Visible(g, s, ev).value;
      if write.tokenType != tt then after == before
      else if write.data.refreshToken != [] then TextOf(g.ring, after) == Some(write.data.refreshToken)
      else
        && after == (if RefreshOf(write.seen) != [] then RefreshOf(write.seen) else before)
        && (RefreshOf(write.seen) != [] ==> TextOf(g.ring, RefreshOf(write.seen)).Some?)
  {
    StepPublishes(g, s, ev.f, ev.acknowledged);
    hide Step, TextOf, Committed;
  }

  lemma StepOfWorld(g: Grant, s: State, ev: Event)
    requires ByWorld(ev)
    ensures Step(g, s, ev) == WorldStep(g, s, ev)
  {
    hide WorldStep, CallerStep, FlightStep;
  }

  lemma WorldRefresh(g: Grant, s: State, ev: Event, tt: string)
    requires g.ring.aead.Sound() && ByWorld(ev)
    ensures
      var before, after := RefreshOf(s.Row(tt)), RefreshOf(WorldStep(g, s, ev).Row(tt));
      var write := Visible(g, s, ev);
      if ev.RevokeRows? then after == []
      else if write.None? || write.value.tokenType != tt then after == before
      else if write.value.data.refreshToken != [] then TextOf(g.ring, after) == Some(write.value.data.refreshToken)
      else
        && after == (if RefreshOf(write.value.seen) != [] then RefreshOf(write.value.seen) else before)
        && (RefreshOf(write.value.seen) != [] ==> TextOf(g.ring, RefreshOf(write.value.seen)).Some?)
  {
    if Visible(g, s, ev).Some? {
      PreparedCarries(Encryptor(g.ring, ev.active), s.saves[ev.n].seen, g.id, ev.account, ev.data, ev.amb);
    }
    hide Prepared, Decrypt, TextOf, RowWritten;
  }

  // -------------------------------------------------------------------- over whole runs

  /** The last refresh token that a visible write of this type supplied; none after a
      revocation. */
  function LastShown(g: Grant, s: State, evs: seq<Event>, tt: string): Option<Bytes> {
    if evs == [] then Stored(g, s, tt)
    else
      var front, ev := evs[..|evs| - 1], evs[|evs| - 1];
      var write := Visible(g, Run(g, s, front), ev);
      if ev.RevokeRows? then None
      else if write.Some? && write.value.tokenType == tt && write.value.data.refreshToken != [] then
        Some(write.value.data.refreshToken)
      else LastShown(g, s, front, tt)
  }

  /** A write of this type that supplies no refresh token has seen none, or the one that
      the row holds at this moment. */
  ghost predicate Current(g: Grant, s: State, ev: Event, tt: string) {
    var write := Visible(g, s, ev);
    !ev.RevokeRows? && write.Some? && write.value.tokenType == tt && write.value.data.refreshToken == [] ==>
      var seen := TextOf(g.ring, RefreshOf(write.value.seen));
      seen.None? || seen == Stored(g, s, tt)
  }

  lemma ShownStep(g: Grant, s: State, evs: seq<Event>, n: nat, tt: string)
    requires g.ring.aead.Sound() && AllCarry(g, s.flights) && n < |evs|
    ensures
      var before, after := Run(g, s, evs[..n]), Run(g, s, evs[..n + 1]);
      Stored(g, before, tt) == LastShown(g, s, evs[..n], tt) ==>
        (Stored(g, after, tt) == LastShown(g, s, evs[..n + 1], tt) <==> Current(g, before, evs[n], tt))
  {
    hide Step, Visible, AllCarry;
    var before := Run(g, s, evs[..n]);
    assert evs[..n + 1][..n] == evs[..n];
    RunCarries(g, s, evs[..n]);
    StepRefresh(g, before, evs[n], tt);
    NoText(g.ring);
    hide Run, RefreshOf, TextOf;
  }

  lemma NoText(ring: Keyring)
    ensures TextOf(ring, []) == None
  {}

  lemma {:induction false} ShownWhileCurrent(g: Grant, s: State, evs: seq<Event>, n: nat, tt: string)
    requires g.ring.aead.Sound() && AllCarry(g, s.flights) && n <= |evs|
    requires forall k :: 0 <= k < n ==> Current(g, Run(g, s, evs[..k]), evs[k], tt)
    ensures Stored(g, Run(g, s, evs[..n]), tt) == LastShown(g, s, evs[..n], tt)
  {
    hide Step, Visible, AllCarry, Current, Stored;
    if n > 0 {
      ShownWhileCurrent(g, s, evs, n - 1, tt);
      ShownStep(g, s, evs, n - 1, tt);
    }
  }

  /** In every interleaving of saves, refreshes, revocations and readers the stored refresh
      token is at every moment the last one supplied, exactly when every write that
      supplies none has seen none or the one that is there when it becomes visible. */
  lemma LastShownExactly(g: Grant, s: State, evs: seq<Event>, tt: string)
    requires g.ring.aead.Sound() && AllCarry(g, s.flights)
    ensures (forall n :: 0 <= n <= |evs| ==> Stored(g, Run(g, s, evs[..n]), tt) == LastShown(g, s, evs[..n], tt))
            <==> (forall n :: 0 <= n < |evs| ==> Current(g, Run(g, s, evs[..n]), evs[n], tt))
  {
    hide Run, LastShown, AllCarry, Current, Stored;
    if forall n :: 0 <= n <= |evs| ==> Stored(g, Run(g, s, evs[..n]), tt) == LastShown(g, s, evs[..n], tt) {
      forall n | 0 <= n < |evs|
        ensures Current(g, Run(g, s, evs[..n]), evs[n], tt)
      {
        ShownStep(g, s, evs, n, tt);
      }
    }
    if forall n :: 0 <= n < |evs| ==> Current(g, Run(g, s, evs[..n]), evs[n], tt) {
      forall n | 0 <= n <= |evs| {
        ShownWhileCurrent(g, s, evs, n, tt);
      }
    }
  }

  /** While a refreshed row is written and not committed, a save of its type waits: it
      neither writes nor gives up. */
  lemma SavesWait(g: Grant, s: State, f: nat, ev: Event)
    requires s.IsFlight(f) && s.flights[f].phase.Written? && ev.SaveWrite? && ev.data.tokenType == s.flights[f].phase.token.tokenType
    ensures Step(g, s, ev) == s && Visible(g, s, ev) == None
  {
    hide Prepared, State.Put;
    assert RowWritten(s, ev.data.tokenType);
  }

  /** Data of this type with this refresh token and nothing else. */
  function Bare(tt: string, refresh: Bytes): TokenData { TokenData([], refresh, "", tt, 0, 0, []) }

  /** A save that has looked writes: what becomes of the stored refresh token. */
  lemma SaveReplaces(g: Grant, s: State, n: nat, active: KeyId, nonce: Nonce, data: TokenData)
    requires g.ring.aead.Sound() && active in g.ring.keys && s.flights == []
    requires n in s.saves && s.saves[n].tokenType == data.tokenType
    requires TextOf(g.ring, RefreshOf(s.saves[n].seen)).Some?
    ensures
      var ev := SaveWrite(n, active, 0, data, Ambient(true, 1, 1, 1, Some(nonce), Some(nonce)));
      var t := Step(g, s, ev);
      && Visible(g, s, ev) == Some(Shown(data.tokenType, s.saves[n].seen, data))
      && t.flights == [] && t.saves == s.saves - {n}
      && Stored(g, t, data.tokenType) ==
         if data.refreshToken != [] then Some(data.refreshToken) else TextOf(g.ring, RefreshOf(s.saves[n].seen))
  {
    var ev := SaveWrite(n, active, 0, data, Ambient(true, 1, 1, 1, Some(nonce), Some(nonce)));
    NoText(g.ring);
    assert !RowWritten(s, data.tokenType);
    hide Encrypted, Decrypt, NonBlank;
    StepRefresh(g, s, ev, data.tokenType);
    hide Prepared, Upserted, ScopesPut, RefreshOf, TextOf;
  }

  lemma ShownOneMore(g: Grant, s: State, evs: seq<Event>, ev: Event, tt: string)
    ensures Run(g, s, evs + [ev]) == Step(g, Run(g, s, evs), ev)
    ensures
      var write := Visible(g, Run(g, s, evs), ev);
      !ev.RevokeRows? ==>
        LastShown(g, s, evs + [ev], tt) ==
          if write.Some? && write.value.tokenType == tt && write.value.data.refreshToken != [] then Some(write.value.data.refreshToken)
          else LastShown(g, s, evs, tt)
  {
    hide Step, Visible;
    assert (evs + [ev])[..|evs|] == evs;
  }

  /** Two saves look, one after the other. */
  lemma BothLook(g: Grant, s: State, tt: string)
    requires s.saves == map[]
    ensures
      var looks := [SaveLook(1, tt), SaveLook(2, tt)];
      && Run(g, s, looks) == s.(saves := map[1 := PendingSave(tt, s.Row(tt)), 2 := PendingSave(tt, s.Row(tt))])
      && LastShown(g, s, looks, tt) == Stored(g, s, tt)
  {
    hide Stored;
    var p := PendingSave(tt, s.Row(tt));
    assert s.saves[1 := p][2 := p] == map[1 := p, 2 := p];
    ShownOneMore(g, s, [], SaveLook(1, tt), tt);
    ShownOneMore(g, s, [SaveLook(1, tt)], SaveLook(2, tt), tt);
    assert [] + [SaveLook(1, tt)] == [SaveLook(1, tt)];
    assert [SaveLook(1, tt)] + [SaveLook(2, tt)] == [SaveLook(1, tt), SaveLook(2, tt)];
  }

  /** Two saves look at a row that holds refresh token 1; the one supplies refresh token 2,
      the other, after it, none, and token 1 is back. */
  lemma OverlapUndoes(g: Grant, s: State, tt: string, active: KeyId, nonce: Nonce) returns (evs: seq<Event>)
    requires g.ring.aead.Sound() && active in g.ring.keys && Initial(s) && s.saves == map[]
    requires Stored(g, s, tt) == Some([1])
    ensures Stored(g, Run(g, s, evs), tt) == Some([1])
    ensures LastShown(g, s, evs, tt) == Some([2])
  {
    var amb := Ambient(true, 1, 1, 1, Some(nonce), Some(nonce));
    var supplies, omits := SaveWrite(2, active, 0, Bare(tt, [2]), amb), SaveWrite(1, active, 0, Bare(tt, []), amb);
    var looks := [SaveLook(1, tt), SaveLook(2, tt)];
    BothLook(g, s, tt);
    hide Run, Step, LastShown, Visible, RefreshOf, TextOf, State.Row;
    SaveReplaces(g, Run(g, s, looks), 2, active, nonce, Bare(tt, [2]));
    ShownOneMore(g, s, looks, supplies, tt);
    SaveReplaces(g, Run(g, s, looks + [supplies]), 1, active, nonce, Bare(tt, []));
    ShownOneMore(g, s, looks + [supplies], omits, tt);
    evs := looks + [supplies] + [omits];
  }

  /** So the condition can fail, from an opening state with one row. */
  lemma OverlapLosesToken(g: Grant, tt: string, active: KeyId, nonce: Nonce, row: Token) returns (s: State, evs: seq<Event>)
    requires g.ring.aead.Sound() && active in g.ring.keys
    ensures Initial(s) && Stored(g, s, tt) == Some([1])
    ensures Stored(g, Run(g, s, evs), tt) == Some([1]) && LastShown(g, s, evs, tt) == Some([2])
  {
    var e := Encryptor(g.ring, active);
    EncryptedReadable(e, nonce, [1]);
    s := State(0, map[tt := row.(encryptedRefresh := Encrypted(e, nonce, [1]))], [], map[], map[], None, [], map[], map[], map[], [], []);
    hide Run, LastShown, Decrypt, Encrypted;
    evs := OverlapUndoes(g, s, tt, active, nonce);
  }

  // ------------------------------------------------------------------- without overlap

  /** What a flight has seen of its row and may still write over. */
  function SeenBy(phase: Phase): Option<Option<Token>> {
    match phase
    case Looked(found) => Some(found)
    case Stale(stored, _) => Some(Some(stored))
    case Asked(stored) => Some(Some(stored))
    case Answered(stored, _) => Some(Some(stored))
    case Written(_, over, _, _) => Some(Some(over))
    case _ => None
  }

  predicate Changes(g: Grant, s: State, ev: Event, tt: string) {
    ev.RevokeRows? || (Visible(g, s, ev).Some? && Visible(g, s, ev).value.tokenType == tt)
  }

  /** When the row of this type changes, nobody else is between a look at it and a write,
      and a flight that changes it was asked about it. */
  ghost predicate Alone(g: Grant, s: State, ev: Event, tt: string) {
    Changes(g, s, ev, tt) ==>
      && (forall n :: n in s.saves && s.saves[n].tokenType == tt ==> ev.SaveWrite? && n == ev.n)
      && (forall f :: 0 <= f < |s.flights| && s.flights[f].tokenType == tt && SeenBy(s.flights[f].phase).Some? ==>
           ev.CommitTx? && f == ev.f)
      && (ev.CommitTx? && s.IsFlight(ev.f) ==> s.flights[ev.f].tokenType == tt)
  }

  /** Everybody between a look and a write has seen the refresh token that is there. */
  ghost predicate SavesUpToDate(saves: map<nat, PendingSave>, tt: string, refresh: Bytes) {
    forall n :: n in saves && saves[n].tokenType == tt ==> RefreshOf(saves[n].seen) == refresh
  }

  ghost predicate FlightsUpToDate(flights: seq<Flight>, tt: string, refresh: Bytes) {
    forall f :: 0 <= f < |flights| && flights[f].tokenType == tt && SeenBy(flights[f].phase).Some? ==>
      RefreshOf(SeenBy(flights[f].phase).value) == refresh
  }

  ghost predicate UpToDate(s: State, tt: string) {
    SavesUpToDate(s.saves, tt, RefreshOf(s.Row(tt))) && FlightsUpToDate(s.flights, tt, RefreshOf(s.Row(tt)))
  }

  lemma UpToDateIsCurrent(g: Grant, s: State, ev: Event, tt: string)
    requires UpToDate(s, tt) && Alone(g, s, ev, tt)
    ensures Current(g, s, ev, tt)
  {
    hide Decrypt, Prepared, RowWritten, TextOf;
  }

  lemma NextPhaseSeen(g: Grant, s: State, ev: Event)
    requires FlightEvent(ev) && s.IsFlight(ev.f)
    ensures
      var me, after := s.flights[ev.f], NextPhase(g, s, ev);
      && (SeenBy(after).Some? ==> SeenBy(after) == SeenBy(me.phase) || SeenBy(after) == Some(s.Row(me.tokenType)))
      && (ev.CommitTx? ==> after == me.phase || SeenBy(after).None?)
  {
    hide Prepared, RefreshMaterial, FreshStored, Linked;
  }

  lemma WorldUpToDate(g: Grant, s: State, ev: Event, tt: string)
    requires g.ring.aead.Sound() && ByWorld(ev) && UpToDate(s, tt) && Alone(g, s, ev, tt)
    ensures UpToDate(WorldStep(g, s, ev), tt)
  {
    WorldRefresh(g, s, ev, tt);
    WorldTouches(g, s, ev);
    SavesAfter(g, s, ev);
    hide RefreshOf, TextOf, Decrypt, Prepared, RowWritten, WorldStep, Visible;
    var t := WorldStep(g, s, ev);
    assert t.flights == s.flights;
  }

  lemma SavesAfter(g: Grant, s: State, ev: Event)
    requires ByWorld(ev)
    ensures
      var t := WorldStep(g, s, ev);
      && (ev.SaveWrite? && Visible(g, s, ev).Some? ==> t.saves == s.saves - {ev.n})
      && (!ev.SaveWrite? || Visible(g, s, ev).None? ==>
           forall n :: n in t.saves ==> t.saves[n] == PendingSave(t.saves[n].tokenType, s.Row(t.saves[n].tokenType)) || (n in s.saves && t.saves[n] == s.saves[n]))
  {
    hide Prepared, Decrypt, RowWritten, Upserted;
  }

  lemma CommitUpToDate(g: Grant, s: State, ev: Event, tt: string)
    requires g.ring.aead.Sound() && AllCarry(g, s.flights)
    requires ev.CommitTx? && s.IsFlight(ev.f) && s.flights[ev.f].phase.Written? && UpToDate(s, tt) && Alone(g, s, ev, tt)
    ensures UpToDate(Step(g, s, ev), tt)
  {
    StepRefresh(g, s, ev, tt);
    StepPublishes(g, s, ev.f, ev.acknowledged);
    SeenByOver(ev.acknowledged);
    hide RefreshOf, TextOf, AllCarry, SeenBy, Step, Committed;
  }

  lemma PhaseUpToDate(flights: seq<Flight>, f: nat, phase: Phase, tt: string, row: Option<Token>)
    requires f < |flights| && FlightsUpToDate(flights, tt, RefreshOf(row))
    requires flights[f].tokenType == tt && SeenBy(phase).Some? ==>
      SeenBy(phase) == SeenBy(flights[f].phase) || SeenBy(phase) == Some(row)
    ensures FlightsUpToDate(flights[f := flights[f].(phase := phase)], tt, RefreshOf(row))
  {
    hide SeenBy, RefreshOf;
  }

  lemma FlightUpToDate(g: Grant, s: State, ev: Event, tt: string)
    requires g.ring.aead.Sound() && AllCarry(g, s.flights)
    requires FlightEvent(ev) && s.IsFlight(ev.f) && UpToDate(s, tt) && Alone(g, s, ev, tt)
    ensures UpToDate(Step(g, s, ev), tt)
  {
    if ev.CommitTx? && s.flights[ev.f].phase.Written? {
      hide UpToDate, Step, Alone, AllCarry;
      CommitUpToDate(g, s, ev, tt);
    } else {
      NextPhaseSeen(g, s, ev);
      StepQuiet(g, s, ev);
      hide RefreshOf, NextPhase, AllCarry, SeenBy, Logged, Step, FlightsUpToDate, SavesUpToDate, Alone;
      PhaseUpToDate(s.flights, ev.f, NextPhase(g, s, ev), tt, s.Row(tt));
    }
  }

  lemma SeenByOver(acknowledged: bool)
    ensures SeenBy(Committed(acknowledged)) == None
  {}

  lemma StepUpToDate(g: Grant, s: State, ev: Event, tt: string)
    requires g.ring.aead.Sound() && AllCarry(g, s.flights) && UpToDate(s, tt) && Alone(g, s, ev, tt)
    ensures UpToDate(Step(g, s, ev), tt)
  {
    if ByWorld(ev) {
      hide UpToDate, WorldStep;
      StepOfWorld(g, s, ev);
      hide Step;
      WorldUpToDate(g, s, ev, tt);
    } else if ByCaller(ev) {
      CallerTouches(g, s, ev);
      hide CallerStep, RefreshOf, SeenBy;
      assert SeenBy(Begun) == None by {
        BegunSawNothing();
      }
      var t := CallerStep(g, s, ev);
      assert forall f :: 0 <= f < |s.flights| && t.flights != s.flights ==> t.flights[f] == t.flights[..|s.flights|][f];
    } else if !ev.Tick? && s.IsFlight(ev.f) {
      hide Step, UpToDate;
      FlightUpToDate(g, s, ev, tt);
    }
  }

  lemma BegunSawNothing()
    ensures SeenBy(Begun) == None
  {}

  /** Without overlap the stored refresh token is the last one supplied: in every run in
      which the row changes only while nobody else is between a look and a write. */
  lemma {:induction false} AloneConserves(g: Grant, s: State, evs: seq<Event>, tt: string)
    requires g.ring.aead.Sound() && Initial(s) && s.saves == map[]
    requires forall n :: 0 <= n < |evs| ==> Alone(g, Run(g, s, evs[..n]), evs[n], tt)
    ensures UpToDate(Run(g, s, evs), tt)
    ensures Stored(g, Run(g, s, evs), tt) == LastShown(g, s, evs, tt)
  {
    hide Step, Visible, Alone, Current, UpToDate, Stored;
    if evs == [] {
      NobodyWaits(s, tt);
    } else {
      var n := |evs| - 1;
      forall k | 0 <= k < n
        ensures Alone(g, Run(g, s, evs[..n][..k]), evs[..n][k], tt)
      {
        assert evs[..n][..k] == evs[..k];
      }
      AloneConserves(g, s, evs[..n], tt);
      RunCarries(g, s, evs[..n]);
      StepUpToDate(g, Run(g, s, evs[..n]), evs[n], tt);
      UpToDateIsCurrent(g, Run(g, s, evs[..n]), evs[n], tt);
      assert evs[..n + 1] == evs;
      ShownStep(g, s, evs, n, tt);
    }
  }

  lemma NobodyWaits(s: State, tt: string)
    requires Initial(s) && s.saves == map[]
    ensures UpToDate(s, tt)
  {}
}
