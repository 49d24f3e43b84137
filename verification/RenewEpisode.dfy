/** One stale token, any number of callers: what a whole run of the refresh protocol
    does with it. */
module RenewEpisode {
  import opened Common
  import opened Envelope
  import opened TokenMerge
  import opened GrantRefresh
  import Lazy = LazyReencrypt
  import opened RenewProtocol

  // --------------------------------------------------------- tokens that look alike

  /** The found row is a, up to re-encryption of its access ciphertext and the scopes that
      the grant has at the moment. */
  ghost predicate Like(g: Grant, a: Token, found: Option<Token>) {
    found.Some? && Lazy.SameText(g.ring, Some(WithScopes(a, [])), Some(WithScopes(found.value, [])))
  }

  /** What a caller that is served this row gets while the grant has these scopes. */
  function Served(g: Grant, a: Token, scopes: seq<string>): Option<Lazy.OAuthToken> {
    match Decrypt(g.ring, a.AccessCiphertext())
    case Ok(text) => Some(Lazy.OAuthToken(text, a.tokenType, a.KnownExpiry(), scopes))
    case Err(_) => None
  }

  lemma LikeItself(g: Grant, a: Token)
    ensures Like(g, a, Some(a))
  {}

  lemma LikeIsFresh(g: Grant, a: Token, found: Option<Token>, now: int)
    requires Like(g, a, found)
    ensures FreshStored(found, now, g.window) == FreshStored(Some(a), now, g.window)
  {}

  lemma LikeIsServed(g: Grant, a: Token, found: Option<Token>, now: int)
    requires Like(g, a, found)
    ensures
      var read := Lazy.Read(g.ring, found, now);
      read.Ok? ==> Served(g, a, read.value.scopes) == Some(read.value)
  {
    hide Decrypt;
  }

  lemma LikeReencrypted(g: Grant, a: Token, b: Token, c: Bytes)
    requires Like(g, a, Some(b)) && c != []
    requires Decrypt(g.ring, c) == Decrypt(g.ring, b.AccessCiphertext())
    ensures Like(g, a, Some(Lazy.WithCiphertext(b, c)))
  {
    hide Decrypt;
  }

  /** Other scopes make no other row. */
  lemma LikeWithScopes(g: Grant, a: Token, b: Token, scopes: seq<string>)
    requires Like(g, a, Some(b))
    ensures Like(g, a, Some(WithScopes(b, scopes)))
  {
    hide Decrypt;
  }

  /** When no row of this type is put, its row changes at most its scopes. */
  lemma LikeUntouched(g: Grant, a: Token, s: State, t: State, tt: string)
    requires Like(g, a, s.Row(tt)) && tt in t.rows && t.rows[tt] == s.rows[tt]
    ensures Like(g, a, t.Row(tt))
  {
    LikeWithScopes(g, a, s.Row(tt).value, t.scopes);
    hide Like;
  }

  lemma ScopesDoNotAge(token: Token, scopes: seq<string>, now: int, window: int)
    ensures FreshStored(Some(WithScopes(token, scopes)), now, window) == FreshStored(Some(token), now, window)
  {}

  lemma FreshEarlier(g: Grant, found: Option<Token>, earlier: int, later: int)
    requires earlier <= later
    ensures FreshStored(found, later, g.window) ==> FreshStored(found, earlier, g.window)
  {}

  // ------------------------------------------------------------------ the episode

  /** Nobody outside the protocol rewrites rows of this type, and refreshers answer with
      the token type they were asked for. */
  ghost predicate Calm(s: State, ev: Event, tt: string) {
    && !ev.RevokeRows?
    && (ev.SaveWrite? ==> ev.data.tokenType != tt)
    && (ev.Answer? && s.IsFlight(ev.f) && ev.reply.Issued? ==> ev.reply.data.tokenType == s.flights[ev.f].tokenType)
  }

  ghost predicate CalmRun(g: Grant, s: State, evs: seq<Event>, tt: string) {
    evs == [] ||
    (CalmRun(g, s, evs[..|evs| - 1], tt) && Calm(Run(g, s, evs[..|evs| - 1]), evs[|evs| - 1], tt))
  }

  /** Every answer that became a row of this type states a lifetime that still outlasts
      the window. */
  ghost predicate LongLived(g: Grant, s: State, tt: string) {
    forall i :: 0 <= i < |s.commits| && s.commits[i].tokenType == tt ==>
      Lasts(s.commits[i].data, s.commits[i].accessAt, s.now, g.window)
  }

  /** The row expires when its answer says, if it says anything. */
  ghost predicate ExpiresAsStated(row: Token, data: TokenData, accessAt: int) {
    data.expiresIn > 0 ==> row.KnownExpiry() == Some(accessAt + Seconds(data.expiresIn))
  }

  lemma LastingIsFresh(row: Token, data: TokenData, accessAt: int, now: int, window: int)
    requires ExpiresAsStated(row, data, accessAt) && Lasts(data, accessAt, now, window)
    ensures FreshStored(Some(row), now, window)
  {}

  /** The row has the type of its answer and, for a sound cipher, opens to its access
      token. */
  ghost predicate OpensTo(g: Grant, row: Token, data: TokenData) {
    row.tokenType == data.tokenType && (g.ring.aead.Sound() ==> Decrypt(g.ring, row.AccessCiphertext()) == Ok(data.accessToken))
  }

  ghost predicate MadeFrom(g: Grant, row: Token, data: TokenData, accessAt: int) {
    ExpiresAsStated(row, data, accessAt) && OpensTo(g, row, data)
  }

  lemma PreparedIsMadeFrom(g: Grant, e: Encryptor, existing: Option<Token>, account: int, data: TokenData, amb: Ambient)
    requires e.Valid() && e.ring == g.ring && Prepared(e, existing, g.id, account, data, amb).Ok?
    ensures MadeFrom(g, Prepared(e, existing, g.id, account, data, amb).value, data, amb.accessAt)
  {
    PreparedExpiries(e, existing, g.id, account, data, amb);
    if g.ring.aead.Sound() {
      PreparedTokens(e, existing, g.id, account, data, amb);
    }
    hide Prepared, Decrypt, Seconds;
  }

  ghost predicate CommitsFine(g: Grant, commits: seq<Commit>, tt: string, k: Option<nat>) {
    && (forall i :: 0 <= i < |commits| ==>
         MadeFrom(g, commits[i].row, commits[i].data, commits[i].accessAt) && commits[i].row.tokenType == commits[i].tokenType)
    && (k.Some? ==> k.value < |commits| && commits[k.value].tokenType == tt)
    && (forall i :: 0 <= i < |commits| && commits[i].tokenType == tt ==> k == Some(i))
  }

  /** The row everybody should see: the stale one, or the one refreshed row. */
  function Base(commits: seq<Commit>, t0: Token, k: Option<nat>): Token {
    if k.Some? && k.value < |commits| then commits[k.value].row else t0
  }

  function Winner(commits: seq<Commit>, k: Option<nat>): nat {
    if k.Some? && k.value < |commits| then commits[k.value].flight else 0
  }

  ghost predicate PhaseFine(g: Grant, me: Flight, f: nat, tt: string, base: Token, k: Option<nat>, winner: nat) {
    && (me.phase.Answered? && me.phase.reply.Issued? ==> me.phase.reply.data.tokenType == me.tokenType)
    && (me.phase.Written? ==>
         me.phase.token.tokenType == me.tokenType && MadeFrom(g, me.phase.token, me.phase.data, me.phase.accessAt))
    && (me.tokenType == tt ==>
         && (me.phase.Looked? ==> Like(g, base, me.phase.found))
         && (k.None? ==> me.phase.Over? ==> me.phase.outcome.FlightFailed?)
         && (k.Some? ==> !me.phase.Stale? && !me.phase.HasAsked() && (me.phase == Over(Refreshed) ==> f == winner)))
  }

  ghost predicate FlightsFine(g: Grant, flights: seq<Flight>, tt: string, base: Token, k: Option<nat>, winner: nat) {
    forall f :: 0 <= f < |flights| ==> PhaseFine(g, flights[f], f, tt, base, k, winner)
  }

  ghost predicate StageFine(g: Grant, stage: Stage, t0: Token, base: Token, k: Option<nat>) {
    && (stage.Peeked? ==> Like(g, t0, stage.seen) || Like(g, base, stage.seen))
    && (stage.Reread? ==> k.Some? && Like(g, base, stage.seen))
    && (stage.Returned? ==> k.Some? && Served(g, base, stage.result.scopes) == Some(stage.result))
  }

  ghost predicate CallersFine(g: Grant, callers: map<nat, Caller>, tt: string, t0: Token, base: Token, k: Option<nat>) {
    forall c :: c in callers && callers[c].tokenType == tt ==> StageFine(g, callers[c].stage, t0, base, k)
  }

  /** Callers wait only for flights of their own token type. */
  ghost predicate WaitsFine(types: seq<Flight>, caller: Caller) {
    caller.stage.Joined? ==>
      caller.stage.flight < |types| && types[caller.stage.flight].tokenType == caller.tokenType
  }

  ghost predicate LinksFine(flights: seq<Flight>, live: map<(nat, string), nat>, callers: map<nat, Caller>) {
    && (forall key :: key in live ==> live[key] < |flights| && flights[live[key]].tokenType == key.1)
    && (forall c :: c in callers ==> WaitsFine(flights, callers[c]))
  }

  ghost predicate FailedFlight(flights: seq<Flight>, f: nat) {
    f < |flights| && flights[f].phase == Over(FlightFailed(true))
  }

  /** The call belongs to a flight that has failed, is still at it, or is the one whose
      row became visible. */
  ghost predicate CallFine(flights: seq<Flight>, call: Call, tt: string, k: Option<nat>, winner: nat) {
    call.tokenType == tt ==>
      && call.flight < |flights| && flights[call.flight].tokenType == tt
      && (|| FailedFlight(flights, call.flight)
          || (k.None? && flights[call.flight].phase.HasAsked())
          || (k.Some? && call.flight == winner))
  }

  /** The provider was asked again only after a flight that had asked and failed. */
  ghost predicate CallsFine(flights: seq<Flight>, calls: seq<Call>, tt: string, k: Option<nat>, winner: nat) {
    && (forall i :: 0 <= i < |calls| ==> CallFine(flights, calls[i], tt, k, winner))
    && (forall i, j :: 0 <= i < j < |calls| && calls[i].tokenType == tt && calls[j].tokenType == tt ==>
         FailedFlight(flights, calls[i].flight))
  }

  ghost predicate CalledBy(calls: seq<Call>, tt: string, f: nat) {
    exists i :: 0 <= i < |calls| && calls[i].tokenType == tt && calls[i].flight == f
  }

  ghost predicate CallsLogged(flights: seq<Flight>, calls: seq<Call>, tt: string, k: Option<nat>, winner: nat) {
    && (forall f :: 0 <= f < |flights| && flights[f].tokenType == tt && flights[f].phase.HasAsked() ==> CalledBy(calls, tt, f))
    && (k.Some? ==> CalledBy(calls, tt, winner))
  }

  ghost predicate Episode(g: Grant, s: State, tt: string, t0: Token, k: Option<nat>) {
    var base, winner := Base(s.commits, t0, k), Winner(s.commits, k);
    && CommitsFine(g, s.commits, tt, k)
    && Like(g, base, s.Row(tt))
    && FlightsFine(g, s.flights, tt, base, k, winner)
    && CallersFine(g, s.callers, tt, t0, base, k)
    && LinksFine(s.flights, s.live, s.callers)
    && CallsFine(s.flights, s.calls, tt, k, winner)
    && CallsLogged(s.flights, s.calls, tt, k, winner)
  }

  /** What makes the current row decide as it does: stale before the refresh, fresh after. */
  ghost predicate Horizon(g: Grant, s: State, t0: Token, k: Option<nat>) {
    && !FreshStored(Some(t0), s.now, g.window)
    && (k.Some? ==> FreshStored(Some(Base(s.commits, t0, k)), s.now, g.window))
  }

  // ------------------------------------------------------------- the callers' steps

  /** Flights keep their token types, and those that failed after asking stay failed. */
  ghost predicate Onward(flights: seq<Flight>, later: seq<Flight>) {
    && |flights| <= |later|
    && forall f :: 0 <= f < |flights| ==>
         later[f].tokenType == flights[f].tokenType && (FailedFlight(flights, f) ==> FailedFlight(later, f))
  }

  lemma LinksOnward(flights: seq<Flight>, later: seq<Flight>, live: map<(nat, string), nat>, callers: map<nat, Caller>)
    requires LinksFine(flights, live, callers) && Onward(flights, later)
    ensures LinksFine(later, live, callers)
  {
    hide FailedFlight;
    forall c | c in callers
      ensures WaitsFine(later, callers[c])
    {
      assert WaitsFine(flights, callers[c]);
    }
  }

  /** One caller moves to a fitting stage. */
  lemma StageKeepsEpisode(g: Grant, s: State, c: nat, stage: Stage, tt: string, t0: Token, k: Option<nat>)
    requires Episode(g, s, tt, t0, k) && c in s.callers
    requires s.callers[c].tokenType == tt ==> StageFine(g, stage, t0, Base(s.commits, t0, k), k)
    requires WaitsFine(s.flights, s.callers[c].(stage := stage))
    ensures Episode(g, s.WithStage(c, stage), tt, t0, k)
  {
    hide StageFine, WaitsFine, Like, CommitsFine, FlightsFine, CallsFine, CallsLogged;
  }

  lemma StartKeepsEpisode(g: Grant, s: State, ev: Event, tt: string, t0: Token, k: Option<nat>)
    requires Episode(g, s, tt, t0, k) && ev.Start?
    ensures Episode(g, CallerStep(g, s, ev), tt, t0, k)
  {
    hide Like, CommitsFine, FlightsFine, CallsFine, CallsLogged, Linked;
  }

  lemma LeadKeepsEpisode(g: Grant, s: State, c: nat, tt: string, t0: Token, k: Option<nat>)
    requires Episode(g, s, tt, t0, k) && c in s.callers
    ensures
      var me, f := s.callers[c], |s.flights|;
      Episode(g, s.WithStage(c, Joined(f)).(
                   flights := s.flights + [Flight(me.host, me.account, me.tokenType, Begun)],
                   live := s.live[(me.host, me.tokenType) := f]), tt, t0, k)
  {
    hide Like, CommitsFine;
    var me, f := s.callers[c], |s.flights|;
    var flights := s.flights + [Flight(me.host, me.account, me.tokenType, Begun)];
    var base, winner := Base(s.commits, t0, k), Winner(s.commits, k);
    LeadKeepsCalls(s.flights, flights, s.calls, tt, k, winner);
    LeadKeepsFlights(g, s.flights, flights, tt, base, k, winner);
    LinksOnward(s.flights, flights, s.live, s.callers);
    hide FlightsFine, CallsFine, CallsLogged, StageFine, Onward;
    var callers := s.callers[c := me.(stage := Joined(f))];
    assert CallersFine(g, callers, tt, t0, base, k);
    assert LinksFine(flights, s.live[(me.host, me.tokenType) := f], callers);
  }

  lemma LeadKeepsFlights(g: Grant, flights: seq<Flight>, later: seq<Flight>, tt: string, base: Token, k: Option<nat>, winner: nat)
    requires FlightsFine(g, flights, tt, base, k, winner)
    requires |later| == |flights| + 1 && later[..|flights|] == flights && later[|flights|].phase.Begun?
    ensures FlightsFine(g, later, tt, base, k, winner) && Onward(flights, later)
  {
    hide Like;
    forall f | 0 <= f < |later|
      ensures PhaseFine(g, later[f], f, tt, base, k, winner)
      ensures f < |flights| ==> later[f] == flights[f]
    {
      if f < |flights| {
        assert later[..|flights|][f] == flights[f];
        assert PhaseFine(g, flights[f], f, tt, base, k, winner);
      }
    }
  }

  lemma LeadKeepsCalls(flights: seq<Flight>, later: seq<Flight>, calls: seq<Call>, tt: string, k: Option<nat>, winner: nat)
    requires CallsFine(flights, calls, tt, k, winner) && CallsLogged(flights, calls, tt, k, winner)
    requires |later| == |flights| + 1 && later[..|flights|] == flights && later[|flights|].phase.Begun?
    ensures CallsFine(later, calls, tt, k, winner) && CallsLogged(later, calls, tt, k, winner)
  {
    hide CalledBy;
    assert forall f :: 0 <= f < |flights| ==> later[f] == later[..|flights|][f] == flights[f];
    forall i | 0 <= i < |calls|
      ensures CallFine(later, calls[i], tt, k, winner)
    {
      assert CallFine(flights, calls[i], tt, k, winner);
    }
  }

  /** On the fast path a row that looks like the stale token is never returned. */
  lemma JudgeKeepsEpisode(g: Grant, s: State, c: nat, tt: string, t0: Token, k: Option<nat>)
    requires Episode(g, s, tt, t0, k) && Horizon(g, s, t0, k)
    requires c in s.callers && s.callers[c].stage.Peeked?
    ensures Episode(g, CallerStep(g, s, Judge(c)), tt, t0, k)
  {
    var base, me := Base(s.commits, t0, k), s.callers[c];
    var seen := me.stage.seen;
    assert me.tokenType == tt ==> StageFine(g, me.stage, t0, base, k);
    if me.tokenType == tt && Like(g, t0, seen) {
      LikeIsFresh(g, t0, seen, s.now);
    } else if me.tokenType == tt {
      LikeIsServed(g, base, seen, s.now);
    }
    hide Episode, Like, FreshStored, Lazy.Read, Served;
    StageKeepsEpisode(g, s, c, Slow, tt, t0, k);
    StageKeepsEpisode(g, s, c, Failed, tt, t0, k);
    if Lazy.Read(g.ring, seen, s.now).Ok? && FreshStored(seen, s.now, g.window) {
      StageKeepsEpisode(g, s, c, Returned(Lazy.Read(g.ring, seen, s.now).value), tt, t0, k);
    }
  }

  /** A caller whose flight has not failed finds the refreshed row. */
  lemma LandKeepsEpisode(g: Grant, s: State, c: nat, tt: string, t0: Token, k: Option<nat>)
    requires Episode(g, s, tt, t0, k) && c in s.callers && s.callers[c].stage.Joined?
    ensures Episode(g, CallerStep(g, s, Land(c)), tt, t0, k)
  {
    var base, me := Base(s.commits, t0, k), s.callers[c];
    var f := me.stage.flight;
    assert WaitsFine(s.flights, me);
    assert PhaseFine(g, s.flights[f], f, tt, base, k, Winner(s.commits, k));
    assert Like(g, base, s.Row(tt));
    hide Episode, Like, Linked;
    StageKeepsEpisode(g, s, c, Failed, tt, t0, k);
    StageKeepsEpisode(g, s, c, Elsewhere, tt, t0, k);
    if s.flights[f].phase.Over? && !s.flights[f].phase.outcome.FlightFailed? {
      StageKeepsEpisode(g, s, c, Reread(s.Row(me.tokenType)), tt, t0, k);
    }
  }

  lemma FinishKeepsEpisode(g: Grant, s: State, c: nat, tt: string, t0: Token, k: Option<nat>)
    requires Episode(g, s, tt, t0, k) && c in s.callers && s.callers[c].stage.Reread?
    ensures Episode(g, CallerStep(g, s, Finish(c)), tt, t0, k)
  {
    var base, me := Base(s.commits, t0, k), s.callers[c];
    var seen := me.stage.seen;
    assert me.tokenType == tt ==> StageFine(g, me.stage, t0, base, k);
    if me.tokenType == tt {
      LikeIsServed(g, base, seen, s.now);
    }
    hide Episode, Like, Lazy.Read, Served;
    StageKeepsEpisode(g, s, c, Failed, tt, t0, k);
    if Lazy.Read(g.ring, seen, s.now).Ok? {
      StageKeepsEpisode(g, s, c, Returned(Lazy.Read(g.ring, seen, s.now).value), tt, t0, k);
    }
  }

  lemma JoinKeepsEpisode(g: Grant, s: State, c: nat, tt: string, t0: Token, k: Option<nat>)
    requires Episode(g, s, tt, t0, k) && c in s.callers && s.callers[c].stage.Slow?
    ensures Episode(g, CallerStep(g, s, Join(c)), tt, t0, k)
  {
    var me := s.callers[c];
    var key := (me.host, me.tokenType);
    assert LinksFine(s.flights, s.live, s.callers);
    hide Episode;
    if key in s.live && s.IsFlight(s.live[key]) {
      StageKeepsEpisode(g, s, c, Joined(s.live[key]), tt, t0, k);
    } else {
      LeadKeepsEpisode(g, s, c, tt, t0, k);
    }
  }

  lemma PeekKeepsEpisode(g: Grant, s: State, c: nat, tt: string, t0: Token, k: Option<nat>)
    requires Episode(g, s, tt, t0, k) && c in s.callers && s.callers[c].stage.Ready?
    ensures Episode(g, CallerStep(g, s, Peek(c)), tt, t0, k)
  {
    assert Like(g, Base(s.commits, t0, k), s.Row(tt));
    hide Episode, Like;
    StageKeepsEpisode(g, s, c, Peeked(s.Row(s.callers[c].tokenType)), tt, t0, k);
  }

  lemma CallerKeepsEpisode(g: Grant, s: State, ev: Event, tt: string, t0: Token, k: Option<nat>)
    requires Episode(g, s, tt, t0, k) && Horizon(g, s, t0, k) && ByCaller(ev)
    ensures Episode(g, CallerStep(g, s, ev), tt, t0, k)
  {
    hide Episode, Horizon, Lazy.Read, Linked, FreshStored;
    if ev.Start? {
      StartKeepsEpisode(g, s, ev, tt, t0, k);
    } else if ev.c in s.callers {
      var stage := s.callers[ev.c].stage;
      if ev.Peek? && stage.Ready? {
        PeekKeepsEpisode(g, s, ev.c, tt, t0, k);
      } else if ev.Judge? && stage.Peeked? {
        JudgeKeepsEpisode(g, s, ev.c, tt, t0, k);
      } else if ev.Join? && stage.Slow? {
        JoinKeepsEpisode(g, s, ev.c, tt, t0, k);
      } else if ev.Land? && stage.Joined? {
        LandKeepsEpisode(g, s, ev.c, tt, t0, k);
      } else if ev.Finish? && stage.Reread? {
        FinishKeepsEpisode(g, s, ev.c, tt, t0, k);
      } else if ev.Cancel? {
        StageKeepsEpisode(g, s, ev.c, Failed, tt, t0, k);
      }
    }
  }

  // ------------------------------------------------------------ the flights' steps

  /** One flight moves to a fitting phase. */
  lemma PhaseKeepsFlights(g: Grant, flights: seq<Flight>, f: nat, phase: Phase, tt: string, base: Token, k: Option<nat>, winner: nat)
    requires FlightsFine(g, flights, tt, base, k, winner) && f < |flights| && !flights[f].phase.Over?
    requires PhaseFine(g, flights[f].(phase := phase), f, tt, base, k, winner)
    ensures FlightsFine(g, flights[f := flights[f].(phase := phase)], tt, base, k, winner)
    ensures Onward(flights, flights[f := flights[f].(phase := phase)])
  {
    hide PhaseFine;
  }

  /** What a flight had asked stays accounted for when it moves on. */
  lemma PhaseKeepsCalls(flights: seq<Flight>, f: nat, phase: Phase, calls: seq<Call>, tt: string, k: Option<nat>, winner: nat)
    requires CallsFine(flights, calls, tt, k, winner) && CallsLogged(flights, calls, tt, k, winner)
    requires f < |flights| && !flights[f].phase.Over?
    requires flights[f].phase.HasAsked() ==> phase.HasAsked() || phase == Over(FlightFailed(true))
    requires phase.HasAsked() ==> flights[f].phase.HasAsked()
    ensures CallsFine(flights[f := flights[f].(phase := phase)], calls, tt, k, winner)
    ensures CallsLogged(flights[f := flights[f].(phase := phase)], calls, tt, k, winner)
  {
    hide CalledBy;
    var later := flights[f := flights[f].(phase := phase)];
    forall i | 0 <= i < |calls|
      ensures CallFine(later, calls[i], tt, k, winner)
    {
      assert CallFine(flights, calls[i], tt, k, winner);
    }
  }

  lemma PhaseKeepsEpisode(g: Grant, s: State, t: State, f: nat, phase: Phase, tt: string, t0: Token, k: Option<nat>)
    requires Episode(g, s, tt, t0, k) && s.IsFlight(f) && !s.flights[f].phase.Over?
    requires PhaseFine(g, s.flights[f].(phase := phase), f, tt, Base(s.commits, t0, k), k, Winner(s.commits, k))
    requires s.flights[f].phase.HasAsked() ==> phase.HasAsked() || phase == Over(FlightFailed(true))
    requires phase.HasAsked() ==> s.flights[f].phase.HasAsked()
    requires t == s.(flights := s.flights[f := s.flights[f].(phase := phase)], rowLocks := t.rowLocks, grantLock := t.grantLock)
    ensures Episode(g, t, tt, t0, k)
  {
    hide CommitsFine, Like, FlightsFine, CallersFine, LinksFine, CallsFine, CallsLogged, PhaseFine, Onward;
    PhaseKeepsFlights(g, s.flights, f, phase, tt, Base(s.commits, t0, k), k, Winner(s.commits, k));
    PhaseKeepsCalls(s.flights, f, phase, s.calls, tt, k, Winner(s.commits, k));
    LinksOnward(s.flights, t.flights, s.live, s.callers);
  }

  /** Only one flight is inside the lock, so no other flight of the token type is between
      its look at the row and the end of its transaction. */
  lemma NobodyElseInside(g: Grant, s: State, f: nat, h: nat)
    requires Safe(g, s) && s.IsFlight(f) && s.IsFlight(h)
    requires s.flights[f].phase.HoldsGrant() && s.flights[h].phase.HoldsGrant()
    ensures f == h
  {
    hide FreshStored, RefreshMaterial;
  }

  ghost predicate AllFailed(flights: seq<Flight>, calls: seq<Call>, tt: string) {
    forall i :: 0 <= i < |calls| && calls[i].tokenType == tt ==> FailedFlight(flights, calls[i].flight)
  }

  /** When a flight asks, every earlier question about its token type has failed. */
  lemma AskingAgain(g: Grant, s: State, f: nat, tt: string, winner: nat)
    requires Safe(g, s) && CallsFine(s.flights, s.calls, tt, None, winner)
    requires s.IsFlight(f) && s.flights[f].phase.Stale?
    ensures AllFailed(s.flights, s.calls, tt)
  {
    hide Safe;
    forall i | 0 <= i < |s.calls| && s.calls[i].tokenType == tt
      ensures FailedFlight(s.flights, s.calls[i].flight)
    {
      assert CallFine(s.flights, s.calls[i], tt, None, winner);
      if !FailedFlight(s.flights, s.calls[i].flight) {
        NobodyElseInside(g, s, f, s.calls[i].flight);
      }
    }
  }

  lemma CalledByMore(calls: seq<Call>, call: Call, tt: string, f: nat)
    requires CalledBy(calls, tt, f) || (call.tokenType == tt && call.flight == f)
    ensures CalledBy(calls + [call], tt, f)
  {
    var more := calls + [call];
    if CalledBy(calls, tt, f) {
      var i :| 0 <= i < |calls| && calls[i].tokenType == tt && calls[i].flight == f;
      assert more[i].flight == f;
    } else {
      assert more[|calls|] == call;
    }
  }

  lemma CallAppended(flights: seq<Flight>, f: nat, phase: Phase, calls: seq<Call>, call: Call, tt: string, k: Option<nat>, winner: nat)
    requires CallsFine(flights, calls, tt, k, winner) && CallsLogged(flights, calls, tt, k, winner)
    requires f < |flights| && flights[f].phase.Stale? && phase.Asked?
    requires call.flight == f && call.tokenType == flights[f].tokenType
    requires call.tokenType == tt ==> k.None? && AllFailed(flights, calls, tt)
    ensures CallsFine(flights[f := flights[f].(phase := phase)], calls + [call], tt, k, winner)
    ensures CallsLogged(flights[f := flights[f].(phase := phase)], calls + [call], tt, k, winner)
  {
    hide CalledBy;
    var later, more := flights[f := flights[f].(phase := phase)], calls + [call];
    forall i | 0 <= i < |more|
      ensures CallFine(later, more[i], tt, k, winner)
    {
      assert i < |calls| ==> CallFine(flights, calls[i], tt, k, winner);
    }
    forall h: nat | CalledBy(calls, tt, h) || (call.tokenType == tt && h == f)
      ensures CalledBy(more, tt, h)
    {
      CalledByMore(calls, call, tt, h);
    }
  }

  lemma LoggedCall(s: State, f: nat, after: Phase)
    requires s.IsFlight(f) && s.flights[f].phase.Stale? && after.Asked?
    ensures
      var me := s.flights[f];
      Logged(s, f, after) == s.calls + [Call(f, me.tokenType, me.phase.stored, me.phase.checkedAt, s.now, s.grantLock)]
  {}

  lemma LoggedNothing(s: State, f: nat, after: Phase)
    requires s.IsFlight(f) && !(s.flights[f].phase.Stale? && after.Asked?)
    ensures Logged(s, f, after) == s.calls
  {}

  /** A flight has asked: the call is logged, and every earlier one has failed. */
  lemma AskedKeepsEpisode(g: Grant, s: State, t: State, f: nat, tt: string, t0: Token, k: Option<nat>)
    requires Safe(g, s) && Episode(g, s, tt, t0, k) && s.IsFlight(f) && s.flights[f].phase.Stale?
    requires
      var me := s.flights[f];
      && (me.tokenType == tt ==> k.None?)
      && PhaseFine(g, me.(phase := Asked(me.phase.stored)), f, tt, Base(s.commits, t0, k), k, Winner(s.commits, k))
      && t == s.(flights := s.flights[f := me.(phase := Asked(me.phase.stored))], rowLocks := t.rowLocks, grantLock := t.grantLock,
                 calls := s.calls + [Call(f, me.tokenType, me.phase.stored, me.phase.checkedAt, s.now, s.grantLock)])
    ensures Episode(g, t, tt, t0, k)
  {
    hide PhaseFine, AllFailed, Safe, CommitsFine, Like, FlightsFine, CallersFine, LinksFine, CallsFine, CallsLogged, Onward, Base, Winner;
    var base, winner, me := Base(s.commits, t0, k), Winner(s.commits, k), s.flights[f];
    PhaseKeepsFlights(g, s.flights, f, Asked(me.phase.stored), tt, base, k, winner);
    LinksOnward(s.flights, t.flights, s.live, s.callers);
    if k.None? {
      AskingAgain(g, s, f, tt, winner);
    }
    var call := Call(f, me.tokenType, me.phase.stored, me.phase.checkedAt, s.now, s.grantLock);
    CallAppended(s.flights, f, Asked(me.phase.stored), s.calls, call, tt, k, winner);
  }

  lemma AskingIsFine(g: Grant, s: State, f: nat, tt: string, t0: Token, k: Option<nat>)
    requires Episode(g, s, tt, t0, k) && s.IsFlight(f) && s.flights[f].phase.Stale?
    ensures
      var me, base, winner := s.flights[f], Base(s.commits, t0, k), Winner(s.commits, k);
      && PhaseFine(g, me.(phase := Asked(me.phase.stored)), f, tt, base, k, winner)
      && PhaseFine(g, me.(phase := Over(FlightFailed(false))), f, tt, base, k, winner)
      && (me.tokenType == tt ==> k.None?)
  {
    hide Base, Winner, CommitsFine, Like, CallersFine, LinksFine, CallsFine, CallsLogged, State.Row, MadeFrom;
    assert PhaseFine(g, s.flights[f], f, tt, Base(s.commits, t0, k), k, Winner(s.commits, k));
  }

  lemma AskKeepsEpisode(g: Grant, s: State, f: nat, tt: string, t0: Token, k: Option<nat>)
    requires Safe(g, s) && Episode(g, s, tt, t0, k)
    requires s.IsFlight(f) && s.flights[f].phase.Stale?
    ensures Episode(g, FlightStep(g, s, Ask(f)), tt, t0, k)
  {
    var base, winner, t, me := Base(s.commits, t0, k), Winner(s.commits, k), FlightStep(g, s, Ask(f)), s.flights[f];
    AskingIsFine(g, s, f, tt, t0, k);
    hide PhaseFine, Logged, Safe, RefreshMaterial, Episode, FlightStep, NextPhase, Base, Winner, FreshStored;
    StepQuiet(g, s, Ask(f));
    StepOfFlight(g, s, Ask(f));
    NextPhaseSound(g, s, Ask(f));
    hide Step;
    if NextPhase(g, s, Ask(f)).Over? {
      LoggedNothing(s, f, Over(FlightFailed(false)));
      PhaseKeepsEpisode(g, s, t, f, Over(FlightFailed(false)), tt, t0, k);
    } else {
      LoggedCall(s, f, Asked(me.phase.stored));
      AskedKeepsEpisode(g, s, t, f, tt, t0, k);
    }
  }

  /** What a commit makes of the state. */
  ghost predicate Commits(g: Grant, s: State, t: State, f: nat, phase: Phase, commit: Commit) {
    && s.IsFlight(f) && s.flights[f].phase.Written? && phase.Over?
    && commit.flight == f && MadeFrom(g, commit.row, commit.data, commit.accessAt) && commit.row.tokenType == commit.tokenType
    && commit.tokenType in t.rows && t.Row(commit.tokenType) == Some(commit.row)
    && t == s.(rows := s.rows[commit.tokenType := t.rows[commit.tokenType]], scopes := t.scopes, commits := s.commits + [commit],
               flights := s.flights[f := s.flights[f].(phase := phase)],
               rowLocks := t.rowLocks, grantLock := t.grantLock)
  }

  lemma OtherCommitCalls(flights: seq<Flight>, f: nat, phase: Phase, calls: seq<Call>, tt: string, k: Option<nat>, winner: nat)
    requires CallsFine(flights, calls, tt, k, winner) && CallsLogged(flights, calls, tt, k, winner)
    requires f < |flights| && flights[f].tokenType != tt && phase.Over?
    ensures CallsFine(flights[f := flights[f].(phase := phase)], calls, tt, k, winner)
    ensures CallsLogged(flights[f := flights[f].(phase := phase)], calls, tt, k, winner)
  {
    hide CalledBy;
    var later := flights[f := flights[f].(phase := phase)];
    forall i | 0 <= i < |calls|
      ensures CallFine(later, calls[i], tt, k, winner)
      ensures calls[i].tokenType == tt && FailedFlight(flights, calls[i].flight) ==> FailedFlight(later, calls[i].flight)
    {
      assert CallFine(flights, calls[i], tt, k, winner);
    }
  }

  lemma OtherCommitRows(g: Grant, commits: seq<Commit>, commit: Commit, tt: string, t0: Token, k: Option<nat>)
    requires CommitsFine(g, commits, tt, k) && commit.tokenType != tt
    requires MadeFrom(g, commit.row, commit.data, commit.accessAt) && commit.row.tokenType == commit.tokenType
    ensures CommitsFine(g, commits + [commit], tt, k)
    ensures Base(commits + [commit], t0, k) == Base(commits, t0, k)
    ensures Winner(commits + [commit], k) == Winner(commits, k)
  {
    hide MadeFrom;
  }

  /** The commit of a row of another token type does not touch the episode. */
  lemma OtherCommit(g: Grant, s: State, t: State, f: nat, phase: Phase, commit: Commit, tt: string, t0: Token, k: Option<nat>)
    requires Episode(g, s, tt, t0, k) && Commits(g, s, t, f, phase, commit)
    requires s.flights[f].tokenType == commit.tokenType != tt
    ensures Episode(g, t, tt, t0, k)
  {
    var base, winner := Base(s.commits, t0, k), Winner(s.commits, k);
    OtherCommitRows(g, s.commits, commit, tt, t0, k);
    assert PhaseFine(g, s.flights[f].(phase := phase), f, tt, base, k, winner);
    hide CommitsFine, Base, Winner, Like, FlightsFine, CallersFine, LinksFine, CallsFine, CallsLogged, PhaseFine, Onward;
    LikeUntouched(g, base, s, t, tt);
    PhaseKeepsFlights(g, s.flights, f, phase, tt, base, k, winner);
    LinksOnward(s.flights, t.flights, s.live, s.callers);
    OtherCommitCalls(s.flights, f, phase, s.calls, tt, k, winner);
  }

  /** Nobody but this flight is inside the grant lock. */
  ghost predicate AloneInside(flights: seq<Flight>, f: nat) {
    forall h :: 0 <= h < |flights| && h != f ==> !flights[h].phase.HoldsGrant()
  }

  lemma OwnCommitFlights(g: Grant, flights: seq<Flight>, f: nat, phase: Phase, tt: string, t0: Token, row: Token, k: nat)
    requires FlightsFine(g, flights, tt, t0, None, 0) && f < |flights| && phase.Over?
    requires AloneInside(flights, f)
    ensures FlightsFine(g, flights[f := flights[f].(phase := phase)], tt, row, Some(k), f)
  {
    hide Like;
    var later := flights[f := flights[f].(phase := phase)];
    forall h | 0 <= h < |flights|
      ensures PhaseFine(g, later[h], h, tt, row, Some(k), f)
    {
      assert PhaseFine(g, flights[h], h, tt, t0, None, 0);
    }
  }

  lemma OwnCommitCalls(flights: seq<Flight>, f: nat, phase: Phase, calls: seq<Call>, tt: string, k: nat)
    requires CallsFine(flights, calls, tt, None, 0) && CallsLogged(flights, calls, tt, None, 0)
    requires f < |flights| && flights[f].phase.Written? && flights[f].tokenType == tt && phase.Over?
    requires AloneInside(flights, f)
    ensures CallsFine(flights[f := flights[f].(phase := phase)], calls, tt, Some(k), f)
    ensures CallsLogged(flights[f := flights[f].(phase := phase)], calls, tt, Some(k), f)
  {
    hide CalledBy;
    var later := flights[f := flights[f].(phase := phase)];
    forall i | 0 <= i < |calls|
      ensures CallFine(later, calls[i], tt, Some(k), f)
      ensures FailedFlight(flights, calls[i].flight) ==> FailedFlight(later, calls[i].flight)
    {
      assert CallFine(flights, calls[i], tt, None, 0);
    }
  }

  lemma OwnCommitCallers(g: Grant, callers: map<nat, Caller>, tt: string, t0: Token, row: Token, k: nat)
    requires CallersFine(g, callers, tt, t0, t0, None)
    ensures CallersFine(g, callers, tt, t0, row, Some(k))
  {
    hide Like, Served;
    forall c | c in callers && callers[c].tokenType == tt
      ensures StageFine(g, callers[c].stage, t0, row, Some(k))
    {
      assert StageFine(g, callers[c].stage, t0, t0, None);
    }
  }

  /** The commit of the refreshed row itself opens the second half of the episode. */
  lemma OwnCommit(g: Grant, s: State, t: State, f: nat, phase: Phase, commit: Commit, tt: string, t0: Token)
    requires Episode(g, s, tt, t0, None) && Commits(g, s, t, f, phase, commit)
    requires s.flights[f].tokenType == commit.tokenType == tt && AloneInside(s.flights, f)
    ensures Episode(g, t, tt, t0, Some(|s.commits|))
  {
    var k := |s.commits|;
    assert CommitsFine(g, s.commits + [commit], tt, Some(k));
    assert Onward(s.flights, t.flights);
    assert Base(t.commits, t0, Some(k)) == commit.row && Winner(t.commits, Some(k)) == f;
    assert Base(s.commits, t0, None) == t0 && Winner(s.commits, None) == 0;
    LikeItself(g, commit.row);
    hide CommitsFine, Base, Winner, Like, FlightsFine, CallersFine, LinksFine, CallsFine, CallsLogged, Onward, AloneInside;
    OwnCommitFlights(g, s.flights, f, phase, tt, t0, commit.row, k);
    OwnCommitCallers(g, s.callers, tt, t0, commit.row, k);
    OwnCommitCalls(s.flights, f, phase, s.calls, tt, k);
    LinksOnward(s.flights, t.flights, s.live, s.callers);
  }

  lemma UpsertKeepsMade(g: Grant, was: Option<Token>, token: Token, scopes: seq<string>, data: TokenData, accessAt: int)
    requires MadeFrom(g, token, data, accessAt)
    ensures MadeFrom(g, WithScopes(Upserted(was, token), scopes), data, accessAt)
    ensures WithScopes(Upserted(was, token), scopes).tokenType == token.tokenType
  {
    hide Decrypt, Seconds;
  }

  lemma CommitKeepsEpisode(g: Grant, s: State, f: nat, acknowledged: bool, tt: string, t0: Token, k: Option<nat>)
      returns (k': Option<nat>)
    requires Safe(g, s) && Episode(g, s, tt, t0, k)
    requires s.IsFlight(f) && s.flights[f].phase.Written?
    ensures Episode(g, FlightStep(g, s, CommitTx(f, acknowledged)), tt, t0, k')
  {
    var me, t := s.flights[f], FlightStep(g, s, CommitTx(f, acknowledged));
    StepOfFlight(g, s, CommitTx(f, acknowledged));
    assert PhaseFine(g, me, f, tt, Base(s.commits, t0, k), k, Winner(s.commits, k));
    forall h | 0 <= h < |s.flights| && s.flights[h].phase.HoldsGrant()
      ensures h == f
    {
      NobodyElseInside(g, s, f, h);
    }
    assert AloneInside(s.flights, f);
    var scopes := ScopesPut(s.scopes, me.phase.token);
    UpsertKeepsMade(g, s.Row(me.tokenType), me.phase.token, scopes, me.phase.data, me.phase.accessAt);
    assert me.phase.token.tokenType == me.tokenType;
    hide Safe, Upserted, ScopesPut, Episode, Step, FlightStep, AloneInside, PhaseFine, MadeFrom;
    StepPublishes(g, s, f, acknowledged);
    var row := Upserted(s.Row(me.tokenType), me.phase.token);
    var commit := Commit(f, me.tokenType, WithScopes(row, scopes), me.phase.data, me.phase.accessAt);
    assert Commits(g, s, t, f, Committed(acknowledged), commit);
    k' := k;
    if me.tokenType == tt {
      k' := Some(|s.commits|);
      OwnCommit(g, s, t, f, Committed(acknowledged), commit, tt, t0);
    } else {
      OtherCommit(g, s, t, f, Committed(acknowledged), commit, tt, t0, k);
    }
  }

  lemma MoveIsFine(g: Grant, s: State, ev: Event, tt: string, t0: Token, k: Option<nat>)
    requires Episode(g, s, tt, t0, k) && Horizon(g, s, t0, k) && Calm(s, ev, tt)
    requires FlightEvent(ev) && s.IsFlight(ev.f) && NextPhase(g, s, ev) != s.flights[ev.f].phase
    requires !(ev.Ask? && s.flights[ev.f].phase.Stale?) && !(ev.CommitTx? && s.flights[ev.f].phase.Written?)
    ensures
      var before, after := s.flights[ev.f].phase, NextPhase(g, s, ev);
      && !before.Over?
      && PhaseFine(g, s.flights[ev.f].(phase := after), ev.f, tt, Base(s.commits, t0, k), k, Winner(s.commits, k))
      && (before.HasAsked() ==> after.HasAsked() || after == Over(FlightFailed(true)))
      && (after.HasAsked() ==> before.HasAsked())
  {
    var me, base := s.flights[ev.f], Base(s.commits, t0, k);
    assert PhaseFine(g, me, ev.f, tt, base, k, Winner(s.commits, k));
    assert Like(g, base, s.Row(tt));
    if ev.Decide? && me.phase.Looked? && me.tokenType == tt {
      LikeIsFresh(g, base, me.phase.found, s.now);
    }
    assert ev.Answer? && ev.reply.Issued? ==> ev.reply.data.tokenType == me.tokenType;
    if ev.Write? && me.phase.Answered? && me.phase.reply.Issued? && ev.active in g.ring.keys {
      var e := Encryptor(g.ring, ev.active);
      if Prepared(e, Some(me.phase.stored), g.id, me.account, me.phase.reply.data, ev.amb).Ok? {
        PreparedIsMadeFrom(g, e, Some(me.phase.stored), me.account, me.phase.reply.data, ev.amb);
      }
    }
    hide MadeFrom, Like, Episode, Prepared, RefreshMaterial, FreshStored, Linked, Winner, Base, Calm;
  }

  lemma MoveKeepsEpisode(g: Grant, s: State, ev: Event, tt: string, t0: Token, k: Option<nat>)
    requires Episode(g, s, tt, t0, k) && Horizon(g, s, t0, k) && Calm(s, ev, tt)
    requires FlightEvent(ev) && s.IsFlight(ev.f)
    requires !(ev.Ask? && s.flights[ev.f].phase.Stale?) && !(ev.CommitTx? && s.flights[ev.f].phase.Written?)
    ensures Episode(g, FlightStep(g, s, ev), tt, t0, k)
  {
    hide NextPhase, Episode, Horizon, PhaseFine, Calm, FlightStep, Base, Winner, FreshStored, RefreshMaterial;
    var t, f, after := FlightStep(g, s, ev), ev.f, NextPhase(g, s, ev);
    hide Step;
    StepQuiet(g, s, ev);
    StepOfFlight(g, s, ev);
    NextPhaseSound(g, s, ev);
    if after != s.flights[f].phase {
      LoggedNothing(s, f, after);
    }
    hide Logged;
    if after != s.flights[f].phase {
      MoveIsFine(g, s, ev, tt, t0, k);
      PhaseKeepsEpisode(g, s, t, f, after, tt, t0, k);
    }
  }

  lemma FlightKeepsEpisode(g: Grant, s: State, ev: Event, tt: string, t0: Token, k: Option<nat>) returns (k': Option<nat>)
    requires Safe(g, s) && Episode(g, s, tt, t0, k) && Horizon(g, s, t0, k) && Calm(s, ev, tt)
    requires FlightEvent(ev) && s.IsFlight(ev.f)
    ensures Episode(g, FlightStep(g, s, ev), tt, t0, k')
  {
    hide Safe, Episode, Horizon, Calm, FlightStep;
    k' := k;
    if ev.CommitTx? && s.flights[ev.f].phase.Written? {
      k' := CommitKeepsEpisode(g, s, ev.f, ev.acknowledged, tt, t0, k);
    } else if ev.Ask? && s.flights[ev.f].phase.Stale? {
      AskKeepsEpisode(g, s, ev.f, tt, t0, k);
    } else {
      MoveKeepsEpisode(g, s, ev, tt, t0, k);
    }
  }

  // ------------------------------------------------------------------- every step

  lemma ForgetKeepsEpisode(g: Grant, s: State, ev: Event, tt: string, t0: Token, k: Option<nat>)
    requires Episode(g, s, tt, t0, k) && ev.Forget?
    ensures Episode(g, WorldStep(g, s, ev), tt, t0, k)
  {
    hide Base, Winner, CommitsFine, Like, FlightsFine, CallersFine, WaitsFine, CallsFine, CallsLogged;
  }

  lemma SaveKeepsRow(g: Grant, s: State, ev: Event, tt: string, base: Token)
    requires ev.SaveWrite? && ev.data.tokenType != tt && Like(g, base, s.Row(tt))
    ensures Like(g, base, WorldStep(g, s, ev).Row(tt))
  {
    assert tt in s.rows;
    hide Like, Decrypt, Prepared, RowWritten, Upserted, ScopesPut;
    LikeUntouched(g, base, s, WorldStep(g, s, ev), tt);
  }

  lemma ReencryptKeepsRow(g: Grant, s: State, ev: Event, tt: string, base: Token)
    requires ev.Reencrypt? && Like(g, base, s.Row(tt))
    ensures Like(g, base, WorldStep(g, s, ev).Row(tt))
  {
    assert tt in s.rows;
    hide Like, Decrypt;
    if ev.tokenType == tt && WorldStep(g, s, ev) != s {
      LikeReencrypted(g, base, s.Row(tt).value, ev.ciphertext);
      assert Some(Lazy.WithCiphertext(s.Row(tt).value, ev.ciphertext)) == WorldStep(g, s, ev).Row(tt);
    } else {
      LikeUntouched(g, base, s, WorldStep(g, s, ev), tt);
    }
  }

  /** Nobody outside the protocol makes another row of it. */
  lemma WorldKeepsRow(g: Grant, s: State, ev: Event, tt: string, base: Token)
    requires ByWorld(ev) && Calm(s, ev, tt) && Like(g, base, s.Row(tt))
    ensures Like(g, base, WorldStep(g, s, ev).Row(tt))
  {
    if ev.SaveWrite? {
      SaveKeepsRow(g, s, ev, tt, base);
      hide WorldStep;
    } else if ev.Reencrypt? {
      ReencryptKeepsRow(g, s, ev, tt, base);
      hide WorldStep;
    }
    hide Like, Decrypt;
  }

  lemma WorldKeepsEpisode(g: Grant, s: State, ev: Event, tt: string, t0: Token, k: Option<nat>)
    requires Episode(g, s, tt, t0, k) && Calm(s, ev, tt) && ByWorld(ev)
    ensures Episode(g, WorldStep(g, s, ev), tt, t0, k)
  {
    if ev.Forget? {
      ForgetKeepsEpisode(g, s, ev, tt, t0, k);
    } else {
      WorldKeepsRow(g, s, ev, tt, Base(s.commits, t0, k));
      WorldTouches(g, s, ev);
      OnlyForgetForgets(g, s, ev);
    }
    hide WorldStep, Base, Winner, CommitsFine, Like, FlightsFine, CallersFine, LinksFine, CallsFine, CallsLogged, State.Row;
  }

  lemma OnlyForgetForgets(g: Grant, s: State, ev: Event)
    requires ByWorld(ev) && !ev.Forget?
    ensures WorldStep(g, s, ev).live == s.live
  {
    if ev.SaveWrite? {
      SaveWriteTouches(g, s, ev);
      hide WorldStep;
    }
    hide Decrypt, State.Row;
  }

  lemma StepKeepsEpisode(g: Grant, s: State, ev: Event, tt: string, t0: Token, k: Option<nat>) returns (k': Option<nat>)
    requires Safe(g, s) && Episode(g, s, tt, t0, k) && Horizon(g, s, t0, k) && Calm(s, ev, tt)
    ensures Episode(g, Step(g, s, ev), tt, t0, k')
  {
    k' := k;
    if ev.Tick? {
      hide Base, Winner, CommitsFine, Like, FlightsFine, CallersFine, LinksFine, CallsFine, CallsLogged;
    } else if ByCaller(ev) {
      hide Episode, CallerStep;
      CallerKeepsEpisode(g, s, ev, tt, t0, k);
    } else if ByWorld(ev) {
      hide Episode, WorldStep;
      WorldKeepsEpisode(g, s, ev, tt, t0, k);
    } else if s.IsFlight(ev.f) {
      hide Episode, FlightStep;
      k' := FlightKeepsEpisode(g, s, ev, tt, t0, k);
    }
  }

  // --------------------------------------------------------------------- whole runs

  /** Time does not run backwards and no commit is forgotten. */
  lemma StepMonotone(g: Grant, s: State, ev: Event)
    ensures s.now <= Step(g, s, ev).now && s.commits <= Step(g, s, ev).commits
  {
    hide CallerStep, WorldStep, NextPhase, Enter;
    if ByCaller(ev) {
      CallerTouches(g, s, ev);
    } else if ByWorld(ev) {
      WorldTouches(g, s, ev);
    } else if !ev.Tick? && s.IsFlight(ev.f) {
      hide Step;
      if ev.CommitTx? && s.flights[ev.f].phase.Written? {
        StepPublishes(g, s, ev.f, ev.acknowledged);
      } else {
        StepQuiet(g, s, ev);
      }
    }
  }

  /** Tokens fresh at the end of a run were fresh all along. */
  lemma LongLivedBefore(g: Grant, s: State, ev: Event, tt: string)
    requires LongLived(g, Step(g, s, ev), tt)
    ensures LongLived(g, s, tt)
  {
    var t := Step(g, s, ev);
    StepMonotone(g, s, ev);
    hide Step;
    forall i | 0 <= i < |s.commits| && s.commits[i].tokenType == tt
      ensures Lasts(s.commits[i].data, s.commits[i].accessAt, s.now, g.window)
    {
      assert t.commits[i] == s.commits[i];
      LastsEarlier(s.commits[i].data, s.commits[i].accessAt, s.now, t.now, g.window);
    }
  }

  lemma LastsEarlier(data: TokenData, accessAt: int, earlier: int, later: int, window: int)
    requires earlier <= later
    ensures Lasts(data, accessAt, later, window) ==> Lasts(data, accessAt, earlier, window)
  {
    hide Seconds;
  }

  /** The state in which everybody finds one stale token. */
  ghost predicate Opening(g: Grant, s: State, tt: string, t0: Token) {
    Initial(s) && s.Row(tt) == Some(t0) && !FreshStored(Some(t0), s.now, g.window)
  }

  lemma {:induction false} EpisodeLasts(g: Grant, s0: State, evs: seq<Event>, tt: string, t0: Token) returns (k: Option<nat>)
    requires Opening(g, s0, tt, t0) && CalmRun(g, s0, evs, tt) && LongLived(g, Run(g, s0, evs), tt)
    ensures
      var s := Run(g, s0, evs);
      Safe(g, s) && Episode(g, s, tt, t0, k) && Horizon(g, s, t0, k)
  {
    hide Like, FreshStored, Step;
    if evs == [] {
      k := None;
      LikeItself(g, t0);
    } else {
      var front, ev := evs[..|evs| - 1], evs[|evs| - 1];
      var s, t := Run(g, s0, front), Run(g, s0, evs);
      LongLivedBefore(g, s, ev, tt);
      k := EpisodeLasts(g, s0, front, tt, t0);
      k := StepKeepsEpisode(g, s, ev, tt, t0, k);
      StepSafe(g, s, ev);
      StepMonotone(g, s, ev);
      FreshEarlier(g, Some(t0), s.now, t.now);
      LongLivedHorizon(g, t, tt, t0, k);
    }
  }

  lemma LongLivedHorizon(g: Grant, s: State, tt: string, t0: Token, k: Option<nat>)
    requires Episode(g, s, tt, t0, k) && LongLived(g, s, tt) && !FreshStored(Some(t0), s.now, g.window)
    ensures Horizon(g, s, t0, k)
  {
    if k.Some? {
      var commit := s.commits[k.value];
      LastingIsFresh(commit.row, commit.data, commit.accessAt, s.now, g.window);
    }
    hide FreshStored, Lasts, FlightsFine, CallersFine, LinksFine, CallsFine, CallsLogged, Like;
  }

  predicate NobodyFailed(s: State, tt: string) {
    forall f :: 0 <= f < |s.flights| && s.flights[f].tokenType == tt ==> s.flights[f].phase != Over(FlightFailed(true))
  }

  predicate ServedCaller(s: State, tt: string, c: nat) {
    c in s.callers && s.callers[c].tokenType == tt && s.callers[c].stage.Returned?
  }

  /** The token is the one that the provider answered with: its text, its type, and the
      expiry that follows from a stated lifetime. */
  ghost predicate GivesReply(g: Grant, token: Lazy.OAuthToken, commit: Commit) {
    && token.tokenType == commit.data.tokenType
    && (g.ring.aead.Sound() ==> token.accessToken == commit.data.accessToken)
    && (commit.data.expiresIn > 0 ==> token.expiresAt == Some(commit.accessAt + Seconds(commit.data.expiresIn)))
  }

  lemma ServedGivesReply(g: Grant, commit: Commit, token: Lazy.OAuthToken)
    requires MadeFrom(g, commit.row, commit.data, commit.accessAt) && Served(g, commit.row, token.scopes) == Some(token)
    ensures GivesReply(g, token, commit)
  {
    hide Decrypt, Seconds;
  }

  /** The row of commit i is the one everybody of this token type got. */
  ghost predicate ServesAll(g: Grant, s: State, tt: string, i: nat) {
    && i < |s.commits| && s.commits[i].tokenType == tt
    && forall c :: ServedCaller(s, tt, c) ==>
         && Served(g, s.commits[i].row, s.callers[c].stage.result.scopes) == Some(s.callers[c].stage.result)
         && GivesReply(g, s.callers[c].stage.result, s.commits[i])
  }

  lemma EverybodyServed(g: Grant, s: State, tt: string, t0: Token, i: nat)
    requires Episode(g, s, tt, t0, Some(i))
    ensures ServesAll(g, s, tt, i)
  {
    hide MadeFrom, Served, GivesReply, FlightsFine, LinksFine, CallsFine, CallsLogged, Like;
    forall c | ServedCaller(s, tt, c)
      ensures Served(g, s.commits[i].row, s.callers[c].stage.result.scopes) == Some(s.callers[c].stage.result)
      ensures GivesReply(g, s.callers[c].stage.result, s.commits[i])
    {
      assert StageFine(g, s.callers[c].stage, t0, Base(s.commits, t0, Some(i)), Some(i));
      ServedGivesReply(g, s.commits[i], s.callers[c].stage.result);
    }
  }

  /** Any number of callers find one stale token. As long as the refreshed token has not
      come back inside the window, in every interleaving: at most one refreshed row
      becomes visible; every caller that is served gets exactly that token; and the
      provider is asked again only after a flight that had asked it has failed. */
  lemma OneRefreshServesAll(g: Grant, s0: State, evs: seq<Event>, tt: string, t0: Token)
    requires Opening(g, s0, tt, t0) && CalmRun(g, s0, evs, tt) && LongLived(g, Run(g, s0, evs), tt)
    ensures
      var s := Run(g, s0, evs);
      && (forall i, j :: 0 <= i < j < |s.commits| ==> !(s.commits[i].tokenType == tt && s.commits[j].tokenType == tt))
      && (forall i, j :: 0 <= i < j < |s.calls| && s.calls[i].tokenType == tt && s.calls[j].tokenType == tt ==>
           FailedFlight(s.flights, s.calls[i].flight))
      && ((exists c :: ServedCaller(s, tt, c)) ==> exists i: nat :: ServesAll(g, s, tt, i))
  {
    var k := EpisodeLasts(g, s0, evs, tt, t0);
    var s := Run(g, s0, evs);
    if c :| ServedCaller(s, tt, c) {
      assert StageFine(g, s.callers[c].stage, t0, Base(s.commits, t0, k), k);
      EverybodyServed(g, s, tt, t0, k.value);
    }
  }

  /** When moreover no flight fails after asking, the provider is called at most once, and
      exactly once as soon as one caller has been served. */
  lemma ExactlyOneCall(g: Grant, s0: State, evs: seq<Event>, tt: string, t0: Token)
    requires Opening(g, s0, tt, t0) && CalmRun(g, s0, evs, tt) && LongLived(g, Run(g, s0, evs), tt)
    requires NobodyFailed(Run(g, s0, evs), tt)
    ensures
      var s := Run(g, s0, evs);
      && (forall i, j :: 0 <= i < |s.calls| && 0 <= j < |s.calls| && s.calls[i].tokenType == tt && s.calls[j].tokenType == tt ==>
           i == j)
      && ((exists c :: ServedCaller(s, tt, c)) ==> exists i :: 0 <= i < |s.calls| && s.calls[i].tokenType == tt)
  {
    var k := EpisodeLasts(g, s0, evs, tt, t0);
    var s := Run(g, s0, evs);
    assert forall i :: 0 <= i < |s.calls| && s.calls[i].tokenType == tt ==> !FailedFlight(s.flights, s.calls[i].flight);
    if c :| ServedCaller(s, tt, c) {
      assert StageFine(g, s.callers[c].stage, t0, Base(s.commits, t0, k), k);
      assert CalledBy(s.calls, tt, Winner(s.commits, k));
    }
  }

  /** Both conditions on the answer are needed. A flight holds an issued answer to a token
      that was stale when it looked; it writes, time passes, it commits. Afterwards the
      row is fresh exactly when the answer named the type that was asked for and states a
      lifetime that outlasts the window. */
  lemma RowFreshAfterCommit(g: Grant, s: State, f: nat, active: KeyId, amb: Ambient, elapsed: nat, acknowledged: bool)
    requires s.IsFlight(f) && s.flights[f].phase.Answered? && s.flights[f].phase.reply.Issued? && active in g.ring.keys
    requires !FreshStored(Some(s.flights[f].phase.stored), s.now, g.window)
    requires !FreshStored(s.Row(s.flights[f].tokenType), s.now, g.window)
    requires
      var me := s.flights[f];
      Prepared(Encryptor(g.ring, active), Some(me.phase.stored), g.id, me.account, me.phase.reply.data, amb).Ok?
    ensures
      var me := s.flights[f];
      var t := Step(g, Step(g, Step(g, s, Write(f, active, amb)), Tick(elapsed)), CommitTx(f, acknowledged));
      FreshStored(t.Row(me.tokenType), t.now, g.window) <==>
        me.phase.reply.data.tokenType == me.tokenType && Lasts(me.phase.reply.data, amb.accessAt, t.now, g.window)
  {
    var me := s.flights[f];
    var e, data, stored := Encryptor(g.ring, active), me.phase.reply.data, me.phase.stored;
    var token := Prepared(e, Some(stored), g.id, me.account, data, amb).value;
    var s1 := Step(g, s, Write(f, active, amb));
    StepQuiet(g, s, Write(f, active, amb));
    assert NextPhase(g, s, Write(f, active, amb)) == Written(token, stored, data, amb.accessAt);
    var s2 := Step(g, s1, Tick(elapsed));
    assert s2 == s1.(now := s.now + elapsed);
    StepPublishes(g, s2, f, acknowledged);
    FreshEarlier(g, Some(stored), s.now, s2.now);
    FreshEarlier(g, s.Row(me.tokenType), s.now, s2.now);
    var row, scopes := Upserted(s2.Row(data.tokenType), token), ScopesPut(s.scopes, token);
    ScopesDoNotAge(row, scopes, s2.now, g.window);
    if s.Row(me.tokenType).Some? {
      ScopesDoNotAge(s.Row(me.tokenType).value, scopes, s2.now, g.window);
    }
    MergedRowFresh(e, stored, s2.Row(data.tokenType), g.id, me.account, data, amb, s2.now, g.window);
    hide Step, Upserted, ScopesPut, FreshStored, Prepared, NextPhase, Lasts;
  }
}
