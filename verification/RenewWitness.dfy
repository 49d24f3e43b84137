/** One caller alone, from its first look to the refreshed token: the protocol does not
    only avoid mistakes, it also gets there. */
module RenewWitness {
  import opened Common
  import opened Envelope
  import opened TokenMerge
  import opened GrantRefresh
  import Lazy = LazyReencrypt
  import opened RenewProtocol
  import opened RenewEpisode

  lemma OneEventMore(g: Grant, s: State, evs: seq<Event>, ev: Event, tt: string)
    requires CalmRun(g, s, evs, tt) && Calm(Run(g, s, evs), ev, tt)
    ensures Run(g, s, evs + [ev]) == Step(g, Run(g, s, evs), ev)
    ensures CalmRun(g, s, evs + [ev], tt)
  {
    hide Step, Calm;
    assert (evs + [ev])[..|evs|] == evs;
  }

  /** The state with this caller waiting for the one flight, in this phase. */
  function Waiting(s: State, c: nat, host: nat, account: int, tt: string, phase: Phase): State {
    s.(callers := map[c := Caller(host, account, tt, Joined(0))], flights := [Flight(host, account, tt, phase)],
       live := map[(host, tt) := 0])
  }

  lemma CallerMoves(g: Grant, s: State, ev: Event, stage: Stage)
    requires ByCaller(ev) && !ev.Start? && !ev.Join? && ev.c in s.callers
    requires NextStage(g, s, ev) == stage != s.callers[ev.c].stage
    ensures Step(g, s, ev) == s.WithStage(ev.c, stage)
  {
    hide NextStage, Linked;
  }

  lemma LooksAndJudges(g: Grant, s: State, c: nat)
    requires c in s.callers
    ensures s.callers[c].stage.Ready? ==> NextStage(g, s, Peek(c)) == Peeked(s.Row(s.callers[c].tokenType))
    ensures
      var stage := s.callers[c].stage;
      stage.Peeked? && !FreshStored(stage.seen, s.now, g.window) && Lazy.Read(g.ring, stage.seen, s.now) != Err(Lazy.Unreadable) ==>
        NextStage(g, s, Judge(c)) == Slow
  {
    hide FreshStored, Lazy.Read, Linked;
  }

  lemma LandsAndFinishes(g: Grant, s: State, c: nat)
    requires c in s.callers
    ensures
      var me := s.callers[c];
      me.stage.Joined? && s.IsFlight(me.stage.flight) && s.flights[me.stage.flight].phase == Over(Refreshed) && Linked(g, s, me.account) ==>
        NextStage(g, s, Land(c)) == Reread(s.Row(me.tokenType))
    ensures
      var stage := s.callers[c].stage;
      stage.Reread? && Lazy.Read(g.ring, stage.seen, s.now).Ok? ==>
        NextStage(g, s, Finish(c)) == Returned(Lazy.Read(g.ring, stage.seen, s.now).value)
  {
    hide FreshStored, Lazy.Read, Linked;
  }

  lemma Peeks(g: Grant, s: State, tt: string, c: nat, host: nat, account: int) returns (evs: seq<Event>)
    requires s.callers == map[] && Linked(g, s, account)
    ensures Run(g, s, evs) == s.(callers := map[c := Caller(host, account, tt, Peeked(s.Row(tt)))]) && CalmRun(g, s, evs, tt)
  {
    var s1 := s.(callers := map[c := Caller(host, account, tt, Ready)]);
    Begins(g, s, tt, c, host, account);
    LooksAndJudges(g, s1, c);
    hide Step, NextStage, Linked;
    CallerMoves(g, s1, Peek(c), Peeked(s.Row(tt)));
    evs := [Start(c, host, account, tt)];
    OneEventMore(g, s, [], Start(c, host, account, tt), tt);
    assert [] + [Start(c, host, account, tt)] == evs;
    OneEventMore(g, s, evs, Peek(c), tt);
    evs := evs + [Peek(c)];
    assert s1.WithStage(c, Peeked(s.Row(tt))) == s.(callers := map[c := Caller(host, account, tt, Peeked(s.Row(tt)))]);
  }

  /** The caller finds the stale token. */
  lemma FindsStale(g: Grant, s: State, tt: string, t0: Token, c: nat, host: nat, account: int) returns (evs: seq<Event>)
    requires Opening(g, s, tt, t0) && Linked(g, s, account)
    requires Lazy.Read(g.ring, Some(t0), s.now) != Err(Lazy.Unreadable)
    ensures Run(g, s, evs) == s.(callers := map[c := Caller(host, account, tt, Slow)]) && CalmRun(g, s, evs, tt)
  {
    hide Run, CalmRun, Step, NextStage, Linked, FreshStored, Lazy.Read;
    evs := Peeks(g, s, tt, c, host, account);
    var s2 := s.(callers := map[c := Caller(host, account, tt, Peeked(Some(t0)))]);
    OneEventMore(g, s, evs, Judge(c), tt);
    evs := evs + [Judge(c)];
    LooksAndJudges(g, s2, c);
    CallerMoves(g, s2, Judge(c), Slow);
    assert s2.WithStage(c, Slow) == s.(callers := map[c := Caller(host, account, tt, Slow)]);
  }

  lemma Begins(g: Grant, s: State, tt: string, c: nat, host: nat, account: int)
    requires s.callers == map[] && Linked(g, s, account)
    ensures Step(g, s, Start(c, host, account, tt)) == s.(callers := map[c := Caller(host, account, tt, Ready)])
  {
    hide Linked, NextStage;
  }

  /** The caller finds the stale token and leads a flight. */
  lemma Arrives(g: Grant, s: State, tt: string, t0: Token, c: nat, host: nat, account: int) returns (evs: seq<Event>)
    requires Opening(g, s, tt, t0) && Linked(g, s, account)
    requires Lazy.Read(g.ring, Some(t0), s.now) != Err(Lazy.Unreadable)
    ensures Run(g, s, evs) == Waiting(s, c, host, account, tt, Begun) && CalmRun(g, s, evs, tt)
  {
    hide Linked, FreshStored, Lazy.Read, NextStage, Run, CalmRun;
    evs := FindsStale(g, s, tt, t0, c, host, account);
    OneEventMore(g, s, evs, Join(c), tt);
    evs := evs + [Join(c)];
  }

  /** The flight moves on with nobody else moving. */
  lemma FlightMoves(g: Grant, s: State, ev: Event)
    requires FlightEvent(ev) && |s.flights| == 1 && ev.f == 0
    requires !(ev.CommitTx? && s.flights[0].phase.Written?)
    ensures
      var t := Step(g, s, ev);
      && t == s.(flights := [s.flights[0].(phase := NextPhase(g, s, ev))], rowLocks := t.rowLocks, grantLock := t.grantLock,
                 calls := Logged(s, 0, NextPhase(g, s, ev)))
      && (NextPhase(g, s, ev).RowLocked? ==> t.grantLock == s.grantLock)
  {
    StepQuiet(g, s, ev);
    hide Step, NextPhase, Logged;
    var after := NextPhase(g, s, ev);
    assert s.flights[0 := s.flights[0].(phase := after)] == [s.flights[0].(phase := after)];
  }

  /** The flight takes its two locks. */
  lemma Locks(g: Grant, s: State, tt: string) returns (evs: seq<Event>)
    requires |s.flights| == 1 && s.flights[0].phase.Begun?
    requires s.grantLock.None? && s.flights[0].account !in s.rowLocks && Linked(g, s, s.flights[0].account)
    ensures
      var t := Run(g, s, evs);
      && t == s.(flights := [s.flights[0].(phase := Locked)], rowLocks := t.rowLocks, grantLock := t.grantLock)
      && CalmRun(g, s, evs, tt)
  {
    hide Step, FreshStored, RefreshMaterial, Linked, Prepared, State.Row;
    evs := [LockRow(0)];
    OneEventMore(g, s, [], LockRow(0), tt);
    assert [] + [LockRow(0)] == evs;
    FlightMoves(g, s, LockRow(0));
    var s1 := Run(g, s, evs);
    assert s1.flights[0].phase == RowLocked && s1.calls == s.calls;
    OneEventMore(g, s, evs, LockGrant(0), tt);
    evs := evs + [LockGrant(0)];
    FlightMoves(g, s1, LockGrant(0));
  }

  /** The flight takes its locks and looks at the row. */
  lemma Looks(g: Grant, s: State, tt: string, t0: Token) returns (evs: seq<Event>)
    requires |s.flights| == 1 && s.flights[0].phase.Begun? && s.flights[0].tokenType == tt
    requires s.grantLock.None? && s.flights[0].account !in s.rowLocks && Linked(g, s, s.flights[0].account)
    requires s.Row(tt) == Some(t0)
    ensures
      var t := Run(g, s, evs);
      && t == s.(flights := [s.flights[0].(phase := Looked(Some(t0)))], rowLocks := t.rowLocks, grantLock := t.grantLock)
      && CalmRun(g, s, evs, tt)
  {
    hide Step, FreshStored, RefreshMaterial, Linked, Prepared, Run, CalmRun;
    evs := Locks(g, s, tt);
    var s2 := Run(g, s, evs);
    OneEventMore(g, s, evs, Look(0), tt);
    evs := evs + [Look(0)];
    FlightMoves(g, s2, Look(0));
  }

  /** The flight finds the row stale and calls the provider. */
  lemma Asks(g: Grant, s: State, tt: string, t0: Token) returns (evs: seq<Event>)
    requires |s.flights| == 1 && s.flights[0].phase == Looked(Some(t0)) && s.flights[0].tokenType == tt
    requires !FreshStored(Some(t0), s.now, g.window) && RefreshMaterial(g.ring, t0, tt).Ok?
    ensures
      var t := Run(g, s, evs);
      && t == s.(flights := [s.flights[0].(phase := Asked(t0))], rowLocks := t.rowLocks, grantLock := t.grantLock, calls := t.calls)
      && |t.calls| == |s.calls| + 1 && t.calls[..|s.calls|] == s.calls && t.calls[|s.calls|].tokenType == tt
      && CalmRun(g, s, evs, tt)
  {
    hide Step, FreshStored, RefreshMaterial, Prepared;
    evs := [Decide(0)];
    OneEventMore(g, s, [], Decide(0), tt);
    assert [] + [Decide(0)] == evs;
    FlightMoves(g, s, Decide(0));
    var s1 := Run(g, s, evs);
    assert s1.flights[0].phase == Stale(t0, s.now) && s1.calls == s.calls;
    OneEventMore(g, s, evs, Ask(0), tt);
    evs := evs + [Ask(0)];
    FlightMoves(g, s1, Ask(0));
  }

  /** The provider answers and the refreshed row becomes visible. */
  lemma Answers(g: Grant, s: State, tt: string, reply: Reply, active: KeyId, amb: Ambient) returns (evs: seq<Event>)
    requires |s.flights| == 1 && s.flights[0].phase.Asked? && s.flights[0].tokenType == tt
    requires active in g.ring.keys && reply.Issued? && reply.data.tokenType == tt
    requires Prepared(Encryptor(g.ring, active), Some(s.flights[0].phase.stored), g.id, s.flights[0].account, reply.data, amb).Ok?
    ensures
      var me, t := s.flights[0], Run(g, s, evs);
      var token := Prepared(Encryptor(g.ring, active), Some(me.phase.stored), g.id, me.account, reply.data, amb).value;
      var row, scopes := Upserted(s.Row(tt), token), ScopesPut(s.scopes, token);
      && t == s.(flights := [me.(phase := Over(Refreshed))], rows := s.rows[tt := row], scopes := scopes,
                 commits := s.commits + [Commit(0, tt, WithScopes(row, scopes), reply.data, amb.accessAt)],
                 rowLocks := t.rowLocks, grantLock := t.grantLock)
      && CalmRun(g, s, evs, tt)
  {
    hide Step, Prepared, Upserted, ScopesPut;
    evs := [Answer(0, reply)];
    OneEventMore(g, s, [], Answer(0, reply), tt);
    assert [] + [Answer(0, reply)] == evs;
    FlightMoves(g, s, Answer(0, reply));
    var s1 := Run(g, s, evs);
    OneEventMore(g, s, evs, Write(0, active, amb), tt);
    evs := evs + [Write(0, active, amb)];
    FlightMoves(g, s1, Write(0, active, amb));
    var s2 := Run(g, s, evs);
    OneEventMore(g, s, evs, CommitTx(0, true), tt);
    evs := evs + [CommitTx(0, true)];
    StepPublishes(g, s2, 0, true);
  }

  /** The caller reads the committed row. */
  lemma Lands(g: Grant, s: State, c: nat, tt: string, row: Token, token: Lazy.OAuthToken) returns (evs: seq<Event>)
    requires |s.flights| == 1 && s.flights[0].phase == Over(Refreshed)
    requires c in s.callers && s.callers[c].stage == Joined(0) && s.callers[c].tokenType == tt && Linked(g, s, s.callers[c].account)
    requires s.Row(tt) == Some(row) && Lazy.Read(g.ring, Some(row), s.now) == Ok(token)
    ensures Run(g, s, evs) == s.WithStage(c, Returned(token)) && CalmRun(g, s, evs, tt)
  {
    hide Step, NextStage, Linked, Lazy.Read;
    evs := [Land(c)];
    OneEventMore(g, s, [], Land(c), tt);
    assert [] + [Land(c)] == evs;
    LandsAndFinishes(g, s, c);
    CallerMoves(g, s, Land(c), Reread(Some(row)));
    var s1 := s.WithStage(c, Reread(Some(row)));
    OneEventMore(g, s, evs, Finish(c), tt);
    evs := evs + [Finish(c)];
    LandsAndFinishes(g, s1, c);
    CallerMoves(g, s1, Finish(c), Returned(token));
    assert s1.WithStage(c, Returned(token)) == s.WithStage(c, Returned(token));
  }

  lemma {:induction false} RunAppends(g: Grant, s: State, evs: seq<Event>, more: seq<Event>, tt: string)
    requires CalmRun(g, s, evs, tt) && CalmRun(g, Run(g, s, evs), more, tt)
    ensures Run(g, s, evs + more) == Run(g, Run(g, s, evs), more)
    ensures CalmRun(g, s, evs + more, tt)
  {
    hide Step, Calm;
    if more == [] {
      assert evs + more == evs;
    } else {
      RunAppends(g, s, evs, more[..|more| - 1], tt);
      assert (evs + more)[..|evs + more| - 1] == evs + more[..|more| - 1];
    }
  }

  lemma ServesAlone(g: Grant, s: State, tt: string, t0: Token, c: nat, host: nat, account: int,
                    reply: Reply, active: KeyId, amb: Ambient, token: Lazy.OAuthToken) returns (evs: seq<Event>)
    requires Opening(g, s, tt, t0) && Linked(g, s, account) && account !in s.rowLocks
    requires Lazy.Read(g.ring, Some(t0), s.now) != Err(Lazy.Unreadable) && RefreshMaterial(g.ring, t0, tt).Ok?
    requires active in g.ring.keys && reply.Issued? && reply.data.tokenType == tt
    requires
      var prepared := Prepared(Encryptor(g.ring, active), Some(t0), g.id, account, reply.data, amb);
      && prepared.Ok?
      && var row := WithScopes(Upserted(Some(t0), prepared.value), ScopesPut(s.scopes, prepared.value));
         Lazy.Read(g.ring, Some(row), s.now) == Ok(token)
    ensures
      var t := Run(g, s, evs);
      && ServedCaller(t, tt, c) && t.callers[c].stage.result == token
      && |t.calls| == 1 && t.calls[0].tokenType == tt && |t.commits| == 1 && t.commits[0].tokenType == tt
      && CalmRun(g, s, evs, tt) && NobodyFailed(t, tt)
      && (Lasts(reply.data, amb.accessAt, s.now, g.window) ==> LongLived(g, t, tt))
  {
    hide Run, CalmRun, Linked, FreshStored, Lazy.Read, Prepared, Upserted, ScopesPut, RefreshMaterial, Lasts;
    var arrives := Arrives(g, s, tt, t0, c, host, account);
    var s1 := Run(g, s, arrives);
    SameLinks(g, s, s1, account);
    var looks := Looks(g, s1, tt, t0);
    var s1' := Run(g, s1, looks);
    var asks := Asks(g, s1', tt, t0);
    var s2 := Run(g, s1', asks);
    var answers := Answers(g, s2, tt, reply, active, amb);
    var s3 := Run(g, s2, answers);
    SameLinks(g, s1, s3, account);
    var prepared := Prepared(Encryptor(g.ring, active), Some(t0), g.id, account, reply.data, amb).value;
    var row := WithScopes(Upserted(Some(t0), prepared), ScopesPut(s.scopes, prepared));
    var lands := Lands(g, s3, c, tt, row, token);
    evs := arrives + looks + asks + answers + lands;
    RunAppends(g, s, arrives, looks, tt);
    RunAppends(g, s, arrives + looks, asks, tt);
    RunAppends(g, s, arrives + looks + asks, answers, tt);
    RunAppends(g, s, arrives + looks + asks + answers, lands, tt);
  }

  /** From every opening state whose locks are free, for every caller on a linked account,
      some calm run without anybody else ends with one provider call, one visible row, no
      failed flight, and the caller holding the refreshed token; and if the answer lasts,
      the run meets every hypothesis of the episode. */
  lemma SomeRunServes(g: Grant, s: State, tt: string, t0: Token, c: nat, host: nat, account: int,
                      reply: Reply, active: KeyId, amb: Ambient, token: Lazy.OAuthToken) returns (evs: seq<Event>)
    requires Opening(g, s, tt, t0) && Linked(g, s, account) && account !in s.rowLocks
    requires Lazy.Read(g.ring, Some(t0), s.now) != Err(Lazy.Unreadable) && RefreshMaterial(g.ring, t0, tt).Ok?
    requires active in g.ring.keys && reply.Issued? && reply.data.tokenType == tt
    requires
      var prepared := Prepared(Encryptor(g.ring, active), Some(t0), g.id, account, reply.data, amb);
      && prepared.Ok?
      && var row := WithScopes(Upserted(Some(t0), prepared.value), ScopesPut(s.scopes, prepared.value));
         Lazy.Read(g.ring, Some(row), s.now) == Ok(token)
    ensures
      var t := Run(g, s, evs);
      && ServedCaller(t, tt, c) && t.callers[c].stage.result == token
      && token.tokenType == tt && (g.ring.aead.Sound() ==> token.accessToken == reply.data.accessToken)
      && |t.calls| == 1 && t.calls[0].tokenType == tt && |t.commits| == 1 && t.commits[0].tokenType == tt
      && CalmRun(g, s, evs, tt) && NobodyFailed(t, tt)
      && (Lasts(reply.data, amb.accessAt, s.now, g.window) ==> LongLived(g, t, tt))
  {
    ReadsReply(g, s, t0, account, reply.data, active, amb, token);
    hide *;
    evs := ServesAlone(g, s, tt, t0, c, host, account, reply, active, amb, token);
  }

  lemma ReadsReply(g: Grant, s: State, t0: Token, account: int, data: TokenData, active: KeyId, amb: Ambient, token: Lazy.OAuthToken)
    requires active in g.ring.keys && Prepared(Encryptor(g.ring, active), Some(t0), g.id, account, data, amb).Ok?
    requires
      var prepared := Prepared(Encryptor(g.ring, active), Some(t0), g.id, account, data, amb).value;
      Lazy.Read(g.ring, Some(WithScopes(Upserted(Some(t0), prepared), ScopesPut(s.scopes, prepared))), s.now) == Ok(token)
    ensures token.tokenType == data.tokenType && (g.ring.aead.Sound() ==> token.accessToken == data.accessToken)
  {
    if g.ring.aead.Sound() {
      PreparedTokens(Encryptor(g.ring, active), Some(t0), g.id, account, data, amb);
    }
    hide Prepared, Decrypt;
  }

  lemma SameLinks(g: Grant, s: State, t: State, account: int)
    requires t.accounts == s.accounts
    ensures Linked(g, t, account) == Linked(g, s, account)
  {}
}
