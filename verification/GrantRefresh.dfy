/** One refresh of one grant inside its lock transaction: every way in and every way out. */
module GrantRefresh {
  import opened Common
  import opened Envelope
  import opened TokenMerge

  const TOKEN_TYPE_LONG_LIVED := "long_lived"
  const STATUS_ACTIVE := "active"
  const STATUS_REAUTH_REQUIRED := "reauth_required"
  const STATUS_DISCONNECTED := "disconnected"
  const SHARED_GRANT_REAUTH_REQUIRED := "SHARED_GRANT_REAUTH_REQUIRED"

  // ------------------------------------------------------------------- the store

  type RowKey = (int, string)

  datatype Health = Health(status: string, code: string)

  datatype Account = Account(grant: Option<int>, health: Health)

  /** The committed contents of the credential tables. The scopes belong to the grant, not
      to its token rows. */
  datatype Db = Db(rows: map<RowKey, Token>, scopes: map<int, seq<string>>, grants: map<int, Health>, accounts: map<int, Account>)

  datatype Write =
    | PutToken(token: Token)
    | PutHealth(grant: int, health: Health)
    | MarkInvalidGrant(grant: int, code: string)

  /** An upsert keeps what the incoming row leaves empty. */
  function Upserted(was: Option<Token>, token: Token): Token {
    if was.None? then token
    else token.(
      encryptedRefresh := if token.encryptedRefresh == [] then was.value.encryptedRefresh else token.encryptedRefresh,
      refreshExpiry := if token.refreshExpiry.None? then was.value.refreshExpiry else token.refreshExpiry)
  }

  function WithScopes(token: Token, scopes: seq<string>): Token {
    token.(grantedScopes := scopes, scopes := scopes)
  }

  /** The scopes of a grant after this row is put: its own, unless it has none. */
  function ScopesPut(scopes: seq<string>, token: Token): seq<string> {
    if token.KnownScopes() == [] then scopes else token.KnownScopes()
  }

  function ScopesOf(db: Db, grant: int): seq<string> {
    if grant in db.scopes then db.scopes[grant] else []
  }

  /** A token row as it is found, with the scopes of its grant. */
  function Find(db: Db, grant: int, tokenType: string): Option<Token> {
    if (grant, tokenType) in db.rows then Some(WithScopes(db.rows[(grant, tokenType)], ScopesOf(db, grant))) else None
  }

  function Key(token: Token): RowKey { (token.grant, token.tokenType) }

  function Reauthorize(account: Account, grant: int, code: string): Account {
    if account.grant == Some(grant) && account.health.status != STATUS_DISCONNECTED then
      account.(health := Health(STATUS_REAUTH_REQUIRED, code))
    else account
  }

  function Apply(db: Db, w: Write): Db {
    match w
    case PutToken(token) =>
      db.(rows := db.rows[Key(token) := Upserted(Find(db, token.grant, token.tokenType), token)],
          scopes := if token.KnownScopes() == [] then db.scopes else db.scopes[token.grant := token.KnownScopes()])
    case PutHealth(grant, health) => db.(grants := db.grants[grant := health])
    case MarkInvalidGrant(grant, code) =>
      db.(grants := db.grants[grant := Health(STATUS_REAUTH_REQUIRED, "invalid_grant")],
          accounts := map id | id in db.accounts :: Reauthorize(db.accounts[id], grant, code))
  }

  function ApplyAll(db: Db, ws: seq<Write>): Db {
    if ws == [] then db else Apply(ApplyAll(db, ws[..|ws| - 1]), ws[|ws| - 1])
  }

  class TokenStore {
    var db: Db
    // Which of the optional capabilities this store implements.
    const hasStatus: bool
    const hasStatusTx: bool
    const hasInvalidGrantTx: bool

    constructor (db: Db, hasStatus: bool, hasStatusTx: bool, hasInvalidGrantTx: bool)
      ensures this.db == db && this.hasStatus == hasStatus
      ensures this.hasStatusTx == hasStatusTx && this.hasInvalidGrantTx == hasInvalidGrantTx
    {
      this.db := db;
      this.hasStatus := hasStatus;
      this.hasStatusTx := hasStatusTx;
      this.hasInvalidGrantTx := hasInvalidGrantTx;
    }
  }

  /** How a commit can end: acknowledged; refused and rolled back by the server; applied
      with the acknowledgement lost; or not attempted because the context had ended,
      which leaves the transaction open. */
  datatype CommitOutcome = Acknowledged | Refused | AckLost | ContextEnded

  predicate Applies(c: CommitOutcome) { c.Acknowledged? || c.AckLost? }

  class LockTx {
    const store: TokenStore
    var pending: seq<Write>
    var done: bool
    // How many times the transaction really ended, as opposed to calls that found it over.
    var finishes: nat

    constructor (store: TokenStore)
      ensures this.store == store && pending == [] && !done && finishes == 0
    {
      this.store := store;
      pending := [];
      done := false;
      finishes := 0;
    }

    method Exec(w: Write)
      requires !done
      modifies this`pending
      ensures pending == old(pending) + [w]
    {
      pending := pending + [w];
    }

    method Commit(outcome: CommitOutcome) returns (ok: bool)
      modifies this, store
      ensures old(done) ==> !ok && unchanged(this) && unchanged(store)
      ensures !old(done) ==>
        && (ok <==> outcome.Acknowledged?)
        && (done <==> !outcome.ContextEnded?)
        && finishes == old(finishes) + (if done then 1 else 0)
        && store.db == if Applies(outcome) then ApplyAll(old(store.db), old(pending)) else old(store.db)
    {
      if done {
        return false;
      }
      if Applies(outcome) {
        store.db := ApplyAll(store.db, pending);
      }
      if !outcome.ContextEnded? {
        done := true;
        finishes := finishes + 1;
      }
      return outcome.Acknowledged?;
    }

    method Rollback()
      modifies this
      ensures done && finishes == old(finishes) + (if old(done) then 0 else 1)
    {
      if !done {
        done := true;
        finishes := finishes + 1;
        pending := [];
      }
    }
  }

  // ------------------------------------------------------------------- decisions

  datatype Reply = InvalidGrant | ProviderFailed | Issued(data: TokenData)

  datatype RenewError =
    | BeginFailed | ConnectionUnresolved | ConnectionChanged | LockFailed | LookupFailed
    | FreshCommitFailed | ModernGrantMissing | MaterialUnreadable | TokenExpired
    | ReauthUnavailable | MarkFailed | MarkCommitFailed | RefreshDenied
    | RefreshFailed | PersistFailed | StatusTxFailed | CommitFailed | StatusFailed

  /** Everything one refresh meets on its way. */
  datatype Env = Env(
    beginOk: bool, lockedGrant: Option<int>, lockOk: bool, findOk: bool, freshAt: int,
    amb: Ambient, markOk: bool, saveOk: bool, statusTxOk: bool, commit: CommitOutcome, statusOk: bool)

  /** The stored token is good for longer than the window; one without an expiry always is. */
  predicate FreshStored(stored: Option<Token>, now: int, window: int) {
    && stored.Some?
    && (stored.value.KnownExpiry().None? || Sub(stored.value.KnownExpiry().value, now) > window)
  }

  /** The reply states a lifetime that, from the moment it is stored, outlasts the window
      at this instant. A reply that omits the lifetime states none. */
  predicate Lasts(data: TokenData, accessAt: int, now: int, window: int) {
    data.expiresIn > 0 && Sub(accessAt + Seconds(data.expiresIn), now) > window
  }

  /** What the provider is asked with: the refresh token, or for long-lived tokens without
      one the access token itself. */
  function RefreshMaterial(ring: Keyring, stored: Token, tokenType: string): Result<Bytes, RenewError> {
    if stored.encryptedRefresh != [] then
      match Decrypt(ring, stored.encryptedRefresh)
      case Ok(text) => Ok(text)
      case Err(_) => Err(MaterialUnreadable)
    else if tokenType == TOKEN_TYPE_LONG_LIVED then
      match Decrypt(ring, stored.AccessCiphertext())
      case Ok(text) => Ok(text)
      case Err(_) => Err(MaterialUnreadable)
    else Err(TokenExpired)
  }

  /** The status a failed refresh leaves on the grant. */
  function ClassifyRefreshFailure(reply: Reply): Health
    requires !reply.Issued?
  {
    if reply.InvalidGrant? then Health(STATUS_REAUTH_REQUIRED, "invalid_grant")
    else Health("error", "refresh_failed")
  }

  class CredentialVault {
    const encryptor: Encryptor
    const store: TokenStore

    ghost predicate Valid() { encryptor.Valid() }

    constructor (encryptor: Encryptor, store: TokenStore)
      requires encryptor.Valid()
      ensures Valid() && this.encryptor == encryptor && this.store == store
    {
      this.encryptor := encryptor;
      this.store := store;
    }

    /** The refresh, owning its lock transaction: however it exits, a transaction that
        was begun has ended exactly once. called is the material the provider saw. */
    method RenewUnderGrantLock(account: int, tokenType: string, refresher: Bytes -> Reply, grant: int, window: int, env: Env)
      returns (err: Option<RenewError>, called: Option<Bytes>, lockTx: LockTx?)
      requires Valid()
      modifies store
      ensures lockTx == null <==> !env.beginOk
      ensures lockTx != null ==> fresh(lockTx) && lockTx.done && lockTx.finishes == 1
      ensures Exit(store.db, err, called) ==
        Refresh(encryptor, Caps(store.hasStatus, store.hasStatusTx, store.hasInvalidGrantTx),
                old(store.db), account, tokenType, refresher, grant, window, env)
    {
      if !env.beginOk {
        return Some(BeginFailed), None, null;
      }
      var tx := new LockTx(store);
      lockTx := tx;
      var committed;
      err, called, committed := RefreshInTx(tx, account, tokenType, refresher, grant, window, env);
      if !committed {
        tx.Rollback();
      }
    }

    method RefreshInTx(lockTx: LockTx, account: int, tokenType: string, refresher: Bytes -> Reply, grant: int, window: int, env: Env)
      returns (err: Option<RenewError>, called: Option<Bytes>, committed: bool)
      requires Valid() && env.beginOk
      requires lockTx.store == store && !lockTx.done && lockTx.finishes == 0 && lockTx.pending == []
      modifies store, lockTx
      ensures committed ==> lockTx.done
      ensures lockTx.finishes == if lockTx.done then 1 else 0
      ensures Exit(store.db, err, called) ==
        Refresh(encryptor, Caps(store.hasStatus, store.hasStatusTx, store.hasInvalidGrantTx),
                old(store.db), account, tokenType, refresher, grant, window, env)
    {
      hide Decrypt, Prepared, ApplyAll;
      if env.lockedGrant.None? {
        return Some(ConnectionUnresolved), None, false;
      }
      if env.lockedGrant.value != grant {
        return Some(ConnectionChanged), None, false;
      }
      if !env.lockOk {
        return Some(LockFailed), None, false;
      }
      if !env.findOk {
        return Some(LookupFailed), None, false;
      }
      var stored := Find(store.db, grant, tokenType);
      if FreshStored(stored, env.freshAt, window) {
        NothingPending(store.db);
        var ok := lockTx.Commit(env.commit);
        if !ok {
          return Some(FreshCommitFailed), None, false;
        }
        return None, None, true;
      }
      if stored.None? {
        return Some(ModernGrantMissing), None, false;
      }
      var material := RefreshMaterial(encryptor.ring, stored.value, tokenType);
      if material.Err? {
        return Some(material.error), None, false;
      }
      called := Some(material.value);
      var reply := refresher(material.value);
      if !reply.Issued? {
        err, committed := Denied(lockTx, grant, reply, env);
      } else {
        err, committed := Persist(lockTx, account, grant, stored.value, reply.data, env);
      }
    }

    /** The exits after the provider said no. */
    method Denied(lockTx: LockTx, grant: int, reply: Reply, env: Env) returns (err: Option<RenewError>, committed: bool)
      requires !reply.Issued?
      requires lockTx.store == store && !lockTx.done && lockTx.finishes == 0 && lockTx.pending == []
      modifies store, lockTx
      ensures committed ==> lockTx.done
      ensures lockTx.finishes == if lockTx.done then 1 else 0
      ensures (store.db, err) ==
        AfterDenial(Caps(store.hasStatus, store.hasStatusTx, store.hasInvalidGrantTx), old(store.db), grant, reply, env)
    {
      var failure := ClassifyRefreshFailure(reply);
      if reply.InvalidGrant? {
        if !store.hasInvalidGrantTx {
          lockTx.Rollback();
          return Some(ReauthUnavailable), true;
        }
        if !env.markOk {
          return Some(MarkFailed), false;
        }
        lockTx.Exec(MarkInvalidGrant(grant, SHARED_GRANT_REAUTH_REQUIRED));
        OnePending(store.db, lockTx.pending[0]);
        var ok := lockTx.Commit(env.commit);
        if !ok {
          return Some(MarkCommitFailed), false;
        }
        return Some(RefreshDenied), true;
      }
      lockTx.Rollback();
      var _ := UpdateGrantStatus(grant, failure, env.statusOk);
      return Some(RefreshFailed), true;
    }

    /** The exits after the provider issued a token. */
    method Persist(lockTx: LockTx, account: int, grant: int, stored: Token, data: TokenData, env: Env)
      returns (err: Option<RenewError>, committed: bool)
      requires Valid()
      requires lockTx.store == store && !lockTx.done && lockTx.finishes == 0 && lockTx.pending == []
      modifies store, lockTx
      ensures committed ==> lockTx.done
      ensures lockTx.finishes == if lockTx.done then 1 else 0
      ensures (store.db, err) ==
        AfterIssue(encryptor, Caps(store.hasStatus, store.hasStatusTx, store.hasInvalidGrantTx),
                   old(store.db), account, grant, stored, data, env)
    {
      hide Prepared;
      var token := PrepareTokenForOAuthConnection(encryptor, Err(()), grant, account, data, false, Some(stored), env.amb);
      if token.Err? || !env.saveOk {
        lockTx.Rollback();
        var _ := UpdateGrantStatus(grant, Health("error", "persist_failed"), env.statusOk);
        return Some(PersistFailed), true;
      }
      lockTx.Exec(PutToken(token.value));
      var statusInTx := false;
      if store.hasStatusTx {
        if !env.statusTxOk {
          lockTx.Rollback();
          return Some(StatusTxFailed), true;
        }
        lockTx.Exec(PutHealth(grant, Health(STATUS_ACTIVE, "")));
        statusInTx := true;
        TwoPending(store.db, lockTx.pending[0], lockTx.pending[1]);
      } else {
        OnePending(store.db, lockTx.pending[0]);
      }
      var ok := lockTx.Commit(env.commit);
      if !ok {
        return Some(CommitFailed), false;
      }
      if !statusInTx {
        var written := UpdateGrantStatus(grant, Health(STATUS_ACTIVE, ""), env.statusOk);
        if !written {
          return Some(StatusFailed), true;
        }
      }
      return None, true;
    }

    /** Encrypts and stores a token; lookup is the grant of the account, findOk and
        saveOk whether the store answered. Takes no lock. */
    method Save(account: int, lookup: Option<int>, data: TokenData, findOk: bool, saveOk: bool, amb: Ambient)
      returns (err: Option<SaveError>)
      requires Valid()
      modifies store
      ensures lookup.None? ==> err.Some? && store.db == old(store.db)
      ensures lookup.Some? ==>
        (store.db, err) == Saved(encryptor, old(store.db), lookup.value, account, data, findOk, saveOk, amb)
    {
      hide Prepared;
      if !amb.alive || lookup.None? {
        return Some(Cancelled);
      }
      var found := Find(store.db, lookup.value, data.tokenType);
      var token := PrepareTokenForOAuthConnection(encryptor, if findOk then Ok(found) else Err(()),
                                                  lookup.value, account, data, true, None, amb);
      if token.Err? {
        return Some(token.error);
      }
      if !saveOk {
        return Some(StoreFailed);
      }
      store.db := Apply(store.db, PutToken(token.value));
      return None;
    }

    /** The same operation under the name callers use to re-issue a token. */
    method Rotate(account: int, lookup: Option<int>, data: TokenData, findOk: bool, saveOk: bool, amb: Ambient)
      returns (err: Option<SaveError>)
      requires Valid()
      modifies store
      ensures lookup.None? ==> err.Some? && store.db == old(store.db)
      ensures lookup.Some? ==>
        (store.db, err) == Saved(encryptor, old(store.db), lookup.value, account, data, findOk, saveOk, amb)
    {
      err := Save(account, lookup, data, findOk, saveOk, amb);
    }

    method UpdateGrantStatus(grant: int, health: Health, statusOk: bool) returns (ok: bool)
      modifies store
      ensures ok <==> !store.hasStatus || statusOk
      ensures store.db == WithStatus(store.hasStatus, statusOk, old(store.db), grant, health)
    {
      if !store.hasStatus {
        return true;
      }
      if !statusOk {
        return false;
      }
      store.db := Apply(store.db, PutHealth(grant, health));
      return true;
    }
  }

  // ------------------------------------------------------------------ the effect

  datatype Caps = Caps(hasStatus: bool, hasStatusTx: bool, hasInvalidGrantTx: bool)

  /** How a refresh leaves the world. */
  datatype Exit = Exit(db: Db, err: Option<RenewError>, called: Option<Bytes>)

  function Saved(e: Encryptor, db: Db, grant: int, account: int, data: TokenData, findOk: bool, saveOk: bool, amb: Ambient)
    : (Db, Option<SaveError>)
    requires e.Valid()
  {
    var token := Prepared(e, Find(db, grant, data.tokenType), grant, account, data, amb);
    if !amb.alive then (db, Some(Cancelled))
    else if !findOk then (db, Some(FindFailed))
    else if token.Err? then (db, Some(token.error))
    else if !saveOk then (db, Some(StoreFailed))
    else (Apply(db, PutToken(token.value)), None)
  }

  function WithStatus(hasStatus: bool, statusOk: bool, db: Db, grant: int, health: Health): Db {
    if hasStatus && statusOk then Apply(db, PutHealth(grant, health)) else db
  }

  /** What stops a refresh before the provider is asked, if anything. */
  function Obstacle(grant: int, env: Env): Option<RenewError> {
    if !env.beginOk then Some(BeginFailed)
    else if env.lockedGrant.None? then Some(ConnectionUnresolved)
    else if env.lockedGrant.value != grant then Some(ConnectionChanged)
    else if !env.lockOk then Some(LockFailed)
    else if !env.findOk then Some(LookupFailed)
    else None
  }

  function Refresh(e: Encryptor, caps: Caps, db: Db, account: int, tokenType: string, refresher: Bytes -> Reply,
                   grant: int, window: int, env: Env): Exit
    requires e.Valid()
  {
    var stored := Find(db, grant, tokenType);
    if Obstacle(grant, env).Some? then Exit(db, Obstacle(grant, env), None)
    else if FreshStored(stored, env.freshAt, window) then
      Exit(db, if env.commit.Acknowledged? then None else Some(FreshCommitFailed), None)
    else if stored.None? then Exit(db, Some(ModernGrantMissing), None)
    else
      match RefreshMaterial(e.ring, stored.value, tokenType)
      case Err(why) => Exit(db, Some(why), None)
      case Ok(material) =>
        var reply := refresher(material);
        var (db', err) :=
          if reply.Issued? then AfterIssue(e, caps, db, account, grant, stored.value, reply.data, env)
          else AfterDenial(caps, db, grant, reply, env);
        Exit(db', err, Some(material))
  }

  function AfterDenial(caps: Caps, db: Db, grant: int, reply: Reply, env: Env): (Db, Option<RenewError>)
    requires !reply.Issued?
  {
    if reply.ProviderFailed? then
      (WithStatus(caps.hasStatus, env.statusOk, db, grant, Health("error", "refresh_failed")), Some(RefreshFailed))
    else if !caps.hasInvalidGrantTx then (db, Some(ReauthUnavailable))
    else if !env.markOk then (db, Some(MarkFailed))
    else
      (if Applies(env.commit) then Apply(db, MarkInvalidGrant(grant, SHARED_GRANT_REAUTH_REQUIRED)) else db,
       Some(if env.commit.Acknowledged? then RefreshDenied else MarkCommitFailed))
  }

  function AfterIssue(e: Encryptor, caps: Caps, db: Db, account: int, grant: int, stored: Token, data: TokenData, env: Env)
    : (Db, Option<RenewError>)
    requires e.Valid()
  {
    var token := Prepared(e, Some(stored), grant, account, data, env.amb);
    if token.Err? || !env.saveOk then
      (WithStatus(caps.hasStatus, env.statusOk, db, grant, Health("error", "persist_failed")), Some(PersistFailed))
    else
      var withToken := Apply(db, PutToken(token.value));
      var active := Health(STATUS_ACTIVE, "");
      if caps.hasStatusTx then
        if !env.statusTxOk then (db, Some(StatusTxFailed))
        else
          (if Applies(env.commit) then Apply(withToken, PutHealth(grant, active)) else db,
           if env.commit.Acknowledged? then None else Some(CommitFailed))
      else if env.commit.Acknowledged? then
        (WithStatus(caps.hasStatus, env.statusOk, withToken, grant, active),
         if caps.hasStatus && !env.statusOk then Some(StatusFailed) else None)
      else (if Applies(env.commit) then withToken else db, Some(CommitFailed))
  }

  ghost predicate RefreshedTo(db: Db, db': Db, token: Token) {
    && db' == db.(rows := db.rows[Key(token) := Upserted(Find(db, token.grant, token.tokenType), token)],
                  scopes := db'.scopes, grants := db.grants[token.grant := Health(STATUS_ACTIVE, "")])
    && ScopesOf(db', token.grant) == ScopesPut(ScopesOf(db, token.grant), token)
    && forall other :: other != token.grant ==> ScopesOf(db', other) == ScopesOf(db, other)
  }

  /** The grant and its linked accounts are marked, and nothing else changes. */
  ghost predicate MarkedDenied(db: Db, db': Db, grant: int) {
    && db' == db.(grants := db.grants[grant := Health(STATUS_REAUTH_REQUIRED, "invalid_grant")], accounts := db'.accounts)
    && db'.accounts.Keys == db.accounts.Keys
    && forall id :: id in db.accounts ==>
         db'.accounts[id].grant == db.accounts[id].grant
         && db'.accounts[id].health ==
            if db.accounts[id].grant == Some(grant) && db.accounts[id].health.status != STATUS_DISCONNECTED
            then Health(STATUS_REAUTH_REQUIRED, SHARED_GRANT_REAUTH_REQUIRED)
            else db.accounts[id].health
  }

  lemma DenialExits(caps: Caps, db: Db, grant: int, reply: Reply, env: Env)
    requires !reply.Issued? && caps.hasInvalidGrantTx
    ensures
      var (db', err) := AfterDenial(caps, db, grant, reply, env);
      && err.Some? && db'.rows == db.rows && db'.scopes == db.scopes
      && (err == Some(RefreshDenied) <==> reply.InvalidGrant? && env.markOk && env.commit.Acknowledged?)
      && (err == Some(RefreshDenied) ==> MarkedDenied(db, db', grant))
  {}

  lemma IssueExits(e: Encryptor, caps: Caps, db: Db, account: int, grant: int, stored: Token, data: TokenData, env: Env)
    requires e.Valid() && caps.hasStatusTx
    ensures
      var (db', err) := AfterIssue(e, caps, db, account, grant, stored, data, env);
      var token := Prepared(e, Some(stored), grant, account, data, env.amb);
      && err != Some(RefreshDenied)
      && (err.None? ==> token.Ok? && RefreshedTo(db, db', token.value))
      && (|| (db'.rows == db.rows && db'.scopes == db.scopes)
          || (token.Ok? && RefreshedTo(db, db', token.value) && (err.Some? ==> env.commit.AckLost?)))
  {
    hide Prepared, Upserted;
  }

  /** With a store that offers the transactional status writes: success means either an
      untouched fresh token or a new token together with an active grant; the rows change
      in no other way; a denied grant is marked, with its accounts, and keeps its row;
      every other failure leaves the rows as they were, unless the acknowledgement of the
      commit itself was lost. */
  lemma ExitsAreAtomic(e: Encryptor, caps: Caps, db: Db, account: int, tokenType: string, refresher: Bytes -> Reply,
                       grant: int, window: int, env: Env)
    requires e.Valid() && caps.hasStatusTx && caps.hasInvalidGrantTx
    ensures
      var x := Refresh(e, caps, db, account, tokenType, refresher, grant, window, env);
      var stored := Find(db, grant, tokenType);
      && (x.err.None? ==>
           || (x.db == db && x.called.None? && FreshStored(stored, env.freshAt, window))
           || (&& x.called.Some? && refresher(x.called.value).Issued?
               && var token := Prepared(e, Some(stored.value), grant, account, refresher(x.called.value).data, env.amb);
                  token.Ok? && RefreshedTo(db, x.db, token.value)))
      && (x.db.rows != db.rows || x.db.scopes != db.scopes ==>
           && x.called.Some? && refresher(x.called.value).Issued?
           && x.db.grants == db.grants[grant := Health(STATUS_ACTIVE, "")] && x.db.accounts == db.accounts)
      && (x.err == Some(RefreshDenied) <==>
           x.called.Some? && refresher(x.called.value).InvalidGrant? && env.markOk && env.commit.Acknowledged?)
      && (x.err == Some(RefreshDenied) ==> MarkedDenied(db, x.db, grant))
      && (x.err.Some? && !env.commit.AckLost? ==> x.db.rows == db.rows && x.db.scopes == db.scopes)
  {
    var stored := Find(db, grant, tokenType);
    if Obstacle(grant, env).None? && stored.Some? && !FreshStored(stored, env.freshAt, window)
       && RefreshMaterial(e.ring, stored.value, tokenType).Ok? {
      var reply := refresher(RefreshMaterial(e.ring, stored.value, tokenType).value);
      if reply.Issued? {
        IssueExits(e, caps, db, account, grant, stored.value, reply.data, env);
      } else {
        DenialExits(caps, db, grant, reply, env);
      }
    }
    hide Prepared, Decrypt, AfterIssue, AfterDenial, MarkedDenied, FreshStored, RefreshMaterial, Upserted, ScopesOf;
  }

  /** The refresh got as far as the stored row. */
  predicate Ready(grant: int, env: Env) {
    env.beginOk && env.lockedGrant == Some(grant) && env.lockOk && env.findOk
  }

  /** The expiry column, or its older alias where it is empty, is no further ahead than the
      window; a token without an expiry is never stale. */
  predicate StaleAt(token: Token, now: int, window: int) {
    if token.accessExpiry.Some? then Sub(token.accessExpiry.value, now) <= window
    else token.expiry.Some? && Sub(token.expiry.value, now) <= window
  }

  /** What would be sent, if it opens: the refresh token, or without one, for long-lived
      tokens only, the access token itself. */
  function Sendable(token: Token, tokenType: string): Option<Bytes> {
    if token.encryptedRefresh != [] then Some(token.encryptedRefresh)
    else if tokenType != "long_lived" then None
    else Some(if token.encryptedAccess == [] then token.encryptedToken else token.encryptedAccess)
  }

  /** The provider is asked exactly about a token that is stale under the lock and whose
      material opens, and it is asked with the text of that ciphertext. */
  lemma CalledOnlyWhenStale(e: Encryptor, caps: Caps, db: Db, account: int, tokenType: string, refresher: Bytes -> Reply,
                            grant: int, window: int, env: Env)
    requires e.Valid()
    ensures
      var x := Refresh(e, caps, db, account, tokenType, refresher, grant, window, env);
      var stored := Find(db, grant, tokenType);
      x.called.Some? <==>
        && Ready(grant, env) && stored.Some? && StaleAt(stored.value, env.freshAt, window)
        && Sendable(stored.value, tokenType).Some? && Decrypt(e.ring, Sendable(stored.value, tokenType).value).Ok?
    ensures
      var x := Refresh(e, caps, db, account, tokenType, refresher, grant, window, env);
      x.called.Some? ==>
        Decrypt(e.ring, Sendable(Find(db, grant, tokenType).value, tokenType).value) == Ok(x.called.value)
  {
    hide Prepared, Decrypt, AfterIssue, AfterDenial;
  }

  lemma CalledByDecision(e: Encryptor, caps: Caps, db: Db, account: int, tokenType: string, refresher: Bytes -> Reply,
                         grant: int, window: int, env: Env)
    requires e.Valid()
    ensures
      var x := Refresh(e, caps, db, account, tokenType, refresher, grant, window, env);
      var stored := Find(db, grant, tokenType);
      x.called.Some? <==>
        && Obstacle(grant, env).None? && stored.Some? && !FreshStored(stored, env.freshAt, window)
        && RefreshMaterial(e.ring, stored.value, tokenType).Ok?
  {
    hide Prepared, Decrypt, AfterIssue, AfterDenial, FreshStored, RefreshMaterial, Find;
  }

  /** So a refresh token that any holder of the same key wrote is sent as it was written;
      without one, a long-lived token sends itself and any other sends nothing. */
  lemma SentAsWritten(e: Encryptor, caps: Caps, db: Db, account: int, tokenType: string, refresher: Bytes -> Reply,
                      grant: int, window: int, env: Env, writer: Encryptor, nonce: Nonce, text: Bytes)
    requires e.Valid() && writer.Valid() && e.ring.aead.Sound() && writer.ring.aead == e.ring.aead
    requires writer.active in e.ring.keys && e.ring.keys[writer.active] == writer.ring.keys[writer.active]
    requires Ready(grant, env) && Find(db, grant, tokenType).Some?
    requires StaleAt(Find(db, grant, tokenType).value, env.freshAt, window)
    ensures
      var called := Refresh(e, caps, db, account, tokenType, refresher, grant, window, env).called;
      var stored := Find(db, grant, tokenType).value;
      && (stored.encryptedRefresh == Encrypted(writer, nonce, text) ==> called == Some(text))
      && (stored.encryptedRefresh == [] && tokenType == "long_lived" && stored.encryptedAccess == Encrypted(writer, nonce, text) ==>
           called == Some(text))
      && (stored.encryptedRefresh == [] && tokenType != "long_lived" ==> called == None)
  {
    CalledOnlyWhenStale(e, caps, db, account, tokenType, refresher, grant, window, env);
    DecryptUndoesEncrypt(writer, e.ring, nonce, text);
    assert Encrypted(writer, nonce, text) != [];
    hide Refresh, Decrypt, Encrypted;
  }

  /** Why a refresh ends without asking, each exit with its exact cause; and then nothing
      has changed. */
  lemma StopsExactly(e: Encryptor, caps: Caps, db: Db, account: int, tokenType: string, refresher: Bytes -> Reply,
                     grant: int, window: int, env: Env)
    requires e.Valid()
    ensures
      var x := Refresh(e, caps, db, account, tokenType, refresher, grant, window, env);
      var stored := Find(db, grant, tokenType);
      var stale := Ready(grant, env) && stored.Some? && StaleAt(stored.value, env.freshAt, window);
      && (x.called.None? ==> x.db == db)
      && (x.err == Some(BeginFailed) <==> !env.beginOk)
      && (x.err == Some(ConnectionUnresolved) <==> env.beginOk && env.lockedGrant.None?)
      && (x.err == Some(ConnectionChanged) <==> env.beginOk && env.lockedGrant.Some? && env.lockedGrant.value != grant)
      && (x.err == Some(LockFailed) <==> env.beginOk && env.lockedGrant == Some(grant) && !env.lockOk)
      && (x.err == Some(LookupFailed) <==> env.beginOk && env.lockedGrant == Some(grant) && env.lockOk && !env.findOk)
      && (x.err == Some(ModernGrantMissing) <==> Ready(grant, env) && stored.None?)
      && (x.err == Some(FreshCommitFailed) <==> Ready(grant, env) && stored.Some? && !stale && !env.commit.Acknowledged?)
      && (x.err == Some(TokenExpired) <==> stale && Sendable(stored.value, tokenType).None?)
      && (x.err == Some(MaterialUnreadable) <==>
           stale && Sendable(stored.value, tokenType).Some? && Decrypt(e.ring, Sendable(stored.value, tokenType).value).Err?)
      && (x.called.None? && x.err.None? <==> Ready(grant, env) && stored.Some? && !stale && env.commit.Acknowledged?)
  {
    hide Prepared, Decrypt;
    var stored := Find(db, grant, tokenType);
    if Ready(grant, env) && stored.Some? && !FreshStored(stored, env.freshAt, window)
       && RefreshMaterial(e.ring, stored.value, tokenType).Ok? {
      CalledErrors(e, caps, db, account, grant, stored.value, refresher(RefreshMaterial(e.ring, stored.value, tokenType).value), env);
    }
    hide AfterIssue, AfterDenial, Find;
  }

  /** Once the provider was asked, the error is one of the later exits. */
  lemma CalledErrors(e: Encryptor, caps: Caps, db: Db, account: int, grant: int, stored: Token, reply: Reply, env: Env)
    requires e.Valid()
    ensures reply.Issued? ==>
      AfterIssue(e, caps, db, account, grant, stored, reply.data, env).1 in {None, Some(PersistFailed), Some(StatusTxFailed), Some(CommitFailed), Some(StatusFailed)}
    ensures !reply.Issued? ==>
      AfterDenial(caps, db, grant, reply, env).1 in {Some(RefreshFailed), Some(ReauthUnavailable), Some(MarkFailed), Some(MarkCommitFailed), Some(RefreshDenied)}
  {
    hide Prepared;
  }

  /** How a refresh ends after the provider said no: a transient failure leaves its mark on
      the grant where the store can write one, and nothing else. */
  lemma DeniedExactly(caps: Caps, db: Db, grant: int, reply: Reply, env: Env)
    requires !reply.Issued?
    ensures
      var (db', err) := AfterDenial(caps, db, grant, reply, env);
      && (err == Some(RefreshFailed) <==> reply.ProviderFailed?)
      && (err == Some(ReauthUnavailable) <==> reply.InvalidGrant? && !caps.hasInvalidGrantTx)
      && (err == Some(MarkFailed) <==> reply.InvalidGrant? && caps.hasInvalidGrantTx && !env.markOk)
      && (err == Some(MarkCommitFailed) <==> reply.InvalidGrant? && caps.hasInvalidGrantTx && env.markOk && !env.commit.Acknowledged?)
      && (err == Some(RefreshDenied) <==> reply.InvalidGrant? && caps.hasInvalidGrantTx && env.markOk && env.commit.Acknowledged?)
      && db'.rows == db.rows && db'.scopes == db.scopes
      && (reply.ProviderFailed? ==>
           && db'.accounts == db.accounts
           && db'.grants == if caps.hasStatus && env.statusOk then db.grants[grant := Health("error", "refresh_failed")] else db.grants)
      && (reply.InvalidGrant? ==>
           if caps.hasInvalidGrantTx && env.markOk && (env.commit.Acknowledged? || env.commit.AckLost?) then MarkedDenied(db, db', grant)
           else db' == db)
  {}

  /** How a refresh ends after the provider issued a token. */
  lemma IssuedExactly(e: Encryptor, caps: Caps, db: Db, account: int, grant: int, stored: Token, data: TokenData, env: Env)
    requires e.Valid()
    ensures
      var (db', err) := AfterIssue(e, caps, db, account, grant, stored, data, env);
      var kept := Prepared(e, Some(stored), grant, account, data, env.amb).Ok? && env.saveOk;
      var written := kept && (caps.hasStatusTx ==> env.statusTxOk);
      && (err == Some(PersistFailed) <==> !kept)
      && (err == Some(StatusTxFailed) <==> kept && !written)
      && (err == Some(CommitFailed) <==> written && !env.commit.Acknowledged?)
      && (err == Some(StatusFailed) <==> written && env.commit.Acknowledged? && !caps.hasStatusTx && caps.hasStatus && !env.statusOk)
      && (err == None <==> written && env.commit.Acknowledged? && (caps.hasStatusTx || !caps.hasStatus || env.statusOk))
      && db'.accounts == db.accounts
      && (!kept ==>
           db' == db.(grants := if caps.hasStatus && env.statusOk then db.grants[grant := Health("error", "persist_failed")] else db.grants))
      && (kept && (!written || env.commit.Refused? || env.commit.ContextEnded?) ==> db' == db)
  {
    hide Prepared, Upserted, ScopesOf;
  }

  /** The rows and scopes after the provider issued a token: those with the merged row, or
      those of before. */
  lemma IssuePuts(e: Encryptor, caps: Caps, db: Db, account: int, grant: int, stored: Token, data: TokenData, env: Env)
    requires e.Valid()
    ensures
      var db' := AfterIssue(e, caps, db, account, grant, stored, data, env).0;
      var token := Prepared(e, Some(stored), grant, account, data, env.amb);
      if token.Ok? && env.saveOk && (caps.hasStatusTx ==> env.statusTxOk) && Applies(env.commit) then
        db'.rows == Apply(db, PutToken(token.value)).rows && db'.scopes == Apply(db, PutToken(token.value)).scopes
      else db'.rows == db.rows && db'.scopes == db.scopes
  {
    hide Prepared, Upserted, Find;
  }

  /** When a save succeeds and why it fails; a failed one changes nothing, and a successful
      one nothing but one row and the scopes of its grant. */
  lemma SaveExactly(e: Encryptor, db: Db, grant: int, account: int, data: TokenData, findOk: bool, saveOk: bool, amb: Ambient)
    requires e.Valid()
    ensures
      var (db', err) := Saved(e, db, grant, account, data, findOk, saveOk, amb);
      var token := Prepared(e, Find(db, grant, data.tokenType), grant, account, data, amb);
      && (err == Some(Cancelled) <==> !amb.alive)
      && (err == Some(FindFailed) <==> amb.alive && !findOk)
      && (err == Some(StoreFailed) <==> amb.alive && findOk && token.Ok? && !saveOk)
      && (err.None? <==> amb.alive && findOk && token.Ok? && saveOk)
      && (err.Some? ==> db' == db)
      && (err.None? ==>
           && db' == db.(rows := db.rows[(grant, data.tokenType) := Upserted(Find(db, grant, data.tokenType), token.value)], scopes := db'.scopes)
           && ScopesOf(db', grant) == ScopesPut(ScopesOf(db, grant), token.value)
           && forall other :: other != grant ==> ScopesOf(db', other) == ScopesOf(db, other))
  {
    PreparedFails(e, Find(db, grant, data.tokenType), grant, account, data, amb);
    hide Prepared, Decrypt, Upserted, Find;
  }

  ghost predicate GrantActive(db: Db, grant: int) {
    grant in db.grants && db.grants[grant] == Health(STATUS_ACTIVE, "")
  }

  /** Without the transactional status write a token can be stored on a grant that is not
      marked active: the mark is there exactly when it was there before, or when the
      commit was acknowledged and the separate status write succeeded. */
  lemma StatusGapExactly(e: Encryptor, caps: Caps, db: Db, account: int, grant: int, stored: Token, data: TokenData, env: Env)
    requires e.Valid() && !caps.hasStatusTx && Applies(env.commit)
    requires Prepared(e, Some(stored), grant, account, data, env.amb).Ok? && env.saveOk
    ensures
      var token := Prepared(e, Some(stored), grant, account, data, env.amb).value;
      var db' := AfterIssue(e, caps, db, account, grant, stored, data, env).0;
      && db'.rows == Apply(db, PutToken(token)).rows && db'.scopes == Apply(db, PutToken(token)).scopes
      && (GrantActive(db', grant) <==>
           GrantActive(db, grant) || (env.commit.Acknowledged? && caps.hasStatus && env.statusOk))
  {
    hide Prepared;
  }

  /** Merged over a stale row, a reply makes a fresh row exactly when it lasts: one that
      omits the lifetime keeps the stale expiry. */
  lemma MergedRowFresh(e: Encryptor, stored: Token, was: Option<Token>, grant: int, account: int, data: TokenData, amb: Ambient,
                       now: int, window: int)
    requires e.Valid() && Prepared(e, Some(stored), grant, account, data, amb).Ok?
    requires !FreshStored(Some(stored), now, window)
    ensures
      var row := Upserted(was, Prepared(e, Some(stored), grant, account, data, amb).value);
      FreshStored(Some(row), now, window) <==> Lasts(data, amb.accessAt, now, window)
  {
    hide Encrypted, Decrypt, NonBlank, Seconds;
  }

  lemma NothingPending(db: Db)
    ensures ApplyAll(db, []) == db
  {}

  lemma OnePending(db: Db, w: Write)
    ensures ApplyAll(db, [w]) == Apply(db, w)
  {
    assert [w][..0] == [];
  }

  lemma TwoPending(db: Db, w: Write, x: Write)
    ensures ApplyAll(db, [w, x]) == Apply(Apply(db, w), x)
  {
    assert [w, x][..1] == [w];
    OnePending(db, w);
  }
}
