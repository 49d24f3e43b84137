/** The life of one stored row over any sequence of saves, rotations and refreshes. */
module GrantHistory {
  import opened Common
  import opened Envelope
  import opened TokenMerge
  import opened GrantRefresh
  import Lazy = LazyReencrypt

  /** One atomic operation on a grant. Each may run in a process with its own active key. */
  datatype Op =
    | SaveOp(active: KeyId, account: int, data: TokenData, findOk: bool, saveOk: bool, amb: Ambient)
    | RenewOp(active: KeyId, caps: Caps, account: int, tokenType: string, refresher: Bytes -> Reply, window: int, env: Env)

  predicate ValidOp(ring: Keyring, op: Op) { op.active in ring.keys }

  function ApplyOp(ring: Keyring, db: Db, grant: int, op: Op): Db
    requires ValidOp(ring, op)
  {
    var e := Encryptor(ring, op.active);
    match op
    case SaveOp(_, account, data, findOk, saveOk, amb) =>
      Saved(e, db, grant, account, data, findOk, saveOk, amb).0
    case RenewOp(_, caps, account, tokenType, refresher, window, env) =>
      Refresh(e, caps, db, account, tokenType, refresher, grant, window, env).db
  }

  /** The provider data an operation stored, if it stored any. */
  function StoredData(ring: Keyring, db: Db, grant: int, op: Op): Option<TokenData>
    requires ValidOp(ring, op)
  {
    var e := Encryptor(ring, op.active);
    match op
    case SaveOp(_, account, data, findOk, saveOk, amb) =>
      if Saved(e, db, grant, account, data, findOk, saveOk, amb).1.None? then Some(data) else None
    case RenewOp(_, caps, account, tokenType, refresher, window, env) =>
      var x := Refresh(e, caps, db, account, tokenType, refresher, grant, window, env);
      if x.called.Some? && refresher(x.called.value).Issued?
         && Prepared(e, Find(db, grant, tokenType), grant, account, refresher(x.called.value).data, env.amb).Ok?
         && env.saveOk && (caps.hasStatusTx ==> env.statusTxOk) && Applies(env.commit)
      then Some(refresher(x.called.value).data)
      else None
  }

  /** The token type whose row an operation merges over: its own for a save; the one
      that was asked for, whatever the reply names, for a refresh. */
  function SourceType(op: Op, data: TokenData): string {
    if op.SaveOp? then data.tokenType else op.tokenType
  }

  function AmbientOf(op: Op): Ambient {
    if op.SaveOp? then op.amb else op.env.amb
  }

  /** The whole effect of an operation on the rows and scopes: nothing, or the merge of the
      source row with the stored data, put where the data says, and the scopes of the
      merged row, unless it has none. */
  ghost predicate RowEffect(ring: Keyring, db: Db, grant: int, op: Op)
    requires ValidOp(ring, op)
  {
    var after := ApplyOp(ring, db, grant, op);
    match StoredData(ring, db, grant, op)
    case None => after.rows == db.rows && after.scopes == db.scopes
    case Some(data) =>
      var source, was := Find(db, grant, SourceType(op, data)), Find(db, grant, data.tokenType);
      var merged := Prepared(Encryptor(ring, op.active), source, grant, op.account, data, AmbientOf(op));
      && merged.Ok?
      && after.rows == db.rows[(grant, data.tokenType) := Upserted(was, merged.value)]
      && after.scopes == (if merged.value.KnownScopes() == [] then db.scopes else db.scopes[grant := merged.value.KnownScopes()])
  }

  lemma OpOnRow(ring: Keyring, db: Db, grant: int, op: Op)
    requires ValidOp(ring, op)
    ensures RowEffect(ring, db, grant, op)
  {
    if op.SaveOp? {
      SaveOnRow(ring, db, grant, op);
    } else {
      RenewOnRow(ring, db, grant, op);
    }
    hide ApplyOp, StoredData, Prepared, Find, Upserted;
  }

  lemma SaveOnRow(ring: Keyring, db: Db, grant: int, op: Op)
    requires ValidOp(ring, op) && op.SaveOp?
    ensures RowEffect(ring, db, grant, op)
  {
    hide Prepared, Find, Upserted;
  }

  lemma RenewOnRow(ring: Keyring, db: Db, grant: int, op: Op)
    requires ValidOp(ring, op) && op.RenewOp?
    ensures RowEffect(ring, db, grant, op)
  {
    var e := Encryptor(ring, op.active);
    var x := Refresh(e, op.caps, db, op.account, op.tokenType, op.refresher, grant, op.window, op.env);
    RenewAfter(ring, db, grant, op);
    if x.called.Some? {
      var stored, reply := Find(db, grant, op.tokenType).value, op.refresher(x.called.value);
      if reply.Issued? {
        IssuePuts(e, op.caps, db, op.account, grant, stored, reply.data, op.env);
      } else {
        DeniedExactly(op.caps, db, grant, reply, op.env);
      }
    }
    hide Prepared, Find, Upserted, Refresh, AfterIssue, AfterDenial;
  }

  /** The database after a refresh is that of its last step. */
  lemma RenewAfter(ring: Keyring, db: Db, grant: int, op: Op)
    requires ValidOp(ring, op) && op.RenewOp?
    ensures
      var e, stored := Encryptor(ring, op.active), Find(db, grant, op.tokenType);
      var x := Refresh(e, op.caps, db, op.account, op.tokenType, op.refresher, grant, op.window, op.env);
      if x.called.None? then x.db == db
      else
        stored.Some? &&
        var reply := op.refresher(x.called.value);
        x.db == if reply.Issued? then AfterIssue(e, op.caps, db, op.account, grant, stored.value, reply.data, op.env).0
                else AfterDenial(op.caps, db, grant, reply, op.env).0
  {
    hide AfterIssue, AfterDenial, FreshStored, RefreshMaterial, Find;
  }

  // ------------------------------------------------------------------ histories

  ghost predicate ValidHistory(ring: Keyring, ops: seq<Op>) {
    forall i :: 0 <= i < |ops| ==> ValidOp(ring, ops[i])
  }

  function ApplyOps(ring: Keyring, db: Db, grant: int, ops: seq<Op>): Db
    requires forall i :: 0 <= i < |ops| ==> ValidOp(ring, ops[i])
  {
    if ops == [] then db
    else ApplyOp(ring, ApplyOps(ring, db, grant, ops[..|ops| - 1]), grant, ops[|ops| - 1])
  }

  /** What the last operation of a non-empty history stored in rows of this type. */
  function LastData(ring: Keyring, db: Db, grant: int, tokenType: string, ops: seq<Op>): Option<TokenData>
    requires ops != [] && forall i :: 0 <= i < |ops| ==> ValidOp(ring, ops[i])
  {
    var data := StoredData(ring, ApplyOps(ring, db, grant, ops[..|ops| - 1]), grant, ops[|ops| - 1]);
    if data.Some? && data.value.tokenType == tokenType then data else None
  }

  function RefreshCiphertext(db: Db, grant: int, tokenType: string): Bytes {
    match Find(db, grant, tokenType)
    case Some(row) => row.encryptedRefresh
    case None => []
  }

  function StoredRefresh(ring: Keyring, db: Db, grant: int, tokenType: string): Option<Bytes> {
    match Decrypt(ring, RefreshCiphertext(db, grant, tokenType))
    case Ok(text) => Some(text)
    case Err(_) => None
  }

  /** The scopes of the grant, for rows of every type. */
  function StoredScopes(db: Db, grant: int): seq<string> { NonBlank(ScopesOf(db, grant)) }

  /** An empty ciphertext is no ciphertext. */
  lemma EmptyUnreadable(ring: Keyring)
    ensures Decrypt(ring, []).Err?
  {}

  /** What one merge does to the refresh ciphertext of a row. */
  lemma MergeKeeps(e: Encryptor, source: Option<Token>, was: Option<Token>, grant: int, account: int, data: TokenData, amb: Ambient)
    requires e.Valid() && e.ring.aead.Sound()
    requires Prepared(e, source, grant, account, data, amb).Ok?
    ensures
      var row := Upserted(was, Prepared(e, source, grant, account, data, amb).value);
      && (data.refreshToken != [] ==> Decrypt(e.ring, row.encryptedRefresh) == Ok(data.refreshToken))
      && (data.refreshToken == [] ==>
           row.encryptedRefresh ==
             if source.Some? && source.value.encryptedRefresh != [] then source.value.encryptedRefresh
             else if was.Some? then was.value.encryptedRefresh
             else [])
      && (KeepsRefresh(source, data) ==> Decrypt(e.ring, source.value.encryptedRefresh).Ok?)
  {
    if data.refreshToken != [] {
      EncryptedReadable(e, amb.refreshNonce.value, data.refreshToken);
    }
    hide Encrypted, Decrypt, NonBlank;
  }

  /** The scopes of a merged row are those of the data, or else those that were found. */
  lemma MergeScopes(e: Encryptor, source: Option<Token>, grant: int, account: int, data: TokenData, amb: Ambient)
    requires e.Valid() && Prepared(e, source, grant, account, data, amb).Ok?
    ensures
      var scopes := Prepared(e, source, grant, account, data, amb).value.KnownScopes();
      && NonBlank(scopes) == scopes
      && scopes == (if NonBlank(data.scopes) != [] then NonBlank(data.scopes)
                    else if source.Some? then NonBlank(source.value.KnownScopes()) else [])
  {
    hide Encrypted, Decrypt, NonBlank;
    NonBlankIdempotent(ScopesAfter(source, data));
  }

  // ---------------------------------------------------- what every operation conserves

  /** The refresh token that the history leaves in rows of this type: the last one
      supplied with this type, or the one that a reply of this type carried over from
      the row it was asked about. */
  function LastRefresh(ring: Keyring, db: Db, grant: int, tokenType: string, ops: seq<Op>): Option<Bytes>
    requires forall i :: 0 <= i < |ops| ==> ValidOp(ring, ops[i])
    decreases |ops|
  {
    if ops == [] then StoredRefresh(ring, db, grant, tokenType)
    else
      var front := ops[..|ops| - 1];
      match LastData(ring, db, grant, tokenType, ops)
      case Some(data) =>
        var source := LastRefresh(ring, db, grant, SourceType(ops[|ops| - 1], data), front);
        if data.refreshToken != [] then Some(data.refreshToken)
        else if source.Some? then source
        else LastRefresh(ring, db, grant, tokenType, front)
      case None => LastRefresh(ring, db, grant, tokenType, front)
  }

  /** The last scope list with a non-blank entry that any operation stored, whatever type
      it named. */
  function LastScopes(ring: Keyring, db: Db, grant: int, ops: seq<Op>): seq<string>
    requires forall i :: 0 <= i < |ops| ==> ValidOp(ring, ops[i])
  {
    if ops == [] then StoredScopes(db, grant)
    else
      var front := ops[..|ops| - 1];
      var data := StoredData(ring, ApplyOps(ring, db, grant, front), grant, ops[|ops| - 1]);
      if data.Some? && NonBlank(data.value.scopes) != [] then NonBlank(data.value.scopes)
      else LastScopes(ring, db, grant, front)
  }

  /** Conservation: after any history of saves, rotations and refreshes, with replies of
      any token type, the stored refresh token and the scopes of the grant are those. */
  lemma {:induction false} RefreshAndScopesConserved(ring: Keyring, db: Db, grant: int, tokenType: string, ops: seq<Op>)
    requires ring.aead.Sound() && ValidHistory(ring, ops)
    ensures
      var after := ApplyOps(ring, db, grant, ops);
      && StoredRefresh(ring, after, grant, tokenType) == LastRefresh(ring, db, grant, tokenType, ops)
      && StoredScopes(after, grant) == LastScopes(ring, db, grant, ops)
    decreases |ops|
  {
    hide ApplyOp, StoredData, StoredRefresh, StoredScopes, NonBlank;
    if ops != [] {
      var front, op := ops[..|ops| - 1], ops[|ops| - 1];
      var before := ApplyOps(ring, db, grant, front);
      RefreshAndScopesConserved(ring, db, grant, tokenType, front);
      StepConserves(ring, before, grant, tokenType, op);
      ScopesStep(ring, before, grant, op);
      var data := StoredData(ring, before, grant, op);
      if data.Some? {
        RefreshAndScopesConserved(ring, db, grant, SourceType(op, data.value), front);
      }
    }
  }

  /** One operation, seen from the scopes of the grant. */
  lemma ScopesStep(ring: Keyring, db: Db, grant: int, op: Op)
    requires ValidOp(ring, op)
    ensures
      var data := StoredData(ring, db, grant, op);
      StoredScopes(ApplyOp(ring, db, grant, op), grant) ==
        if data.Some? && NonBlank(data.value.scopes) != [] then NonBlank(data.value.scopes) else StoredScopes(db, grant)
  {
    hide Prepared, Decrypt, Encrypted, NonBlank, Upserted, ApplyOp, StoredData;
    OpOnRow(ring, db, grant, op);
    var data := StoredData(ring, db, grant, op);
    if data.Some? {
      MergeScopes(Encryptor(ring, op.active), Find(db, grant, SourceType(op, data.value)), grant, op.account, data.value, AmbientOf(op));
    }
  }

  /** One operation, seen from the rows of one type. */
  lemma StepConserves(ring: Keyring, db: Db, grant: int, tokenType: string, op: Op)
    requires ring.aead.Sound() && ValidOp(ring, op)
    ensures
      var after := ApplyOp(ring, db, grant, op);
      var data := StoredData(ring, db, grant, op);
      if data.None? || data.value.tokenType != tokenType then
        && RefreshCiphertext(after, grant, tokenType) == RefreshCiphertext(db, grant, tokenType)
        && StoredRefresh(ring, after, grant, tokenType) == StoredRefresh(ring, db, grant, tokenType)
      else
        var from := SourceType(op, data.value);
        && (data.value.refreshToken != [] ==> StoredRefresh(ring, after, grant, tokenType) == Some(data.value.refreshToken))
        && (data.value.refreshToken == [] ==>
             && RefreshCiphertext(after, grant, tokenType) ==
                (if RefreshCiphertext(db, grant, from) != [] then RefreshCiphertext(db, grant, from)
                 else RefreshCiphertext(db, grant, tokenType))
             && StoredRefresh(ring, after, grant, tokenType) ==
                (if StoredRefresh(ring, db, grant, from).Some? then StoredRefresh(ring, db, grant, from)
                 else StoredRefresh(ring, db, grant, tokenType)))
  {
    hide Prepared, Decrypt, Encrypted, NonBlank, Upserted, ApplyOp, StoredData;
    OpOnRow(ring, db, grant, op);
    EmptyUnreadable(ring);
    var data := StoredData(ring, db, grant, op);
    if data.Some? {
      MergeKeeps(Encryptor(ring, op.active), Find(db, grant, SourceType(op, data.value)),
                 Find(db, grant, data.value.tokenType), grant, op.account, data.value, AmbientOf(op));
    }
  }

  // ----------------------------------------------- the access token, and what is sent

  function StoredAccess(ring: Keyring, db: Db, grant: int, tokenType: string): Option<Bytes> {
    match Find(db, grant, tokenType)
    case Some(row) => (match Decrypt(ring, row.AccessCiphertext()) case Ok(text) => Some(text) case Err(_) => None)
    case None => None
  }

  /** The access token that an operation last stored with this type. */
  function LastAccess(ring: Keyring, db: Db, grant: int, tokenType: string, ops: seq<Op>): Option<Bytes>
    requires forall i :: 0 <= i < |ops| ==> ValidOp(ring, ops[i])
  {
    if ops == [] then StoredAccess(ring, db, grant, tokenType)
    else
      match LastData(ring, db, grant, tokenType, ops)
      case Some(data) => Some(data.accessToken)
      case None => LastAccess(ring, db, grant, tokenType, ops[..|ops| - 1])
  }

  lemma UpsertReplaces(was: Option<Token>, token: Token)
    ensures
      var row := Upserted(was, token);
      && row == token.(encryptedRefresh := row.encryptedRefresh, refreshExpiry := row.refreshExpiry)
      && row.refreshExpiry == (if token.refreshExpiry.None? && was.Some? then was.value.refreshExpiry else token.refreshExpiry)
      && row.encryptedRefresh == (if token.encryptedRefresh == [] && was.Some? then was.value.encryptedRefresh else token.encryptedRefresh)
  {}

  lemma MergedAccess(e: Encryptor, source: Option<Token>, was: Option<Token>, grant: int, account: int, data: TokenData, amb: Ambient)
    requires e.Valid() && e.ring.aead.Sound() && Prepared(e, source, grant, account, data, amb).Ok?
    ensures Decrypt(e.ring, Upserted(was, Prepared(e, source, grant, account, data, amb).value).AccessCiphertext()) == Ok(data.accessToken)
  {
    PreparedTokens(e, source, grant, account, data, amb);
    hide Prepared, Decrypt;
  }

  lemma AccessStep(ring: Keyring, db: Db, grant: int, tokenType: string, op: Op)
    requires ring.aead.Sound() && ValidOp(ring, op)
    ensures
      var data := StoredData(ring, db, grant, op);
      StoredAccess(ring, ApplyOp(ring, db, grant, op), grant, tokenType) ==
        if data.Some? && data.value.tokenType == tokenType then Some(data.value.accessToken) else StoredAccess(ring, db, grant, tokenType)
  {
    hide ApplyOp, StoredData, Prepared, Upserted, Decrypt;
    OpOnRow(ring, db, grant, op);
    var data := StoredData(ring, db, grant, op);
    if data.Some? {
      MergedAccess(Encryptor(ring, op.active), Find(db, grant, SourceType(op, data.value)), Find(db, grant, data.value.tokenType),
                   grant, op.account, data.value, AmbientOf(op));
    }
    hide SourceType, AmbientOf, ScopesOf;
  }

  /** After any history the stored access token is the last one stored with its type. */
  lemma {:induction false} AccessConserved(ring: Keyring, db: Db, grant: int, tokenType: string, ops: seq<Op>)
    requires ring.aead.Sound() && ValidHistory(ring, ops)
    ensures StoredAccess(ring, ApplyOps(ring, db, grant, ops), grant, tokenType) == LastAccess(ring, db, grant, tokenType, ops)
  {
    hide ApplyOp, StoredData, StoredAccess;
    if ops != [] {
      var front := ops[..|ops| - 1];
      AccessConserved(ring, db, grant, tokenType, front);
      AccessStep(ring, ApplyOps(ring, db, grant, front), grant, tokenType, ops[|ops| - 1]);
    }
  }

  /** After any history a refresh that finds the row stale asks with the last refresh
      token; a long-lived row that has none asks with the last access token, any other
      such row asks nothing. */
  lemma AskedWithTheLast(ring: Keyring, db: Db, grant: int, tokenType: string, ops: seq<Op>, active: KeyId, caps: Caps, account: int,
                         refresher: Bytes -> Reply, window: int, env: Env)
    requires ring.aead.Sound() && ValidHistory(ring, ops) && active in ring.keys && Ready(grant, env)
    requires
      var row := Find(ApplyOps(ring, db, grant, ops), grant, tokenType);
      row.Some? && StaleAt(row.value, env.freshAt, window)
    ensures
      var after := ApplyOps(ring, db, grant, ops);
      Refresh(Encryptor(ring, active), caps, after, account, tokenType, refresher, grant, window, env).called ==
        if RefreshCiphertext(after, grant, tokenType) != [] then LastRefresh(ring, db, grant, tokenType, ops)
        else if tokenType == "long_lived" then LastAccess(ring, db, grant, tokenType, ops)
        else None
  {
    var after := ApplyOps(ring, db, grant, ops);
    RefreshAndScopesConserved(ring, db, grant, tokenType, ops);
    AccessConserved(ring, db, grant, tokenType, ops);
    CalledOnlyWhenStale(Encryptor(ring, active), caps, after, account, tokenType, refresher, grant, window, env);
    hide ApplyOps, Refresh, Decrypt, LastRefresh, LastAccess, LastScopes, StoredScopes, StaleAt;
  }

  /** A save and then a read: until its expiry the very access token comes back, with its
      type, its expiry and its scopes; afterwards nothing does. */
  lemma ReadAfterSave(e: Encryptor, db: Db, grant: int, account: int, data: TokenData, amb: Ambient, reader: Keyring, now: int)
    requires e.Valid() && e.ring.aead.Sound() && reader == e.ring
    requires Saved(e, db, grant, account, data, true, true, amb).1.None?
    ensures
      var db', was := Saved(e, db, grant, account, data, true, true, amb).0, Find(db, grant, data.tokenType);
      var expiry :=
        if data.expiresIn > 0 then amb.accessAt + Seconds(data.expiresIn)
        else if was.Some? && was.value.accessExpiry.Some? then was.value.accessExpiry.value
        else if was.Some? && was.value.expiry.Some? then was.value.expiry.value
        else amb.accessAt;
      Lazy.Read(reader, Find(db', grant, data.tokenType), now) ==
        if expiry < now then Err(Lazy.TokenExpired)
        else Ok(Lazy.OAuthToken(data.accessToken, data.tokenType, Some(expiry), ScopesOf(db', grant)))
  {
    var was, db' := Find(db, grant, data.tokenType), Saved(e, db, grant, account, data, true, true, amb).0;
    SaveExactly(e, db, grant, account, data, true, true, amb);
    PreparedTokens(e, was, grant, account, data, amb);
    PreparedExpiries(e, was, grant, account, data, amb);
    var token := Prepared(e, was, grant, account, data, amb).value;
    UpsertReplaces(was, token);
    Lazy.ReadExactly(reader, Find(db', grant, data.tokenType), now);
    hide Saved, Prepared, Upserted, Lazy.Read, Decrypt, Seconds, ScopesOf;
    assert Find(db', grant, data.tokenType) == Some(WithScopes(Upserted(was, token), ScopesOf(db', grant)));
  }

  // ------------------------------------------------------ replies of another token type

  /** A reply that names another type than the one that was asked for. The row that was
      asked about stays as it was. If the reply omits the refresh token, the named row
      keeps its ciphertext exactly when the other one has none or the very same. */
  lemma CrossingReplyExactly(ring: Keyring, db: Db, grant: int, op: Op)
    requires ring.aead.Sound() && ValidOp(ring, op) && StoredData(ring, db, grant, op).Some?
    requires SourceType(op, StoredData(ring, db, grant, op).value) != StoredData(ring, db, grant, op).value.tokenType
    ensures
      var data, after := StoredData(ring, db, grant, op).value, ApplyOp(ring, db, grant, op);
      var asked, named := op.tokenType, data.tokenType;
      && op.RenewOp? && (grant, asked) in db.rows && (grant, asked) in after.rows
      && after.rows[(grant, asked)] == db.rows[(grant, asked)]
      && (data.refreshToken == [] ==>
           (RefreshCiphertext(after, grant, named) == RefreshCiphertext(db, grant, named) <==>
              RefreshCiphertext(db, grant, asked) == [] || RefreshCiphertext(db, grant, asked) == RefreshCiphertext(db, grant, named)))
  {
    var data := StoredData(ring, db, grant, op).value;
    hide ApplyOp, StoredData, Prepared, Upserted, StoredRefresh;
    OpOnRow(ring, db, grant, op);
    StepConserves(ring, db, grant, data.tokenType, op);
  }

  /** Such a reply does overwrite a refresh token that nobody meant to touch: asked about
      the long-lived row, it is stored under the other type with the long-lived row's
      refresh token. */
  lemma CrossingReplyOverwrites(e: Encryptor, grant: int, nonce: Nonce, row: Token) returns (db: Db, op: Op)
    requires e.Valid() && e.ring.aead.Sound()
    ensures ValidOp(e.ring, op)
    ensures StoredRefresh(e.ring, db, grant, "bearer") == Some([2])
    ensures StoredRefresh(e.ring, ApplyOp(e.ring, db, grant, op), grant, "bearer") == Some([1])
  {
    var data := TokenData([], [], "", "bearer", 0, 0, []);
    var env := Env(true, Some(grant), true, true, 1, Ambient(true, 1, 1, 1, Some(nonce), Some(nonce)), true, true, true, Acknowledged, true);
    EncryptedReadable(e, nonce, [1]);
    EncryptedReadable(e, nonce, [2]);
    var asked := row.(grant := grant, tokenType := TOKEN_TYPE_LONG_LIVED, accessExpiry := Some(0), encryptedRefresh := Encrypted(e, nonce, [1]));
    var named := row.(grant := grant, tokenType := "bearer", encryptedRefresh := Encrypted(e, nonce, [2]));
    db := Db(map[(grant, TOKEN_TYPE_LONG_LIVED) := asked, (grant, "bearer") := named], map[], map[], map[]);
    op := RenewOp(e.active, Caps(true, true, true), 0, TOKEN_TYPE_LONG_LIVED, m => Issued(data), 0, env);
    hide Encrypted, Decrypt, NonBlank;
    assert Encryptor(e.ring, op.active) == e && Find(db, grant, TOKEN_TYPE_LONG_LIVED) == Some(WithScopes(asked, []));
    assert StoredData(e.ring, db, grant, op) == Some(data);
    StepConserves(e.ring, db, grant, "bearer", op);
  }

  /** The last refresh token that was supplied with this type, and nothing carried over. */
  function LastSupplied(ring: Keyring, db: Db, grant: int, tokenType: string, ops: seq<Op>): Option<Bytes>
    requires forall i :: 0 <= i < |ops| ==> ValidOp(ring, ops[i])
  {
    if ops == [] then StoredRefresh(ring, db, grant, tokenType)
    else
      var data := LastData(ring, db, grant, tokenType, ops);
      if data.Some? && data.value.refreshToken != [] then Some(data.value.refreshToken)
      else LastSupplied(ring, db, grant, tokenType, ops[..|ops| - 1])
  }

  /** The next operation stores no refresh token of this type, or finds none where it
      looks, or finds the token that is there already. */
  ghost predicate Harmless(ring: Keyring, db: Db, grant: int, tokenType: string, op: Op)
    requires ValidOp(ring, op)
  {
    var data := StoredData(ring, db, grant, op);
    data.Some? && data.value.tokenType == tokenType && data.value.refreshToken == [] ==>
      var found := StoredRefresh(ring, db, grant, SourceType(op, data.value));
      found.None? || found == StoredRefresh(ring, db, grant, tokenType)
  }

  lemma OpsOneMore(ring: Keyring, db: Db, grant: int, tokenType: string, ops: seq<Op>, n: nat)
    requires n < |ops| && ValidHistory(ring, ops)
    ensures ApplyOps(ring, db, grant, ops[..n + 1]) == ApplyOp(ring, ApplyOps(ring, db, grant, ops[..n]), grant, ops[n])
    ensures
      var data := StoredData(ring, ApplyOps(ring, db, grant, ops[..n]), grant, ops[n]);
      && LastData(ring, db, grant, tokenType, ops[..n + 1]) == (if data.Some? && data.value.tokenType == tokenType then data else None)
      && LastSupplied(ring, db, grant, tokenType, ops[..n + 1]) ==
         (if data.Some? && data.value.tokenType == tokenType && data.value.refreshToken != [] then Some(data.value.refreshToken)
          else LastSupplied(ring, db, grant, tokenType, ops[..n]))
  {
    hide ApplyOp, StoredData, StoredRefresh;
    assert ops[..n + 1][..n] == ops[..n];
  }

  /** As long as the last one supplied is stored, it stays so exactly over harmless
      operations. */
  lemma SuppliedStep(ring: Keyring, db: Db, grant: int, tokenType: string, ops: seq<Op>, n: nat)
    requires ring.aead.Sound() && n < |ops| && ValidHistory(ring, ops)
    ensures
      var before, after := ApplyOps(ring, db, grant, ops[..n]), ApplyOps(ring, db, grant, ops[..n + 1]);
      StoredRefresh(ring, before, grant, tokenType) == LastSupplied(ring, db, grant, tokenType, ops[..n]) ==>
        (StoredRefresh(ring, after, grant, tokenType) == LastSupplied(ring, db, grant, tokenType, ops[..n + 1]) <==>
           Harmless(ring, before, grant, tokenType, ops[n]))
  {
    hide ApplyOps, ApplyOp, StoredData, StoredRefresh, LastSupplied, LastData;
    OpsOneMore(ring, db, grant, tokenType, ops, n);
    StepConserves(ring, ApplyOps(ring, db, grant, ops[..n]), grant, tokenType, ops[n]);
  }

  lemma {:induction false} SuppliedWhileHarmless(ring: Keyring, db: Db, grant: int, tokenType: string, ops: seq<Op>, n: nat)
    requires ring.aead.Sound() && n <= |ops| && ValidHistory(ring, ops)
    ensures (forall k :: 0 <= k < n ==> Harmless(ring, ApplyOps(ring, db, grant, ops[..k]), grant, tokenType, ops[k])) ==>
              StoredRefresh(ring, ApplyOps(ring, db, grant, ops[..n]), grant, tokenType) == LastSupplied(ring, db, grant, tokenType, ops[..n])
  {
    hide ApplyOp, StoredData, StoredRefresh, Harmless;
    if n > 0 {
      SuppliedWhileHarmless(ring, db, grant, tokenType, ops, n - 1);
      SuppliedStep(ring, db, grant, tokenType, ops, n - 1);
    }
  }

  ghost predicate AlwaysLastSupplied(ring: Keyring, db: Db, grant: int, tokenType: string, ops: seq<Op>)
    requires forall i :: 0 <= i < |ops| ==> ValidOp(ring, ops[i])
  {
    forall n :: 0 <= n <= |ops| ==>
      StoredRefresh(ring, ApplyOps(ring, db, grant, ops[..n]), grant, tokenType) == LastSupplied(ring, db, grant, tokenType, ops[..n])
  }

  /** Throughout a history the stored refresh token is the last one supplied with its
      type exactly when every operation that omits it finds no token where it looks, or
      the one that is there already. Saves always do, and so do refreshes that are answered
      with the type that was asked for. */
  lemma LastSuppliedExactly(ring: Keyring, db: Db, grant: int, tokenType: string, ops: seq<Op>)
    requires ring.aead.Sound() && ValidHistory(ring, ops)
    ensures AlwaysLastSupplied(ring, db, grant, tokenType, ops) <==>
              forall n :: 0 <= n < |ops| ==> Harmless(ring, ApplyOps(ring, db, grant, ops[..n]), grant, tokenType, ops[n])
  {
    hide ApplyOps, StoredRefresh, LastSupplied, Harmless;
    forall n | 0 <= n < |ops|
      ensures AlwaysLastSupplied(ring, db, grant, tokenType, ops) ==>
                Harmless(ring, ApplyOps(ring, db, grant, ops[..n]), grant, tokenType, ops[n])
    {
      SuppliedStep(ring, db, grant, tokenType, ops, n);
    }
    forall n | 0 <= n <= |ops| {
      SuppliedWhileHarmless(ring, db, grant, tokenType, ops, n);
    }
  }

  /** An operation whose data names the type it looked at is harmless to every type. */
  lemma SameTypeIsHarmless(ring: Keyring, db: Db, grant: int, tokenType: string, op: Op)
    requires ValidOp(ring, op)
    requires StoredData(ring, db, grant, op).Some? ==>
      SourceType(op, StoredData(ring, db, grant, op).value) == StoredData(ring, db, grant, op).value.tokenType
    ensures Harmless(ring, db, grant, tokenType, op)
    ensures op.SaveOp? && StoredData(ring, db, grant, op).Some? ==>
              SourceType(op, StoredData(ring, db, grant, op).value) == StoredData(ring, db, grant, op).value.tokenType
  {
    hide StoredData, StoredRefresh;
  }

  // ---------------------------------------------------------------- bytes and expiries

  /** No operation of the history stored a refresh token in rows of this type. */
  ghost predicate OmitsRefresh(ring: Keyring, db: Db, grant: int, tokenType: string, ops: seq<Op>)
    requires forall i :: 0 <= i < |ops| ==> ValidOp(ring, ops[i])
  {
    forall n :: 0 <= n < |ops| ==> OmitsNext(ring, ApplyOps(ring, db, grant, ops[..n]), grant, tokenType, ops[n])
  }

  ghost predicate OmitsNext(ring: Keyring, db: Db, grant: int, tokenType: string, op: Op)
    requires ValidOp(ring, op)
  {
    var data := StoredData(ring, db, grant, op);
    data.Some? && data.value.tokenType == tokenType ==> data.value.refreshToken == []
  }

  /** The row that the operation looks at has no refresh ciphertext, or the very one of
      the row that it writes. */
  ghost predicate SameBytes(ring: Keyring, db: Db, grant: int, tokenType: string, op: Op)
    requires ValidOp(ring, op)
  {
    var data := StoredData(ring, db, grant, op);
    data.Some? && data.value.tokenType == tokenType ==>
      var found := RefreshCiphertext(db, grant, SourceType(op, data.value));
      found == [] || found == RefreshCiphertext(db, grant, tokenType)
  }

  lemma BytesStep(ring: Keyring, db: Db, grant: int, tokenType: string, op: Op)
    requires ring.aead.Sound() && ValidOp(ring, op) && OmitsNext(ring, db, grant, tokenType, op)
    ensures RefreshCiphertext(ApplyOp(ring, db, grant, op), grant, tokenType) == RefreshCiphertext(db, grant, tokenType)
            <==> SameBytes(ring, db, grant, tokenType, op)
  {
    hide ApplyOp, StoredData, StoredRefresh, RefreshCiphertext;
    StepConserves(ring, db, grant, tokenType, op);
  }

  lemma {:induction false} BytesWhileSame(ring: Keyring, db: Db, grant: int, tokenType: string, ops: seq<Op>, n: nat)
    requires ring.aead.Sound() && n <= |ops| && ValidHistory(ring, ops) && OmitsRefresh(ring, db, grant, tokenType, ops)
    requires forall k :: 0 <= k < n ==> SameBytes(ring, ApplyOps(ring, db, grant, ops[..k]), grant, tokenType, ops[k])
    ensures RefreshCiphertext(ApplyOps(ring, db, grant, ops[..n]), grant, tokenType) == RefreshCiphertext(db, grant, tokenType)
  {
    hide ApplyOp, StoredData, RefreshCiphertext, SameBytes, OmitsNext;
    if n > 0 {
      BytesWhileSame(ring, db, grant, tokenType, ops, n - 1);
      BytesStep(ring, ApplyOps(ring, db, grant, ops[..n - 1]), grant, tokenType, ops[n - 1]);
      assert ops[..n][..n - 1] == ops[..n - 1];
    }
  }

  /** Across operations that all omitted the refresh token its ciphertext keeps the very
      same bytes throughout, exactly when none of them looked at a row with another one. */
  lemma RefreshBytesKept(ring: Keyring, db: Db, grant: int, tokenType: string, ops: seq<Op>)
    requires ring.aead.Sound() && ValidHistory(ring, ops)
    requires OmitsRefresh(ring, db, grant, tokenType, ops)
    ensures (forall n :: 0 <= n <= |ops| ==>
               RefreshCiphertext(ApplyOps(ring, db, grant, ops[..n]), grant, tokenType) == RefreshCiphertext(db, grant, tokenType))
            <==> (forall n :: 0 <= n < |ops| ==> SameBytes(ring, ApplyOps(ring, db, grant, ops[..n]), grant, tokenType, ops[n]))
  {
    hide ApplyOp, StoredData, RefreshCiphertext, SameBytes, OmitsNext;
    if forall n :: 0 <= n <= |ops| ==>
         RefreshCiphertext(ApplyOps(ring, db, grant, ops[..n]), grant, tokenType) == RefreshCiphertext(db, grant, tokenType) {
      forall n | 0 <= n < |ops|
        ensures SameBytes(ring, ApplyOps(ring, db, grant, ops[..n]), grant, tokenType, ops[n])
      {
        assert ops[..n + 1][..n] == ops[..n];
        BytesStep(ring, ApplyOps(ring, db, grant, ops[..n]), grant, tokenType, ops[n]);
      }
    }
    if forall n :: 0 <= n < |ops| ==> SameBytes(ring, ApplyOps(ring, db, grant, ops[..n]), grant, tokenType, ops[n]) {
      forall n | 0 <= n <= |ops| {
        BytesWhileSame(ring, db, grant, tokenType, ops, n);
      }
    }
  }

  /** What the surroundings contributed to each operation that stored a row of this type. */
  function StoringAmbients(ring: Keyring, db: Db, grant: int, tokenType: string, ops: seq<Op>): seq<Ambient>
    requires forall i :: 0 <= i < |ops| ==> ValidOp(ring, ops[i])
  {
    if ops == [] then []
    else
      StoringAmbients(ring, db, grant, tokenType, ops[..|ops| - 1])
      + if LastData(ring, db, grant, tokenType, ops).Some? then [AmbientOf(ops[|ops| - 1])] else []
  }

  /** If the next operation stores a row of this type, it looked at that row, and its data
      says nothing about when the refresh token expires. */
  ghost predicate OmitsExpiry(ring: Keyring, db: Db, grant: int, tokenType: string, op: Op)
    requires ValidOp(ring, op)
  {
    var data := StoredData(ring, db, grant, op);
    data.Some? && data.value.tokenType == tokenType ==>
      data.value.refreshExpiresIn <= 0 && SourceType(op, data.value) == tokenType
  }

  lemma ExpiryStep(ring: Keyring, db: Db, grant: int, tokenType: string, op: Op)
    requires ValidOp(ring, op) && OmitsExpiry(ring, db, grant, tokenType, op)
    requires Find(db, grant, tokenType).Some? && Find(db, grant, tokenType).value.refreshExpiry.Some?
    ensures
      var data, row, after := StoredData(ring, db, grant, op), Find(db, grant, tokenType).value,
                              Find(ApplyOp(ring, db, grant, op), grant, tokenType);
      && after.Some?
      && after.value.refreshExpiry == Some(
           if data.Some? && data.value.tokenType == tokenType then
             CarriedExpiry(row.refreshExpiry.value, AmbientOf(op).remainingAt, AmbientOf(op).refreshAt)
           else row.refreshExpiry.value)
  {
    hide ApplyOp, StoredData, Encrypted, Decrypt, NonBlank, CarriedExpiry;
    OpOnRow(ring, db, grant, op);
  }

  /** The stored refresh expiry after a history of saves and refreshes that omit it is the
      original one carried through exactly the operations that were stored. */
  lemma {:induction false} RefreshExpiryCarried(ring: Keyring, db: Db, grant: int, tokenType: string, ops: seq<Op>, expiry: int)
    requires ValidHistory(ring, ops)
    requires Find(db, grant, tokenType).Some? && Find(db, grant, tokenType).value.refreshExpiry == Some(expiry)
    requires forall n :: 0 <= n < |ops| ==> OmitsExpiry(ring, ApplyOps(ring, db, grant, ops[..n]), grant, tokenType, ops[n])
    ensures
      var after := Find(ApplyOps(ring, db, grant, ops), grant, tokenType);
      after.Some? && after.value.refreshExpiry == Some(CarriedThrough(expiry, StoringAmbients(ring, db, grant, tokenType, ops)))
  {
    hide ApplyOp, StoredData, CarriedExpiry, OmitsExpiry;
    if ops != [] {
      var front, op := ops[..|ops| - 1], ops[|ops| - 1];
      forall n | 0 <= n < |front|
        ensures OmitsExpiry(ring, ApplyOps(ring, db, grant, front[..n]), grant, tokenType, front[n])
      {
        assert front[..n] == ops[..n];
      }
      RefreshExpiryCarried(ring, db, grant, tokenType, front, expiry);
      ExpiryStep(ring, ApplyOps(ring, db, grant, front), grant, tokenType, op);
      var saves := StoringAmbients(ring, db, grant, tokenType, front);
      assert saves + [] == saves && (saves + [AmbientOf(op)])[..|saves|] == saves;
    }
  }

  /** So after n stored rows that each found at least a second left, the row has lost
      less than n seconds and gained nothing but the delays between clock readings. */
  lemma RefreshExpiryDrift(ring: Keyring, db: Db, grant: int, tokenType: string, ops: seq<Op>, expiry: int)
    requires ValidHistory(ring, ops)
    requires Find(db, grant, tokenType).Some? && Find(db, grant, tokenType).value.refreshExpiry == Some(expiry)
    requires forall n :: 0 <= n < |ops| ==> OmitsExpiry(ring, ApplyOps(ring, db, grant, ops[..n]), grant, tokenType, ops[n])
    requires AlwaysRemaining(expiry, StoringAmbients(ring, db, grant, tokenType, ops))
    ensures
      var saves, after := StoringAmbients(ring, db, grant, tokenType, ops), Find(ApplyOps(ring, db, grant, ops), grant, tokenType);
      && after.Some? && after.value.refreshExpiry.Some?
      && expiry - |saves| * SECOND <= after.value.refreshExpiry.value - Delays(saves) <= expiry
      && (saves != [] ==> expiry - |saves| * SECOND < after.value.refreshExpiry.value - Delays(saves))
  {
    RefreshExpiryCarried(ring, db, grant, tokenType, ops, expiry);
    DriftOverManySaves(expiry, StoringAmbients(ring, db, grant, tokenType, ops));
    hide ApplyOps, StoringAmbients, CarriedThrough, Delays, OmitsExpiry;
  }

  // ------------------------------------------------------------- when the next one asks

  /** A refresh that succeeded with an answer of the provider. The next one asks again,
      however soon it comes, unless the answer named the type that was asked for and
      states a lifetime that outlasts the window. */
  lemma NextAsksExactly(e: Encryptor, caps: Caps, db: Db, account: int, tokenType: string, refresher: Bytes -> Reply,
                        grant: int, window: int, env: Env, caps2: Caps, account2: int, refresher2: Bytes -> Reply, env2: Env)
    requires e.Valid() && e.ring.aead.Sound()
    requires
      var x := Refresh(e, caps, db, account, tokenType, refresher, grant, window, env);
      x.err.None? && x.called.Some?
    requires Obstacle(grant, env2).None? && env.freshAt <= env2.freshAt
    ensures
      var x := Refresh(e, caps, db, account, tokenType, refresher, grant, window, env);
      var data := refresher(x.called.value).data;
      Refresh(e, caps2, x.db, account2, tokenType, refresher2, grant, window, env2).called.None? <==>
        data.tokenType == tokenType && Lasts(data, env.amb.accessAt, env2.freshAt, window)
  {
    var x := Refresh(e, caps, db, account, tokenType, refresher, grant, window, env);
    var stored, data := Find(db, grant, tokenType).value, refresher(x.called.value).data;
    CalledByDecision(e, caps, db, account, tokenType, refresher, grant, window, env);
    CalledByDecision(e, caps2, x.db, account2, tokenType, refresher2, grant, window, env2);
    RowAfterSuccess(e, caps, db, account, tokenType, refresher, grant, window, env);
    hide Refresh, Prepared, RefreshMaterial, Upserted;
    if data.tokenType == tokenType {
      MergedRowFresh(e, stored, Some(stored), grant, account, data, env.amb, env2.freshAt, window);
      MaterialAfterMerge(e, stored, grant, account, data, env.amb, tokenType);
    }
  }

  /** A success after which the next refresh asks again at once: the answer omits the
      lifetime. */
  lemma OmittedLifetimeAsksAgain(e: Encryptor, grant: int, nonce: Nonce, row: Token) returns (db: Db, refresher: Bytes -> Reply, env: Env)
    requires e.Valid() && e.ring.aead.Sound()
    ensures
      var caps := Caps(true, true, true);
      var x := Refresh(e, caps, db, 0, "bearer", refresher, grant, 0, env);
      x.err.None? && x.called.Some? && Refresh(e, caps, x.db, 0, "bearer", refresher, grant, 0, env).called.Some?
  {
    var data := TokenData([], [], "", "bearer", 0, 0, []);
    EncryptedReadable(e, nonce, [1]);
    var stored := row.(grant := grant, tokenType := "bearer", accessExpiry := Some(0), encryptedRefresh := Encrypted(e, nonce, [1]));
    db := Db(map[(grant, "bearer") := stored], map[], map[], map[]);
    refresher := m => Issued(data);
    env := Env(true, Some(grant), true, true, 1, Ambient(true, 1, 1, 1, Some(nonce), Some(nonce)), true, true, true, Acknowledged, true);
    hide Encrypted, Decrypt, NonBlank;
    assert Find(db, grant, "bearer") == Some(WithScopes(stored, []));
    var caps := Caps(true, true, true);
    var x := Refresh(e, caps, db, 0, "bearer", refresher, grant, 0, env);
    assert x.err.None? && x.called.Some?;
    NextAsksExactly(e, caps, db, 0, "bearer", refresher, grant, 0, env, caps, 0, refresher, env);
  }

  /** What a successful answer leaves in the row that was asked about. */
  lemma RowAfterSuccess(e: Encryptor, caps: Caps, db: Db, account: int, tokenType: string, refresher: Bytes -> Reply,
                        grant: int, window: int, env: Env)
    requires e.Valid()
    requires
      var x := Refresh(e, caps, db, account, tokenType, refresher, grant, window, env);
      x.err.None? && x.called.Some?
    ensures
      var x := Refresh(e, caps, db, account, tokenType, refresher, grant, window, env);
      && refresher(x.called.value).Issued? && (grant, tokenType) in db.rows
      && var data, stored := refresher(x.called.value).data, Find(db, grant, tokenType).value;
         var merged := Prepared(e, Some(stored), grant, account, data, env.amb);
         && merged.Ok?
         && Find(x.db, grant, tokenType) ==
            Some(WithScopes(if data.tokenType == tokenType then Upserted(Some(stored), merged.value) else stored, ScopesOf(x.db, grant)))
  {
    hide Prepared, Decrypt, Upserted;
  }

  /** A row that could be refreshed can be refreshed again after the merge. */
  lemma MaterialAfterMerge(e: Encryptor, stored: Token, grant: int, account: int, data: TokenData, amb: Ambient, tokenType: string)
    requires e.Valid() && e.ring.aead.Sound()
    requires RefreshMaterial(e.ring, stored, tokenType).Ok? && Prepared(e, Some(stored), grant, account, data, amb).Ok?
    ensures RefreshMaterial(e.ring, Upserted(Some(stored), Prepared(e, Some(stored), grant, account, data, amb).value), tokenType).Ok?
  {
    EncryptedReadable(e, amb.accessNonce.value, data.accessToken);
    if data.refreshToken != [] {
      EncryptedReadable(e, amb.refreshNonce.value, data.refreshToken);
    }
    EmptyUnreadable(e.ring);
    hide Encrypted, Decrypt, NonBlank;
  }

  // -------------------------------------------------------- a save inside a refresh

  /** Save takes no lock. When one lands between the read of a refresh and its write, the
      refresh merges from the row it read: a refresh token that the provider supplies is
      stored; if it supplies none, the one that the save stored survives exactly when the
      refresh had read either none or that very ciphertext. The same holds the other way
      round, for a refresh that commits between the read of a save and its write. */
  lemma SaveInsideRenew(e: Encryptor, read: Option<Token>, current: Token, grant: int, account: int, data: TokenData, amb: Ambient)
    requires e.Valid() && e.ring.aead.Sound() && current.encryptedRefresh != []
    requires Prepared(e, read, grant, account, data, amb).Ok?
    ensures
      var row := Upserted(Some(current), Prepared(e, read, grant, account, data, amb).value);
      if data.refreshToken != [] then Decrypt(e.ring, row.encryptedRefresh) == Ok(data.refreshToken)
      else
        row.encryptedRefresh == current.encryptedRefresh <==>
          read.None? || read.value.encryptedRefresh == [] || read.value.encryptedRefresh == current.encryptedRefresh
  {
    MergeKeeps(e, read, Some(current), grant, account, data, amb);
    hide Prepared, Decrypt, NonBlank;
  }
}
