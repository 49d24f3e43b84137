/** Preparing a token row for storage: what the provider omitted is merged in from the
    row that is already there. */
module TokenMerge {
  import opened Common
  import opened Envelope

  // --------------------------------------------------------- time and durations

  // Instants are nanoseconds. Durations are signed 64-bit: subtraction of instants
  // saturates, scaling seconds to nanoseconds wraps.

  const SECOND := 1_000_000_000
  const MAX_DURATION := 0x7fff_ffff_ffff_ffff
  const MIN_DURATION := -0x8000_0000_0000_0000

  function Sub(later: int, earlier: int): int {
    var d := later - earlier;
    if d > MAX_DURATION then MAX_DURATION else if d < MIN_DURATION then MIN_DURATION else d
  }

  function Wrap64(x: int): int {
    (x + 0x8000_0000_0000_0000) % 0x1_0000_0000_0000_0000 - 0x8000_0000_0000_0000
  }

  function Seconds(n: int): int { Wrap64(n * SECOND) }

  // ---------------------------------------------------------------------- tokens

  datatype Token = Token(
    accountHint: int, grant: int, tokenType: string,
    encryptedAccess: Bytes, encryptedToken: Bytes, encryptedRefresh: Bytes,
    accessExpiry: Option<int>, expiry: Option<int>, refreshExpiry: Option<int>,
    grantedScopes: seq<string>, scopes: seq<string>)
  {
    /** The canonical columns win over their older aliases. */
    function AccessCiphertext(): Bytes {
      if encryptedAccess != [] then encryptedAccess else encryptedToken
    }

    function KnownExpiry(): Option<int> {
      if accessExpiry.Some? then accessExpiry else expiry
    }

    function KnownScopes(): seq<string> {
      if grantedScopes != [] then grantedScopes else scopes
    }
  }

  /** What a provider answered; a zero expiry or an empty field means it said nothing. */
  datatype TokenData = TokenData(
    accessToken: Bytes, refreshToken: Bytes, subject: string, tokenType: string,
    expiresIn: int, refreshExpiresIn: int, scopes: seq<string>)

  type Nonce = b: Bytes | |b| == NONCE_SIZE witness [0, 0, 0, 0, 0, 0, 0, 0, 0, 0, 0, 0]

  /** What the surroundings contribute to one preparation: whether the caller is still
      there, the three clock readings in the order they are taken, and the entropy. */
  datatype Ambient = Ambient(
    alive: bool, remainingAt: int, accessAt: int, refreshAt: int,
    accessNonce: Option<Nonce>, refreshNonce: Option<Nonce>)

  datatype SaveError = Cancelled | FindFailed | RefreshUnreadable | NoEntropy | StoreFailed

  method NonEmptyScopeValues(scopes: seq<string>) returns (filtered: seq<string>)
    ensures filtered == NonBlank(scopes)
  {
    filtered := [];
    for i := 0 to |scopes|
      invariant filtered == NonBlank(scopes[..i])
    {
      assert scopes[..i + 1][..i] == scopes[..i];
      var scope := TrimSpace(scopes[i]);
      if scope != "" {
        filtered := filtered + [scope];
      }
    }
    assert scopes[..|scopes|] == scopes;
  }

  function NonBlank(scopes: seq<string>): (r: seq<string>)
    ensures forall i :: 0 <= i < |r| ==> r[i] != "" && TrimSpace(r[i]) == r[i]
  {
    if scopes == [] then []
    else
      var front, scope := NonBlank(scopes[..|scopes| - 1]), TrimSpace(scopes[|scopes| - 1]);
      if scope != "" then front + [scope] else front
  }

  /** Every scope is looked at on its own: a blank one goes, any other stays, trimmed and in
      its place. */
  lemma {:induction false} NonBlankParts(a: seq<string>, b: seq<string>)
    ensures NonBlank(a + b) == NonBlank(a) + NonBlank(b)
    ensures |a| == 1 ==> NonBlank(a) == if TrimSpace(a[0]) == "" then [] else [TrimSpace(a[0])]
  {
    hide TrimSpace;
    if b == [] {
      assert a + b == a;
    } else {
      NonBlankParts(a, b[..|b| - 1]);
      assert (a + b)[..|a + b| - 1] == a + b[..|b| - 1];
    }
    assert |a| == 1 ==> a[..0] == [];
  }

  /** Scopes that were already filtered pass through unchanged. */
  lemma {:induction false} NonBlankIdempotent(scopes: seq<string>)
    requires forall i :: 0 <= i < |scopes| ==> scopes[i] != "" && TrimSpace(scopes[i]) == scopes[i]
    ensures NonBlank(scopes) == scopes
  {
    hide TrimSpace;
    if scopes != [] {
      var front, last := scopes[..|scopes| - 1], scopes[|scopes| - 1];
      NonBlankIdempotent(front);
      assert TrimSpace(last) == last && last != "";
      assert NonBlank(scopes) == front + [last];
    }
  }

  // ----------------------------------------------------------------- merge rules

  function ScopesAfter(existing: Option<Token>, data: TokenData): seq<string> {
    var own := NonBlank(data.scopes);
    if own != [] || existing.None? then own else NonBlank(existing.value.KnownScopes())
  }

  function AccessExpiryAfter(existing: Option<Token>, data: TokenData, now: int): int {
    if data.expiresIn > 0 then now + Seconds(data.expiresIn)
    else if existing.Some? && existing.value.KnownExpiry().Some? then existing.value.KnownExpiry().value
    else now
  }

  function RefreshExpiryAfter(existing: Option<Token>, data: TokenData, remainingAt: int, now: int): Option<int> {
    if data.refreshExpiresIn > 0 then Some(now + Seconds(data.refreshExpiresIn))
    else if existing.None? || existing.value.refreshExpiry.None? then None
    else Some(CarriedExpiry(existing.value.refreshExpiry.value, remainingAt, now))
  }

  /** An omitted refresh expiry is turned into whole remaining seconds and back. */
  function CarriedExpiry(expiry: int, remainingAt: int, now: int): int {
    var remaining := Sub(expiry, remainingAt);
    if remaining > 0 then now + Max(remaining / SECOND, 1) * SECOND else expiry
  }

  /** The provider kept silent about a refresh token that is stored. */
  predicate KeepsRefresh(existing: Option<Token>, data: TokenData) {
    data.refreshToken == [] && existing.Some? && existing.value.encryptedRefresh != []
  }

  /** The row that is stored for the answer of the provider. */
  function Prepared(e: Encryptor, existing: Option<Token>, grant: int, account: int, data: TokenData, amb: Ambient)
    : (r: Result<Token, SaveError>)
    requires e.Valid()
    ensures r.Ok? ==> r.value.grant == grant && r.value.tokenType == data.tokenType
  {
    if !amb.alive then Err(Cancelled)
    else if KeepsRefresh(existing, data) && Decrypt(e.ring, existing.value.encryptedRefresh).Err? then
      Err(RefreshUnreadable)
    else if amb.accessNonce.None? || (data.refreshToken != [] && amb.refreshNonce.None?) then Err(NoEntropy)
    else
      var access := Encrypted(e, amb.accessNonce.value, data.accessToken);
      var expiry := AccessExpiryAfter(existing, data, amb.accessAt);
      var scopes := ScopesAfter(existing, data);
      Ok(Token(
           if data.subject != "" then 0 else account, grant, data.tokenType,
           access, access,
           if KeepsRefresh(existing, data) then existing.value.encryptedRefresh
           else if data.refreshToken != [] then Encrypted(e, amb.refreshNonce.value, data.refreshToken)
           else [],
           Some(expiry), Some(expiry), RefreshExpiryAfter(existing, data, amb.remainingAt, amb.refreshAt),
           scopes, scopes))
  }

  /** A text that was just encrypted can be read, and is not the empty ciphertext. */
  lemma EncryptedReadable(e: Encryptor, nonce: Nonce, text: Bytes)
    requires e.Valid() && e.ring.aead.Sound()
    ensures Encrypted(e, nonce, text) != [] && Decrypt(e.ring, Encrypted(e, nonce, text)) == Ok(text)
  {
    DecryptUndoesEncrypt(e, e.ring, nonce, text);
    assert Decrypt(e.ring, []).Err?;
  }

  /** A preparation fails exactly when the caller has gone, when the refresh token to be
      kept does not open, or when entropy is missing, and it is the first of these. */
  lemma PreparedFails(e: Encryptor, existing: Option<Token>, grant: int, account: int, data: TokenData, amb: Ambient)
    requires e.Valid()
    ensures
      var r := Prepared(e, existing, grant, account, data, amb);
      var lost := data.refreshToken == [] && existing.Some? && existing.value.encryptedRefresh != []
                  && Decrypt(e.ring, existing.value.encryptedRefresh).Err?;
      && (r == Err(Cancelled) <==> !amb.alive)
      && (r == Err(RefreshUnreadable) <==> amb.alive && lost)
      && (r == Err(NoEntropy) <==>
           amb.alive && !lost && (amb.accessNonce.None? || (data.refreshToken != [] && amb.refreshNonce.None?)))
      && (r.Err? ==> r.error in {Cancelled, RefreshUnreadable, NoEntropy})
  {
    hide Decrypt, Encrypted, NonBlank;
  }

  /** What a prepared row holds. Both access columns hold the access token that was given,
      the refresh column the refresh token that was given, or else the very bytes that
      were there. The account is a hint only for a grant without a subject. */
  lemma PreparedTokens(e: Encryptor, existing: Option<Token>, grant: int, account: int, data: TokenData, amb: Ambient)
    requires e.Valid() && e.ring.aead.Sound() && Prepared(e, existing, grant, account, data, amb).Ok?
    ensures
      var row := Prepared(e, existing, grant, account, data, amb).value;
      && row.grant == grant && row.tokenType == data.tokenType && row.accountHint == (if data.subject == "" then account else 0)
      && row.encryptedAccess != [] && row.encryptedToken == row.encryptedAccess
      && Decrypt(e.ring, row.encryptedAccess) == Ok(data.accessToken)
      && (if data.refreshToken != [] then row.encryptedRefresh != [] && Decrypt(e.ring, row.encryptedRefresh) == Ok(data.refreshToken)
          else row.encryptedRefresh == if existing.Some? then existing.value.encryptedRefresh else [])
  {
    EncryptedReadable(e, amb.accessNonce.value, data.accessToken);
    if data.refreshToken != [] {
      EncryptedReadable(e, amb.refreshNonce.value, data.refreshToken);
    }
    hide Encrypted, Decrypt, AccessExpiryAfter, RefreshExpiryAfter, ScopesAfter;
  }

  /** An expiry that was stated counts from the clock reading. An omitted one is the one
      that was there; without any, an access token expires at the clock reading itself and
      a refresh token never. */
  lemma PreparedExpiries(e: Encryptor, existing: Option<Token>, grant: int, account: int, data: TokenData, amb: Ambient)
    requires e.Valid() && Prepared(e, existing, grant, account, data, amb).Ok?
    ensures
      var row := Prepared(e, existing, grant, account, data, amb).value;
      && row.accessExpiry == row.expiry
      && row.accessExpiry == Some(
           if data.expiresIn > 0 then amb.accessAt + Seconds(data.expiresIn)
           else if existing.Some? && existing.value.accessExpiry.Some? then existing.value.accessExpiry.value
           else if existing.Some? && existing.value.expiry.Some? then existing.value.expiry.value
           else amb.accessAt)
      && (data.refreshExpiresIn > 0 ==> row.refreshExpiry == Some(amb.refreshAt + Seconds(data.refreshExpiresIn)))
      && (data.refreshExpiresIn <= 0 ==>
           (row.refreshExpiry.Some? <==> existing.Some? && existing.value.refreshExpiry.Some?)
           && (row.refreshExpiry.Some? ==>
                row.refreshExpiry.value == CarriedExpiry(existing.value.refreshExpiry.value, amb.remainingAt, amb.refreshAt)))
  {
    hide Encrypted, Decrypt, NonBlank, Seconds, CarriedExpiry, ScopesAfter;
  }

  /** What the merge carries over from the existing row besides the copy of the data. */
  datatype Preserved = Preserved(refresh: Bytes, accessExpiry: Option<int>, refreshExpiry: Option<int>)

  /** The step-by-step merge, on a copy of the caller's data. The existing row is the
      override when there is one, else what the store answered when asked. */
  method PrepareTokenForOAuthConnection(
      e: Encryptor, found: Result<Option<Token>, ()>, grant: int, account: int, data: TokenData,
      preserveExisting: bool, existingOverride: Option<Token>, amb: Ambient)
    returns (r: Result<Token, SaveError>)
    requires e.Valid()
    ensures existingOverride.Some? ==> r == Prepared(e, existingOverride, grant, account, data, amb)
    ensures existingOverride.None? && !preserveExisting ==> r == Prepared(e, None, grant, account, data, amb)
    ensures existingOverride.None? && preserveExisting ==>
      match found
      case Ok(existing) => r == Prepared(e, existing, grant, account, data, amb)
      case Err(_) => r == Err(if amb.alive then FindFailed else Cancelled)
  {
    if !amb.alive {
      return Err(Cancelled);
    }
    var existing := existingOverride;
    if preserveExisting && existing.None? {
      if found.Err? {
        return Err(FindFailed);
      }
      existing := found.value;
    }
    r := PrepareOver(e, existing, grant, account, data, amb);
  }

  method PrepareOver(e: Encryptor, existing: Option<Token>, grant: int, account: int, data: TokenData, amb: Ambient)
    returns (r: Result<Token, SaveError>)
    requires e.Valid() && amb.alive
    ensures r == Prepared(e, existing, grant, account, data, amb)
  {
    hide Encrypted, Decrypt, NonBlank, Seconds;
    var merged := data;
    var filtered := NonEmptyScopeValues(merged.scopes);
    merged := merged.(scopes := filtered);
    var incomingRefreshTokenEmpty := merged.refreshToken == [];
    var kept := Preserved([], None, None);
    if existing.Some? {
      var mergedOver := MergeExisting(e.ring, existing.value, merged, amb.remainingAt);
      if mergedOver.Err? {
        return Err(RefreshUnreadable);
      }
      merged, kept := mergedOver.value.0, mergedOver.value.1;
    }
    if amb.accessNonce.None? {
      return Err(NoEntropy);
    }
    var encrypted := Encrypted(e, amb.accessNonce.value, merged.accessToken);
    var encryptedRefresh: Bytes := [];
    if incomingRefreshTokenEmpty && kept.refresh != [] {
      encryptedRefresh := kept.refresh;
    } else if merged.refreshToken != [] {
      if amb.refreshNonce.None? {
        return Err(NoEntropy);
      }
      encryptedRefresh := Encrypted(e, amb.refreshNonce.value, merged.refreshToken);
    }
    var expiresAt := amb.accessAt;
    if merged.expiresIn > 0 {
      expiresAt := amb.accessAt + Seconds(merged.expiresIn);
    } else if kept.accessExpiry.Some? {
      expiresAt := kept.accessExpiry.value;
    }
    var refreshExpiresAt := kept.refreshExpiry;
    if merged.refreshExpiresIn > 0 {
      CarriedSecondsFit(merged.refreshExpiresIn);
      refreshExpiresAt := Some(amb.refreshAt + Seconds(merged.refreshExpiresIn));
    }
    var accountHint := account;
    if merged.subject != "" {
      accountHint := 0;
    }
    return Ok(Token(accountHint, grant, merged.tokenType, encrypted, encrypted, encryptedRefresh,
                    Some(expiresAt), Some(expiresAt), refreshExpiresAt, merged.scopes, merged.scopes));
  }

  /** The seconds a silent provider's refresh expiry is re-issued with; zero when it is
      past, unknown, or when the provider did speak. */
  function CarriedSeconds(row: Token, data: TokenData, remainingAt: int): int {
    if data.refreshExpiresIn > 0 then data.refreshExpiresIn
    else if row.refreshExpiry.Some? && Sub(row.refreshExpiry.value, remainingAt) > 0 then
      Max(Sub(row.refreshExpiry.value, remainingAt) / SECOND, 1)
    else data.refreshExpiresIn
  }

  method MergeExisting(ring: Keyring, row: Token, data: TokenData, remainingAt: int)
    returns (r: Result<(TokenData, Preserved), SaveError>)
    ensures r.Err? <==> data.refreshToken == [] && row.encryptedRefresh != [] && Decrypt(ring, row.encryptedRefresh).Err?
    ensures r.Ok? ==>
      var (merged, kept) := r.value;
      && merged == data.(refreshToken := merged.refreshToken,
                         scopes := if data.scopes == [] then NonBlank(row.KnownScopes()) else data.scopes,
                         refreshExpiresIn := CarriedSeconds(row, data, remainingAt))
      && kept.refresh == (if data.refreshToken == [] then row.encryptedRefresh else [])
      && (kept.refresh == [] ==> merged.refreshToken == data.refreshToken)
      && kept.accessExpiry == (if data.expiresIn <= 0 then row.KnownExpiry() else None)
      && kept.refreshExpiry == (if data.refreshExpiresIn <= 0 then row.refreshExpiry else None)
  {
    hide Decrypt, NonBlank;
    var merged := data;
    var kept := Preserved([], None, None);
    if merged.expiresIn <= 0 {
      kept := kept.(accessExpiry := if row.accessExpiry.Some? then row.accessExpiry else row.expiry);
    }
    if merged.refreshExpiresIn <= 0 {
      kept := kept.(refreshExpiry := row.refreshExpiry);
    }
    if merged.refreshToken == [] && row.encryptedRefresh != [] {
      kept := kept.(refresh := row.encryptedRefresh);
      var refresh := Decrypt(ring, row.encryptedRefresh);
      if refresh.Err? {
        return Err(RefreshUnreadable);
      }
      merged := merged.(refreshToken := refresh.value);
    }
    if merged.scopes == [] {
      var scopes := row.grantedScopes;
      if scopes == [] {
        scopes := row.scopes;
      }
      scopes := NonEmptyScopeValues(scopes);
      merged := merged.(scopes := scopes);
    }
    if merged.refreshExpiresIn <= 0 && row.refreshExpiry.Some? {
      var remaining := Sub(row.refreshExpiry.value, remainingAt);
      if remaining > 0 {
        var whole := remaining / SECOND;
        if whole < 1 {
          whole := 1;
        }
        merged := merged.(refreshExpiresIn := whole);
      }
    }
    return Ok((merged, kept));
  }

  /** Whole seconds taken from a 64-bit duration scale back without wrapping. */
  lemma CarriedSecondsFit(n: int)
    ensures 0 <= n <= MAX_DURATION / SECOND ==> Seconds(n) == n * SECOND
  {}

  // ------------------------------------------------------------------ properties

  /** The exact effect of one save on an omitted refresh expiry: past expiries are left
      alone; otherwise the fraction of a second that remained is dropped, except that
      less than one second counts as one, and the time between the two clock readings
      is added. */
  lemma CarriedExpiryExactly(expiry: int, remainingAt: int, now: int)
    ensures expiry <= remainingAt ==> CarriedExpiry(expiry, remainingAt, now) == expiry
    ensures remainingAt < expiry < remainingAt + SECOND ==>
      CarriedExpiry(expiry, remainingAt, now) == now + SECOND
    ensures remainingAt + SECOND <= expiry <= remainingAt + MAX_DURATION ==>
      CarriedExpiry(expiry, remainingAt, now)
        == expiry - (expiry - remainingAt) % SECOND + (now - remainingAt)
    ensures expiry > remainingAt + MAX_DURATION ==>
      CarriedExpiry(expiry, remainingAt, now) == now + 9_223_372_036 * SECOND
  {}

  /** With one clock reading an omitted refresh expiry moves by less than one second,
      exactly for expiries less than 9 223 372 037 seconds ahead. */
  lemma CarriedExpiryDrift(expiry: int, now: int)
    ensures -SECOND < CarriedExpiry(expiry, now, now) - expiry < SECOND
            <==> expiry - now < 9_223_372_037 * SECOND
  {}

  /** The refresh expiry after a series of saves that all omitted it. */
  function CarriedThrough(expiry: int, saves: seq<Ambient>): int {
    if saves == [] then expiry
    else
      var last := saves[|saves| - 1];
      CarriedExpiry(CarriedThrough(expiry, saves[..|saves| - 1]), last.remainingAt, last.refreshAt)
  }

  /** Each save of the series found at least a second, and no more than a duration can
      hold, left on the refresh expiry. */
  ghost predicate AlwaysRemaining(expiry: int, saves: seq<Ambient>) {
    forall i :: 0 <= i < |saves| ==>
      SECOND <= CarriedThrough(expiry, saves[..i]) - saves[i].remainingAt <= MAX_DURATION
  }

  /** The time spent between the two readings, over a series of saves. */
  function Delays(saves: seq<Ambient>): int {
    if saves == [] then 0
    else
      var last := saves[|saves| - 1];
      Delays(saves[..|saves| - 1]) + last.refreshAt - last.remainingAt
  }

  /** After n saves with at least a second remaining, the refresh expiry has lost less
      than n seconds and gained nothing but the delays between clock readings. */
  lemma {:induction false} DriftOverManySaves(expiry: int, saves: seq<Ambient>)
    requires AlwaysRemaining(expiry, saves)
    ensures expiry - |saves| * SECOND <= CarriedThrough(expiry, saves) - Delays(saves) <= expiry
    ensures saves != [] ==> expiry - |saves| * SECOND < CarriedThrough(expiry, saves) - Delays(saves)
  {
    if saves != [] {
      var n := |saves| - 1;
      var front := saves[..n];
      assert forall i :: 0 <= i < n ==> front[..i] == saves[..i];
      DriftOverManySaves(expiry, front);
      CarriedExpiryExactly(CarriedThrough(expiry, front), saves[n].remainingAt, saves[n].refreshAt);
    }
  }

  /** With one clock reading for each save there are no delays. */
  lemma {:induction false} OneReadingNoDelays(saves: seq<Ambient>)
    requires forall i :: 0 <= i < |saves| ==> saves[i].refreshAt == saves[i].remainingAt
    ensures Delays(saves) == 0
  {
    if saves != [] {
      OneReadingNoDelays(saves[..|saves| - 1]);
    }
  }

  /** The access expiry survives a save, whatever it was, exactly when the provider omits
      it. */
  lemma AccessExpiryKept(existing: Token, data: TokenData, now: int)
    ensures (forall known: int ::
               AccessExpiryAfter(Some(existing.(accessExpiry := Some(known))), data, now) == known) <==> data.expiresIn <= 0
  {
    if data.expiresIn > 0 {
      var other := now + Seconds(data.expiresIn) + 1;
      assert AccessExpiryAfter(Some(existing.(accessExpiry := Some(other))), data, now) != other;
    }
  }

  /** A stated lifetime puts the expiry that many seconds ahead exactly when it fits a
      duration; a longer one wraps around. */
  lemma StatedLifetimeExactly(existing: Option<Token>, data: TokenData, now: int)
    requires data.expiresIn > 0
    ensures AccessExpiryAfter(existing, data, now) == now + data.expiresIn * SECOND <==> data.expiresIn <= MAX_DURATION / SECOND
  {
    var x := data.expiresIn * SECOND;
    assert Wrap64(x) < 0x8000_0000_0000_0000;
  }
}
