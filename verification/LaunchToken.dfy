/** One-time editor launch tokens: what is issued, what verifies, and a set of used tokens
    that forgets expired ones. */
module LaunchToken {
  import opened Common

  const EXPECTED_ISSUER := "instaedit"
  const EXPECTED_AUDIENCE := "velox"
  const SCOPE_READ := "editor.read"
  const SCOPE_WRITE := "editor.write"

  datatype Kind = Launch | Session
  {
    function Name(): string { if Launch? then "editor_launch" else "editor_session" }
    // In seconds.
    function Ttl(): nat { if Launch? then 120 else 1800 }
  }

  /** A JSON value as claims carry it. */
  datatype Value = Num(n: int) | Text(s: string) | List(values: seq<Value>) | Other

  type Body = map<string, Value>

  datatype Claims = Claims(userId: int, workspaceId: int, projectId: string, scopes: seq<string>,
                           expiresAt: int, issuedAt: int, jti: string, kind: Kind)

  datatype Error = InvalidToken | Expired | ProjectMismatch | NoRandomness

  /** Signing and opening under one secret. A number passes through a JSON double. */
  datatype Signer = Signer(sign: Body -> string, open: string -> Option<Body>, double: int -> int)
  {
    ghost predicate Sound() {
      && (forall b :: open(sign(b)) == Some(OnTheWire(b)) && TrimSpace(sign(b)) != "")
      && (forall n :: -0x20_0000_0000_0000 <= n <= 0x20_0000_0000_0000 ==> double(n) == n)
    }

    function OnTheWire(b: Body): Body {
      map key | key in b :: if b[key].Num? then Num(double(b[key].n)) else b[key]
    }
  }

  /** An instant is a number of nanoseconds since the epoch. */
  const SECOND := 1_000_000_000

  function Unix(instant: int): int { instant / SECOND }

  // ------------------------------------------------------------------- the claims

  function Utf8Length(s: string): nat {
    if s == "" then 0
    else (if s[0] < '\U{80}' then 1 else if s[0] < '\U{800}' then 2 else if s[0] < '\U{10000}' then 3 else 4) + Utf8Length(s[1..])
  }

  predicate ValidProjectID(id: string) {
    && 4 <= Utf8Length(id) <= 128 && ("ve_" <= id || "vx_" <= id)
    && forall i :: 0 <= i < |id| ==> id[i] !in {'/', '\\', '\r', '\n'}
  }

  /** A signed decimal that fits 64 bits. */
  function ParseInt64(s: string): Option<int> {
    if s == "" then None
    else
      var digits := if s[0] == '-' || s[0] == '+' then s[1..] else s;
      if digits == "" || !AllDigits(digits) then None
      else
        var size: int := DigitsValue(digits);
        var n := if s[0] == '-' then -size else size;
        if -0x8000_0000_0000_0000 <= n < 0x8000_0000_0000_0000 then Some(n) else None
  }

  /** What is left of the issue time when its error is ignored: text that is no number
      counts as zero, a number out of range as the nearest one in range. */
  function LooseInt64(v: Value): int {
    match v
    case Num(n) => n
    case Text(s) =>
      (if s == "" then 0
       else
         var digits := if s[0] == '-' || s[0] == '+' then s[1..] else s;
         if digits == "" || !AllDigits(digits) then 0
         else
           var size: int := DigitsValue(digits);
           if s[0] == '-' then (if size > 0x8000_0000_0000_0000 then -0x8000_0000_0000_0000 else -size)
           else if size > 0x7fff_ffff_ffff_ffff then 0x7fff_ffff_ffff_ffff
           else size)
    case _ => 0
  }

  function Claim(b: Body, key: string): Value { if key in b then b[key] else Other }

  function ClaimInt64(v: Value): Option<int> {
    match v
    case Num(n) => Some(n)
    case Text(s) => ParseInt64(s)
    case _ => None
  }

  function ClaimText(v: Value): string { if v.Text? then v.s else "" }

  function Texts(values: seq<Value>): seq<string> {
    if values == [] then []
    else (if values[0].Text? then [values[0].s] else []) + Texts(values[1..])
  }

  function ClaimStrings(v: Value): seq<string> { if v.List? then Texts(v.values) else [] }

  function TextList(xs: seq<string>): Value { List(seq(|xs|, i requires 0 <= i < |xs| => Text(xs[i]))) }

  // ------------------------------------------------------------- issue and verify

  function ClaimsBody(c: Claims): Body {
    map["iss" := Text(EXPECTED_ISSUER), "aud" := Text(EXPECTED_AUDIENCE), "sub" := Text(Decimal(c.userId)),
        "workspace_id" := Num(c.workspaceId), "project_id" := Text(c.projectId),
        "scopes" := TextList(c.scopes),
        "iat" := Num(c.issuedAt), "exp" := Num(c.expiresAt), "jti" := Text(c.jti), "token_type" := Text(c.kind.Name())]
  }

  predicate UnknownScope(scopes: seq<string>) {
    exists i :: 0 <= i < |scopes| && scopes[i] != SCOPE_READ && scopes[i] != SCOPE_WRITE
  }

  function Issue(signer: Signer, userId: int, workspaceId: int, projectId: string, scopes: seq<string>, kind: Kind,
                 now: int, random: Option<string>): Result<(string, Claims), Error> {
    var project := TrimSpace(projectId);
    if userId <= 0 || workspaceId <= 0 || !ValidProjectID(project) || scopes == [] then Err(InvalidToken)
    else if UnknownScope(scopes) then Err(InvalidToken)
    else if random.None? then Err(NoRandomness)
    else
      var claims := Claims(userId, workspaceId, project, scopes, Unix(now + kind.Ttl() * SECOND), Unix(now), random.value, kind);
      Ok((signer.sign(ClaimsBody(claims)), claims))
  }

  function Verify(signer: Signer, raw: string, projectId: string, requiredScope: string, kind: Kind, now: int): Result<Claims, Error> {
    if TrimSpace(raw) == "" || signer.open(raw).None? then Err(InvalidToken)
    else VerifyBody(signer.open(raw).value, projectId, requiredScope, kind, now)
  }

  function VerifyBody(b: Body, projectId: string, requiredScope: string, kind: Kind, now: int): Result<Claims, Error> {
    var userId, workspaceId := ClaimInt64(Claim(b, "sub")), ClaimInt64(Claim(b, "workspace_id"));
    var project, wanted := ClaimText(Claim(b, "project_id")), TrimSpace(projectId);
    var exp, iat := ClaimInt64(Claim(b, "exp")), LooseInt64(Claim(b, "iat"));
    var jti, scopes := ClaimText(Claim(b, "jti")), ClaimStrings(Claim(b, "scopes"));
    if ClaimText(Claim(b, "iss")) != EXPECTED_ISSUER || ClaimText(Claim(b, "aud")) != EXPECTED_AUDIENCE then Err(InvalidToken)
    else if userId.None? || userId.value <= 0 || workspaceId.None? || workspaceId.value <= 0 then Err(InvalidToken)
    else if !ValidProjectID(project) || (wanted != "" && wanted != project) then Err(ProjectMismatch)
    else if exp.None? || exp.value <= 0 then Err(InvalidToken)
    else if now >= exp.value * SECOND then Err(Expired)
    else if iat <= 0 || exp.value - iat > kind.Ttl() then Err(InvalidToken)
    else if jti == "" || ClaimText(Claim(b, "token_type")) != kind.Name() then Err(InvalidToken)
    else if requiredScope != "" && requiredScope !in scopes then Err(InvalidToken)
    else Ok(Claims(userId.value, workspaceId.value, project, scopes, exp.value, iat, jti, kind))
  }

  lemma {:induction false} TextsOfTexts(xs: seq<string>)
    ensures ClaimStrings(TextList(xs)) == xs
  {
    if xs != [] {
      TextsOfTexts(xs[1..]);
      assert TextList(xs).values[1..] == TextList(xs[1..]).values;
    }
  }

  lemma SubjectReadsBack(n: int)
    requires 0 < n < 0x8000_0000_0000_0000
    ensures ParseInt64(Decimal(n)) == Some(n)
  {
    DecimalReadsBack(n);
    assert IsDigit(Decimal(n)[0]);
  }

  // ---------------------------------------------------------- what verifies, exactly

  predicate SpelledBy(s: string, digits: string, n: int) {
    && digits != "" && AllDigits(digits)
    && (  (s == "-" + digits && n + DigitsValue(digits) == 0)
       || (s == "+" + digits && n == DigitsValue(digits))
       || (s == digits && n == DigitsValue(digits)))
  }

  /** A decimal with at most one sign in front. */
  ghost predicate Spells(s: string, n: int) { exists digits: string :: SpelledBy(s, digits, n) }

  /** Text counts as a number exactly when it spells one that fits 64 bits. */
  lemma ParsesExactly(s: string, n: int)
    ensures ParseInt64(s) == Some(n) <==> Spells(s, n) && -0x8000_0000_0000_0000 <= n < 0x8000_0000_0000_0000
  {
    if ParseInt64(s) == Some(n) {
      var digits := if s[0] == '-' || s[0] == '+' then s[1..] else s;
      assert s == (if s[0] == '-' then "-" else if s[0] == '+' then "+" else "") + digits;
      assert SpelledBy(s, digits, n);
    }
    if digits: string :| SpelledBy(s, digits, n) {
      assert IsDigit(digits[0]);
      assert s != digits ==> s[1..] == digits;
    }
  }

  /** The issue time, whose errors are ignored: a number as it is or as it is spelled, the
      nearest one that fits when it is out of range, zero when it is none. */
  lemma LooseExactly(s: string, n: int)
    ensures LooseInt64(Num(n)) == n
    ensures Spells(s, n) ==>
      LooseInt64(Text(s)) == if n < -0x8000_0000_0000_0000 then -0x8000_0000_0000_0000
                             else if n > 0x7fff_ffff_ffff_ffff then 0x7fff_ffff_ffff_ffff else n
    ensures (forall m :: !Spells(s, m)) ==> LooseInt64(Text(s)) == 0
  {
    if digits: string :| SpelledBy(s, digits, n) {
      assert IsDigit(digits[0]);
      assert s != digits ==> s[1..] == digits;
    }
    if s != "" {
      var digits := if s[0] == '-' || s[0] == '+' then s[1..] else s;
      assert s == (if s[0] == '-' then "-" else if s[0] == '+' then "+" else "") + digits;
      if digits != "" && AllDigits(digits) {
        var m: int := DigitsValue(digits);
        var signed := if s[0] == '-' then -m else m;
        assert SpelledBy(s, digits, signed);
        assert Spells(s, signed);
      }
    }
  }

  /** The scopes of a claim are the texts of its list, whatever else the list holds. */
  lemma {:induction false} TextsExactly(values: seq<Value>, s: string)
    ensures s in Texts(values) <==> Text(s) in values
  {
    if values != [] {
      TextsExactly(values[1..], s);
      assert values == [values[0]] + values[1..];
    }
  }

  ghost predicate GoodProject(id: string) {
    && ("ve_" <= id || "vx_" <= id) && 4 <= Utf8Length(id) <= 128
    && '/' !in id && '\\' !in id && '\r' !in id && '\n' !in id
  }

  lemma {:induction false} AsciiLength(s: string)
    requires forall i :: 0 <= i < |s| ==> s[i] < '\U{80}'
    ensures Utf8Length(s) == |s|
  {
    if s != "" {
      AsciiLength(s[1..]);
    }
  }

  lemma GoodProjectExactly(id: string)
    ensures ValidProjectID(id) <==> GoodProject(id)
  {
    if GoodProject(id) {
      forall i | 0 <= i < |id|
        ensures id[i] !in {'/', '\\', '\r', '\n'}
      {
        assert id[i] in id;
      }
    }
  }

  /** Who the token is from and for, which kind it is, and that it has an id. */
  ghost predicate Genuine(b: Body, kind: Kind) {
    && Claim(b, "iss") == Text("instaedit") && Claim(b, "aud") == Text("velox")
    && Claim(b, "token_type") == Text(if kind.Launch? then "editor_launch" else "editor_session")
    && Claim(b, "jti").Text? && Claim(b, "jti").s != ""
  }

  /** It names a user and a workspace by positive numbers. */
  ghost predicate NamesOwner(b: Body) {
    && ClaimInt64(Claim(b, "sub")).Some? && ClaimInt64(Claim(b, "sub")).value > 0
    && ClaimInt64(Claim(b, "workspace_id")).Some? && ClaimInt64(Claim(b, "workspace_id")).value > 0
  }

  /** It is for this project, or for any when none is asked for. */
  ghost predicate ForProject(b: Body, projectId: string) {
    && Claim(b, "project_id").Text? && GoodProject(Claim(b, "project_id").s)
    && (TrimSpace(projectId) == "" || TrimSpace(projectId) == Claim(b, "project_id").s)
  }

  /** It was issued, for no longer than its kind allows, and has not expired. */
  ghost predicate InTime(b: Body, kind: Kind, now: int) {
    var exp := ClaimInt64(Claim(b, "exp"));
    && exp.Some? && exp.value > 0 && now < exp.value * 1_000_000_000 && LooseInt64(Claim(b, "iat")) > 0
    && exp.value - LooseInt64(Claim(b, "iat")) <= if kind.Launch? then 120 else 1800
  }

  ghost predicate Grants(b: Body, requiredScope: string) {
    requiredScope == "" || (Claim(b, "scopes").List? && Text(requiredScope) in Claim(b, "scopes").values)
  }

  ghost predicate Passes(b: Body, projectId: string, requiredScope: string, kind: Kind, now: int) {
    Genuine(b, kind) && NamesOwner(b) && ForProject(b, projectId) && InTime(b, kind, now) && Grants(b, requiredScope)
  }

  /** Any text whatever verifies exactly when it opens and its claims pass all five tests,
      and the claims that come out are those of the token. */
  lemma VerifiesExactly(signer: Signer, raw: string, projectId: string, requiredScope: string, kind: Kind, now: int)
    ensures
      var r, b := Verify(signer, raw, projectId, requiredScope, kind, now), signer.open(raw);
      && (r.Ok? <==> TrimSpace(raw) != "" && b.Some? && Passes(b.value, projectId, requiredScope, kind, now))
      && (r.Ok? ==>
           r.value == Claims(ClaimInt64(Claim(b.value, "sub")).value, ClaimInt64(Claim(b.value, "workspace_id")).value,
                             Claim(b.value, "project_id").s, ClaimStrings(Claim(b.value, "scopes")),
                             ClaimInt64(Claim(b.value, "exp")).value, LooseInt64(Claim(b.value, "iat")), Claim(b.value, "jti").s, kind))
  {
    var b := signer.open(raw);
    if TrimSpace(raw) != "" && b.Some? {
      BodyVerifiesExactly(b.value, projectId, requiredScope, kind, now);
    }
    VerifyOpens(signer, raw, projectId, requiredScope, kind, now);
    hide *;
  }

  lemma VerifyOpens(signer: Signer, raw: string, projectId: string, requiredScope: string, kind: Kind, now: int)
    ensures
      Verify(signer, raw, projectId, requiredScope, kind, now) ==
        if TrimSpace(raw) == "" || signer.open(raw).None? then Err(InvalidToken)
        else VerifyBody(signer.open(raw).value, projectId, requiredScope, kind, now)
  {
    hide TrimSpace, VerifyBody;
  }

  lemma TextClaim(v: Value, s: string)
    requires s != ""
    ensures ClaimText(v) == s <==> v == Text(s)
  {}

  lemma TextClaims(b: Body)
    ensures ClaimText(Claim(b, "iss")) == EXPECTED_ISSUER <==> Claim(b, "iss") == Text("instaedit")
    ensures ClaimText(Claim(b, "aud")) == EXPECTED_AUDIENCE <==> Claim(b, "aud") == Text("velox")
    ensures ClaimText(Claim(b, "token_type")) == Launch.Name() <==> Claim(b, "token_type") == Text("editor_launch")
    ensures ClaimText(Claim(b, "token_type")) == Session.Name() <==> Claim(b, "token_type") == Text("editor_session")
    ensures ClaimText(Claim(b, "jti")) == "" <==> !Claim(b, "jti").Text? || Claim(b, "jti").s == ""
    ensures !GoodProject("")
  {
    hide Claim;
    TextClaim(Claim(b, "iss"), "instaedit");
    TextClaim(Claim(b, "aud"), "velox");
    TextClaim(Claim(b, "token_type"), "editor_launch");
    TextClaim(Claim(b, "token_type"), "editor_session");
  }

  lemma BodyVerifiesExactly(b: Body, projectId: string, requiredScope: string, kind: Kind, now: int)
    ensures
      var r := VerifyBody(b, projectId, requiredScope, kind, now);
      && (r.Ok? <==> Passes(b, projectId, requiredScope, kind, now))
      && (r.Ok? ==>
           r.value == Claims(ClaimInt64(Claim(b, "sub")).value, ClaimInt64(Claim(b, "workspace_id")).value, Claim(b, "project_id").s,
                             ClaimStrings(Claim(b, "scopes")), ClaimInt64(Claim(b, "exp")).value, LooseInt64(Claim(b, "iat")),
                             Claim(b, "jti").s, kind))
  {
    TextClaims(b);
    ProjectTest(b, projectId);
    TimeTest(b, kind, now);
    ScopeTest(b, requiredScope);
    hide TrimSpace, Claim, ClaimInt64, LooseInt64, ClaimStrings, ValidProjectID, ForProject, InTime, Grants, Kind.Ttl;
  }

  lemma ProjectTest(b: Body, projectId: string)
    ensures
      var project, wanted := ClaimText(Claim(b, "project_id")), TrimSpace(projectId);
      && (ForProject(b, projectId) <==> ValidProjectID(project) && (wanted == "" || wanted == project))
      && (ForProject(b, projectId) ==> project == Claim(b, "project_id").s)
  {
    GoodProjectExactly(ClaimText(Claim(b, "project_id")));
    TextClaims(b);
    hide TrimSpace, Claim, ValidProjectID, GoodProject;
  }

  lemma TimeTest(b: Body, kind: Kind, now: int)
    ensures
      var exp, iat := ClaimInt64(Claim(b, "exp")), LooseInt64(Claim(b, "iat"));
      InTime(b, kind, now) <==>
        exp.Some? && exp.value > 0 && now < exp.value * SECOND && iat > 0 && exp.value - iat <= kind.Ttl()
  {
    hide Claim, ClaimInt64, LooseInt64;
  }

  lemma ScopeTest(b: Body, requiredScope: string)
    ensures Grants(b, requiredScope) <==> requiredScope == "" || requiredScope in ClaimStrings(Claim(b, "scopes"))
  {
    if Claim(b, "scopes").List? {
      TextsExactly(Claim(b, "scopes").values, requiredScope);
    }
    hide Claim, Texts;
  }

  ghost predicate FromUs(b: Body) {
    Claim(b, "iss") == Text("instaedit") && Claim(b, "aud") == Text("velox") && NamesOwner(b)
  }

  ghost predicate TimeIsUp(b: Body, now: int) {
    ClaimInt64(Claim(b, "exp")).Some? && 0 < ClaimInt64(Claim(b, "exp")).value * 1_000_000_000 <= now
  }

  /** A token from this issuer that names its owner is refused for its project exactly when
      that is malformed or another one; and else as expired exactly when its time is up. */
  lemma RefusedExactly(signer: Signer, raw: string, projectId: string, requiredScope: string, kind: Kind, now: int)
    requires TrimSpace(raw) != "" && signer.open(raw).Some?
    ensures
      var r, b := Verify(signer, raw, projectId, requiredScope, kind, now), signer.open(raw).value;
      && (r == Err(ProjectMismatch) <==> FromUs(b) && !ForProject(b, projectId))
      && (r == Err(Expired) <==> FromUs(b) && ForProject(b, projectId) && TimeIsUp(b, now))
      && (r.Err? ==> r.error in {InvalidToken, ProjectMismatch, Expired})
  {
    VerifyOpens(signer, raw, projectId, requiredScope, kind, now);
    BodyRefusedExactly(signer.open(raw).value, projectId, requiredScope, kind, now);
    hide *;
  }

  lemma BodyRefusedExactly(b: Body, projectId: string, requiredScope: string, kind: Kind, now: int)
    ensures
      var r := VerifyBody(b, projectId, requiredScope, kind, now);
      && (r == Err(ProjectMismatch) <==> FromUs(b) && !ForProject(b, projectId))
      && (r == Err(Expired) <==> FromUs(b) && ForProject(b, projectId) && TimeIsUp(b, now))
      && (r.Err? ==> r.error in {InvalidToken, ProjectMismatch, Expired})
  {
    GoodProjectExactly(ClaimText(Claim(b, "project_id")));
    TextClaims(b);
    hide TrimSpace, Claim, ClaimInt64, LooseInt64, Texts, ValidProjectID, GoodProject, Kind.Name;
  }

  ghost predicate GoodScopes(scopes: seq<string>) {
    forall scope :: scope in scopes ==> scope == "editor.read" || scope == "editor.write"
  }

  lemma GoodScopesExactly(scopes: seq<string>)
    ensures UnknownScope(scopes) <==> !GoodScopes(scopes)
  {
    if UnknownScope(scopes) {
      var i :| 0 <= i < |scopes| && scopes[i] != SCOPE_READ && scopes[i] != SCOPE_WRITE;
      assert scopes[i] in scopes;
    }
  }

  /** When a token is issued at all, and with which claims. */
  lemma IssuesExactly(signer: Signer, userId: int, workspaceId: int, projectId: string, scopes: seq<string>, kind: Kind,
                      now: int, random: Option<string>)
    ensures
      var r := Issue(signer, userId, workspaceId, projectId, scopes, kind, now, random);
      var asked :=
        userId > 0 && workspaceId > 0 && GoodProject(TrimSpace(projectId)) && scopes != [] && GoodScopes(scopes);
      && (r.Ok? <==> asked && random.Some?)
      && (r == Err(InvalidToken) <==> !asked)
      && (r == Err(NoRandomness) <==> asked && random.None?)
      && (r.Ok? ==>
           r.value.1 == Claims(userId, workspaceId, TrimSpace(projectId), scopes, Unix(now) + (if kind.Launch? then 120 else 1800),
                               Unix(now), random.value, kind))
  {
    GoodProjectExactly(TrimSpace(projectId));
    GoodScopesExactly(scopes);
    hide TrimSpace, ValidProjectID, ClaimsBody, GoodProject, GoodScopes, UnknownScope;
  }

  /** The whole fate of an issued token: for its own project and a granted scope it
      verifies, with the very claims it was issued for, until the second of its expiry,
      and for nothing else. Only the workspace id passes through a double on the way, so
      it comes back as that double. */
  lemma IssuedTokenVerifies(signer: Signer, userId: int, workspaceId: int, projectId: string, scopes: seq<string>, kind: Kind,
                            now: int, random: Option<string>, wanted: string, requiredScope: string, later: int)
    requires signer.Sound() && userId < 0x8000_0000_0000_0000
    requires 0 < Unix(now) < 0x10_0000_0000_0000
    requires Issue(signer, userId, workspaceId, projectId, scopes, kind, now, random).Ok?
    requires random.value != ""
    ensures
      var (raw, claims) := Issue(signer, userId, workspaceId, projectId, scopes, kind, now, random).value;
      Verify(signer, raw, wanted, requiredScope, kind, later) ==
        if signer.double(workspaceId) <= 0 then Err(InvalidToken)
        else if TrimSpace(wanted) != "" && TrimSpace(wanted) != TrimSpace(projectId) then Err(ProjectMismatch)
        else if Unix(later) >= Unix(now) + kind.Ttl() then Err(Expired)
        else if requiredScope != "" && requiredScope !in scopes then Err(InvalidToken)
        else Ok(claims.(workspaceId := signer.double(workspaceId)))
  {
    var (raw, claims) := Issue(signer, userId, workspaceId, projectId, scopes, kind, now, random).value;
    IssuedClaims(signer, userId, workspaceId, projectId, scopes, kind, now, random);
    SubjectReadsBack(userId);
    TextsOfTexts(scopes);
    WireClaims(signer, claims);
    hide Decimal, ParseInt64, ClaimStrings, TextList, ValidProjectID, TrimSpace, Claim, ClaimsBody, Signer.OnTheWire, Issue, VerifyBody,
         Carries;
    assert signer.open(raw) == Some(signer.OnTheWire(ClaimsBody(claims))) && TrimSpace(raw) != "";
    BodyVerifies(signer, claims, signer.OnTheWire(ClaimsBody(claims)), wanted, requiredScope, later);
  }

  lemma IssuedClaims(signer: Signer, userId: int, workspaceId: int, projectId: string, scopes: seq<string>, kind: Kind,
                     now: int, random: Option<string>)
    requires Issue(signer, userId, workspaceId, projectId, scopes, kind, now, random).Ok?
    ensures
      var (raw, claims) := Issue(signer, userId, workspaceId, projectId, scopes, kind, now, random).value;
      && raw == signer.sign(ClaimsBody(claims)) && userId > 0 && random.Some?
      && claims == Claims(userId, workspaceId, TrimSpace(projectId), scopes, Unix(now) + kind.Ttl(), Unix(now), random.value, kind)
      && ValidProjectID(claims.projectId)
  {
    hide TrimSpace, ValidProjectID, ClaimsBody;
  }

  lemma BodyVerifies(signer: Signer, c: Claims, b: Body, wanted: string, requiredScope: string, later: int)
    requires Carries(signer, b, c) && ParseInt64(Decimal(c.userId)) == Some(c.userId) && c.userId > 0
    requires ClaimStrings(TextList(c.scopes)) == c.scopes
    requires ValidProjectID(c.projectId)
    requires signer.double(c.expiresAt) == c.expiresAt > 0 && signer.double(c.issuedAt) == c.issuedAt > 0
    requires c.expiresAt - c.issuedAt <= c.kind.Ttl() && c.jti != ""
    ensures VerifyBody(b, wanted, requiredScope, c.kind, later) ==
      if signer.double(c.workspaceId) <= 0 then Err(InvalidToken)
      else if TrimSpace(wanted) != "" && TrimSpace(wanted) != c.projectId then Err(ProjectMismatch)
      else if Unix(later) >= c.expiresAt then Err(Expired)
      else if requiredScope != "" && requiredScope !in c.scopes then Err(InvalidToken)
      else Ok(c.(workspaceId := signer.double(c.workspaceId)))
  {
    hide Decimal, ParseInt64, Texts, ValidProjectID, TrimSpace, Claim;
  }

  /** The body holds these claims, with their numbers as doubles. */
  ghost predicate Carries(signer: Signer, b: Body, c: Claims) {
    && Claim(b, "iss") == Text(EXPECTED_ISSUER) && Claim(b, "aud") == Text(EXPECTED_AUDIENCE)
    && Claim(b, "sub") == Text(Decimal(c.userId)) && Claim(b, "workspace_id") == Num(signer.double(c.workspaceId))
    && Claim(b, "project_id") == Text(c.projectId) && Claim(b, "iat") == Num(signer.double(c.issuedAt))
    && Claim(b, "exp") == Num(signer.double(c.expiresAt)) && Claim(b, "jti") == Text(c.jti)
    && Claim(b, "token_type") == Text(c.kind.Name())
    && Claim(b, "scopes") == TextList(c.scopes)
  }

  lemma WireKeeps(signer: Signer, b: Body, key: string)
    ensures
      Claim(signer.OnTheWire(b), key) == if Claim(b, key).Num? then Num(signer.double(Claim(b, key).n)) else Claim(b, key)
  {}

  lemma WireClaims(signer: Signer, c: Claims)
    ensures Carries(signer, signer.OnTheWire(ClaimsBody(c)), c)
  {
    var b := ClaimsBody(c);
    BodyClaims(c);
    hide Decimal, Claim, ClaimsBody, Signer.OnTheWire;
    WireKeeps(signer, b, "iss");
    WireKeeps(signer, b, "aud");
    WireKeeps(signer, b, "sub");
    WireKeeps(signer, b, "workspace_id");
    WireKeeps(signer, b, "project_id");
    WireKeeps(signer, b, "iat");
    WireKeeps(signer, b, "exp");
    WireKeeps(signer, b, "jti");
    WireKeeps(signer, b, "token_type");
    WireKeeps(signer, b, "scopes");
  }

  lemma BodyClaims(c: Claims)
    ensures Carries(Signer(b => "", s => None, n => n), ClaimsBody(c), c)
  {
    hide Decimal;
  }

  lemma VerifiedKind(signer: Signer, raw: string, projectId: string, requiredScope: string, kind: Kind, now: int)
    requires Verify(signer, raw, projectId, requiredScope, kind, now).Ok?
    ensures signer.open(raw).Some? && Claim(signer.open(raw).value, "token_type") == Text(kind.Name())
  {
    hide ParseInt64, Texts, ValidProjectID, TrimSpace, Claim;
    assert kind.Name() != "";
  }

  /** A token of one kind never verifies as the other. */
  lemma KindsStayApart(signer: Signer, raw: string, projectId: string, requiredScope: string, now: int,
                       otherProject: string, otherScope: string, otherNow: int)
    ensures !(Verify(signer, raw, projectId, requiredScope, Launch, now).Ok?
              && Verify(signer, raw, otherProject, otherScope, Session, otherNow).Ok?)
  {
    assert Launch.Name()[7] != Session.Name()[7];
    hide Verify;
    if Verify(signer, raw, projectId, requiredScope, Launch, now).Ok? {
      VerifiedKind(signer, raw, projectId, requiredScope, Launch, now);
      if Verify(signer, raw, otherProject, otherScope, Session, otherNow).Ok? {
        VerifiedKind(signer, raw, otherProject, otherScope, Session, otherNow);
        assert false;
      }
    }
  }

  // ------------------------------------------------------------------ the used set

  /** One call, with the clock as verification read it and as the purge read it. */
  datatype Call = Call(raw: string, projectId: string, requiredScope: string, verifiedAt: int, purgedAt: int)

  function Verdict(signer: Signer, call: Call): Result<Claims, Error> {
    Verify(signer, call.raw, call.projectId, call.requiredScope, Launch, call.verifiedAt)
  }

  function Purged(consumed: map<string, int>, now: int): map<string, int> {
    map jti | jti in consumed && consumed[jti] > now :: consumed[jti]
  }

  class Manager {
    const signer: Signer
    var consumed: map<string, int>

    constructor (signer: Signer)
      ensures this.signer == signer && consumed == map[]
    {
      this.signer := signer;
      consumed := map[];
    }

    /** Drops what has expired, then takes the token unless it is there. */
    method Consume(call: Call) returns (r: Result<Claims, Error>)
      modifies this
      ensures Verdict(signer, call).Err? ==> r == Verdict(signer, call) && consumed == old(consumed)
      ensures Verdict(signer, call).Ok? ==>
        var claims, kept := Verdict(signer, call).value, Purged(old(consumed), Unix(call.purgedAt));
        if claims.jti in kept then r == Err(InvalidToken) && consumed == kept
        else r == Ok(claims) && consumed == kept[claims.jti := claims.expiresAt]
    {
      r := Verdict(signer, call);
      if r.Err? {
        return;
      }
      Purge(Unix(call.purgedAt));
      if r.value.jti in consumed {
        return Err(InvalidToken);
      }
      consumed := consumed[r.value.jti := r.value.expiresAt];
    }

    method Purge(now: int)
      modifies this
      ensures consumed == Purged(old(consumed), now)
    {
      var unseen := consumed.Keys;
      ghost var before := consumed;
      while unseen != {}
        invariant unseen <= before.Keys
        invariant consumed == map jti | jti in before && (jti in unseen || before[jti] > now) :: before[jti]
        decreases |unseen|
      {
        var jti :| jti in unseen;
        unseen := unseen - {jti};
        if consumed[jti] <= now {
          consumed := consumed - {jti};
        }
      }
    }
  }

  // ---------------------------------------------------------- forgetting is invisible

  /** The used set, and for every call so far whether it was accepted. */
  datatype History = History(used: map<string, int>, accepted: seq<bool>)

  /** One call as Consume serves it. */
  function Forget(signer: Signer, h: History, call: Call): History {
    match Verdict(signer, call)
    case Err(_) => h.(accepted := h.accepted + [false])
    case Ok(claims) =>
      var kept := Purged(h.used, Unix(call.purgedAt));
      if claims.jti in kept then History(kept, h.accepted + [false])
      else History(kept[claims.jti := claims.expiresAt], h.accepted + [true])
  }

  /** The same with a set that never forgets. */
  function Remember(signer: Signer, h: History, call: Call): History {
    match Verdict(signer, call)
    case Err(_) => h.(accepted := h.accepted + [false])
    case Ok(claims) =>
      if claims.jti in h.used then h.(accepted := h.accepted + [false])
      else History(h.used[claims.jti := claims.expiresAt], h.accepted + [true])
  }

  function Forgetful(signer: Signer, calls: seq<Call>): History {
    if calls == [] then History(map[], [])
    else Forget(signer, Forgetful(signer, calls[..|calls| - 1]), calls[|calls| - 1])
  }

  function Remembering(signer: Signer, calls: seq<Call>): History {
    if calls == [] then History(map[], [])
    else Remember(signer, Remembering(signer, calls[..|calls| - 1]), calls[|calls| - 1])
  }

  /** The object keeps exactly the history of its calls. */
  method ConsumeAll(manager: Manager, calls: seq<Call>) returns (accepted: seq<bool>)
    requires manager.consumed == map[]
    modifies manager
    ensures History(manager.consumed, accepted) == Forgetful(manager.signer, calls)
  {
    accepted := [];
    for i := 0 to |calls|
      invariant History(manager.consumed, accepted) == Forgetful(manager.signer, calls[..i])
    {
      assert calls[..i + 1][..i] == calls[..i];
      var r := manager.Consume(calls[i]);
      accepted := accepted + [r.Ok?];
    }
    assert calls[..|calls|] == calls;
  }

  /** The purges happen one after the other, each after its own verification. */
  ghost predicate ClockRuns(calls: seq<Call>) {
    && (forall i :: 0 <= i < |calls| ==> calls[i].verifiedAt <= calls[i].purgedAt)
    && (forall i, j :: 0 <= i < j < |calls| ==> calls[i].purgedAt <= calls[j].purgedAt)
  }

  /** Two calls that verify, with tokens of the same id. */
  predicate SameID(signer: Signer, a: Call, b: Call) {
    Verdict(signer, a).Ok? && Verdict(signer, b).Ok? && Verdict(signer, a).value.jti == Verdict(signer, b).value.jti
  }

  /** A token's id determines when it expires. */
  ghost predicate IdsDetermineExpiry(signer: Signer, calls: seq<Call>) {
    forall i, j :: 0 <= i < |calls| && 0 <= j < |calls| && SameID(signer, calls[i], calls[j]) ==>
      Verdict(signer, calls[i]).value.expiresAt == Verdict(signer, calls[j]).value.expiresAt
  }

  /** A used token presented again so late that it expires between the two readings. */
  ghost predicate LateReplay(signer: Signer, calls: seq<Call>, i: nat) {
    && i < |calls| && Verdict(signer, calls[i]).Ok?
    && Verdict(signer, calls[i]).value.expiresAt <= Unix(calls[i].purgedAt)
    && exists k :: 0 <= k < i && SameID(signer, calls[k], calls[i])
  }

  ghost predicate NoLateReplay(signer: Signer, calls: seq<Call>) {
    forall i :: 0 <= i < |calls| ==> !LateReplay(signer, calls, i)
  }

  lemma {:induction false} RememberingKeepsAll(signer: Signer, calls: seq<Call>)
    requires IdsDetermineExpiry(signer, calls)
    ensures |Remembering(signer, calls).accepted| == |calls|
    ensures forall i :: 0 <= i < |calls| && Verdict(signer, calls[i]).Ok? ==>
              var claims := Verdict(signer, calls[i]).value;
              claims.jti in Remembering(signer, calls).used && Remembering(signer, calls).used[claims.jti] == claims.expiresAt
    ensures forall jti :: jti in Remembering(signer, calls).used ==>
              exists i :: 0 <= i < |calls| && Verdict(signer, calls[i]).Ok? && Verdict(signer, calls[i]).value.jti == jti
  {
    hide Verify;
    if calls != [] {
      var n := |calls| - 1;
      RememberingKeepsAll(signer, calls[..n]);
      assert forall i :: 0 <= i < n ==> calls[..n][i] == calls[i];
    }
  }

  /** Up to here nothing was forgotten too early: the forgetful set is a part of the other
      one and holds all of it that has not expired. */
  ghost predicate Simulates(used: map<string, int>, all: map<string, int>, now: int) {
    && (forall jti :: jti in used ==> jti in all && used[jti] == all[jti])
    && (forall jti :: jti in all && all[jti] > now ==> jti in used)
  }

  lemma SimulatesStep(signer: Signer, f: History, r: History, now: int, call: Call)
    requires f.accepted == r.accepted && Simulates(f.used, r.used, now) && now <= Unix(call.purgedAt)
    requires Verdict(signer, call).Ok? && Verdict(signer, call).value.jti in r.used ==>
      Verdict(signer, call).value.expiresAt > Unix(call.purgedAt)
      && r.used[Verdict(signer, call).value.jti] == Verdict(signer, call).value.expiresAt
    ensures Forget(signer, f, call).accepted == Remember(signer, r, call).accepted
    ensures Simulates(Forget(signer, f, call).used, Remember(signer, r, call).used, Unix(call.purgedAt))
  {
    hide Verify;
  }

  /** Without late replays the two sets decide alike. */
  lemma {:induction false} Tracks(signer: Signer, calls: seq<Call>)
    requires ClockRuns(calls) && IdsDetermineExpiry(signer, calls) && NoLateReplay(signer, calls)
    ensures Forgetful(signer, calls).accepted == Remembering(signer, calls).accepted
    ensures calls != [] ==>
      Simulates(Forgetful(signer, calls).used, Remembering(signer, calls).used, Unix(calls[|calls| - 1].purgedAt))
  {
    hide Verify, Forget, Remember, Simulates, ClockRuns;
    if calls != [] {
      var n := |calls| - 1;
      var front, call := calls[..n], calls[n];
      FrontIsAlike(signer, calls, n);
      Tracks(signer, front);
      RememberingKeepsAll(signer, front);
      var f, r := Forgetful(signer, front), Remembering(signer, front);
      if Verdict(signer, call).Ok? && Verdict(signer, call).value.jti in r.used {
        var k :| 0 <= k < n && Verdict(signer, front[k]).Ok? && Verdict(signer, front[k]).value.jti == Verdict(signer, call).value.jti;
        assert SameID(signer, calls[k], calls[n]);
        assert !LateReplay(signer, calls, n);
      }
      PurgeTimes(calls);
      if n == 0 {
        EmptySimulates(Unix(call.purgedAt));
        SimulatesStep(signer, f, r, Unix(call.purgedAt), call);
      } else {
        SimulatesStep(signer, f, r, Unix(front[n - 1].purgedAt), call);
      }
    }
  }

  lemma EmptySimulates(now: int)
    ensures Simulates(map[], map[], now)
  {}

  lemma PurgeTimes(calls: seq<Call>)
    requires ClockRuns(calls)
    ensures |calls| > 1 ==> Unix(calls[|calls| - 2].purgedAt) <= Unix(calls[|calls| - 1].purgedAt)
  {}

  lemma FrontIsAlike(signer: Signer, calls: seq<Call>, n: nat)
    requires n <= |calls| && ClockRuns(calls) && IdsDetermineExpiry(signer, calls)
    ensures ClockRuns(calls[..n]) && IdsDetermineExpiry(signer, calls[..n])
    ensures forall i: nat :: i < n ==> (LateReplay(signer, calls[..n], i) <==> LateReplay(signer, calls, i))
  {
    hide Verdict;
    forall i: nat | i < n
      ensures LateReplay(signer, calls[..n], i) <==> LateReplay(signer, calls, i)
    {
      assert forall k :: 0 <= k < i ==> calls[..n][k] == calls[k];
    }
  }

  lemma {:induction false} AcceptedPrefix(signer: Signer, calls: seq<Call>, n: nat)
    requires n <= |calls|
    ensures |Forgetful(signer, calls).accepted| == |Remembering(signer, calls).accepted| == |calls|
    ensures Forgetful(signer, calls[..n]).accepted == Forgetful(signer, calls).accepted[..n]
    ensures Remembering(signer, calls[..n]).accepted == Remembering(signer, calls).accepted[..n]
  {
    hide Verdict;
    if n < |calls| {
      var front := calls[..|calls| - 1];
      AcceptedPrefix(signer, front, n);
      assert front[..n] == calls[..n];
    } else if calls != [] {
      AcceptedPrefix(signer, calls[..|calls| - 1], 0);
      assert calls[..n] == calls;
    }
  }

  /** Whether a call was accepted is decided on the history before it. */
  lemma AcceptedOnFront(signer: Signer, calls: seq<Call>, i: nat)
    requires i < |calls|
    ensures |Remembering(signer, calls).accepted| == |calls|
    ensures Remembering(signer, calls).accepted[i] <==>
              Verdict(signer, calls[i]).Ok? && Verdict(signer, calls[i]).value.jti !in Remembering(signer, calls[..i]).used
  {
    AcceptedPrefix(signer, calls, i + 1);
    AcceptedPrefix(signer, calls[..i], 0);
    FollowsFront(signer, calls, i);
    var h := Remembering(signer, calls[..i]);
    hide Verify, Remembering, Forgetful;
    assert Remembering(signer, calls).accepted[..i + 1][i] == Remember(signer, h, calls[i]).accepted[i];
  }

  /** A call is remembered as accepted exactly when it verifies and no call with the same
      id did before. */
  lemma RememberingAccepts(signer: Signer, calls: seq<Call>, i: nat)
    requires i < |calls| && IdsDetermineExpiry(signer, calls) && ClockRuns(calls)
    ensures |Remembering(signer, calls).accepted| == |calls|
    ensures Remembering(signer, calls).accepted[i] <==>
              Verdict(signer, calls[i]).Ok? && forall k :: 0 <= k < i ==> !SameID(signer, calls[k], calls[i])
  {
    AcceptedOnFront(signer, calls, i);
    FrontIsAlike(signer, calls, i);
    RememberingKeepsAll(signer, calls[..i]);
    hide Verdict, Remembering, IdsDetermineExpiry, ClockRuns, LateReplay;
    assert forall k :: 0 <= k < i ==> calls[..i][k] == calls[k];
  }

  /** The first late replay is accepted, although its id was used. */
  lemma LateReplayAccepted(signer: Signer, calls: seq<Call>, i: nat)
    requires i < |calls| && ClockRuns(calls) && IdsDetermineExpiry(signer, calls)
    requires LateReplay(signer, calls, i) && forall k: nat :: k < i ==> !LateReplay(signer, calls, k)
    ensures |Forgetful(signer, calls[..i]).accepted| == i
    ensures Forgetful(signer, calls[..i]).accepted == Remembering(signer, calls[..i]).accepted
    ensures Forgetful(signer, calls[..i + 1]).accepted == Forgetful(signer, calls[..i]).accepted + [true]
    ensures Remembering(signer, calls[..i + 1]).accepted == Remembering(signer, calls[..i]).accepted + [false]
  {
    hide *;
    FrontTracks(signer, calls, i);
    UsedBefore(signer, calls, i);
    FollowsFront(signer, calls, i);
    var f, r := Forgetful(signer, calls[..i]), Remembering(signer, calls[..i]);
    LateIsForgotten(signer, f, r, calls[i]);
  }

  lemma FrontTracks(signer: Signer, calls: seq<Call>, i: nat)
    requires ClockRuns(calls) && IdsDetermineExpiry(signer, calls)
    requires LateReplay(signer, calls, i) && forall k: nat :: k < i ==> !LateReplay(signer, calls, k)
    ensures
      var f, r := Forgetful(signer, calls[..i]), Remembering(signer, calls[..i]);
      && f.accepted == r.accepted && |f.accepted| == i && Verdict(signer, calls[i]).Ok?
      && forall jti :: jti in f.used ==> jti in r.used && f.used[jti] == r.used[jti]
  {
    hide Verdict, Forgetful, Remembering;
    FrontIsAlike(signer, calls, i);
    Tracks(signer, calls[..i]);
    AcceptedPrefix(signer, calls[..i], 0);
  }

  lemma FollowsFront(signer: Signer, calls: seq<Call>, i: nat)
    requires i < |calls|
    ensures Forgetful(signer, calls[..i + 1]) == Forget(signer, Forgetful(signer, calls[..i]), calls[i])
    ensures Remembering(signer, calls[..i + 1]) == Remember(signer, Remembering(signer, calls[..i]), calls[i])
  {
    hide Forget, Remember;
    assert calls[..i + 1][..i] == calls[..i];
  }

  lemma UsedBefore(signer: Signer, calls: seq<Call>, i: nat)
    requires ClockRuns(calls) && IdsDetermineExpiry(signer, calls) && LateReplay(signer, calls, i)
    ensures
      var claims, f, r := Verdict(signer, calls[i]).value, Forgetful(signer, calls[..i]), Remembering(signer, calls[..i]);
      claims.jti in r.used && r.used[claims.jti] == claims.expiresAt <= Unix(calls[i].purgedAt)
  {
    hide Verdict, Forgetful, Remembering;
    FrontIsAlike(signer, calls, i);
    RememberingKeepsAll(signer, calls[..i]);
    var k :| 0 <= k < i && SameID(signer, calls[k], calls[i]);
    assert calls[..i][k] == calls[k];
  }

  lemma LateIsForgotten(signer: Signer, f: History, r: History, call: Call)
    requires Verdict(signer, call).Ok? && Verdict(signer, call).value.jti in r.used
    requires r.used[Verdict(signer, call).value.jti] <= Unix(call.purgedAt)
    requires forall jti :: jti in f.used ==> jti in r.used && f.used[jti] == r.used[jti]
    ensures Forget(signer, f, call).accepted == f.accepted + [true]
    ensures Remember(signer, r, call).accepted == r.accepted + [false]
  {
    hide Verify;
  }

  lemma FirstLateReplay(signer: Signer, calls: seq<Call>) returns (i: nat)
    requires !NoLateReplay(signer, calls)
    ensures LateReplay(signer, calls, i) && forall k: nat :: k < i ==> !LateReplay(signer, calls, k)
  {
    hide LateReplay;
    var last :| 0 <= last < |calls| && LateReplay(signer, calls, last);
    i := 0;
    while !LateReplay(signer, calls, i)
      invariant i <= last && forall k: nat :: k < i ==> !LateReplay(signer, calls, k)
      decreases last - i
    {
      i := i + 1;
    }
  }

  /** Over a whole history the forgetful set decides every call like the set that never
      forgets, exactly when no used token is presented so late that it expires between
      the verification and the purge. */
  lemma ForgettingExactly(signer: Signer, calls: seq<Call>)
    requires ClockRuns(calls) && IdsDetermineExpiry(signer, calls)
    ensures Forgetful(signer, calls).accepted == Remembering(signer, calls).accepted <==> NoLateReplay(signer, calls)
  {
    hide Verdict, Forgetful, Remembering, LateReplay;
    if NoLateReplay(signer, calls) {
      Tracks(signer, calls);
    } else {
      var i := FirstLateReplay(signer, calls);
      LateInRange(signer, calls, i);
      LateReplayAccepted(signer, calls, i);
      assert (Forgetful(signer, calls[..i]).accepted + [true])[i] && !(Remembering(signer, calls[..i]).accepted + [false])[i];
      AcceptedPrefix(signer, calls, i + 1);
    }
  }

  lemma LateInRange(signer: Signer, calls: seq<Call>, i: nat)
    requires LateReplay(signer, calls, i)
    ensures i < |calls|
  {}

  ghost predicate OneTime(signer: Signer, calls: seq<Call>) {
    forall i, j :: 0 <= i < j < |calls| && j < |Forgetful(signer, calls).accepted| && SameID(signer, calls[i], calls[j]) ==>
      !(Forgetful(signer, calls).accepted[i] && Forgetful(signer, calls).accepted[j])
  }

  lemma AtMostOnce(signer: Signer, calls: seq<Call>)
    requires ClockRuns(calls) && IdsDetermineExpiry(signer, calls) && NoLateReplay(signer, calls)
    ensures OneTime(signer, calls)
  {
    AcceptedPrefix(signer, calls, 0);
    Tracks(signer, calls);
    hide Verdict, Forgetful, Remembering, NoLateReplay;
    forall i, j | 0 <= i < j < |calls| && SameID(signer, calls[i], calls[j])
      ensures !Forgetful(signer, calls).accepted[j]
    {
      RememberingAccepts(signer, calls, j);
    }
  }

  ghost predicate AcceptedTwice(signer: Signer, calls: seq<Call>, i: nat, j: nat) {
    && i < j < |calls| && j < |Forgetful(signer, calls).accepted| && SameID(signer, calls[i], calls[j])
    && Forgetful(signer, calls).accepted[i] && Forgetful(signer, calls).accepted[j]
  }

  /** A late replay is accepted, and so was the first use of its token. */
  lemma LateReplayIsSecond(signer: Signer, calls: seq<Call>) returns (i: nat, j: nat)
    requires ClockRuns(calls) && IdsDetermineExpiry(signer, calls) && !NoLateReplay(signer, calls)
    ensures AcceptedTwice(signer, calls, i, j)
  {
    hide Verdict, Forgetful, Remembering, LateReplay, NoLateReplay, IdsDetermineExpiry, ClockRuns, SameID, OneTime;
    j := FirstLateReplay(signer, calls);
    i := FirstUse(signer, calls, j);
    SplitsAt(signer, calls, j);
    FirstUseAccepted(signer, calls, i);
    SameUpTo(Forgetful(signer, calls).accepted, Remembering(signer, calls).accepted, i, j);
  }

  lemma SplitsAt(signer: Signer, calls: seq<Call>, j: nat)
    requires j < |calls| && ClockRuns(calls) && IdsDetermineExpiry(signer, calls)
    requires LateReplay(signer, calls, j) && forall k: nat :: k < j ==> !LateReplay(signer, calls, k)
    ensures
      var a, b := Forgetful(signer, calls).accepted, Remembering(signer, calls).accepted;
      |a| == |b| == |calls| && a[..j] == b[..j] && a[..j + 1] == a[..j] + [true]
  {
    hide *;
    LateReplayAccepted(signer, calls, j);
    AcceptedPrefix(signer, calls, j);
    AcceptedPrefix(signer, calls, j + 1);
  }

  lemma SameUpTo(a: seq<bool>, b: seq<bool>, i: nat, j: nat)
    requires i < j < |a| == |b| && a[..j] == b[..j] && a[..j + 1] == a[..j] + [true] && b[i]
    ensures a[i] && a[j]
  {
    assert a[i] == a[..j][i] == b[..j][i] == b[i];
    assert a[j] == a[..j + 1][j];
  }

  lemma FirstUseAccepted(signer: Signer, calls: seq<Call>, i: nat)
    requires i < |calls| && IdsDetermineExpiry(signer, calls) && ClockRuns(calls)
    requires Verdict(signer, calls[i]).Ok? && forall k :: 0 <= k < i ==> !SameID(signer, calls[k], calls[i])
    ensures |Remembering(signer, calls).accepted| == |calls| && Remembering(signer, calls).accepted[i]
  {
    hide *;
    RememberingAccepts(signer, calls, i);
  }

  /** Every token is accepted at most once, under the same condition and no weaker one. */
  lemma OneTimeExactly(signer: Signer, calls: seq<Call>)
    requires ClockRuns(calls) && IdsDetermineExpiry(signer, calls)
    ensures OneTime(signer, calls) <==> NoLateReplay(signer, calls)
  {
    if NoLateReplay(signer, calls) {
      AtMostOnce(signer, calls);
    } else {
      var i, j := LateReplayIsSecond(signer, calls);
    }
    hide Verdict, Forgetful, NoLateReplay, SameID;
  }

  lemma FirstUse(signer: Signer, calls: seq<Call>, j: nat) returns (i: nat)
    requires LateReplay(signer, calls, j)
    ensures i < j < |calls| && SameID(signer, calls[i], calls[j]) && Verdict(signer, calls[i]).Ok?
    ensures forall k :: 0 <= k < i ==> !SameID(signer, calls[k], calls[i])
  {
    hide Verdict;
    var last :| 0 <= last < j && SameID(signer, calls[last], calls[j]);
    i := 0;
    while !SameID(signer, calls[i], calls[j])
      invariant i <= last && forall k :: 0 <= k < i ==> !SameID(signer, calls[k], calls[j])
      decreases last - i
    {
      i := i + 1;
    }
    assert forall k :: 0 <= k < i && SameID(signer, calls[k], calls[i]) ==> SameID(signer, calls[k], calls[j]);
  }

  /** When both readings fall into one second there is no such replay. */
  lemma OneSecondSuffices(signer: Signer, calls: seq<Call>)
    requires forall i :: 0 <= i < |calls| ==> Unix(calls[i].verifiedAt) == Unix(calls[i].purgedAt)
    ensures NoLateReplay(signer, calls)
  {
    forall i | 0 <= i < |calls| && Verdict(signer, calls[i]).Ok?
      ensures Verdict(signer, calls[i]).value.expiresAt > Unix(calls[i].purgedAt)
    {
      VerifiedIsAlive(signer, calls[i]);
    }
    hide Verdict;
  }

  lemma VerifiedIsAlive(signer: Signer, call: Call)
    requires Verdict(signer, call).Ok?
    ensures Unix(call.verifiedAt) < Verdict(signer, call).value.expiresAt
  {
    hide ParseInt64, Texts, ValidProjectID, TrimSpace;
  }

  /** After a verified call nothing in the set has expired, but perhaps the token just
      taken. */
  lemma HoldsOnlyTheLiving(signer: Signer, calls: seq<Call>)
    requires calls != [] && Verdict(signer, calls[|calls| - 1]).Ok?
    ensures
      var call, h := calls[|calls| - 1], Forgetful(signer, calls);
      forall jti :: jti in h.used && h.used[jti] <= Unix(call.purgedAt) ==>
        jti == Verdict(signer, call).value.jti && h.accepted[|h.accepted| - 1]
  {
    hide Verify;
  }

  /** Such a replay is possible with every issued token: used once at the moment of its
      issue, and presented again in its last nanosecond, it is accepted twice. */
  lemma LateReplayHappens(signer: Signer, userId: int, workspaceId: int, projectId: string, scopes: seq<string>, now: int, jti: string)
      returns (calls: seq<Call>)
    requires signer.Sound() && userId < 0x8000_0000_0000_0000 && 0 < workspaceId <= 0x20_0000_0000_0000
    requires 0 < Unix(now) < 0x10_0000_0000_0000 && jti != ""
    requires Issue(signer, userId, workspaceId, projectId, scopes, Launch, now, Some(jti)).Ok?
    ensures ClockRuns(calls) && IdsDetermineExpiry(signer, calls) && LateReplay(signer, calls, 1)
    ensures Forgetful(signer, calls).accepted == [true, true] && Remembering(signer, calls).accepted == [true, false]
  {
    hide Verify, Issue, Signer.Sound, Forgetful, Remembering, LateReplay, ClockRuns, IdsDetermineExpiry;
    var raw, exp := Issue(signer, userId, workspaceId, projectId, scopes, Launch, now, Some(jti)).value.0, Unix(now) + Launch.Ttl();
    var first, again := Call(raw, "", "", now, now), Call(raw, "", "", exp * SECOND - 1, exp * SECOND);
    VerifiesUntil(signer, userId, workspaceId, projectId, scopes, now, jti, now);
    VerifiesUntil(signer, userId, workspaceId, projectId, scopes, now, jti, exp * SECOND - 1);
    calls := [first, again];
    UsedTwice(signer, first, again, jti, exp);
  }

  predicate VerifiesAs(signer: Signer, call: Call, jti: string, exp: int) {
    var verdict := Verdict(signer, call);
    verdict.Ok? && verdict.value.jti == jti && verdict.value.expiresAt == exp
  }

  /** Until the second of its expiry an issued token verifies for any project, with its id
      and its expiry. */
  lemma VerifiesUntil(signer: Signer, userId: int, workspaceId: int, projectId: string, scopes: seq<string>, now: int, jti: string, later: int)
    requires signer.Sound() && userId < 0x8000_0000_0000_0000 && 0 < workspaceId <= 0x20_0000_0000_0000
    requires 0 < Unix(now) < 0x10_0000_0000_0000 && jti != ""
    requires Issue(signer, userId, workspaceId, projectId, scopes, Launch, now, Some(jti)).Ok?
    requires Unix(later) < Unix(now) + Launch.Ttl()
    ensures
      var verdict := Verify(signer, Issue(signer, userId, workspaceId, projectId, scopes, Launch, now, Some(jti)).value.0, "", "", Launch, later);
      verdict.Ok? && verdict.value.jti == jti && verdict.value.expiresAt == Unix(now) + Launch.Ttl()
  {
    IssuedClaims(signer, userId, workspaceId, projectId, scopes, Launch, now, Some(jti));
    IssuedTokenVerifies(signer, userId, workspaceId, projectId, scopes, Launch, now, Some(jti), "", "", later);
    hide Verify, Issue, TrimSpace;
    assert TrimSpace("") == "";
  }

  lemma UsedTwice(signer: Signer, first: Call, again: Call, jti: string, exp: int)
    requires VerifiesAs(signer, first, jti, exp) && VerifiesAs(signer, again, jti, exp)
    requires first.verifiedAt <= first.purgedAt <= again.purgedAt && again.verifiedAt <= again.purgedAt
    requires exp <= Unix(again.purgedAt)
    ensures
      var calls := [first, again];
      && ClockRuns(calls) && IdsDetermineExpiry(signer, calls) && LateReplay(signer, calls, 1)
      && Forgetful(signer, calls).accepted == [true, true] && Remembering(signer, calls).accepted == [true, false]
  {
    hide Verify, Forgetful, Remembering;
    var calls := [first, again];
    TwoCalls(signer, first, again);
    assert SameID(signer, calls[0], calls[1]);
    assert Forget(signer, History(map[], []), first) == History(map[jti := exp], [true]);
    assert Remember(signer, History(map[], []), first) == History(map[jti := exp], [true]);
  }

  lemma TwoCalls(signer: Signer, first: Call, again: Call)
    ensures Forgetful(signer, [first, again]) == Forget(signer, Forget(signer, History(map[], []), first), again)
    ensures Remembering(signer, [first, again]) == Remember(signer, Remember(signer, History(map[], []), first), again)
  {
    hide Forget, Remember;
    var calls := [first, again];
    assert calls[..|calls| - 1] == [first] && [first][..0] == [];
    assert Forgetful(signer, [first]) == Forget(signer, Forgetful(signer, [first][..0]), first);
    assert Remembering(signer, [first]) == Remember(signer, Remembering(signer, [first][..0]), first);
  }
}
