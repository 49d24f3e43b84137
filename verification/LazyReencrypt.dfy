/** Reading a token and, on the way, re-encrypting a stale ciphertext by compare-and-swap,
    among any number of other readers and writers. */
module LazyReencrypt {
  import opened Common
  import opened Envelope
  import opened TokenMerge

  datatype Row = Row(id: nat, token: Token)

  function RowToken(row: Option<Row>): Option<Token> {
    if row.Some? then Some(row.value.token) else None
  }

  datatype OAuthToken = OAuthToken(accessToken: Bytes, tokenType: string, expiresAt: Option<int>, scopes: seq<string>)

  datatype GetError = GrantMissing | TokenExpired | Unreadable

  /** What a read that found this row returns at this instant. */
  function Read(ring: Keyring, stored: Option<Token>, now: int): Result<OAuthToken, GetError> {
    if stored.None? then Err(GrantMissing)
    else
      var token := stored.value;
      if token.KnownExpiry().Some? && now > token.KnownExpiry().value then Err(TokenExpired)
      else match Decrypt(ring, token.AccessCiphertext())
        case Err(_) => Err(Unreadable)
        case Ok(text) => Ok(OAuthToken(text, token.tokenType, token.KnownExpiry(), token.KnownScopes()))
  }

  /** The expiry column, or its older alias where it is empty, lies in the past. */
  predicate ExpiredAt(token: Token, now: int) {
    if token.accessExpiry.Some? then token.accessExpiry.value < now
    else token.expiry.Some? && token.expiry.value < now
  }

  /** A read refuses a missing row, then an expired one, then one that does not open, and
      nothing else; otherwise it returns the text with type, expiry and scopes, from the
      canonical columns where they are filled and from their older aliases where not. */
  lemma ReadExactly(ring: Keyring, stored: Option<Token>, now: int)
    ensures Read(ring, stored, now) == Err(GrantMissing) <==> stored.None?
    ensures Read(ring, stored, now) == Err(TokenExpired) <==> stored.Some? && ExpiredAt(stored.value, now)
    ensures stored.Some? ==>
      var row := stored.value;
      var text := Decrypt(ring, if row.encryptedAccess == [] then row.encryptedToken else row.encryptedAccess);
      && (Read(ring, stored, now).Ok? <==> !ExpiredAt(row, now) && text.Ok?)
      && (Read(ring, stored, now) == Err(Unreadable) <==> !ExpiredAt(row, now) && text.Err?)
      && (Read(ring, stored, now).Ok? ==>
           Read(ring, stored, now).value ==
             OAuthToken(text.value, row.tokenType, if row.accessExpiry.None? then row.expiry else row.accessExpiry,
                        if row.grantedScopes == [] then row.scopes else row.grantedScopes))
  {
    hide Decrypt;
  }

  // ------------------------------------------------------------------ the machine

  /** A reader that has decrypted a stale ciphertext and is about to swap it. */
  datatype Pending = Pending(id: nat, stale: Bytes, upgraded: Bytes)

  /** One stored row, the next row id, and the readers between their read and their write. */
  datatype State = State(row: Option<Row>, nextId: nat, readers: map<nat, Pending>)

  /** Every process may have its own active key; all of them share the key map. */
  datatype Event =
    | Reads(reader: nat, active: KeyId, now: int, nonce: Option<Nonce>)
    | Swaps(reader: nat)
    | Saves(token: Token)
    | Revokes

  predicate ValidEvent(ring: Keyring, ev: Event) { ev.Reads? ==> ev.active in ring.keys }

  predicate ByReader(ev: Event, reader: nat) {
    (ev.Reads? || ev.Swaps?) && ev.reader == reader
  }

  function WithCiphertext(token: Token, c: Bytes): Token {
    token.(encryptedAccess := c, encryptedToken := c)
  }

  predicate SwapHits(s: State, reader: nat) {
    && reader in s.readers && s.row.Some?
    && s.row.value.id == s.readers[reader].id
    && s.row.value.token.AccessCiphertext() == s.readers[reader].stale
  }

  function Step(ring: Keyring, s: State, ev: Event): State
    requires ValidEvent(ring, ev)
  {
    match ev
    case Reads(reader, active, now, nonce) =>
      var got := Read(ring, RowToken(s.row), now);
      if got.Err? || nonce.None? || !NeedsRotation(active, s.row.value.token.AccessCiphertext()) then
        s.(readers := s.readers - {reader})
      else
        var upgraded := Encrypted(Encryptor(ring, active), nonce.value, got.value.accessToken);
        s.(readers := s.readers[reader := Pending(s.row.value.id, s.row.value.token.AccessCiphertext(), upgraded)])
    case Swaps(reader) =>
      var swapped :=
        if SwapHits(s, reader) then
          Some(s.row.value.(token := WithCiphertext(s.row.value.token, s.readers[reader].upgraded)))
        else s.row;
      s.(row := swapped, readers := s.readers - {reader})
    case Saves(token) =>
      if s.row.Some? then s.(row := Some(s.row.value.(token := token)))
      else s.(row := Some(Row(s.nextId, token)), nextId := s.nextId + 1)
    case Revokes => s.(row := None)
  }

  ghost predicate ValidEvents(ring: Keyring, evs: seq<Event>) {
    forall i :: 0 <= i < |evs| ==> ValidEvent(ring, evs[i])
  }

  function Run(ring: Keyring, s: State, evs: seq<Event>): State
    requires forall i :: 0 <= i < |evs| ==> ValidEvent(ring, evs[i])
  {
    if evs == [] then s else Step(ring, Run(ring, s, evs[..|evs| - 1]), evs[|evs| - 1])
  }

  // ---------------------------------------------------------------- the read path

  class RowStore {
    var state: State

    /** Replaces the ciphertext only when it is still the one the caller saw. */
    method UpdateCiphertexts(id: nat, stale: Bytes, upgraded: Bytes) returns (ok: bool)
      modifies this
      ensures ok <==>
        && old(state).row.Some? && old(state).row.value.id == id
        && old(state).row.value.token.AccessCiphertext() == stale
      ensures state == if ok then
        old(state).(row := Some(Row(id, WithCiphertext(old(state).row.value.token, upgraded)))) else old(state)
    {
      ok := state.row.Some? && state.row.value.id == id && state.row.value.token.AccessCiphertext() == stale;
      if ok {
        state := state.(row := Some(Row(id, WithCiphertext(state.row.value.token, upgraded))));
      }
    }

    /** Whatever the others do in the meantime. */
    method Interference(ring: Keyring, meanwhile: seq<Event>)
      requires forall i :: 0 <= i < |meanwhile| ==> ValidEvent(ring, meanwhile[i])
      modifies this
      ensures state == Run(ring, old(state), meanwhile)
    {
      state := Run(ring, state, meanwhile);
    }

    /** The read returns what was stored when it looked, whatever becomes of the
        re-encryption; the row moves as the machine says, with the events of the others
        between this reader's read and its swap. */
    method Get(e: Encryptor, reader: nat, now: int, random: Option<Nonce>, meanwhile: seq<Event>)
      returns (r: Result<OAuthToken, GetError>)
      requires e.Valid() && ValidEvents(e.ring, meanwhile)
      requires forall ev :: ev in meanwhile ==> !ByReader(ev, reader)
      requires reader !in state.readers
      modifies this
      ensures r == Read(e.ring, RowToken(old(state).row), now)
      ensures state == Run(e.ring, old(state), [Reads(reader, e.active, now, random)] + meanwhile + [Swaps(reader)])
    {
      hide Encrypted, Decrypt, NeedsRotation;
      ghost var before := state;
      var found := state.row;
      r := Read(e.ring, RowToken(found), now);
      ghost var first, last := Reads(reader, e.active, now, random), Swaps(reader);
      RunWithReader(e.ring, before, Step(e.ring, before, first), reader, meanwhile);
      RunAround(e.ring, before, first, meanwhile, last);
      Interference(e.ring, meanwhile);
      if r.Ok? {
        var stale := found.value.token.AccessCiphertext();
        if NeedsRotation(e.active, stale) && random.Some? {
          var upgraded := Encrypted(e, random.value, r.value.accessToken);
          var _ := UpdateCiphertexts(found.value.id, stale, upgraded);
        }
      }
    }
  }

  /** A reader that has seen the row but not yet swapped is invisible to the others. */
  lemma {:induction false} RunWithReader(ring: Keyring, s: State, t: State, reader: nat, evs: seq<Event>)
    requires ValidEvents(ring, evs)
    requires reader !in s.readers && t == s.(readers := t.readers) && t.readers - {reader} == s.readers
    requires forall ev :: ev in evs ==> !ByReader(ev, reader)
    ensures
      var s', t' := Run(ring, s, evs), Run(ring, t, evs);
      && reader !in s'.readers && t' == s'.(readers := t'.readers) && t'.readers - {reader} == s'.readers
      && (reader in t.readers <==> reader in t'.readers)
      && (reader in t.readers ==> t'.readers[reader] == t.readers[reader])
  {
    hide Read, Encrypted, NeedsRotation;
    if evs != [] {
      var front, ev := evs[..|evs| - 1], evs[|evs| - 1];
      assert ev in evs;
      RunWithReader(ring, s, t, reader, front);
      StepWithReader(ring, Run(ring, s, front), Run(ring, t, front), reader, ev);
    }
  }

  lemma StepWithReader(ring: Keyring, s: State, t: State, reader: nat, ev: Event)
    requires ValidEvent(ring, ev)
    requires reader !in s.readers && t == s.(readers := t.readers) && t.readers - {reader} == s.readers
    requires !ByReader(ev, reader)
    ensures
      var s', t' := Step(ring, s, ev), Step(ring, t, ev);
      && reader !in s'.readers && t' == s'.(readers := t'.readers) && t'.readers - {reader} == s'.readers
      && (reader in t.readers <==> reader in t'.readers)
      && (reader in t.readers ==> t'.readers[reader] == t.readers[reader])
  {
    hide Read, Encrypted, NeedsRotation;
    if ev.Swaps? {
      assert ev.reader in s.readers <==> ev.reader in t.readers;
      assert ev.reader in s.readers ==> s.readers[ev.reader] == t.readers[ev.reader];
    }
  }

  lemma RunAround(ring: Keyring, s: State, first: Event, evs: seq<Event>, last: Event)
    requires ValidEvent(ring, first) && ValidEvents(ring, evs) && ValidEvent(ring, last)
    ensures Run(ring, s, [first] + evs + [last]) == Step(ring, Run(ring, Step(ring, s, first), evs), last)
  {
    var all := [first] + evs + [last];
    assert all[..|all| - 1] == [first] + evs;
    RunFrom(ring, s, first, evs);
  }

  lemma {:induction false} RunFrom(ring: Keyring, s: State, first: Event, evs: seq<Event>)
    requires ValidEvent(ring, first) && ValidEvents(ring, evs)
    ensures Run(ring, s, [first] + evs) == Run(ring, Step(ring, s, first), evs)
  {
    var all := [first] + evs;
    if evs == [] {
      assert all[..0] == [];
      assert Run(ring, s, all[..0]) == s;
    } else {
      RunFrom(ring, s, first, evs[..|evs| - 1]);
      assert all[..|all| - 1] == [first] + evs[..|evs| - 1];
    }
  }

  // ------------------------------------------------------- the text never changes

  /** The same row up to the bytes of its access ciphertext, with the same text inside. */
  ghost predicate SameText(ring: Keyring, a: Option<Token>, b: Option<Token>) {
    (a.None? && b.None?) ||
    (&& a.Some? && b.Some?
     && b.value == a.value.(encryptedAccess := b.value.encryptedAccess, encryptedToken := b.value.encryptedToken)
     && Decrypt(ring, b.value.AccessCiphertext()) == Decrypt(ring, a.value.AccessCiphertext()))
  }

  /** The token last written by a save, ignoring everything readers did. */
  function LastSaved(start: Option<Token>, evs: seq<Event>): Option<Token> {
    if evs == [] then start
    else
      match evs[|evs| - 1]
      case Saves(token) => Some(token)
      case Revokes => None
      case _ => LastSaved(start, evs[..|evs| - 1])
  }

  /** Every pending swap replaces a readable ciphertext by one with the same text. */
  ghost predicate HonestReaders(ring: Keyring, s: State) {
    forall r :: r in s.readers ==>
      && s.readers[r].upgraded != []
      && Decrypt(ring, s.readers[r].upgraded).Ok?
      && Decrypt(ring, s.readers[r].upgraded) == Decrypt(ring, s.readers[r].stale)
  }

  /** In every interleaving of readers, whatever their active keys, with saves and
      revocations, the row is the last saved one up to re-encryption: no text changes
      and no older token comes back over a newer one. */
  lemma {:induction false} TextPreserved(ring: Keyring, s: State, evs: seq<Event>)
    requires ring.aead.Sound() && ValidEvents(ring, evs) && HonestReaders(ring, s)
    ensures HonestReaders(ring, Run(ring, s, evs))
    ensures SameText(ring, LastSaved(RowToken(s.row), evs), RowToken(Run(ring, s, evs).row))
  {
    if evs != [] {
      TextPreserved(ring, s, evs[..|evs| - 1]);
      StepPreservesText(ring, Run(ring, s, evs[..|evs| - 1]), evs[|evs| - 1]);
    }
  }

  lemma StepPreservesText(ring: Keyring, s: State, ev: Event)
    requires ring.aead.Sound() && ValidEvent(ring, ev) && HonestReaders(ring, s)
    ensures HonestReaders(ring, Step(ring, s, ev))
    ensures ev.Reads? || ev.Swaps? ==> SameText(ring, RowToken(s.row), RowToken(Step(ring, s, ev).row))
  {
    if ev.Reads? && Read(ring, RowToken(s.row), ev.now).Ok? && ev.nonce.Some? {
      DecryptUndoesEncrypt(Encryptor(ring, ev.active), ring, ev.nonce.value, Read(ring, RowToken(s.row), ev.now).value.accessToken);
      hide Encrypted, Decrypt, NeedsRotation;
    } else {
      hide Encrypted, Decrypt, NeedsRotation;
    }
  }

  // ------------------------------------------------------- one upgrade, then rest

  /** Every process reads and writes with one active key, whose ciphertexts are current. */
  ghost predicate AllUse(active: KeyId, evs: seq<Event>) {
    forall ev :: ev in evs ==>
      && (ev.Reads? ==> ev.active == active)
      && (ev.Saves? ==> !NeedsRotation(active, ev.token.AccessCiphertext()))
  }

  /** Pending swaps replace stale ciphertexts by current ones. */
  ghost predicate SwapsUpgrade(active: KeyId, s: State) {
    forall r :: r in s.readers ==>
      && s.readers[r].upgraded != []
      && NeedsRotation(active, s.readers[r].stale) && !NeedsRotation(active, s.readers[r].upgraded)
  }

  predicate StaleRow(active: KeyId, s: State) {
    s.row.Some? && NeedsRotation(active, s.row.value.token.AccessCiphertext())
  }

  /** How many swaps of the run hit. */
  function Upgrades(ring: Keyring, s: State, evs: seq<Event>): nat
    requires forall i :: 0 <= i < |evs| ==> ValidEvent(ring, evs[i])
  {
    if evs == [] then 0
    else
      var before, ev := Run(ring, s, evs[..|evs| - 1]), evs[|evs| - 1];
      Upgrades(ring, s, evs[..|evs| - 1]) + if ev.Swaps? && SwapHits(before, ev.reader) then 1 else 0
  }

  /** Once all processes share an active key, a stale ciphertext is upgraded at most once,
      a current one never, and after that it stays current. */
  lemma {:induction false} UpgradedAtMostOnce(ring: Keyring, active: KeyId, s: State, evs: seq<Event>)
    requires ring.aead.Sound() && ValidEvents(ring, evs) && AllUse(active, evs) && SwapsUpgrade(active, s)
    ensures SwapsUpgrade(active, Run(ring, s, evs))
    ensures Upgrades(ring, s, evs) + (if StaleRow(active, Run(ring, s, evs)) then 1 else 0)
            <= if StaleRow(active, s) then 1 else 0
  {
    if evs != [] {
      var front, ev := evs[..|evs| - 1], evs[|evs| - 1];
      assert ev in evs;
      UpgradedAtMostOnce(ring, active, s, front);
      StepUpgrades(ring, active, Run(ring, s, front), ev);
    }
  }

  lemma StepUpgrades(ring: Keyring, active: KeyId, s: State, ev: Event)
    requires ring.aead.Sound() && ValidEvent(ring, ev) && AllUse(active, [ev]) && SwapsUpgrade(active, s)
    ensures SwapsUpgrade(active, Step(ring, s, ev))
    ensures StaleRow(active, Step(ring, s, ev)) ==> StaleRow(active, s)
    ensures ev.Swaps? && SwapHits(s, ev.reader) ==> StaleRow(active, s) && !StaleRow(active, Step(ring, s, ev))
  {
    assert ev in [ev];
    if ev.Reads? && Read(ring, RowToken(s.row), ev.now).Ok? && ev.nonce.Some? {
      FreshIsCurrent(Encryptor(ring, active), ev.nonce.value, Read(ring, RowToken(s.row), ev.now).value.accessToken);
      hide Encrypted, Decrypt, NeedsRotation;
    } else {
      hide Encrypted, Decrypt, NeedsRotation;
    }
  }

  /** A current row keeps its very bytes until the next save or revocation. */
  lemma {:induction false} CurrentRowRests(ring: Keyring, active: KeyId, s: State, evs: seq<Event>)
    requires ring.aead.Sound() && ValidEvents(ring, evs) && AllUse(active, evs) && SwapsUpgrade(active, s)
    requires !StaleRow(active, s)
    requires forall ev :: ev in evs ==> ev.Reads? || ev.Swaps?
    ensures Run(ring, s, evs).row == s.row
  {
    if evs != [] {
      var front, ev := evs[..|evs| - 1], evs[|evs| - 1];
      assert ev in evs;
      CurrentRowRests(ring, active, s, front);
      UpgradedAtMostOnce(ring, active, s, front);
      hide Read, Encrypted, NeedsRotation;
    }
  }

  // -------------------------------------------------------------- stale rows do move

  /** The row that this reader is about to look at: present, not expired, readable. */
  ghost predicate Readable(ring: Keyring, s: State, now: int) {
    s.row.Some? && !ExpiredAt(s.row.value.token, now) && Decrypt(ring, s.row.value.token.AccessCiphertext()).Ok?
  }

  /** A read with the events of the others between its look and its swap. The row is
      re-encrypted under the reader's key exactly when the reader could read it, found its
      ciphertext stale and had entropy, and the same row still holds that ciphertext; in
      every other case the read changes nothing. */
  lemma UpgradedExactly(e: Encryptor, s: State, reader: nat, now: int, nonce: Option<Nonce>, meanwhile: seq<Event>)
    requires e.Valid() && ValidEvents(e.ring, meanwhile) && reader !in s.readers
    requires forall ev :: ev in meanwhile ==> !ByReader(ev, reader)
    ensures
      var others := Run(e.ring, s, meanwhile);
      var after := Run(e.ring, s, [Reads(reader, e.active, now, nonce)] + meanwhile + [Swaps(reader)]);
      if Readable(e.ring, s, now) && NeedsRotation(e.active, s.row.value.token.AccessCiphertext()) && nonce.Some?
         && others.row.Some? && others.row.value.id == s.row.value.id
         && others.row.value.token.AccessCiphertext() == s.row.value.token.AccessCiphertext()
      then
        var text := Decrypt(e.ring, s.row.value.token.AccessCiphertext()).value;
        var upgraded := Encrypted(e, nonce.value, text);
        after == others.(row := Some(others.row.value.(token :=
                   others.row.value.token.(encryptedAccess := upgraded, encryptedToken := upgraded))))
      else after == others
  {
    var first, last := Reads(reader, e.active, now, nonce), Swaps(reader);
    var t := Step(e.ring, s, first);
    ReadExactly(e.ring, RowToken(s.row), now);
    RunAround(e.ring, s, first, meanwhile, last);
    hide Encrypted, Decrypt, NeedsRotation, Read, ExpiredAt, Run;
    RunWithReader(e.ring, s, t, reader, meanwhile);
  }

  /** So one undisturbed read brings a stale row up to date, with the text it had. */
  lemma OneReadUpgrades(e: Encryptor, s: State, reader: nat, now: int, nonce: Nonce)
    requires e.Valid() && e.ring.aead.Sound() && reader !in s.readers && Readable(e.ring, s, now)
    ensures
      var after := Run(e.ring, s, [Reads(reader, e.active, now, Some(nonce)), Swaps(reader)]);
      !StaleRow(e.active, after) && SameText(e.ring, RowToken(s.row), RowToken(after.row))
  {
    var text := Decrypt(e.ring, s.row.value.token.AccessCiphertext()).value;
    UpgradedExactly(e, s, reader, now, Some(nonce), []);
    assert [Reads(reader, e.active, now, Some(nonce))] + [] + [Swaps(reader)] == [Reads(reader, e.active, now, Some(nonce)), Swaps(reader)];
    assert Run(e.ring, s, []) == s;
    FreshIsCurrent(e, nonce, text);
    DecryptUndoesEncrypt(e, e.ring, nonce, text);
    assert Encrypted(e, nonce, text) != [];
    hide Encrypted, Decrypt, NeedsRotation, ExpiredAt, Run;
  }
}
