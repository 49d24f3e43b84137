/** The encryption envelope: a versioned, self-describing format over several keys,
    with a fallback to the older format that carried no key id.

    The cipher itself (AES-GCM, section 7 of NIST SP 800-38D) is a pair of functions
    supplied from outside; only the laws named here are ever assumed of it. */
module Envelope {
  import opened Common

  const ENVELOPE_VERSION: Byte := 1
  const LEGACY_KEY_ID: KeyId := 1
  const NONCE_SIZE := 12
  const KEY_ID_SIZE := 4
  const HEADER_SIZE := 1 + KEY_ID_SIZE + NONCE_SIZE
  const TAG_SIZE := 16

  type KeyId = x: int | 0 <= x < 0x1_0000_0000

  datatype Aead = Aead(
    Seal: (Bytes, Bytes, Bytes) -> Bytes,
    Open: (Bytes, Bytes, Bytes) -> Option<Bytes>)
  {
    /** Opening what was sealed under the same key and nonce gives it back. */
    ghost predicate Sound() {
      forall key, nonce, text ::
        && Open(key, nonce, Seal(key, nonce, text)) == Some(text)
        && |Seal(key, nonce, text)| == |text| + TAG_SIZE
    }
  }

  /** What a process needs to read: the cipher and its key map. */
  datatype Keyring = Keyring(aead: Aead, keys: map<KeyId, Bytes>)

  /** What a process needs to write as well: the id of the key it writes with. */
  datatype Encryptor = Encryptor(ring: Keyring, active: KeyId) {
    predicate Valid() { active in ring.keys }
  }

  datatype DecryptError = CipherTooShort | KeyNotFound | OpenFailed

  // ------------------------------------------------------------ key id encoding

  function PutKeyId(id: KeyId): (b: Bytes)
    ensures |b| == KEY_ID_SIZE
  {
    var high: int := id / 256;
    var top: int := high / 256;
    [top / 256, top % 256, high % 256, id % 256]
  }

  function GetKeyId(b: Bytes): KeyId
    requires |b| == KEY_ID_SIZE
  {
    var top := b[0] as int * 256 + b[1];
    (top * 256 + b[2]) * 256 + b[3]
  }

  lemma KeyIdRoundTrip(id: KeyId, b: Bytes)
    requires |b| == KEY_ID_SIZE
    ensures GetKeyId(PutKeyId(id)) == id
    ensures PutKeyId(GetKeyId(b)) == b
  {
    assert PutKeyId(GetKeyId(b)) == [b[0], b[1], b[2], b[3]];
  }

  /** The most significant byte comes first. */
  lemma BigEndian(b: Bytes)
    requires |b| == 4
    ensures GetKeyId(b) == 0x1000000 * b[0] as int + 0x10000 * b[1] as int + 0x100 * b[2] as int + b[3] as int
  {}

  // -------------------------------------------------------------------- formats

  /** The current format: version, key id, nonce, sealed text. */
  function Envelope(id: KeyId, nonce: Bytes, sealed: Bytes): Bytes {
    [ENVELOPE_VERSION] + PutKeyId(id) + nonce + sealed
  }

  /** What a writer stores for a text under a given nonce. */
  function Encrypted(e: Encryptor, nonce: Bytes, text: Bytes): Bytes
    requires e.Valid()
  {
    Envelope(e.active, nonce, e.ring.aead.Seal(e.ring.keys[e.active], nonce, text))
  }

  /** The older format: nonce and sealed text, always under the legacy key. */
  function LegacyEncrypted(ring: Keyring, nonce: Bytes, text: Bytes): Bytes
    requires LEGACY_KEY_ID in ring.keys
  {
    nonce + ring.aead.Seal(ring.keys[LEGACY_KEY_ID], nonce, text)
  }

  predicate LooksVersioned(c: Bytes) {
    |c| >= HEADER_SIZE && c[0] == ENVELOPE_VERSION
  }

  function EmbeddedKeyId(c: Bytes): KeyId
    requires LooksVersioned(c)
  {
    GetKeyId(c[1..1 + KEY_ID_SIZE])
  }

  // ----------------------------------------------------------------- operations

  method NewEncryptor(aead: Aead, decode: string -> Option<Bytes>, active: KeyId, keys: map<KeyId, string>)
    returns (r: Result<Encryptor, string>)
    ensures r.Ok? <==> active in keys && AllValid(decode, keys)
    ensures r.Ok? ==>
      && r.value.Valid() && r.value.active == active && r.value.ring.aead == aead
      && r.value.ring.keys.Keys == keys.Keys
      && Loaded(decode, keys, r.value.ring.keys)
  {
    if |keys| == 0 {
      return Err("keys map is empty");
    }
    if active !in keys {
      return Err("active key missing");
    }
    var raw: map<KeyId, Bytes> := map[];
    var todo := keys.Keys;
    while todo != {}
      invariant todo <= keys.Keys && raw.Keys == keys.Keys - todo
      invariant Loaded(decode, keys, raw)
      decreases todo
    {
      var id :| id in todo;
      todo := todo - {id};
      var key := decode(keys[id]);
      if key.None? {
        return Err("not valid base64");
      }
      if |key.value| != 32 {
        return Err("must be 32 bytes");
      }
      raw := raw[id := key.value];
    }
    return Ok(Encryptor(Keyring(aead, raw), active));
  }

  ghost predicate AllValid(decode: string -> Option<Bytes>, keys: map<KeyId, string>) {
    forall id :: id in keys ==> ValidKey(decode, keys[id])
  }

  /** Every loaded key is the 32-byte decoding of its configured text. */
  ghost predicate Loaded(decode: string -> Option<Bytes>, keys: map<KeyId, string>, raw: map<KeyId, Bytes>) {
    forall id :: id in raw ==> id in keys && ValidKey(decode, keys[id]) && decode(keys[id]).value == raw[id]
  }

  predicate ValidKey(decode: string -> Option<Bytes>, text: string) {
    decode(text).Some? && |decode(text).value| == 32
  }

  /** random is what the entropy source answered: None when it failed. */
  method Encrypt(e: Encryptor, random: Option<Bytes>, text: Bytes) returns (r: Result<Bytes, string>)
    requires e.Valid()
    requires random.Some? ==> |random.value| == NONCE_SIZE
    ensures r.Ok? <==> random.Some?
    ensures r.Ok? ==> r.value == Encrypted(e, random.value, text)
  {
    if random.None? {
      return Err("generate nonce");
    }
    var nonce := random.value;
    var ct := e.ring.aead.Seal(e.ring.keys[e.active], nonce, text);
    var envelope: Bytes := [];
    envelope := envelope + [ENVELOPE_VERSION];
    envelope := envelope + PutKeyId(e.active);
    envelope := envelope + nonce;
    envelope := envelope + ct;
    return Ok(envelope);
  }

  function OpenVersioned(ring: Keyring, c: Bytes): Option<Bytes>
    requires LooksVersioned(c)
  {
    var id := EmbeddedKeyId(c);
    if id in ring.keys then
      ring.aead.Open(ring.keys[id], c[1 + KEY_ID_SIZE..HEADER_SIZE], c[HEADER_SIZE..])
    else None
  }

  function OpenLegacy(ring: Keyring, c: Bytes): Result<Bytes, DecryptError>
    requires |c| >= NONCE_SIZE
  {
    if LEGACY_KEY_ID !in ring.keys then Err(KeyNotFound)
    else match ring.aead.Open(ring.keys[LEGACY_KEY_ID], c[..NONCE_SIZE], c[NONCE_SIZE..])
      case Some(text) => Ok(text)
      case None => Err(OpenFailed)
  }

  function Decrypt(ring: Keyring, c: Bytes): Result<Bytes, DecryptError> {
    if |c| < NONCE_SIZE then Err(CipherTooShort)
    else if LooksVersioned(c) && OpenVersioned(ring, c).Some? then Ok(OpenVersioned(ring, c).value)
    else OpenLegacy(ring, c)
  }

  predicate NeedsRotation(active: KeyId, c: Bytes) {
    if |c| < HEADER_SIZE then true
    else if c[0] != ENVELOPE_VERSION then true
    else EmbeddedKeyId(c) != active
  }

  // ----------------------------------------------------------------- properties

  lemma EnvelopeShape(id: KeyId, nonce: Bytes, sealed: Bytes)
    requires |nonce| == NONCE_SIZE
    ensures LooksVersioned(Envelope(id, nonce, sealed))
    ensures EmbeddedKeyId(Envelope(id, nonce, sealed)) == id
    ensures Envelope(id, nonce, sealed)[1 + KEY_ID_SIZE..HEADER_SIZE] == nonce
    ensures Envelope(id, nonce, sealed)[HEADER_SIZE..] == sealed
    ensures Envelope(id, nonce, sealed)[0] == 1 && HEADER_SIZE == 17
    ensures
      var c := Envelope(id, nonce, sealed);
      0x1000000 * c[1] as int + 0x10000 * c[2] as int + 0x100 * c[3] as int + c[4] as int == id
  {
    var c := Envelope(id, nonce, sealed);
    assert c[1..1 + KEY_ID_SIZE] == PutKeyId(id);
    KeyIdRoundTrip(id, PutKeyId(id));
    BigEndian(c[1..5]);
    hide PutKeyId, GetKeyId;
  }

  /** Every reader that still holds the writing key gets the text back, whatever key
      it writes with itself and whatever other keys it has gained or lost. */
  lemma DecryptUndoesEncrypt(writer: Encryptor, reader: Keyring, nonce: Bytes, text: Bytes)
    requires writer.Valid() && writer.ring.aead.Sound() && |nonce| == NONCE_SIZE
    requires reader.aead == writer.ring.aead
    requires writer.active in reader.keys
    requires reader.keys[writer.active] == writer.ring.keys[writer.active]
    ensures Decrypt(reader, Encrypted(writer, nonce, text)) == Ok(text)
  {
    var sealed := writer.ring.aead.Seal(writer.ring.keys[writer.active], nonce, text);
    EnvelopeShape(writer.active, nonce, sealed);
  }

  /** A ciphertext of the older format is read back exactly when its bytes do not also
      open, as a current envelope, to some other text. */
  lemma LegacyDecrypts(ring: Keyring, nonce: Bytes, text: Bytes)
    requires ring.aead.Sound() && LEGACY_KEY_ID in ring.keys && |nonce| == NONCE_SIZE
    ensures
      var c := LegacyEncrypted(ring, nonce, text);
      Decrypt(ring, c) == Ok(text) <==>
      (LooksVersioned(c) ==> OpenVersioned(ring, c) in {None, Some(text)})
  {
    var c := LegacyEncrypted(ring, nonce, text);
    assert c[..NONCE_SIZE] == nonce;
    assert c[NONCE_SIZE..] == ring.aead.Seal(ring.keys[LEGACY_KEY_ID], nonce, text);
    assert OpenLegacy(ring, c) == Ok(text);
  }

  /** Only what some key holder sealed ever opens. */
  ghost predicate Unforgeable(aead: Aead, sealedLog: iset<(Bytes, Bytes, Bytes)>) {
    forall key, nonce, ct :: aead.Open(key, nonce, ct).Some? ==> (key, nonce, ct) in sealedLog
  }

  /** The nonce that happens to begin with the version byte: as long as nobody sealed
      the very bytes a misreading would try, the fallback recovers the text. */
  lemma LegacyCollisionRecovers(ring: Keyring, nonce: Bytes, text: Bytes, sealedLog: iset<(Bytes, Bytes, Bytes)>)
    requires ring.aead.Sound() && LEGACY_KEY_ID in ring.keys && |nonce| == NONCE_SIZE
    requires Unforgeable(ring.aead, sealedLog)
    requires
      var c := LegacyEncrypted(ring, nonce, text);
      LooksVersioned(c) && EmbeddedKeyId(c) in ring.keys ==>
        (ring.keys[EmbeddedKeyId(c)], c[1 + KEY_ID_SIZE..HEADER_SIZE], c[HEADER_SIZE..]) !in sealedLog
    ensures Decrypt(ring, LegacyEncrypted(ring, nonce, text)) == Ok(text)
  {
    LegacyDecrypts(ring, nonce, text);
  }

  /** A ciphertext is current exactly when it is a full header naming the active key,
      followed by anything at all; so a fresh envelope never needs rotation. */
  lemma CurrentExactly(active: KeyId, c: Bytes)
    ensures !NeedsRotation(active, c) <==>
      exists nonce: Bytes, sealed: Bytes :: |nonce| == NONCE_SIZE && c == Envelope(active, nonce, sealed)
  {
    if !NeedsRotation(active, c) {
      var nonce, sealed := c[1 + KEY_ID_SIZE..HEADER_SIZE], c[HEADER_SIZE..];
      KeyIdRoundTrip(active, c[1..1 + KEY_ID_SIZE]);
      assert c == Envelope(active, nonce, sealed);
    }
    if nonce: Bytes, sealed: Bytes :| |nonce| == NONCE_SIZE && c == Envelope(active, nonce, sealed) {
      EnvelopeShape(active, nonce, sealed);
    }
  }

  lemma FreshIsCurrent(e: Encryptor, nonce: Bytes, text: Bytes)
    requires e.Valid() && |nonce| == NONCE_SIZE
    ensures !NeedsRotation(e.active, Encrypted(e, nonce, text))
  {
    EnvelopeShape(e.active, nonce, e.ring.aead.Seal(e.ring.keys[e.active], nonce, text));
  }

  /** Read as a current envelope, under the key that it names, these bytes open to the text. */
  ghost predicate OpensVersioned(ring: Keyring, c: Bytes, text: Bytes) {
    exists id: KeyId, nonce: Bytes, sealed: Bytes ::
      |nonce| == NONCE_SIZE && c == Envelope(id, nonce, sealed) && id in ring.keys
      && ring.aead.Open(ring.keys[id], nonce, sealed) == Some(text)
  }

  /** Read in the older format, under the legacy key, they open to the text. */
  ghost predicate OpensAsLegacy(ring: Keyring, c: Bytes, text: Bytes) {
    exists nonce: Bytes, sealed: Bytes ::
      |nonce| == NONCE_SIZE && c == nonce + sealed && 1 in ring.keys && ring.aead.Open(ring.keys[1], nonce, sealed) == Some(text)
  }

  lemma VersionedExactly(ring: Keyring, c: Bytes, text: Bytes)
    ensures OpensVersioned(ring, c, text) <==> LooksVersioned(c) && OpenVersioned(ring, c) == Some(text)
  {
    if LooksVersioned(c) && OpenVersioned(ring, c) == Some(text) {
      var id, nonce, sealed := EmbeddedKeyId(c), c[1 + KEY_ID_SIZE..HEADER_SIZE], c[HEADER_SIZE..];
      KeyIdRoundTrip(id, c[1..1 + KEY_ID_SIZE]);
      assert c == Envelope(id, nonce, sealed);
    }
    if id: KeyId, nonce: Bytes, sealed: Bytes :|
         |nonce| == NONCE_SIZE && c == Envelope(id, nonce, sealed) && id in ring.keys
         && ring.aead.Open(ring.keys[id], nonce, sealed) == Some(text) {
      EnvelopeShape(id, nonce, sealed);
    }
  }

  lemma LegacyExactly(ring: Keyring, c: Bytes, text: Bytes)
    ensures OpensAsLegacy(ring, c, text) <==> |c| >= NONCE_SIZE && OpenLegacy(ring, c) == Ok(text)
  {
    if |c| >= NONCE_SIZE && OpenLegacy(ring, c) == Ok(text) {
      assert c == c[..NONCE_SIZE] + c[NONCE_SIZE..];
    }
    if nonce: Bytes, sealed: Bytes :|
         |nonce| == NONCE_SIZE && c == nonce + sealed && 1 in ring.keys && ring.aead.Open(ring.keys[1], nonce, sealed) == Some(text) {
      assert c[..NONCE_SIZE] == nonce && c[NONCE_SIZE..] == sealed;
    }
  }

  /** Any bytes at all decrypt to what they open to as a current envelope, and only if they
      do not, to what they open to in the older format; otherwise they are too short, or
      there is no legacy key to try, or nothing opens. */
  lemma DecryptsExactly(ring: Keyring, c: Bytes, text: Bytes)
    ensures Decrypt(ring, c) == Ok(text) <==>
              OpensVersioned(ring, c, text) || (OpensAsLegacy(ring, c, text) && forall other :: !OpensVersioned(ring, c, other))
    ensures Decrypt(ring, c) == Err(CipherTooShort) <==> |c| < NONCE_SIZE
    ensures Decrypt(ring, c) == Err(KeyNotFound) <==>
              |c| >= NONCE_SIZE && 1 !in ring.keys && forall other :: !OpensVersioned(ring, c, other)
  {
    forall other
      ensures OpensVersioned(ring, c, other) <==> LooksVersioned(c) && OpenVersioned(ring, c) == Some(other)
    {
      VersionedExactly(ring, c, other);
    }
    LegacyExactly(ring, c, text);
    hide OpenVersioned, OpensVersioned, OpensAsLegacy;
    if LooksVersioned(c) && OpenVersioned(ring, c).Some? {
      assert OpensVersioned(ring, c, OpenVersioned(ring, c).value);
    }
  }
}
