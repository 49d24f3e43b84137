/** From the encryption environment variables to a key map and an active key id. */
module EncryptionConfig {
  import opened Common
  import Envelope

  type KeyId = Envelope.KeyId

  class Config {
    var encryptionKey: string
    var encryptionKeysRaw: string
    var activeKeyIdRaw: string
    var encryptionKeys: map<KeyId, string>
    var activeKeyId: KeyId

    constructor (encryptionKey: string, encryptionKeysRaw: string, activeKeyIdRaw: string)
      ensures this.encryptionKey == encryptionKey
      ensures this.encryptionKeysRaw == encryptionKeysRaw
      ensures this.activeKeyIdRaw == activeKeyIdRaw
    {
      this.encryptionKey := encryptionKey;
      this.encryptionKeysRaw := encryptionKeysRaw;
      this.activeKeyIdRaw := activeKeyIdRaw;
      this.encryptionKeys := map[];
      this.activeKeyId := 0;
    }

    /** Accepts exactly the two unambiguous shapes; a rejection changes nothing. */
    method ResolveEncryptionConfig(decode: string -> Option<Bytes>) returns (ok: bool)
      modifies this`encryptionKeys, this`activeKeyId
      ensures ok <==> Configured(decode, encryptionKey, encryptionKeysRaw, activeKeyIdRaw).Some?
      ensures ok ==> Configured(decode, encryptionKey, encryptionKeysRaw, activeKeyIdRaw)
                     == Some((encryptionKeys, activeKeyId))
      ensures !ok ==> unchanged(this)
    {
      hide KeysOf, ParseEntries, ParseActiveKeyId, Envelope.ValidKey;
      var hasLegacy := encryptionKey != "";
      var hasMulti := encryptionKeysRaw != "";
      if hasLegacy && hasMulti {
        return false;
      }
      if !hasLegacy && !hasMulti {
        return false;
      }
      if hasLegacy {
        if !Envelope.ValidKey(decode, encryptionKey) {
          return false;
        }
        encryptionKeys := map[1 := encryptionKey];
        activeKeyId := 1;
        return true;
      }
      var keys := ParseEncryptionKeysCSV(decode, encryptionKeysRaw);
      if keys.None? {
        return false;
      }
      var active := ParseActiveKeyId(activeKeyIdRaw);
      if active.None? || active.value !in keys.value {
        return false;
      }
      encryptionKeys := keys.value;
      activeKeyId := active.value;
      return true;
    }
  }

  // ------------------------------------------------------------- number parsing

  /** An unsigned decimal that fits 32 bits: digits only, no sign and no separator. */
  function ParseUint32(s: string): (r: Option<KeyId>)
    ensures r.Some? <==> s != "" && AllDigits(s) && DigitsValue(s) < 0x1_0000_0000
    ensures r.Some? ==> r.value == DigitsValue(s)
  {
    if s == "" || !AllDigits(s) then None
    else if DigitsValue(s) < 0x1_0000_0000 then Some(DigitsValue(s))
    else None
  }

  function ParseActiveKeyId(raw: string): Option<KeyId> {
    var s := TrimSpace(raw);
    if s == "" then None else ParseUint32(s)
  }

  // ----------------------------------------------------------------- CSV parsing

  /** The first position of c, or the length when it does not occur. */
  function IndexOf(s: string, c: char): (i: nat)
    ensures i <= |s| && c !in s[..i] && (i < |s| ==> s[i] == c)
  {
    if s == "" || s[0] == c then 0 else 1 + IndexOf(s[1..], c)
  }

  type Entry = (KeyId, string)

  /** One "id:key" entry, or None for every malformed shape. */
  function ParseEntry(decode: string -> Option<Bytes>, raw: string): (r: Option<Entry>)
    ensures r.Some? ==> Envelope.ValidKey(decode, r.value.1)
  {
    var entry := TrimSpace(raw);
    var colon := IndexOf(entry, ':');
    if colon == 0 || colon >= |entry| - 1 then None
    else
      var id := ParseUint32(TrimSpace(entry[..colon]));
      var key := TrimSpace(entry[colon + 1..]);
      if id.None? || !Envelope.ValidKey(decode, key) then None else Some((id.value, key))
  }

  /** The entry is an id, a colon and a key, each with white space around it at will. */
  predicate SpellsEntry(decode: string -> Option<Bytes>, entry: string, left: string, right: string, id: KeyId, key: string) {
    && entry == left + ":" + right && left != "" && right != "" && ':' !in left
    && TrimSpace(left) != "" && AllDigits(TrimSpace(left)) && DigitsValue(TrimSpace(left)) == id
    && TrimSpace(right) == key && decode(key).Some? && |decode(key).value| == 32
  }

  /** An entry parses exactly when it has that shape, and to what it spells. */
  lemma EntryExactly(decode: string -> Option<Bytes>, raw: string, id: KeyId, key: string)
    ensures ParseEntry(decode, raw) == Some((id, key)) <==>
              exists left: string, right: string :: SpellsEntry(decode, TrimSpace(raw), left, right, id, key)
  {
    hide TrimSpace;
    var entry := TrimSpace(raw);
    var colon := IndexOf(entry, ':');
    if ParseEntry(decode, raw) == Some((id, key)) {
      assert entry == entry[..colon] + ":" + entry[colon + 1..];
      assert SpellsEntry(decode, entry, entry[..colon], entry[colon + 1..], id, key);
    }
    if left: string, right: string :| SpellsEntry(decode, entry, left, right, id, key) {
      FirstIndex(left, right, ':');
      assert entry[..|left|] == left && entry[|left| + 1..] == right;
    }
  }

  lemma {:induction false} FirstIndex(left: string, right: string, c: char)
    requires c !in left
    ensures IndexOf(left + [c] + right, c) == |left|
  {
    var s := left + [c] + right;
    if left != "" {
      FirstIndex(left[1..], right, c);
      assert s[0] == left[0] && s[1..] == left[1..] + [c] + right;
    }
  }

  /** The entries of the list, each parsed on its own. */
  function ParseEntries(decode: string -> Option<Bytes>, s: string): (parsed: seq<Option<Entry>>)
    ensures forall i :: 0 <= i < |parsed| && parsed[i].Some? ==> Envelope.ValidKey(decode, parsed[i].value.1)
  {
    var entries := Split(s, ',');
    seq(|entries|, i requires 0 <= i < |entries| => ParseEntry(decode, entries[i]))
  }

  /** The map that a list of parsed entries describes: none when an entry is malformed
      or an id comes twice. */
  function KeysOf(parsed: seq<Option<Entry>>): Option<map<KeyId, string>> {
    if parsed == [] then Some(map[])
    else
      var last := parsed[|parsed| - 1];
      match KeysOf(parsed[..|parsed| - 1])
      case None => None
      case Some(keys) =>
        if last.None? || last.value.0 in keys then None else Some(keys[last.value.0 := last.value.1])
  }

  method ParseEncryptionKeysCSV(decode: string -> Option<Bytes>, s: string) returns (r: Option<map<KeyId, string>>)
    ensures r == KeysOf(ParseEntries(decode, s))
  {
    hide ParseEntry, Split;
    var entries := Split(s, ',');
    ghost var parsed := ParseEntries(decode, s);
    var out: map<KeyId, string> := map[];
    for i := 0 to |entries|
      invariant KeysOf(parsed[..i]) == Some(out)
    {
      assert parsed[..i + 1][..i] == parsed[..i];
      var entry := ParseEntry(decode, entries[i]);
      if entry.None? || entry.value.0 in out {
        KeysOfPrefix(parsed, i + 1);
        return None;
      }
      out := out[entry.value.0 := entry.value.1];
    }
    assert parsed[..|entries|] == parsed;
    return Some(out);
  }

  lemma {:induction false} KeysOfPrefix(parsed: seq<Option<Entry>>, n: nat)
    requires n <= |parsed| && KeysOf(parsed[..n]) == None
    ensures KeysOf(parsed) == None
    decreases |parsed| - n
  {
    if n < |parsed| {
      assert parsed[..n + 1][..n] == parsed[..n];
      KeysOfPrefix(parsed, n + 1);
    } else {
      assert parsed[..n] == parsed;
    }
  }

  ghost predicate DistinctIds(parsed: seq<Option<Entry>>) {
    && (forall i :: 0 <= i < |parsed| ==> parsed[i].Some?)
    && (forall i, j :: 0 <= i < j < |parsed| ==> parsed[i].value.0 != parsed[j].value.0)
  }

  /** The parser succeeds exactly on lists of well-formed entries with distinct ids, and
      then the map is what the entries say, no more and no less. */
  lemma {:induction false} KeysOfDescribes(parsed: seq<Option<Entry>>)
    ensures KeysOf(parsed).Some? <==> DistinctIds(parsed)
    ensures KeysOf(parsed).Some? ==>
      forall id, key :: id in KeysOf(parsed).value && KeysOf(parsed).value[id] == key <==> Some((id, key)) in parsed
    ensures KeysOf(parsed).Some? ==> |KeysOf(parsed).value| == |parsed|
  {
    if parsed != [] {
      var n := |parsed| - 1;
      var front := parsed[..n];
      KeysOfDescribes(front);
      assert parsed == front + [parsed[n]];
      if KeysOf(front).Some? && parsed[n].Some? {
        var keys, id := KeysOf(front).value, parsed[n].value.0;
        if id in keys {
          assert Some((id, keys[id])) in front;
          var i :| 0 <= i < n && front[i] == Some((id, keys[id]));
          assert parsed[i].value.0 == parsed[n].value.0;
        } else {
          forall i | 0 <= i < n && parsed[i].Some?
            ensures parsed[i].value.0 != id
          {
            assert Some((parsed[i].value.0, parsed[i].value.1)) == front[i];
          }
        }
      }
    }
  }

  // ------------------------------------------------------------------ resolution

  /** What the three variables mean, if anything. */
  function Configured(decode: string -> Option<Bytes>, single: string, csv: string, activeRaw: string)
    : Option<(map<KeyId, string>, KeyId)>
  {
    if (single != "") == (csv != "") then None
    else if single != "" then
      if Envelope.ValidKey(decode, single) then Some((map[1 := single], 1)) else None
    else
      match (KeysOf(ParseEntries(decode, csv)), ParseActiveKeyId(activeRaw))
      case (Some(keys), Some(active)) => if active in keys then Some((keys, active)) else None
      case _ => None
  }

  /** What resolves: either the single key alone, a base64 text of 32 bytes, as key 1; or
      the list alone, of well-formed entries with distinct ids, with the id of one of them
      as the active one. */
  lemma ResolvesExactly(decode: string -> Option<Bytes>, single: string, csv: string, activeRaw: string)
    ensures
      var r, parsed := Configured(decode, single, csv, activeRaw), ParseEntries(decode, csv);
      var active := TrimSpace(activeRaw);
      && (single != "" && csv != "" ==> r == None)
      && (single == "" && csv == "" ==> r == None)
      && (single != "" && csv == "" ==>
           r == if decode(single).Some? && |decode(single).value| == 32 then Some((map[1 := single], 1)) else None)
      && (single == "" && csv != "" ==>
           && (r.Some? <==>
                && DistinctIds(parsed) && active != "" && AllDigits(active)
                && exists i :: 0 <= i < |parsed| && parsed[i].value.0 == DigitsValue(active))
           && (r.Some? ==>
                && r.value.1 == DigitsValue(active)
                && forall id, key :: id in r.value.0 && r.value.0[id] == key <==> Some((id, key)) in parsed))
  {
    var parsed := ParseEntries(decode, csv);
    KeysOfDescribes(parsed);
    hide ParseEntries, KeysOf, TrimSpace;
    if DistinctIds(parsed) {
      var keys := KeysOf(parsed).value;
      forall i | 0 <= i < |parsed|
        ensures parsed[i].value.0 in keys
      {
        assert Some((parsed[i].value.0, parsed[i].value.1)) in parsed;
      }
      forall id | id in keys
        ensures exists i :: 0 <= i < |parsed| && parsed[i].value.0 == id
      {
        assert Some((id, keys[id])) in parsed;
      }
    }
  }

  /** A key and its id as an operator writes them. */
  function EntryText(e: Entry): string { Decimal(e.0) + ":" + e.1 }

  /** Key texts that survive in a list: no comma, and no white space at either end. */
  predicate Plain(key: string) { key != "" && ',' !in key && !IsSpace(key[0]) && !IsSpace(key[|key| - 1]) }

  lemma DigitsArePlain(s: string)
    requires s != "" && AllDigits(s)
    ensures ':' !in s && ',' !in s && !IsSpace(s[0]) && TrimSpace(s) == s
  {
    hide TrimSpace;
    assert IsDigit(s[0]) && IsDigit(s[|s| - 1]);
    assert forall i :: 0 <= i < |s| ==> IsDigit(s[i]);
  }

  /** An entry of this shape has nothing to trim and no comma. */
  lemma EntryIsPlain(left: string, key: string)
    requires left != "" && !IsSpace(left[0]) && ',' !in left && Plain(key)
    ensures
      var entry := left + ":" + key;
      TrimSpace(entry) == entry && TrimSpace(key) == key && ',' !in entry
  {
    var entry := left + ":" + key;
    assert entry[0] == left[0] && entry[|entry| - 1] == key[|key| - 1];
    hide TrimSpace, IsSpace;
  }

  lemma EntryReadsBack(decode: string -> Option<Bytes>, e: Entry)
    requires Plain(e.1) && Envelope.ValidKey(decode, e.1)
    ensures ParseEntry(decode, EntryText(e)) == Some(e) && ',' !in EntryText(e)
  {
    var left := Decimal(e.0);
    DecimalReadsBack(e.0);
    DigitsArePlain(left);
    EntryIsPlain(left, e.1);
    hide TrimSpace, Decimal, ParseEntry, IsSpace, IsDigit, DigitsValue;
    EntryExactly(decode, EntryText(e), e.0, e.1);
    assert SpellsEntry(decode, TrimSpace(EntryText(e)), left, e.1, e.0, e.1);
  }

  function ListText(entries: seq<Entry>): string
    requires entries != []
  {
    Join(Map(EntryText, entries), ',')
  }

  lemma TextsReadBack(decode: string -> Option<Bytes>, entries: seq<Entry>)
    requires entries != [] && forall i :: 0 <= i < |entries| ==> Plain(entries[i].1) && Envelope.ValidKey(decode, entries[i].1)
    ensures |ParseEntries(decode, ListText(entries))| == |entries|
    ensures forall i :: 0 <= i < |entries| ==> ParseEntries(decode, ListText(entries))[i] == Some(entries[i])
  {
    hide ParseEntry, Split, Join, EntryText, Plain, Envelope.ValidKey;
    var texts := Map(EntryText, entries);
    forall i | 0 <= i < |entries|
      ensures ParseEntry(decode, texts[i]) == Some(entries[i]) && ',' !in texts[i]
    {
      EntryReadsBack(decode, entries[i]);
    }
    SplitUndoesJoin(texts, ',');
  }

  lemma ListIsText(entries: seq<Entry>)
    requires entries != []
    ensures ListText(entries) != ""
  {
    var texts := Map(EntryText, entries);
    assert texts[0] == EntryText(entries[0]);
    assert texts[0][|Decimal(entries[0].0)|] == ':';
    hide Decimal, EntryText, Map;
  }

  /** A list written down resolves to exactly the keys that were written, with the active
      one that was named. */
  lemma ListReadsBack(decode: string -> Option<Bytes>, entries: seq<Entry>, active: KeyId)
    requires entries != [] && forall i :: 0 <= i < |entries| ==> Plain(entries[i].1) && Envelope.ValidKey(decode, entries[i].1)
    requires forall i, j :: 0 <= i < j < |entries| ==> entries[i].0 != entries[j].0
    requires exists i :: 0 <= i < |entries| && entries[i].0 == active
    ensures
      var r := Configured(decode, "", ListText(entries), Decimal(active));
      && r.Some? && r.value.1 == active
      && forall id, key :: id in r.value.0 && r.value.0[id] == key <==> (id, key) in entries
  {
    hide ListText, ParseEntries, TrimSpace, Decimal, Configured, Plain, Envelope.ValidKey, IsSpace, IsDigit;
    TextsReadBack(decode, entries);
    ListIsText(entries);
    DecimalReadsBack(active);
    DigitsArePlain(Decimal(active));
    ListResolves(decode, ListText(entries), Decimal(active), entries, active);
  }

  lemma ListResolves(decode: string -> Option<Bytes>, csv: string, activeRaw: string, entries: seq<Entry>, active: KeyId)
    requires csv != "" && TrimSpace(activeRaw) != "" && AllDigits(TrimSpace(activeRaw)) && DigitsValue(TrimSpace(activeRaw)) == active
    requires |ParseEntries(decode, csv)| == |entries| && forall i :: 0 <= i < |entries| ==> ParseEntries(decode, csv)[i] == Some(entries[i])
    requires forall i, j :: 0 <= i < j < |entries| ==> entries[i].0 != entries[j].0
    requires exists i :: 0 <= i < |entries| && entries[i].0 == active
    ensures
      var r := Configured(decode, "", csv, activeRaw);
      && r.Some? && r.value.1 == active
      && forall id, key :: id in r.value.0 && r.value.0[id] == key <==> (id, key) in entries
  {
    var parsed := ParseEntries(decode, csv);
    ResolvesExactly(decode, "", csv, activeRaw);
    hide Configured, ParseEntries, TrimSpace;
    var i :| 0 <= i < |entries| && entries[i].0 == active;
    assert parsed[i].value.0 == active;
    forall e: Entry
      ensures Some(e) in parsed <==> e in entries
    {
      if e in entries {
        var k :| 0 <= k < |entries| && entries[k] == e;
        assert parsed[k] == Some(e);
      }
    }
  }

  /** Every configuration that resolves is one the encryptor accepts, with the same
      active key. */
  lemma ConfiguredFeedsEncryptor(decode: string -> Option<Bytes>, single: string, csv: string, activeRaw: string)
    requires Configured(decode, single, csv, activeRaw).Some?
    ensures
      var (keys, active) := Configured(decode, single, csv, activeRaw).value;
      active in keys && Envelope.AllValid(decode, keys)
  {
    if single == "" {
      var parsed := ParseEntries(decode, csv);
      KeysOfDescribes(parsed);
      var keys := KeysOf(parsed).value;
      forall id | id in keys
        ensures Envelope.ValidKey(decode, keys[id])
      {
        assert Some((id, keys[id])) in parsed;
      }
    }
  }

  /** The two components wired together: start-up never fails in the encryptor once the
      configuration has been accepted. */
  method StartEncryptor(config: Config, aead: Envelope.Aead, decode: string -> Option<Bytes>)
    returns (r: Result<Envelope.Encryptor, string>)
    modifies config`encryptionKeys, config`activeKeyId
    ensures r.Ok? <==>
      Configured(decode, config.encryptionKey, config.encryptionKeysRaw, config.activeKeyIdRaw).Some?
    ensures r.Ok? ==> r.value.active == config.activeKeyId && r.value.ring.keys.Keys == config.encryptionKeys.Keys
  {
    var ok := config.ResolveEncryptionConfig(decode);
    if !ok {
      return Err("configuration rejected");
    }
    ConfiguredFeedsEncryptor(decode, config.encryptionKey, config.encryptionKeysRaw, config.activeKeyIdRaw);
    r := Envelope.NewEncryptor(aead, decode, config.activeKeyId, config.encryptionKeys);
  }

  // --------------------------------------------------------------- diagnostic order

  ghost predicate StrictlyAscending(a: seq<KeyId>) {
    forall i, j :: 0 <= i < j < |a| ==> a[i] < a[j]
  }

  /** The ids of the map, each once, in ascending order. */
  method SortedKeyIDs(m: map<KeyId, string>) returns (out: array<KeyId>)
    ensures fresh(out)
    ensures StrictlyAscending(out[..])
    ensures forall id :: id in out[..] <==> id in m
  {
    var ids := CollectKeys(m);
    out := new KeyId[|ids|](k requires 0 <= k < |ids| => ids[k]);
    assert out[..] == ids;
    hide ListsKeys, SortedBut, StrictlyAscending;
    OneIsSorted(out[..]);
    if out.Length == 0 {
      SortedKeys(out[..], m);
      return;
    }
    for i := 1 to out.Length
      invariant ListsKeys(out[..], m) && SortedBut(out[..], i, i)
    {
      var j := i;
      NextToPlace(out[..], i);
      while j > 0 && out[j - 1] > out[j]
        invariant 0 <= j <= i
        invariant ListsKeys(out[..], m) && SortedBut(out[..], i + 1, j)
      {
        SwapKeepsKeys(out[..], j - 1, j, m);
        SwapSorts(out[..], i + 1, j);
        ghost var was := out[..];
        out[j - 1], out[j] := out[j], out[j - 1];
        assert out[..] == was[j - 1 := was[j]][j := was[j - 1]];
        j := j - 1;
      }
      InPlace(out[..], i + 1, j);
    }
    SortedKeys(out[..], m);
  }

  lemma SortedKeys(a: seq<KeyId>, m: map<KeyId, string>)
    requires ListsKeys(a, m) && SortedBut(a, |a|, |a|)
    ensures StrictlyAscending(a) && forall id :: id in a <==> id in m
  {}

  /** The first n ids ascend, but for the one at j, which may be too small for its place. */
  ghost predicate SortedBut(a: seq<KeyId>, n: nat, j: nat) {
    forall x, y :: 0 <= x < y < n && y < |a| && y != j ==> a[x] <= a[y]
  }

  lemma OneIsSorted(a: seq<KeyId>)
    ensures SortedBut(a, 1, 1) && (a == [] ==> SortedBut(a, 0, 0))
  {}

  lemma NextToPlace(a: seq<KeyId>, i: nat)
    requires SortedBut(a, i, i)
    ensures SortedBut(a, i + 1, i)
  {}

  lemma SwapSorts(a: seq<KeyId>, n: nat, j: nat)
    requires 0 < j < n <= |a| && SortedBut(a, n, j) && a[j - 1] > a[j]
    ensures SortedBut(a[j - 1 := a[j]][j := a[j - 1]], n, j - 1)
  {}

  lemma InPlace(a: seq<KeyId>, n: nat, j: nat)
    requires j < n <= |a| && SortedBut(a, n, j) && (j == 0 || a[j - 1] <= a[j])
    ensures SortedBut(a, n, n)
  {
    forall x | 0 <= x < j
      ensures a[x] <= a[j]
    {
      assert x < j - 1 ==> a[x] <= a[j - 1];
    }
  }

  /** The list holds each id of the map once and nothing else. */
  ghost predicate ListsKeys(a: seq<KeyId>, m: map<KeyId, string>) {
    Distinct(a) && forall id :: id in a <==> id in m
  }

  lemma SwapKeepsKeys(a: seq<KeyId>, i: nat, j: nat, m: map<KeyId, string>)
    requires i < j < |a| && ListsKeys(a, m)
    ensures ListsKeys(a[i := a[j]][j := a[i]], m)
  {
    var b := a[i := a[j]][j := a[i]];
    forall id | id in a
      ensures id in b
    {
      var k :| 0 <= k < |a| && a[k] == id;
      assert b[if k == i then j else if k == j then i else k] == id;
    }
  }

  /** The ids of a map in some order, each once. */
  method CollectKeys(m: map<KeyId, string>) returns (ids: seq<KeyId>)
    ensures ListsKeys(ids, m)
  {
    ids := [];
    var todo := m.Keys;
    while todo != {}
      invariant todo <= m.Keys
      invariant Distinct(ids)
      invariant forall id :: id in ids <==> id in m && id !in todo
      decreases todo
    {
      var id :| id in todo;
      todo := todo - {id};
      ids := ids + [id];
    }
  }
}
