/** The HMAC chain: which fields an event's hash covers, the chain hash, and the stored-hex comparison. */
module Chain {
  import opened Text
  import opened Json
  import opened JsonParser
  import opened Canonical
  import opened Records
  import opened Digests

  const DOMAIN_CHAIN: string := "mcpose/v2/chain"

  /** An audit event. Undefined stands for an absent field; the payloads are bound by their hashes only. */
  datatype AuditEvent = AuditEvent(
    id: Value,
    startedAt: Value,
    endedAt: Value,
    sessionId: Value,
    delegatedFrom: Value,
    proxy: Value,
    kind: Value,
    erasable: Value,
    identity: Value,
    tool: Value,
    durationMs: Value,
    outcome: Value,
    sensitivityTier: Value,
    rejectionReason: Value,
    error: Value,
    inputHash: Value,
    outputHash: Value,
    position: Value,
    chainHash: string,
    payloads: Value)

  const KEYS: seq<string> :=
    ["id", "startedAt", "endedAt", "sessionId", "delegatedFrom", "proxy", "kind", "erasable", "identity",
     "tool", "duration_ms", "outcome", "sensitivityTier", "rejectionReason", "error", "inputHash",
     "outputHash", "replayManifestPosition"]

  const FIELDS: nat := 18

  /** The values under KEYS, in the same order. */
  function Covered(e: AuditEvent): (vs: seq<Value>)
    ensures |vs| == FIELDS
  {
    [e.id, e.startedAt, e.endedAt, e.sessionId, e.delegatedFrom, e.proxy, e.kind, e.erasable, e.identity,
     e.tool, e.durationMs, e.outcome, e.sensitivityTier, e.rejectionReason, e.error, e.inputHash,
     e.outputHash, e.position]
  }

  /** The places of the keys an event may lack; every other key is always there, if only with undefined. */
  const OPTIONAL: set<nat> := {3, 4, 6, 7, 13, 14}

  function ChainPreimageFields(e: AuditEvent): Value {
    Record(KEYS, OPTIONAL, Covered(e))
  }

  const PREIMAGE_KEYS: seq<string> := ["domain", "prevChainHash", "event"]

  function PreimageParts(e: AuditEvent, prevChainHash: string): (vs: seq<Value>)
    ensures |vs| == |PREIMAGE_KEYS|
  {
    [Str(DOMAIN_CHAIN), Str(prevChainHash), ChainPreimageFields(e)]
  }

  function Preimage(e: AuditEvent, prevChainHash: string): Value {
    Record(PREIMAGE_KEYS, {}, PreimageParts(e, prevChainHash))
  }

  /** None is the TypeError canonicalJson throws on an event with a BigInt, function, symbol or cycle in it. */
  function ComputeChainHash(mac: Mac, key: string, e: AuditEvent, prevChainHash: string): Option<Digest> {
    match CanonicalText(Preimage(e, prevChainHash))
    case None => None
    case Some(text) => Some(mac(key, text))
  }

  ghost predicate SameField(a: AuditEvent, b: AuditEvent, i: nat)
    requires i < FIELDS
  {
    SameMember(Covered(a)[i], Covered(b)[i])
  }

  /** Every covered value agrees as a document, an absent field counting as undefined. */
  ghost predicate SameCovered(a: AuditEvent, b: AuditEvent) {
    forall i | 0 <= i < FIELDS :: SameField(a, b, i)
  }

  predicate FieldPrintable(e: AuditEvent, i: nat)
    requires i < FIELDS
  {
    Printable(Covered(e)[i])
  }

  predicate EventPrintable(e: AuditEvent) {
    forall i | 0 <= i < FIELDS :: FieldPrintable(e, i)
  }

  predicate FieldWellFormed(e: AuditEvent, i: nat)
    requires i < FIELDS
  {
    WellFormed(Covered(e)[i])
  }

  predicate EventWellFormed(e: AuditEvent) {
    forall i | 0 <= i < FIELDS :: FieldWellFormed(e, i)
  }

  // ---- What the preimage determines ----

  /** The place of each key in KEYS, read off its length and last character. */
  function KeyIndex(k: string): nat
    requires k != []
  {
    var n, c := |k|, k[|k| - 1];
    if n == 2 then 0
    else if n == 9 then if c == 't' then 1 else if c == 'd' then 3 else 15
    else if n == 7 then if c == 't' then 2 else 11
    else if n == 13 then 4
    else if n == 5 then if c == 'y' then 5 else 14
    else if n == 4 then if c == 'd' then 6 else 9
    else if n == 8 then if c == 'e' then 7 else 8
    else if n == 11 then 10
    else if n == 15 then if c == 'r' then 12 else 13
    else if n == 10 then 16
    else 17
  }

  lemma KeyPlace(i: nat)
    requires i < |KEYS|
    ensures KEYS[i] != [] && KeyIndex(KEYS[i]) == i
  {
  }

  lemma KeysDistinct()
    ensures Distinct(KEYS)
  {
    forall i, j | 0 <= i < j < |KEYS| ensures KEYS[i] != KEYS[j] {
      KeyPlace(i);
      KeyPlace(j);
    }
  }

  lemma PreimageKeysDistinct()
    ensures Distinct(PREIMAGE_KEYS)
  {
    assert |PREIMAGE_KEYS[0]| == 6 && |PREIMAGE_KEYS[1]| == 13 && |PREIMAGE_KEYS[2]| == 5;
  }

  lemma AllFields(e: AuditEvent)
    ensures EventPrintable(e) <==> AllPrintable(Covered(e))
    ensures EventWellFormed(e) <==> AllWellFormed(Covered(e))
  {
    assert forall i | 0 <= i < FIELDS :: FieldPrintable(e, i) <==> Printable(Covered(e)[i]);
    assert forall i | 0 <= i < FIELDS :: FieldWellFormed(e, i) <==> WellFormed(Covered(e)[i]);
  }

  /** An event has a chain hash exactly when each of its covered values has a canonical text. */
  lemma HashedIffPrintable(mac: Mac, key: string, e: AuditEvent, prev: string)
    ensures ComputeChainHash(mac, key, e, prev).Some? <==> EventPrintable(e)
  {
    var parts := PreimageParts(e, prev);
    RecordPrintable(PREIMAGE_KEYS, {}, parts);
    RecordPrintable(KEYS, OPTIONAL, Covered(e));
    AllFields(e);
    assert Printable(parts[0]) && Printable(parts[1]);
    assert AllPrintable(parts) <==> Printable(parts[2]);
  }

  lemma PreimageWellFormed(e: AuditEvent, prev: string)
    requires EventWellFormed(e)
    ensures WellFormed(Preimage(e, prev))
  {
    KeysDistinct();
    PreimageKeysDistinct();
    AllFields(e);
    RecordWellFormed(KEYS, OPTIONAL, Covered(e));
    RecordWellFormed(PREIMAGE_KEYS, {}, PreimageParts(e, prev));
  }

  lemma SameFields(a: AuditEvent, b: AuditEvent)
    ensures Same(ChainPreimageFields(a), ChainPreimageFields(b)) <==> SameCovered(a, b)
  {
    KeysDistinct();
    SameRecord(KEYS, OPTIONAL, Covered(a), Covered(b));
    assert SameCovered(a, b) ==> forall i | 0 <= i < FIELDS :: SameField(a, b, i);
    assert forall i | 0 <= i < FIELDS :: SameField(a, b, i) <==> SameMember(Covered(a)[i], Covered(b)[i]);
  }

  // ---- The same, field by field ----

  /** The eighteen covered fields, one by one, as documents; an absent field counts as undefined. */
  ghost predicate SameByName(a: AuditEvent, b: AuditEvent) {
    && SameMember(a.id, b.id) && SameMember(a.startedAt, b.startedAt) && SameMember(a.endedAt, b.endedAt)
    && SameMember(a.sessionId, b.sessionId) && SameMember(a.delegatedFrom, b.delegatedFrom)
    && SameMember(a.proxy, b.proxy) && SameMember(a.kind, b.kind) && SameMember(a.erasable, b.erasable)
    && SameMember(a.identity, b.identity) && SameMember(a.tool, b.tool) && SameMember(a.durationMs, b.durationMs)
    && SameMember(a.outcome, b.outcome) && SameMember(a.sensitivityTier, b.sensitivityTier)
    && SameMember(a.rejectionReason, b.rejectionReason) && SameMember(a.error, b.error)
    && SameMember(a.inputHash, b.inputHash) && SameMember(a.outputHash, b.outputHash)
    && SameMember(a.position, b.position)
  }

  /** The predicate holds of each of the eighteen covered fields. */
  predicate EveryField(e: AuditEvent, p: Value -> bool) {
    && p(e.id) && p(e.startedAt) && p(e.endedAt) && p(e.sessionId) && p(e.delegatedFrom) && p(e.proxy) && p(e.kind)
    && p(e.erasable) && p(e.identity) && p(e.tool) && p(e.durationMs) && p(e.outcome) && p(e.sensitivityTier)
    && p(e.rejectionReason) && p(e.error) && p(e.inputHash) && p(e.outputHash) && p(e.position)
  }

  ghost predicate EighteenSame(vs: seq<Value>, ws: seq<Value>)
    requires |vs| == FIELDS == |ws|
  {
    && SameMember(vs[0], ws[0]) && SameMember(vs[1], ws[1]) && SameMember(vs[2], ws[2]) && SameMember(vs[3], ws[3])
    && SameMember(vs[4], ws[4]) && SameMember(vs[5], ws[5]) && SameMember(vs[6], ws[6]) && SameMember(vs[7], ws[7])
    && SameMember(vs[8], ws[8]) && SameMember(vs[9], ws[9]) && SameMember(vs[10], ws[10])
    && SameMember(vs[11], ws[11]) && SameMember(vs[12], ws[12]) && SameMember(vs[13], ws[13])
    && SameMember(vs[14], ws[14]) && SameMember(vs[15], ws[15]) && SameMember(vs[16], ws[16])
    && SameMember(vs[17], ws[17])
  }

  lemma EachSame(vs: seq<Value>, ws: seq<Value>)
    requires |vs| == FIELDS == |ws|
    ensures (forall i | 0 <= i < FIELDS :: SameMember(vs[i], ws[i])) <==> EighteenSame(vs, ws)
  {
  }

  predicate EveryPlace(vs: seq<Value>, p: Value -> bool)
    requires |vs| == FIELDS
  {
    && p(vs[0]) && p(vs[1]) && p(vs[2]) && p(vs[3]) && p(vs[4]) && p(vs[5]) && p(vs[6]) && p(vs[7]) && p(vs[8])
    && p(vs[9]) && p(vs[10]) && p(vs[11]) && p(vs[12]) && p(vs[13]) && p(vs[14]) && p(vs[15]) && p(vs[16])
    && p(vs[17])
  }

  lemma EachPlace(vs: seq<Value>, p: Value -> bool)
    requires |vs| == FIELDS
    ensures EveryPlace(vs, p) <==> forall i | 0 <= i < FIELDS :: p(vs[i])
  {
  }

  lemma PlacesAreFields(e: AuditEvent, p: Value -> bool)
    ensures EveryField(e, p) <==> EveryPlace(Covered(e), p)
  {
    var vs := Covered(e);
    assert vs[..9] ==
      [e.id, e.startedAt, e.endedAt, e.sessionId, e.delegatedFrom, e.proxy, e.kind, e.erasable, e.identity];
    assert vs[9..] ==
      [e.tool, e.durationMs, e.outcome, e.sensitivityTier, e.rejectionReason, e.error, e.inputHash, e.outputHash,
       e.position];
  }

  lemma CoveredByName(a: AuditEvent, b: AuditEvent)
    ensures SameCovered(a, b) <==> SameByName(a, b)
  {
    EachSame(Covered(a), Covered(b));
    assert forall i | 0 <= i < FIELDS :: SameField(a, b, i) <==> SameMember(Covered(a)[i], Covered(b)[i]);
  }

  /** An event has a chain hash exactly when each of the eighteen fields has a canonical text. */
  lemma HashedIffFieldsPrintable(mac: Mac, key: string, e: AuditEvent, prev: string)
    ensures ComputeChainHash(mac, key, e, prev).Some? <==> EveryField(e, Printable)
  {
    HashedIffPrintable(mac, key, e, prev);
    PrintableFields(e);
  }

  /** Two events' covered fields are the same document exactly when the eighteen fields agree one by one. */
  lemma SameFieldsByName(a: AuditEvent, b: AuditEvent)
    ensures Same(ChainPreimageFields(a), ChainPreimageFields(b)) <==> SameByName(a, b)
  {
    SameFields(a, b);
    CoveredByName(a, b);
  }

  lemma PrintableFields(e: AuditEvent)
    ensures EventPrintable(e) <==> EveryField(e, Printable)
  {
    PlacesAreFields(e, Printable);
    EachPlace(Covered(e), Printable);
    assert forall i | 0 <= i < FIELDS :: FieldPrintable(e, i) <==> Printable(Covered(e)[i]);
  }

  lemma UnderPlace(e: AuditEvent, i: nat)
    requires i < FIELDS
    ensures |KEYS| == FIELDS && Under(ChainPreimageFields(e), KEYS[i], Covered(e)[i])
  {
    KeysDistinct();
    RecordAt(KEYS, OPTIONAL, Covered(e), 0, i);
  }

  /** What the chain covers, key by key: each field of the event under its own name. */
  predicate FieldsByName(v: Value, e: AuditEvent) {
    && Under(v, "id", e.id) && Under(v, "startedAt", e.startedAt) && Under(v, "endedAt", e.endedAt)
    && Under(v, "sessionId", e.sessionId) && Under(v, "delegatedFrom", e.delegatedFrom) && Under(v, "proxy", e.proxy)
    && Under(v, "kind", e.kind) && Under(v, "erasable", e.erasable) && Under(v, "identity", e.identity)
    && Under(v, "tool", e.tool) && Under(v, "duration_ms", e.durationMs) && Under(v, "outcome", e.outcome)
    && Under(v, "sensitivityTier", e.sensitivityTier) && Under(v, "rejectionReason", e.rejectionReason)
    && Under(v, "error", e.error) && Under(v, "inputHash", e.inputHash) && Under(v, "outputHash", e.outputHash)
    && Under(v, "replayManifestPosition", e.position)
  }

  lemma KeyTexts()
    ensures |KEYS| == FIELDS
    ensures KEYS[0] == "id"
    ensures KEYS[1] == "startedAt"
    ensures KEYS[2] == "endedAt"
    ensures KEYS[3] == "sessionId"
    ensures KEYS[4] == "delegatedFrom"
    ensures KEYS[5] == "proxy"
    ensures KEYS[6] == "kind"
    ensures KEYS[7] == "erasable"
    ensures KEYS[8] == "identity"
    ensures KEYS[9] == "tool"
    ensures KEYS[10] == "duration_ms"
    ensures KEYS[11] == "outcome"
    ensures KEYS[12] == "sensitivityTier"
    ensures KEYS[13] == "rejectionReason"
    ensures KEYS[14] == "error"
    ensures KEYS[15] == "inputHash"
    ensures KEYS[16] == "outputHash"
    ensures KEYS[17] == "replayManifestPosition"
  {
  }

  /** The chain covers each of the eighteen fields under its own key. */
  lemma FieldsUnderKeys(e: AuditEvent)
    ensures FieldsByName(ChainPreimageFields(e), e)
  {
    forall i | 0 <= i < FIELDS ensures |KEYS| == FIELDS && Under(ChainPreimageFields(e), KEYS[i], Covered(e)[i]) {
      UnderPlace(e, i);
    }
    KeyTexts();
  }

  /** And under no other key. */
  lemma NoOtherField(e: AuditEvent, k: string)
    requires Get(RecordFrom(KEYS, OPTIONAL, Covered(e), 0), k).Some?
    ensures k in ["id", "startedAt", "endedAt", "sessionId", "delegatedFrom", "proxy", "kind", "erasable", "identity",
                  "tool", "duration_ms", "outcome", "sensitivityTier", "rejectionReason", "error", "inputHash",
                  "outputHash", "replayManifestPosition"]
  {
    if k !in KEYS { AbsentKey(KEYS, OPTIONAL, Covered(e), k); }
  }

  lemma PreimageByName(e: AuditEvent, prev: string)
    ensures var v := Preimage(e, prev);
            && Under(v, "domain", Str("mcpose/v2/chain")) && Under(v, "prevChainHash", Str(prev))
            && Under(v, "event", ChainPreimageFields(e))
  {
    PreimageKeysDistinct();
    var vs := PreimageParts(e, prev);
    RecordAt(PREIMAGE_KEYS, {}, vs, 0, 0);
    RecordAt(PREIMAGE_KEYS, {}, vs, 0, 1);
    RecordAt(PREIMAGE_KEYS, {}, vs, 0, 2);
    assert PREIMAGE_KEYS[0] == "domain" && PREIMAGE_KEYS[1] == "prevChainHash" && PREIMAGE_KEYS[2] == "event";
  }

  predicate HoldsFields(ms: seq<Member>, e: AuditEvent) {
    && Holds(ms, "id", e.id) && Holds(ms, "startedAt", e.startedAt) && Holds(ms, "endedAt", e.endedAt)
    && Holds(ms, "sessionId", e.sessionId) && Holds(ms, "delegatedFrom", e.delegatedFrom)
    && Holds(ms, "proxy", e.proxy) && Holds(ms, "kind", e.kind) && Holds(ms, "erasable", e.erasable)
    && Holds(ms, "identity", e.identity) && Holds(ms, "tool", e.tool) && Holds(ms, "duration_ms", e.durationMs)
    && Holds(ms, "outcome", e.outcome) && Holds(ms, "sensitivityTier", e.sensitivityTier)
    && Holds(ms, "rejectionReason", e.rejectionReason) && Holds(ms, "error", e.error)
    && Holds(ms, "inputHash", e.inputHash) && Holds(ms, "outputHash", e.outputHash)
    && Holds(ms, "replayManifestPosition", e.position)
  }

  lemma FieldHeld(e: AuditEvent, i: nat)
    requires i < FIELDS
    ensures |KEYS| == FIELDS && Holds(NormalEntries(RecordFrom(KEYS, OPTIONAL, Covered(e), 0)), KEYS[i], Covered(e)[i])
  {
    KeysDistinct();
    RecordDistinct(KEYS, OPTIONAL, Covered(e), 0);
    RecordAt(KEYS, OPTIONAL, Covered(e), 0, i);
    NormalBinds(RecordFrom(KEYS, OPTIONAL, Covered(e), 0), KEYS[i]);
  }

  lemma FieldsHeld(e: AuditEvent)
    ensures HoldsFields(NormalEntries(RecordFrom(KEYS, OPTIONAL, Covered(e), 0)), e)
  {
    var ms := NormalEntries(RecordFrom(KEYS, OPTIONAL, Covered(e), 0));
    forall i | 0 <= i < FIELDS ensures |KEYS| == FIELDS && Holds(ms, KEYS[i], Covered(e)[i]) { FieldHeld(e, i); }
    KeyTexts();
  }

  lemma PreimageText(e: AuditEvent, prev: string) returns (ms: seq<Member>)
    requires CanonicalText(Preimage(e, prev)).Some?
    ensures Parse(CanonicalText(Preimage(e, prev)).value) == Some(JObj(ms))
    ensures Holds(ms, "domain", Str("mcpose/v2/chain")) && Holds(ms, "prevChainHash", Str(prev))
    ensures Holds(ms, "event", ChainPreimageFields(e))
  {
    PreimageKeysDistinct();
    var es := RecordFrom(PREIMAGE_KEYS, {}, PreimageParts(e, prev), 0);
    RecordDistinct(PREIMAGE_KEYS, {}, PreimageParts(e, prev), 0);
    PreimageByName(e, prev);
    ms := NormalEntries(es);
    TextBinds(es, "domain");
    TextBinds(es, "prevChainHash");
    TextBinds(es, "event");
    ParsePrint(Normal(Preimage(e, prev)));
  }

  /**
   The chain hash, from the bottom up: the HMAC of a text that reads back as a document with the domain,
   the previous hash, and under "event" each of the eighteen fields under its own key.
   */
  lemma HashedTextHolds(mac: Mac, key: string, e: AuditEvent, prev: string)
    returns (text: string, ms: seq<Member>, fs: seq<Member>)
    requires ComputeChainHash(mac, key, e, prev).Some?
    ensures ComputeChainHash(mac, key, e, prev) == Some(mac(key, text)) && Parse(text) == Some(JObj(ms))
    ensures Find(ms, "domain") == Some(JStr("mcpose/v2/chain")) && Find(ms, "prevChainHash") == Some(JStr(prev))
    ensures Find(ms, "event") == Some(JObj(fs)) && HoldsFields(fs, e)
  {
    text := CanonicalText(Preimage(e, prev)).value;
    ms := PreimageText(e, prev);
    fs := NormalEntries(RecordFrom(KEYS, OPTIONAL, Covered(e), 0));
    FieldsHeld(e);
  }

  lemma SameParts(p: string, q: string, f: Value, g: Value)
    requires f.Obj? && g.Obj?
    ensures Same(Record(PREIMAGE_KEYS, {}, [Str(DOMAIN_CHAIN), Str(p), f]),
                 Record(PREIMAGE_KEYS, {}, [Str(DOMAIN_CHAIN), Str(q), g]))
       <==> p == q && Same(f, g)
  {
    PreimageKeysDistinct();
    var vs, ws := [Str(DOMAIN_CHAIN), Str(p), f], [Str(DOMAIN_CHAIN), Str(q), g];
    SameRecord(PREIMAGE_KEYS, {}, vs, ws);
    assert SameMember(vs[0], ws[0]);
    assert SameMember(vs[1], ws[1]) <==> p == q;
    assert SameMember(vs[2], ws[2]) <==> Same(f, g);
  }

  /** Two preimages are the same document exactly when the previous hashes and all covered fields agree. */
  lemma SamePreimage(a: AuditEvent, p: string, b: AuditEvent, q: string)
    ensures Same(Preimage(a, p), Preimage(b, q)) <==> p == q && SameCovered(a, b)
  {
    SameFields(a, b);
    SameParts(p, q, ChainPreimageFields(a), ChainPreimageFields(b));
  }

  /** The same, with the eighteen fields written out. */
  lemma SamePreimageByName(a: AuditEvent, p: string, b: AuditEvent, q: string)
    ensures Same(Preimage(a, p), Preimage(b, q)) <==> p == q && SameByName(a, b)
  {
    SamePreimage(a, p, b, q);
    CoveredByName(a, b);
  }

  // ---- Comparing stored hex ----

  /** The regular expression of the comparison: lowercase hex digits, an even positive number of them. */
  predicate CanonicalHex(s: string) {
    s != [] && |s| % 2 == 0 && forall c | c in s :: IsHexDigit(c)
  }

  /** Buffer.from(s, 'hex'): stops at the first pair that is not hex, and drops an odd last digit. */
  function HexBytes(s: string): seq<nat> {
    if |s| < 2 || Nibble(s[0]).None? || Nibble(s[1]).None? then []
    else [16 * Nibble(s[0]).value + Nibble(s[1]).value] + HexBytes(s[2..])
  }

  predicate HexEqual(storedHex: string, expectedHex: string) {
    CanonicalHex(storedHex) && HexBytes(storedHex) == HexBytes(expectedHex)
  }

  /** CanonicalHex, or empty, pair by pair. */
  predicate AllHex(s: string) {
    s == [] || (|s| >= 2 && IsHexDigit(s[0]) && IsHexDigit(s[1]) && AllHex(s[2..]))
  }

  lemma {:induction false} HexPairs(s: string)
    requires |s| % 2 == 0 && forall c | c in s :: IsHexDigit(c)
    ensures AllHex(s)
  {
    if s != [] {
      assert s[0] in s && s[1] in s;
      HexPairs(s[2..]);
    }
  }

  lemma FirstPair(s: string)
    requires s != [] && AllHex(s)
    ensures HexBytes(s) == [16 * HexValue(s[0]) + HexValue(s[1])] + HexBytes(s[2..])
  {
  }

  lemma {:induction false} HexBytesInjective(a: string, b: string)
    requires AllHex(a) && AllHex(b) && HexBytes(a) == HexBytes(b)
    ensures a == b
  {
    if a != [] { FirstPair(a); }
    if b != [] { FirstPair(b); }
    if a != [] && b != [] {
      assert HexBytes(a)[1..] == HexBytes(a[2..]) && HexBytes(b)[1..] == HexBytes(b[2..]);
      HexBytesInjective(a[2..], b[2..]);
      assert HexBytes(a)[0] == HexBytes(b)[0];
      assert a == [a[0], a[1]] + a[2..] && b == [b[0], b[1]] + b[2..];
    }
  }

  /** Against a digest the comparison is string equality: no respelling of the digest verifies. */
  lemma HexEqualIsEquality(stored: string, expected: Digest)
    ensures HexEqual(stored, expected) <==> stored == expected
  {
    HexPairs(expected);
    if HexEqual(stored, expected) {
      HexPairs(stored);
      HexBytesInjective(stored, expected);
    }
  }

  /** Why the shape is tested first: decoding alone takes a digest and a longer string for the same bytes. */
  lemma {:induction false} DecodingForgetsTail(s: string, c: char)
    requires AllHex(s)
    ensures HexBytes(s + [c]) == HexBytes(s)
  {
    if s != [] {
      FirstPair(s);
      assert (s + [c])[2..] == s[2..] + [c];
      DecodingForgetsTail(s[2..], c);
    }
  }
}
