/** The replay manifest: what its signature covers, when it matches a list of events, and what both bind together. */
module Manifest {
  import opened Text
  import opened Json
  import opened JsonParser
  import opened Records
  import opened Canonical
  import opened Merkle

  const DOMAIN_MANIFEST: string := "mcpose/v2/manifest"

  datatype Unsigned = Unsigned(
    sessionId: string,
    identity: Value,
    proxy: Value,
    startedAt: string,
    closedAt: string,
    eventCount: int,
    merkleRoot: string,
    merkleProofs: seq<MerkleProof>,
    signedBy: string)

  datatype ReplayManifest = ReplayManifest(unsigned: Unsigned, signature: string)

  // ---- The signed payload ----

  const PROOF_KEYS: seq<string> := ["index", "siblings", "directions"]
  const MANIFEST_KEYS: seq<string> :=
    ["sessionId", "identity", "proxy", "startedAt", "closedAt", "eventCount", "merkleRoot", "merkleProofs", "signedBy"]
  const PAYLOAD_KEYS: seq<string> := ["domain", "manifest"]

  /** A hole in an array prints as null. */
  function SiblingValue(s: Option<string>): Value {
    if s.Some? then Str(s.value) else Undefined
  }

  function DirectionValue(d: Direction): Value {
    Str(if d == Left then "left" else "right")
  }

  function SiblingValues(siblings: seq<Option<string>>): (vs: seq<Value>)
    ensures |vs| == |siblings|
  {
    seq(|siblings|, i requires 0 <= i < |siblings| => SiblingValue(siblings[i]))
  }

  function DirectionValues(directions: seq<Direction>): (vs: seq<Value>)
    ensures |vs| == |directions|
  {
    seq(|directions|, i requires 0 <= i < |directions| => DirectionValue(directions[i]))
  }

  function ProofParts(p: MerkleProof): (vs: seq<Value>)
    ensures |vs| == 3
  {
    [Num(IntNumeral(p.index)), Arr(SiblingValues(p.siblings)), Arr(DirectionValues(p.directions))]
  }

  function ProofValue(p: MerkleProof): Value {
    Record(PROOF_KEYS, {}, ProofParts(p))
  }

  function ProofValues(ps: seq<MerkleProof>): (vs: seq<Value>)
    ensures |vs| == |ps|
  {
    seq(|ps|, i requires 0 <= i < |ps| => ProofValue(ps[i]))
  }

  function ManifestParts(u: Unsigned): (vs: seq<Value>)
    ensures |vs| == 9
  {
    [Str(u.sessionId), u.identity, u.proxy, Str(u.startedAt), Str(u.closedAt), Num(IntNumeral(u.eventCount)),
     Str(u.merkleRoot), Arr(ProofValues(u.merkleProofs)), Str(u.signedBy)]
  }

  function ManifestValue(u: Unsigned): Value {
    Record(MANIFEST_KEYS, {}, ManifestParts(u))
  }

  function PayloadParts(u: Unsigned): (vs: seq<Value>)
    ensures |vs| == 2
  {
    [Str(DOMAIN_MANIFEST), ManifestValue(u)]
  }

  function Payload(u: Unsigned): Value {
    Record(PAYLOAD_KEYS, {}, PayloadParts(u))
  }

  /** None is the TypeError canonicalJson throws on an identity or proxy without a canonical form. */
  function ManifestSigningPayload(u: Unsigned): Option<string> {
    CanonicalText(Payload(u))
  }

  predicate Signable(u: Unsigned) {
    Printable(u.identity) && Printable(u.proxy)
  }

  /** Two manifests that agree on every field, the two document-valued ones as documents. */
  ghost predicate SameManifest(u: Unsigned, v: Unsigned) {
    && u.sessionId == v.sessionId && SameMember(u.identity, v.identity) && SameMember(u.proxy, v.proxy)
    && u.startedAt == v.startedAt && u.closedAt == v.closedAt && u.eventCount == v.eventCount
    && u.merkleRoot == v.merkleRoot && u.merkleProofs == v.merkleProofs && u.signedBy == v.signedBy
  }

  lemma ManifestKeysDistinct()
    ensures Distinct(MANIFEST_KEYS)
  {
    var keys := MANIFEST_KEYS;
    assert keys[0][1] == 'e' && keys[3][1] == 't' && |keys[0]| == |keys[3]| == 9;
    assert keys[1][0] == 'i' && keys[4][0] == 'c' && keys[8][0] == 's' && |keys[1]| == |keys[4]| == |keys[8]| == 8;
    assert keys[5][0] == 'e' && keys[6][0] == 'm' && |keys[5]| == |keys[6]| == 10;
    assert |keys[2]| == 5 && |keys[7]| == 12;
  }

  lemma SmallKeysDistinct()
    ensures Distinct(PROOF_KEYS) && Distinct(PAYLOAD_KEYS)
  {
    assert |PROOF_KEYS[0]| == 5 && |PROOF_KEYS[1]| == 8 && |PROOF_KEYS[2]| == 10;
    assert |PAYLOAD_KEYS[0]| == 6 && |PAYLOAD_KEYS[1]| == 8;
  }

  lemma SameSiblings(a: seq<Option<string>>, b: seq<Option<string>>)
    ensures Same(Arr(SiblingValues(a)), Arr(SiblingValues(b))) <==> a == b
  {
    assert forall i | 0 <= i < |a| && i < |b| :: Same(SiblingValues(a)[i], SiblingValues(b)[i]) <==> a[i] == b[i];
  }

  lemma SameDirections(a: seq<Direction>, b: seq<Direction>)
    ensures Same(Arr(DirectionValues(a)), Arr(DirectionValues(b))) <==> a == b
  {
    assert |"left"| != |"right"|;
    assert forall i | 0 <= i < |a| && i < |b| :: Same(DirectionValues(a)[i], DirectionValues(b)[i]) <==> a[i] == b[i];
  }

  lemma SameInteger(i: int, j: int)
    ensures Same(Num(IntNumeral(i)), Num(IntNumeral(j))) <==> i == j
  {
    if IntText(i) == IntText(j) { IntTextInjective(i, j); }
  }

  lemma SameProof(p: MerkleProof, q: MerkleProof)
    ensures Same(ProofValue(p), ProofValue(q)) <==> p == q
  {
    SmallKeysDistinct();
    var vs, ws := ProofParts(p), ProofParts(q);
    SameRecord(PROOF_KEYS, {}, vs, ws);
    SameInteger(p.index, q.index);
    SameSiblings(p.siblings, q.siblings);
    SameDirections(p.directions, q.directions);
    assert SameMember(vs[0], ws[0]) <==> p.index == q.index;
    assert SameMember(vs[1], ws[1]) <==> p.siblings == q.siblings;
    assert SameMember(vs[2], ws[2]) <==> p.directions == q.directions;
  }

  lemma SameProofs(ps: seq<MerkleProof>, qs: seq<MerkleProof>)
    ensures Same(Arr(ProofValues(ps)), Arr(ProofValues(qs))) <==> ps == qs
  {
    forall i | 0 <= i < |ps| && i < |qs| ensures Same(ProofValues(ps)[i], ProofValues(qs)[i]) <==> ps[i] == qs[i] {
      SameProof(ps[i], qs[i]);
    }
  }

  lemma NineParts(vs: seq<Value>, ws: seq<Value>)
    requires |vs| == 9 == |ws|
    ensures (forall i | 0 <= i < 9 :: SameMember(vs[i], ws[i]))
       <==> && SameMember(vs[0], ws[0]) && SameMember(vs[1], ws[1]) && SameMember(vs[2], ws[2])
            && SameMember(vs[3], ws[3]) && SameMember(vs[4], ws[4]) && SameMember(vs[5], ws[5])
            && SameMember(vs[6], ws[6]) && SameMember(vs[7], ws[7]) && SameMember(vs[8], ws[8])
  {
  }

  lemma SameText(s: string, t: string)
    ensures SameMember(Str(s), Str(t)) <==> s == t
  {
  }

  /** The nine fields agree one by one. */
  lemma SameParts(u: Unsigned, v: Unsigned)
    ensures (forall i | 0 <= i < 9 :: SameMember(ManifestParts(u)[i], ManifestParts(v)[i])) <==> SameManifest(u, v)
  {
    NineParts(ManifestParts(u), ManifestParts(v));
    SameText(u.sessionId, v.sessionId);
    SameText(u.startedAt, v.startedAt);
    SameText(u.closedAt, v.closedAt);
    SameInteger(u.eventCount, v.eventCount);
    SameText(u.merkleRoot, v.merkleRoot);
    SameProofs(u.merkleProofs, v.merkleProofs);
    SameText(u.signedBy, v.signedBy);
  }

  /** The payload determines every manifest field, and nothing but the manifest. */
  lemma SamePayload(u: Unsigned, v: Unsigned)
    ensures Same(Payload(u), Payload(v)) <==> SameManifest(u, v)
  {
    ManifestKeysDistinct();
    SmallKeysDistinct();
    SameRecord(MANIFEST_KEYS, {}, ManifestParts(u), ManifestParts(v));
    SameParts(u, v);
    var vs, ws := PayloadParts(u), PayloadParts(v);
    SameRecord(PAYLOAD_KEYS, {}, vs, ws);
    assert SameMember(vs[0], ws[0]);
    assert SameMember(vs[1], ws[1]) <==> Same(ManifestValue(u), ManifestValue(v));
  }

  // ---- The same, field by field ----

  /** A proof as a document: its index, its siblings in order, a hole undefined, and its directions as words. */
  predicate ProofByName(v: Value, p: MerkleProof) {
    && Under(v, "index", Num(IntNumeral(p.index)))
    && (var xs := Get(v.entries, "siblings");
        && xs.Some? && xs.value.Arr? && |xs.value.items| == |p.siblings|
        && forall j | 0 <= j < |p.siblings| ::
             xs.value.items[j] == if p.siblings[j].Some? then Str(p.siblings[j].value) else Undefined)
    && (var ds := Get(v.entries, "directions");
        && ds.Some? && ds.value.Arr? && |ds.value.items| == |p.directions|
        && forall j | 0 <= j < |p.directions| ::
             ds.value.items[j] == Str(match p.directions[j] case Left => "left" case Right => "right"))
  }

  /** A manifest as a document: each of the nine fields under its own key. */
  predicate ManifestByName(v: Value, u: Unsigned) {
    && Under(v, "sessionId", Str(u.sessionId)) && Under(v, "identity", u.identity) && Under(v, "proxy", u.proxy)
    && Under(v, "startedAt", Str(u.startedAt)) && Under(v, "closedAt", Str(u.closedAt))
    && Under(v, "eventCount", Num(IntNumeral(u.eventCount))) && Under(v, "merkleRoot", Str(u.merkleRoot))
    && (var ps := Get(v.entries, "merkleProofs");
        && ps.Some? && ps.value.Arr? && |ps.value.items| == |u.merkleProofs|
        && forall i | 0 <= i < |u.merkleProofs| :: ProofByName(ps.value.items[i], u.merkleProofs[i]))
    && Under(v, "signedBy", Str(u.signedBy))
  }

  lemma ProofNamed(p: MerkleProof)
    ensures ProofByName(ProofValue(p), p)
  {
    SmallKeysDistinct();
    var vs := ProofParts(p);
    RecordAt(PROOF_KEYS, {}, vs, 0, 0);
    RecordAt(PROOF_KEYS, {}, vs, 0, 1);
    RecordAt(PROOF_KEYS, {}, vs, 0, 2);
    assert PROOF_KEYS[0] == "index" && PROOF_KEYS[1] == "siblings" && PROOF_KEYS[2] == "directions";
  }

  lemma ManifestKeyTexts()
    ensures |MANIFEST_KEYS| == 9
    ensures MANIFEST_KEYS[0] == "sessionId" && MANIFEST_KEYS[1] == "identity" && MANIFEST_KEYS[2] == "proxy"
    ensures MANIFEST_KEYS[3] == "startedAt" && MANIFEST_KEYS[4] == "closedAt" && MANIFEST_KEYS[5] == "eventCount"
    ensures MANIFEST_KEYS[6] == "merkleRoot" && MANIFEST_KEYS[7] == "merkleProofs" && MANIFEST_KEYS[8] == "signedBy"
  {
  }

  lemma ManifestPlace(u: Unsigned, i: nat)
    requires i < 9
    ensures |MANIFEST_KEYS| == 9 && Under(ManifestValue(u), MANIFEST_KEYS[i], ManifestParts(u)[i])
  {
    ManifestKeysDistinct();
    RecordAt(MANIFEST_KEYS, {}, ManifestParts(u), 0, i);
  }

  lemma ManifestNamed(u: Unsigned)
    ensures ManifestByName(ManifestValue(u), u)
  {
    forall i | 0 <= i < 9
      ensures |MANIFEST_KEYS| == 9 && Under(ManifestValue(u), MANIFEST_KEYS[i], ManifestParts(u)[i])
    {
      ManifestPlace(u, i);
    }
    ManifestKeyTexts();
    forall i | 0 <= i < |u.merkleProofs| ensures ProofByName(ProofValues(u.merkleProofs)[i], u.merkleProofs[i]) {
      ProofNamed(u.merkleProofs[i]);
    }
  }

  /** The payload is the domain and the manifest, each field of the manifest under its own key. */
  lemma PayloadByName(u: Unsigned) returns (v: Value)
    ensures Under(Payload(u), "domain", Str("mcpose/v2/manifest")) && Under(Payload(u), "manifest", v)
    ensures v.Obj? && ManifestByName(v, u)
  {
    SmallKeysDistinct();
    v := ManifestValue(u);
    RecordAt(PAYLOAD_KEYS, {}, PayloadParts(u), 0, 0);
    RecordAt(PAYLOAD_KEYS, {}, PayloadParts(u), 0, 1);
    assert PAYLOAD_KEYS[0] == "domain" && PAYLOAD_KEYS[1] == "manifest";
    ManifestNamed(u);
  }

  /** The document of a list of siblings, null for a hole. */
  predicate SiblingsHeld(x: Option<J>, siblings: seq<Option<string>>) {
    && x.Some? && x.value.JArr? && |x.value.items| == |siblings|
    && forall j | 0 <= j < |siblings| ::
         x.value.items[j] == if siblings[j].Some? then JStr(siblings[j].value) else JNull
  }

  predicate DirectionsHeld(x: Option<J>, directions: seq<Direction>) {
    && x.Some? && x.value.JArr? && |x.value.items| == |directions|
    && forall j | 0 <= j < |directions| ::
         x.value.items[j] == JStr(match directions[j] case Left => "left" case Right => "right")
  }

  /** The document of a proof. */
  predicate HoldsProof(j: J, p: MerkleProof) {
    j.JObj? && ProofLookup(FindIn(j.members), p)
  }

  predicate ProofLookup(find: Lookup<J>, p: MerkleProof) {
    && find("index") == Some(JNum(IntText(p.index)))
    && SiblingsHeld(find("siblings"), p.siblings)
    && DirectionsHeld(find("directions"), p.directions)
  }

  predicate ProofsHeld(x: Option<J>, proofs: seq<MerkleProof>) {
    && x.Some? && x.value.JArr? && |x.value.items| == |proofs|
    && forall i | 0 <= i < |proofs| :: HoldsProof(x.value.items[i], proofs[i])
  }

  /** The document of a manifest: each of the nine fields under its own key. */
  predicate ManifestLookup(find: Lookup<J>, u: Unsigned) {
    && find("sessionId") == Some(JStr(u.sessionId)) && find("identity") == NormalOf(Present(u.identity))
    && find("proxy") == NormalOf(Present(u.proxy)) && find("startedAt") == Some(JStr(u.startedAt))
    && find("closedAt") == Some(JStr(u.closedAt)) && find("eventCount") == Some(JNum(IntText(u.eventCount)))
    && find("merkleRoot") == Some(JStr(u.merkleRoot)) && ProofsHeld(find("merkleProofs"), u.merkleProofs)
    && find("signedBy") == Some(JStr(u.signedBy))
  }

  lemma SiblingsNormal(siblings: seq<Option<string>>)
    ensures SiblingsHeld(Some(Normal(Arr(SiblingValues(siblings)))), siblings)
  {
  }

  lemma DirectionsNormal(directions: seq<Direction>)
    ensures DirectionsHeld(Some(Normal(Arr(DirectionValues(directions)))), directions)
  {
  }

  lemma ProofPlaces(p: MerkleProof)
    ensures var es, vs := RecordFrom(PROOF_KEYS, {}, ProofParts(p), 0), ProofParts(p);
            && DistinctKeys(es) && GetIn(es)("index") == Some(vs[0])
            && GetIn(es)("siblings") == Some(vs[1]) && GetIn(es)("directions") == Some(vs[2])
  {
    SmallKeysDistinct();
    RecordDistinct(PROOF_KEYS, {}, ProofParts(p), 0);
    RecordAt(PROOF_KEYS, {}, ProofParts(p), 0, 0);
    RecordAt(PROOF_KEYS, {}, ProofParts(p), 0, 1);
    RecordAt(PROOF_KEYS, {}, ProofParts(p), 0, 2);
    assert PROOF_KEYS[0] == "index" && PROOF_KEYS[1] == "siblings" && PROOF_KEYS[2] == "directions";
  }

  lemma ProofLooksUp(get: Lookup<Value>, find: Lookup<J>, p: MerkleProof)
    requires forall k: string :: find(k) == NormalOf(get(k))
    requires get("index") == Some(Num(IntNumeral(p.index))) && get("siblings") == Some(Arr(SiblingValues(p.siblings)))
    requires get("directions") == Some(Arr(DirectionValues(p.directions)))
    ensures ProofLookup(find, p)
  {
    SiblingsNormal(p.siblings);
    DirectionsNormal(p.directions);
  }

  lemma ObjectIsProof(es: seq<Entry>, p: MerkleProof)
    requires DistinctKeys(es)
    requires GetIn(es)("index") == Some(Num(IntNumeral(p.index)))
    requires GetIn(es)("siblings") == Some(Arr(SiblingValues(p.siblings)))
    requires GetIn(es)("directions") == Some(Arr(DirectionValues(p.directions)))
    ensures HoldsProof(Normal(Obj(es)), p)
  {
    LookupsAgree(es);
    ProofLooksUp(GetIn(es), FindIn(NormalEntries(es)), p);
  }

  lemma ProofHeld(p: MerkleProof)
    ensures HoldsProof(Normal(ProofValue(p)), p)
  {
    ProofPlaces(p);
    ObjectIsProof(RecordFrom(PROOF_KEYS, {}, ProofParts(p), 0), p);
  }

  lemma ProofsNormal(proofs: seq<MerkleProof>)
    ensures ProofsHeld(Some(Normal(Arr(ProofValues(proofs)))), proofs)
  {
    forall i | 0 <= i < |proofs| ensures HoldsProof(NormalItems(ProofValues(proofs))[i], proofs[i]) {
      ProofHeld(proofs[i]);
    }
  }

  lemma ManifestPlaces(u: Unsigned)
    ensures var es := RecordFrom(MANIFEST_KEYS, {}, ManifestParts(u), 0);
            && DistinctKeys(es) && |MANIFEST_KEYS| == 9
            && forall i | 0 <= i < 9 :: GetIn(es)(MANIFEST_KEYS[i]) == Present(ManifestParts(u)[i])
  {
    ManifestKeysDistinct();
    RecordDistinct(MANIFEST_KEYS, {}, ManifestParts(u), 0);
    forall i | 0 <= i < 9
      ensures GetIn(RecordFrom(MANIFEST_KEYS, {}, ManifestParts(u), 0))(MANIFEST_KEYS[i])
           == Present(ManifestParts(u)[i])
    {
      RecordAt(MANIFEST_KEYS, {}, ManifestParts(u), 0, i);
    }
  }

  lemma ProofsLookUp(found: Option<J>, proofs: seq<MerkleProof>)
    requires found == NormalOf(Some(Arr(ProofValues(proofs))))
    ensures ProofsHeld(found, proofs)
  {
    ProofsNormal(proofs);
  }

  lemma PartLooksUp(u: Unsigned, i: nat)
    requires i < 9
    ensures var es := RecordFrom(MANIFEST_KEYS, {}, ManifestParts(u), 0);
            && |MANIFEST_KEYS| == 9 && GetIn(es)(MANIFEST_KEYS[i]) == Present(ManifestParts(u)[i])
            && FindIn(NormalEntries(es))(MANIFEST_KEYS[i]) == NormalOf(Present(ManifestParts(u)[i]))
  {
    ManifestPlaces(u);
    LookupsAgree(RecordFrom(MANIFEST_KEYS, {}, ManifestParts(u), 0));
  }

  /** What each place of the key list finds. */
  predicate PartFound(find: Lookup<J>, keys: seq<string>, u: Unsigned, i: nat)
    requires |keys| == 9 && i < 9
  {
    find(keys[i]) == NormalOf(Present(ManifestParts(u)[i]))
  }

  lemma FirstFound(find: Lookup<J>, keys: seq<string>, u: Unsigned)
    requires |keys| == 9 && forall i | 0 <= i < 9 :: PartFound(find, keys, u, i)
    ensures find(keys[0]) == Some(JStr(u.sessionId)) && find(keys[1]) == NormalOf(Present(u.identity))
    ensures find(keys[2]) == NormalOf(Present(u.proxy)) && find(keys[3]) == Some(JStr(u.startedAt))
    ensures find(keys[4]) == Some(JStr(u.closedAt))
  {
    assert PartFound(find, keys, u, 0) && PartFound(find, keys, u, 1) && PartFound(find, keys, u, 2);
    assert PartFound(find, keys, u, 3) && PartFound(find, keys, u, 4);
  }

  lemma LastFound(find: Lookup<J>, keys: seq<string>, u: Unsigned)
    requires |keys| == 9 && forall i | 0 <= i < 9 :: PartFound(find, keys, u, i)
    ensures find(keys[5]) == Some(JNum(IntText(u.eventCount))) && find(keys[6]) == Some(JStr(u.merkleRoot))
    ensures find(keys[7]) == NormalOf(Some(Arr(ProofValues(u.merkleProofs)))) && find(keys[8]) == Some(JStr(u.signedBy))
  {
    assert PartFound(find, keys, u, 5) && PartFound(find, keys, u, 6);
    assert PartFound(find, keys, u, 7) && PartFound(find, keys, u, 8);
  }

  lemma ManifestHeld(u: Unsigned, find: Lookup<J>)
    requires find == FindIn(NormalEntries(RecordFrom(MANIFEST_KEYS, {}, ManifestParts(u), 0)))
    ensures ManifestLookup(find, u)
  {
    ManifestKeyTexts();
    forall i | 0 <= i < 9 ensures PartFound(find, MANIFEST_KEYS, u, i) { PartLooksUp(u, i); }
    FirstFound(find, MANIFEST_KEYS, u);
    LastFound(find, MANIFEST_KEYS, u);
    ProofsLookUp(find(MANIFEST_KEYS[7]), u.merkleProofs);
  }

  lemma PayloadPlaces(u: Unsigned)
    ensures var es := RecordFrom(PAYLOAD_KEYS, {}, PayloadParts(u), 0);
            && DistinctKeys(es) && GetIn(es)("domain") == Some(Str("mcpose/v2/manifest"))
            && GetIn(es)("manifest") == Some(ManifestValue(u))
  {
    SmallKeysDistinct();
    RecordDistinct(PAYLOAD_KEYS, {}, PayloadParts(u), 0);
    RecordAt(PAYLOAD_KEYS, {}, PayloadParts(u), 0, 0);
    RecordAt(PAYLOAD_KEYS, {}, PayloadParts(u), 0, 1);
    assert PAYLOAD_KEYS[0] == "domain" && PAYLOAD_KEYS[1] == "manifest";
  }

  lemma PayloadLooksUp(es: seq<Entry>, v: Value)
    requires DistinctKeys(es) && GetIn(es)("domain") == Some(Str("mcpose/v2/manifest"))
    requires GetIn(es)("manifest") == Some(v)
    ensures FindIn(NormalEntries(es))("domain") == Some(JStr("mcpose/v2/manifest"))
    ensures FindIn(NormalEntries(es))("manifest") == Some(Normal(v))
  {
    LookupsAgree(es);
  }

  /** The signed text reads back as the domain and the manifest, each field of the manifest under its own key. */
  lemma PayloadTextHolds(u: Unsigned) returns (ms: seq<Member>, fs: seq<Member>)
    requires ManifestSigningPayload(u).Some?
    ensures Parse(ManifestSigningPayload(u).value) == Some(JObj(ms))
    ensures FindIn(ms)("domain") == Some(JStr("mcpose/v2/manifest")) && FindIn(ms)("manifest") == Some(JObj(fs))
    ensures ManifestLookup(FindIn(fs), u)
  {
    var es := RecordFrom(PAYLOAD_KEYS, {}, PayloadParts(u), 0);
    ms, fs := NormalEntries(es), NormalEntries(RecordFrom(MANIFEST_KEYS, {}, ManifestParts(u), 0));
    PayloadPlaces(u);
    PayloadLooksUp(es, ManifestValue(u));
    ManifestHeld(u, FindIn(fs));
    ParsePrint(Normal(Payload(u)));
  }

  predicate Plain(v: Value) {
    Printable(v) && WellFormed(v)
  }

  lemma PlainList(vs: seq<Value>)
    requires forall i | 0 <= i < |vs| :: Plain(vs[i])
    ensures Plain(Arr(vs))
  {
    forall x | x in vs ensures Plain(x) {
      var i: nat :| i < |vs| && vs[i] == x;
    }
  }

  lemma PlainRecord(keys: seq<string>, vs: seq<Value>)
    requires |vs| == |keys| && Distinct(keys) && forall i | 0 <= i < |vs| :: Plain(vs[i])
    ensures Plain(Record(keys, {}, vs))
  {
    RecordPrintable(keys, {}, vs);
    RecordWellFormed(keys, {}, vs);
  }

  lemma ProofIsPlain(p: MerkleProof)
    ensures Plain(ProofValue(p))
  {
    SmallKeysDistinct();
    PlainList(SiblingValues(p.siblings));
    PlainList(DirectionValues(p.directions));
    PlainRecord(PROOF_KEYS, ProofParts(p));
  }

  lemma ProofsArePlain(ps: seq<MerkleProof>)
    ensures Plain(Arr(ProofValues(ps)))
  {
    forall i | 0 <= i < |ps| ensures Plain(ProofValues(ps)[i]) {
      ProofIsPlain(ps[i]);
    }
    PlainList(ProofValues(ps));
  }

  lemma NinePrintable(vs: seq<Value>)
    requires |vs| == 9
    ensures AllPrintable(vs)
       <==> && Printable(vs[0]) && Printable(vs[1]) && Printable(vs[2]) && Printable(vs[3]) && Printable(vs[4])
            && Printable(vs[5]) && Printable(vs[6]) && Printable(vs[7]) && Printable(vs[8])
  {
  }

  lemma PartsPrintable(u: Unsigned)
    ensures AllPrintable(ManifestParts(u)) <==> Signable(u)
  {
    ProofsArePlain(u.merkleProofs);
    NinePrintable(ManifestParts(u));
  }

  lemma ManifestPrintable(keys: seq<string>, u: Unsigned)
    requires |keys| == 9
    ensures Printable(Record(keys, {}, ManifestParts(u))) <==> Signable(u)
  {
    RecordPrintable(keys, {}, ManifestParts(u));
    PartsPrintable(u);
  }

  lemma PairPrintable(keys: seq<string>, s: string, v: Value)
    requires |keys| == 2
    ensures Printable(Record(keys, {}, [Str(s), v])) <==> Printable(v)
  {
    var vs := [Str(s), v];
    RecordPrintable(keys, {}, vs);
    assert Printable(vs[0]);
    assert AllPrintable(vs) <==> Printable(vs[1]);
  }

  /** A manifest has a payload exactly when its identity and proxy have a canonical text. */
  lemma SignableIffPayload(u: Unsigned)
    ensures ManifestSigningPayload(u).Some? <==> Signable(u)
  {
    ManifestPrintable(MANIFEST_KEYS, u);
    PairPrintable(PAYLOAD_KEYS, DOMAIN_MANIFEST, ManifestValue(u));
  }

  predicate ManifestWellFormed(u: Unsigned) {
    WellFormed(u.identity) && WellFormed(u.proxy)
  }

  lemma PartsWellFormed(u: Unsigned)
    requires ManifestWellFormed(u)
    ensures AllWellFormed(ManifestParts(u))
  {
    ProofsArePlain(u.merkleProofs);
  }

  lemma PairWellFormed(keys: seq<string>, s: string, v: Value)
    requires |keys| == 2 && Distinct(keys) && WellFormed(v)
    ensures WellFormed(Record(keys, {}, [Str(s), v]))
  {
    RecordWellFormed(keys, {}, [Str(s), v]);
  }

  lemma PayloadWellFormed(u: Unsigned)
    requires ManifestWellFormed(u)
    ensures WellFormed(Payload(u))
  {
    ManifestKeysDistinct();
    SmallKeysDistinct();
    PartsWellFormed(u);
    RecordWellFormed(MANIFEST_KEYS, {}, ManifestParts(u));
    PairWellFormed(PAYLOAD_KEYS, DOMAIN_MANIFEST, ManifestValue(u));
  }

  /** Equal payload texts mean equal manifests, field by field, and conversely. */
  lemma PayloadExact(u: Unsigned, v: Unsigned)
    requires Signable(u) && Signable(v) && ManifestWellFormed(u) && ManifestWellFormed(v)
    ensures ManifestSigningPayload(u) == ManifestSigningPayload(v) <==> SameManifest(u, v)
  {
    SignableIffPayload(u);
    SignableIffPayload(v);
    PayloadWellFormed(u);
    PayloadWellFormed(v);
    CanonicalExact(Payload(u), Payload(v));
    SamePayload(u, v);
  }
}
