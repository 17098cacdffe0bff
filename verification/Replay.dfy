/** Checking a manifest against events, and what manifest, chain and signature bind together. */
module Replay {
  import opened Text
  import opened Json
  import opened JsonParser
  import opened Canonical
  import opened Digests
  import opened Merkle
  import opened MerkleTheorems
  import opened Chain
  import opened Verifier
  import opened Manifest

  /** The chain hashes of events, in order. */
  function Hashes(events: seq<AuditEvent>): (hs: seq<string>)
    ensures |hs| == |events| && forall i | 0 <= i < |events| :: hs[i] == events[i].chainHash
  {
    seq(|events|, i requires 0 <= i < |events| => events[i].chainHash)
  }

  /** The signing oracle: an HMAC under the secret, printed in hex. */
  function SignatureOf(mac: Mac, secret: string, u: Unsigned): Option<Digest> {
    match ManifestSigningPayload(u)
    case None => None
    case Some(text) => Some(mac(secret, text))
  }

  /** The signature, from the bottom up: the HMAC of a text that reads back as the domain and the manifest's fields. */
  lemma SignatureText(mac: Mac, secret: string, u: Unsigned) returns (text: string, ms: seq<Member>, fs: seq<Member>)
    requires SignatureOf(mac, secret, u).Some?
    ensures SignatureOf(mac, secret, u) == Some(mac(secret, text)) && Parse(text) == Some(JObj(ms))
    ensures FindIn(ms)("domain") == Some(JStr("mcpose/v2/manifest")) && FindIn(ms)("manifest") == Some(JObj(fs))
    ensures ManifestLookup(FindIn(fs), u)
  {
    text := ManifestSigningPayload(u).value;
    ms, fs := PayloadTextHolds(u);
  }

  /** None where canonicalJson throws. */
  method VerifyManifestSignature(mac: Mac, secret: string, manifest: ReplayManifest) returns (r: Option<bool>)
    ensures r.None? <==> !Signable(manifest.unsigned)
    ensures r.Some? ==> (r.value <==> SignatureOf(mac, secret, manifest.unsigned) == Some(manifest.signature))
  {
    SignableIffPayload(manifest.unsigned);
    var expected := SignatureOf(mac, secret, manifest.unsigned);
    if expected.None? {
      return None;
    }
    HexEqualIsEquality(manifest.signature, expected.value);
    return Some(HexEqual(manifest.signature, expected.value));
  }

  // ---- The keyless manifest check ----

  datatype ManifestCheck =
    | Accepted
    | WrongCount
    | WrongProofCount
    | WrongRoot
    | WrongIndex(i: nat)
    | ProofRejected(i: nat)

  ghost predicate ProofOk(h: Hash, events: seq<AuditEvent>, u: Unsigned, i: nat)
    requires i < |events| && i < |u.merkleProofs|
  {
    u.merkleProofs[i].index == i && Accepts(h, events[i].chainHash, u.merkleProofs[i], u.merkleRoot)
  }

  ghost predicate ManifestMatches(h: Hash, events: seq<AuditEvent>, u: Unsigned) {
    && u.eventCount == |events| == |u.merkleProofs|
    && Root(h, Hashes(events)) == u.merkleRoot
    && forall i | 0 <= i < |events| :: ProofOk(h, events, u, i)
  }

  /** The first failing check, in the order they are made. */
  ghost predicate CheckExplains(h: Hash, events: seq<AuditEvent>, u: Unsigned, r: ManifestCheck) {
    match r
    case Accepted => ManifestMatches(h, events, u)
    case WrongCount => u.eventCount != |events|
    case WrongProofCount => u.eventCount == |events| != |u.merkleProofs|
    case WrongRoot => u.eventCount == |events| == |u.merkleProofs| && Root(h, Hashes(events)) != u.merkleRoot
    case WrongIndex(i) =>
      && i < |events| == |u.merkleProofs| && Root(h, Hashes(events)) == u.merkleRoot
      && (forall j | 0 <= j < i :: ProofOk(h, events, u, j)) && u.merkleProofs[i].index != i
    case ProofRejected(i) =>
      && i < |events| == |u.merkleProofs| && Root(h, Hashes(events)) == u.merkleRoot
      && (forall j | 0 <= j < i :: ProofOk(h, events, u, j)) && u.merkleProofs[i].index == i
      && !Accepts(h, events[i].chainHash, u.merkleProofs[i], u.merkleRoot)
  }

  /** The proofs in turn: the first that is not at its own index, or is not accepted. */
  method CheckProofs(h: Hash, events: seq<AuditEvent>, u: Unsigned) returns (r: ManifestCheck)
    requires |events| == |u.merkleProofs|
    ensures match r
            case Accepted => forall i | 0 <= i < |events| :: ProofOk(h, events, u, i)
            case WrongIndex(i) =>
              i < |events| && (forall j | 0 <= j < i :: ProofOk(h, events, u, j)) && u.merkleProofs[i].index != i
            case ProofRejected(i) =>
              && i < |events| && (forall j | 0 <= j < i :: ProofOk(h, events, u, j)) && u.merkleProofs[i].index == i
              && !Accepts(h, events[i].chainHash, u.merkleProofs[i], u.merkleRoot)
            case _ => false
  {
    for i := 0 to |u.merkleProofs|
      invariant forall j | 0 <= j < i :: ProofOk(h, events, u, j)
    {
      var proof := u.merkleProofs[i];
      if proof.index != i {
        return WrongIndex(i);
      }
      var ok, _ := VerifyMerkleProof(h, events[i].chainHash, proof, u.merkleRoot);
      if !ok {
        return ProofRejected(i);
      }
    }
    return Accepted;
  }

  method AssertReplayManifestValid(h: Hash, events: seq<AuditEvent>,
      manifest: ReplayManifest) returns (r: ManifestCheck)
    ensures r.Accepted? <==> ManifestMatches(h, events, manifest.unsigned)
    ensures CheckExplains(h, events, manifest.unsigned, r)
  {
    var u := manifest.unsigned;
    if u.eventCount != |events| {
      return WrongCount;
    }
    if |u.merkleProofs| != |events| {
      return WrongProofCount;
    }
    var recomputedRoot, _ := ComputeMerkleRoot(h, Hashes(events));
    if recomputedRoot != u.merkleRoot {
      return WrongRoot;
    }
    r := CheckProofs(h, events, u);
    if !r.Accepted? {
      assert !ProofOk(h, events, u, r.i);
    }
  }

  // ---- Sealing ----

  /** The manifest a closing session is sealed with. */
  ghost function Sealed(h: Hash, sessionId: string, identity: Value, proxy: Value, startedAt: string, closedAt: string,
                  events: seq<AuditEvent>, keyId: string): Unsigned
  {
    var hashes := Hashes(events);
    Unsigned(sessionId, identity, proxy, startedAt, closedAt, |events|, Root(h, hashes),
             seq(|events|, i requires 0 <= i < |events| => ProofOf(h, hashes, i)), keyId)
  }

  /** The manifest says of a list of events what sealing that list says. */
  ghost predicate CountsAndRoots(h: Hash, events: seq<AuditEvent>, u: Unsigned) {
    u.eventCount == |events| && u.merkleRoot == Root(h, Hashes(events))
  }

  /** A sealed manifest is accepted with the events it was sealed from, up to the longest array there is. */
  lemma SealedMatches(h: Hash, sessionId: string, identity: Value, proxy: Value, startedAt: string, closedAt: string,
                      events: seq<AuditEvent>, keyId: string)
    requires |events| <= MAX_ARRAY
    ensures ManifestMatches(h, events, Sealed(h, sessionId, identity, proxy, startedAt, closedAt, events, keyId))
  {
    var u := Sealed(h, sessionId, identity, proxy, startedAt, closedAt, events, keyId);
    forall i | 0 <= i < |events| ensures ProofOk(h, events, u, i) {
      MerkleComplete(h, Hashes(events), i);
    }
  }

  // ---- End-to-end binding ----

  /** Two different strings hashed, or two different preimages authenticated, to one value. */
  ghost predicate Broken(h: Hash, mac: Mac, secret: string, xs: seq<AuditEvent>, ys: seq<AuditEvent>) {
    || Collide(h, TreeInputs(h, Hashes(xs)), TreeInputs(h, Hashes(ys)))
    || TagsCollide(ChainTag(mac, secret), Texts(ChainText, xs), Texts(ChainText, ys))
  }

  lemma EqualHashes(xs: seq<AuditEvent>, ys: seq<AuditEvent>)
    requires xs != [] && ys != [] && Hashes(xs) == Hashes(ys)
    ensures LastHash(xs) == LastHash(ys)
  {
    assert Hashes(xs)[|xs| - 1] == Hashes(ys)[|ys| - 1];
  }

  /** Events that count and hash to one manifest, and verify under one secret, are the same events. */
  lemma ManifestBindsEvents(h: Hash, mac: Mac, secret: string, xs: seq<AuditEvent>, ys: seq<AuditEvent>, u: Unsigned)
    requires CountsAndRoots(h, xs, u) && CountsAndRoots(h, ys, u) && WellFormedEvents(xs) && WellFormedEvents(ys)
    requires ChainValid(ChainHasher(mac, secret), xs) && ChainValid(ChainHasher(mac, secret), ys)
    ensures SameEvents(xs, ys) || Broken(h, mac, secret, xs, ys)
  {
    RootAndCountBind(h, Hashes(xs), Hashes(ys));
    if Hashes(xs) == Hashes(ys) {
      EqualHashes(xs, ys);
      VerifiedChainsBind(mac, secret, xs, ys);
    }
  }

  /**
   End-to-end binding. Let events be recorded in a valid chain and sealed into a manifest whose payload
   the signer signed. Any list that passes the manifest check and the keyed chain check against any
   manifest with that payload is the recorded list: same length, and every covered field of every event
   the same. So nothing was truncated, inserted, reordered or edited, or a hash or HMAC collided.
   */
  lemma EndToEndBinding(h: Hash, mac: Mac, secret: string, recorded: seq<AuditEvent>, signed: Unsigned,
                        events: seq<AuditEvent>, manifest: ReplayManifest)
    requires ChainValid(ChainHasher(mac, secret), recorded) && CountsAndRoots(h, recorded, signed)
    requires ManifestSigningPayload(manifest.unsigned).Some?
    requires ManifestSigningPayload(manifest.unsigned) == ManifestSigningPayload(signed)
    requires ManifestMatches(h, events, manifest.unsigned) && ChainValid(ChainHasher(mac, secret), events)
    requires WellFormedEvents(recorded) && WellFormedEvents(events)
    requires ManifestWellFormed(manifest.unsigned) && ManifestWellFormed(signed)
    ensures SameEvents(events, recorded) || Broken(h, mac, secret, events, recorded)
    ensures SameManifest(manifest.unsigned, signed)
  {
    SignableIffPayload(manifest.unsigned);
    SignableIffPayload(signed);
    PayloadExact(manifest.unsigned, signed);
    ManifestBindsEvents(h, mac, secret, events, recorded, signed);
  }

  /**
   The same, from the signature the signer issued instead of the payload: a manifest that verifies under
   an issued signature has the signed payload, or two different payloads have one HMAC.
   */
  lemma SignatureBinds(h: Hash, mac: Mac, secret: string, recorded: seq<AuditEvent>, signed: ReplayManifest,
                       events: seq<AuditEvent>, manifest: ReplayManifest)
    requires ChainValid(ChainHasher(mac, secret), recorded) && CountsAndRoots(h, recorded, signed.unsigned)
    requires SignatureOf(mac, secret, signed.unsigned) == Some(signed.signature)
    requires SignatureOf(mac, secret, manifest.unsigned) == Some(manifest.signature)
    requires manifest.signature == signed.signature
    requires ManifestMatches(h, events, manifest.unsigned) && ChainValid(ChainHasher(mac, secret), events)
    requires WellFormedEvents(recorded) && WellFormedEvents(events)
    requires ManifestWellFormed(manifest.unsigned) && ManifestWellFormed(signed.unsigned)
    ensures var p, q := ManifestSigningPayload(manifest.unsigned).value, ManifestSigningPayload(signed.unsigned).value;
            (SameManifest(manifest.unsigned, signed.unsigned)
             && (SameEvents(events, recorded) || Broken(h, mac, secret, events, recorded)))
            || (p != q && mac(secret, p) == mac(secret, q))
  {
    if ManifestSigningPayload(manifest.unsigned) == ManifestSigningPayload(signed.unsigned) {
      EndToEndBinding(h, mac, secret, recorded, signed.unsigned, events, manifest);
    }
  }
}
