/** Chain verification, keyed and keyless, and what a verified chain binds. */
module Verifier {
  import opened Text
  import opened Json
  import opened JsonParser
  import opened Canonical
  import opened Digests
  import opened Chain

  // ---- Chains over any way of hashing an event ----

  /** The hash of an event chained onto the hash before it, or None where hashing throws. */
  type Hasher = (AuditEvent, string) -> Option<Digest>

  /** The text a hash authenticates. */
  type Texter = (AuditEvent, string) -> string

  type Tag = string -> Digest

  /** What the next entry chains onto; the first one chains onto the empty string. */
  function LastHash(events: seq<AuditEvent>): string {
    if events == [] then "" else events[|events| - 1].chainHash
  }

  predicate PositionAt(e: AuditEvent, i: nat) {
    e.position == Num(IntNumeral(i))
  }

  predicate HashMatches(hash: Hasher, e: AuditEvent, prev: string) {
    var h := hash(e, prev);
    h.Some? && h.value == e.chainHash
  }

  predicate EntryValid(hash: Hasher, e: AuditEvent, prev: string, i: nat) {
    PositionAt(e, i) && HashMatches(hash, e, prev)
  }

  /** Every entry carries its own index and the hash of its fields chained onto the entry before. */
  predicate Chained(hash: Hasher, events: seq<AuditEvent>)
    decreases |events|
  {
    events == []
    || (var n := |events| - 1;
        Chained(hash, events[..n]) && EntryValid(hash, events[n], LastHash(events[..n]), n))
  }

  predicate ChainValid(hash: Hasher, events: seq<AuditEvent>) {
    events != [] && Chained(hash, events)
  }

  lemma {:induction false} PrefixChained(hash: Hasher, events: seq<AuditEvent>, n: nat)
    requires n <= |events| && Chained(hash, events)
    ensures Chained(hash, events[..n])
    decreases |events|
  {
    if n < |events| {
      var m := |events| - 1;
      PrefixChained(hash, events[..m], n);
      assert events[..m][..n] == events[..n];
    } else {
      assert events[..n] == events;
    }
  }

  lemma Extends(hash: Hasher, events: seq<AuditEvent>, e: AuditEvent)
    ensures LastHash(events + [e]) == e.chainHash
    ensures Chained(hash, events + [e]) <==> Chained(hash, events) && EntryValid(hash, e, LastHash(events), |events|)
  {
    assert (events + [e])[..|events|] == events;
  }

  lemma NextPrefix<T>(s: seq<T>, i: nat)
    requires i < |s|
    ensures s[..i + 1] == s[..i] + [s[i]]
  {
  }

  // ---- The verifier ----

  datatype Reason = EmptyList | WrongPosition(found: Value, expected: nat) | WrongHash

  /** Threw: canonicalJson rejected the event at this index. */
  datatype ChainVerification = Valid | Invalid(index: nat, reason: Reason) | Threw(index: nat)

  /** The verdict on one entry, the first check that fails deciding. */
  predicate Explains(hash: Hasher, e: AuditEvent, prev: string, i: nat, r: ChainVerification) {
    match r
    case Valid => EntryValid(hash, e, prev, i)
    case Invalid(j, WrongPosition(found, expected)) => j == i == expected && found == e.position && !PositionAt(e, i)
    case Invalid(j, WrongHash) => j == i && PositionAt(e, i) && hash(e, prev).Some? && !HashMatches(hash, e, prev)
    case Invalid(_, EmptyList) => false
    case Threw(j) => j == i && PositionAt(e, i) && hash(e, prev).None?
  }

  method VerifyEntry(hash: Hasher, event: AuditEvent, prevChainHash: string, i: nat) returns (r: ChainVerification)
    ensures Explains(hash, event, prevChainHash, i, r)
  {
    if event.position != Num(IntNumeral(i)) {
      return Invalid(i, WrongPosition(event.position, i));
    }
    var expected := hash(event, prevChainHash);
    if expected.None? {
      return Threw(i);
    }
    HexEqualIsEquality(event.chainHash, expected.value);
    r := if HexEqual(event.chainHash, expected.value) then Valid else Invalid(i, WrongHash);
  }

  /** The first entry that is not chained onto the ones before decides; an empty list is never valid. */
  method VerifyChain(hash: Hasher, events: seq<AuditEvent>) returns (r: ChainVerification)
    ensures r.Valid? <==> ChainValid(hash, events)
    ensures events == [] ==> r == Invalid(0, EmptyList)
    ensures events != [] && !r.Valid? ==>
              && r.index < |events| && Chained(hash, events[..r.index])
              && Explains(hash, events[r.index], LastHash(events[..r.index]), r.index, r)
  {
    if |events| == 0 {
      return Invalid(0, EmptyList);
    }
    var prevChainHash := "";
    ghost var done := [];
    for i := 0 to |events|
      invariant done == events[..i] && prevChainHash == LastHash(done)
      invariant Chained(hash, done)
    {
      r := VerifyEntry(hash, events[i], prevChainHash, i);
      Extends(hash, done, events[i]);
      NextPrefix(events, i);
      if !r.Valid? {
        if Chained(hash, events) { PrefixChained(hash, events, i + 1); }
        return;
      }
      prevChainHash := events[i].chainHash;
      done := done + [events[i]];
    }
    assert done == events;
    return Valid;
  }

  // ---- Binding ----

  /** The texts a chain's hashes authenticate, in order. */
  function Texts(text: Texter, events: seq<AuditEvent>): (ts: seq<string>)
    ensures |ts| == |events|
    decreases |events|
  {
    if events == [] then []
    else
      var n := |events| - 1;
      Texts(text, events[..n]) + [text(events[n], LastHash(events[..n]))]
  }

  /** Two different texts, one from each list, with one tag. */
  ghost predicate TagsCollide(tag: Tag, xs: seq<string>, ys: seq<string>) {
    exists p, q :: p in xs && q in ys && p != q && tag(p) == tag(q)
  }

  ghost predicate WellFormedEvents(events: seq<AuditEvent>) {
    forall i | 0 <= i < |events| :: EventWellFormed(events[i])
  }

  ghost predicate IsTagOfText(hash: Hasher, text: Texter, tag: Tag, a: AuditEvent, p: string) {
    hash(a, p).Some? ==> hash(a, p).value == tag(text(a, p))
  }

  ghost predicate TextBinds(hash: Hasher, text: Texter, a: AuditEvent, p: string, b: AuditEvent, q: string) {
    EventWellFormed(a) && EventWellFormed(b) && hash(a, p).Some? && hash(b, q).Some? && text(a, p) == text(b, q)
    ==> p == q && SameCovered(a, b)
  }

  /** The hash is a tag of a text, and the text determines the previous hash and every covered field. */
  ghost predicate Authenticates(hash: Hasher, text: Texter, tag: Tag) {
    && (forall a: AuditEvent, p: string :: IsTagOfText(hash, text, tag, a, p))
    && (forall a: AuditEvent, p: string, b: AuditEvent, q: string :: TextBinds(hash, text, a, p, b, q))
  }

  lemma SamePlace(a: AuditEvent, i: nat, b: AuditEvent, j: nat)
    requires PositionAt(a, i) && PositionAt(b, j) && SameCovered(a, b)
    ensures i == j
  {
    assert SameField(a, b, 17);
    IntTextInjective(i, j);
  }

  /** Equal hashes of two verified entries: same place, same previous hash and same fields, or two texts collide. */
  lemma EntriesBind(hash: Hasher, text: Texter, tag: Tag, a: AuditEvent, p: string, i: nat, b: AuditEvent, q: string,
      j: nat)
    requires Authenticates(hash, text, tag) && EventWellFormed(a) && EventWellFormed(b)
    requires EntryValid(hash, a, p, i) && EntryValid(hash, b, q, j) && a.chainHash == b.chainHash
    ensures tag(text(a, p)) == tag(text(b, q))
    ensures text(a, p) == text(b, q) ==> p == q && i == j && SameCovered(a, b)
  {
    assert IsTagOfText(hash, text, tag, a, p) && IsTagOfText(hash, text, tag, b, q);
    assert TextBinds(hash, text, a, p, b, q);
    if text(a, p) == text(b, q) { SamePlace(a, i, b, j); }
  }

  /** The same events, compared by what the chain covers. */
  ghost predicate SameEvents(xs: seq<AuditEvent>, ys: seq<AuditEvent>) {
    |xs| == |ys| && forall j | 0 <= j < |xs| :: xs[j].chainHash == ys[j].chainHash && SameCovered(xs[j], ys[j])
  }

  /** What it means for two lists to be the same events, field by field. */
  lemma SameEventsByName(xs: seq<AuditEvent>, ys: seq<AuditEvent>)
    ensures SameEvents(xs, ys)
       <==> && |xs| == |ys|
            && forall j | 0 <= j < |xs| :: xs[j].chainHash == ys[j].chainHash && SameByName(xs[j], ys[j])
  {
    forall j | 0 <= j < |xs| && j < |ys| ensures SameCovered(xs[j], ys[j]) <==> SameByName(xs[j], ys[j]) {
      CoveredByName(xs[j], ys[j]);
    }
  }

  lemma SameEventsGrow(xs: seq<AuditEvent>, ys: seq<AuditEvent>, n: nat)
    requires |xs| == n + 1 == |ys| && SameEvents(xs[..n], ys[..n])
    requires xs[n].chainHash == ys[n].chainHash && SameCovered(xs[n], ys[n])
    ensures SameEvents(xs, ys)
  {
    forall j | 0 <= j < |xs| ensures xs[j].chainHash == ys[j].chainHash && SameCovered(xs[j], ys[j]) {
      if j < n { assert xs[j] == xs[..n][j] && ys[j] == ys[..n][j]; }
    }
  }

  lemma TagsCollideWithin(tag: Tag, xs: seq<string>, ys: seq<string>, us: seq<string>, vs: seq<string>)
    requires TagsCollide(tag, xs, ys)
    requires (forall x | x in xs :: x in us) && (forall y | y in ys :: y in vs)
    ensures TagsCollide(tag, us, vs)
  {
    var p, q :| p in xs && q in ys && p != q && tag(p) == tag(q);
    assert p in us && q in vs;
  }

  lemma LastText(text: Texter, events: seq<AuditEvent>)
    requires events != []
    ensures text(events[|events| - 1], LastHash(events[..|events| - 1])) in Texts(text, events)
    ensures forall t | t in Texts(text, events[..|events| - 1]) :: t in Texts(text, events)
  {
    var n := |events| - 1;
    assert Texts(text, events)[n] == text(events[n], LastHash(events[..n]));
  }

  /**
   The last hash of a verified chain fixes its length and every covered field of every event: two
   verified chains that end in one hash are the same chain, or two authenticated texts collide.
   */
  lemma {:induction false} ChainsBind(hash: Hasher, text: Texter, tag: Tag, xs: seq<AuditEvent>, ys: seq<AuditEvent>)
    requires Authenticates(hash, text, tag) && WellFormedEvents(xs) && WellFormedEvents(ys)
    requires ChainValid(hash, xs) && ChainValid(hash, ys) && LastHash(xs) == LastHash(ys)
    ensures SameEvents(xs, ys) || TagsCollide(tag, Texts(text, xs), Texts(text, ys))
    decreases |xs|
  {
    var m, n := |xs| - 1, |ys| - 1;
    var p, q := LastHash(xs[..m]), LastHash(ys[..n]);
    EntriesBind(hash, text, tag, xs[m], p, m, ys[n], q, n);
    LastText(text, xs);
    LastText(text, ys);
    if text(xs[m], p) == text(ys[n], q) {
      if m > 0 {
        ChainsBind(hash, text, tag, xs[..m], ys[..m]);
        if !SameEvents(xs[..m], ys[..m]) {
          TagsCollideWithin(tag, Texts(text, xs[..m]), Texts(text, ys[..m]), Texts(text, xs), Texts(text, ys));
        }
      }
      if SameEvents(xs[..m], ys[..m]) { SameEventsGrow(xs, ys, m); }
    }
  }

  // ---- The keyless check ----

  datatype Integrity = Intact | EmptyLog | BadPosition(index: nat) | NoHash(index: nat) | Duplicate(index: nat)

  predicate FreshHash(events: seq<AuditEvent>, i: nat)
    requires i < |events|
  {
    events[i].chainHash != "" && forall j | 0 <= j < i :: events[j].chainHash != events[i].chainHash
  }

  predicate IntactAt(events: seq<AuditEvent>, i: nat)
    requires i < |events|
  {
    PositionAt(events[i], i) && FreshHash(events, i)
  }

  predicate IsIntact(events: seq<AuditEvent>) {
    events != [] && forall i | 0 <= i < |events| :: IntactAt(events, i)
  }

  method AssertAuditChainIntegrity(events: seq<AuditEvent>) returns (r: Integrity)
    ensures r.Intact? <==> IsIntact(events)
    ensures r.EmptyLog? <==> events == []
    ensures !r.Intact? && !r.EmptyLog? ==>
              && r.index < |events| && !IntactAt(events, r.index)
              && (forall j | 0 <= j < r.index :: IntactAt(events, j))
              && (r.BadPosition? <==> !PositionAt(events[r.index], r.index))
              && (r.NoHash? ==> events[r.index].chainHash == "")
              && (r.Duplicate? ==> exists j | 0 <= j < r.index :: events[j].chainHash == events[r.index].chainHash)
  {
    if |events| == 0 {
      return EmptyLog;
    }
    var seen: set<string> := {};
    for i := 0 to |events|
      invariant forall s :: s in seen <==> exists j | 0 <= j < i :: events[j].chainHash == s
      invariant forall j | 0 <= j < i :: IntactAt(events, j)
    {
      var event := events[i];
      if event.position != Num(IntNumeral(i)) {
        assert !IntactAt(events, i);
        return BadPosition(i);
      }
      if event.chainHash == "" {
        assert !IntactAt(events, i);
        return NoHash(i);
      }
      if event.chainHash in seen {
        assert !IntactAt(events, i);
        return Duplicate(i);
      }
      assert IntactAt(events, i);
      seen := seen + {event.chainHash};
    }
    return Intact;
  }

  lemma {:induction false} TextsOfPrefix(text: Texter, events: seq<AuditEvent>, n: nat)
    requires n <= |events|
    ensures Texts(text, events[..n]) == Texts(text, events)[..n]
    decreases |events|
  {
    if n < |events| {
      assert events[..|events| - 1][..n] == events[..n];
      TextsOfPrefix(text, events[..|events| - 1], n);
    } else {
      assert events[..n] == events;
    }
  }

  lemma EntryAt(hash: Hasher, events: seq<AuditEvent>, i: nat)
    requires i < |events| && Chained(hash, events)
    ensures PositionAt(events[i], i) && IsDigest(events[i].chainHash)
  {
    PrefixChained(hash, events, i + 1);
    NextPrefix(events, i);
    Extends(hash, events[..i], events[i]);
  }

  /** A chain does not pass through one hash twice. */
  lemma PrefixesCollide(hash: Hasher, text: Texter, tag: Tag, xs: seq<AuditEvent>, ys: seq<AuditEvent>)
    requires Authenticates(hash, text, tag) && WellFormedEvents(xs) && WellFormedEvents(ys)
    requires ChainValid(hash, xs) && ChainValid(hash, ys) && LastHash(xs) == LastHash(ys) && |xs| < |ys|
    ensures TagsCollide(tag, Texts(text, xs), Texts(text, ys))
  {
    ChainsBind(hash, text, tag, xs, ys);
  }

  lemma CollideInPrefixes(tag: Tag, ts: seq<string>, m: nat, n: nat)
    requires m <= |ts| && n <= |ts| && TagsCollide(tag, ts[..m], ts[..n])
    ensures TagsCollide(tag, ts, ts)
  {
    TagsCollideWithin(tag, ts[..m], ts[..n], ts, ts);
  }

  lemma PrefixValid(hash: Hasher, events: seq<AuditEvent>, n: nat)
    requires 0 < n <= |events| && ChainValid(hash, events) && WellFormedEvents(events)
    ensures ChainValid(hash, events[..n]) && WellFormedEvents(events[..n])
    ensures LastHash(events[..n]) == events[n - 1].chainHash
  {
    PrefixChained(hash, events, n);
    forall i | 0 <= i < n ensures EventWellFormed(events[..n][i]) {
      assert events[..n][i] == events[i];
    }
  }

  lemma RepeatCollides(hash: Hasher, text: Texter, tag: Tag, events: seq<AuditEvent>, m: nat, n: nat)
    requires Authenticates(hash, text, tag) && ChainValid(hash, events) && WellFormedEvents(events)
    requires 0 < m < n <= |events| && events[m - 1].chainHash == events[n - 1].chainHash
    ensures TagsCollide(tag, Texts(text, events), Texts(text, events))
  {
    var xs, ys := events[..m], events[..n];
    PrefixValid(hash, events, m);
    PrefixValid(hash, events, n);
    PrefixesCollide(hash, text, tag, xs, ys);
    TextsOfPrefix(text, events, m);
    TextsOfPrefix(text, events, n);
    CollideInPrefixes(tag, Texts(text, events), m, n);
  }

  /** The keyed check is the stronger one: what it accepts the keyless check accepts, unless two entries collide. */
  lemma KeyedImpliesKeyless(hash: Hasher, text: Texter, tag: Tag, events: seq<AuditEvent>)
    requires Authenticates(hash, text, tag) && ChainValid(hash, events) && WellFormedEvents(events)
    ensures IsIntact(events) || TagsCollide(tag, Texts(text, events), Texts(text, events))
  {
    if !IsIntact(events) {
      var i: nat :| i < |events| && !IntactAt(events, i);
      EntryAt(hash, events, i);
      var j: nat :| j < i && events[j].chainHash == events[i].chainHash;
      RepeatCollides(hash, text, tag, events, j + 1, i + 1);
    }
  }

  /** The entry at a place is valid after the one before it. */
  predicate LinkAt(hash: Hasher, events: seq<AuditEvent>, i: nat)
    requires i < |events|
  {
    EntryValid(hash, events[i], LastHash(events[..i]), i)
  }

  ghost predicate Linked(hash: Hasher, events: seq<AuditEvent>) {
    forall i | 0 <= i < |events| :: LinkAt(hash, events, i)
  }

  lemma LinksExtend(hash: Hasher, events: seq<AuditEvent>, n: nat)
    requires |events| == n + 1
    ensures Linked(hash, events) <==> Linked(hash, events[..n]) && EntryValid(hash, events[n], LastHash(events[..n]), n)
  {
    forall i | 0 <= i < n ensures LinkAt(hash, events[..n], i) <==> LinkAt(hash, events, i) {
      assert events[..n][..i] == events[..i];
    }
    assert LinkAt(hash, events, n) <==> EntryValid(hash, events[n], LastHash(events[..n]), n);
    if Linked(hash, events[..n]) && LinkAt(hash, events, n) {
      forall i | 0 <= i < |events| ensures LinkAt(hash, events, i) {
        if i < n { assert LinkAt(hash, events[..n], i); }
      }
    }
  }

  /** A chain is valid exactly when each of its links is. */
  lemma {:induction false} ChainedExactlyLinks(hash: Hasher, events: seq<AuditEvent>)
    ensures Chained(hash, events) <==> Linked(hash, events)
    decreases |events|
  {
    if events != [] {
      var n := |events| - 1;
      ChainedExactlyLinks(hash, events[..n]);
      LinksExtend(hash, events, n);
      Extends(hash, events[..n], events[n]);
      assert events == events[..n] + [events[n]];
    }
  }

  /** Its own index, and the hash of its fields over the hash before it, the empty string for the first entry. */
  predicate LinkByName(hash: Hasher, events: seq<AuditEvent>, i: nat)
    requires i < |events|
  {
    var h := hash(events[i], if i == 0 then "" else events[i - 1].chainHash);
    events[i].position == Num(IntText(i)) && h.Some? && h.value == events[i].chainHash
  }

  lemma LinkNamed(hash: Hasher, events: seq<AuditEvent>, i: nat)
    requires i < |events|
    ensures LinkAt(hash, events, i) <==> LinkByName(hash, events, i)
  {
    assert i > 0 ==> events[..i][i - 1] == events[i - 1];
  }

  /** A list is chained exactly when each entry, told by name, links to the one before. */
  lemma ChainedByName(hash: Hasher, events: seq<AuditEvent>)
    ensures Chained(hash, events) <==> forall i | 0 <= i < |events| :: LinkByName(hash, events, i)
  {
    ChainedExactlyLinks(hash, events);
    forall i | 0 <= i < |events| ensures LinkAt(hash, events, i) <==> LinkByName(hash, events, i) {
      LinkNamed(hash, events, i);
    }
  }

  /** Any list of events, renumbered and given hashes of the forger's choice. */
  function Forged(events: seq<AuditEvent>, tags: seq<string>): (r: seq<AuditEvent>)
    requires |tags| == |events|
    ensures |r| == |events|
  {
    seq(|events|, i requires 0 <= i < |events| =>
      events[i].(position := Num(IntNumeral(i)), chainHash := tags[i]))
  }

  ghost predicate NewTag(tags: seq<string>, i: nat)
    requires i < |tags|
  {
    tags[i] != "" && forall j | 0 <= j < i :: tags[j] != tags[i]
  }

  /** The keyless check authenticates nothing: it accepts any events at all, under any distinct non-empty hashes. */
  lemma KeylessAcceptsForgery(events: seq<AuditEvent>, tags: seq<string>)
    requires |tags| == |events| != 0
    ensures IsIntact(Forged(events, tags)) <==> forall i | 0 <= i < |tags| :: NewTag(tags, i)
  {
    var forged := Forged(events, tags);
    forall i | 0 <= i < |tags| ensures IntactAt(forged, i) <==> NewTag(tags, i) {
      assert forall j | 0 <= j < i :: forged[j].chainHash == tags[j];
    }
  }

  /** The forger's hash at a place is the true hash of the event put there, chained onto the forger's hash before. */
  ghost predicate TagIsTrue(hash: Hasher, events: seq<AuditEvent>, tags: seq<string>, i: nat)
    requires |tags| == |events| && i < |events|
  {
    HashMatches(hash, Forged(events, tags)[i], if i == 0 then "" else tags[i - 1])
  }

  /** The keyed check accepts a forgery exactly when every hash of it is the one only the key gives. */
  lemma KeyedRejectsForgery(hash: Hasher, events: seq<AuditEvent>, tags: seq<string>)
    requires |tags| == |events| != 0
    ensures ChainValid(hash, Forged(events, tags)) <==> forall i | 0 <= i < |events| :: TagIsTrue(hash, events, tags, i)
  {
    var forged := Forged(events, tags);
    ChainedExactlyLinks(hash, forged);
    forall i | 0 <= i < |events| ensures LinkAt(hash, forged, i) <==> TagIsTrue(hash, events, tags, i) {
      assert LastHash(forged[..i]) == if i == 0 then "" else tags[i - 1];
    }
  }

  // ---- The chain of the audit layer ----

  /** The chain key is derived through the signing oracle, an HMAC under the secret. */
  function ChainKey(mac: Mac, secret: string): Digest {
    mac(secret, DOMAIN_CHAIN)
  }

  function ChainHasher(mac: Mac, secret: string): Hasher {
    (e, prev) => ComputeChainHash(mac, ChainKey(mac, secret), e, prev)
  }

  function ChainText(e: AuditEvent, prev: string): string {
    StableText(Preimage(e, prev))
  }

  function ChainTag(mac: Mac, secret: string): Tag {
    text => mac(ChainKey(mac, secret), text)
  }

  lemma EqualTextsSameEvents(a: AuditEvent, p: string, b: AuditEvent, q: string)
    requires EventWellFormed(a) && EventWellFormed(b)
    requires Printable(Preimage(a, p)) && Printable(Preimage(b, q)) && ChainText(a, p) == ChainText(b, q)
    ensures p == q && SameCovered(a, b)
  {
    PreimageWellFormed(a, p);
    PreimageWellFormed(b, q);
    CanonicalExact(Preimage(a, p), Preimage(b, q));
    SamePreimage(a, p, b, q);
  }

  /** The HMAC of the canonical preimage authenticates the previous hash and every covered field. */
  lemma HmacAuthenticates(mac: Mac, secret: string)
    ensures Authenticates(ChainHasher(mac, secret), ChainText, ChainTag(mac, secret))
  {
    var hash := ChainHasher(mac, secret);
    forall a: AuditEvent, p: string, b: AuditEvent, q: string ensures TextBinds(hash, ChainText, a, p, b, q) {
      if EventWellFormed(a) && EventWellFormed(b) && hash(a, p).Some? && hash(b, q).Some?
         && ChainText(a, p) == ChainText(b, q) {
        EqualTextsSameEvents(a, p, b, q);
      }
    }
    forall a: AuditEvent, p: string ensures IsTagOfText(hash, ChainText, ChainTag(mac, secret), a, p) {
    }
  }

  /** Two secrets' chain keys give one HMAC on the preimage of the entry at a place. */
  ghost predicate KeysAgreeAt(mac: Mac, secret: string, other: string, events: seq<AuditEvent>, i: nat)
    requires i < |events|
  {
    var text := ChainText(events[i], LastHash(events[..i]));
    mac(ChainKey(mac, secret), text) == mac(ChainKey(mac, other), text)
  }

  lemma LinkUnderOther(mac: Mac, secret: string, other: string, events: seq<AuditEvent>, i: nat)
    requires i < |events| && LinkAt(ChainHasher(mac, secret), events, i)
    ensures LinkAt(ChainHasher(mac, other), events, i) <==> KeysAgreeAt(mac, secret, other, events, i)
  {
  }

  /**
   A chain made under one secret is valid under another exactly when the two chain keys give one HMAC on
   every preimage of the chain: without the key, each entry is another HMAC to come by.
   */
  lemma OtherSecretAcceptsExactlyWhen(mac: Mac, secret: string, other: string, events: seq<AuditEvent>)
    requires ChainValid(ChainHasher(mac, secret), events)
    ensures ChainValid(ChainHasher(mac, other), events)
       <==> forall i | 0 <= i < |events| :: KeysAgreeAt(mac, secret, other, events, i)
  {
    ChainedExactlyLinks(ChainHasher(mac, secret), events);
    ChainedExactlyLinks(ChainHasher(mac, other), events);
    forall i | 0 <= i < |events|
      ensures LinkAt(ChainHasher(mac, other), events, i) <==> KeysAgreeAt(mac, secret, other, events, i)
    {
      LinkUnderOther(mac, secret, other, events, i);
    }
  }

  /**
   What the verifier compares an event's hash with, from the bottom up: an HMAC, under the key that the
   secret's HMAC of the chain domain gives, of a text that reads back as the domain, the previous hash and
   each of the eighteen fields under its own key.
   */
  lemma AuditHashText(mac: Mac, secret: string, e: AuditEvent, prev: string)
    returns (text: string, ms: seq<Member>, fs: seq<Member>)
    requires ChainHasher(mac, secret)(e, prev).Some?
    ensures ChainHasher(mac, secret)(e, prev) == Some(mac(mac(secret, "mcpose/v2/chain"), text))
    ensures Parse(text) == Some(JObj(ms)) && Find(ms, "domain") == Some(JStr("mcpose/v2/chain"))
    ensures Find(ms, "prevChainHash") == Some(JStr(prev)) && Find(ms, "event") == Some(JObj(fs)) && HoldsFields(fs, e)
  {
    text, ms, fs := HashedTextHolds(mac, ChainKey(mac, secret), e, prev);
  }

  method VerifyAuditChain(mac: Mac, secret: string, events: seq<AuditEvent>) returns (r: ChainVerification)
    ensures r.Valid? <==> ChainValid(ChainHasher(mac, secret), events)
    ensures events == [] ==> r == Invalid(0, EmptyList)
    ensures events != [] && !r.Valid? ==>
              && r.index < |events| && Chained(ChainHasher(mac, secret), events[..r.index])
              && Explains(ChainHasher(mac, secret), events[r.index], LastHash(events[..r.index]), r.index, r)
  {
    r := VerifyChain(ChainHasher(mac, secret), events);
  }

  /** Two lists that verify under one secret and end in one chainHash are the same events, or two preimages collide. */
  lemma VerifiedChainsBind(mac: Mac, secret: string, xs: seq<AuditEvent>, ys: seq<AuditEvent>)
    requires WellFormedEvents(xs) && WellFormedEvents(ys)
    requires ChainValid(ChainHasher(mac, secret), xs) && ChainValid(ChainHasher(mac, secret), ys)
    requires LastHash(xs) == LastHash(ys)
    ensures SameEvents(xs, ys) || TagsCollide(ChainTag(mac, secret), Texts(ChainText, xs), Texts(ChainText, ys))
  {
    HmacAuthenticates(mac, secret);
    ChainsBind(ChainHasher(mac, secret), ChainText, ChainTag(mac, secret), xs, ys);
  }
}
