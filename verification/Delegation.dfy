/** The delegation chain on the wire, and along a path of proxies. */
module Delegation {
  import opened Text
  import opened Json
  import opened Records

  const META_KEY: string := "mcpose/delegation"
  const MAX_CHAIN_ENTRIES: nat := 32

  datatype IdentityType = Human | Agent | Service
  datatype Source = Jwt | Mtls | ApiKey | Custom

  datatype Identity = Identity(
    sub: string,
    kind: IdentityType,
    displayName: Option<string>,
    roles: seq<string>,
    claims: seq<(string, string)>,
    resolvedAt: string,
    source: Source)

  function TypeText(t: IdentityType): string {
    match t
    case Human => "human"
    case Agent => "agent"
    case Service => "service"
  }

  function SourceText(s: Source): string {
    match s
    case Jwt => "jwt"
    case Mtls => "mtls"
    case ApiKey => "apikey"
    case Custom => "custom"
  }

  function TypeOf(v: Option<Value>): Option<IdentityType> {
    if v == Some(Str("human")) then Some(Human)
    else if v == Some(Str("agent")) then Some(Agent)
    else if v == Some(Str("service")) then Some(Service)
    else None
  }

  function SourceOf(v: Option<Value>): Source {
    if v == Some(Str("jwt")) then Jwt
    else if v == Some(Str("mtls")) then Mtls
    else if v == Some(Str("apikey")) then ApiKey
    else Custom
  }

  // ---- Timestamps ----

  predicate Digits(s: string, i: nat, n: nat) {
    i + n <= |s| && forall j | i <= j < i + n :: IsDigit(s[j])
  }

  predicate IsZone(s: string) {
    s == "Z" || (|s| == 6 && (s[0] == '+' || s[0] == '-') && Digits(s, 1, 2) && s[3] == ':' && Digits(s, 4, 2))
  }

  /** How many digits a string starts with. */
  function DigitRun(s: string): (n: nat)
    ensures n <= |s|
  {
    if s != "" && IsDigit(s[0]) then 1 + DigitRun(s[1..]) else 0
  }

  /** A date, a time with optional fraction, and a zone. */
  predicate HasIsoShape(s: string) {
    && |s| > 19 && Digits(s, 0, 4) && s[4] == '-' && Digits(s, 5, 2) && s[7] == '-' && Digits(s, 8, 2) && s[10] == 'T'
    && Digits(s, 11, 2) && s[13] == ':' && Digits(s, 14, 2) && s[16] == ':' && Digits(s, 17, 2)
    && if s[19] == '.' then var n := DigitRun(s[20..]); n > 0 && IsZone(s[20 + n..]) else IsZone(s[19..])
  }

  /** A string fits a picture in which 9 stands for any digit and every other character for itself. */
  predicate Fits(s: string, picture: string) {
    && |s| == |picture|
    && forall j | 0 <= j < |s| :: if picture[j] == '9' then IsDigit(s[j]) else s[j] == picture[j]
  }

  predicate FitsZone(s: string) {
    Fits(s, "Z") || Fits(s, "+99:99") || Fits(s, "-99:99")
  }

  const MOMENT: string := "9999-99-99T99:99:99"

  lemma ZonesFit(s: string)
    ensures IsZone(s) <==> FitsZone(s)
  {
    var plus, minus := "+99:99", "-99:99";
    assert plus[0] == '+' && plus[3] == ':' && minus[0] == '-' && minus[3] == ':' && "Z"[0] == 'Z';
    if IsZone(s) && s != "Z" {
      assert IsDigit(s[1]) && IsDigit(s[2]) && IsDigit(s[4]) && IsDigit(s[5]);
      assert Fits(s, if s[0] == '+' then plus else minus);
    }
    if Fits(s, "Z") { assert s == "Z"; }
  }

  /** A fraction of at least one digit and a zone, from the character after the dot on. */
  ghost predicate FitsFraction(s: string) {
    exists n: nat | 0 < n <= |s| :: Digits(s, 0, n) && FitsZone(s[n..])
  }

  lemma {:induction false} RunOfDigits(s: string, n: nat)
    requires n < |s| && Digits(s, 0, n) && !IsDigit(s[n])
    ensures DigitRun(s) == n
  {
    if n > 0 {
      assert Digits(s[1..], 0, n - 1) && s[1..][n - 1] == s[n];
      RunOfDigits(s[1..], n - 1);
    }
  }

  lemma {:induction false} RunIsDigits(s: string)
    ensures Digits(s, 0, DigitRun(s))
  {
    if s != "" && IsDigit(s[0]) {
      RunIsDigits(s[1..]);
      assert forall j | 1 <= j < DigitRun(s) :: s[j] == s[1..][j - 1];
    }
  }

  lemma FractionFits(s: string)
    ensures FitsFraction(s) <==> DigitRun(s) > 0 && IsZone(s[DigitRun(s)..])
  {
    RunIsDigits(s);
    ZonesFit(s[DigitRun(s)..]);
    if FitsFraction(s) {
      var n: nat :| 0 < n <= |s| && Digits(s, 0, n) && FitsZone(s[n..]);
      ZonesFit(s[n..]);
      assert s[n..][0] == s[n];
      RunOfDigits(s, n);
    }
  }

  lemma MomentFits(s: string)
    requires |s| > 19
    ensures Fits(s[..19], MOMENT) <==>
            && Digits(s, 0, 4) && s[4] == '-' && Digits(s, 5, 2) && s[7] == '-' && Digits(s, 8, 2) && s[10] == 'T'
            && Digits(s, 11, 2) && s[13] == ':' && Digits(s, 14, 2) && s[16] == ':' && Digits(s, 17, 2)
  {
    var p := MOMENT;
    assert p[0] == p[1] == p[2] == p[3] == p[5] == p[6] == p[8] == p[9] == '9';
    assert p[11] == p[12] == p[14] == p[15] == p[17] == p[18] == '9';
    assert p[4] == p[7] == '-' && p[10] == 'T' && p[13] == p[16] == ':';
  }

  /** A timestamp is taken exactly when it is a date and time, an optional fraction, and a zone, as pictured. */
  lemma IsoShapeFits(s: string)
    ensures HasIsoShape(s) <==> |s| > 19 && Fits(s[..19], "9999-99-99T99:99:99")
                                && (FitsZone(s[19..]) || (s[19] == '.' && FitsFraction(s[20..])))
  {
    if |s| > 19 {
      MomentFits(s);
      ZonesFit(s[19..]);
      FractionFits(s[20..]);
      assert s[19..][0] == s[19];
    }
  }

  /** What the date parser makes of a string is a parameter: whether it is a date at all. */
  type DateParser = string -> bool

  predicate IsIsoTimestamp(isDate: DateParser, s: string) {
    HasIsoShape(s) && isDate(s)
  }

  // ---- The wire ----

  const ENTRY_KEYS: seq<string> := ["sub", "type", "displayName", "resolvedAt", "source"]

  function EntryParts(x: Identity): (vs: seq<Value>)
    ensures |vs| == 5
  {
    [Str(x.sub), Str(TypeText(x.kind)), if x.displayName.None? then Undefined else Str(x.displayName.value),
     Str(x.resolvedAt), Str(SourceText(x.source))]
  }

  /** The displayName key is left out when there is none. */
  function WireEntry(x: Identity): Value {
    Record(ENTRY_KEYS, {2}, EntryParts(x))
  }

  function WireEntries(chain: seq<Identity>): (r: seq<Value>)
    ensures |r| == |chain|
  {
    seq(|chain|, i requires 0 <= i < |chain| => WireEntry(chain[i]))
  }

  const PAYLOAD_KEYS: seq<string> := ["v", "chain"]

  /** The payload under META_KEY: version 1, and the chain without roles and claims. */
  function SerializeDelegationChain(chain: seq<Identity>): Value {
    Record(PAYLOAD_KEYS, {}, [Num("1"), Arr(WireEntries(chain))])
  }

  datatype Inbound = NoChain | Chain(chain: seq<Identity>) | Rejected

  /** One presented entry as this proxy takes it: whatever roles or claims it had are dropped. */
  function ReadFields(isDate: DateParser, receivedAt: string, sub: Option<Value>, kind: Option<Value>,
                      name: Option<Value>, at: Option<Value>, source: Option<Value>): Option<Identity>
  {
    if sub.None? || !sub.value.Str? || sub.value.s == "" || TypeOf(kind).None? then None
    else
      Some(Identity(sub.value.s, TypeOf(kind).value,
                    if name.Some? && name.value.Str? then Some(name.value.s) else None, [], [],
                    if at.Some? && at.value.Str? && IsIsoTimestamp(isDate, at.value.s) then at.value.s else receivedAt,
                    SourceOf(source)))
  }

  function ReadEntry(isDate: DateParser, receivedAt: string, v: Value): Option<Identity> {
    if !v.Obj? then None
    else ReadFields(isDate, receivedAt, Get(v.entries, "sub"), Get(v.entries, "type"), Get(v.entries, "displayName"),
                    Get(v.entries, "resolvedAt"), Get(v.entries, "source"))
  }

  type Reader = Value -> Option<Identity>

  function EntryReader(isDate: DateParser, receivedAt: string): Reader {
    v => ReadEntry(isDate, receivedAt, v)
  }

  /** All entries, or None when one of them is malformed. */
  function ReadEntries(read: Reader, vs: seq<Value>): (r: Option<seq<Identity>>)
    ensures r.Some? ==> |r.value| == |vs|
    decreases |vs|
  {
    if vs == [] then Some([])
    else
      var n := |vs| - 1;
      var before, last := ReadEntries(read, vs[..n]), read(vs[n]);
      if before.None? || last.None? then None else Some(before.value + [last.value])
  }

  /** What the payload says, by its shape: None for no payload. */
  function ReadPayload(isDate: DateParser, receivedAt: string, payload: Option<Value>): Inbound {
    if payload.None? then NoChain
    else if !payload.value.Obj? || Get(payload.value.entries, "v") != Some(Num("1")) then Rejected
    else
      var wire := Get(payload.value.entries, "chain");
      if wire.None? || !wire.value.Arr? || |wire.value.items| > MAX_CHAIN_ENTRIES then Rejected
      else
        var chain := ReadEntries(EntryReader(isDate, receivedAt), wire.value.items);
        if chain.None? then Rejected else if chain.value == [] then NoChain else Chain(chain.value)
  }

  /** The payload of a request's _meta; a _meta that is not an object has none. */
  function PayloadOf(meta: Value): Option<Value> {
    if meta.Obj? then Get(meta.entries, META_KEY) else None
  }

  method ReadChain(read: Reader, items: seq<Value>) returns (chain: Option<seq<Identity>>)
    ensures chain == ReadEntries(read, items)
  {
    var entries: seq<Identity> := [];
    for i := 0 to |items|
      invariant ReadEntries(read, items[..i]) == Some(entries)
    {
      var entry := read(items[i]);
      assert items[..i + 1][..i] == items[..i];
      if entry.None? {
        EntriesRejected(read, items, i);
        return None;
      }
      entries := entries + [entry.value];
    }
    assert items[..|items|] == items;
    return Some(entries);
  }

  method ReadInboundDelegation(isDate: DateParser, receivedAt: string, meta: Value) returns (r: Inbound)
    ensures r == ReadPayload(isDate, receivedAt, PayloadOf(meta))
  {
    var payload := PayloadOf(meta);
    if payload.None? {
      return NoChain;
    }
    if !payload.value.Obj? || Get(payload.value.entries, "v") != Some(Num("1")) {
      return Rejected;
    }
    var wire := Get(payload.value.entries, "chain");
    if wire.None? || !wire.value.Arr? || |wire.value.items| > MAX_CHAIN_ENTRIES {
      return Rejected;
    }
    var chain := ReadChain(EntryReader(isDate, receivedAt), wire.value.items);
    if chain.None? {
      return Rejected;
    }
    return if |chain.value| == 0 then NoChain else Chain(chain.value);
  }

  lemma {:induction false} EntriesRejected(read: Reader, vs: seq<Value>, i: nat)
    requires i < |vs| && read(vs[i]).None?
    ensures ReadEntries(read, vs).None?
    decreases |vs|
  {
    var n := |vs| - 1;
    if i < n { EntriesRejected(read, vs[..n], i); }
  }

  // ---- Round trip ----

  predicate WellFormedIdentity(isDate: DateParser, x: Identity) {
    x.sub != "" && IsIsoTimestamp(isDate, x.resolvedAt)
  }

  /** What a proxy makes of an identity it reads: no roles, no claims, and a timestamp it can parse. */
  function Received(isDate: DateParser, receivedAt: string, x: Identity): Identity {
    x.(roles := [], claims := [],
       resolvedAt := if IsIsoTimestamp(isDate, x.resolvedAt) then x.resolvedAt else receivedAt)
  }

  function ReceivedAll(isDate: DateParser, receivedAt: string, chain: seq<Identity>): (r: seq<Identity>)
    ensures |r| == |chain|
  {
    seq(|chain|, i requires 0 <= i < |chain| => Received(isDate, receivedAt, chain[i]))
  }

  lemma EntryKeysDistinct()
    ensures Distinct(ENTRY_KEYS) && Distinct(PAYLOAD_KEYS)
  {
    assert |ENTRY_KEYS[0]| == 3 && |ENTRY_KEYS[1]| == 4 && |ENTRY_KEYS[2]| == 11;
    assert |ENTRY_KEYS[3]| == 10 && |ENTRY_KEYS[4]| == 6;
    assert |PAYLOAD_KEYS[0]| == 1 && |PAYLOAD_KEYS[1]| == 5;
  }

  lemma EntryFields(x: Identity)
    ensures var es := WireEntry(x).entries;
            && Get(es, "sub") == Some(Str(x.sub)) && Get(es, "type") == Some(Str(TypeText(x.kind)))
            && Get(es, "displayName") == (if x.displayName.None? then None else Some(Str(x.displayName.value)))
            && Get(es, "resolvedAt") == Some(Str(x.resolvedAt)) && Get(es, "source") == Some(Str(SourceText(x.source)))
  {
    var vs := EntryParts(x);
    EntryKeysDistinct();
    RecordAt(ENTRY_KEYS, {2}, vs, 0, 0);
    RecordAt(ENTRY_KEYS, {2}, vs, 0, 1);
    RecordAt(ENTRY_KEYS, {2}, vs, 0, 2);
    RecordAt(ENTRY_KEYS, {2}, vs, 0, 3);
    RecordAt(ENTRY_KEYS, {2}, vs, 0, 4);
  }

  /** An entry on the wire, key by key: words for type and source, no display name where there is none. */
  predicate EntryByName(v: Value, x: Identity) {
    && Under(v, "sub", Str(x.sub))
    && Under(v, "type", Str(match x.kind case Human => "human" case Agent => "agent" case Service => "service"))
    && Under(v, "displayName", if x.displayName.Some? then Str(x.displayName.value) else Undefined)
    && Under(v, "resolvedAt", Str(x.resolvedAt))
    && Under(v, "source", Str(match x.source case Jwt => "jwt" case Mtls => "mtls" case ApiKey => "apikey"
                                             case Custom => "custom"))
  }

  lemma EntryNamed(x: Identity)
    ensures EntryByName(WireEntry(x), x)
  {
    EntryFields(x);
  }

  /** Whatever else an entry could carry, roles and claims among it, is not on the wire. */
  lemma NothingElseOnWire(x: Identity, k: string)
    requires Get(WireEntry(x).entries, k).Some?
    ensures k in ["sub", "type", "displayName", "resolvedAt", "source"]
  {
    if k !in ENTRY_KEYS { AbsentKey(ENTRY_KEYS, {2}, EntryParts(x), k); }
  }

  /** The payload, key by key: version 1 and the entries in order. */
  lemma WireByName(chain: seq<Identity>) returns (vs: seq<Value>)
    ensures Under(SerializeDelegationChain(chain), "v", Num("1"))
    ensures Under(SerializeDelegationChain(chain), "chain", Arr(vs))
    ensures |vs| == |chain| && forall i | 0 <= i < |chain| :: EntryByName(vs[i], chain[i])
  {
    EntryKeysDistinct();
    vs := WireEntries(chain);
    RecordAt(PAYLOAD_KEYS, {}, [Num("1"), Arr(vs)], 0, 0);
    RecordAt(PAYLOAD_KEYS, {}, [Num("1"), Arr(vs)], 0, 1);
    forall i | 0 <= i < |chain| ensures EntryByName(vs[i], chain[i]) { EntryNamed(chain[i]); }
  }

  /** An entry is taken exactly when it is an object with a non-empty sub and one of the three types. */
  lemma EntryTakenExactlyWhen(isDate: DateParser, receivedAt: string, v: Value)
    ensures ReadEntry(isDate, receivedAt, v).Some?
       <==> && v.Obj? && (exists sub: string :: sub != "" && Get(v.entries, "sub") == Some(Str(sub)))
            && (Get(v.entries, "type") == Some(Str("human")) || Get(v.entries, "type") == Some(Str("agent"))
                || Get(v.entries, "type") == Some(Str("service")))
  {
    if v.Obj? && ReadEntry(isDate, receivedAt, v).Some? {
      var sub := Get(v.entries, "sub").value.s;
      assert sub != "" && Get(v.entries, "sub") == Some(Str(sub));
    }
  }

  /** What is taken of an entry: its words, a display name and a timestamp where they are such, and no privilege. */
  lemma EntryTaken(isDate: DateParser, receivedAt: string, v: Value)
    requires ReadEntry(isDate, receivedAt, v).Some?
    ensures v.Obj?
    ensures var x := ReadEntry(isDate, receivedAt, v).value;
            && Get(v.entries, "sub") == Some(Str(x.sub)) && x.roles == [] && x.claims == []
            && (x.displayName.Some? ==> Get(v.entries, "displayName") == Some(Str(x.displayName.value)))
            && (x.displayName.None? ==> !exists s: string :: Get(v.entries, "displayName") == Some(Str(s)))
            && (forall t: string :: Get(v.entries, "resolvedAt") == Some(Str(t)) ==>
                  x.resolvedAt == if IsIsoTimestamp(isDate, t) then t else receivedAt)
            && ((forall t: string :: Get(v.entries, "resolvedAt") != Some(Str(t))) ==> x.resolvedAt == receivedAt)
            && (x.source != Custom ==>
                  Get(v.entries, "source")
                  == Some(Str(if x.source == Jwt then "jwt" else if x.source == Mtls then "mtls" else "apikey")))
  {
  }

  lemma TextsRoundTrip(t: IdentityType, s: Source)
    ensures TypeOf(Some(Str(TypeText(t)))) == Some(t) && SourceOf(Some(Str(SourceText(s)))) == s
  {
    assert "human"[0] == 'h' && "agent"[0] == 'a' && "service"[0] == 's';
    assert "jwt"[0] == 'j' && "mtls"[0] == 'm' && "apikey"[0] == 'a' && "custom"[0] == 'c';
  }

  lemma FieldsRoundTrip(isDate: DateParser, receivedAt: string, x: Identity)
    ensures ReadFields(isDate, receivedAt, Some(Str(x.sub)), Some(Str(TypeText(x.kind))),
                       if x.displayName.None? then None else Some(Str(x.displayName.value)),
                       Some(Str(x.resolvedAt)), Some(Str(SourceText(x.source))))
         == if x.sub == "" then None else Some(Received(isDate, receivedAt, x))
  {
    TextsRoundTrip(x.kind, x.source);
  }

  /** An entry reads back as it was, emptied of roles and claims; one without a sub is rejected. */
  lemma EntryRoundTrip(isDate: DateParser, receivedAt: string, x: Identity)
    ensures ReadEntry(isDate, receivedAt, WireEntry(x))
         == if x.sub == "" then None else Some(Received(isDate, receivedAt, x))
  {
    EntryFields(x);
    FieldsRoundTrip(isDate, receivedAt, x);
  }

  lemma {:induction false} EntriesRead(read: Reader, vs: seq<Value>, got: seq<Identity>)
    requires |vs| == |got| && forall i | 0 <= i < |vs| :: read(vs[i]) == Some(got[i])
    ensures ReadEntries(read, vs) == Some(got)
    decreases |vs|
  {
    if vs != [] {
      var n := |vs| - 1;
      EntriesRead(read, vs[..n], got[..n]);
      assert got == got[..n] + [got[n]];
    }
  }

  lemma EntriesRoundTrip(isDate: DateParser, receivedAt: string, chain: seq<Identity>)
    requires AllNamed(chain)
    ensures ReadEntries(EntryReader(isDate, receivedAt), WireEntries(chain))
         == Some(ReceivedAll(isDate, receivedAt, chain))
  {
    var read := EntryReader(isDate, receivedAt);
    forall i | 0 <= i < |chain| ensures read(WireEntries(chain)[i]) == Some(ReceivedAll(isDate, receivedAt, chain)[i]) {
      EntryRoundTrip(isDate, receivedAt, chain[i]);
    }
    EntriesRead(read, WireEntries(chain), ReceivedAll(isDate, receivedAt, chain));
  }

  lemma PayloadFields(chain: seq<Identity>)
    ensures var es := SerializeDelegationChain(chain).entries;
            Get(es, "v") == Some(Num("1")) && Get(es, "chain") == Some(Arr(WireEntries(chain)))
  {
    var vs := [Num("1"), Arr(WireEntries(chain))];
    EntryKeysDistinct();
    RecordAt(PAYLOAD_KEYS, {}, vs, 0, 0);
    RecordAt(PAYLOAD_KEYS, {}, vs, 0, 1);
  }

  predicate AllNamed(chain: seq<Identity>) {
    forall i | 0 <= i < |chain| :: chain[i].sub != ""
  }

  /** Reading what was serialized: rejected exactly when it is too long or an entry has no sub. */
  lemma ReadUndoesSerialize(isDate: DateParser, receivedAt: string, chain: seq<Identity>)
    ensures ReadPayload(isDate, receivedAt, Some(SerializeDelegationChain(chain)))
         == if |chain| > MAX_CHAIN_ENTRIES || !AllNamed(chain) then Rejected
            else if chain == [] then NoChain else Chain(ReceivedAll(isDate, receivedAt, chain))
  {
    PayloadFields(chain);
    if AllNamed(chain) {
      EntriesRoundTrip(isDate, receivedAt, chain);
    } else {
      NamelessRejected(isDate, receivedAt, chain);
    }
  }

  lemma NamelessRejected(isDate: DateParser, receivedAt: string, chain: seq<Identity>)
    requires !AllNamed(chain)
    ensures ReadEntries(EntryReader(isDate, receivedAt), WireEntries(chain)).None?
  {
    var i: nat :| i < |chain| && chain[i].sub == "";
    EntryRoundTrip(isDate, receivedAt, chain[i]);
    EntriesRejected(EntryReader(isDate, receivedAt), WireEntries(chain), i);
  }

  /** For chains of 1 to 32 well-formed entries the wire loses the roles and the claims, and nothing else. */
  lemma WireLosesOnlyPrivileges(isDate: DateParser, receivedAt: string, chain: seq<Identity>)
    requires 1 <= |chain| <= MAX_CHAIN_ENTRIES && forall i | 0 <= i < |chain| :: WellFormedIdentity(isDate, chain[i])
    ensures var r := ReadPayload(isDate, receivedAt, Some(SerializeDelegationChain(chain)));
            && r.Chain? && |r.chain| == |chain|
            && forall i | 0 <= i < |chain| :: r.chain[i] == chain[i].(roles := [], claims := [])
  {
    ReadUndoesSerialize(isDate, receivedAt, chain);
  }

  // ---- Across proxies ----

  /** The context of a call: the chain it came with, and the identity the proxy resolved. */
  datatype Context = Context(delegatedFrom: seq<Identity>, identity: Option<Identity>)

  function OutboundDelegationChain(ctx: Context): seq<Identity> {
    ctx.delegatedFrom + if ctx.identity.None? then [] else [ctx.identity.value]
  }

  predicate DetectDelegationLoop(ctx: Context) {
    ctx.identity.Some? && exists i | 0 <= i < |ctx.delegatedFrom| :: ctx.delegatedFrom[i].sub == ctx.identity.value.sub
  }

  /** What a proxy forwards for a call that came with a payload: None when it rejects the call. */
  function Hop(isDate: DateParser, receivedAt: string, payload: Option<Value>, identity: Identity): Option<Value> {
    var inbound := ReadPayload(isDate, receivedAt, payload);
    if inbound.Rejected? then None
    else
      var ctx := Context(if inbound.Chain? then inbound.chain else [], Some(identity));
      if DetectDelegationLoop(ctx) then None else Some(SerializeDelegationChain(OutboundDelegationChain(ctx)))
  }

  /** A call along a path of proxies, each resolving an identity for its caller, starting with no chain. */
  function Along(isDate: DateParser, receivedAt: string, path: seq<Identity>): Option<Option<Value>>
    decreases |path|
  {
    if path == [] then Some(None)
    else
      var n := |path| - 1;
      var before := Along(isDate, receivedAt, path[..n]);
      if before.None? then None
      else
        var sent := Hop(isDate, receivedAt, before.value, path[n]);
        if sent.None? then None else Some(sent)
  }

  predicate DistinctSubs(chain: seq<Identity>) {
    forall i, j | 0 <= i < j < |chain| :: chain[i].sub != chain[j].sub
  }

  /** The forwarded chain names the proxies' identities in the order of the path. */
  predicate Names(chain: seq<Identity>, path: seq<Identity>) {
    |chain| == |path| && forall i | 0 <= i < |path| :: chain[i].sub == path[i].sub
  }

  lemma HopFirst(isDate: DateParser, receivedAt: string, identity: Identity)
    ensures Hop(isDate, receivedAt, None, identity) == Some(SerializeDelegationChain([identity]))
  {
    assert OutboundDelegationChain(Context([], Some(identity))) == [identity];
  }

  predicate NameIn(chain: seq<Identity>, sub: string) {
    exists i | 0 <= i < |chain| :: chain[i].sub == sub
  }

  /** A hop extends the chain it reads, unless the chain is unreadable or already names the caller. */
  lemma HopExtends(isDate: DateParser, receivedAt: string, chain: seq<Identity>, identity: Identity)
    requires chain != []
    ensures Hop(isDate, receivedAt, Some(SerializeDelegationChain(chain)), identity)
         == if |chain| > MAX_CHAIN_ENTRIES || !AllNamed(chain) || NameIn(chain, identity.sub) then None
            else Some(SerializeDelegationChain(ReceivedAll(isDate, receivedAt, chain) + [identity]))
  {
    ReadUndoesSerialize(isDate, receivedAt, chain);
    var received := ReceivedAll(isDate, receivedAt, chain);
    assert forall i | 0 <= i < |chain| :: received[i].sub == chain[i].sub;
    assert DetectDelegationLoop(Context(received, Some(identity))) <==> NameIn(chain, identity.sub) by {
      if NameIn(chain, identity.sub) {
        var i: nat :| i < |chain| && chain[i].sub == identity.sub;
        assert received[i].sub == identity.sub;
      }
    }
  }

  lemma ExtendNames(isDate: DateParser, receivedAt: string, inner: seq<Identity>, path: seq<Identity>,
      identity: Identity)
    requires Names(inner, path)
    ensures Names(ReceivedAll(isDate, receivedAt, inner) + [identity], path + [identity])
    ensures !NameIn(inner, identity.sub) && DistinctSubs(path) <==> DistinctSubs(path + [identity])
  {
    var longer := path + [identity];
    assert forall i | 0 <= i < |path| :: longer[i] == path[i] && inner[i].sub == path[i].sub;
    if !NameIn(inner, identity.sub) && DistinctSubs(path) {
      forall i, j | 0 <= i < j < |longer| ensures longer[i].sub != longer[j].sub {
        if j == |path| { assert inner[i].sub == longer[i].sub; }
      }
    }
    if DistinctSubs(longer) {
      forall i | 0 <= i < |inner| ensures inner[i].sub != identity.sub {
        assert longer[i].sub != longer[|path|].sub;
      }
      forall i, j | 0 <= i < j < |path| ensures path[i].sub != path[j].sub {
        assert longer[i].sub != longer[j].sub;
      }
    }
  }

  lemma NamedAlong(inner: seq<Identity>, path: seq<Identity>)
    requires Names(inner, path)
    ensures AllNamed(inner) <==> AllNamed(path)
  {
    assert forall i | 0 <= i < |path| :: inner[i].sub == path[i].sub;
  }

  /** One more proxy on the path. */
  lemma AlongStep(isDate: DateParser, receivedAt: string, before: seq<Identity>, last: Identity, inner: seq<Identity>)
    requires before != [] && Along(isDate, receivedAt, before) == Some(Some(SerializeDelegationChain(inner)))
    requires Names(inner, before) && DistinctSubs(before)
    ensures Along(isDate, receivedAt, before + [last])
         == if |before| <= MAX_CHAIN_ENTRIES && AllNamed(before) && DistinctSubs(before + [last])
            then Some(Some(SerializeDelegationChain(ReceivedAll(isDate, receivedAt, inner) + [last]))) else None
  {
    assert (before + [last])[..|before|] == before;
    HopExtends(isDate, receivedAt, inner, last);
    ExtendNames(isDate, receivedAt, inner, before, last);
    NamedAlong(inner, before);
  }

  /** What a path needs to get through: distinct subs, at most 33 of them, and none empty but the last. */
  predicate Passable(path: seq<Identity>) {
    DistinctSubs(path) && |path| <= MAX_CHAIN_ENTRIES + 1 && (path != [] ==> AllNamed(path[..|path| - 1]))
  }

  lemma PassablePrefix(before: seq<Identity>, last: Identity)
    requires before != []
    ensures Passable(before + [last])
       <==> Passable(before) && AllNamed(before) && |before| <= MAX_CHAIN_ENTRIES && DistinctSubs(before + [last])
  {
    var path := before + [last];
    assert path[..|before|] == before;
    assert AllNamed(before) ==> AllNamed(before[..|before| - 1]);
    if DistinctSubs(path) {
      forall i, j | 0 <= i < j < |before| ensures before[i].sub != before[j].sub { assert path[i].sub != path[j].sub; }
    }
  }

  /** The state of a call after a path: forwarded with a chain that names the path, or rejected on the way. */
  lemma {:induction false} AlongPath(isDate: DateParser, receivedAt: string,
      path: seq<Identity>) returns (chain: seq<Identity>)
    requires path != []
    ensures Passable(path) ==>
              Names(chain, path) && Along(isDate, receivedAt, path) == Some(Some(SerializeDelegationChain(chain)))
    ensures !Passable(path) ==> Along(isDate, receivedAt, path).None?
    decreases |path|
  {
    var n := |path| - 1;
    var before, last := path[..n], path[n];
    assert path == before + [last];
    if n == 0 {
      chain := [last];
      HopFirst(isDate, receivedAt, last);
    } else {
      var inner := AlongPath(isDate, receivedAt, before);
      PassablePrefix(before, last);
      if Passable(before) {
        AlongStep(isDate, receivedAt, before, last, inner);
        ExtendNames(isDate, receivedAt, inner, before, last);
      }
      chain := ReceivedAll(isDate, receivedAt, inner) + [last];
    }
  }

  /**
   A call travels a path of proxies that resolve identities, from no chain and with none stamped by a host,
   exactly when the path names nobody twice, no more than 33 proxies, and nobody without a sub before the
   last; and then the chain that arrives names the path in order.
   */
  lemma PathsAreShortAndLoopFree(isDate: DateParser, receivedAt: string, path: seq<Identity>)
    ensures Along(isDate, receivedAt, path).Some? <==> Passable(path)
    ensures Passable(path) && path != [] ==>
              exists chain :: Names(chain, path)
                              && Along(isDate, receivedAt, path) == Some(Some(SerializeDelegationChain(chain)))
  {
    if path != [] { var chain := AlongPath(isDate, receivedAt, path); }
  }
}
