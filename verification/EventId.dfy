/** Cursors of the Redis event store: a percent-encoded stream id, a colon, and a Redis entry id. */
module EventId {
  import opened Text

  // ---- Bytes and percent escapes (section 2.1 of RFC 3986) ----

  type Byte = b: nat | b < 256

  /** What encodeURIComponent leaves alone. */
  predicate Unreserved(c: char) {
    'A' <= c <= 'Z' || 'a' <= c <= 'z' || IsDigit(c)
    || c == '-' || c == '_' || c == '.' || c == '!' || c == '~' || c == '*' || c == '\'' || c == '(' || c == ')'
  }

  function UpperHex(n: nat): (c: char)
    requires n < 16
  {
    if n < 10 then (48 + n) as char else (55 + n) as char
  }

  function Escape(b: Byte): string {
    ['%', UpperHex(b / 16), UpperHex(b % 16)]
  }

  /** The byte a string's leading escape stands for. */
  function Unescape(s: string): (r: Option<Byte>)
    ensures r.Some? ==> |s| >= 3
  {
    if |s| < 3 || s[0] != '%' || Nibble(s[1]).None? || Nibble(s[2]).None? then None
    else Some(16 * Nibble(s[1]).value + Nibble(s[2]).value)
  }

  // ---- UTF-8 (section 3 of RFC 3629) ----

  function Escapes(bs: seq<Byte>): string {
    if bs == [] then "" else Escape(bs[0]) + Escapes(bs[1..])
  }

  function Utf8(c: char): seq<Byte> {
    var n := c as int;
    if n < 0x80 then [n]
    else if n < 0x800 then [0xC0 + n / 0x40, 0x80 + n % 0x40]
    else if n < 0x10000 then [0xE0 + n / 0x1000, 0x80 + n / 0x40 % 0x40, 0x80 + n % 0x40]
    else [0xF0 + n / 0x40000, 0x80 + n / 0x1000 % 0x40, 0x80 + n / 0x40 % 0x40, 0x80 + n % 0x40]
  }

  function EncodeChar(c: char): string {
    if Unreserved(c) then [c] else Escapes(Utf8(c))
  }

  function EncodeURIComponent(s: string): string {
    if s == [] then "" else EncodeChar(s[0]) + EncodeURIComponent(s[1..])
  }

  /** Letters, digits and nine marks stand for themselves, and no other character does. */
  lemma LeftAlone(c: char)
    ensures EncodeChar(c) == [c] <==> 'A' <= c <= 'Z' || 'a' <= c <= 'z' || '0' <= c <= '9' || c in "-_.!~*'()"
  {
    if !Unreserved(c) { assert |EncodeChar(c)| >= 3; }
  }

  /** Every other byte is a percent sign and its two upper-case hex digits. */
  lemma EscapeInHex(b: Byte)
    ensures Escape(b) == ['%', "0123456789ABCDEF"[b / 16], "0123456789ABCDEF"[b % 16]]
  {
  }

  lemma EscapesPrefix(b: Byte, bs: seq<Byte>)
    ensures Escapes([b] + bs) == Escape(b) + Escapes(bs)
  {
    assert ([b] + bs)[1..] == bs;
  }

  lemma TwoBytes()
    ensures EncodeChar('\U{E9}') == "%C3%A9"
  {
    assert Utf8('\U{E9}') == [0xC3] + ([0xA9] + []);
    EscapesPrefix(0xC3, [0xA9]);
    EscapesPrefix(0xA9, []);
  }

  lemma ThreeBytes()
    ensures EncodeChar('\U{20AC}') == "%E2%82%AC"
  {
    assert Utf8('\U{20AC}') == [0xE2] + ([0x82] + ([0xAC] + []));
    EscapesPrefix(0xE2, [0x82, 0xAC]);
    EscapesPrefix(0x82, [0xAC]);
    EscapesPrefix(0xAC, []);
  }

  lemma FourBytes()
    ensures EncodeChar('\U{1F600}') == "%F0%9F%98%80"
  {
    assert Utf8('\U{1F600}') == [0xF0] + ([0x9F] + ([0x98] + ([0x80] + [])));
    EscapesPrefix(0xF0, [0x9F, 0x98, 0x80]);
    EscapesPrefix(0x9F, [0x98, 0x80]);
    EscapesPrefix(0x98, [0x80]);
    EscapesPrefix(0x80, []);
  }

  /** Characters of one, two, three and four bytes, as encodeURIComponent writes them. */
  lemma CharacterTexts()
    ensures EncodeChar('/') == "%2F" && EncodeChar('\U{E9}') == "%C3%A9"
    ensures EncodeChar('\U{20AC}') == "%E2%82%AC" && EncodeChar('\U{1F600}') == "%F0%9F%98%80"
  {
    EscapesPrefix(0x2F, []);
    assert Utf8('/') == [0x2F] + [];
    TwoBytes();
    ThreeBytes();
    FourBytes();
  }

  /** A code point that is a character: not a surrogate, and in range. */
  predicate IsScalar(n: int) {
    0 <= n < 0xD800 || 0xE000 <= n < 0x110000
  }

  /** The continuation byte at a place, without its marker bits. */
  function Tail(s: string): (r: Option<nat>)
    ensures r.Some? ==> |s| >= 3 && r.value < 0x40
  {
    var b := Unescape(s);
    if b.Some? && 0x80 <= b.value < 0xC0 then Some(b.value - 0x80) else None
  }

  /** The character a run of escapes starts with, and how many escapes it takes; None if they are not UTF-8. */
  function Decoded(s: string): (r: Option<(char, nat)>)
    ensures r.Some? ==> 3 <= 3 * r.value.1 <= |s|
  {
    var lead := Unescape(s);
    if lead.None? then None
    else if lead.value < 0x80 then Some((lead.value as char, 1))
    else
      var t1 := Tail(s[3..]);
      if t1.None? then None
      else if 0xC2 <= lead.value < 0xE0 then Some((((lead.value - 0xC0) * 0x40 + t1.value) as char, 2))
      else
        var t2 := Tail(s[6..]);
        if t2.None? then None
        else if 0xE0 <= lead.value < 0xF0 then
          var n := (lead.value - 0xE0) * 0x1000 + t1.value * 0x40 + t2.value;
          if n >= 0x800 && IsScalar(n) then Some((n as char, 3)) else None
        else
          var t3 := Tail(s[9..]);
          if t3.None? || !(0xF0 <= lead.value < 0xF8) then None
          else
            var n := (lead.value - 0xF0) * 0x40000 + t1.value * 0x1000 + t2.value * 0x40 + t3.value;
            if n >= 0x10000 && IsScalar(n) then Some((n as char, 4)) else None
  }

  /** None is the URIError of a malformed escape. */
  function DecodeURIComponent(s: string): Option<string> {
    if s == [] then Some("")
    else if s[0] != '%' then
      var rest := DecodeURIComponent(s[1..]);
      if rest.None? then None else Some([s[0]] + rest.value)
    else
      var first := Decoded(s);
      if first.None? then None
      else
        var rest := DecodeURIComponent(s[3 * first.value.1..]);
        if rest.None? then None else Some([first.value.0] + rest.value)
  }

  lemma EscapeRoundTrip(b: Byte, rest: string)
    ensures Unescape(Escape(b) + rest) == Some(b) && (Escape(b) + rest)[3..] == rest
  {
    var s := Escape(b) + rest;
    assert s[0] == '%' && s[1] == UpperHex(b / 16) && s[2] == UpperHex(b % 16);
  }

  lemma TailRoundTrip(n: nat, rest: string)
    requires n < 0x40
    ensures Tail(Escape(0x80 + n) + rest) == Some(n) && (Escape(0x80 + n) + rest)[3..] == rest
  {
    EscapeRoundTrip(0x80 + n, rest);
  }

  lemma DecodeOne(n: nat, rest: string)
    requires n < 0x80
    ensures Decoded(Escape(n) + rest) == Some((n as char, 1))
  {
    EscapeRoundTrip(n, rest);
  }

  lemma DecodeTwo(a: nat, b: nat, rest: string)
    requires 2 <= a < 0x20 && b < 0x40
    ensures Decoded(Escape(0xC0 + a) + (Escape(0x80 + b) + rest)) == Some(((a * 0x40 + b) as char, 2))
  {
    EscapeRoundTrip(0xC0 + a, Escape(0x80 + b) + rest);
    TailRoundTrip(b, rest);
  }

  lemma DecodeThree(a: nat, b: nat, c: nat, rest: string)
    requires a < 0x10 && b < 0x40 && c < 0x40 && a * 0x1000 + b * 0x40 + c >= 0x800
    requires IsScalar(a * 0x1000 + b * 0x40 + c)
    ensures Decoded(Escape(0xE0 + a) + (Escape(0x80 + b) + (Escape(0x80 + c) + rest)))
         == Some(((a * 0x1000 + b * 0x40 + c) as char, 3))
  {
    ThreeEscapes(a, b, c, rest);
  }

  lemma ThreeEscapes(a: nat, b: nat, c: nat, rest: string)
    requires a < 0x10 && b < 0x40 && c < 0x40
    ensures var s := Escape(0xE0 + a) + (Escape(0x80 + b) + (Escape(0x80 + c) + rest));
            && |s| >= 9 && Unescape(s) == Some(0xE0 + a)
            && Tail(s[3..]) == Some(b) && Tail(s[6..]) == Some(c)
  {
    var s := Escape(0xE0 + a) + (Escape(0x80 + b) + (Escape(0x80 + c) + rest));
    EscapeRoundTrip(0xE0 + a, Escape(0x80 + b) + (Escape(0x80 + c) + rest));
    TailRoundTrip(b, Escape(0x80 + c) + rest);
    TailRoundTrip(c, rest);
    assert s[6..] == s[3..][3..];
  }

  lemma FourEscapes(a: nat, b: nat, c: nat, d: nat, rest: string)
    requires a < 8 && b < 0x40 && c < 0x40 && d < 0x40
    ensures var s := Escape(0xF0 + a) + (Escape(0x80 + b) + (Escape(0x80 + c) + (Escape(0x80 + d) + rest)));
            && |s| >= 12 && Unescape(s) == Some(0xF0 + a)
            && Tail(s[3..]) == Some(b) && Tail(s[6..]) == Some(c) && Tail(s[9..]) == Some(d)
  {
    var s := Escape(0xF0 + a) + (Escape(0x80 + b) + (Escape(0x80 + c) + (Escape(0x80 + d) + rest)));
    EscapeRoundTrip(0xF0 + a, Escape(0x80 + b) + (Escape(0x80 + c) + (Escape(0x80 + d) + rest)));
    TailRoundTrip(b, Escape(0x80 + c) + (Escape(0x80 + d) + rest));
    TailRoundTrip(c, Escape(0x80 + d) + rest);
    TailRoundTrip(d, rest);
    assert s[6..] == s[3..][3..] && s[9..] == s[6..][3..];
  }

  lemma DecodeFour(a: nat, b: nat, c: nat, d: nat, rest: string)
    requires a < 8 && b < 0x40 && c < 0x40 && d < 0x40
    requires a * 0x40000 + b * 0x1000 + c * 0x40 + d >= 0x10000 && IsScalar(a * 0x40000 + b * 0x1000 + c * 0x40 + d)
    ensures Decoded(Escape(0xF0 + a) + (Escape(0x80 + b) + (Escape(0x80 + c) + (Escape(0x80 + d) + rest))))
         == Some(((a * 0x40000 + b * 0x1000 + c * 0x40 + d) as char, 4))
  {
    FourEscapes(a, b, c, d, rest);
  }

  lemma EscapesOf(bs: seq<Byte>, rest: string)
    ensures |bs| == 1 ==> Escapes(bs) + rest == Escape(bs[0]) + rest
    ensures |bs| == 2 ==> Escapes(bs) + rest == Escape(bs[0]) + (Escape(bs[1]) + rest)
    ensures |bs| == 3 ==> Escapes(bs) + rest == Escape(bs[0]) + (Escape(bs[1]) + (Escape(bs[2]) + rest))
    ensures |bs| == 4 ==>
              Escapes(bs) + rest == Escape(bs[0]) + (Escape(bs[1]) + (Escape(bs[2]) + (Escape(bs[3]) + rest)))
  {
    if |bs| > 0 && |bs| <= 4 {
      var one := bs[1..];
      assert Escapes(bs) == Escape(bs[0]) + Escapes(one);
      if |bs| == 1 {
        assert Escapes(one) == "";
      } else {
        EscapesOf(one, rest);
        assert Escapes(bs) + rest == Escape(bs[0]) + (Escapes(one) + rest);
      }
    }
  }

  lemma EscapedLength(bs: seq<Byte>)
    ensures |Escapes(bs)| == 3 * |bs|
  {
    if bs != [] { EscapedLength(bs[1..]); }
  }

  lemma CharTwo(c: char, rest: string)
    requires 0x80 <= c as int < 0x800
    ensures Decoded(Escapes(Utf8(c)) + rest) == Some((c, 2))
  {
    EscapesOf(Utf8(c), rest);
    DecodeTwo(c as int / 0x40, c as int % 0x40, rest);
  }

  lemma Utf8Three(c: char) returns (x: nat, y: nat, z: nat)
    requires 0x800 <= c as int < 0x10000
    ensures x < 0x10 && y < 0x40 && z < 0x40 && x * 0x1000 + y * 0x40 + z == c as int
    ensures Utf8(c) == [0xE0 + x, 0x80 + y, 0x80 + z]
  {
    var n := c as int;
    var m := n / 0x40;
    x, y, z := n / 0x1000, m % 0x40, n % 0x40;
    assert n == m * 0x40 + z && m == m / 0x40 * 0x40 + y && m / 0x40 == x;
  }

  lemma Utf8Four(c: char) returns (w: nat, x: nat, y: nat, z: nat)
    requires 0x10000 <= c as int
    ensures w < 8 && x < 0x40 && y < 0x40 && z < 0x40 && w * 0x40000 + x * 0x1000 + y * 0x40 + z == c as int
    ensures Utf8(c) == [0xF0 + w, 0x80 + x, 0x80 + y, 0x80 + z]
  {
    var n := c as int;
    var m := n / 0x40;
    var k := m / 0x40;
    w, x, y, z := n / 0x40000, k % 0x40, m % 0x40, n % 0x40;
    assert n == m * 0x40 + z && m == k * 0x40 + y && k == k / 0x40 * 0x40 + x;
    assert k == n / 0x1000 && k / 0x40 == w;
  }

  lemma CharThree(c: char, rest: string)
    requires 0x800 <= c as int < 0x10000
    ensures Decoded(Escapes(Utf8(c)) + rest) == Some((c, 3))
  {
    var x, y, z := Utf8Three(c);
    EscapesOf(Utf8(c), rest);
    DecodeThree(x, y, z, rest);
  }

  lemma CharFour(c: char, rest: string)
    requires 0x10000 <= c as int
    ensures Decoded(Escapes(Utf8(c)) + rest) == Some((c, 4))
  {
    var w, x, y, z := Utf8Four(c);
    EscapesOf(Utf8(c), rest);
    DecodeFour(w, x, y, z, rest);
  }

  /** Decoding the escapes of a character gives it back, whatever follows. */
  lemma CharRoundTrip(c: char, rest: string)
    ensures Decoded(Escapes(Utf8(c)) + rest) == Some((c, |Utf8(c)|))
  {
    if c as int < 0x80 {
      EscapesOf(Utf8(c), rest);
      DecodeOne(c as int, rest);
    } else if c as int < 0x800 {
      CharTwo(c, rest);
    } else if c as int < 0x10000 {
      CharThree(c, rest);
    } else {
      CharFour(c, rest);
    }
  }

  /** decodeURIComponent undoes encodeURIComponent. */
  lemma {:induction false} ComponentRoundTrip(s: string)
    ensures DecodeURIComponent(EncodeURIComponent(s)) == Some(s)
  {
    if s != [] {
      var c, rest := s[0], EncodeURIComponent(s[1..]);
      ComponentRoundTrip(s[1..]);
      assert s == [c] + s[1..];
      if Unreserved(c) {
        assert ([c] + rest)[1..] == rest;
      } else {
        CharRoundTrip(c, rest);
        EscapedLength(Utf8(c));
        var e := Escapes(Utf8(c));
        assert (e + rest)[|e|..] == rest;
        assert e[0] == '%';
      }
    }
  }

  lemma {:induction false} EncodedHasNoColon(s: string)
    ensures ':' !in EncodeURIComponent(s)
  {
    if s != [] {
      EncodedHasNoColon(s[1..]);
      EscapesHaveNoColon(Utf8(s[0]));
    }
  }

  lemma {:induction false} EscapesHaveNoColon(bs: seq<Byte>)
    ensures ':' !in Escapes(bs)
  {
    if bs != [] { EscapesHaveNoColon(bs[1..]); }
  }

  // ---- Entry ids ----

  const MAX_STREAM_ID: nat := 9223372036854775807

  predicate AllDigits(s: string) {
    forall c | c in s :: IsDigit(c)
  }

  predicate IsHalf(s: string) {
    1 <= |s| <= 19 && AllDigits(s) && NatValue(s) <= MAX_STREAM_ID
  }

  function IndexOf(s: string, c: char): (r: Option<nat>)
    ensures r.Some? ==> r.value < |s| && s[r.value] == c && c !in s[..r.value]
    ensures r.None? ==> c !in s
  {
    if s == [] then None
    else if s[0] == c then Some(0)
    else
      var r := IndexOf(s[1..], c);
      if r.None? then None
      else
        assert s[..r.value + 1] == [s[0]] + s[1..][..r.value];
        Some(r.value + 1)
  }

  /** Two runs of at most 19 digits around one dash, each a signed 64-bit integer. */
  predicate IsStreamId(entryId: string) {
    var dash := IndexOf(entryId, '-');
    dash.Some? && IsHalf(entryId[..dash.value]) && IsHalf(entryId[dash.value + 1..])
  }

  /** Of two runs of digits around a dash, those with at most 19 digits and below 2^63 each. */
  lemma AcceptedExactlyWhen(ms: string, number: string)
    requires AllDigits(ms) && AllDigits(number)
    ensures IsStreamId(ms + "-" + number)
       <==> && 1 <= |ms| <= 19 && 1 <= |number| <= 19
            && NatValue(ms) <= 9223372036854775807 && NatValue(number) <= 9223372036854775807
  {
    var id := ms + "-" + number;
    var dash := IndexOf(id, '-');
    assert id[|ms|] == '-';
    assert forall j | 0 <= j < |ms| :: id[j] == ms[j] && ms[j] in ms;
    assert dash == Some(|ms|);
    assert id[..|ms|] == ms && id[|ms| + 1..] == number;
  }

  /** And nothing of any other form. */
  lemma AcceptedForm(entryId: string) returns (ms: string, number: string)
    requires IsStreamId(entryId)
    ensures entryId == ms + "-" + number && AllDigits(ms) && AllDigits(number)
  {
    var dash := IndexOf(entryId, '-').value;
    ms, number := entryId[..dash], entryId[dash + 1..];
  }

  // ---- Cursors ----

  function EventIdFor(streamId: string, entryId: string): string {
    EncodeURIComponent(streamId) + ":" + entryId
  }

  function LastIndexOf(s: string, c: char): (r: Option<nat>)
    ensures r.Some? ==> r.value < |s| && s[r.value] == c && forall j | r.value < j < |s| :: s[j] != c
    ensures r.None? ==> forall j | 0 <= j < |s| :: s[j] != c
  {
    if s == [] then None
    else if s[|s| - 1] == c then Some(|s| - 1)
    else LastIndexOf(s[..|s| - 1], c)
  }

  /** The stream id and entry id of a cursor, or None when it is not one. */
  function ParseEventId(eventId: string): Option<(string, string)> {
    var sep := LastIndexOf(eventId, ':');
    if sep.None? || sep.value == 0 then None
    else
      var entryId := eventId[sep.value + 1..];
      if !IsStreamId(entryId) then None
      else
        var streamId := DecodeURIComponent(eventId[..sep.value]);
        if streamId.None? then None else Some((streamId.value, entryId))
  }

  lemma StreamIdHasNoColon(entryId: string)
    requires IsStreamId(entryId)
    ensures ':' !in entryId
  {
    var dash := IndexOf(entryId, '-').value;
    assert entryId == entryId[..dash] + ['-'] + entryId[dash + 1..];
    assert forall c | c in entryId[..dash] :: IsDigit(c);
    assert forall c | c in entryId[dash + 1..] :: IsDigit(c);
  }

  lemma EncodedNotEmpty(s: string)
    ensures EncodeURIComponent(s) == "" <==> s == ""
  {
    if s != "" && !Unreserved(s[0]) { EscapedLength(Utf8(s[0])); }
  }

  lemma {:induction false} SeparatorIsLast(a: string, b: string)
    requires ':' !in b
    ensures LastIndexOf(a + ":" + b, ':') == Some(|a|)
    decreases |b|
  {
    var s := a + ":" + b;
    if b == "" {
      assert s[|s| - 1] == ':';
    } else {
      var n := |b| - 1;
      assert s[|s| - 1] == b[n] && b[n] in b;
      assert s[..|s| - 1] == a + ":" + b[..n];
      SeparatorIsLast(a, b[..n]);
    }
  }

  lemma ParsedIsStreamId(eventId: string)
    ensures ParseEventId(eventId).Some? ==> IsStreamId(ParseEventId(eventId).value.1)
  {
  }

  lemma ParseOwn(streamId: string, entryId: string)
    requires IsStreamId(entryId)
    ensures ParseEventId(EventIdFor(streamId, entryId)) == if streamId == "" then None else Some((streamId, entryId))
  {
    var a := EncodeURIComponent(streamId);
    var s := a + ":" + entryId;
    StreamIdHasNoColon(entryId);
    SeparatorIsLast(a, entryId);
    ComponentRoundTrip(streamId);
    EncodedNotEmpty(streamId);
    assert s[..|a|] == a && s[|a| + 1..] == entryId;
  }

  /**
   Parsing undoes building exactly for a stream id that is not empty and an entry id Redis accepts; every
   character of the stream id comes back, whatever it is.
   */
  lemma ParseUndoesBuild(streamId: string, entryId: string)
    ensures ParseEventId(EventIdFor(streamId, entryId)) == Some((streamId, entryId))
       <==> streamId != "" && IsStreamId(entryId)
  {
    if IsStreamId(entryId) {
      ParseOwn(streamId, entryId);
    } else {
      ParsedIsStreamId(EventIdFor(streamId, entryId));
    }
  }

  /** Cursors of different events are different. */
  lemma CursorsInjective(s: string, e: string, t: string, f: string)
    requires s != "" && t != "" && IsStreamId(e) && IsStreamId(f) && EventIdFor(s, e) == EventIdFor(t, f)
    ensures s == t && e == f
  {
    ParseUndoesBuild(s, e);
    ParseUndoesBuild(t, f);
  }

  // ---- Replay from a Redis stream ----

  /** One entry of a Redis stream; the payload field may be missing. */
  datatype RedisEntry = RedisEntry(id: string, payload: Option<string>)

  /** The entries of a stream from an entry id on, that id included. */
  type Range = (string, string) -> seq<RedisEntry>

  datatype Sent = Sent(cursor: string, payload: string)

  function Sends(streamId: string, entries: seq<RedisEntry>): seq<Sent> {
    if entries == [] then []
    else
      var n := |entries| - 1;
      Sends(streamId, entries[..n])
      + if entries[n].payload.None? then [] else [Sent(EventIdFor(streamId, entries[n].id), entries[n].payload.value)]
  }

  /** Everything after the cursor's own entry, which must still be there; an unknown cursor replays nothing. */
  method ReplayEventsAfter(xRange: Range, lastEventId: string) returns (streamId: string, sent: seq<Sent>)
    ensures var parsed := ParseEventId(lastEventId);
            if parsed.None? || xRange(parsed.value.0, parsed.value.1) == []
               || xRange(parsed.value.0, parsed.value.1)[0].id != parsed.value.1
            then streamId == "" && sent == []
            else streamId == parsed.value.0 && sent == Sends(streamId, xRange(parsed.value.0, parsed.value.1)[1..])
  {
    var parsed := ParseEventId(lastEventId);
    if parsed.None? {
      return "", [];
    }
    var entries := xRange(parsed.value.0, parsed.value.1);
    if |entries| == 0 || entries[0].id != parsed.value.1 {
      return "", [];
    }
    streamId := parsed.value.0;
    sent := [];
    var later := entries[1..];
    for i := 0 to |later|
      invariant sent == Sends(streamId, later[..i])
    {
      assert later[..i + 1][..i] == later[..i];
      if later[i].payload.Some? {
        sent := sent + [Sent(EventIdFor(streamId, later[i].id), later[i].payload.value)];
      }
    }
    assert later[..|later|] == later;
  }

  lemma DecodedNotEmpty(s: string)
    requires s != "" && DecodeURIComponent(s).Some?
    ensures DecodeURIComponent(s).value != ""
  {
  }

  lemma {:induction false} SentCursor(streamId: string, entries: seq<RedisEntry>, k: nat) returns (i: nat)
    requires k < |Sends(streamId, entries)|
    ensures i < |entries| && Sends(streamId, entries)[k].cursor == EventIdFor(streamId, entries[i].id)
    decreases |entries|
  {
    var n := |entries| - 1;
    if k < |Sends(streamId, entries[..n])| {
      i := SentCursor(streamId, entries[..n], k);
    } else {
      i := n;
    }
  }

  /** Every cursor a replay sends resumes the same stream at the event it was sent with. */
  lemma SentCursorsResume(lastEventId: string, entries: seq<RedisEntry>, k: nat) returns (i: nat)
    requires ParseEventId(lastEventId).Some? && forall i | 0 <= i < |entries| :: IsStreamId(entries[i].id)
    requires k < |Sends(ParseEventId(lastEventId).value.0, entries)|
    ensures var streamId := ParseEventId(lastEventId).value.0;
            i < |entries| && ParseEventId(Sends(streamId, entries)[k].cursor) == Some((streamId, entries[i].id))
  {
    var streamId := ParseEventId(lastEventId).value.0;
    ParsedStreamNotEmpty(lastEventId);
    i := SentCursor(streamId, entries, k);
    ParseUndoesBuild(streamId, entries[i].id);
  }

  lemma ParsedStreamNotEmpty(eventId: string)
    requires ParseEventId(eventId).Some?
    ensures ParseEventId(eventId).value.0 != ""
  {
    DecodedNotEmpty(eventId[..LastIndexOf(eventId, ':').value]);
  }
}
