/**
 A parser for printed JSON documents, and the proof that it reads every printed document back,
 whatever follows it. That makes the printed form unambiguous.
 */
module JsonParser {
  import opened Text
  import opened Json

  datatype Parsed<+T> = Failed | Parsed(value: T, rest: string)

  function UnescapeHead(s: string): (r: Parsed<char>)
    requires s != [] && s[0] == '\\'
    ensures r.Parsed? ==> |r.rest| < |s|
  {
    if |s| < 2 then Failed
    else if s[1] == '\"' || s[1] == '\\' then Parsed(s[1], s[2..])
    else if s[1] == 'b' then Parsed(8 as char, s[2..])
    else if s[1] == 'f' then Parsed(12 as char, s[2..])
    else if s[1] == 'n' then Parsed('\n', s[2..])
    else if s[1] == 'r' then Parsed('\r', s[2..])
    else if s[1] == 't' then Parsed('\t', s[2..])
    else if |s| >= 6 && s[1] == 'u' && s[2] == '0' && s[3] == '0' && IsHexDigit(s[4]) && IsHexDigit(s[5]) then
      Parsed((HexValue(s[4]) * 16 + HexValue(s[5])) as char, s[6..])
    else Failed
  }

  /** The rest of a string literal, after its opening quote. */
  function ParseBody(s: string): (r: Parsed<string>)
    ensures r.Parsed? ==> |r.rest| < |s|
    decreases |s|
  {
    if s == [] then Failed
    else if s[0] == '\"' then Parsed("", s[1..])
    else if s[0] as int < 32 then Failed
    else
      var head := if s[0] == '\\' then UnescapeHead(s) else Parsed(s[0], s[1..]);
      if head.Failed? then Failed else
      var tail := ParseBody(head.rest);
      if tail.Failed? then Failed else Parsed([head.value] + tail.value, tail.rest)
  }

  function NumeralSpan(s: string): (n: nat)
    ensures n <= |s| && forall i | 0 <= i < n :: IsNumeralChar(s[i])
    ensures n < |s| ==> !IsNumeralChar(s[n])
  {
    if s == [] || !IsNumeralChar(s[0]) then 0 else 1 + NumeralSpan(s[1..])
  }

  function ParseValue(s: string): (r: Parsed<J>)
    ensures r.Parsed? ==> |r.rest| < |s|
    decreases |s|, 0
  {
    if s == [] then Failed
    else if s[0] == 'n' then if StartsWith(s, "null") then Parsed(JNull, s[4..]) else Failed
    else if s[0] == 't' then if StartsWith(s, "true") then Parsed(JBool(true), s[4..]) else Failed
    else if s[0] == 'f' then if StartsWith(s, "false") then Parsed(JBool(false), s[5..]) else Failed
    else if s[0] == '\"' then
      var body := ParseBody(s[1..]);
      if body.Failed? then Failed else Parsed(JStr(body.value), body.rest)
    else if s[0] == '[' then
      if |s| > 1 && s[1] == ']' then Parsed(JArr([]), s[2..]) else
      var items := ParseItems(s[1..]);
      if items.Failed? then Failed else Parsed(JArr(items.value), items.rest)
    else if s[0] == '{' then
      if |s| > 1 && s[1] == '}' then Parsed(JObj([]), s[2..]) else
      var members := ParseMembers(s[1..]);
      if members.Failed? then Failed else Parsed(JObj(members.value), members.rest)
    else if StartsNumeral(s[0]) then
      var n := NumeralSpan(s);
      Parsed(JNum(s[..n]), s[n..])
    else Failed
  }

  /** One or more items, and the closing bracket. */
  function ParseItems(s: string): (r: Parsed<seq<J>>)
    ensures r.Parsed? ==> |r.rest| < |s|
    decreases |s|, 1
  {
    var item := ParseValue(s);
    if item.Failed? || item.rest == [] then Failed
    else if item.rest[0] == ']' then Parsed([item.value], item.rest[1..])
    else if item.rest[0] == ',' then
      var more := ParseItems(item.rest[1..]);
      if more.Failed? then Failed else Parsed([item.value] + more.value, more.rest)
    else Failed
  }

  function ParseMember(s: string): (r: Parsed<Member>)
    ensures r.Parsed? ==> |r.rest| < |s|
    decreases |s|, 1
  {
    if s == [] || s[0] != '\"' then Failed else
    var key := ParseBody(s[1..]);
    if key.Failed? || key.rest == [] || key.rest[0] != ':' then Failed else
    var value := ParseValue(key.rest[1..]);
    if value.Failed? then Failed else Parsed(Member(key.value, value.value), value.rest)
  }

  /** One or more members, and the closing brace. */
  function ParseMembers(s: string): (r: Parsed<seq<Member>>)
    ensures r.Parsed? ==> |r.rest| < |s|
    decreases |s|, 2
  {
    var m := ParseMember(s);
    if m.Failed? || m.rest == [] then Failed
    else if m.rest[0] == '}' then Parsed([m.value], m.rest[1..])
    else if m.rest[0] == ',' then
      var more := ParseMembers(m.rest[1..]);
      if more.Failed? then Failed else Parsed([m.value] + more.value, more.rest)
    else Failed
  }

  /** A whole document and nothing after it. */
  function Parse(s: string): Option<J> {
    var r := ParseValue(s);
    if r.Parsed? && r.rest == [] then Some(r.value) else None
  }

  // ---- Reading back what was printed ----

  predicate Delimited(rest: string) {
    rest == [] || rest[0] in {',', ']', '}'}
  }

  lemma EscapedHead(c: char, r: string)
    ensures EscapeChar(c)[0] != '\"' && EscapeChar(c)[0] as int >= 32
    ensures EscapeChar(c)[0] == '\\' ==> UnescapeHead(EscapeChar(c) + r) == Parsed(c, r)
    ensures EscapeChar(c)[0] != '\\' ==> EscapeChar(c) == [c]
  {
    var s := EscapeChar(c) + r;
    if EscapeChar(c)[0] == '\\' {
      if |EscapeChar(c)| == 2 {
        assert s[2..] == r;
      } else {
        assert s[4] == HexChar(c as int / 16) && s[5] == HexChar(c as int % 16);
        assert s[6..] == r;
      }
    }
  }

  lemma {:induction false} BodyRoundTrip(t: string, rest: string)
    ensures ParseBody(Escape(t) + "\"" + rest) == Parsed(t, rest)
  {
    var s := Escape(t) + "\"" + rest;
    if t == [] {
      assert s == "\"" + rest;
    } else {
      var tail := Escape(t[1..]) + "\"" + rest;
      assert s == EscapeChar(t[0]) + tail;
      EscapedHead(t[0], tail);
      BodyRoundTrip(t[1..], rest);
      if EscapeChar(t[0])[0] != '\\' {
        assert s[1..] == tail;
      }
      assert [t[0]] + t[1..] == t;
    }
  }

  lemma NumeralRoundTrip(t: Numeral, rest: string)
    requires Delimited(rest)
    ensures ParseValue(t + rest) == Parsed(JNum(t), rest)
  {
    var s := t + rest;
    var n := NumeralSpan(s);
    assert s[0] == t[0];
    assert forall i | 0 <= i < |t| :: s[i] == t[i] && t[i] in t;
    assert rest != [] ==> s[|t|] == rest[0];
    assert n == |t|;
    assert s[..n] == t && s[n..] == rest;
  }

  lemma LiteralRoundTrip(j: J, rest: string)
    requires j.JNull? || j.JBool? || j.JStr?
    ensures ParseValue(Print(j) + rest) == Parsed(j, rest)
  {
    var s := Print(j) + rest;
    match j
    case JNull => assert s[..4] == "null" && s[4..] == rest;
    case JBool(b) =>
      if b {
        assert s[..4] == "true" && s[4..] == rest;
      } else {
        assert s[..5] == "false" && s[5..] == rest;
      }
    case JStr(t) =>
      assert s[1..] == Escape(t) + "\"" + rest;
      BodyRoundTrip(t, rest);
    case _ =>
  }

  /** No printed value begins with a closing bracket. */
  lemma PrintHead(j: J)
    ensures Print(j) != [] && Print(j)[0] !in {',', ']', '}'}
  {
    if j.JBool? { assert Print(j) in {"true", "false"}; }
  }

  lemma EmptyRoundTrip(rest: string)
    ensures ParseValue("[]" + rest) == Parsed(JArr([]), rest)
    ensures ParseValue("{}" + rest) == Parsed(JObj([]), rest)
  {
    assert ("[]" + rest)[2..] == rest && ("{}" + rest)[2..] == rest;
  }

  lemma {:induction false} ValueRoundTrip(j: J, rest: string)
    requires Delimited(rest)
    ensures ParseValue(Print(j) + rest) == Parsed(j, rest)
    decreases j
  {
    match j
    case JNum(t) => NumeralRoundTrip(t, rest);
    case JArr(items) =>
      if items == [] {
        assert Print(j) == "[]";
        EmptyRoundTrip(rest);
      } else {
        ItemsRoundTrip(items, rest);
        ArrayStep(items, rest);
      }
    case JObj(ms) =>
      if ms == [] {
        assert Print(j) == "{}";
        EmptyRoundTrip(rest);
      } else {
        MembersRoundTrip(ms, rest);
        ObjectStep(ms, rest);
      }
    case _ => LiteralRoundTrip(j, rest);
  }

  lemma OpenBracket(t: string, items: seq<J>, rest: string)
    requires t != [] && t[0] != ']' && ParseItems(t) == Parsed(items, rest)
    ensures ParseValue("[" + t) == Parsed(JArr(items), rest)
  {
    assert ("[" + t)[1..] == t;
  }

  lemma OpenBrace(t: string, ms: seq<Member>, rest: string)
    requires t != [] && t[0] != '}' && ParseMembers(t) == Parsed(ms, rest)
    ensures ParseValue("{" + t) == Parsed(JObj(ms), rest)
  {
    assert ("{" + t)[1..] == t;
  }

  lemma ArrayStep(items: seq<J>, rest: string)
    requires items != [] && ParseItems(PrintItems(items) + "]" + rest) == Parsed(items, rest)
    ensures ParseValue(Print(JArr(items)) + rest) == Parsed(JArr(items), rest)
  {
    var t := PrintItems(items) + "]" + rest;
    PrintHead(items[0]);
    assert t[0] == Print(items[0])[0];
    OpenBracket(t, items, rest);
    assert Print(JArr(items)) + rest == "[" + t;
  }

  lemma MembersHead(ms: seq<Member>)
    requires ms != []
    ensures PrintMembers(ms) != [] && PrintMembers(ms)[0] == '\"'
  {
    assert PrintMember(ms[0])[0] == '\"';
  }

  lemma ObjectStep(ms: seq<Member>, rest: string)
    requires ms != [] && ParseMembers(PrintMembers(ms) + "}" + rest) == Parsed(ms, rest)
    ensures ParseValue(Print(JObj(ms)) + rest) == Parsed(JObj(ms), rest)
  {
    var t := PrintMembers(ms) + "}" + rest;
    MembersHead(ms);
    OpenBrace(t, ms, rest);
    assert Print(JObj(ms)) + rest == "{" + t;
  }

  lemma LastItem(t: string, j: J, rest: string)
    requires ParseValue(t) == Parsed(j, "]" + rest)
    ensures ParseItems(t) == Parsed([j], rest)
  {
    assert ("]" + rest)[1..] == rest;
  }

  lemma NextItem(t: string, j: J, after: string, items: seq<J>, rest: string)
    requires ParseValue(t) == Parsed(j, "," + after) && ParseItems(after) == Parsed(items, rest)
    ensures ParseItems(t) == Parsed([j] + items, rest)
  {
    assert ("," + after)[1..] == after;
  }

  lemma Regroup(a: string, b: string, c: string, close: string, rest: string)
    ensures (a + b + c) + close + rest == a + (b + (c + close + rest))
    ensures a + close + rest == a + (close + rest)
  {
  }

  lemma LastItemText(items: seq<J>, rest: string)
    requires |items| == 1
    ensures PrintItems(items) + "]" + rest == Print(items[0]) + ("]" + rest) && [items[0]] == items
  {
    Regroup(Print(items[0]), "", "", "]", rest);
  }

  lemma MoreItemsText(items: seq<J>, rest: string)
    requires |items| > 1
    ensures PrintItems(items) + "]" + rest == Print(items[0]) + ("," + (PrintItems(items[1..]) + "]" + rest))
    ensures [items[0]] + items[1..] == items
  {
    assert PrintItems(items) == Print(items[0]) + "," + PrintItems(items[1..]);
    Regroup(Print(items[0]), ",", PrintItems(items[1..]), "]", rest);
  }

  lemma {:induction false} ItemsRoundTrip(items: seq<J>, rest: string)
    requires items != []
    ensures ParseItems(PrintItems(items) + "]" + rest) == Parsed(items, rest)
    decreases items
  {
    if |items| == 1 {
      LastItemText(items, rest);
      ValueRoundTrip(items[0], "]" + rest);
      LastItem(Print(items[0]) + ("]" + rest), items[0], rest);
    } else {
      var after := PrintItems(items[1..]) + "]" + rest;
      MoreItemsText(items, rest);
      ValueRoundTrip(items[0], "," + after);
      ItemsRoundTrip(items[1..], rest);
      NextItem(Print(items[0]) + ("," + after), items[0], after, items[1..], rest);
    }
  }

  lemma KeyStep(key: string, t: string, value: J, rest: string)
    requires ParseValue(t) == Parsed(value, rest)
    ensures ParseMember("\"" + Escape(key) + "\"" + (":" + t)) == Parsed(Member(key, value), rest)
  {
    var s := "\"" + Escape(key) + "\"" + (":" + t);
    assert s[1..] == Escape(key) + "\"" + (":" + t);
    BodyRoundTrip(key, ":" + t);
    assert (":" + t)[1..] == t;
  }

  lemma MemberText(m: Member, rest: string)
    ensures PrintMember(m) + rest == "\"" + Escape(m.key) + "\"" + (":" + (Print(m.value) + rest))
  {
  }

  lemma {:induction false} MemberRoundTrip(m: Member, rest: string)
    requires Delimited(rest)
    ensures ParseMember(PrintMember(m) + rest) == Parsed(m, rest)
    decreases m
  {
    ValueRoundTrip(m.value, rest);
    KeyStep(m.key, Print(m.value) + rest, m.value, rest);
    MemberText(m, rest);
  }

  lemma LastMember(t: string, m: Member, rest: string)
    requires ParseMember(t) == Parsed(m, "}" + rest)
    ensures ParseMembers(t) == Parsed([m], rest)
  {
    assert ("}" + rest)[1..] == rest;
  }

  lemma NextMember(t: string, m: Member, after: string, ms: seq<Member>, rest: string)
    requires ParseMember(t) == Parsed(m, "," + after) && ParseMembers(after) == Parsed(ms, rest)
    ensures ParseMembers(t) == Parsed([m] + ms, rest)
  {
    assert ("," + after)[1..] == after;
  }

  lemma LastMemberText(ms: seq<Member>, rest: string)
    requires |ms| == 1
    ensures PrintMembers(ms) + "}" + rest == PrintMember(ms[0]) + ("}" + rest) && [ms[0]] == ms
  {
    Regroup(PrintMember(ms[0]), "", "", "}", rest);
  }

  lemma MoreMembersText(ms: seq<Member>, rest: string)
    requires |ms| > 1
    ensures PrintMembers(ms) + "}" + rest == PrintMember(ms[0]) + ("," + (PrintMembers(ms[1..]) + "}" + rest))
    ensures [ms[0]] + ms[1..] == ms
  {
    assert PrintMembers(ms) == PrintMember(ms[0]) + "," + PrintMembers(ms[1..]);
    Regroup(PrintMember(ms[0]), ",", PrintMembers(ms[1..]), "}", rest);
  }

  lemma {:induction false} MembersRoundTrip(ms: seq<Member>, rest: string)
    requires ms != []
    ensures ParseMembers(PrintMembers(ms) + "}" + rest) == Parsed(ms, rest)
    decreases ms
  {
    if |ms| == 1 {
      LastMemberText(ms, rest);
      MemberRoundTrip(ms[0], "}" + rest);
      LastMember(PrintMember(ms[0]) + ("}" + rest), ms[0], rest);
    } else {
      var after := PrintMembers(ms[1..]) + "}" + rest;
      MoreMembersText(ms, rest);
      MemberRoundTrip(ms[0], "," + after);
      MembersRoundTrip(ms[1..], rest);
      NextMember(PrintMember(ms[0]) + ("," + after), ms[0], after, ms[1..], rest);
    }
  }

  /** Every document reads back as itself. */
  lemma ParsePrint(j: J)
    ensures Parse(Print(j)) == Some(j)
  {
    ValueRoundTrip(j, "");
    assert Print(j) + "" == Print(j);
  }
}
