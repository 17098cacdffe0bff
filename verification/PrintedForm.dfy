/** What the canonical text looks like: its key order in UTF-16 units, its leaves and its escapes. */
module PrintedForm {
  import opened Text
  import opened Json
  import opened JsonParser
  import opened Canonical
  import opened ObjectGraph

  // ---- Key order ----

  /** The UTF-16 code units of a string, a surrogate pair for a character above 0xFFFF. */
  function Units(s: string): seq<nat> {
    if s == [] then [] else UnitsOf(s[0]) + Units(s[1..])
  }

  function UnitsOf(c: char): (us: seq<nat>)
    ensures us != []
  {
    var n := c as nat;
    if n < 0x10000 then [n] else [0xD800 + (n - 0x10000) / 0x400, 0xDC00 + (n - 0x10000) % 0x400]
  }

  /** A proper prefix, or the smaller unit at the first difference. */
  ghost predicate Before(x: seq<nat>, y: seq<nat>) {
    x < y || exists i: nat :: DiffersAt(x, y, i)
  }

  ghost predicate DiffersAt(x: seq<nat>, y: seq<nat>, i: nat) {
    i < |x| && i < |y| && x[..i] == y[..i] && x[i] < y[i]
  }

  lemma SamePrefix(p: seq<nat>, x: seq<nat>, y: seq<nat>)
    requires Before(x, y)
    ensures Before(p + x, p + y)
  {
    if x < y {
      assert p + x < p + y;
    } else {
      var i: nat :| DiffersAt(x, y, i);
      assert (p + x)[..|p| + i] == p + x[..i] && (p + y)[..|p| + i] == p + y[..i];
      assert DiffersAt(p + x, p + y, |p| + i);
    }
  }

  lemma AgreeBelow(x: seq<nat>, y: seq<nat>, i: nat, k: nat)
    requires DiffersAt(x, y, i) && k < i
    ensures x[k] == y[k]
  {
    assert x[..i][k] == y[..i][k];
  }

  lemma BeforeOneWay(x: seq<nat>, y: seq<nat>)
    requires Before(x, y)
    ensures !Before(y, x) && x != y
  {
    forall j: nat ensures !DiffersAt(y, x, j) {
      if x < y {
        assert forall k | 0 <= k < |x| :: x[k] == y[k];
      } else {
        var i: nat :| DiffersAt(x, y, i);
        if j < i {
          AgreeBelow(x, y, i, j);
        } else if i < j && DiffersAt(y, x, j) {
          AgreeBelow(y, x, j, i);
        }
      }
    }
  }

  lemma SmallerUnit(c: char, d: char, x: seq<nat>, y: seq<nat>)
    requires UnitRank(c) < UnitRank(d)
    ensures Before(UnitsOf(c) + x, UnitsOf(d) + y)
  {
    var a, b := UnitsOf(c) + x, UnitsOf(d) + y;
    if UnitsOf(c)[0] == UnitsOf(d)[0] {
      assert |UnitsOf(c)| == 2 == |UnitsOf(d)|;
      assert a[..1] == b[..1] && DiffersAt(a, b, 1);
    } else {
      assert DiffersAt(a, b, 0);
    }
  }

  lemma {:induction false} KeyLessIsBefore(a: string, b: string)
    requires KeyLess(a, b)
    ensures Before(Units(a), Units(b))
  {
    if a == [] {
      assert Units(a) < Units(b);
    } else if a[0] == b[0] {
      KeyOrderTotal(a[1..], b[1..]);
      KeyLessIsBefore(a[1..], b[1..]);
      SamePrefix(UnitsOf(a[0]), Units(a[1..]), Units(b[1..]));
    } else {
      SmallerUnit(a[0], b[0], Units(a[1..]), Units(b[1..]));
    }
  }

  /** The order the keys are sorted by is that of their UTF-16 code units, smaller unit first. */
  lemma KeyOrderIsUnitOrder(a: string, b: string)
    ensures KeyLess(a, b) <==> Before(Units(a), Units(b))
  {
    if KeyLess(a, b) {
      KeyLessIsBefore(a, b);
    } else if Before(Units(a), Units(b)) {
      BeforeOneWay(Units(a), Units(b));
      KeyOrderTotal(a, b);
      KeyLessIsBefore(b, a);
    }
  }

  /** In every object of a document, at every depth, each key stands after the keys before it. */
  ghost predicate KeysAscend(j: J) {
    match j
    case JArr(items) => forall x | x in items :: KeysAscend(x)
    case JObj(ms) =>
      && (forall i, k | 0 <= i < k < |ms| :: Before(Units(ms[i].key), Units(ms[k].key)))
      && forall m | m in ms :: KeysAscend(m.value)
    case _ => true
  }

  lemma {:induction false} NormalEntryOf(es: seq<Entry>, m: Member) returns (e: Entry)
    requires m in NormalEntries(es)
    ensures e in es && m == Member(e.key, Normal(e.value))
  {
    if es[0].value.Undefined? || m != Member(es[0].key, Normal(es[0].value)) {
      e := NormalEntryOf(es[1..], m);
    } else {
      e := es[0];
    }
  }

  lemma {:induction false} NormalAscends(v: Value)
    requires WellFormed(v)
    ensures KeysAscend(Normal(v))
    decreases v
  {
    match v
    case Arr(items) =>
      forall i | 0 <= i < |items| ensures KeysAscend(NormalItems(items)[i]) { NormalAscends(items[i]); }
    case Obj(es) =>
      var ms := NormalEntries(es);
      NormalBinds(es, "");
      forall i, k | 0 <= i < k < |ms| ensures Before(Units(ms[i].key), Units(ms[k].key)) {
        KeyOrderIsUnitOrder(ms[i].key, ms[k].key);
      }
      forall m | m in ms ensures KeysAscend(m.value) {
        var e := NormalEntryOf(es, m);
        NormalAscends(e.value);
      }
    case _ =>
  }

  /** Read back, the text of any value has its keys in ascending order of UTF-16 units at every depth. */
  lemma PrintedKeysAscend(v: Value)
    requires WellFormed(v)
    ensures Parse(StableText(v)).Some? && KeysAscend(Parse(StableText(v)).value)
    ensures CanonicalText(v).Some? ==>
              Parse(CanonicalText(v).value).Some? && KeysAscend(Parse(CanonicalText(v).value).value)
  {
    NormalAscends(v);
    ParsePrint(Normal(v));
  }

  /** The same of the text the serializer returns for an object graph, in either mode. */
  lemma SerializedKeysAscend(g: Graph, c: Cell, strict: bool)
    requires Closed(g) && DistinctSlots(g) && InGraph(g, c) && TextOf(Unfold(g, c, {}), strict).Some?
    ensures Parse(TextOf(Unfold(g, c, {}), strict).value).Some?
    ensures KeysAscend(Parse(TextOf(Unfold(g, c, {}), strict).value).value)
  {
    UnfoldWellFormed(g, c, {});
    PrintedKeysAscend(Unfold(g, c, {}));
  }

  // ---- Leaves, lists and objects ----

  predicate PlainText(s: string) {
    forall i | 0 <= i < |s| :: s[i] as int >= 32 && s[i] != '\"' && s[i] != '\\'
  }

  lemma {:induction false} PlainEscape(s: string)
    requires PlainText(s)
    ensures Escape(s) == s
  {
    if s != [] {
      assert PlainText(s[1..]);
      PlainEscape(s[1..]);
      assert EscapeChar(s[0]) == [s[0]];
    }
  }

  lemma PlainInteger(i: int)
    ensures Quote(IntText(i)) == "\"" + IntText(i) + "\""
  {
    var digits := NatText(if i < 0 then -i else i);
    assert forall k | 0 <= k < |digits| :: digits[k] in digits && IsDigit(digits[k]);
    PlainEscape(IntText(i));
  }

  /** The text of a value that is no object; strict mode has the same one or, for three kinds, none. */
  lemma LeafTexts(v: Value)
    requires !v.Arr? && !v.Obj?
    ensures StableText(v)
         == match v
            case Bool(b) => if b then "true" else "false"
            case Num(t) => t
            case Str(s) => Quote(s)
            case BigInt(i) => "\"" + IntText(i) + "\""
            case Circular => Quote("[Circular]")
            case _ => "null"
    ensures CanonicalText(v) == if v.BigInt? || v.Opaque? || v.Circular? then None else Some(StableText(v))
  {
    if v.BigInt? { PlainInteger(v.i); }
  }

  lemma PrintTwo(a: J, b: J)
    ensures Print(JArr([a, b])) == "[" + Print(a) + "," + Print(b) + "]"
  {
    assert [a, b][1..] == [b];
    assert PrintItems([a, b]) == Print(a) + "," + PrintItems([b]);
  }

  lemma NormalTwo(x: Value, y: Value)
    ensures Normal(Arr([x, y])) == JArr([Normal(x), Normal(y)])
  {
    assert NormalItems([x, y]) == [Normal(x), Normal(y)];
  }

  /** Arrays: brackets and a comma with nothing between, in order. */
  lemma ArrayTexts(x: Value, y: Value)
    ensures StableText(Arr([x, y])) == "[" + StableText(x) + "," + StableText(y) + "]"
  {
    NormalTwo(x, y);
    PrintTwo(Normal(x), Normal(y));
  }

  lemma PrintTwoMembers(m: Member, n: Member)
    ensures Print(JObj([m, n])) == "{" + (PrintMember(m) + "," + PrintMember(n)) + "}"
  {
    assert [m, n][1..] == [n];
    assert PrintMembers([m, n]) == PrintMember(m) + "," + PrintMembers([n]);
  }

  lemma Spliced(q: string, a: string, r: string, b: string)
    ensures "{" + ((q + ":" + a) + "," + (r + ":" + b)) + "}" == "{" + q + ":" + a + "," + r + ":" + b + "}"
  {
  }

  lemma PrintPair(k: string, a: J, l: string, b: J)
    ensures Print(JObj([Member(k, a), Member(l, b)]))
         == "{" + Quote(k) + ":" + Print(a) + "," + Quote(l) + ":" + Print(b) + "}"
  {
    PrintTwoMembers(Member(k, a), Member(l, b));
    Spliced(Quote(k), Print(a), Quote(l), Print(b));
  }

  lemma NormalPair(k: string, x: Value, l: string, y: Value, absent: string)
    requires !x.Undefined? && !y.Undefined? && KeyLess(k, l)
    ensures NormalEntries([Entry(l, y), Entry(absent, Undefined), Entry(k, x)])
         == [Member(k, Normal(x)), Member(l, Normal(y))]
  {
    var es := [Entry(l, y), Entry(absent, Undefined), Entry(k, x)];
    var a, b := Member(k, Normal(x)), Member(l, Normal(y));
    var two := es[1..];
    var one := two[1..];
    assert one == [Entry(k, x)] && one[1..] == [];
    assert NormalEntries(one) == Insert(a, []) == [a];
    assert NormalEntries(two) == [a];
    assert NormalEntries(es) == Insert(b, [a]);
    KeyOrderTotal(k, l);
    assert [a][1..] == [] && Insert(b, []) == [b];
  }

  /** Objects: braces, colons and a comma, the smaller key first, and a member that is undefined left out. */
  lemma ObjectTexts(k: string, x: Value, l: string, y: Value, absent: string)
    requires !x.Undefined? && !y.Undefined? && Before(Units(k), Units(l))
    ensures StableText(Obj([Entry(l, y), Entry(absent, Undefined), Entry(k, x)]))
         == "{" + Quote(k) + ":" + StableText(x) + "," + Quote(l) + ":" + StableText(y) + "}"
  {
    KeyOrderIsUnitOrder(k, l);
    NormalPair(k, x, l, y, absent);
    PrintPair(k, Normal(x), l, Normal(y));
  }

  lemma {:induction false} LiteralEnds(s: string)
    requires ParseBody(s) == Parsed("", "")
    ensures s == "\""
  {
  }

  lemma ShortEscape(c: char, t: string)
    requires |t| >= 2 && t[0] == '\\' && UnescapeHead(t + "\"") == Parsed(c, "\"")
    ensures |EscapeChar(c)| <= |t| && (|t| == |EscapeChar(c)| ==> t == EscapeChar(c))
  {
    var s := t + "\"";
    assert s[1] == t[1];
    if t[1] == 'u' {
      assert |s[6..]| == 1 && |t| == 6;
      assert s[4] == t[4] && s[5] == t[5] && s[2] == t[2] && s[3] == t[3];
      HexDigits(t[4], t[5]);
    } else {
      assert |s[2..]| == 1 && |t| == 2;
    }
  }

  lemma HexDigits(a: char, b: char)
    requires IsHexDigit(a) && IsHexDigit(b)
    ensures var n := HexValue(a) * 16 + HexValue(b); HexChar(n / 16) == a && HexChar(n % 16) == b
  {
  }

  lemma OneCharacter(s: string, c: char) returns (rest: string)
    requires ParseBody(s) == Parsed([c], "")
    ensures s != [] && s[0] != '\"' && s[0] as int >= 32 && rest == "\""
    ensures if s[0] == '\\' then UnescapeHead(s) == Parsed(c, rest) else s[0] == c && s[1..] == rest
  {
    var head := if s[0] == '\\' then UnescapeHead(s) else Parsed(s[0], s[1..]);
    var tail := ParseBody(head.rest);
    assert [c] == [head.value] + tail.value;
    assert c == [c][0] == ([head.value] + tail.value)[0] == head.value;
    assert |[head.value] + tail.value| == 1 && tail.value == "";
    LiteralEnds(head.rest);
    rest := head.rest;
  }

  lemma HeadIsEscape(c: char, t: string, s: string)
    requires s == t + "\"" && s != [] && s[0] != '\"' && s[0] as int >= 32
    requires if s[0] == '\\' then UnescapeHead(s) == Parsed(c, "\"") else s[0] == c && s[1..] == "\""
    ensures |EscapeChar(c)| <= |t| && (|t| == |EscapeChar(c)| ==> t == EscapeChar(c))
  {
    if s[0] == '\\' {
      assert |t| >= 2 && t[0] == s[0];
      ShortEscape(c, t);
    } else {
      assert |s[1..]| == 1 && |t| == 1 && t[0] == s[0] && t == [c];
    }
  }

  /**
   The escape of a character is the shortest text a literal can hold for it, and the only one of its
   length: two characters where there is a short form, six for the other control characters, else one.
   */
  lemma EscapeIsShortest(c: char, t: string)
    requires ParseBody(t + "\"") == Parsed([c], "")
    ensures |EscapeChar(c)| <= |t| && (|t| == |EscapeChar(c)| ==> t == EscapeChar(c))
  {
    var rest := OneCharacter(t + "\"", c);
    HeadIsEscape(c, t, t + "\"");
  }
}
