/**
 The canonical JSON form: which values have one, what it is, and why two values share it
 exactly when they agree up to key order and undefined-valued keys.
 */
module Json {
  import opened Text

  predicate IsNumeralChar(c: char) {
    IsDigit(c) || c == '-' || c == '+' || c == '.' || c == 'e' || c == 'E'
  }

  predicate StartsNumeral(c: char) {
    IsDigit(c) || c == '-'
  }

  /** A finite number, as the text JSON.stringify prints for it (section 6 of RFC 8259). */
  type Numeral = s: string | s != [] && StartsNumeral(s[0]) && (forall c | c in s :: IsNumeralChar(c))
    witness "0"

  function IntNumeral(i: int): (t: Numeral)
    ensures t == IntText(i)
  {
    IntText(i)
  }

  datatype Entry = Entry(key: string, value: Value)

  /**
   A JavaScript value as the serializer sees it, with references already followed.
   Opaque is a function or a symbol; Circular is a reference back to an enclosing object.
   Objects keep their insertion order.
   */
  datatype Value =
    | Undefined
    | Null
    | Bool(b: bool)
    | Num(text: Numeral)
    | Str(s: string)
    | BigInt(i: int)
    | Opaque
    | Circular
    | Arr(items: seq<Value>)
    | Obj(entries: seq<Entry>)

  predicate DistinctKeys(es: seq<Entry>) {
    forall i, j | 0 <= i < j < |es| :: es[i].key != es[j].key
  }

  /** A JavaScript object never holds one key twice; this says so at every depth. */
  predicate WellFormed(v: Value) {
    match v
    case Arr(items) => forall x | x in items :: WellFormed(x)
    case Obj(es) => DistinctKeys(es) && forall e | e in es :: WellFormed(e.value)
    case _ => true
  }

  /** Strict mode has a text for exactly these values. */
  predicate Printable(v: Value) {
    match v
    case BigInt(_) => false
    case Opaque => false
    case Circular => false
    case Arr(items) => forall x | x in items :: Printable(x)
    case Obj(es) => forall e | e in es :: Printable(e.value)
    case _ => true
  }

  // ---- Equality of values, without any order ----

  /** The value stored under a key; a key whose value is undefined counts as absent. */
  function Get(es: seq<Entry>, k: string): (r: Option<Value>)
    ensures r.Some? ==> exists i | 0 <= i < |es| :: es[i] == Entry(k, r.value) && !r.value.Undefined?
  {
    if es == [] then None
    else if es[0].key == k && !es[0].value.Undefined? then
      assert es[0] == Entry(k, es[0].value);
      Some(es[0].value)
    else
      var r := Get(es[1..], k);
      assert r.Some? ==> exists i | 0 <= i < |es[1..]| :: es[1..][i] == Entry(k, r.value);
      assert forall i | 0 <= i < |es[1..]| :: es[1..][i] == es[i + 1];
      r
  }

  lemma GetFirst(e: Entry, es: seq<Entry>, k: string)
    ensures Get([e] + es, k) == if e.key == k && !e.value.Undefined? then Some(e.value) else Get(es, k)
  {
    assert ([e] + es)[1..] == es;
  }

  /**
   Two values that stand for the same JSON document: objects are compared as finite maps,
   and undefined stands for null wherever it is not the value of a key.
   */
  ghost predicate Same(a: Value, b: Value)
    decreases a
  {
    match (a, b)
    case (Undefined, _) => b.Undefined? || b.Null?
    case (Null, _) => b.Undefined? || b.Null?
    case (Arr(xs), Arr(ys)) => |xs| == |ys| && forall i | 0 <= i < |xs| :: Same(xs[i], ys[i])
    case (Obj(es), Obj(fs)) =>
      && (forall k: string :: Get(es, k).Some? <==> Get(fs, k).Some?)
      && (forall k: string :: Get(es, k).Some? && Get(fs, k).Some? ==> Same(Get(es, k).value, Get(fs, k).value))
    case _ => a == b && !a.Arr? && !a.Obj?
  }

  /** Agreement of two optional object members, undefined standing for absence. */
  ghost predicate SameMember(a: Value, b: Value) {
    (a.Undefined? <==> b.Undefined?) && Same(a, b)
  }

  // ---- The normal form: undefined gone, members sorted ----

  datatype Member = Member(key: string, value: J)

  /** A JSON document, in the sense of sections 2 to 7 of RFC 8259. */
  datatype J =
    | JNull
    | JBool(b: bool)
    | JNum(text: Numeral)
    | JStr(s: string)
    | JArr(items: seq<J>)
    | JObj(members: seq<Member>)

  /** Orders characters as their UTF-16 code units compare. */
  function UnitRank(c: char): int {
    if c as int < 0xD800 || c as int > 0xFFFF then c as int else c as int + 0x110000
  }

  /** JavaScript's `<` on strings: lexicographic by UTF-16 code unit. */
  predicate KeyLess(a: string, b: string) {
    b != [] && (a == [] || UnitRank(a[0]) < UnitRank(b[0]) || (a[0] == b[0] && KeyLess(a[1..], b[1..])))
  }

  predicate Sorted(ms: seq<Member>) {
    forall i, j | 0 <= i < j < |ms| :: KeyLess(ms[i].key, ms[j].key)
  }

  function Insert(m: Member, ms: seq<Member>): (r: seq<Member>)
    ensures |r| == |ms| + 1
    ensures forall x | x in r :: x == m || x in ms
  {
    if ms == [] || KeyLess(m.key, ms[0].key) then [m] + ms
    else [ms[0]] + Insert(m, ms[1..])
  }

  /**
   The document a value is printed as. Total, like the lenient mode: a BigInt becomes its decimal
   text, a function or symbol null, and a back reference a fixed marker.
   */
  function Normal(v: Value): J
    decreases v
  {
    match v
    case Undefined => JNull
    case Null => JNull
    case Bool(b) => JBool(b)
    case Num(t) => JNum(t)
    case Str(s) => JStr(s)
    case BigInt(i) => JStr(IntText(i))
    case Opaque => JNull
    case Circular => JStr("[Circular]")
    case Arr(items) => JArr(NormalItems(items))
    case Obj(es) => JObj(NormalEntries(es))
  }

  function NormalItems(vs: seq<Value>): (r: seq<J>)
    ensures |r| == |vs|
    ensures forall i | 0 <= i < |vs| :: r[i] == Normal(vs[i])
    decreases vs
  {
    if vs == [] then [] else [Normal(vs[0])] + NormalItems(vs[1..])
  }

  function NormalEntries(es: seq<Entry>): seq<Member>
    decreases es
  {
    if es == [] then []
    else if es[0].value.Undefined? then NormalEntries(es[1..])
    else Insert(Member(es[0].key, Normal(es[0].value)), NormalEntries(es[1..]))
  }

  // ---- Printing ----

  /** One character of a string literal (section 7 of RFC 8259). */
  function EscapeChar(c: char): (s: string)
    ensures s != []
  {
    if c == '\"' then "\\\""
    else if c == '\\' then "\\\\"
    else if c as int == 8 then "\\b"
    else if c as int == 12 then "\\f"
    else if c == '\n' then "\\n"
    else if c == '\r' then "\\r"
    else if c == '\t' then "\\t"
    else if c as int < 32 then "\\u00" + [HexChar(c as int / 16), HexChar(c as int % 16)]
    else [c]
  }

  function Escape(s: string): string {
    if s == [] then "" else EscapeChar(s[0]) + Escape(s[1..])
  }

  function Quote(s: string): string {
    "\"" + Escape(s) + "\""
  }

  function Print(j: J): string
    decreases j
  {
    match j
    case JNull => "null"
    case JBool(b) => if b then "true" else "false"
    case JNum(t) => t
    case JStr(s) => Quote(s)
    case JArr(items) => "[" + PrintItems(items) + "]"
    case JObj(ms) => "{" + PrintMembers(ms) + "}"
  }

  function PrintItems(items: seq<J>): string
    decreases items
  {
    if items == [] then ""
    else if |items| == 1 then Print(items[0])
    else Print(items[0]) + "," + PrintItems(items[1..])
  }

  function PrintMember(m: Member): string
    decreases m
  {
    Quote(m.key) + ":" + Print(m.value)
  }

  function PrintMembers(ms: seq<Member>): string
    decreases ms
  {
    if ms == [] then ""
    else if |ms| == 1 then PrintMember(ms[0])
    else PrintMember(ms[0]) + "," + PrintMembers(ms[1..])
  }

  /** canonicalJson on a value without cycles: the printed normal form, or a throw. */
  function CanonicalText(v: Value): Option<string> {
    if Printable(v) then Some(Print(Normal(v))) else None
  }

  /** stableStringify on a value: never throws. */
  function StableText(v: Value): string {
    Print(Normal(v))
  }
}
