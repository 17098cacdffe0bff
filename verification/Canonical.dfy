/** canonicalJson is exact: equal texts mean equal values up to key order, and conversely. */
module Canonical {
  import opened Text
  import opened Json
  import opened JsonParser

  // ---- The key order is a strict total order ----

  lemma {:induction false} KeyOrderTotal(a: string, b: string)
    ensures KeyLess(a, b) || KeyLess(b, a) || a == b
    ensures !(KeyLess(a, b) && KeyLess(b, a)) && !KeyLess(a, a)
  {
    if a != [] {
      KeyOrderTotal(a[1..], a[1..]);
      if b != [] {
        KeyOrderTotal(a[1..], b[1..]);
        if a[0] == b[0] && a[1..] == b[1..] { assert a == [a[0]] + a[1..] == b; }
      }
    }
  }

  lemma {:induction false} KeyOrderTransitive(a: string, b: string, c: string)
    requires KeyLess(a, b) && KeyLess(b, c)
    ensures KeyLess(a, c)
  {
    if a != [] && a[0] == b[0] == c[0] { KeyOrderTransitive(a[1..], b[1..], c[1..]); }
  }

  // ---- Sorted member lists as finite maps ----

  function Find(ms: seq<Member>, k: string): (r: Option<J>)
    ensures r.Some? <==> exists m | m in ms :: m.key == k
  {
    if ms == [] then None
    else if ms[0].key == k then
      assert ms[0] in ms;
      Some(ms[0].value)
    else
      var r := Find(ms[1..], k);
      assert forall m | m in ms :: m == ms[0] || m in ms[1..];
      r
  }

  /** Inserting a new key adds exactly that key, and keeps the list sorted. */
  lemma {:induction false} InsertFinds(m: Member, ms: seq<Member>, k: string)
    requires Sorted(ms) && Find(ms, m.key).None?
    ensures Sorted(Insert(m, ms))
    ensures Find(Insert(m, ms), k) == if k == m.key then Some(m.value) else Find(ms, k)
  {
    if ms == [] || KeyLess(m.key, ms[0].key) {
      assert ([m] + ms)[1..] == ms;
      forall i | 0 <= i < |ms| ensures KeyLess(m.key, ms[i].key) {
        if i > 0 { KeyOrderTransitive(m.key, ms[0].key, ms[i].key); }
      }
    } else {
      assert ms[0] in ms;
      KeyOrderTotal(m.key, ms[0].key);
      assert Sorted(ms[1..]);
      InsertFinds(m, ms[1..], k);
      var r := Insert(m, ms[1..]);
      assert Insert(m, ms)[1..] == r;
      HeadBelow(m, ms);
    }
  }

  lemma HeadBelow(m: Member, ms: seq<Member>)
    requires ms != [] && Sorted(ms) && KeyLess(ms[0].key, m.key)
    ensures forall x | x in Insert(m, ms[1..]) :: KeyLess(ms[0].key, x.key)
  {
    forall x | x in ms[1..] ensures KeyLess(ms[0].key, x.key) {
      var j :| 0 <= j < |ms[1..]| && ms[1..][j] == x;
      assert ms[j + 1] == x;
    }
  }

  /** Two sorted lists with the same bindings are the same list. */
  lemma {:induction false} SortedUnique(a: seq<Member>, b: seq<Member>)
    requires Sorted(a) && Sorted(b)
    requires forall k: string :: Find(a, k) == Find(b, k)
    ensures a == b
  {
    if a == [] {
      assert b != [] ==> b[0] in b && Find(b, b[0].key).Some?;
      assert b != [] ==> Find(a, b[0].key).None?;
    } else {
      assert Find(a, a[0].key).Some?;
      assert b != [];
      assert Find(b, b[0].key).Some?;
      HeadsAgree(a, b);
      forall k: string ensures Find(a[1..], k) == Find(b[1..], k) {
        TailFind(a, k);
        TailFind(b, k);
      }
      SortedUnique(a[1..], b[1..]);
      assert a == [a[0]] + a[1..] && b == [b[0]] + b[1..];
    }
  }

  lemma HeadsAgree(a: seq<Member>, b: seq<Member>)
    requires Sorted(a) && Sorted(b) && a != [] && b != []
    requires Find(a, b[0].key).Some? && Find(b, a[0].key).Some? && Find(a, a[0].key) == Find(b, a[0].key)
    ensures a[0] == b[0]
  {
    var m :| m in a && m.key == b[0].key;
    var n :| n in b && n.key == a[0].key;
    var i :| 0 <= i < |a| && a[i] == m;
    var j :| 0 <= j < |b| && b[j] == n;
    if i > 0 && j > 0 {
      KeyOrderTotal(a[0].key, b[0].key);
      assert false;
    }
  }

  lemma TailFind(a: seq<Member>, k: string)
    requires Sorted(a) && a != []
    ensures Find(a[1..], k) == if k == a[0].key then None else Find(a, k)
  {
    if k == a[0].key && Find(a[1..], k).Some? {
      var m :| m in a[1..] && m.key == k;
      var i :| 0 <= i < |a[1..]| && a[1..][i] == m;
      assert a[i + 1] == m;
      KeyOrderTotal(k, k);
      assert false;
    }
  }

  /** The members of a normal form are sorted and bind each present key to its value's normal form. */
  lemma {:induction false} NormalBinds(es: seq<Entry>, k: string)
    requires DistinctKeys(es)
    ensures Sorted(NormalEntries(es))
    ensures Find(NormalEntries(es), k) == if Get(es, k).Some? then Some(Normal(Get(es, k).value)) else None
  {
    if es != [] {
      assert DistinctKeys(es[1..]);
      NormalBinds(es[1..], k);
      if !es[0].value.Undefined? {
        NormalBinds(es[1..], es[0].key);
        assert Get(es[1..], es[0].key).None? by { AbsentInTail(es); }
        InsertFinds(Member(es[0].key, Normal(es[0].value)), NormalEntries(es[1..]), k);
      }
    }
  }

  lemma AbsentInTail(es: seq<Entry>)
    requires DistinctKeys(es) && es != []
    ensures Get(es[1..], es[0].key).None?
  {
    forall i | 0 <= i < |es[1..]| ensures es[1..][i].key != es[0].key {
      assert es[1..][i] == es[i + 1];
    }
  }

  lemma GetInside(es: seq<Entry>, k: string) returns (e: Entry)
    requires Get(es, k).Some?
    ensures e in es && e.value == Get(es, k).value && e < Obj(es)
  {
    var i :| 0 <= i < |es| && es[i] == Entry(k, Get(es, k).value);
    e := es[i];
  }

  // ---- Exactness ----

  /** Two values have one normal form exactly when they are the same document. */
  lemma {:induction false} SameIffNormal(a: Value, b: Value)
    requires WellFormed(a) && WellFormed(b) && Printable(a) && Printable(b)
    ensures Same(a, b) <==> Normal(a) == Normal(b)
    decreases a
  {
    match (a, b)
    case (Arr(xs), Arr(ys)) =>
      forall i | 0 <= i < |xs| && i < |ys| ensures Same(xs[i], ys[i]) <==> Normal(xs[i]) == Normal(ys[i]) {
        SameIffNormal(xs[i], ys[i]);
      }
      assert Same(a, b) ==> NormalItems(xs) == NormalItems(ys);
      assert Normal(a) == Normal(b) ==> forall i | 0 <= i < |xs| :: NormalItems(xs)[i] == NormalItems(ys)[i];
    case (Obj(es), Obj(fs)) =>
      forall k: string | Get(es, k).Some? && Get(fs, k).Some?
        ensures Same(Get(es, k).value, Get(fs, k).value) <==> Normal(Get(es, k).value) == Normal(Get(fs, k).value)
      {
        var e := GetInside(es, k);
        var f := GetInside(fs, k);
        SameIffNormal(e.value, f.value);
      }
      ObjectsIffNormal(es, fs);
    case _ =>
  }

  /** What Same asks of two objects at one key. */
  ghost predicate SameAt(v: Option<Value>, w: Option<Value>) {
    (v.Some? <==> w.Some?) && (v.Some? && w.Some? ==> Same(v.value, w.value))
  }

  lemma SameHasKeys(es: seq<Entry>, fs: seq<Entry>, k: string)
    requires Same(Obj(es), Obj(fs))
    ensures SameAt(Get(es, k), Get(fs, k))
  {
  }

  lemma KeysMakeSame(es: seq<Entry>, fs: seq<Entry>)
    requires forall k: string :: SameAt(Get(es, k), Get(fs, k))
    ensures Same(Obj(es), Obj(fs))
  {
    forall k: string
      ensures Get(es, k).Some? <==> Get(fs, k).Some?
      ensures Get(es, k).Some? && Get(fs, k).Some? ==> Same(Get(es, k).value, Get(fs, k).value)
    {
      assert SameAt(Get(es, k), Get(fs, k));
    }
  }

  lemma SameAtIffFind(es: seq<Entry>, fs: seq<Entry>, k: string)
    requires DistinctKeys(es) && DistinctKeys(fs)
    requires Get(es, k).Some? && Get(fs, k).Some? ==>
               (Same(Get(es, k).value, Get(fs, k).value) <==> Normal(Get(es, k).value) == Normal(Get(fs, k).value))
    ensures SameAt(Get(es, k), Get(fs, k)) <==> Find(NormalEntries(es), k) == Find(NormalEntries(fs), k)
  {
    NormalBinds(es, k);
    NormalBinds(fs, k);
  }

  lemma ObjectsIffNormal(es: seq<Entry>, fs: seq<Entry>)
    requires DistinctKeys(es) && DistinctKeys(fs)
    requires forall k: string | Get(es, k).Some? && Get(fs, k).Some? ::
               Same(Get(es, k).value, Get(fs, k).value) <==> Normal(Get(es, k).value) == Normal(Get(fs, k).value)
    ensures Same(Obj(es), Obj(fs)) <==> NormalEntries(es) == NormalEntries(fs)
  {
    var a, b := NormalEntries(es), NormalEntries(fs);
    forall k: string ensures SameAt(Get(es, k), Get(fs, k)) <==> Find(a, k) == Find(b, k) {
      SameAtIffFind(es, fs, k);
    }
    if Same(Obj(es), Obj(fs)) {
      forall k: string ensures Find(a, k) == Find(b, k) {
        SameHasKeys(es, fs, k);
      }
      NormalBinds(es, "");
      NormalBinds(fs, "");
      SortedUnique(a, b);
    }
    if a == b {
      forall k: string ensures SameAt(Get(es, k), Get(fs, k)) {
        assert Find(a, k) == Find(b, k);
      }
      KeysMakeSame(es, fs);
    }
  }

  /**
   canonicalJson distinguishes exactly the values that differ as documents: key order at every
   depth and undefined-valued keys never matter, and everything else always does.
   */
  lemma CanonicalExact(a: Value, b: Value)
    requires WellFormed(a) && WellFormed(b) && Printable(a) && Printable(b)
    ensures CanonicalText(a).Some? && CanonicalText(b).Some?
    ensures CanonicalText(a) == CanonicalText(b) <==> Same(a, b)
    ensures Parse(CanonicalText(a).value) == Some(Normal(a))
  {
    SameIffNormal(a, b);
    ParsePrint(Normal(a));
    ParsePrint(Normal(b));
  }

  /** A document holds a field under a key; an undefined one is not there. */
  predicate Holds(ms: seq<Member>, key: string, field: Value) {
    Find(ms, key) == if field.Undefined? then None else Some(Normal(field))
  }

  /** Read back, an object's text binds each key the object has a value for, and no other. */
  lemma TextBinds(es: seq<Entry>, k: string)
    requires DistinctKeys(es) && CanonicalText(Obj(es)).Some?
    ensures var j := Parse(CanonicalText(Obj(es)).value);
            && j.Some? && j.value.JObj?
            && Find(j.value.members, k) == if Get(es, k).Some? then Some(Normal(Get(es, k).value)) else None
  {
    ParsePrint(Normal(Obj(es)));
    NormalBinds(es, k);
  }

  function NormalOf(v: Option<Value>): Option<J> {
    if v.None? then None else Some(Normal(v.value))
  }

  /** A lookup in an object, as a function of the key, and the same lookup in its document. */
  type Lookup<+T> = string -> Option<T>

  function GetIn(es: seq<Entry>): Lookup<Value> {
    k => Get(es, k)
  }

  function FindIn(ms: seq<Member>): Lookup<J> {
    k => Find(ms, k)
  }

  lemma LookupsAgree(es: seq<Entry>)
    requires DistinctKeys(es)
    ensures forall k: string :: FindIn(NormalEntries(es))(k) == NormalOf(GetIn(es)(k))
  {
    forall k: string ensures FindIn(NormalEntries(es))(k) == NormalOf(GetIn(es)(k)) {
      NormalBinds(es, k);
    }
  }
}
