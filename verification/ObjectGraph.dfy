/**
 The serializer on arbitrary, possibly cyclic object graphs. The recursive method tracks the
 objects it is inside of in a mutable set, and is proved to print the unfolding of the graph.
 */
module ObjectGraph {
  import opened Text
  import opened Json
  import Canonical

  /** A value that is not an object. */
  type Leaf = v: Value | !v.Arr? && !v.Obj? && !v.Circular? witness Null

  datatype Cell = Prim(v: Leaf) | Ref(r: nat)
  datatype Slot = Slot(key: string, cell: Cell)
  datatype Node = ArrayNode(items: seq<Cell>) | ObjectNode(slots: seq<Slot>)

  /** Every object reachable from a call, by identity. */
  type Graph = map<nat, Node>

  predicate InGraph(g: Graph, c: Cell) {
    c.Ref? ==> c.r in g
  }

  function Children(n: Node): seq<Cell> {
    match n
    case ArrayNode(items) => items
    case ObjectNode(slots) => seq(|slots|, i requires 0 <= i < |slots| => slots[i].cell)
  }

  /** No dangling reference. */
  predicate Closed(g: Graph) {
    forall r | r in g :: forall c | c in Children(g[r]) :: InGraph(g, c)
  }

  /** No object holds a key twice. */
  predicate DistinctSlots(g: Graph) {
    forall r | r in g && g[r].ObjectNode? ::
      forall i, j | 0 <= i < j < |g[r].slots| :: g[r].slots[i].key != g[r].slots[j].key
  }

  predicate SlotsInGraph(g: Graph, slots: seq<Slot>) {
    forall s | s in slots :: InGraph(g, s.cell)
  }

  lemma NodeInGraph(g: Graph, r: nat)
    requires Closed(g) && r in g
    ensures g[r].ArrayNode? ==> forall c | c in g[r].items :: InGraph(g, c)
    ensures g[r].ObjectNode? ==> SlotsInGraph(g, g[r].slots)
  {
    if g[r].ObjectNode? {
      forall s | s in g[r].slots ensures InGraph(g, s.cell) {
        var i :| 0 <= i < |g[r].slots| && g[r].slots[i] == s;
        assert Children(g[r])[i] == s.cell;
      }
    }
  }

  // ---- Unfolding: the tree a graph stands for, cut where a path returns to an object it is inside of ----

  function Unfold(g: Graph, c: Cell, seen: set<nat>): Value
    requires Closed(g) && InGraph(g, c)
    decreases g.Keys - seen, 0, 0
  {
    match c
    case Prim(v) => v
    case Ref(r) =>
      if r in seen then Circular else
      assert g.Keys - (seen + {r}) < g.Keys - seen by { assert r in g.Keys - seen; }
      NodeInGraph(g, r);
      match g[r]
      case ArrayNode(items) => Arr(UnfoldItems(g, items, seen + {r}))
      case ObjectNode(slots) => Obj(UnfoldSlots(g, slots, seen + {r}))
  }

  function UnfoldItems(g: Graph, items: seq<Cell>, seen: set<nat>): (r: seq<Value>)
    requires Closed(g) && forall c | c in items :: InGraph(g, c)
    ensures |r| == |items|
    decreases g.Keys - seen, 1, |items|
  {
    if items == [] then [] else [Unfold(g, items[0], seen)] + UnfoldItems(g, items[1..], seen)
  }

  function UnfoldSlots(g: Graph, slots: seq<Slot>, seen: set<nat>): (r: seq<Entry>)
    requires Closed(g) && SlotsInGraph(g, slots)
    ensures |r| == |slots|
    decreases g.Keys - seen, 1, |slots|
  {
    if slots == [] then []
    else [Entry(slots[0].key, Unfold(g, slots[0].cell, seen))] + UnfoldSlots(g, slots[1..], seen)
  }

  lemma {:induction false} ItemAt(g: Graph, items: seq<Cell>, seen: set<nat>, i: nat)
    requires Closed(g) && i < |items| && forall c | c in items :: InGraph(g, c)
    ensures UnfoldItems(g, items, seen)[i] == Unfold(g, items[i], seen)
    decreases |items|
  {
    if i > 0 { ItemAt(g, items[1..], seen, i - 1); }
  }

  lemma {:induction false} SlotAt(g: Graph, slots: seq<Slot>, seen: set<nat>, i: nat)
    requires Closed(g) && i < |slots| && SlotsInGraph(g, slots)
    ensures UnfoldSlots(g, slots, seen)[i] == Entry(slots[i].key, Unfold(g, slots[i].cell, seen))
    decreases |slots|
  {
    if i > 0 { SlotAt(g, slots[1..], seen, i - 1); }
  }

  /** What one of the two modes yields for a value: a text, or a throw. */
  function TextOf(v: Value, strict: bool): Option<string> {
    if strict then CanonicalText(v) else Some(StableText(v))
  }

  // ---- The pieces of one object: filter, sort, print, join ----

  function Defined(slots: seq<Slot>): (r: seq<Slot>)
    ensures forall s | s in r :: s in slots
  {
    if slots == [] then []
    else if slots[0].cell == Prim(Undefined) then Defined(slots[1..])
    else [slots[0]] + Defined(slots[1..])
  }

  function InsertSlot(s: Slot, slots: seq<Slot>): (r: seq<Slot>)
    ensures forall x | x in r :: x == s || x in slots
  {
    if slots == [] || KeyLess(s.key, slots[0].key) then [s] + slots
    else [slots[0]] + InsertSlot(s, slots[1..])
  }

  function SortByKey(slots: seq<Slot>): (r: seq<Slot>)
    ensures forall x | x in r :: x in slots
  {
    if slots == [] then [] else InsertSlot(slots[0], SortByKey(slots[1..]))
  }

  function Join(parts: seq<string>): string {
    if parts == [] then "" else if |parts| == 1 then parts[0] else parts[0] + "," + Join(parts[1..])
  }

  function MembersOf(g: Graph, slots: seq<Slot>, seen: set<nat>): (r: seq<Member>)
    requires Closed(g) && SlotsInGraph(g, slots)
  {
    seq(|slots|, i requires 0 <= i < |slots| => Member(slots[i].key, Normal(Unfold(g, slots[i].cell, seen))))
  }

  lemma MembersCons(g: Graph, s: Slot, slots: seq<Slot>, seen: set<nat>)
    requires Closed(g) && SlotsInGraph(g, slots) && InGraph(g, s.cell)
    ensures MembersOf(g, [s] + slots, seen)
         == [Member(s.key, Normal(Unfold(g, s.cell, seen)))] + MembersOf(g, slots, seen)
  {
  }

  lemma InsertBelow(m: Member, x: Member, ms: seq<Member>)
    ensures Insert(m, [x] + ms) == if KeyLess(m.key, x.key) then [m] + ([x] + ms) else [x] + Insert(m, ms)
  {
    assert ([x] + ms)[1..] == ms;
  }

  lemma {:induction false} InsertCommutes(g: Graph, s: Slot, slots: seq<Slot>, seen: set<nat>)
    requires Closed(g) && SlotsInGraph(g, slots) && InGraph(g, s.cell)
    ensures MembersOf(g, InsertSlot(s, slots), seen)
         == Insert(Member(s.key, Normal(Unfold(g, s.cell, seen))), MembersOf(g, slots, seen))
  {
    var m := Member(s.key, Normal(Unfold(g, s.cell, seen)));
    if slots == [] || KeyLess(s.key, slots[0].key) {
      MembersCons(g, s, slots, seen);
    } else {
      InsertCommutes(g, s, slots[1..], seen);
      MembersCons(g, slots[0], InsertSlot(s, slots[1..]), seen);
    }
    if slots != [] {
      var x := Member(slots[0].key, Normal(Unfold(g, slots[0].cell, seen)));
      assert slots == [slots[0]] + slots[1..];
      MembersCons(g, slots[0], slots[1..], seen);
      InsertBelow(m, x, MembersOf(g, slots[1..], seen));
    }
  }

  /** Filtering and sorting before serializing gives the sorted members of the normal form. */
  lemma {:induction false} SortedMembers(g: Graph, slots: seq<Slot>, seen: set<nat>)
    requires Closed(g) && SlotsInGraph(g, slots)
    ensures SlotsInGraph(g, SortByKey(Defined(slots)))
    ensures NormalEntries(UnfoldSlots(g, slots, seen)) == MembersOf(g, SortByKey(Defined(slots)), seen)
  {
    if slots != [] {
      SortedMembers(g, slots[1..], seen);
      assert UnfoldSlots(g, slots, seen)[1..] == UnfoldSlots(g, slots[1..], seen);
      if slots[0].cell != Prim(Undefined) {
        assert Defined(slots)[1..] == Defined(slots[1..]);
        InsertCommutes(g, slots[0], SortByKey(Defined(slots[1..])), seen);
      }
    }
  }

  lemma {:induction false} JoinItems(items: seq<J>, parts: seq<string>)
    requires |parts| == |items| && forall i | 0 <= i < |items| :: parts[i] == Print(items[i])
    ensures Join(parts) == PrintItems(items)
  {
    if |items| > 1 { JoinItems(items[1..], parts[1..]); }
  }

  lemma {:induction false} JoinMembers(ms: seq<Member>, parts: seq<string>)
    requires |parts| == |ms| && forall i | 0 <= i < |ms| :: parts[i] == PrintMember(ms[i])
    ensures Join(parts) == PrintMembers(ms)
  {
    if |ms| > 1 { JoinMembers(ms[1..], parts[1..]); }
  }

  predicate AllPrintable(g: Graph, slots: seq<Slot>, seen: set<nat>)
    requires Closed(g) && SlotsInGraph(g, slots)
  {
    forall s | s in slots :: Printable(Unfold(g, s.cell, seen))
  }

  lemma EntriesPrintable(g: Graph, slots: seq<Slot>, seen: set<nat>)
    requires Closed(g) && SlotsInGraph(g, slots)
    ensures Printable(Obj(UnfoldSlots(g, slots, seen))) <==> AllPrintable(g, slots, seen)
  {
    var es := UnfoldSlots(g, slots, seen);
    forall i | 0 <= i < |slots| ensures es[i].value == Unfold(g, slots[i].cell, seen) {
      SlotAt(g, slots, seen, i);
    }
    if Printable(Obj(es)) {
      assert forall i | 0 <= i < |es| :: es[i] in es;
    }
    if AllPrintable(g, slots, seen) {
      assert forall i | 0 <= i < |slots| :: slots[i] in slots;
    }
  }

  /** An object has a strict text exactly when every defined value in it has one. */
  lemma PrintableSlots(g: Graph, slots: seq<Slot>, sorted: seq<Slot>, seen: set<nat>)
    requires Closed(g) && SlotsInGraph(g, slots) && SlotsInGraph(g, sorted) && sorted == SortByKey(Defined(slots))
    ensures Printable(Obj(UnfoldSlots(g, slots, seen))) <==> AllPrintable(g, sorted, seen)
  {
    EntriesPrintable(g, slots, seen);
    forall s | s in slots && s.cell != Prim(Undefined) ensures s in sorted {
      DefinedHolds(slots, s);
      SortHolds(Defined(slots), s);
    }
  }

  lemma {:induction false} DefinedHolds(slots: seq<Slot>, s: Slot)
    requires s in slots && s.cell != Prim(Undefined)
    ensures s in Defined(slots)
  {
    if slots[0] != s { DefinedHolds(slots[1..], s); }
  }

  lemma {:induction false} SortHolds(slots: seq<Slot>, s: Slot)
    requires s in slots
    ensures s in SortByKey(slots)
  {
    if slots[0] != s { SortHolds(slots[1..], s); }
    InsertHolds(slots[0], SortByKey(slots[1..]));
  }

  lemma {:induction false} InsertHolds(s: Slot, slots: seq<Slot>)
    ensures s in InsertSlot(s, slots) && forall x | x in slots :: x in InsertSlot(s, slots)
  {
    if slots != [] && !KeyLess(s.key, slots[0].key) {
      InsertHolds(s, slots[1..]);
      assert forall x | x in slots :: x == slots[0] || x in slots[1..];
    }
  }

  // ---- One object's text from the texts of its parts ----

  /** All the texts, or a throw if one of them is missing. */
  function Collect(os: seq<Option<string>>): Option<seq<string>> {
    if os == [] then Some([])
    else
      var last := |os| - 1;
      var init := Collect(os[..last]);
      if init.None? || os[last].None? then None else Some(init.value + [os[last].value])
  }

  function Bracketed(open: string, parts: Option<seq<string>>, close: string): Option<string> {
    if parts.None? then None else Some(open + Join(parts.value) + close)
  }

  lemma {:induction false} CollectEach(os: seq<Option<string>>)
    ensures Collect(os).None? <==> None in os
    ensures Collect(os).Some? ==>
              |Collect(os).value| == |os| && forall i | 0 <= i < |os| :: os[i] == Some(Collect(os).value[i])
  {
    if os != [] {
      var last := |os| - 1;
      CollectEach(os[..last]);
      assert os == os[..last] + [os[last]];
    }
  }

  lemma CollectNext(os: seq<Option<string>>, n: nat)
    requires n < |os|
    ensures Collect(os[..n + 1])
         == if Collect(os[..n]).None? || os[n].None? then None else Some(Collect(os[..n]).value + [os[n].value])
    ensures Collect(os[..0]) == Some([]) && os[..|os|] == os
  {
    assert os[..n + 1][..n] == os[..n];
  }

  lemma CollectPrefix(os: seq<Option<string>>, n: nat)
    requires n <= |os| && Collect(os[..n]).None?
    ensures Collect(os).None?
  {
    CollectEach(os);
    CollectEach(os[..n]);
  }

  lemma ItemsText(values: seq<Value>, strict: bool, os: seq<Option<string>>)
    requires |os| == |values| && forall i | 0 <= i < |values| :: os[i] == TextOf(values[i], strict)
    ensures TextOf(Arr(values), strict) == Bracketed("[", Collect(os), "]")
  {
    CollectEach(os);
    if Collect(os).None? {
      var i :| 0 <= i < |os| && os[i] == None;
      assert values[i] in values;
    } else {
      JoinItems(NormalItems(values), Collect(os).value);
    }
  }

  /** The text of one member, or a throw. */
  function SlotText(g: Graph, s: Slot, seen: set<nat>, strict: bool): Option<string>
    requires Closed(g) && InGraph(g, s.cell)
  {
    var t := TextOf(Unfold(g, s.cell, seen), strict);
    if t.None? then None else Some(Quote(s.key) + ":" + t.value)
  }

  lemma EntriesText(es: seq<Entry>, strict: bool)
    ensures TextOf(Obj(es), strict)
         == if strict && !Printable(Obj(es)) then None else Some("{" + PrintMembers(NormalEntries(es)) + "}")
  {
  }

  lemma ObjectText(g: Graph, slots: seq<Slot>, sorted: seq<Slot>, seen: set<nat>, strict: bool)
    requires Closed(g) && SlotsInGraph(g, slots) && SlotsInGraph(g, sorted) && sorted == SortByKey(Defined(slots))
    ensures TextOf(Obj(UnfoldSlots(g, slots, seen)), strict)
         == if strict && !AllPrintable(g, sorted, seen) then None
            else Some("{" + PrintMembers(MembersOf(g, sorted, seen)) + "}")
  {
    SortedMembers(g, slots, seen);
    PrintableSlots(g, slots, sorted, seen);
    EntriesText(UnfoldSlots(g, slots, seen), strict);
  }

  function ItemOutcomes(g: Graph, items: seq<Cell>, seen: set<nat>, strict: bool): (r: seq<Option<string>>)
    requires Closed(g) && forall c | c in items :: InGraph(g, c)
    ensures |r| == |items|
  {
    if items == [] then []
    else [TextOf(Unfold(g, items[0], seen), strict)] + ItemOutcomes(g, items[1..], seen, strict)
  }

  lemma {:induction false} ItemOutcomeAt(g: Graph, items: seq<Cell>, seen: set<nat>, strict: bool, i: nat)
    requires Closed(g) && i < |items| && forall c | c in items :: InGraph(g, c)
    ensures ItemOutcomes(g, items, seen, strict)[i] == TextOf(Unfold(g, items[i], seen), strict)
    decreases |items|
  {
    if i > 0 { ItemOutcomeAt(g, items[1..], seen, strict, i - 1); }
  }

  function SlotOutcomes(g: Graph, slots: seq<Slot>, seen: set<nat>, strict: bool): (r: seq<Option<string>>)
    requires Closed(g) && SlotsInGraph(g, slots)
    ensures |r| == |slots|
  {
    if slots == [] then [] else [SlotText(g, slots[0], seen, strict)] + SlotOutcomes(g, slots[1..], seen, strict)
  }

  lemma {:induction false} SlotOutcomeAt(g: Graph, slots: seq<Slot>, seen: set<nat>, strict: bool, i: nat)
    requires Closed(g) && SlotsInGraph(g, slots) && i < |slots|
    ensures SlotOutcomes(g, slots, seen, strict)[i] == SlotText(g, slots[i], seen, strict)
    decreases |slots|
  {
    if i > 0 { SlotOutcomeAt(g, slots[1..], seen, strict, i - 1); }
  }

  lemma SlotsThrow(g: Graph, sorted: seq<Slot>, seen: set<nat>, strict: bool)
    requires Closed(g) && SlotsInGraph(g, sorted)
    ensures Collect(SlotOutcomes(g, sorted, seen, strict)).None? <==> strict && !AllPrintable(g, sorted, seen)
  {
    var os := SlotOutcomes(g, sorted, seen, strict);
    CollectEach(os);
    forall i | 0 <= i < |sorted| ensures os[i].None? <==> strict && !Printable(Unfold(g, sorted[i].cell, seen)) {
      SlotOutcomeAt(g, sorted, seen, strict, i);
    }
    if None in os {
      var i :| 0 <= i < |os| && os[i] == None;
      assert sorted[i] in sorted;
    }
  }

  lemma SlotsText(g: Graph, slots: seq<Slot>, sorted: seq<Slot>, seen: set<nat>, strict: bool)
    requires Closed(g) && SlotsInGraph(g, slots) && SlotsInGraph(g, sorted) && sorted == SortByKey(Defined(slots))
    ensures TextOf(Obj(UnfoldSlots(g, slots, seen)), strict)
         == Bracketed("{", Collect(SlotOutcomes(g, sorted, seen, strict)), "}")
  {
    var os := SlotOutcomes(g, sorted, seen, strict);
    ObjectText(g, slots, sorted, seen, strict);
    SlotsThrow(g, sorted, seen, strict);
    if Collect(os).Some? {
      CollectEach(os);
      forall i | 0 <= i < |sorted| ensures Collect(os).value[i] == PrintMember(MembersOf(g, sorted, seen)[i]) {
        SlotOutcomeAt(g, sorted, seen, strict, i);
      }
      JoinMembers(MembersOf(g, sorted, seen), Collect(os).value);
    }
  }

  lemma Entering(g: Graph, o: nat, seen: set<nat>)
    requires Closed(g) && o in g && o !in seen
    ensures g.Keys - (seen + {o}) < g.Keys - seen && (seen + {o}) - {o} == seen
    ensures g[o].ArrayNode? ==> forall c | c in g[o].items :: InGraph(g, c)
    ensures g[o].ObjectNode? ==> SlotsInGraph(g, g[o].slots)
    ensures g[o].ArrayNode? ==> Unfold(g, Ref(o), seen) == Arr(UnfoldItems(g, g[o].items, seen + {o}))
    ensures g[o].ObjectNode? ==> Unfold(g, Ref(o), seen) == Obj(UnfoldSlots(g, g[o].slots, seen + {o}))
  {
    assert o in g.Keys - seen;
    NodeInGraph(g, o);
  }

  // ---- The serializer itself ----

  method SerializeLeaf(v: Leaf, strict: bool) returns (r: Option<string>)
    ensures r == TextOf(v, strict)
  {
    if v.Null? || v.Undefined? {
      r := Some("null");
    } else if v.BigInt? {
      r := if strict then None else Some(Quote(IntText(v.i)));
    } else if v.Opaque? {
      r := if strict then None else Some("null");
    } else {
      r := Some(Print(Normal(v)));
    }
  }

  class Serializer {
    /** The objects the current call is inside of. */
    var seen: set<nat>

    constructor ()
      ensures seen == {}
    {
      seen := {};
    }

    /**
     Serializes one value. The set is the same afterwards, whether a text or a throw (None) comes
     back; the result is the text of the unfolding in the chosen mode.
     */
    method Serialize(g: Graph, c: Cell, strict: bool) returns (r: Option<string>)
      requires Closed(g) && InGraph(g, c)
      modifies this
      ensures seen == old(seen)
      ensures r == TextOf(Unfold(g, c, old(seen)), strict)
      decreases g.Keys - seen, 0
    {
      if c.Prim? {
        r := SerializeLeaf(c.v, strict);
      } else if c.r in seen {
        r := if strict then None else Some(Print(JStr("[Circular]")));
      } else {
        Entering(g, c.r, seen);
        seen := seen + {c.r};
        if g[c.r].ArrayNode? {
          r := SerializeItems(g, g[c.r].items, strict);
        } else {
          r := SerializeSlots(g, g[c.r].slots, strict);
        }
        seen := seen - {c.r};
      }
    }

    method SerializeItems(g: Graph, items: seq<Cell>, strict: bool) returns (r: Option<string>)
      requires Closed(g) && forall c | c in items :: InGraph(g, c)
      modifies this
      ensures seen == old(seen)
      ensures r == TextOf(Arr(UnfoldItems(g, items, old(seen))), strict)
      decreases g.Keys - seen, 2
    {
      ItemsText(UnfoldItems(g, items, seen), strict, ItemOutcomes(g, items, seen, strict)) by {
        forall i | 0 <= i < |items| ensures ItemOutcomes(g, items, seen, strict)[i]
                                         == TextOf(UnfoldItems(g, items, seen)[i], strict) {
          ItemAt(g, items, seen, i);
          ItemOutcomeAt(g, items, seen, strict, i);
        }
      }
      var parts := ItemParts(g, items, strict);
      r := Bracketed("[", parts, "]");
    }

    method ItemParts(g: Graph, items: seq<Cell>, strict: bool) returns (r: Option<seq<string>>)
      requires Closed(g) && forall c | c in items :: InGraph(g, c)
      modifies this
      ensures seen == old(seen)
      ensures r == Collect(ItemOutcomes(g, items, old(seen), strict))
      decreases g.Keys - seen, 1
    {
      var parts: seq<string> := [];
      ghost var os := ItemOutcomes(g, items, seen, strict);
      for n := 0 to |items|
        invariant seen == old(seen)
        invariant Collect(os[..n]) == Some(parts)
      {
        CollectNext(os, n);
        ItemOutcomeAt(g, items, seen, strict, n);
        var part := Serialize(g, items[n], strict);
        if part.None? {
          CollectPrefix(os, n + 1);
          return None;
        }
        parts := parts + [part.value];
      }
      assert os[..|items|] == os;
      r := Some(parts);
    }

    method SerializeSlots(g: Graph, slots: seq<Slot>, strict: bool) returns (r: Option<string>)
      requires Closed(g) && SlotsInGraph(g, slots)
      modifies this
      ensures seen == old(seen)
      ensures r == TextOf(Obj(UnfoldSlots(g, slots, old(seen))), strict)
      decreases g.Keys - seen, 2
    {
      var sorted := SortByKey(Defined(slots));
      SlotsText(g, slots, sorted, seen, strict);
      var parts := SlotParts(g, sorted, strict);
      r := Bracketed("{", parts, "}");
    }

    method SlotParts(g: Graph, slots: seq<Slot>, strict: bool) returns (r: Option<seq<string>>)
      requires Closed(g) && SlotsInGraph(g, slots)
      modifies this
      ensures seen == old(seen)
      ensures r == Collect(SlotOutcomes(g, slots, old(seen), strict))
      decreases g.Keys - seen, 1
    {
      var parts: seq<string> := [];
      ghost var os := SlotOutcomes(g, slots, seen, strict);
      for n := 0 to |slots|
        invariant seen == old(seen)
        invariant Collect(os[..n]) == Some(parts)
      {
        CollectNext(os, n);
        SlotOutcomeAt(g, slots, seen, strict, n);
        var part := Serialize(g, slots[n].cell, strict);
        if part.None? {
          CollectPrefix(os, n + 1);
          return None;
        }
        parts := parts + [Quote(slots[n].key) + ":" + part.value];
      }
      assert os[..|slots|] == os;
      r := Some(parts);
    }
  }

  // ---- What the two modes promise ----

  /**
   A path of child positions from a value to something strict mode has no text for: a BigInt, a
   function or symbol, or a reference back to an object the path is inside of.
   */
  predicate Offends(g: Graph, c: Cell, path: seq<nat>, seen: set<nat>)
    requires Closed(g) && InGraph(g, c)
    decreases path
  {
    match c
    case Prim(v) => path == [] && (v.BigInt? || v.Opaque?)
    case Ref(r) =>
      if r in seen then path == []
      else
        && path != []
        && path[0] < |Children(g[r])|
        && Offends(g, Children(g[r])[path[0]], path[1..], seen + {r})
  }

  ghost predicate HasOffence(g: Graph, c: Cell)
    requires Closed(g) && InGraph(g, c)
  {
    exists path: seq<nat> :: Offends(g, c, path, {})
  }

  lemma {:induction false} OffenceFound(g: Graph, c: Cell, seen: set<nat>) returns (path: seq<nat>)
    requires Closed(g) && InGraph(g, c) && !Printable(Unfold(g, c, seen))
    ensures Offends(g, c, path, seen)
    decreases g.Keys - seen
  {
    if c.Prim? || c.r in seen {
      path := [];
    } else {
      var r := c.r;
      NodeInGraph(g, r);
      var inner := seen + {r};
      assert g.Keys - inner < g.Keys - seen by { assert r in g.Keys - seen; }
      var n: nat;
      if g[r].ArrayNode? {
        n :| n < |g[r].items| && !Printable(UnfoldItems(g, g[r].items, inner)[n]);
        ItemAt(g, g[r].items, inner, n);
      } else {
        n :| n < |g[r].slots| && !Printable(UnfoldSlots(g, g[r].slots, inner)[n].value);
        SlotAt(g, g[r].slots, inner, n);
      }
      var rest := OffenceFound(g, Children(g[r])[n], inner);
      path := [n] + rest;
      assert path[1..] == rest;
    }
  }

  lemma {:induction false} OffenceThrows(g: Graph, c: Cell, path: seq<nat>, seen: set<nat>)
    requires Closed(g) && InGraph(g, c) && Offends(g, c, path, seen)
    ensures !Printable(Unfold(g, c, seen))
    decreases path
  {
    if c.Ref? && c.r !in seen {
      var r := c.r;
      NodeInGraph(g, r);
      var inner := seen + {r};
      OffenceThrows(g, Children(g[r])[path[0]], path[1..], inner);
      if g[r].ArrayNode? {
        ItemAt(g, g[r].items, inner, path[0]);
        assert UnfoldItems(g, g[r].items, inner)[path[0]] in UnfoldItems(g, g[r].items, inner);
      } else {
        SlotAt(g, g[r].slots, inner, path[0]);
        assert UnfoldSlots(g, g[r].slots, inner)[path[0]] in UnfoldSlots(g, g[r].slots, inner);
      }
    }
  }

  /**
   On every finite graph the lenient mode yields a text; strict mode throws exactly when some path
   reaches a BigInt, a function, a symbol or a cycle, and otherwise the two texts agree.
   */
  lemma StrictThrowsIffOffence(g: Graph, c: Cell)
    requires Closed(g) && InGraph(g, c)
    ensures TextOf(Unfold(g, c, {}), false).Some?
    ensures TextOf(Unfold(g, c, {}), true).None? <==> HasOffence(g, c)
    ensures TextOf(Unfold(g, c, {}), true).Some? ==> TextOf(Unfold(g, c, {}), true) == TextOf(Unfold(g, c, {}), false)
  {
    if !Printable(Unfold(g, c, {})) {
      var path := OffenceFound(g, c, {});
      assert Offends(g, c, path, {});
    } else {
      forall path: seq<nat> | Offends(g, c, path, {}) ensures false {
        OffenceThrows(g, c, path, {});
      }
    }
  }

  lemma {:induction false} UnfoldWellFormed(g: Graph, c: Cell, seen: set<nat>)
    requires Closed(g) && DistinctSlots(g) && InGraph(g, c)
    ensures WellFormed(Unfold(g, c, seen))
    decreases g.Keys - seen, 0, 0
  {
    if c.Ref? && c.r !in seen {
      Entering(g, c.r, seen);
      if g[c.r].ArrayNode? {
        ItemsWellFormed(g, g[c.r].items, seen + {c.r});
      } else {
        SlotsWellFormed(g, g[c.r].slots, seen + {c.r});
      }
    }
  }

  lemma {:induction false} ItemsWellFormed(g: Graph, items: seq<Cell>, seen: set<nat>)
    requires Closed(g) && DistinctSlots(g) && forall c | c in items :: InGraph(g, c)
    ensures WellFormed(Arr(UnfoldItems(g, items, seen)))
    decreases g.Keys - seen, 1, |items|
  {
    var values := UnfoldItems(g, items, seen);
    forall i | 0 <= i < |items| ensures WellFormed(values[i]) {
      ItemAt(g, items, seen, i);
      UnfoldWellFormed(g, items[i], seen);
    }
  }

  lemma {:induction false} SlotsWellFormed(g: Graph, slots: seq<Slot>, seen: set<nat>)
    requires Closed(g) && DistinctSlots(g) && SlotsInGraph(g, slots)
    requires forall i, j | 0 <= i < j < |slots| :: slots[i].key != slots[j].key
    ensures WellFormed(Obj(UnfoldSlots(g, slots, seen)))
    decreases g.Keys - seen, 1, |slots|
  {
    var es := UnfoldSlots(g, slots, seen);
    forall i | 0 <= i < |slots| ensures es[i].key == slots[i].key && WellFormed(es[i].value) {
      SlotAt(g, slots, seen, i);
      UnfoldWellFormed(g, slots[i].cell, seen);
    }
  }

  /** canonicalJson on two object graphs: the same text exactly when they unfold to the same document. */
  lemma GraphsExact(g: Graph, c: Cell, h: Graph, d: Cell)
    requires Closed(g) && DistinctSlots(g) && InGraph(g, c) && Closed(h) && DistinctSlots(h) && InGraph(h, d)
    requires !HasOffence(g, c) && !HasOffence(h, d)
    ensures TextOf(Unfold(g, c, {}), true).Some? && TextOf(Unfold(h, d, {}), true).Some?
    ensures TextOf(Unfold(g, c, {}), true) == TextOf(Unfold(h, d, {}), true)
        <==> Same(Unfold(g, c, {}), Unfold(h, d, {}))
  {
    StrictThrowsIffOffence(g, c);
    StrictThrowsIffOffence(h, d);
    UnfoldWellFormed(g, c, {});
    UnfoldWellFormed(h, d, {});
    Canonical.CanonicalExact(Unfold(g, c, {}), Unfold(h, d, {}));
  }
}
