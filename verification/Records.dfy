/** Objects written down key by key, some keys left out when their value is undefined. */
module Records {
  import opened Text
  import opened Json

  predicate Distinct(keys: seq<string>) {
    forall i, j | 0 <= i < j < |keys| :: keys[i] != keys[j]
  }

  /** The entries of a record from key i on; an optional key is omitted when its value is undefined. */
  function RecordFrom(keys: seq<string>, optional: set<nat>, vs: seq<Value>, i: nat): seq<Entry>
    requires |vs| == |keys| && i <= |keys|
    decreases |vs| - i
  {
    if i == |keys| then []
    else if i in optional && vs[i].Undefined? then RecordFrom(keys, optional, vs, i + 1)
    else [Entry(keys[i], vs[i])] + RecordFrom(keys, optional, vs, i + 1)
  }

  function Record(keys: seq<string>, optional: set<nat>, vs: seq<Value>): Value
    requires |vs| == |keys|
  {
    Obj(RecordFrom(keys, optional, vs, 0))
  }

  function Present(v: Value): Option<Value> {
    if v.Undefined? then None else Some(v)
  }

  /** An object holds a field under a key; an undefined one counts as absent. */
  predicate Under(v: Value, key: string, field: Value) {
    v.Obj? && Get(v.entries, key) == if field.Undefined? then None else Some(field)
  }

  lemma {:induction false} EntryOf(keys: seq<string>, optional: set<nat>, vs: seq<Value>, i: nat,
      x: Entry) returns (m: nat)
    requires |vs| == |keys| && i <= |keys| && x in RecordFrom(keys, optional, vs, i)
    ensures i <= m < |keys| && x == Entry(keys[m], vs[m])
    decreases |vs| - i
  {
    m := i;
    if x != Entry(keys[i], vs[i]) || (i in optional && vs[i].Undefined?) {
      m := EntryOf(keys, optional, vs, i + 1, x);
    }
  }

  lemma {:induction false} RecordDistinct(keys: seq<string>, optional: set<nat>, vs: seq<Value>, i: nat)
    requires |vs| == |keys| && i <= |keys| && Distinct(keys)
    ensures DistinctKeys(RecordFrom(keys, optional, vs, i))
    decreases |vs| - i
  {
    if i < |keys| {
      RecordDistinct(keys, optional, vs, i + 1);
      forall x | x in RecordFrom(keys, optional, vs, i + 1) ensures x.key != keys[i] {
        var m := EntryOf(keys, optional, vs, i + 1, x);
      }
    }
  }

  lemma {:induction false} RecordAt(keys: seq<string>, optional: set<nat>, vs: seq<Value>, i: nat, j: nat)
    requires |vs| == |keys| && j < |keys| && i <= |keys| && Distinct(keys)
    ensures Get(RecordFrom(keys, optional, vs, i), keys[j]) == if j < i then None else Present(vs[j])
    decreases |vs| - i
  {
    if i < |keys| {
      RecordAt(keys, optional, vs, i + 1, j);
      GetFirst(Entry(keys[i], vs[i]), RecordFrom(keys, optional, vs, i + 1), keys[j]);
    }
  }

  lemma {:induction false} RecordHolds(keys: seq<string>, optional: set<nat>, vs: seq<Value>, i: nat, j: nat)
    requires |vs| == |keys| && i <= j < |keys| && !vs[j].Undefined?
    ensures Entry(keys[j], vs[j]) in RecordFrom(keys, optional, vs, i)
    decreases |vs| - i
  {
    if j > i { RecordHolds(keys, optional, vs, i + 1, j); }
  }

  predicate AllPrintable(vs: seq<Value>) {
    forall i | 0 <= i < |vs| :: Printable(vs[i])
  }

  predicate AllWellFormed(vs: seq<Value>) {
    forall i | 0 <= i < |vs| :: WellFormed(vs[i])
  }

  lemma RecordPrintable(keys: seq<string>, optional: set<nat>, vs: seq<Value>)
    requires |vs| == |keys|
    ensures Printable(Record(keys, optional, vs)) <==> AllPrintable(vs)
  {
    if AllPrintable(vs) {
      forall x | x in RecordFrom(keys, optional, vs, 0) ensures Printable(x.value) {
        var m := EntryOf(keys, optional, vs, 0, x);
      }
    }
    if Printable(Record(keys, optional, vs)) {
      forall j | 0 <= j < |vs| ensures Printable(vs[j]) {
        if !vs[j].Undefined? { RecordHolds(keys, optional, vs, 0, j); }
      }
    }
  }

  lemma RecordWellFormed(keys: seq<string>, optional: set<nat>, vs: seq<Value>)
    requires |vs| == |keys| && Distinct(keys) && AllWellFormed(vs)
    ensures WellFormed(Record(keys, optional, vs))
  {
    RecordDistinct(keys, optional, vs, 0);
    forall x | x in RecordFrom(keys, optional, vs, 0) ensures WellFormed(x.value) {
      var m := EntryOf(keys, optional, vs, 0, x);
    }
  }

  lemma AbsentKey(keys: seq<string>, optional: set<nat>, vs: seq<Value>, k: string)
    requires |vs| == |keys| && k !in keys
    ensures Get(RecordFrom(keys, optional, vs, 0), k).None?
  {
    var r := Get(RecordFrom(keys, optional, vs, 0), k);
    if r.Some? {
      var m := EntryOf(keys, optional, vs, 0, Entry(k, r.value));
    }
  }

  /** Two records over the same keys are the same document exactly when they agree under every key. */
  lemma SameRecord(keys: seq<string>, optional: set<nat>, vs: seq<Value>, ws: seq<Value>)
    requires |vs| == |keys| == |ws| && Distinct(keys)
    ensures Same(Record(keys, optional, vs), Record(keys, optional, ws))
       <==> forall i | 0 <= i < |keys| :: SameMember(vs[i], ws[i])
  {
    var es, fs := RecordFrom(keys, optional, vs, 0), RecordFrom(keys, optional, ws, 0);
    forall i | 0 <= i < |keys|
      ensures Get(es, keys[i]) == Present(vs[i]) && Get(fs, keys[i]) == Present(ws[i])
    {
      RecordAt(keys, optional, vs, 0, i);
      RecordAt(keys, optional, ws, 0, i);
    }
    if Same(Obj(es), Obj(fs)) {
      forall i | 0 <= i < |keys| ensures SameMember(vs[i], ws[i]) {
        assert Get(es, keys[i]).Some? <==> Get(fs, keys[i]).Some?;
      }
    }
    if forall i | 0 <= i < |keys| :: SameMember(vs[i], ws[i]) {
      forall k: string
        ensures (Get(es, k).Some? <==> Get(fs, k).Some?)
             && (Get(es, k).Some? ==> Same(Get(es, k).value, Get(fs, k).value))
      {
        if k in keys {
          var i: nat :| i < |keys| && keys[i] == k;
        } else {
          AbsentKey(keys, optional, vs, k);
          AbsentKey(keys, optional, ws, k);
        }
      }
    }
  }
}
