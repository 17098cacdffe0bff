/** The bounded event store shared by all sessions, and the per-session scope in front of it. */
module EventStore {
  import opened Text

  /** One event as its session wrote it. */
  datatype Written = Written(session: string, stream: string, message: string)

  /** One entry of the shared store. */
  datatype Stored = Stored(id: string, streamId: string, message: string)

  // ---- Unbounded private logs ----

  /** The id of event number j. */
  function IdOf(j: nat): string {
    NatText(j + 1)
  }

  /** From number i on, what one session wrote to one stream: the replay a private log would give. */
  function OwnAfter(history: seq<Written>, i: nat, session: string, stream: string): seq<Stored>
    requires i <= |history|
    decreases |history| - i
  {
    if i == |history| then []
    else
      var rest := OwnAfter(history, i + 1, session, stream);
      if history[i].session == session && history[i].stream == stream
      then [Stored(NatText(i + 1), session + ":" + stream, history[i].message)] + rest
      else rest
  }

  // ---- The shared store ----

  /** Stream ids are namespaced by session. */
  function Key(session: string, stream: string): string {
    session + ":" + stream
  }

  function EntryOf(history: seq<Written>, j: nat): Stored
    requires j < |history|
  {
    Stored(IdOf(j), Key(history[j].session, history[j].stream), history[j].message)
  }

  /** The first event still held after the whole history was stored with room for maxEvents. */
  function Oldest(n: nat, maxEvents: nat): nat {
    if n <= maxEvents then 0 else n - maxEvents
  }

  function EntriesFrom(history: seq<Written>, i: nat): (r: seq<Stored>)
    requires i <= |history|
    ensures |r| == |history| - i
    decreases |history| - i
  {
    if i == |history| then [] else [EntryOf(history, i)] + EntriesFrom(history, i + 1)
  }

  /** First in, first out: the last maxEvents entries. */
  function Kept(history: seq<Written>, maxEvents: nat): seq<Stored> {
    EntriesFrom(history, Oldest(|history|, maxEvents))
  }

  function Find(entries: seq<Stored>, id: string): Option<Stored> {
    if entries == [] then None
    else if entries[0].id == id then Some(entries[0])
    else Find(entries[1..], id)
  }

  predicate Numbered(entries: seq<Stored>) {
    forall k | 0 <= k < |entries| :: forall c | c in entries[k].id :: IsDigit(c)
  }

  /** The entries of one stream with a number above a bound, in order. */
  function After(entries: seq<Stored>, streamId: string, bound: nat): seq<Stored>
    requires Numbered(entries)
  {
    if entries == [] then []
    else
      assert Numbered(entries[1..]);
      assert forall c | c in entries[0].id :: IsDigit(c);
      var rest := After(entries[1..], streamId, bound);
      if entries[0].streamId == streamId && NatValue(entries[0].id) > bound then [entries[0]] + rest else rest
  }

  /** What a replay returns: the stream it belongs to, empty when the cursor is unknown, and what it sends. */
  datatype Replay = Replay(stream: string, sent: seq<Stored>)

  class InMemoryEventStore {
    const maxEvents: nat
    var store: seq<Stored>
    var seqNo: nat
    ghost var history: seq<Written>

    ghost predicate Valid()
      reads this
    {
      seqNo == |history| && store == Kept(history, maxEvents)
    }

    constructor (maxEvents: nat)
      ensures this.maxEvents == maxEvents && Valid() && history == []
    {
      this.maxEvents := maxEvents;
      store, seqNo, history := [], 0, [];
    }

    /** Stores one event through a session's scope; the oldest entry goes when there are too many. */
    method StoreEvent(session: string, stream: string, message: string) returns (id: string)
      requires Valid()
      modifies this
      ensures Valid() && history == old(history) + [Written(session, stream, message)]
      ensures id == NatText(|old(history)| + 1)
    {
      ghost var before := history;
      seqNo := seqNo + 1;
      id := NatText(seqNo);
      store := store + [Stored(id, Key(session, stream), message)];
      history := history + [Written(session, stream, message)];
      if |store| > maxEvents {
        store := store[1..];
      }
      KeptGrows(before, maxEvents, Written(session, stream, message));
    }

    method GetStreamIdForEventId(eventId: string) returns (streamId: Option<string>)
      ensures streamId == if Find(store, eventId).Some? then Some(Find(store, eventId).value.streamId) else None
    {
      ghost var all := store;
      for i := 0 to |store|
        invariant store == all && Find(all, eventId) == Find(all[i..], eventId)
      {
        if store[i].id == eventId {
          return Some(store[i].streamId);
        }
      }
      return None;
    }

    /** Replays a stream from a cursor; a cursor that is not held replays nothing. */
    method ReplayEventsAfter(lastEventId: string) returns (r: Replay)
      requires Valid()
      ensures r == ReplayOf(history, maxEvents, lastEventId)
    {
      KeptNumbered(history, maxEvents);
      var origin := GetStreamIdForEventId(lastEventId);
      if origin.None? {
        return Replay("", []);
      }
      FoundIsNumbered(store, lastEventId);
      var afterSeq := NatValue(lastEventId);
      var sent: seq<Stored> := [];
      ghost var all := store;
      for i := 0 to |store|
        invariant store == all && Numbered(all)
        invariant AfterPart(all, i, sent, origin.value, afterSeq)
      {
        assert forall c | c in all[i].id :: IsDigit(c);
        AfterStep(all, i, sent, origin.value, afterSeq);
        if store[i].streamId == origin.value && NatValue(store[i].id) > afterSeq {
          sent := sent + [store[i]];
        }
      }
      AfterDone(all, sent, origin.value, afterSeq);
      return Replay(origin.value, sent);
    }
  }

  // ---- The replay loop ----

  predicate AfterPart(all: seq<Stored>, i: nat, sent: seq<Stored>, streamId: string, bound: nat)
    requires i <= |all| && Numbered(all)
  {
    Numbered(all[i..]) && sent + After(all[i..], streamId, bound) == After(all, streamId, bound)
  }

  lemma AfterStep(all: seq<Stored>, i: nat, sent: seq<Stored>, streamId: string, bound: nat)
    requires i < |all| && Numbered(all) && AfterPart(all, i, sent, streamId, bound)
    requires forall c | c in all[i].id :: IsDigit(c)
    ensures var next := if all[i].streamId == streamId && NatValue(all[i].id) > bound then sent + [all[i]] else sent;
            AfterPart(all, i + 1, next, streamId, bound)
  {
    assert all[i..][1..] == all[i + 1..];
    assert Numbered(all[i + 1..]);
    var rest := After(all[i + 1..], streamId, bound);
    assert sent + ([all[i]] + rest) == (sent + [all[i]]) + rest;
  }

  lemma AfterDone(all: seq<Stored>, sent: seq<Stored>, streamId: string, bound: nat)
    requires Numbered(all) && AfterPart(all, |all|, sent, streamId, bound)
    ensures sent == After(all, streamId, bound)
  {
    assert all[|all|..] == [];
  }

  /** A replay on what is held of a history. */
  function ReplayOf(history: seq<Written>, maxEvents: nat, lastEventId: string): Replay {
    var entries := Kept(history, maxEvents);
    var origin := Find(entries, lastEventId);
    if origin.None? then Replay("", [])
    else
      KeptNumbered(history, maxEvents);
      FoundIsNumbered(entries, lastEventId);
      Replay(origin.value.streamId, After(entries, origin.value.streamId, NatValue(lastEventId)))
  }

  lemma {:induction false} EntriesNumbered(history: seq<Written>, i: nat)
    requires i <= |history|
    ensures Numbered(EntriesFrom(history, i))
    decreases |history| - i
  {
    if i < |history| {
      EntriesNumbered(history, i + 1);
      var rest, all := EntriesFrom(history, i + 1), EntriesFrom(history, i);
      forall k | 0 <= k < |all| ensures forall c | c in all[k].id :: IsDigit(c) {
        if k > 0 { assert all[k] == rest[k - 1]; }
      }
    }
  }

  lemma KeptNumbered(history: seq<Written>, maxEvents: nat)
    ensures Numbered(Kept(history, maxEvents))
  {
    EntriesNumbered(history, Oldest(|history|, maxEvents));
  }

  lemma {:induction false} FoundIsNumbered(entries: seq<Stored>, id: string)
    requires Numbered(entries) && Find(entries, id).Some?
    ensures forall c | c in id :: IsDigit(c)
  {
    if entries[0].id != id {
      assert Numbered(entries[1..]);
      FoundIsNumbered(entries[1..], id);
    }
  }

  lemma {:induction false} EntriesGrow(history: seq<Written>, i: nat, w: Written)
    requires i <= |history|
    ensures EntriesFrom(history + [w], i) == EntriesFrom(history, i) + [EntryOf(history + [w], |history|)]
    decreases |history| - i
  {
    if i < |history| {
      EntriesGrow(history, i + 1, w);
      assert EntryOf(history + [w], i) == EntryOf(history, i);
    } else {
      assert EntriesFrom(history + [w], i + 1) == [];
    }
  }

  /** Storing one more event drops at most the oldest. */
  lemma KeptGrows(history: seq<Written>, maxEvents: nat, w: Written)
    ensures var more := Kept(history, maxEvents) + [Stored(IdOf(|history|), Key(w.session, w.stream), w.message)];
            Kept(history + [w], maxEvents) == if |more| > maxEvents then more[1..] else more
  {
    var i := Oldest(|history|, maxEvents);
    EntriesGrow(history, i, w);
    assert i < |history + [w]| ==> EntriesFrom(history + [w], i)[1..] == EntriesFrom(history + [w], i + 1);
  }

  // ---- The scope ----

  /** The session's own stream id, when a stream id is under its prefix. */
  function Own(session: string, streamId: string): Option<string> {
    if StartsWith(streamId, session + ":") then Some(streamId[|session| + 1..]) else None
  }

  /** A replay through a session's scope: a cursor of another session counts as unknown. */
  method ScopedReplayEventsAfter(store: InMemoryEventStore, session: string, lastEventId: string) returns (r: Replay)
    requires store.Valid()
    ensures r == ScopedReplay(store.history, store.maxEvents, session, lastEventId)
  {
    var streamId := store.GetStreamIdForEventId(lastEventId);
    if streamId.None? || Own(session, streamId.value).None? {
      return Replay("", []);
    }
    var replay := store.ReplayEventsAfter(lastEventId);
    var own := Own(session, replay.stream);
    return Replay(if own.Some? then own.value else "", replay.sent);
  }

  function ScopedReplay(history: seq<Written>, maxEvents: nat, session: string, lastEventId: string): Replay {
    var origin := Find(Kept(history, maxEvents), lastEventId);
    if origin.None? || Own(session, origin.value.streamId).None? then Replay("", [])
    else Replay(Own(session, origin.value.streamId).value, ReplayOf(history, maxEvents, lastEventId).sent)
  }

  predicate ColonFree(s: string) {
    ':' !in s
  }

  /** The first colon of a key is the separator. */
  lemma KeySplits(s: string, t: string, u: string, v: string)
    requires ColonFree(s) && ColonFree(u) && s + ":" + t == u + ":" + v
    ensures s == u && t == v
  {
    var x, y := s + ":" + t, u + ":" + v;
    assert x[|s|] == ':' && y[|u|] == ':';
    assert forall i | 0 <= i < |s| :: x[i] == s[i];
    assert forall i | 0 <= i < |u| :: y[i] == u[i];
    assert |s| == |u|;
    assert s == x[..|s|] && u == y[..|u|];
    assert t == x[|s| + 1..] && v == y[|u| + 1..];
  }

  lemma OwnIsMine(session: string, other: string, stream: string)
    requires ColonFree(session) && ColonFree(other)
    ensures Own(session, Key(other, stream)) == if other == session then Some(stream) else None
  {
    var k := Key(other, stream);
    if StartsWith(k, session + ":") {
      var rest := k[|session| + 1..];
      assert k == session + ":" + rest;
      KeySplits(other, stream, session, rest);
    }
    assert Key(session, stream)[..|session| + 1] == session + ":";
    assert Key(session, stream)[|session| + 1..] == stream;
  }

  predicate SessionsColonFree(history: seq<Written>) {
    forall j | 0 <= j < |history| :: ColonFree(history[j].session)
  }

  lemma {:induction false} FindEntry(history: seq<Written>, i: nat, j: nat)
    requires i <= j < |history|
    ensures Find(EntriesFrom(history, i), IdOf(j)) == Some(EntryOf(history, j))
    decreases |history| - i
  {
    var rest := EntriesFrom(history, i + 1);
    assert EntriesFrom(history, i)[1..] == rest;
    if i < j {
      if IdOf(i) == IdOf(j) { NatTextInjective(i + 1, j + 1); }
      FindEntry(history, i + 1, j);
    }
  }

  lemma {:induction false} FindIsEntry(history: seq<Written>, i: nat, id: string) returns (j: nat)
    requires i <= |history| && Find(EntriesFrom(history, i), id).Some?
    ensures i <= j < |history| && IdOf(j) == id && Find(EntriesFrom(history, i), id) == Some(EntryOf(history, j))
    decreases |history| - i
  {
    assert EntriesFrom(history, i)[1..] == EntriesFrom(history, i + 1);
    if EntriesFrom(history, i)[0].id == id {
      j := i;
    } else {
      j := FindIsEntry(history, i + 1, id);
    }
  }

  lemma AfterHead(entries: seq<Stored>, streamId: string, bound: nat)
    requires entries != [] && Numbered(entries)
    ensures Numbered(entries[1..]) && forall c | c in entries[0].id :: IsDigit(c)
    ensures After(entries, streamId, bound)
         == (if entries[0].streamId == streamId && NatValue(entries[0].id) > bound then [entries[0]] else [])
            + After(entries[1..], streamId, bound)
  {
    assert forall c | c in entries[0].id :: IsDigit(c);
    forall k | 0 <= k < |entries[1..]| ensures forall c | c in entries[1..][k].id :: IsDigit(c) {
      assert entries[1..][k] == entries[k + 1];
    }
  }

  lemma UnderKey(w: Written, session: string, stream: string)
    requires ColonFree(w.session) && ColonFree(session)
    ensures Key(w.session, w.stream) == Key(session, stream) <==> w.session == session && w.stream == stream
  {
    if Key(w.session, w.stream) == Key(session, stream) { KeySplits(w.session, w.stream, session, stream); }
  }

  /** After event j, what is held of a stream is what a private log holds: eviction leaves no gap. */
  lemma {:induction false} AfterIsOwn(history: seq<Written>, i: nat, j: nat, session: string, stream: string)
    requires i <= |history| && j < |history| && SessionsColonFree(history) && ColonFree(session)
    requires Numbered(EntriesFrom(history, i))
    ensures After(EntriesFrom(history, i), Key(session, stream), j + 1)
         == OwnAfter(history, if i <= j then j + 1 else i, session, stream)
    decreases |history| - i
  {
    if i < |history| {
      assert EntriesFrom(history, i)[1..] == EntriesFrom(history, i + 1);
      assert EntriesFrom(history, i)[0] == EntryOf(history, i);
      AfterHead(EntriesFrom(history, i), Key(session, stream), j + 1);
      NatRoundTrip(i + 1);
      UnderKey(history[i], session, stream);
      AfterIsOwn(history, i + 1, j, session, stream);
    }
  }

  /**
   The shared bounded store behind a scope refines a private unbounded log: as long as the cursor's own
   event is held, a scoped replay sends exactly that session's later events on that stream, in order.
   */
  lemma ScopedReplayIsPrivate(history: seq<Written>, maxEvents: nat, session: string, j: nat)
    requires SessionsColonFree(history) && j < |history| <= j + maxEvents
    requires history[j].session == session
    ensures ScopedReplay(history, maxEvents, session, NatText(j + 1))
         == Replay(history[j].stream, OwnAfter(history, j + 1, session, history[j].stream))
  {
    var i := Oldest(|history|, maxEvents);
    FindEntry(history, i, j);
    OwnIsMine(session, session, history[j].stream);
    KeptNumbered(history, maxEvents);
    NatRoundTrip(j + 1);
    AfterIsOwn(history, i, j, session, history[j].stream);
  }

  /** Any other cursor, evicted, unknown or of another session, replays nothing. */
  lemma OtherCursorsReplayNothing(history: seq<Written>, maxEvents: nat, session: string, cursor: string)
    requires SessionsColonFree(history) && ColonFree(session)
    requires forall j: nat | j < |history| <= j + maxEvents && NatText(j + 1) == cursor :: history[j].session != session
    ensures ScopedReplay(history, maxEvents, session, cursor) == Replay("", [])
  {
    var i := Oldest(|history|, maxEvents);
    if Find(Kept(history, maxEvents), cursor).Some? {
      var j := FindIsEntry(history, i, cursor);
      OwnIsMine(session, history[j].session, history[j].stream);
    }
  }

  /** Why session ids are kept free of colons: otherwise one session's events reach another. */
  lemma ColonsLeak(message: string)
    ensures var history := [Written("a:b", "c", ""), Written("a:b", "c", message)];
            ScopedReplay(history, 2, "a", IdOf(0)) == Replay("b:c", [EntryOf(history, 1)])
  {
    var history := [Written("a:b", "c", ""), Written("a:b", "c", message)];
    assert EntriesFrom(history, 2) == [] && EntriesFrom(history, 1) == [EntryOf(history, 1)];
    assert EntriesFrom(history, 0) == [EntryOf(history, 0), EntryOf(history, 1)];
    assert Key("a:b", "c") == "a:b:c" && "a:b:c"[..2] == "a:";
    KeptNumbered(history, 2);
    NatRoundTrip(1);
    NatRoundTrip(2);
    var all := Kept(history, 2);
    assert all[1..] == [EntryOf(history, 1)] && all[1..][1..] == [];
    assert After([], "a:b:c", 1) == [];
    assert Numbered([EntryOf(history, 1)]) by { EntriesNumbered(history, 1); }
    assert After([EntryOf(history, 1)], "a:b:c", 1) == [EntryOf(history, 1)];
  }
}
