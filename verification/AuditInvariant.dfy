/** What every step of the audit session protocol keeps, whatever the interleaving and whatever fails. */
module AuditInvariant {
  import opened Text
  import opened Json
  import opened Chain
  import opened Verifier
  import opened Manifest
  import opened Replay
  import opened AuditProtocol

  /** An event's hash does not depend on the hash stored in it. */
  ghost predicate IgnoresStoredHash(hash: Hasher) {
    forall e: AuditEvent, prev: string, stored: string :: HashOfFields(hash, e, prev, stored)
  }

  ghost predicate HashOfFields(hash: Hasher, e: AuditEvent, prev: string, stored: string) {
    hash(e.(chainHash := stored), prev) == hash(e, prev)
  }

  // ---- The session map ----

  /** An id in the map leads to an unsealed session object of that id. */
  ghost predicate EntryOk(s: State, id: string)
    requires id in s.sessions
  {
    && s.sessions[id] < |s.objs|
    && s.objs[s.sessions[id]].id == id && id != ""
    && !s.objs[s.sessions[id]].closing.Closed?
  }

  /** An unsealed session object is the one in the map under its id. */
  ghost predicate Registered(s: State, o: nat)
    requires o < |s.objs|
  {
    !s.objs[o].closing.Closed? ==> s.objs[o].id in s.sessions && s.sessions[s.objs[o].id] == o
  }

  // ---- Session objects ----

  /** Events sit at positions 0 to n-1 in a valid chain, and prevChainHash is the hash of the last one. */
  ghost predicate ChainOk(cfg: Config, x: Session) {
    && Chained(cfg.hash, x.events)
    && x.prevChainHash == LastHash(x.events)
    && |x.writers| == |x.events|
  }

  /** Nothing is lost while a close waits: if no call is in flight, its wait has been resolved. */
  ghost predicate DrainOk(x: Session) {
    && (x.closing == Draining(false) ==> x.inflight != {})
    && (!x.closing.Closed? ==> x.stragglers == {})
    && (x.closing.Closed? ==> x.inflight <= x.stragglers)
  }

  ghost predicate WriterOk(s: State, o: nat, i: nat)
    requires o < |s.objs| && i < |s.objs[o].writers|
  {
    var x := s.objs[o];
    && x.writers[i] < |s.calls| && i < |x.events|
    && s.calls[x.writers[i]].session == Some(o)
    && s.calls[x.writers[i]].event == Some(x.events[i])
  }

  ghost predicate NoTwice(ws: seq<nat>) {
    forall i, j | 0 <= i < j < |ws| :: ws[i] != ws[j]
  }

  ghost predicate FlightOk(s: State, o: nat, c: nat)
    requires o < |s.objs|
  {
    c in s.objs[o].inflight ==> c < |s.calls| && s.calls[c].session == Some(o)
  }

  ghost predicate ObjOk(cfg: Config, s: State, o: nat)
    requires o < |s.objs|
  {
    var x := s.objs[o];
    && ChainOk(cfg, x) && DrainOk(x) && Registered(s, o) && NoTwice(x.writers)
    && (forall i | 0 <= i < |x.writers| :: WriterOk(s, o, i))
    && (forall c | c in x.inflight :: FlightOk(s, o, c))
  }

  // ---- Calls ----

  /** A call has an event exactly from its append on. */
  ghost predicate FateOk(call: Call) {
    match call.phase
    case Running => call.event.None?
    case Persisting => call.event.Some?
    case Settled(fate) => fate.Recorded? <==> call.event.Some?
  }

  /** The event of a call carries the call's request id and session id. */
  ghost predicate NamesCall(call: Call) {
    call.event.Some? ==>
      call.event.value.id == Str(call.requestId) && call.event.value.sessionId == SessionField(call.sessionId)
  }

  /** A call of a session is in flight until it settles, and has written to the session exactly if it has an event. */
  ghost predicate CallOk(s: State, c: nat)
    requires c < |s.calls|
  {
    var call := s.calls[c];
    && FateOk(call) && NamesCall(call)
    && (call.session.Some? ==>
          && call.session.value < |s.objs|
          && call.sessionId == Some(s.objs[call.session.value].id)
          && (c in s.objs[call.session.value].inflight <==> !call.phase.Settled?)
          && (c in s.objs[call.session.value].writers <==> call.event.Some?))
  }

  // ---- Sealed sessions ----

  /** What was sealed is a non-empty prefix of the events of a sealed session; only stragglers wrote after it. */
  ghost predicate SnapshotOk(s: State, p: nat)
    requires p < |s.pends|
  {
    var y := s.pends[p];
    && y.source < |s.objs| && s.objs[y.source].closing.Closed? && s.objs[y.source].id == y.id
    && y.snapshot != [] && y.snapshot <= s.objs[y.source].events
    && forall i | |y.snapshot| <= i < |s.objs[y.source].writers| ::
         s.objs[y.source].writers[i] in s.objs[y.source].stragglers
  }

  /** The unsigned manifest is the one sealing the snapshot gives. */
  ghost predicate UnsignedOk(cfg: Config, s: State, p: nat)
    requires p < |s.pends| && s.pends[p].source < |s.objs|
  {
    var y, x := s.pends[p], s.objs[s.pends[p].source];
    y.unsigned == Sealed(cfg.h, y.id, x.identity, x.proxy, x.startedAt, y.unsigned.closedAt, y.snapshot, cfg.keyId)
  }

  /** Signed at most once, by the oracle, and every delivery is that one signed manifest. */
  ghost predicate SignedOk(cfg: Config, y: Pending) {
    && (y.signature.Some? ==> cfg.sign(y.unsigned) == y.signature)
    && y.signings == (if y.signature.Some? then 1 else 0)
    && (y.deliveries != [] ==> y.signature.Some?)
    && (y.delivered ==> y.deliveries != [])
    && forall i | 0 <= i < |y.deliveries| :: y.deliveries[i] == ReplayManifest(y.unsigned, y.signature.value)
  }

  ghost predicate StoredOk(s: State, p: nat)
    requires p < |s.pends|
  {
    var a := s.pends[p].attempt;
    a.Some? ==> a.value < |s.attempts| && s.attempts[a.value].pending == p
  }

  /** A running attempt is the one stored on its session, so no two run at once. */
  ghost predicate AttemptOk(s: State, a: nat)
    requires a < |s.attempts|
  {
    var t := s.attempts[a];
    && t.pending < |s.pends|
    && (!t.phase.Ended? ==> s.pends[t.pending].attempt == Some(a))
    && (t.phase.Signing? ==> s.pends[t.pending].signature.None?)
    && (t.phase.Delivering? ==> s.pends[t.pending].deliveries != [])
  }

  /** The entry of an id is an undelivered manifest of that id. */
  ghost predicate SealedOk(s: State, id: string)
    requires id in s.sealed
  {
    s.sealed[id] < |s.pends| && s.pends[s.sealed[id]].id == id && !s.pends[s.sealed[id]].delivered
  }

  ghost predicate SessionsInv(cfg: Config, s: State) {
    && (forall id | id in s.sessions :: EntryOk(s, id))
    && (forall o | 0 <= o < |s.objs| :: ObjOk(cfg, s, o))
    && (forall c | 0 <= c < |s.calls| :: CallOk(s, c))
  }

  ghost predicate ManifestsInv(cfg: Config, s: State) {
    && (forall p | 0 <= p < |s.pends| :: SnapshotOk(s, p) && UnsignedOk(cfg, s, p))
  }

  ghost predicate AttemptsInv(cfg: Config, s: State) {
    && (forall id | id in s.sealed :: SealedOk(s, id))
    && (forall p | 0 <= p < |s.pends| :: SignedOk(cfg, s.pends[p]) && StoredOk(s, p))
    && (forall a | 0 <= a < |s.attempts| :: AttemptOk(s, a))
  }

  ghost predicate Inv(cfg: Config, s: State) {
    && IgnoresStoredHash(cfg.hash)
    && Ranged(s) && SessionsInv(cfg, s) && ManifestsInv(cfg, s) && AttemptsInv(cfg, s)
  }

  // ---- Frames ----

  lemma AttemptsFrame(cfg: Config, s: State, t: State)
    requires AttemptsInv(cfg, s) && t.pends == s.pends && t.attempts == s.attempts && t.sealed == s.sealed
    ensures AttemptsInv(cfg, t)
  {
    assert forall id | id in s.sealed :: SealedOk(s, id) ==> SealedOk(t, id);
    assert forall p | 0 <= p < |s.pends| :: StoredOk(s, p) ==> StoredOk(t, p);
    assert forall a | 0 <= a < |s.attempts| :: AttemptOk(s, a) ==> AttemptOk(t, a);
  }

  /** A sealed object keeps its record; later events come from its stragglers. */
  ghost predicate StaysSealed(x: Session, y: Session) {
    && y.closing.Closed? && y.id == x.id && y.identity == x.identity && y.proxy == x.proxy && y.startedAt == x.startedAt
    && x.events <= y.events && x.stragglers == y.stragglers && x.writers <= y.writers
    && forall i | |x.writers| <= i < |y.writers| :: y.writers[i] in y.stragglers
  }

  ghost predicate SealedStay(s: State, t: State) {
    && |s.objs| <= |t.objs|
    && forall o | 0 <= o < |s.objs| && s.objs[o].closing.Closed? :: StaysSealed(s.objs[o], t.objs[o])
  }

  lemma SealsKeep(cfg: Config, s: State, t: State)
    requires ManifestsInv(cfg, s) && t.pends == s.pends && SealedStay(s, t)
    ensures ManifestsInv(cfg, t)
  {
    forall p | 0 <= p < |t.pends| ensures SnapshotOk(t, p) && UnsignedOk(cfg, t, p) {
      assert SnapshotOk(s, p) && UnsignedOk(cfg, s, p);
      var o := s.pends[p].source;
      assert StaysSealed(s.objs[o], t.objs[o]);
    }
  }

  /** From s to t nothing changes but object o and calls of o. */
  ghost predicate OnlyObject(s: State, t: State, o: nat) {
    && o < |s.objs| == |t.objs| && |s.calls| <= |t.calls|
    && t.pends == s.pends && t.attempts == s.attempts && t.sealed == s.sealed
    && (forall k | 0 <= k < |s.objs| && k != o :: t.objs[k] == s.objs[k])
    && (forall c | 0 <= c < |s.calls| :: CallStays(s, t, o, c))
    && (forall c | |s.calls| <= c < |t.calls| :: t.calls[c].session == Some(o))
  }

  ghost predicate CallStays(s: State, t: State, o: nat, c: nat)
    requires c < |s.calls| && c < |t.calls|
  {
    t.calls[c].session == s.calls[c].session && (s.calls[c].session != Some(o) ==> t.calls[c] == s.calls[c])
  }

  /** The session map is the same, or o has just been sealed and taken out of it. */
  ghost predicate MapFollows(s: State, t: State, o: nat)
    requires o < |s.objs| && o < |t.objs|
  {
    && t.objs[o].id == s.objs[o].id
    && if s.objs[o].closing.Closed? == t.objs[o].closing.Closed? then t.sessions == s.sessions
       else t.objs[o].closing.Closed? && t.sessions == s.sessions - {s.objs[o].id}
  }

  lemma OtherObject(cfg: Config, s: State, t: State, o: nat, k: nat)
    requires OnlyObject(s, t, o) && MapFollows(s, t, o) && k < |s.objs| && k != o && ObjOk(cfg, s, k)
    requires ObjOk(cfg, s, o)
    ensures ObjOk(cfg, t, k)
  {
    var x := s.objs[k];
    forall i | 0 <= i < |x.writers| ensures WriterOk(t, k, i) {
      assert WriterOk(s, k, i) && CallStays(s, t, o, x.writers[i]);
    }
    forall c | c in x.inflight ensures FlightOk(t, k, c) {
      assert FlightOk(s, k, c) && CallStays(s, t, o, c);
    }
  }

  lemma OtherEntry(s: State, t: State, o: nat, id: string)
    requires OnlyObject(s, t, o) && MapFollows(s, t, o) && id in t.sessions
    requires id in s.sessions && EntryOk(s, id)
    ensures EntryOk(t, id)
  {
  }

  lemma LocalChange(cfg: Config, s: State, t: State, o: nat)
    requires Inv(cfg, s) && OnlyObject(s, t, o) && MapFollows(s, t, o)
    requires ObjOk(cfg, t, o)
    requires forall c | 0 <= c < |t.calls| && t.calls[c].session == Some(o) :: CallOk(t, c)
    requires s.objs[o].closing.Closed? ==> StaysSealed(s.objs[o], t.objs[o])
    ensures Inv(cfg, t)
  {
    assert ObjOk(cfg, s, o);
    forall k | 0 <= k < |t.objs| ensures ObjOk(cfg, t, k) {
      if k != o {
        assert ObjOk(cfg, s, k);
        OtherObject(cfg, s, t, o, k);
      }
    }
    forall c | 0 <= c < |t.calls| ensures CallOk(t, c) {
      if t.calls[c].session != Some(o) { assert CallStays(s, t, o, c) && CallOk(s, c); }
    }
    forall id | id in t.sessions ensures EntryOk(t, id) {
      assert EntryOk(s, id);
      OtherEntry(s, t, o, id);
    }
    assert Ranged(t) by { LocalRanged(s, t, o); }
    SealsKeep(cfg, s, t);
    AttemptsFrame(cfg, s, t);
  }

  lemma LocalRanged(s: State, t: State, o: nat)
    requires Ranged(s) && OnlyObject(s, t, o) && MapFollows(s, t, o)
    ensures Ranged(t)
  {
    forall c | 0 <= c < |t.calls| && t.calls[c].session.Some? ensures t.calls[c].session.value < |t.objs| {
      if c < |s.calls| { assert CallStays(s, t, o, c); }
    }
  }

  /** A call without a session is nobody else's concern. */
  lemma FreeCall(cfg: Config, s: State, t: State, c: nat)
    requires Inv(cfg, s) && c <= |s.calls| && c < |t.calls|
    requires t == s.(calls := t.calls) && t.calls[..c] == s.calls[..c] && t.calls[c].session.None?
    requires FateOk(t.calls[c]) && NamesCall(t.calls[c])
    requires if c == |s.calls| then |t.calls| == c + 1
             else s.calls[c].session.None? && |t.calls| == |s.calls| && t.calls[c + 1..] == s.calls[c + 1..]
    ensures Inv(cfg, t)
  {
    forall k | 0 <= k < |s.calls| && k != c ensures t.calls[k] == s.calls[k] {
      if k < c {
        assert t.calls[..c][k] == s.calls[..c][k];
      } else {
        assert t.calls[c + 1..][k - c - 1] == s.calls[c + 1..][k - c - 1];
      }
    }
    forall o | 0 <= o < |t.objs| ensures ObjOk(cfg, t, o) {
      assert ObjOk(cfg, s, o);
      assert forall i | 0 <= i < |s.objs[o].writers| :: WriterOk(s, o, i) ==> WriterOk(t, o, i);
      assert forall k | k in t.objs[o].inflight :: FlightOk(s, o, k) ==> FlightOk(t, o, k);
    }
    forall k | 0 <= k < |t.calls| ensures CallOk(t, k) { if k != c { assert CallOk(s, k); } }
    forall id | id in t.sessions ensures EntryOk(t, id) { assert EntryOk(s, id); }
    SealsKeep(cfg, s, t);
    AttemptsFrame(cfg, s, t);
  }

  // ---- Admission ----

  lemma OpenKeeps(cfg: Config, s: State, id: string, identity: Value, proxy: Value, now: string)
    requires Inv(cfg, s) && id != ""
    ensures var t := OpenSession(s, id, identity, proxy, now);
            && Inv(cfg, t) && id in t.sessions
            && !t.objs[t.sessions[id]].closing.Closed? && t.objs[t.sessions[id]].id == id
  {
    var t := OpenSession(s, id, identity, proxy, now);
    if id !in s.sessions {
      forall o | 0 <= o < |t.objs| ensures ObjOk(cfg, t, o) {
        if o < |s.objs| {
          assert ObjOk(cfg, s, o);
          assert forall i | 0 <= i < |s.objs[o].writers| :: WriterOk(s, o, i) ==> WriterOk(t, o, i);
          assert forall c | c in s.objs[o].inflight :: FlightOk(s, o, c) ==> FlightOk(t, o, c);
        }
      }
      forall c | 0 <= c < |t.calls| ensures CallOk(t, c) { assert CallOk(s, c); }
      forall k | k in t.sessions ensures EntryOk(t, k) { if k != id { assert EntryOk(s, k); } }
      SealsKeep(cfg, s, t);
      AttemptsFrame(cfg, s, t);
    } else {
      assert EntryOk(s, id);
    }
  }

  lemma AddedToObject(cfg: Config, s: State, sessionId: Option<string>, o: nat, requestId: string)
    requires Inv(cfg, s) && o < |s.objs| && !s.objs[o].closing.Closed?
    ensures ObjOk(cfg, AddCall(s, sessionId, Some(o), requestId), o)
    ensures |s.calls| !in s.objs[o].writers
  {
    var t, n := AddCall(s, sessionId, Some(o), requestId), |s.calls|;
    var x, y := s.objs[o], t.objs[o];
    assert ObjOk(cfg, s, o);
    forall i | 0 <= i < |y.writers| ensures WriterOk(t, o, i) && y.writers[i] < n { assert WriterOk(s, o, i); }
    forall c | c in y.inflight ensures FlightOk(t, o, c) { if c in x.inflight { assert FlightOk(s, o, c); } }
  }

  lemma AddedCalls(cfg: Config, s: State, sessionId: Option<string>, o: nat, requestId: string, c: nat)
    requires Inv(cfg, s) && o < |s.objs| && |s.calls| !in s.objs[o].writers
    requires c <= |s.calls| && AddCall(s, sessionId, Some(o), requestId).calls[c].session == Some(o)
    requires sessionId == Some(s.objs[o].id)
    ensures CallOk(AddCall(s, sessionId, Some(o), requestId), c)
  {
    if c < |s.calls| { assert CallOk(s, c); }
  }

  lemma AddCallKeeps(cfg: Config, s: State, sessionId: Option<string>, o: nat, requestId: string)
    requires Inv(cfg, s) && o < |s.objs| && !s.objs[o].closing.Closed? && sessionId == Some(s.objs[o].id)
    ensures Inv(cfg, AddCall(s, sessionId, Some(o), requestId))
  {
    var t := AddCall(s, sessionId, Some(o), requestId);
    AddedToObject(cfg, s, sessionId, o, requestId);
    forall c | 0 <= c < |t.calls| && t.calls[c].session == Some(o) ensures CallOk(t, c) {
      AddedCalls(cfg, s, sessionId, o, requestId, c);
    }
    LocalChange(cfg, s, t, o);
  }

  lemma AdmitKeeps(cfg: Config, s: State, sessionId: Option<string>, identity: Value, proxy: Option<Value>,
      requestId: string, now: string)
    requires Inv(cfg, s)
    ensures Inv(cfg, Admit(s, sessionId, identity, proxy, requestId, now))
  {
    if proxy.Some? {
      if sessionId.None? || sessionId.value == "" {
        var t := AddCall(s, sessionId, None, requestId);
        assert t.calls[..|s.calls|] == s.calls[..|s.calls|];
        FreeCall(cfg, s, t, |s.calls|);
      } else {
        var t := OpenSession(s, sessionId.value, identity, proxy.value, now);
        OpenKeeps(cfg, s, sessionId.value, identity, proxy.value, now);
        AddCallKeeps(cfg, t, sessionId, t.sessions[sessionId.value], requestId);
      }
    }
  }

  // ---- Calls ----

  lemma SettledObject(cfg: Config, s: State, c: nat, fate: Fate, o: nat)
    requires Inv(cfg, s) && c < |s.calls| && !s.calls[c].phase.Settled? && s.calls[c].session == Some(o)
    ensures o < |s.objs| && ObjOk(cfg, Settle(s, c, fate), o)
  {
    var t := Settle(s, c, fate);
    assert CallOk(s, c) && ObjOk(cfg, s, o);
    var y := t.objs[o];
    forall i | 0 <= i < |y.writers| ensures WriterOk(t, o, i) { assert WriterOk(s, o, i); }
    forall k | k in y.inflight ensures FlightOk(t, o, k) { assert FlightOk(s, o, k); }
  }

  lemma SettleFrame(s: State, c: nat, fate: Fate, o: nat)
    requires Ranged(s) && c < |s.calls| && s.calls[c].session == Some(o)
    ensures o < |s.objs| && OnlyObject(s, Settle(s, c, fate), o) && MapFollows(s, Settle(s, c, fate), o)
    ensures s.objs[o].closing.Closed? ==> StaysSealed(s.objs[o], Settle(s, c, fate).objs[o])
  {
  }

  lemma SettledCall(cfg: Config, s: State, c: nat, fate: Fate, o: nat, k: nat)
    requires Inv(cfg, s) && c < |s.calls| && s.calls[c].session == Some(o) && k < |s.calls|
    requires s.calls[k].session == Some(o) && (fate.Recorded? <==> s.calls[c].event.Some?)
    ensures CallOk(Settle(s, c, fate), k)
  {
    assert CallOk(s, k);
  }

  lemma SettleInSession(cfg: Config, s: State, c: nat, fate: Fate, o: nat)
    requires Inv(cfg, s) && c < |s.calls| && !s.calls[c].phase.Settled? && s.calls[c].session == Some(o)
    requires fate.Recorded? <==> s.calls[c].event.Some?
    ensures Inv(cfg, Settle(s, c, fate))
  {
    var t := Settle(s, c, fate);
    SettledObject(cfg, s, c, fate, o);
    SettleFrame(s, c, fate, o);
    forall k | 0 <= k < |t.calls| && t.calls[k].session == Some(o) ensures CallOk(t, k) {
      assert k != c ==> CallStays(s, t, o, k);
      SettledCall(cfg, s, c, fate, o, k);
    }
    LocalChange(cfg, s, t, o);
  }

  lemma SettleKeeps(cfg: Config, s: State, c: nat, fate: Fate)
    requires Inv(cfg, s) && c < |s.calls| && !s.calls[c].phase.Settled?
    requires fate.Recorded? <==> s.calls[c].event.Some?
    ensures Inv(cfg, Settle(s, c, fate))
  {
    assert CallOk(s, c);
    if s.calls[c].session.None? {
      FreeCall(cfg, s, Settle(s, c, fate), c);
    } else {
      SettleInSession(cfg, s, c, fate, s.calls[c].session.value);
    }
  }

  /** The event appended next continues the session's chain. */
  lemma BuiltIsValid(cfg: Config, call: Call, draft: AuditEvent, position: nat, prev: string)
    requires IgnoresStoredHash(cfg.hash) && BuildEvent(cfg, call, draft, position, prev).Some?
    ensures EntryValid(cfg.hash, BuildEvent(cfg, call, draft, position, prev).value, prev, position)
  {
    var e := draft.(id := Str(call.requestId), sessionId := SessionField(call.sessionId),
                    position := Num(IntNumeral(position)));
    assert HashOfFields(cfg.hash, e, prev, cfg.hash(e, prev).value);
  }

  lemma AppendedWriter(s: State, c: nat, e: AuditEvent, o: nat, i: nat)
    requires Ranged(s) && c < |s.calls| && s.calls[c].phase == Running && s.calls[c].session == Some(o)
    requires o < |s.objs| && |s.objs[o].writers| == |s.objs[o].events| && i <= |s.objs[o].writers|
    requires s.calls[c].event.None? && (i < |s.objs[o].writers| ==> WriterOk(s, o, i))
    ensures WriterOk(Append(s, c, e), o, i) && (i < |s.objs[o].writers| ==> s.objs[o].writers[i] != c)
  {
  }

  lemma AppendedObject(cfg: Config, s: State, c: nat, e: AuditEvent, o: nat)
    requires Inv(cfg, s) && c < |s.calls| && s.calls[c].phase == Running && s.calls[c].session == Some(o)
    requires EntryValid(cfg.hash, e, s.objs[o].prevChainHash, |s.objs[o].events|)
    ensures ObjOk(cfg, Append(s, c, e), o)
  {
    var t := Append(s, c, e);
    var x, y := s.objs[o], t.objs[o];
    assert CallOk(s, c) && ObjOk(cfg, s, o);
    assert ChainOk(cfg, y) by { Extends(cfg.hash, x.events, e); }
    forall i | 0 <= i < |y.writers| ensures WriterOk(t, o, i) && (i < |x.writers| ==> x.writers[i] != c) {
      if i < |x.writers| { assert WriterOk(s, o, i); }
      AppendedWriter(s, c, e, o, i);
    }
    forall k | k in y.inflight ensures FlightOk(t, o, k) { assert FlightOk(s, o, k); }
  }

  lemma AppendFrame(cfg: Config, s: State, c: nat, e: AuditEvent, o: nat)
    requires Inv(cfg, s) && c < |s.calls| && s.calls[c].phase == Running && s.calls[c].session == Some(o)
    ensures o < |s.objs| && OnlyObject(s, Append(s, c, e), o) && MapFollows(s, Append(s, c, e), o)
    ensures s.objs[o].closing.Closed? ==> StaysSealed(s.objs[o], Append(s, c, e).objs[o])
  {
    assert CallOk(s, c) && ObjOk(cfg, s, o);
  }

  lemma AppendedCall(cfg: Config, s: State, c: nat, e: AuditEvent, o: nat, k: nat)
    requires Inv(cfg, s) && c < |s.calls| && s.calls[c].phase == Running && s.calls[c].session == Some(o)
    requires e.id == Str(s.calls[c].requestId) && e.sessionId == SessionField(s.calls[c].sessionId)
    requires k < |s.calls| && s.calls[k].session == Some(o)
    ensures CallOk(Append(s, c, e), k)
  {
    assert CallOk(s, k);
  }

  lemma AppendInSession(cfg: Config, s: State, c: nat, e: AuditEvent, o: nat)
    requires Inv(cfg, s) && c < |s.calls| && s.calls[c].phase == Running && s.calls[c].session == Some(o)
    requires EntryValid(cfg.hash, e, s.objs[o].prevChainHash, |s.objs[o].events|)
    requires e.id == Str(s.calls[c].requestId) && e.sessionId == SessionField(s.calls[c].sessionId)
    ensures Inv(cfg, Append(s, c, e))
  {
    var t := Append(s, c, e);
    AppendedObject(cfg, s, c, e, o);
    AppendFrame(cfg, s, c, e, o);
    forall k | 0 <= k < |t.calls| && t.calls[k].session == Some(o) ensures CallOk(t, k) {
      assert k != c ==> CallStays(s, t, o, k);
      AppendedCall(cfg, s, c, e, o, k);
    }
    LocalChange(cfg, s, t, o);
  }

  lemma FinishKeeps(cfg: Config, s: State, c: nat, draft: AuditEvent, rejected: bool)
    requires Inv(cfg, s) && c < |s.calls| && s.calls[c].phase == Running
    ensures Inv(cfg, Finish(cfg, s, c, draft, rejected))
  {
    assert CallOk(s, c);
    var e := BuildEvent(cfg, s.calls[c], draft, NextPosition(s, c), PrevHash(s, c));
    if rejected && !cfg.includeRejections {
      SettleKeeps(cfg, s, c, Skipped);
    } else if e.None? {
      SettleKeeps(cfg, s, c, BuildFailed);
    } else if s.calls[c].session.None? {
      FreeCall(cfg, s, Append(s, c, e.value), c);
    } else {
      BuiltIsValid(cfg, s.calls[c], draft, NextPosition(s, c), PrevHash(s, c));
      assert ObjOk(cfg, s, s.calls[c].session.value);
      AppendInSession(cfg, s, c, e.value, s.calls[c].session.value);
    }
  }

  // ---- Closing ----

  /** An object whose record stays the same, only its closing and its stragglers move on. */
  lemma ClosingKeeps(cfg: Config, s: State, t: State, o: nat)
    requires Inv(cfg, s) && o < |s.objs| && !s.objs[o].closing.Closed? && t.calls == s.calls
    requires OnlyObject(s, t, o) && MapFollows(s, t, o) && DrainOk(t.objs[o])
    requires t.objs[o] == s.objs[o].(closing := t.objs[o].closing, stragglers := t.objs[o].stragglers)
    ensures Inv(cfg, t)
  {
    var x := s.objs[o];
    assert ObjOk(cfg, s, o);
    forall i | 0 <= i < |x.writers| ensures WriterOk(t, o, i) { assert WriterOk(s, o, i); }
    forall c | c in x.inflight ensures FlightOk(t, o, c) { assert FlightOk(s, o, c); }
    forall c | 0 <= c < |t.calls| && t.calls[c].session == Some(o) ensures CallOk(t, c) { assert CallOk(s, c); }
    LocalChange(cfg, s, t, o);
  }

  lemma ClosingFlagKeeps(cfg: Config, s: State, o: nat, woken: bool)
    requires Inv(cfg, s) && o < |s.objs| && !s.objs[o].closing.Closed? && (woken || s.objs[o].inflight != {})
    ensures Inv(cfg, s.(objs := s.objs[o := s.objs[o].(closing := Draining(woken))]))
  {
    assert ObjOk(cfg, s, o);
    ClosingKeeps(cfg, s, s.(objs := s.objs[o := s.objs[o].(closing := Draining(woken))]), o);
  }

  lemma SessionsFrame(cfg: Config, s: State, t: State)
    requires SessionsInv(cfg, s) && t.calls == s.calls && t.objs == s.objs && t.sessions == s.sessions
    ensures SessionsInv(cfg, t)
  {
    forall o | 0 <= o < |t.objs| ensures ObjOk(cfg, t, o) {
      assert ObjOk(cfg, s, o);
      assert forall i | 0 <= i < |s.objs[o].writers| :: WriterOk(s, o, i) ==> WriterOk(t, o, i);
      assert forall k | k in t.objs[o].inflight :: FlightOk(s, o, k) ==> FlightOk(t, o, k);
    }
    forall k | 0 <= k < |t.calls| ensures CallOk(t, k) { assert CallOk(s, k); }
    forall id | id in t.sessions ensures EntryOk(t, id) { assert EntryOk(s, id); }
  }

  lemma DisplaceKeeps(cfg: Config, s: State, id: string)
    requires Inv(cfg, s)
    ensures Inv(cfg, Displace(s, id))
  {
    var t := Displace(s, id);
    if id in s.sealed {
      SessionsFrame(cfg, s, t);
      forall p | 0 <= p < |t.pends| ensures SnapshotOk(t, p) && UnsignedOk(cfg, t, p) {
        assert SnapshotOk(s, p) && UnsignedOk(cfg, s, p);
      }
      forall p | 0 <= p < |t.pends| ensures SignedOk(cfg, t.pends[p]) && StoredOk(t, p) {
        assert SignedOk(cfg, s.pends[p]) && StoredOk(s, p);
      }
      forall a | 0 <= a < |t.attempts| ensures AttemptOk(t, a) { assert AttemptOk(s, a); }
      forall k | k in t.sealed ensures SealedOk(t, k) { assert SealedOk(s, k); }
    }
  }

  lemma AddPendingKeeps(cfg: Config, s: State, o: nat, y: Pending)
    requires Inv(cfg, s) && SignedOk(cfg, y) && y.attempt.None? && !y.delivered
    requires SnapshotOk(AddPending(s, y), |s.pends|) && UnsignedOk(cfg, AddPending(s, y), |s.pends|)
    ensures Inv(cfg, AddPending(s, y))
  {
    var t := AddPending(s, y);
    SessionsFrame(cfg, s, t);
    forall p | 0 <= p < |t.pends| ensures SnapshotOk(t, p) && UnsignedOk(cfg, t, p) {
      if p < |s.pends| { assert SnapshotOk(s, p) && UnsignedOk(cfg, s, p); }
    }
    forall p | 0 <= p < |t.pends| ensures SignedOk(cfg, t.pends[p]) && StoredOk(t, p) {
      if p < |s.pends| { assert SignedOk(cfg, s.pends[p]) && StoredOk(s, p); }
    }
    forall a | 0 <= a < |t.attempts| ensures AttemptOk(t, a) { assert AttemptOk(s, a); }
    forall k | k in t.sealed ensures SealedOk(t, k) { if k != y.id { assert SealedOk(s, k); } }
  }

  lemma SealKeeps(cfg: Config, s: State, o: nat, closedAt: string)
    requires Inv(cfg, s) && o < |s.objs| && !s.objs[o].closing.Closed?
    ensures Inv(cfg, SealSession(cfg, s, o, closedAt))
  {
    var x, l := s.objs[o], Leave(s, o);
    assert ObjOk(cfg, s, o);
    ClosingKeeps(cfg, s, l, o);
    if x.events != [] {
      DisplaceKeeps(cfg, l, x.id);
      AddPendingKeeps(cfg, Displace(l, x.id), o, NewPending(cfg, x, o, closedAt));
    }
  }

  // ---- Attempts ----

  lemma FinalizeAttempt(cfg: Config, s: State, p: nat, starts: bool, a: nat)
    requires Inv(cfg, s) && p < |s.pends| && s.pends[p].attempt.None? && a <= |s.attempts|
    requires a < |s.attempts| ==> s.attempts[a].pending == p
    ensures var t := Finalize(cfg, s, p, starts); a < |t.attempts| && t.attempts[a].pending == p && AttemptOk(t, a)
  {
    if a < |s.attempts| { assert AttemptOk(s, a); }
  }

  lemma FinalizeKeeps(cfg: Config, s: State, p: nat, starts: bool)
    requires Inv(cfg, s) && p < |s.pends|
    ensures Inv(cfg, Finalize(cfg, s, p, starts))
  {
    var t := Finalize(cfg, s, p, starts);
    if s.pends[p].attempt.None? {
      SessionsFrame(cfg, s, t);
      assert SignedOk(cfg, s.pends[p]);
      forall a | 0 <= a < |t.attempts| && (a >= |s.attempts| || s.attempts[a].pending == p)
        ensures t.attempts[a].pending == p && AttemptOk(t, a)
      {
        FinalizeAttempt(cfg, s, p, starts, a);
      }
      PendsFrame(cfg, s, t, p);
    }
  }

  /** One pending manifest changes, keeping its identity and its invariants; attempts other than its own do not. */
  lemma PendsFrame(cfg: Config, s: State, t: State, p: nat)
    requires Ranged(s) && ManifestsInv(cfg, s) && AttemptsInv(cfg, s) && p < |s.pends| == |t.pends|
    requires |s.attempts| <= |t.attempts|
    requires t.objs == s.objs && t.sealed.Keys <= s.sealed.Keys
    requires forall id | id in t.sealed :: t.sealed[id] == s.sealed[id]
    requires forall q | 0 <= q < |s.pends| && q != p :: t.pends[q] == s.pends[q]
    requires t.pends[p].id == s.pends[p].id && t.pends[p].source == s.pends[p].source
    requires t.pends[p].snapshot == s.pends[p].snapshot && t.pends[p].unsigned == s.pends[p].unsigned
    requires SignedOk(cfg, t.pends[p]) && StoredOk(t, p)
    requires t.pends[p].delivered == s.pends[p].delivered || t.pends[p].id !in t.sealed
    requires forall a | 0 <= a < |s.attempts| && s.attempts[a].pending != p :: t.attempts[a] == s.attempts[a]
    requires forall a | 0 <= a < |t.attempts| && (a >= |s.attempts| || s.attempts[a].pending == p) ::
               t.attempts[a].pending == p && AttemptOk(t, a)
    ensures ManifestsInv(cfg, t) && AttemptsInv(cfg, t)
  {
    forall q | 0 <= q < |t.pends|
      ensures SnapshotOk(t, q) && UnsignedOk(cfg, t, q) && SignedOk(cfg, t.pends[q]) && StoredOk(t, q)
    {
      assert SnapshotOk(s, q) && UnsignedOk(cfg, s, q) && SignedOk(cfg, s.pends[q]) && StoredOk(s, q);
    }
    forall a | 0 <= a < |t.attempts| ensures AttemptOk(t, a) {
      if a < |s.attempts| { assert AttemptOk(s, a); }
    }
    forall id | id in t.sealed ensures SealedOk(t, id) { assert SealedOk(s, id); }
  }

  lemma OnlyStoredRuns(cfg: Config, s: State, a: nat, b: nat)
    requires AttemptsInv(cfg, s) && a < |s.attempts| && b < |s.attempts| && a != b
    requires !s.attempts[a].phase.Ended? && s.attempts[a].pending == s.attempts[b].pending
    ensures s.attempts[b].phase.Ended?
  {
    assert AttemptOk(s, a) && AttemptOk(s, b);
  }

  lemma EndKeeps(cfg: Config, s: State, a: nat)
    requires Inv(cfg, s) && a < |s.attempts| && !s.attempts[a].phase.Ended?
    ensures Inv(cfg, EndAttempt(s, a))
  {
    var t, p := EndAttempt(s, a), s.attempts[a].pending;
    SessionsFrame(cfg, s, t);
    assert SignedOk(cfg, s.pends[p]);
    forall b | 0 <= b < |t.attempts| && s.attempts[b].pending == p
      ensures t.attempts[b].pending == p && AttemptOk(t, b)
    {
      if b != a { OnlyStoredRuns(cfg, s, a, b); }
    }
    PendsFrame(cfg, s, t, p);
  }

  /** The first half of a successful signing: the signature is kept and the manifest handed over. */
  ghost function HandOver(cfg: Config, s: State, a: nat): State
    requires Ranged(s) && a < |s.attempts| && cfg.sign(s.pends[s.attempts[a].pending].unsigned).Some?
  {
    var p := s.attempts[a].pending;
    var x := s.pends[p];
    var d := cfg.sign(x.unsigned);
    s.(attempts := s.attempts[a := Attempt(p, Delivering)],
       pends := s.pends[p := x.(signature := d, signings := x.signings + 1,
                                deliveries := x.deliveries + [ReplayManifest(x.unsigned, d.value)])])
  }

  lemma HandOverKeeps(cfg: Config, s: State, a: nat)
    requires Inv(cfg, s) && a < |s.attempts| && s.attempts[a].phase.Signing?
    requires cfg.sign(s.pends[s.attempts[a].pending].unsigned).Some?
    ensures Inv(cfg, HandOver(cfg, s, a))
  {
    var t, p := HandOver(cfg, s, a), s.attempts[a].pending;
    SessionsFrame(cfg, s, t);
    assert AttemptOk(s, a) && SignedOk(cfg, s.pends[p]) && StoredOk(s, p);
    forall b | 0 <= b < |t.attempts| && s.attempts[b].pending == p
      ensures t.attempts[b].pending == p && AttemptOk(t, b)
    {
      if b != a { OnlyStoredRuns(cfg, s, a, b); }
    }
    PendsFrame(cfg, s, t, p);
  }

  lemma SignKeeps(cfg: Config, s: State, a: nat, ok: bool, sinkStarts: bool)
    requires Inv(cfg, s) && a < |s.attempts| && s.attempts[a].phase.Signing?
    ensures Inv(cfg, SignSettled(cfg, s, a, ok, sinkStarts))
  {
    if !ok || cfg.sign(s.pends[s.attempts[a].pending].unsigned).None? {
      EndKeeps(cfg, s, a);
    } else {
      HandOverKeeps(cfg, s, a);
      if !sinkStarts { EndKeeps(cfg, HandOver(cfg, s, a), a); }
    }
  }

  /** The first half of a successful delivery: the entry under the id is released. */
  ghost function Release(s: State, a: nat): State
    requires Ranged(s) && a < |s.attempts|
  {
    var p := s.attempts[a].pending;
    s.(pends := s.pends[p := s.pends[p].(delivered := true)], sealed := s.sealed - {s.pends[p].id})
  }

  lemma ReleaseKeeps(cfg: Config, s: State, a: nat)
    requires Inv(cfg, s) && a < |s.attempts| && s.attempts[a].phase.Delivering?
    ensures Inv(cfg, Release(s, a))
  {
    var t, p := Release(s, a), s.attempts[a].pending;
    SessionsFrame(cfg, s, t);
    assert AttemptOk(s, a) && SignedOk(cfg, s.pends[p]) && StoredOk(s, p);
    forall b | 0 <= b < |t.attempts| && s.attempts[b].pending == p
      ensures t.attempts[b].pending == p && AttemptOk(t, b)
    {
      assert AttemptOk(s, b);
    }
    PendsFrame(cfg, s, t, p);
  }

  lemma DeliveryKeeps(cfg: Config, s: State, a: nat, ok: bool)
    requires Inv(cfg, s) && a < |s.attempts| && s.attempts[a].phase.Delivering?
    ensures Inv(cfg, DeliverySettled(s, a, ok))
  {
    if ok {
      ReleaseKeeps(cfg, s, a);
      EndKeeps(cfg, Release(s, a), a);
    } else {
      EndKeeps(cfg, s, a);
    }
  }

  // ---- Steps and runs ----

  lemma DrainKeeps(cfg: Config, s: State, o: nat, expired: bool, closedAt: string, starts: bool)
    requires Inv(cfg, s) && o < |s.objs| && !s.objs[o].closing.Closed?
    ensures Inv(cfg, Drain(cfg, s, o, expired, closedAt, starts))
  {
    if s.objs[o].inflight != {} && !expired {
      ClosingFlagKeeps(cfg, s, o, false);
    } else {
      SealKeeps(cfg, s, o, closedAt);
      if s.objs[o].events != [] { FinalizeKeeps(cfg, SealSession(cfg, s, o, closedAt), |s.pends|, starts); }
    }
  }

  lemma CloseKeeps(cfg: Config, s: State, id: string, expired: bool, closedAt: string, starts: bool)
    requires Inv(cfg, s)
    ensures Inv(cfg, CloseSession(cfg, s, id, expired, closedAt, starts))
  {
    if id in s.sessions {
      if s.objs[s.sessions[id]].closing.NotClosing? { DrainKeeps(cfg, s, s.sessions[id], expired, closedAt, starts); }
    } else if id in s.sealed {
      FinalizeKeeps(cfg, s, s.sealed[id], starts);
    }
  }

  /** Every step keeps the invariant, whatever the signer, the sink, the key store and the clock do. */
  lemma StepKeeps(cfg: Config, s: State, step: Step)
    requires Inv(cfg, s) && Enabled(s, step)
    ensures Inv(cfg, Apply(cfg, s, step))
  {
    match step
    case AdmitCall(sessionId, identity, proxy, requestId, now) =>
      AdmitKeeps(cfg, s, sessionId, identity, proxy, requestId, now);
    case KeysRejected(c) => assert CallOk(s, c); SettleKeeps(cfg, s, c, KeyFailed);
    case UpstreamSettled(c, draft, rejected) => FinishKeeps(cfg, s, c, draft, rejected);
    case SinkSettled(c) => assert CallOk(s, c); SettleKeeps(cfg, s, c, Recorded);
    case Close(id, expired, closedAt, starts) => CloseKeeps(cfg, s, id, expired, closedAt, starts);
    case TimerFires(o) => ClosingFlagKeeps(cfg, s, o, true);
    case CloseResumes(o, expired, closedAt, starts) => DrainKeeps(cfg, s, o, expired, closedAt, starts);
    case SignerAnswers(a, ok, sinkStarts) => SignKeeps(cfg, s, a, ok, sinkStarts);
    case DeliveryAnswers(a, ok) => DeliveryKeeps(cfg, s, a, ok);
  }

  /** So it holds in every state any run reaches. */
  lemma {:induction false} RunKeeps(cfg: Config, s: State, steps: seq<Step>)
    requires Inv(cfg, s) && Run(cfg, s, steps).Some?
    ensures Inv(cfg, Run(cfg, s, steps).value)
    decreases |steps|
  {
    if steps != [] {
      StepKeeps(cfg, s, steps[0]);
      RunKeeps(cfg, Apply(cfg, s, steps[0]), steps[1..]);
    }
  }
}
