/** Safety of the audit session protocol over whole runs. */
module AuditTheorems {
  import opened Text
  import opened Json
  import opened Digests
  import opened Merkle
  import opened Chain
  import opened Verifier
  import opened Manifest
  import opened Replay
  import opened AuditProtocol
  import opened AuditInvariant

  /** The configuration of a deployment: HMAC under one secret for the chain and for signing. */
  ghost predicate Deployed(cfg: Config, mac: Mac, secret: string) {
    && cfg.hash == ChainHasher(mac, secret)
    && forall u: Unsigned :: cfg.sign(u) == SignatureOf(mac, secret, u)
  }

  lemma ChainIgnoresStoredHash(mac: Mac, secret: string)
    ensures IgnoresStoredHash(ChainHasher(mac, secret))
  {
    forall e: AuditEvent, prev: string, stored: string ensures HashOfFields(ChainHasher(mac, secret), e, prev, stored) {
      assert Covered(e.(chainHash := stored)) == Covered(e);
    }
  }

  lemma InitHolds(cfg: Config, mac: Mac, secret: string)
    requires Deployed(cfg, mac, secret)
    ensures Inv(cfg, INIT)
  {
    ChainIgnoresStoredHash(mac, secret);
  }

  /** A state some run of the deployment reaches. */
  ghost predicate Reached(cfg: Config, mac: Mac, secret: string, steps: seq<Step>, s: State) {
    Deployed(cfg, mac, secret) && Run(cfg, INIT, steps) == Some(s)
  }

  lemma ReachedInv(cfg: Config, mac: Mac, secret: string, steps: seq<Step>, s: State)
    requires Reached(cfg, mac, secret, steps, s)
    ensures Inv(cfg, s)
  {
    InitHolds(cfg, mac, secret);
    RunKeeps(cfg, INIT, steps);
  }

  // ---- Positions, chains and delivered manifests ----

  /** In every reachable state each session's events form a valid chain at positions 0 to n-1. */
  lemma SessionsAreChains(cfg: Config, mac: Mac, secret: string, steps: seq<Step>, s: State, o: nat, i: nat)
    requires Reached(cfg, mac, secret, steps, s) && o < |s.objs| && i < |s.objs[o].events|
    ensures Chained(ChainHasher(mac, secret), s.objs[o].events)
    ensures s.objs[o].prevChainHash == LastHash(s.objs[o].events)
    ensures PositionAt(s.objs[o].events[i], i)
  {
    ReachedInv(cfg, mac, secret, steps, s);
    assert ObjOk(cfg, s, o);
    EntryAt(cfg.hash, s.objs[o].events, i);
  }

  lemma SnapshotIsChain(cfg: Config, s: State, p: nat)
    requires Inv(cfg, s) && p < |s.pends|
    ensures ChainValid(cfg.hash, s.pends[p].snapshot)
  {
    var y := s.pends[p];
    assert SnapshotOk(s, p);
    assert ObjOk(cfg, s, y.source);
    PrefixChained(cfg.hash, s.objs[y.source].events, |y.snapshot|);
    assert y.snapshot == s.objs[y.source].events[..|y.snapshot|];
  }

  lemma UnsignedMatches(cfg: Config, s: State, p: nat)
    requires Inv(cfg, s) && p < |s.pends| && |s.pends[p].snapshot| <= MAX_ARRAY
    ensures ManifestMatches(cfg.h, s.pends[p].snapshot, s.pends[p].unsigned)
  {
    var y := s.pends[p];
    assert SnapshotOk(s, p) && UnsignedOk(cfg, s, p);
    var x := s.objs[y.source];
    SealedMatches(cfg.h, y.id, x.identity, x.proxy, x.startedAt, y.unsigned.closedAt, y.snapshot, cfg.keyId);
  }

  /**
   Every manifest handed to the sink is accepted, with the events it was sealed from, by all three
   verifiers: the keyed chain check, the signature check and the manifest check.
   */
  lemma DeliveredManifestsVerify(cfg: Config, mac: Mac, secret: string, steps: seq<Step>, s: State, p: nat, i: nat)
    requires Reached(cfg, mac, secret, steps, s) && p < |s.pends| && i < |s.pends[p].deliveries|
    requires |s.pends[p].snapshot| <= MAX_ARRAY
    ensures ChainValid(ChainHasher(mac, secret), s.pends[p].snapshot)
    ensures SignatureOf(mac, secret, s.pends[p].deliveries[i].unsigned) == Some(s.pends[p].deliveries[i].signature)
    ensures ManifestMatches(cfg.h, s.pends[p].snapshot, s.pends[p].deliveries[i].unsigned)
  {
    ReachedInv(cfg, mac, secret, steps, s);
    assert SignedOk(cfg, s.pends[p]);
    SnapshotIsChain(cfg, s, p);
    UnsignedMatches(cfg, s, p);
  }

  // ---- Drain ----

  /** The session a step seals, if it seals one. */
  ghost function SealsNow(s: State, step: Step): Option<nat>
    requires Ranged(s) && Enabled(s, step)
  {
    match step
    case Close(id, expired, _, _) =>
      if id in s.sessions && s.objs[s.sessions[id]].closing.NotClosing?
         && (expired || s.objs[s.sessions[id]].inflight == {})
      then Some(s.sessions[id]) else None
    case CloseResumes(o, expired, _, _) => if expired || s.objs[o].inflight == {} then Some(o) else None
    case _ => None
  }

  ghost predicate DeadlinePassed(step: Step) {
    (step.Close? || step.CloseResumes?) && step.expired
  }

  /** Sealing an object, then starting an attempt, touches no other object. */
  lemma DrainObjects(cfg: Config, s: State, o: nat, expired: bool, closedAt: string, starts: bool)
    requires Ranged(s) && o < |s.objs|
    ensures Drain(cfg, s, o, expired, closedAt, starts).objs
         == if s.objs[o].inflight != {} && !expired then s.objs[o := s.objs[o].(closing := Draining(false))]
            else Leave(s, o).objs
  {
  }

  /** What a session object is for, fixed when it is opened. */
  ghost predicate SameOpening(x: Session, y: Session) {
    y.id == x.id && y.identity == x.identity && y.proxy == x.proxy && y.startedAt == x.startedAt
  }

  ghost predicate OpenedBy(s: State, step: Step, x: Session) {
    && step.AdmitCall? && step.proxy.Some? && step.sessionId == Some(x.id) && x.id != "" && x.id !in s.sessions
    && x.identity == step.identity && x.proxy == step.proxy.value && x.startedAt == step.now
  }

  lemma AdmitOpens(s: State, step: Step, o: nat)
    requires Ranged(s) && Enabled(s, step) && step.AdmitCall?
    requires o < |Admit(s, step.sessionId, step.identity, step.proxy, step.requestId, step.now).objs|
    ensures var t := Admit(s, step.sessionId, step.identity, step.proxy, step.requestId, step.now);
            if o < |s.objs| then SameOpening(s.objs[o], t.objs[o]) else OpenedBy(s, step, t.objs[o])
  {
  }

  lemma CloseOpenings(cfg: Config, s: State, step: Step, o: nat)
    requires Ranged(s) && Enabled(s, step) && (step.Close? || step.CloseResumes?)
    ensures |Apply(cfg, s, step).objs| == |s.objs|
    ensures (o < |s.objs| ==> SameOpening(s.objs[o], Apply(cfg, s, step).objs[o]))
  {
    if step.CloseResumes? {
      DrainObjects(cfg, s, step.o, step.expired, step.closedAt, step.starts);
    } else if step.id in s.sessions {
      DrainObjects(cfg, s, s.sessions[step.id], step.expired, step.closedAt, step.starts);
    }
  }

  /** First seen wins: the call that opens a session object sets its identity, proxy and start for good. */
  lemma FirstSeenWins(cfg: Config, s: State, step: Step, o: nat)
    requires Ranged(s) && Enabled(s, step) && o < |Apply(cfg, s, step).objs|
    ensures var t := Apply(cfg, s, step);
            if o < |s.objs| then SameOpening(s.objs[o], t.objs[o]) else OpenedBy(s, step, t.objs[o])
  {
    if step.AdmitCall? {
      AdmitOpens(s, step, o);
    } else if step.Close? || step.CloseResumes? {
      CloseOpenings(cfg, s, step, o);
    } else if step.KeysRejected? || step.UpstreamSettled? || step.SinkSettled? {
      CallSame(cfg, s, step, o);
    }
  }

  ghost function StragglersAt(s: State, o: nat): set<nat> {
    if o < |s.objs| then s.objs[o].stragglers else {}
  }

  lemma CloseStragglers(cfg: Config, s: State, step: Step, o: nat)
    requires Ranged(s) && Enabled(s, step) && (step.Close? || step.CloseResumes?)
    ensures StragglersAt(Apply(cfg, s, step), o)
         == if SealsNow(s, step) == Some(o) then s.objs[o].inflight else StragglersAt(s, o)
    ensures SealsNow(s, step) == Some(o) ==>
              o < |Apply(cfg, s, step).objs| && Apply(cfg, s, step).objs[o].closing.Closed?
  {
    if step.CloseResumes? {
      DrainObjects(cfg, s, step.o, step.expired, step.closedAt, step.starts);
    } else if step.id in s.sessions {
      DrainObjects(cfg, s, s.sessions[step.id], step.expired, step.closedAt, step.starts);
    }
  }

  /** A call's segment changes what its session records, not what the session is for. */
  ghost predicate SameSession(s: State, t: State, o: nat) {
    o < |s.objs| && o < |t.objs| ==> SameOpening(s.objs[o], t.objs[o]) && t.objs[o].stragglers == s.objs[o].stragglers
  }

  lemma SettleSame(s: State, c: nat, fate: Fate, o: nat)
    requires Ranged(s) && c < |s.calls|
    ensures |Settle(s, c, fate).objs| == |s.objs| && SameSession(s, Settle(s, c, fate), o)
  {
  }

  lemma AppendSame(s: State, c: nat, e: AuditEvent, o: nat)
    requires Ranged(s) && c < |s.calls|
    ensures |Append(s, c, e).objs| == |s.objs| && SameSession(s, Append(s, c, e), o)
  {
  }

  lemma FinishSame(cfg: Config, s: State, c: nat, draft: AuditEvent, rejected: bool, o: nat)
    requires Ranged(s) && c < |s.calls|
    ensures |Finish(cfg, s, c, draft, rejected).objs| == |s.objs|
    ensures SameSession(s, Finish(cfg, s, c, draft, rejected), o)
  {
    var e := BuildEvent(cfg, s.calls[c], draft, NextPosition(s, c), PrevHash(s, c));
    SettleSame(s, c, Skipped, o);
    SettleSame(s, c, BuildFailed, o);
    if e.Some? { AppendSame(s, c, e.value, o); }
  }

  lemma CallSame(cfg: Config, s: State, step: Step, o: nat)
    requires Ranged(s) && Enabled(s, step) && (step.KeysRejected? || step.UpstreamSettled? || step.SinkSettled?)
    ensures |Apply(cfg, s, step).objs| == |s.objs| && SameSession(s, Apply(cfg, s, step), o)
  {
    if step.KeysRejected? {
      SettleSame(s, step.c, KeyFailed, o);
    } else if step.SinkSettled? {
      SettleSame(s, step.c, Recorded, o);
    } else {
      FinishSame(cfg, s, step.c, step.draft, step.rejected, o);
    }
  }

  /** Only a seal makes stragglers: the calls then in flight. */
  lemma StragglersOfStep(cfg: Config, s: State, step: Step, o: nat)
    requires Ranged(s) && Enabled(s, step)
    ensures StragglersAt(Apply(cfg, s, step), o)
         == if SealsNow(s, step) == Some(o) then s.objs[o].inflight else StragglersAt(s, o)
    ensures SealsNow(s, step) == Some(o) ==>
              o < |Apply(cfg, s, step).objs| && Apply(cfg, s, step).objs[o].closing.Closed?
  {
    if step.Close? || step.CloseResumes? {
      CloseStragglers(cfg, s, step, o);
    } else if step.KeysRejected? || step.UpstreamSettled? || step.SinkSettled? {
      CallSame(cfg, s, step, o);
    }
  }

  /**
   At the seal, the calls reported are exactly those of the session that have not settled; and when the
   deadline has not passed there are none.
   */
  lemma SealReportsStragglers(cfg: Config, s: State, step: Step, o: nat, c: nat)
    requires Inv(cfg, s) && Enabled(s, step) && SealsNow(s, step) == Some(o) && c < |s.calls|
    ensures o < |Apply(cfg, s, step).objs| && Apply(cfg, s, step).objs[o].closing.Closed?
    ensures c in Apply(cfg, s, step).objs[o].stragglers <==> s.calls[c].session == Some(o) && !s.calls[c].phase.Settled?
    ensures !DeadlinePassed(step) ==> Apply(cfg, s, step).objs[o].stragglers == {}
  {
    SealedInRange(s, step);
    StragglersOfStep(cfg, s, step, o);
    InFlightExactly(cfg, s, o, c);
  }

  lemma SealedInRange(s: State, step: Step)
    requires Ranged(s) && Enabled(s, step) && SealsNow(s, step).Some?
    ensures SealsNow(s, step).value < |s.objs|
    ensures !DeadlinePassed(step) ==> s.objs[SealsNow(s, step).value].inflight == {}
  {
  }

  lemma InFlightExactly(cfg: Config, s: State, o: nat, c: nat)
    requires Inv(cfg, s) && o < |s.objs| && c < |s.calls|
    ensures c in s.objs[o].inflight <==> s.calls[c].session == Some(o) && !s.calls[c].phase.Settled?
  {
    assert ObjOk(cfg, s, o) && CallOk(s, c);
    assert c in s.objs[o].inflight ==> FlightOk(s, o, c);
  }

  /** No step of the run finds the drain deadline passed. */
  ghost predicate NoDeadline(steps: seq<Step>) {
    forall i | 0 <= i < |steps| :: !DeadlinePassed(steps[i])
  }

  ghost predicate NoStragglers(s: State) {
    forall o | 0 <= o < |s.objs| :: s.objs[o].stragglers == {}
  }

  lemma {:induction false} RunWithoutStragglers(cfg: Config, s: State, steps: seq<Step>)
    requires NoStragglers(s) && NoDeadline(steps) && Run(cfg, s, steps).Some?
    ensures NoStragglers(Run(cfg, s, steps).value)
    decreases |steps|
  {
    if steps != [] {
      var t := Apply(cfg, s, steps[0]);
      forall o | 0 <= o < |t.objs| ensures t.objs[o].stragglers == {} {
        StragglersOfStep(cfg, s, steps[0], o);
        if SealsNow(s, steps[0]) == Some(o) { SealedInRange(s, steps[0]); }
      }
      assert forall i | 0 <= i < |steps[1..]| :: steps[1..][i] == steps[i + 1];
      RunWithoutStragglers(cfg, t, steps[1..]);
    }
  }

  /** Event i of manifest p is the event of call c, a call of the session object the manifest was sealed from. */
  ghost predicate Covers(s: State, p: nat, i: nat, c: nat)
    requires p < |s.pends|
  {
    var y := s.pends[p];
    && y.source < |s.objs| && i < |y.snapshot| && i < |s.objs[y.source].writers| && c < |s.calls|
    && s.objs[y.source].writers[i] == c && s.calls[c].session == Some(y.source)
    && s.calls[c].event == Some(y.snapshot[i])
  }

  /** Every event of a manifest belongs to one call of its session, and no call has two. */
  lemma EventsHaveCalls(cfg: Config, s: State, p: nat, i: nat) returns (c: nat)
    requires Inv(cfg, s) && p < |s.pends| && i < |s.pends[p].snapshot|
    ensures Covers(s, p, i, c)
    ensures forall j | j != i :: !Covers(s, p, j, c)
  {
    assert SnapshotOk(s, p);
    assert ObjOk(cfg, s, s.pends[p].source);
    assert WriterOk(s, s.pends[p].source, i);
    c := s.objs[s.pends[p].source].writers[i];
  }

  /** Every event of a manifest carries the manifest's session id and the request id of its call. */
  lemma EventsNameTheirCalls(cfg: Config, mac: Mac, secret: string, steps: seq<Step>, s: State, p: nat,
      i: nat) returns (c: nat)
    requires Reached(cfg, mac, secret, steps, s) && p < |s.pends| && i < |s.pends[p].snapshot|
    ensures Covers(s, p, i, c) && s.pends[p].snapshot[i].id == Str(s.calls[c].requestId)
    ensures s.pends[p].snapshot[i].sessionId == Str(s.pends[p].unsigned.sessionId)
  {
    ReachedInv(cfg, mac, secret, steps, s);
    c := EventsHaveCalls(cfg, s, p, i);
    assert CallOk(s, c) && SnapshotOk(s, p) && UnsignedOk(cfg, s, p);
  }

  ghost predicate IsCovered(s: State, p: nat, c: nat)
    requires p < |s.pends|
  {
    exists i | 0 <= i < |s.pends[p].snapshot| :: Covers(s, p, i, c)
  }

  ghost predicate HasCall(s: State, p: nat, i: nat)
    requires p < |s.pends|
  {
    exists c | 0 <= c < |s.calls| :: Covers(s, p, i, c)
  }

  /** The call has settled, and the manifest covers it exactly if its event was recorded. */
  ghost predicate Accounted(s: State, p: nat, c: nat)
    requires p < |s.pends| && c < |s.calls|
  {
    s.calls[c].phase.Settled? && (s.calls[c].phase.fate.Recorded? <==> IsCovered(s, p, c))
  }

  lemma CallsAreCovered(cfg: Config, s: State, p: nat, c: nat)
    requires Inv(cfg, s) && p < |s.pends| && c < |s.calls| && s.calls[c].session == Some(s.pends[p].source)
    ensures s.pends[p].source < |s.objs|
    ensures c in s.objs[s.pends[p].source].stragglers || Accounted(s, p, c)
  {
    var y, o := s.pends[p], s.pends[p].source;
    assert SnapshotOk(s, p);
    assert ObjOk(cfg, s, o) && CallOk(s, c);
    if c !in s.objs[o].stragglers && s.calls[c].event.Some? {
      var i: nat :| i < |s.objs[o].writers| && s.objs[o].writers[i] == c;
      assert WriterOk(s, o, i);
      assert i < |y.snapshot| && y.snapshot[i] == s.objs[o].events[i];
      assert Covers(s, p, i, c);
    }
  }

  /**
   Drain completeness, with the deadline allowed to fire. Every call ever admitted to the session object of
   a manifest, also while the close was waiting, is a reported straggler, or it has settled and the
   manifest covers it exactly if its event was recorded.
   */
  lemma ManifestCoversCalls(cfg: Config, mac: Mac, secret: string, steps: seq<Step>, s: State, p: nat, c: nat)
    requires Reached(cfg, mac, secret, steps, s) && p < |s.pends| && c < |s.calls|
    requires s.calls[c].session == Some(s.pends[p].source)
    ensures s.pends[p].source < |s.objs|
    ensures c in s.objs[s.pends[p].source].stragglers || Accounted(s, p, c)
  {
    ReachedInv(cfg, mac, secret, steps, s);
    CallsAreCovered(cfg, s, p, c);
  }

  lemma SnapshotEnds(cfg: Config, s: State, p: nat)
    requires Inv(cfg, s) && p < |s.pends|
    ensures var y := s.pends[p];
            && y.source < |s.objs| && s.objs[y.source].inflight <= s.objs[y.source].stragglers
            && (y.snapshot == s.objs[y.source].events
                || (|y.snapshot| < |s.objs[y.source].writers|
                    && s.objs[y.source].writers[|y.snapshot|] in s.objs[y.source].stragglers))
  {
    assert SnapshotOk(s, p);
    assert ObjOk(cfg, s, s.pends[p].source);
  }

  lemma WholeRecord(cfg: Config, s: State, p: nat)
    requires Inv(cfg, s) && NoStragglers(s) && p < |s.pends|
    ensures s.pends[p].source < |s.objs|
    ensures s.objs[s.pends[p].source].inflight == {} && s.pends[p].snapshot == s.objs[s.pends[p].source].events
  {
    SnapshotEnds(cfg, s, p);
  }

  /** Every call of the manifest's session is accounted for, and every event of the manifest has its call. */
  ghost predicate Complete(s: State, p: nat)
    requires p < |s.pends|
  {
    var y := s.pends[p];
    && y.source < |s.objs| && s.objs[y.source].inflight == {} && y.snapshot == s.objs[y.source].events
    && (forall c | 0 <= c < |s.calls| && s.calls[c].session == Some(y.source) :: Accounted(s, p, c))
    && (forall i | 0 <= i < |y.snapshot| :: HasCall(s, p, i))
  }

  lemma CompleteWithoutStragglers(cfg: Config, s: State, p: nat)
    requires Inv(cfg, s) && NoStragglers(s) && p < |s.pends|
    ensures Complete(s, p)
  {
    WholeRecord(cfg, s, p);
    forall c | 0 <= c < |s.calls| && s.calls[c].session == Some(s.pends[p].source) ensures Accounted(s, p, c) {
      CallsAreCovered(cfg, s, p, c);
    }
    forall i | 0 <= i < |s.pends[p].snapshot| ensures HasCall(s, p, i) {
      var c := EventsHaveCalls(cfg, s, p, i);
    }
  }

  /**
   Drain completeness. In a run where no deadline fires, nothing is in flight in a sealed session object,
   its manifest covers its whole record, every event in it is a call's, and every call ever admitted to
   the object has settled and is covered exactly if its event was recorded.
   */
  lemma DrainCompleteness(cfg: Config, mac: Mac, secret: string, steps: seq<Step>, s: State, p: nat)
    requires Reached(cfg, mac, secret, steps, s) && NoDeadline(steps) && p < |s.pends|
    ensures Complete(s, p)
  {
    ReachedInv(cfg, mac, secret, steps, s);
    RunWithoutStragglers(cfg, INIT, steps);
    CompleteWithoutStragglers(cfg, s, p);
  }

  lemma SealSnapshots(cfg: Config, s: State, o: nat, expired: bool, closedAt: string, starts: bool)
    requires Ranged(s) && o < |s.objs| && (expired || s.objs[o].inflight == {}) && s.objs[o].events != []
    ensures var t := Drain(cfg, s, o, expired, closedAt, starts);
            && t.calls == s.calls && |t.pends| == |s.pends| + 1 && |t.objs| == |s.objs|
            && t.objs[o].writers == s.objs[o].writers
            && t.pends[|s.pends|].source == o && t.pends[|s.pends|].snapshot == s.objs[o].events
  {
  }

  /**
   A straggler is reported with the words that its event is not in the manifest. That is so exactly for
   the stragglers that have not appended: one whose event only waits for the sink is covered all the same.
   */
  lemma StragglerCoveredExactlyWhen(cfg: Config, s: State, o: nat, closedAt: string, starts: bool, c: nat)
    requires Inv(cfg, s) && o < |s.objs| && !s.objs[o].closing.Closed? && s.objs[o].events != []
    requires c in s.objs[o].inflight
    ensures var t := Drain(cfg, s, o, true, closedAt, starts);
            && c < |s.calls| && |t.pends| > |s.pends| && o < |t.objs| && c in t.objs[o].stragglers
            && (IsCovered(t, |s.pends|, c) <==> s.calls[c].phase == Persisting)
  {
    var t, p := Drain(cfg, s, o, true, closedAt, starts), |s.pends|;
    SealSnapshots(cfg, s, o, true, closedAt, starts);
    DrainObjects(cfg, s, o, true, closedAt, starts);
    assert ObjOk(cfg, s, o) && FlightOk(s, o, c) && CallOk(s, c);
    if s.calls[c].phase == Persisting {
      var i: nat :| i < |s.objs[o].writers| && s.objs[o].writers[i] == c;
      assert WriterOk(s, o, i);
      assert Covers(t, p, i, c);
    }
  }

  /** No lost wake-up: a close that waits while nothing is in flight has been woken. */
  lemma DrainNeverStalls(cfg: Config, mac: Mac, secret: string, steps: seq<Step>, s: State, o: nat)
    requires Reached(cfg, mac, secret, steps, s) && o < |s.objs| && s.objs[o].closing.Draining?
    requires s.objs[o].inflight == {}
    ensures s.objs[o].closing == Draining(true)
  {
    ReachedInv(cfg, mac, secret, steps, s);
    assert ObjOk(cfg, s, o);
  }

  // ---- One artifact ----

  /**
   However many closes and retries race, and however often signer and sink fail: the signer signs a sealed
   session at most once, every manifest handed to the sink for it is the same, and no two attempts run.
   */
  lemma SingleArtifact(cfg: Config, mac: Mac, secret: string, steps: seq<Step>, s: State, p: nat)
    requires Reached(cfg, mac, secret, steps, s) && p < |s.pends|
    ensures s.pends[p].signings <= 1
    ensures forall i, j | 0 <= i < j < |s.pends[p].deliveries| :: s.pends[p].deliveries[i] == s.pends[p].deliveries[j]
    ensures forall a, b | 0 <= a < b < |s.attempts| && s.attempts[a].pending == p == s.attempts[b].pending ::
              s.attempts[a].phase.Ended? || s.attempts[b].phase.Ended?
  {
    ReachedInv(cfg, mac, secret, steps, s);
    assert SignedOk(cfg, s.pends[p]);
    forall a, b | 0 <= a < b < |s.attempts| && s.attempts[a].pending == p == s.attempts[b].pending
      ensures s.attempts[a].phase.Ended? || s.attempts[b].phase.Ended?
    {
      if !s.attempts[a].phase.Ended? { OnlyStoredRuns(cfg, s, a, b); }
    }
  }
}
