/** What a run leaves on record, told from its steps: which calls are recorded, and what a manifest says. */
module AuditRecords {
  import opened Text
  import opened Json
  import opened Digests
  import opened Merkle
  import opened Chain
  import opened Manifest
  import opened Replay
  import opened AuditProtocol
  import opened AuditInvariant
  import opened AuditTheorems
  import opened AuditDelivery

  // ---- Which calls are recorded ----

  ghost predicate IsUpstream(step: Step, c: nat, rejected: bool) {
    step.UpstreamSettled? && step.c == c && step.rejected == rejected
  }

  /** The upstream of the call settled in this run, by a rejection or not. */
  ghost predicate UpstreamIn(steps: seq<Step>, c: nat, rejected: bool) {
    exists i | 0 <= i < |steps| :: IsUpstream(steps[i], c, rejected)
  }

  ghost predicate WasSkipped(call: Call) {
    call.phase == Settled(Skipped)
  }

  /** An event was built for the call, or could not be. */
  ghost predicate WasTried(call: Call) {
    call.event.Some? || call.phase == Settled(BuildFailed)
  }

  ghost predicate SkipsNow(cfg: Config, step: Step, c: nat) {
    IsUpstream(step, c, true) && !cfg.includeRejections
  }

  ghost predicate TriesNow(cfg: Config, step: Step, c: nat) {
    IsUpstream(step, c, false) || (IsUpstream(step, c, true) && cfg.includeRejections)
  }

  lemma SettleFate(s: State, c: nat, fate: Fate, d: nat)
    requires Ranged(s) && c < |s.calls| && d < |s.calls|
    ensures var t := Settle(s, c, fate);
            && |t.calls| == |s.calls|
            && t.calls[d] == if d == c then s.calls[c].(phase := Settled(fate)) else s.calls[d]
  {
  }

  lemma FinishFate(cfg: Config, s: State, c: nat, draft: AuditEvent, rejected: bool, d: nat)
    requires Ranged(s) && c < |s.calls| && d < |s.calls| && s.calls[c].phase == Running && s.calls[c].event.None?
    ensures var t := Finish(cfg, s, c, draft, rejected);
            && |t.calls| == |s.calls| && (d != c ==> t.calls[d] == s.calls[d])
            && (WasSkipped(t.calls[c]) <==> rejected && !cfg.includeRejections)
            && (WasTried(t.calls[c]) <==> !rejected || cfg.includeRejections)
  {
    SettleFate(s, c, Skipped, d);
    SettleFate(s, c, Skipped, c);
    SettleFate(s, c, BuildFailed, d);
    SettleFate(s, c, BuildFailed, c);
  }

  lemma DrainFate(cfg: Config, s: State, o: nat, expired: bool, closedAt: string, starts: bool)
    requires Ranged(s) && o < |s.objs|
    ensures Drain(cfg, s, o, expired, closedAt, starts).calls == s.calls
  {
  }

  lemma CloseFate(cfg: Config, s: State, step: Step)
    requires Ranged(s) && Enabled(s, step) && !step.AdmitCall?
    requires !step.KeysRejected? && !step.UpstreamSettled? && !step.SinkSettled?
    ensures Apply(cfg, s, step).calls == s.calls
  {
    match step
    case Close(id, expired, closedAt, starts) =>
      if id in s.sessions { DrainFate(cfg, s, s.sessions[id], expired, closedAt, starts); }
    case CloseResumes(o, expired, closedAt, starts) => DrainFate(cfg, s, o, expired, closedAt, starts);
    case _ =>
  }

  lemma AdmitFate(s: State, sessionId: Option<string>, identity: Value, proxy: Option<Value>, requestId: string,
                  now: string, c: nat)
    requires Ranged(s)
    ensures var t := Admit(s, sessionId, identity, proxy, requestId, now);
            && |s.calls| <= |t.calls| && (c < |s.calls| ==> t.calls[c] == s.calls[c])
            && (|s.calls| <= c < |t.calls| ==> t.calls[c].phase == Running && t.calls[c].event.None?)
  {
  }

  /** What a step makes of a call. */
  ghost predicate FateMoves(cfg: Config, s: State, t: State, step: Step, c: nat) {
    c < |t.calls| ==>
      && (WasSkipped(t.calls[c]) <==> (c < |s.calls| && WasSkipped(s.calls[c])) || SkipsNow(cfg, step, c))
      && (WasTried(t.calls[c]) <==> (c < |s.calls| && WasTried(s.calls[c])) || TriesNow(cfg, step, c))
  }

  lemma SettleMoves(cfg: Config, s: State, step: Step, d: nat, fate: Fate, c: nat)
    requires Ranged(s) && d < |s.calls| && !step.UpstreamSettled? && (fate.KeyFailed? || fate.Recorded?)
    requires !s.calls[d].phase.Settled?
    ensures FateMoves(cfg, s, Settle(s, d, fate), step, c)
  {
    if c < |s.calls| { SettleFate(s, d, fate, c); }
  }

  lemma FinishMoves(cfg: Config, s: State, d: nat, draft: AuditEvent, rejected: bool, c: nat)
    requires Ranged(s) && d < |s.calls| && s.calls[d].phase == Running && s.calls[d].event.None?
    ensures FateMoves(cfg, s, Finish(cfg, s, d, draft, rejected), UpstreamSettled(d, draft, rejected), c)
  {
    if c < |s.calls| { FinishFate(cfg, s, d, draft, rejected, c); } else { FinishFate(cfg, s, d, draft, rejected, d); }
  }

  lemma AdmitMoves(cfg: Config, s: State, sessionId: Option<string>, identity: Value, proxy: Option<Value>,
                   requestId: string, now: string, c: nat)
    requires Ranged(s)
    ensures FateMoves(cfg, s, Admit(s, sessionId, identity, proxy, requestId, now),
                      AdmitCall(sessionId, identity, proxy, requestId, now), c)
  {
    AdmitFate(s, sessionId, identity, proxy, requestId, now, c);
  }

  lemma StepFate(cfg: Config, s: State, step: Step, c: nat)
    requires Inv(cfg, s) && Enabled(s, step)
    ensures FateMoves(cfg, s, Apply(cfg, s, step), step, c)
  {
    match step
    case AdmitCall(sessionId, identity, proxy, requestId, now) =>
      AdmitMoves(cfg, s, sessionId, identity, proxy, requestId, now, c);
    case KeysRejected(d) =>
      SettleMoves(cfg, s, step, d, KeyFailed, c);
    case UpstreamSettled(d, draft, rejected) =>
      assert CallOk(s, d);
      FinishMoves(cfg, s, d, draft, rejected, c);
    case SinkSettled(d) =>
      SettleMoves(cfg, s, step, d, Recorded, c);
    case _ => CloseFate(cfg, s, step);
  }

  lemma UpstreamStep(steps: seq<Step>, c: nat, rejected: bool)
    requires steps != []
    ensures UpstreamIn(steps, c, rejected) <==> IsUpstream(steps[0], c, rejected) || UpstreamIn(steps[1..], c, rejected)
  {
    if UpstreamIn(steps[1..], c, rejected) {
      var i :| 0 <= i < |steps[1..]| && IsUpstream(steps[1..][i], c, rejected);
      assert IsUpstream(steps[i + 1], c, rejected);
    }
    if UpstreamIn(steps, c, rejected) {
      var i :| 0 <= i < |steps| && IsUpstream(steps[i], c, rejected);
      if i > 0 { assert IsUpstream(steps[1..][i - 1], c, rejected); }
    }
  }

  lemma {:induction false} RunSkips(cfg: Config, s: State, steps: seq<Step>, t: State, c: nat)
    requires Inv(cfg, s) && Run(cfg, s, steps) == Some(t) && c < |t.calls|
    ensures WasSkipped(t.calls[c])
       <==> (c < |s.calls| && WasSkipped(s.calls[c])) || (UpstreamIn(steps, c, true) && !cfg.includeRejections)
    decreases |steps|
  {
    if steps != [] {
      StepKeeps(cfg, s, steps[0]);
      StepFate(cfg, s, steps[0], c);
      CallsStay(cfg, s, steps[0], c);
      RunSkips(cfg, Apply(cfg, s, steps[0]), steps[1..], t, c);
      UpstreamStep(steps, c, true);
    }
  }

  lemma {:induction false} RunTries(cfg: Config, s: State, steps: seq<Step>, t: State, c: nat)
    requires Inv(cfg, s) && Run(cfg, s, steps) == Some(t) && c < |t.calls|
    ensures WasTried(t.calls[c])
       <==> (c < |s.calls| && WasTried(s.calls[c])) || UpstreamIn(steps, c, false)
            || (UpstreamIn(steps, c, true) && cfg.includeRejections)
    decreases |steps|
  {
    if steps != [] {
      StepKeeps(cfg, s, steps[0]);
      StepFate(cfg, s, steps[0], c);
      CallsStay(cfg, s, steps[0], c);
      RunTries(cfg, Apply(cfg, s, steps[0]), steps[1..], t, c);
      UpstreamStep(steps, c, true);
      UpstreamStep(steps, c, false);
    }
  }

  lemma CallsStay(cfg: Config, s: State, step: Step, c: nat)
    requires Ranged(s) && Enabled(s, step)
    ensures c >= |Apply(cfg, s, step).calls| ==> !IsUpstream(step, c, true) && !IsUpstream(step, c, false)
    ensures |s.calls| <= |Apply(cfg, s, step).calls|
  {
    match step
    case AdmitCall(sessionId, identity, proxy, requestId, now) =>
      AdmitFate(s, sessionId, identity, proxy, requestId, now, c);
    case UpstreamSettled(d, draft, rejected) => FinishCount(cfg, s, d, draft, rejected);
    case KeysRejected(d) => SettleFate(s, d, KeyFailed, d);
    case SinkSettled(d) => SettleFate(s, d, Recorded, d);
    case _ => CloseFate(cfg, s, step);
  }

  lemma FinishCount(cfg: Config, s: State, c: nat, draft: AuditEvent, rejected: bool)
    requires Ranged(s) && c < |s.calls|
    ensures |Finish(cfg, s, c, draft, rejected).calls| == |s.calls|
  {
    SettleFate(s, c, Skipped, c);
    SettleFate(s, c, BuildFailed, c);
  }

  /**
   Over every run: a call is skipped exactly when its upstream rejected it and rejections are not recorded; an
   event is built for it, or fails to be, exactly when its upstream settled otherwise.
   */
  lemma RejectionsRecordedExactlyWhen(cfg: Config, mac: Mac, secret: string, steps: seq<Step>, s: State, c: nat)
    requires Reached(cfg, mac, secret, steps, s) && c < |s.calls|
    ensures s.calls[c].phase == Settled(Skipped) <==> UpstreamIn(steps, c, true) && !cfg.includeRejections
    ensures s.calls[c].event.Some? || s.calls[c].phase == Settled(BuildFailed)
       <==> UpstreamIn(steps, c, false) || (UpstreamIn(steps, c, true) && cfg.includeRejections)
  {
    InitHolds(cfg, mac, secret);
    RunSkips(cfg, INIT, steps, s, c);
    RunTries(cfg, INIT, steps, s, c);
  }

  // ---- Which calls belong to a session ----

  ghost predicate InSession(call: Call) {
    call.session.Some? <==> call.sessionId.Some? && call.sessionId.value != ""
  }

  ghost predicate AllInSession(s: State) {
    forall c | 0 <= c < |s.calls| :: InSession(s.calls[c])
  }

  lemma AdmitInSession(s: State, sessionId: Option<string>, identity: Value, proxy: Option<Value>, requestId: string,
                       now: string)
    requires Ranged(s) && AllInSession(s)
    ensures AllInSession(Admit(s, sessionId, identity, proxy, requestId, now))
  {
  }

  lemma SettleKeepsSessions(s: State, c: nat, fate: Fate)
    requires Ranged(s) && c < |s.calls| && AllInSession(s)
    ensures AllInSession(Settle(s, c, fate))
  {
  }

  lemma FinishKeepsSessions(cfg: Config, s: State, c: nat, draft: AuditEvent, rejected: bool)
    requires Ranged(s) && c < |s.calls| && AllInSession(s)
    ensures AllInSession(Finish(cfg, s, c, draft, rejected))
  {
    SettleKeepsSessions(s, c, Skipped);
    SettleKeepsSessions(s, c, BuildFailed);
  }

  lemma {:induction false} RunInSession(cfg: Config, s: State, steps: seq<Step>)
    requires Run(cfg, s, steps).Some? && AllInSession(s)
    ensures AllInSession(Run(cfg, s, steps).value)
    decreases |steps|
  {
    if steps != [] {
      match steps[0] {
        case AdmitCall(sessionId, identity, proxy, requestId, now) =>
          AdmitInSession(s, sessionId, identity, proxy, requestId, now);
        case KeysRejected(c) => SettleKeepsSessions(s, c, KeyFailed);
        case UpstreamSettled(c, draft, rejected) => FinishKeepsSessions(cfg, s, c, draft, rejected);
        case SinkSettled(c) => SettleKeepsSessions(s, c, Recorded);
        case _ => CloseFate(cfg, s, steps[0]);
      }
      RunInSession(cfg, Apply(cfg, s, steps[0]), steps[1..]);
    }
  }

  /** Over every run: a call belongs to a session exactly when it came with a session id that is not empty. */
  lemma SessionExactlyWhenNamed(cfg: Config, steps: seq<Step>, s: State, c: nat)
    requires Run(cfg, INIT, steps) == Some(s) && c < |s.calls|
    ensures s.calls[c].session.Some? <==> s.calls[c].sessionId.Some? && s.calls[c].sessionId.value != ""
  {
    RunInSession(cfg, INIT, steps);
    assert InSession(s.calls[c]);
  }

  // ---- What an event says ----

  /** The event is the draft of this step, with the four fields the chain gives it filled in. */
  ghost predicate DraftsAs(step: Step, c: nat, e: AuditEvent) {
    && step.UpstreamSettled? && step.c == c
    && e == step.draft.(id := e.id, sessionId := e.sessionId, position := e.position, chainHash := e.chainHash)
  }

  ghost predicate HasEvent(s: State, c: nat, e: AuditEvent) {
    c < |s.calls| && s.calls[c].event == Some(e)
  }

  lemma FinishDrafts(cfg: Config, s: State, d: nat, draft: AuditEvent, rejected: bool, c: nat, e: AuditEvent)
    requires Ranged(s) && d < |s.calls| && HasEvent(Finish(cfg, s, d, draft, rejected), c, e)
    ensures HasEvent(s, c, e) || DraftsAs(UpstreamSettled(d, draft, rejected), c, e)
  {
    if c < |s.calls| {
      SettleFate(s, d, Skipped, c);
      SettleFate(s, d, BuildFailed, c);
    }
    FinishCount(cfg, s, d, draft, rejected);
  }

  lemma StepDrafts(cfg: Config, s: State, step: Step, c: nat, e: AuditEvent)
    requires Ranged(s) && Enabled(s, step) && HasEvent(Apply(cfg, s, step), c, e)
    ensures HasEvent(s, c, e) || DraftsAs(step, c, e)
  {
    match step
    case AdmitCall(sessionId, identity, proxy, requestId, now) =>
      AdmitFate(s, sessionId, identity, proxy, requestId, now, c);
    case UpstreamSettled(d, draft, rejected) => FinishDrafts(cfg, s, d, draft, rejected, c, e);
    case KeysRejected(d) => SettleFate(s, d, KeyFailed, if c < |s.calls| then c else d);
    case SinkSettled(d) => SettleFate(s, d, Recorded, if c < |s.calls| then c else d);
    case _ => CloseFate(cfg, s, step);
  }

  lemma {:induction false} RunDrafts(cfg: Config, s: State, steps: seq<Step>, t: State, c: nat, e: AuditEvent)
    returns (i: nat)
    requires Run(cfg, s, steps) == Some(t) && HasEvent(t, c, e) && !HasEvent(s, c, e)
    ensures i < |steps| && DraftsAs(steps[i], c, e)
    decreases |steps|
  {
    var u := Apply(cfg, s, steps[0]);
    if HasEvent(u, c, e) {
      StepDrafts(cfg, s, steps[0], c, e);
      i := 0;
    } else {
      var j := RunDrafts(cfg, u, steps[1..], t, c, e);
      i := j + 1;
    }
  }

  /** Every event of a manifest is, but for those four fields, the draft its own call's upstream settled with. */
  lemma EventsAreDrafts(cfg: Config, mac: Mac, secret: string, steps: seq<Step>, s: State, p: nat, i: nat)
    returns (c: nat, k: nat)
    requires Reached(cfg, mac, secret, steps, s) && p < |s.pends| && i < |s.pends[p].snapshot|
    ensures Covers(s, p, i, c) && k < |steps| && DraftsAs(steps[k], c, s.pends[p].snapshot[i])
  {
    c := EventsNameTheirCalls(cfg, mac, secret, steps, s, p, i);
    k := RunDrafts(cfg, INIT, steps, s, c, s.pends[p].snapshot[i]);
  }

  // ---- What a manifest says ----

  /** The step opens a session with the identity, proxy and start that stand in the manifest. */
  ghost predicate Opens(step: Step, u: Unsigned) {
    && step.AdmitCall? && step.sessionId == Some(u.sessionId) && step.identity == u.identity
    && step.proxy == Some(u.proxy) && step.now == u.startedAt
  }

  /** So does the step of the run that creates session object o. */
  ghost predicate OpenedIn(cfg: Config, s: State, steps: seq<Step>, o: nat, u: Unsigned)
    decreases |steps|
  {
    && steps != [] && Ranged(s) && Enabled(s, steps[0])
    && if |s.objs| <= o < |Apply(cfg, s, steps[0]).objs| then Opens(steps[0], u)
       else OpenedIn(cfg, Apply(cfg, s, steps[0]), steps[1..], o, u)
  }

  ghost predicate SaysOf(u: Unsigned, x: Session) {
    u.sessionId == x.id && u.identity == x.identity && u.proxy == x.proxy && u.startedAt == x.startedAt
  }

  lemma {:induction false} OpeningStays(cfg: Config, s: State, steps: seq<Step>, t: State, o: nat)
    requires Run(cfg, s, steps) == Some(t) && o < |s.objs|
    ensures o < |t.objs| && SameOpening(s.objs[o], t.objs[o])
    decreases |steps|
  {
    if steps != [] {
      ObjectsGrow(cfg, s, steps[0]);
      FirstSeenWins(cfg, s, steps[0], o);
      OpeningStays(cfg, Apply(cfg, s, steps[0]), steps[1..], t, o);
    }
  }

  lemma ObjectsGrow(cfg: Config, s: State, step: Step)
    requires Ranged(s) && Enabled(s, step)
    ensures |s.objs| <= |Apply(cfg, s, step).objs|
  {
    match step
    case Close(id, expired, closedAt, starts) =>
      if id in s.sessions { DrainObjects(cfg, s, s.sessions[id], expired, closedAt, starts); }
    case CloseResumes(o, expired, closedAt, starts) => DrainObjects(cfg, s, o, expired, closedAt, starts);
    case KeysRejected(c) => CallSame(cfg, s, step, 0);
    case UpstreamSettled(_, _, _) => CallSame(cfg, s, step, 0);
    case SinkSettled(_) => CallSame(cfg, s, step, 0);
    case _ =>
  }

  lemma {:induction false} RunOpens(cfg: Config, s: State, steps: seq<Step>, t: State, o: nat, u: Unsigned)
    requires Run(cfg, s, steps) == Some(t) && |s.objs| <= o < |t.objs| && SaysOf(u, t.objs[o])
    ensures OpenedIn(cfg, s, steps, o, u)
    decreases |steps|
  {
    var r := Apply(cfg, s, steps[0]);
    if o < |r.objs| {
      FirstSeenWins(cfg, s, steps[0], o);
      OpeningStays(cfg, r, steps[1..], t, o);
    } else {
      RunOpens(cfg, r, steps[1..], t, o, u);
    }
  }

  ghost predicate ClosesAt(step: Step, closedAt: string) {
    (step.Close? || step.CloseResumes?) && step.closedAt == closedAt
  }

  lemma DrainSealsAt(cfg: Config, s: State, o: nat, expired: bool, closedAt: string, starts: bool)
    requires Ranged(s) && o < |s.objs|
    ensures var t := Drain(cfg, s, o, expired, closedAt, starts);
            |t.pends| > |s.pends| ==> |t.pends| == |s.pends| + 1 && t.pends[|s.pends|].unsigned.closedAt == closedAt
  {
  }

  lemma NewClosesAt(cfg: Config, s: State, step: Step, p: nat)
    requires Ranged(s) && Enabled(s, step) && |s.pends| <= p < |Apply(cfg, s, step).pends|
    ensures ClosesAt(step, Apply(cfg, s, step).pends[p].unsigned.closedAt)
  {
    NewIsStarted(cfg, s, step);
    if step.CloseResumes? {
      DrainSealsAt(cfg, s, step.o, step.expired, step.closedAt, step.starts);
    } else if step.id in s.sessions {
      DrainSealsAt(cfg, s, s.sessions[step.id], step.expired, step.closedAt, step.starts);
    }
  }

  lemma {:induction false} RunUnsigned(cfg: Config, s: State, steps: seq<Step>, t: State, p: nat)
    requires Run(cfg, s, steps) == Some(t) && p < |s.pends|
    ensures p < |t.pends| && t.pends[p].unsigned == s.pends[p].unsigned
    decreases |steps|
  {
    if steps != [] {
      StepUnsigned(cfg, s, steps[0], p);
      RunUnsigned(cfg, Apply(cfg, s, steps[0]), steps[1..], t, p);
    }
  }

  lemma {:induction false} RunCloses(cfg: Config, s: State, steps: seq<Step>, t: State, p: nat) returns (i: nat)
    requires Run(cfg, s, steps) == Some(t) && |s.pends| <= p < |t.pends|
    ensures i < |steps| && ClosesAt(steps[i], t.pends[p].unsigned.closedAt)
    decreases |steps|
  {
    var u := Apply(cfg, s, steps[0]);
    if p < |u.pends| {
      NewClosesAt(cfg, s, steps[0], p);
      RunUnsigned(cfg, u, steps[1..], t, p);
      i := 0;
    } else {
      var j := RunCloses(cfg, u, steps[1..], t, p);
      i := j + 1;
    }
  }

  /** Count, root and proofs of a list of events, by the tree hash of their chain hashes. */
  ghost predicate SealsEvents(h: Hash, u: Unsigned, events: seq<AuditEvent>) {
    && u.eventCount == |events| == |u.merkleProofs| && u.merkleRoot == TreeRoot(h, Hashes(events))
    && forall i | 0 <= i < |events| :: u.merkleProofs[i] == TreeProof(h, Hashes(events), i)
  }

  lemma SealedSeals(cfg: Config, s: State, p: nat)
    requires Inv(cfg, s) && p < |s.pends|
    ensures s.pends[p].source < |s.objs| && SaysOf(s.pends[p].unsigned, s.objs[s.pends[p].source])
    ensures SealsEvents(cfg.h, s.pends[p].unsigned, s.pends[p].snapshot) && s.pends[p].unsigned.signedBy == cfg.keyId
  {
    var y := s.pends[p];
    assert SnapshotOk(s, p) && UnsignedOk(cfg, s, p);
    RootIsTree(cfg.h, Hashes(y.snapshot));
    forall i | 0 <= i < |y.snapshot| ensures y.unsigned.merkleProofs[i] == TreeProof(cfg.h, Hashes(y.snapshot), i) {
      ProofIsTree(cfg.h, Hashes(y.snapshot), i);
    }
  }

  /**
   What every manifest handed to the sink says, told from the run: session id, identity, proxy and start of
   the call that opened its session, the time given to the close that sealed it, and count, root and proofs
   of the events sealed.
   */
  lemma ManifestsSayWhatHappened(cfg: Config, mac: Mac, secret: string, steps: seq<Step>, s: State, p: nat, i: nat)
    returns (k: nat)
    requires Reached(cfg, mac, secret, steps, s) && p < |s.pends| && i < |s.pends[p].deliveries|
    ensures var u := s.pends[p].deliveries[i].unsigned;
            && OpenedIn(cfg, INIT, steps, s.pends[p].source, u) && k < |steps| && ClosesAt(steps[k], u.closedAt)
            && SealsEvents(cfg.h, u, s.pends[p].snapshot) && u.signedBy == cfg.keyId
  {
    ReachedInv(cfg, mac, secret, steps, s);
    assert SignedOk(cfg, s.pends[p]);
    SealedSeals(cfg, s, p);
    RunOpens(cfg, INIT, steps, s, s.pends[p].source, s.pends[p].unsigned);
    k := RunCloses(cfg, INIT, steps, s, p);
  }

  // ---- When a session is sealed ----

  ghost predicate SealedNow(s: State, t: State, o: nat)
    requires o < |s.objs|
  {
    && |t.pends| == |s.pends| + 1 && t.pends[|s.pends|].source == o && t.pends[|s.pends|].snapshot == s.objs[o].events
    && s.objs[o].id in t.sealed && t.sealed[s.objs[o].id] == |s.pends| && s.objs[o].id !in t.sessions
  }

  lemma DrainSeals(cfg: Config, s: State, o: nat, expired: bool, closedAt: string, starts: bool)
    requires Ranged(s) && o < |s.objs|
    ensures var t := Drain(cfg, s, o, expired, closedAt, starts);
            if (expired || s.objs[o].inflight == {}) && s.objs[o].events != [] then SealedNow(s, t, o)
            else t.pends == s.pends
  {
  }

  /**
   A session is sealed by exactly the closes, and the turns of a drain loop, that find no call in flight or
   the deadline passed; what is sealed is its whole record, under its id, and none if it recorded nothing.
   */
  lemma SealedExactlyWhen(cfg: Config, s: State, step: Step)
    requires Ranged(s) && Enabled(s, step)
    ensures var t := Apply(cfg, s, step);
            if step.Close? && step.id in s.sessions && s.objs[s.sessions[step.id]].closing.NotClosing?
               && (step.expired || s.objs[s.sessions[step.id]].inflight == {})
               && s.objs[s.sessions[step.id]].events != []
            then SealedNow(s, t, s.sessions[step.id])
            else if step.CloseResumes? && (step.expired || s.objs[step.o].inflight == {}) && s.objs[step.o].events != []
            then SealedNow(s, t, step.o)
            else |t.pends| == |s.pends|
  {
    match step
    case Close(id, expired, closedAt, starts) =>
      if id in s.sessions { DrainSeals(cfg, s, s.sessions[id], expired, closedAt, starts); }
      else if id in s.sealed { FinalizeUnsigned(cfg, s, s.sealed[id], starts, s.sealed[id]); }
    case CloseResumes(o, expired, closedAt, starts) => DrainSeals(cfg, s, o, expired, closedAt, starts);
    case SignerAnswers(_, _, _) => AnswerPends(cfg, s, step);
    case DeliveryAnswers(_, _) => AnswerPends(cfg, s, step);
    case _ => QuietStep(cfg, s, step);
  }
}
