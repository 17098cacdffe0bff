/** What a verified trail says about the run that signed it. */
module AuditBinding {
  import opened Text
  import opened Json
  import opened Digests
  import opened Chain
  import opened Verifier
  import opened Manifest
  import opened Replay
  import opened AuditProtocol
  import opened AuditInvariant
  import opened AuditTheorems

  // ---- Everything recorded is a well-formed JSON value ----

  ghost predicate Shaped(x: Session) {
    WellFormed(x.identity) && WellFormed(x.proxy) && WellFormedEvents(x.events)
  }

  ghost predicate AllShaped(s: State) {
    forall o | 0 <= o < |s.objs| :: Shaped(s.objs[o])
  }

  ghost predicate SameShape(x: Session, y: Session) {
    y.identity == x.identity && y.proxy == x.proxy && y.events == x.events
  }

  ghost predicate SameShapes(s: State, t: State) {
    |t.objs| == |s.objs| && forall o | 0 <= o < |s.objs| :: SameShape(s.objs[o], t.objs[o])
  }

  lemma ShapesStay(s: State, t: State)
    requires AllShaped(s) && SameShapes(s, t)
    ensures AllShaped(t)
  {
    forall o | 0 <= o < |t.objs| ensures Shaped(t.objs[o]) {
      assert Shaped(s.objs[o]) && SameShape(s.objs[o], t.objs[o]);
    }
  }

  lemma BuiltIsShaped(cfg: Config, call: Call, draft: AuditEvent, position: nat, prev: string)
    requires EventWellFormed(draft) && BuildEvent(cfg, call, draft, position, prev).Some?
    ensures EventWellFormed(BuildEvent(cfg, call, draft, position, prev).value)
  {
    var e := BuildEvent(cfg, call, draft, position, prev).value;
    forall i | 0 <= i < FIELDS ensures FieldWellFormed(e, i) {
      assert FieldWellFormed(draft, i);
      assert i != 0 && i != 3 && i != 17 ==> Covered(e)[i] == Covered(draft)[i];
    }
  }

  lemma AppendShaped(s: State, c: nat, e: AuditEvent)
    requires Ranged(s) && c < |s.calls| && AllShaped(s) && EventWellFormed(e)
    ensures AllShaped(Append(s, c, e))
  {
    var t := Append(s, c, e);
    forall o | 0 <= o < |t.objs| ensures Shaped(t.objs[o]) {
      assert Shaped(s.objs[o]);
    }
  }

  lemma FinishShaped(cfg: Config, s: State, c: nat, draft: AuditEvent, rejected: bool)
    requires Ranged(s) && c < |s.calls| && AllShaped(s) && EventWellFormed(draft)
    ensures AllShaped(Finish(cfg, s, c, draft, rejected))
  {
    var e := BuildEvent(cfg, s.calls[c], draft, NextPosition(s, c), PrevHash(s, c));
    if (rejected && !cfg.includeRejections) || e.None? {
      ShapesStay(s, Finish(cfg, s, c, draft, rejected));
    } else {
      BuiltIsShaped(cfg, s.calls[c], draft, NextPosition(s, c), PrevHash(s, c));
      AppendShaped(s, c, e.value);
    }
  }

  lemma AdmitShaped(s: State, sessionId: Option<string>, identity: Value, proxy: Option<Value>, requestId: string,
      now: string)
    requires Ranged(s) && AllShaped(s) && WellFormed(identity) && (proxy.Some? ==> WellFormed(proxy.value))
    ensures AllShaped(Admit(s, sessionId, identity, proxy, requestId, now))
  {
    if proxy.Some? && sessionId.Some? && sessionId.value != "" {
      var t := OpenSession(s, sessionId.value, identity, proxy.value, now);
      OpenShaped(s, sessionId.value, identity, proxy.value, now);
      AddShaped(t, sessionId, Some(t.sessions[sessionId.value]), requestId);
    } else if proxy.Some? {
      AddShaped(s, sessionId, None, requestId);
    }
  }

  lemma OpenShaped(s: State, id: string, identity: Value, proxy: Value, now: string)
    requires Ranged(s) && AllShaped(s) && WellFormed(identity) && WellFormed(proxy)
    ensures var t := OpenSession(s, id, identity, proxy, now);
            AllShaped(t) && id in t.sessions && t.sessions[id] < |t.objs|
  {
  }

  lemma AddShaped(s: State, sessionId: Option<string>, session: Option<nat>, requestId: string)
    requires AllShaped(s) && (session.Some? ==> session.value < |s.objs|)
    ensures AllShaped(AddCall(s, sessionId, session, requestId))
  {
    ShapesStay(s, AddCall(s, sessionId, session, requestId));
  }

  lemma DrainShaped(cfg: Config, s: State, o: nat, expired: bool, closedAt: string, starts: bool)
    requires Ranged(s) && o < |s.objs|
    ensures SameShapes(s, Drain(cfg, s, o, expired, closedAt, starts))
  {
    DrainObjects(cfg, s, o, expired, closedAt, starts);
  }

  lemma CloseShaped(cfg: Config, s: State, id: string, expired: bool, closedAt: string, starts: bool)
    requires Ranged(s)
    ensures SameShapes(s, CloseSession(cfg, s, id, expired, closedAt, starts))
  {
    if id in s.sessions { DrainShaped(cfg, s, s.sessions[id], expired, closedAt, starts); }
  }

  lemma OtherShaped(cfg: Config, s: State, step: Step)
    requires Ranged(s) && Enabled(s, step)
    requires !step.AdmitCall? && !step.UpstreamSettled? && !step.Close? && !step.CloseResumes?
    ensures SameShapes(s, Apply(cfg, s, step))
  {
  }

  lemma StepShaped(cfg: Config, s: State, step: Step)
    requires Ranged(s) && Enabled(s, step) && AllShaped(s)
    ensures AllShaped(Apply(cfg, s, step))
  {
    match step
    case AdmitCall(sessionId, identity, proxy, requestId, now) =>
      AdmitShaped(s, sessionId, identity, proxy, requestId, now);
    case UpstreamSettled(c, draft, rejected) => FinishShaped(cfg, s, c, draft, rejected);
    case Close(id, expired, closedAt, starts) =>
      CloseShaped(cfg, s, id, expired, closedAt, starts);
      ShapesStay(s, Apply(cfg, s, step));
    case CloseResumes(o, expired, closedAt, starts) =>
      DrainShaped(cfg, s, o, expired, closedAt, starts);
      ShapesStay(s, Apply(cfg, s, step));
    case _ =>
      OtherShaped(cfg, s, step);
      ShapesStay(s, Apply(cfg, s, step));
  }

  lemma {:induction false} RunShaped(cfg: Config, s: State, steps: seq<Step>)
    requires AllShaped(s) && Run(cfg, s, steps).Some?
    ensures AllShaped(Run(cfg, s, steps).value)
    decreases |steps|
  {
    if steps != [] {
      StepShaped(cfg, s, steps[0]);
      RunShaped(cfg, Apply(cfg, s, steps[0]), steps[1..]);
    }
  }

  // ---- End to end ----

  lemma SnapshotShaped(cfg: Config, s: State, p: nat)
    requires Inv(cfg, s) && AllShaped(s) && p < |s.pends|
    ensures WellFormedEvents(s.pends[p].snapshot) && ManifestWellFormed(s.pends[p].unsigned)
    ensures CountsAndRoots(cfg.h, s.pends[p].snapshot, s.pends[p].unsigned)
  {
    var y := s.pends[p];
    assert SnapshotOk(s, p) && UnsignedOk(cfg, s, p);
    var x := s.objs[y.source];
    assert Shaped(x);
    forall i | 0 <= i < |y.snapshot| ensures EventWellFormed(y.snapshot[i]) {
      assert y.snapshot[i] == x.events[i];
    }
  }

  /**
   End to end over runs. Take any run of the deployment and any manifest it signed. A list of events that
   passes the manifest check against a manifest with that payload, and the keyed chain check, is the list
   the session had recorded when it was sealed: the same length and the same covered fields throughout,
   unless a hash or an HMAC collided.
   */
  lemma SignedRunBindsEvents(cfg: Config, mac: Mac, secret: string, steps: seq<Step>, s: State, p: nat,
                             events: seq<AuditEvent>, manifest: ReplayManifest)
    requires Reached(cfg, mac, secret, steps, s) && p < |s.pends| && s.pends[p].signings > 0
    requires ManifestSigningPayload(manifest.unsigned) == ManifestSigningPayload(s.pends[p].unsigned)
    requires ManifestMatches(cfg.h, events, manifest.unsigned) && ChainValid(ChainHasher(mac, secret), events)
    requires WellFormedEvents(events) && ManifestWellFormed(manifest.unsigned)
    ensures SameEvents(events, s.pends[p].snapshot) || Broken(cfg.h, mac, secret, events, s.pends[p].snapshot)
    ensures SameManifest(manifest.unsigned, s.pends[p].unsigned)
  {
    ReachedInv(cfg, mac, secret, steps, s);
    RunShaped(cfg, INIT, steps);
    SnapshotShaped(cfg, s, p);
    SnapshotIsChain(cfg, s, p);
    SignedHasPayload(cfg, mac, secret, s, p);
    EndToEndBinding(cfg.h, mac, secret, s.pends[p].snapshot, s.pends[p].unsigned, events, manifest);
  }

  lemma SignedHasPayload(cfg: Config, mac: Mac, secret: string, s: State, p: nat)
    requires Inv(cfg, s) && Deployed(cfg, mac, secret) && p < |s.pends| && s.pends[p].signings > 0
    ensures ManifestSigningPayload(s.pends[p].unsigned).Some?
  {
    assert SignedOk(cfg, s.pends[p]);
    assert cfg.sign(s.pends[p].unsigned) == SignatureOf(mac, secret, s.pends[p].unsigned);
  }
}
