/** Runs that show why the delivery promises need their hypotheses. */
module AuditScenarios {
  import opened Text
  import opened Json
  import opened Digests
  import opened Chain
  import opened Verifier
  import opened Manifest
  import opened Replay
  import opened AuditProtocol
  import opened AuditInvariant
  import opened AuditTheorems
  import opened AuditDelivery

  const DRAFT: AuditEvent :=
    AuditEvent(Null, Null, Null, Null, Null, Null, Null, Null, Null, Null, Null, Null, Null, Null, Null, Null, Null,
               Null, "", Null)

  /** One call of session "a", from admission to its persisted event. */
  ghost function Visit(c: nat): seq<Step> {
    [AdmitCall(Some("a"), Null, Some(Null), "r", "t"), UpstreamSettled(c, DRAFT, false), SinkSettled(c)]
  }

  ghost function VisitEvent(position: nat): AuditEvent {
    DRAFT.(id := Str("r"), sessionId := Str("a"), position := Num(IntNumeral(position)))
  }

  /** What the scenarios need of a deployment: it can hash and sign plain data. */
  ghost predicate Works(cfg: Config) {
    cfg.hash(VisitEvent(0), "").Some? && forall u: Unsigned :: SignsPlain(cfg, u)
  }

  ghost predicate SignsPlain(cfg: Config, u: Unsigned) {
    u.identity == Null && u.proxy == Null ==> cfg.sign(u).Some?
  }

  lemma VisitPrintable()
    ensures EventPrintable(VisitEvent(0)) && EventWellFormed(DRAFT)
  {
    assert forall i | 0 <= i < FIELDS :: FieldPrintable(VisitEvent(0), i);
    assert forall i | 0 <= i < FIELDS :: FieldWellFormed(DRAFT, i);
  }

  lemma PrintableIsHashed(mac: Mac, secret: string, e: AuditEvent, prev: string)
    requires EventPrintable(e)
    ensures ChainHasher(mac, secret)(e, prev).Some?
  {
    HashedIffPrintable(mac, ChainKey(mac, secret), e, prev);
  }

  lemma DeploymentWorks(cfg: Config, mac: Mac, secret: string)
    requires Deployed(cfg, mac, secret)
    ensures Works(cfg)
  {
    VisitPrintable();
    PrintableIsHashed(mac, secret, VisitEvent(0), "");
    forall u: Unsigned ensures SignsPlain(cfg, u) {
      SignableIffPayload(u);
      assert cfg.sign(u) == SignatureOf(mac, secret, u);
    }
  }

  /** A session with one persisted event, ready to close, and everything else as in s. */
  ghost predicate Ready(s: State, t: State) {
    && |t.objs| == |s.objs| + 1 && t.sessions == s.sessions["a" := |s.objs|]
    && t.pends == s.pends && t.attempts == s.attempts && t.sealed == s.sealed && |t.calls| == |s.calls| + 1
    && var x := t.objs[|s.objs|];
       && x.id == "a" && x.identity == Null && x.proxy == Null && x.closing.NotClosing? && x.inflight == {}
       && |x.events| == 1
  }

  lemma VisitAdmits(cfg: Config, s: State) returns (t: State)
    requires Inv(cfg, s) && "a" !in s.sessions
    ensures Enabled(s, Visit(|s.calls|)[0]) && t == Apply(cfg, s, Visit(|s.calls|)[0]) && Inv(cfg, t)
    ensures t == s.(calls := s.calls + [Call(Some("a"), Some(|s.objs|), "r", Running, None)],
                    objs := s.objs + [NewSession("a", Null, Null, "t").(inflight := {|s.calls|})],
                    sessions := s.sessions["a" := |s.objs|])
  {
    t := Apply(cfg, s, Visit(|s.calls|)[0]);
    StepKeeps(cfg, s, Visit(|s.calls|)[0]);
    var x := NewSession("a", Null, Null, "t");
    var u := OpenSession(s, "a", Null, Null, "t");
    assert u == s.(objs := s.objs + [x], sessions := s.sessions["a" := |s.objs|]);
    assert t == AddCall(u, Some("a"), Some(|s.objs|), "r");
    assert x.inflight + {|s.calls|} == {|s.calls|};
    assert (s.objs + [x])[|s.objs| := x.(inflight := {|s.calls|})] == s.objs + [x.(inflight := {|s.calls|})];
  }

  lemma VisitAppends(cfg: Config, s: State, c: nat, o: nat) returns (t: State)
    requires Inv(cfg, s) && Works(cfg) && c < |s.calls| && o < |s.objs|
    requires s.calls[c] == Call(Some("a"), Some(o), "r", Running, None)
    requires s.objs[o] == NewSession("a", Null, Null, "t").(inflight := {c})
    ensures Enabled(s, Visit(c)[1]) && t == Apply(cfg, s, Visit(c)[1]) && Inv(cfg, t)
    ensures t.sessions == s.sessions && t.pends == s.pends && t.attempts == s.attempts && t.sealed == s.sealed
    ensures |t.calls| == |s.calls| && t.calls[c].phase == Persisting && t.calls[c].session == Some(o)
    ensures |t.objs| == |s.objs|
    ensures |t.objs[o].events| == 1
    ensures t.objs[o] == s.objs[o].(events := t.objs[o].events, prevChainHash := t.objs[o].prevChainHash,
                                    writers := [c])
  {
    VisitPrintable();
    var step := UpstreamSettled(c, DRAFT, false);
    var e := BuildEvent(cfg, s.calls[c], DRAFT, 0, "");
    assert e.Some?;
    t := Append(s, c, e.value);
    assert t == Finish(cfg, s, c, DRAFT, false) == Apply(cfg, s, step);
    StepKeeps(cfg, s, step);
  }

  lemma VisitSettles(cfg: Config, s: State, c: nat, o: nat) returns (t: State)
    requires Inv(cfg, s) && c < |s.calls| && o < |s.objs| && s.calls[c].phase == Persisting
    requires s.calls[c].session == Some(o)
    requires s.objs[o].inflight == {c} && s.objs[o].closing.NotClosing?
    ensures Enabled(s, Visit(c)[2]) && t == Apply(cfg, s, Visit(c)[2]) && Inv(cfg, t)
    ensures t.sessions == s.sessions && t.pends == s.pends && t.attempts == s.attempts && t.sealed == s.sealed
    ensures |t.calls| == |s.calls| && |t.objs| == |s.objs| && t.objs[o] == s.objs[o].(inflight := {})
  {
    t := Apply(cfg, s, Visit(c)[2]);
    StepKeeps(cfg, s, Visit(c)[2]);
  }

  lemma RunThree(cfg: Config, s: State, a: Step, b: Step, c: Step, s1: State, s2: State, t: State)
    requires Ranged(s) && Enabled(s, a) && Apply(cfg, s, a) == s1
    requires Ranged(s1) && Enabled(s1, b) && Apply(cfg, s1, b) == s2
    requires Ranged(s2) && Enabled(s2, c) && Apply(cfg, s2, c) == t
    ensures Run(cfg, s, [a, b, c]) == Some(t)
  {
    assert [a, b, c][1..] == [b, c] && [b, c][1..] == [c] && [c][1..] == [];
    assert Run(cfg, t, []) == Some(t);
    assert Run(cfg, s2, [c]) == Some(t);
    assert Run(cfg, s1, [b, c]) == Some(t);
  }

  lemma VisitRuns(cfg: Config, s: State) returns (t: State)
    requires Works(cfg) && Inv(cfg, s) && "a" !in s.sessions
    ensures Run(cfg, s, Visit(|s.calls|)) == Some(t) && Inv(cfg, t) && Ready(s, t)
  {
    var c, o, steps := |s.calls|, |s.objs|, Visit(|s.calls|);
    var s1 := VisitAdmits(cfg, s);
    var s2 := VisitAppends(cfg, s1, c, o);
    t := VisitSettles(cfg, s2, c, o);
    RunThree(cfg, s, steps[0], steps[1], steps[2], s1, s2, t);
  }

  lemma {:induction false} RunAppends(cfg: Config, s: State, a: seq<Step>, b: seq<Step>)
    requires Run(cfg, s, a).Some?
    ensures Run(cfg, s, a + b) == Run(cfg, Run(cfg, s, a).value, b)
    decreases |a|
  {
    if a == [] {
      assert a + b == b;
    } else {
      assert (a + b)[1..] == a[1..] + b;
      RunAppends(cfg, Apply(cfg, s, a[0]), a[1..], b);
    }
  }

  lemma RunSteps(cfg: Config, s: State, done: seq<Step>, t: State, step: Step)
    requires Run(cfg, s, done) == Some(t) && Ranged(t) && Enabled(t, step)
    ensures Run(cfg, s, done + [step]) == Some(Apply(cfg, t, step))
  {
    RunAppends(cfg, s, done, [step]);
    assert [step][1..] == [];
    assert Run(cfg, t, [step]) == Some(Apply(cfg, t, step));
  }

  lemma DisplaceFrame(s: State, id: string)
    requires Ranged(s)
    ensures var t := Displace(s, id);
            && t == s.(pends := t.pends) && |t.pends| == |s.pends| && Ranged(t)
            && forall q | 0 <= q < |s.pends| :: t.pends[q] == s.pends[q].(replaced := t.pends[q].replaced)
  {
  }

  lemma LeaveFrame(s: State, o: nat)
    requires Ranged(s) && o < |s.objs|
    ensures var t := Leave(s, o);
            && Ranged(t) && t.sessions == s.sessions - {s.objs[o].id} && t.calls == s.calls
            && t.pends == s.pends && t.attempts == s.attempts && t.sealed == s.sealed
  {
  }

  lemma SealFrame(cfg: Config, s: State, o: nat) returns (t: State)
    requires Ranged(s) && o < |s.objs| && s.objs[o].events != []
    ensures t == SealSession(cfg, s, o, "t") && Ranged(t) && t.attempts == s.attempts && t.calls == s.calls
    ensures t.sealed == s.sealed[s.objs[o].id := |s.pends|] && t.sessions == s.sessions - {s.objs[o].id}
    ensures |t.pends| == |s.pends| + 1 && t.pends[|s.pends|] == NewPending(cfg, s.objs[o], o, "t")
    ensures forall q | 0 <= q < |s.pends| :: t.pends[q] == s.pends[q].(replaced := t.pends[q].replaced)
  {
    LeaveFrame(s, o);
    DisplaceFrame(Leave(s, o), s.objs[o].id);
    t := AddPending(Displace(Leave(s, o), s.objs[o].id), NewPending(cfg, s.objs[o], o, "t"));
  }

  lemma SealReady(cfg: Config, s: State, t: State) returns (v: State)
    requires Works(cfg) && Inv(cfg, t) && Ready(s, t)
    ensures v == SealSession(cfg, t, |s.objs|, "t") && Ranged(v) && v.attempts == s.attempts && v.calls == t.calls
    ensures v.sealed == s.sealed["a" := |s.pends|] && v.sessions == t.sessions - {"a"} && |v.pends| == |s.pends| + 1
    ensures v.pends[|s.pends|] == NewPending(cfg, t.objs[|s.objs|], |s.objs|, "t")
    ensures cfg.sign(v.pends[|s.pends|].unsigned).Some?
    ensures forall q | 0 <= q < |s.pends| :: v.pends[q] == s.pends[q].(replaced := v.pends[q].replaced)
  {
    v := SealFrame(cfg, t, |s.objs|);
    assert SignsPlain(cfg, v.pends[|s.pends|].unsigned);
  }

  /** Closing a session that is ready seals it into a new entry and starts an attempt. */
  lemma CloseReady(cfg: Config, s: State, t: State, starts: bool)
    requires Works(cfg) && Inv(cfg, t) && Ready(s, t)
    ensures var u, p, a := Apply(cfg, t, Close("a", false, "t", starts)), |s.pends|, |s.attempts|;
            && u.sealed == s.sealed["a" := p] && u.sessions == t.sessions - {"a"} && u.calls == t.calls
            && |u.pends| == p + 1
            && u.attempts == s.attempts + [Attempt(p, if starts then Signing else Ended)]
            && cfg.sign(u.pends[p].unsigned).Some?
            && u.pends[p] == NewPending(cfg, t.objs[|s.objs|], |s.objs|, "t").(attempt := Some(a))
            && forall q | 0 <= q < p :: u.pends[q] == s.pends[q].(replaced := u.pends[q].replaced)
  {
    var v := SealReady(cfg, s, t);
    assert Apply(cfg, t, Close("a", false, "t", starts)) == Finalize(cfg, v, |s.pends|, starts);
  }

  /**
   Why failures must come after a suspension: one close whose signer throws at once leaves a sealed
   session that no run whatever will sign or deliver.
   */
  lemma SynchronousFailureStrands(cfg: Config, mac: Mac, secret: string, rest: seq<Step>, s: State)
    requires Deployed(cfg, mac, secret)
    requires Run(cfg, INIT, Visit(0) + [Close("a", false, "t", false)] + rest) == Some(s)
    ensures |s.pends| > 0 && s.pends[0].deliveries == [] && !s.pends[0].delivered && Stuck(s, 0)
  {
    InitHolds(cfg, mac, secret);
    DeploymentWorks(cfg, mac, secret);
    var t := VisitRuns(cfg, INIT);
    var u := CloseRuns(cfg, Visit(0), INIT, t, false);
    RunAppends(cfg, INIT, Visit(0) + [Close("a", false, "t", false)], rest);
    StuckRun(cfg, u, rest, 0);
  }

  /** A call that waits for the sink when the deadline passes. */
  ghost function LateSink(): seq<Step> {
    [Visit(0)[0], Visit(0)[1], Close("a", true, "t", true)]
  }

  lemma LateClose(cfg: Config, s: State) returns (t: State)
    requires Inv(cfg, s) && |s.calls| == 1 == |s.objs| && s.pends == [] && s.sessions == map["a" := 0]
    requires s.calls[0].phase == Persisting && s.objs[0].id == "a" && s.objs[0].closing.NotClosing?
    requires s.objs[0].inflight == {0} && s.objs[0].events != []
    ensures t == Apply(cfg, s, Close("a", true, "t", true)) && |t.objs| == 1 && |t.pends| == 1 && t.calls == s.calls
    ensures t.pends[0].source == 0 && 0 in t.objs[0].stragglers && IsCovered(t, 0, 0)
  {
    t := Drain(cfg, s, 0, true, "t", true);
    StragglerCoveredExactlyWhen(cfg, s, 0, "t", true, 0);
    SealSnapshots(cfg, s, 0, true, "t", true);
  }

  /**
   The misreported straggler: the one call of this run is reported with the words that its event is not in
   the manifest, and the manifest covers it.
   */
  lemma StragglerIsMisreported(cfg: Config, mac: Mac, secret: string) returns (s: State)
    requires Deployed(cfg, mac, secret)
    ensures Reached(cfg, mac, secret, LateSink(), s) && |s.objs| == 1 && |s.pends| == 1 && |s.calls| == 1
    ensures s.pends[0].source == 0 && 0 in s.objs[0].stragglers && IsCovered(s, 0, 0)
  {
    InitHolds(cfg, mac, secret);
    DeploymentWorks(cfg, mac, secret);
    var t := VisitAdmits(cfg, INIT);
    var u := VisitAppends(cfg, t, 0, 0);
    s := LateClose(cfg, u);
    RunThree(cfg, INIT, Visit(0)[0], Visit(0)[1], Close("a", true, "t", true), t, u, s);
  }

  /** A run that leaves a session ready goes on to seal it. */
  lemma CloseRuns(cfg: Config, done: seq<Step>, s: State, t: State, starts: bool) returns (u: State)
    requires Works(cfg) && Run(cfg, INIT, done) == Some(t) && Inv(cfg, t) && Ready(s, t)
    ensures Run(cfg, INIT, done + [Close("a", false, "t", starts)]) == Some(u) && Inv(cfg, u)
    ensures u.sealed == s.sealed["a" := |s.pends|] && u.sessions == t.sessions - {"a"} && u.calls == t.calls
    ensures u.attempts == s.attempts + [Attempt(|s.pends|, if starts then Signing else Ended)]
    ensures |u.pends| == |s.pends| + 1 && cfg.sign(u.pends[|s.pends|].unsigned).Some?
    ensures var y := u.pends[|s.pends|];
            && y.id == "a" && !y.delivered && !y.replaced && y.deliveries == [] && y.attempt == Some(|s.attempts|)
            && y.signature.None? && |y.snapshot| == 1
    ensures forall q | 0 <= q < |s.pends| :: u.pends[q].id == s.pends[q].id
  {
    CloseReady(cfg, s, t, starts);
    RunSteps(cfg, INIT, done, t, Close("a", false, "t", starts));
    StepKeeps(cfg, t, Close("a", false, "t", starts));
    u := Apply(cfg, t, Close("a", false, "t", starts));
  }

  /** The first session under "a" is sealed, signed and handed to the sink, which has not answered. */
  ghost function FirstDelivery(): seq<Step> {
    Visit(0) + [Close("a", false, "t", true)] + [SignerAnswers(0, true, true)]
  }

  lemma FirstDeliveryRuns(cfg: Config) returns (s: State)
    requires Works(cfg) && Inv(cfg, INIT)
    ensures Run(cfg, INIT, FirstDelivery()) == Some(s) && Inv(cfg, s) && OneDelivering(s)
  {
    var t := VisitRuns(cfg, INIT);
    var u := CloseRuns(cfg, Visit(0), INIT, t, true);
    s := SignerRuns(cfg, Visit(0) + [Close("a", false, "t", true)], u);
  }

  lemma SignerRuns(cfg: Config, done: seq<Step>, u: State) returns (s: State)
    requires Inv(cfg, u) && Run(cfg, INIT, done) == Some(u) && u.attempts == [Attempt(0, Signing)] && |u.pends| == 1
    requires cfg.sign(u.pends[0].unsigned).Some?
    ensures Run(cfg, INIT, done + [SignerAnswers(0, true, true)]) == Some(s) && Inv(cfg, s)
    ensures s.sessions == u.sessions && s.calls == u.calls && |s.pends| == 1 && s.pends[0].id == u.pends[0].id
    ensures s.pends[0].snapshot == u.pends[0].snapshot
    ensures s.attempts == [Attempt(0, Delivering)] && s.sealed == u.sealed
  {
    RunSteps(cfg, INIT, done, u, SignerAnswers(0, true, true));
    StepKeeps(cfg, u, SignerAnswers(0, true, true));
    s := Apply(cfg, u, SignerAnswers(0, true, true));
  }

  /** The promises are not empty: this run hands the sink a manifest that all three verifiers accept. */
  lemma HonestRunVerifies(cfg: Config, mac: Mac, secret: string) returns (s: State)
    requires Deployed(cfg, mac, secret)
    ensures Reached(cfg, mac, secret, FirstDelivery(), s) && |s.pends| == 1 && s.pends[0].deliveries != []
    ensures s.pends[0].signings == 1 && ChainValid(ChainHasher(mac, secret), s.pends[0].snapshot)
    ensures SignatureOf(mac, secret, s.pends[0].deliveries[0].unsigned) == Some(s.pends[0].deliveries[0].signature)
    ensures ManifestMatches(cfg.h, s.pends[0].snapshot, s.pends[0].deliveries[0].unsigned)
  {
    InitHolds(cfg, mac, secret);
    DeploymentWorks(cfg, mac, secret);
    s := FirstDeliveryRuns(cfg);
    assert AttemptOk(s, 0) && SignedOk(cfg, s.pends[0]);
    DeliveredManifestsVerify(cfg, mac, secret, FirstDelivery(), s, 0, 0);
  }

  /** Then the id is used again, closed, the first delivery succeeds, and the second signing fails. */
  ghost function Reuse(): seq<Step> {
    FirstDelivery() + Visit(1) + [Close("a", false, "t", true)]
    + [DeliveryAnswers(0, true)] + [SignerAnswers(1, false, false)]
  }

  /** One session under "a", its delivery running. */
  ghost predicate OneDelivering(s: State) {
    && |s.calls| == 1 && "a" !in s.sessions && |s.pends| == 1 && s.pends[0].id == "a" && |s.pends[0].snapshot| == 1
    && s.attempts == [Attempt(0, Delivering)] && s.sealed == map["a" := 0]
  }

  /** A second session under "a" sealed while the first one's delivery runs. */
  ghost predicate Overlapping(s: State) {
    && s.attempts == [Attempt(0, Delivering), Attempt(1, Signing)] && |s.pends| == 2
    && s.sealed == map["a" := 1] && s.pends[0].id == "a" == s.pends[1].id && "a" !in s.sessions
    && !s.pends[1].delivered && !s.pends[1].replaced
  }

  lemma Overlap(s: State, t: State)
    requires OneDelivering(s) && t.sealed == s.sealed["a" := |s.pends|] && "a" !in t.sessions
    requires t.attempts == s.attempts + [Attempt(|s.pends|, Signing)] && |t.pends| == |s.pends| + 1
    requires var y := t.pends[|s.pends|]; y.id == "a" && !y.delivered && !y.replaced
    requires t.pends[0].id == s.pends[0].id
    ensures Overlapping(t)
  {
  }

  lemma SecondSession(cfg: Config, done: seq<Step>, s: State) returns (t: State)
    requires Works(cfg) && Inv(cfg, s) && Run(cfg, INIT, done) == Some(s) && OneDelivering(s)
    ensures Run(cfg, INIT, done + Visit(1) + [Close("a", false, "t", true)]) == Some(t) && Inv(cfg, t) && Overlapping(t)
  {
    var u := VisitAfter(cfg, done, s, 1);
    t := CloseRuns(cfg, done + Visit(1), s, u, true);
    Overlap(s, t);
  }

  lemma VisitAfter(cfg: Config, done: seq<Step>, s: State, c: nat) returns (u: State)
    requires Works(cfg) && Inv(cfg, s) && Run(cfg, INIT, done) == Some(s) && "a" !in s.sessions && c == |s.calls|
    ensures Run(cfg, INIT, done + Visit(c)) == Some(u) && Inv(cfg, u) && Ready(s, u)
  {
    u := VisitRuns(cfg, s);
    RunAppends(cfg, INIT, done, Visit(c));
  }

  lemma EndRuns(cfg: Config, done: seq<Step>, s: State) returns (t: State)
    requires Inv(cfg, s) && Run(cfg, INIT, done) == Some(s)
    requires Overlapping(s)
    ensures Run(cfg, INIT, done + [DeliveryAnswers(0, true)] + [SignerAnswers(1, false, false)]) == Some(t)
    ensures Inv(cfg, t)
    ensures |t.pends| == 2 && Lost(t, 1) && t.pends[1].attempt.None? && "a" !in t.sessions && "a" !in t.sealed
  {
    t := ReuseEnds(cfg, s);
    RunSteps(cfg, INIT, done, s, DeliveryAnswers(0, true));
    RunSteps(cfg, INIT, done + [DeliveryAnswers(0, true)], Apply(cfg, s, DeliveryAnswers(0, true)),
             SignerAnswers(1, false, false));
  }

  lemma NothingToClose(cfg: Config, s: State, id: string)
    requires Ranged(s) && id !in s.sessions && id !in s.sealed
    ensures forall expired, closedAt, starts {:trigger Close(id, expired, closedAt, starts)} ::
              Apply(cfg, s, Close(id, expired, closedAt, starts)) == s
  {
  }

  /**
   Why an id must not be reused under a running delivery: in this run the second session's manifest is
   neither delivered nor displaced, yet its entry is gone, and closing the id again does nothing at all.
   */
  lemma ReuseLosesManifest(cfg: Config, mac: Mac, secret: string) returns (s: State)
    requires Deployed(cfg, mac, secret)
    ensures Reached(cfg, mac, secret, Reuse(), s) && |s.pends| == 2 && Lost(s, 1) && s.pends[1].attempt.None?
    ensures Ranged(s)
    ensures forall expired, closedAt, starts {:trigger Close("a", expired, closedAt, starts)} ::
              Apply(cfg, s, Close("a", expired, closedAt, starts)) == s
  {
    InitHolds(cfg, mac, secret);
    DeploymentWorks(cfg, mac, secret);
    var s1 := FirstDeliveryRuns(cfg);
    var s2 := SecondSession(cfg, FirstDelivery(), s1);
    s := EndRuns(cfg, FirstDelivery() + Visit(1) + [Close("a", false, "t", true)], s2);
    NothingToClose(cfg, s, "a");
  }

  lemma ReuseEnds(cfg: Config, s: State) returns (t: State)
    requires Inv(cfg, s) && Overlapping(s)
    ensures Enabled(s, DeliveryAnswers(0, true)) && Inv(cfg, Apply(cfg, s, DeliveryAnswers(0, true)))
    ensures Enabled(Apply(cfg, s, DeliveryAnswers(0, true)), SignerAnswers(1, false, false))
    ensures t == Apply(cfg, Apply(cfg, s, DeliveryAnswers(0, true)), SignerAnswers(1, false, false)) && Inv(cfg, t)
    ensures |t.pends| == 2 && Lost(t, 1) && t.pends[1].attempt.None? && "a" !in t.sessions && "a" !in t.sealed
  {
    StepKeeps(cfg, s, DeliveryAnswers(0, true));
    var u := Apply(cfg, s, DeliveryAnswers(0, true));
    assert u.attempts[1] == Attempt(1, Signing);
    StepKeeps(cfg, u, SignerAnswers(1, false, false));
    t := Apply(cfg, u, SignerAnswers(1, false, false));
  }
}
