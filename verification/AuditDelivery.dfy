/** Delivery of a sealed session: when a retry works, and when its entry is released. */
module AuditDelivery {
  import opened Text
  import opened Json
  import opened Digests
  import opened Chain
  import opened Manifest
  import opened AuditProtocol
  import opened AuditInvariant
  import opened AuditTheorems

  /** Steps that are no concern of sealed sessions. */
  ghost predicate Quiet(step: Step) {
    step.AdmitCall? || step.KeysRejected? || step.UpstreamSettled? || step.SinkSettled? || step.TimerFires?
  }

  /** Nothing about sealed sessions and attempts changes. */
  ghost predicate SameSealed(s: State, t: State) {
    t.pends == s.pends && t.attempts == s.attempts && t.sealed == s.sealed
  }

  lemma AdmitQuiet(s: State, sessionId: Option<string>, identity: Value, proxy: Option<Value>, requestId: string,
                   now: string)
    requires Ranged(s)
    ensures SameSealed(s, Admit(s, sessionId, identity, proxy, requestId, now))
  {
  }

  lemma SettleQuiet(s: State, c: nat, fate: Fate)
    requires Ranged(s) && c < |s.calls|
    ensures SameSealed(s, Settle(s, c, fate))
  {
  }

  lemma FinishQuiet(cfg: Config, s: State, c: nat, draft: AuditEvent, rejected: bool)
    requires Ranged(s) && c < |s.calls|
    ensures SameSealed(s, Finish(cfg, s, c, draft, rejected))
  {
    SettleQuiet(s, c, Skipped);
    SettleQuiet(s, c, BuildFailed);
  }

  lemma QuietStep(cfg: Config, s: State, step: Step)
    requires Ranged(s) && Enabled(s, step) && Quiet(step)
    ensures SameSealed(s, Apply(cfg, s, step))
  {
    match step
    case AdmitCall(sessionId, identity, proxy, requestId, now) =>
      AdmitQuiet(s, sessionId, identity, proxy, requestId, now);
    case KeysRejected(c) => SettleQuiet(s, c, KeyFailed);
    case UpstreamSettled(c, draft, rejected) => FinishQuiet(cfg, s, c, draft, rejected);
    case SinkSettled(c) => SettleQuiet(s, c, Recorded);
    case TimerFires(o) =>
  }

  // ---- Attempts that end before they are stored ----

  /** The stored attempt has ended: every later close gets its rejection and starts nothing. */
  ghost predicate Stuck(s: State, p: nat)
    requires p < |s.pends|
  {
    var a := s.pends[p].attempt;
    a.Some? && a.value < |s.attempts| && s.attempts[a.value].phase.Ended?
  }

  /** What a stuck session keeps for good. */
  ghost predicate SameArtifact(y: Pending, z: Pending) {
    z.unsigned == y.unsigned && z.signature == y.signature && z.deliveries == y.deliveries && z.delivered == y.delivered
  }

  ghost predicate StuckStays(s: State, t: State, p: nat)
    requires p < |s.pends|
  {
    p < |t.pends| && Stuck(t, p) && SameArtifact(s.pends[p], t.pends[p])
  }

  lemma FinalizeStuck(cfg: Config, s: State, q: nat, starts: bool, p: nat)
    requires Ranged(s) && q < |s.pends| && p < |s.pends| && Stuck(s, p)
    ensures StuckStays(s, Finalize(cfg, s, q, starts), p)
  {
  }

  lemma SealStuck(cfg: Config, s: State, o: nat, closedAt: string, p: nat)
    requires Ranged(s) && o < |s.objs| && p < |s.pends| && Stuck(s, p)
    ensures StuckStays(s, SealSession(cfg, s, o, closedAt), p)
  {
  }

  lemma DrainStuck(cfg: Config, s: State, o: nat, expired: bool, closedAt: string, starts: bool, p: nat)
    requires Ranged(s) && o < |s.objs| && p < |s.pends| && Stuck(s, p)
    ensures StuckStays(s, Drain(cfg, s, o, expired, closedAt, starts), p)
  {
    SealStuck(cfg, s, o, closedAt, p);
    var t := SealSession(cfg, s, o, closedAt);
    if s.objs[o].events != [] { FinalizeStuck(cfg, t, |s.pends|, starts, p); }
  }

  lemma AnswerStuck(cfg: Config, s: State, step: Step, p: nat)
    requires Inv(cfg, s) && Enabled(s, step) && (step.SignerAnswers? || step.DeliveryAnswers?)
    requires p < |s.pends| && Stuck(s, p)
    ensures StuckStays(s, Apply(cfg, s, step), p)
  {
    assert AttemptOk(s, step.a);
  }

  lemma CloseStuck(cfg: Config, s: State, id: string, expired: bool, closedAt: string, starts: bool, p: nat)
    requires Ranged(s) && p < |s.pends| && Stuck(s, p)
    ensures StuckStays(s, CloseSession(cfg, s, id, expired, closedAt, starts), p)
  {
    if id in s.sessions {
      DrainStuck(cfg, s, s.sessions[id], expired, closedAt, starts, p);
    } else if id in s.sealed {
      FinalizeStuck(cfg, s, s.sealed[id], starts, p);
    }
  }

  /** Once stuck, a sealed session stays stuck: it is never signed, delivered or handed over again. */
  lemma StuckForever(cfg: Config, s: State, step: Step, p: nat)
    requires Inv(cfg, s) && Enabled(s, step) && p < |s.pends| && Stuck(s, p)
    ensures StuckStays(s, Apply(cfg, s, step), p)
  {
    match step
    case Close(id, expired, closedAt, starts) => CloseStuck(cfg, s, id, expired, closedAt, starts, p);
    case CloseResumes(o, expired, closedAt, starts) => DrainStuck(cfg, s, o, expired, closedAt, starts, p);
    case SignerAnswers(_, _, _) => AnswerStuck(cfg, s, step, p);
    case DeliveryAnswers(_, _) => AnswerStuck(cfg, s, step, p);
    case _ => QuietStep(cfg, s, step);
  }

  lemma {:induction false} StuckRun(cfg: Config, s: State, steps: seq<Step>, p: nat)
    requires Inv(cfg, s) && p < |s.pends| && Stuck(s, p) && Run(cfg, s, steps).Some?
    ensures StuckStays(s, Run(cfg, s, steps).value, p)
    decreases |steps|
  {
    if steps != [] {
      StuckForever(cfg, s, steps[0], p);
      StepKeeps(cfg, s, steps[0]);
      StuckRun(cfg, Apply(cfg, s, steps[0]), steps[1..], p);
    }
  }

  /** The sealed session a step starts an attempt for, if it starts one. */
  ghost function Starts(s: State, step: Step): Option<nat>
    requires Ranged(s) && Enabled(s, step)
  {
    var sealing := SealsNow(s, step);
    if sealing.Some? && sealing.value < |s.objs| then
      if s.objs[sealing.value].events == [] then None else Some(|s.pends|)
    else if step.Close? && step.id !in s.sessions && step.id in s.sealed
            && s.pends[s.sealed[step.id]].attempt.None? then
      Some(s.sealed[step.id])
    else None
  }

  /** The attempt throws before it suspends: signer or sink throw at once, or the payload has no canonical text. */
  ghost predicate ThrowsAtOnce(cfg: Config, step: Step, y: Pending)
    requires step.Close? || step.CloseResumes?
  {
    !step.starts || (y.signature.None? && cfg.sign(y.unsigned).None?)
  }

  lemma FinalizeSticks(cfg: Config, s: State, q: nat, starts: bool, p: nat)
    requires Inv(cfg, s) && q < |s.pends| && p < |s.pends| && !Stuck(s, p)
    ensures var t := Finalize(cfg, s, q, starts);
            p < |t.pends| && t.pends[p].unsigned == s.pends[p].unsigned && t.pends[p].signature == s.pends[p].signature
            && (Stuck(t, p) <==> p == q && s.pends[p].attempt.None?
                                 && (!starts || (s.pends[p].signature.None? && cfg.sign(s.pends[p].unsigned).None?)))
  {
    assert StoredOk(s, p);
  }

  lemma SealNotStuck(cfg: Config, s: State, o: nat, closedAt: string, p: nat)
    requires Inv(cfg, s) && o < |s.objs| && s.objs[o].events != [] && p <= |s.pends| && (p < |s.pends| ==> !Stuck(s, p))
    ensures var t := SealSession(cfg, s, o, closedAt);
            |t.pends| == |s.pends| + 1 && !Stuck(t, p)
            && (t.pends[p].attempt.None? <==> p == |s.pends| || s.pends[p].attempt.None?)
            && (p == |s.pends| ==> t.pends[p].signature.None?)
  {
  }

  lemma AnswerSticks(cfg: Config, s: State, step: Step, p: nat)
    requires Inv(cfg, s) && Enabled(s, step) && (step.SignerAnswers? || step.DeliveryAnswers?)
    requires p < |s.pends| && !Stuck(s, p)
    ensures |Apply(cfg, s, step).pends| == |s.pends| && !Stuck(Apply(cfg, s, step), p) && Starts(s, step).None?
  {
    assert AttemptOk(s, step.a) && StoredOk(s, p);
  }

  /** The sealed session p is stuck in t exactly if it was started, and threw at once. */
  ghost predicate SticksIf(cfg: Config, t: State, step: Step, started: Option<nat>, p: nat)
    requires step.Close? || step.CloseResumes?
  {
    p < |t.pends| ==> (Stuck(t, p) <==> started == Some(p) && ThrowsAtOnce(cfg, step, t.pends[p]))
  }

  lemma DrainAdds(cfg: Config, s: State, o: nat, expired: bool, closedAt: string, starts: bool)
    requires Ranged(s) && o < |s.objs|
    ensures var t := Drain(cfg, s, o, expired, closedAt, starts);
            if (expired || s.objs[o].inflight == {}) && s.objs[o].events != [] then
              |t.pends| == |s.pends| + 1 && t.pends[|s.pends|].signature.None?
            else t.pends == s.pends
  {
  }

  lemma SealedSticks(cfg: Config, s: State, step: Step, o: nat, p: nat)
    requires Inv(cfg, s) && (step.Close? || step.CloseResumes?) && (p < |s.pends| ==> !Stuck(s, p)) && p <= |s.pends|
    requires o < |s.objs| && !s.objs[o].closing.Closed? && s.objs[o].events != []
    ensures |SealSession(cfg, s, o, step.closedAt).pends| == |s.pends| + 1
    ensures SticksIf(cfg, Finalize(cfg, SealSession(cfg, s, o, step.closedAt), |s.pends|, step.starts), step,
                     Some(|s.pends|), p)
  {
    SealKeeps(cfg, s, o, step.closedAt);
    SealNotStuck(cfg, s, o, step.closedAt, p);
    FinalizeSticks(cfg, SealSession(cfg, s, o, step.closedAt), |s.pends|, step.starts, p);
  }

  lemma UnsealedSticks(cfg: Config, s: State, step: Step, o: nat, p: nat)
    requires Ranged(s) && (step.Close? || step.CloseResumes?) && o < |s.objs| && (p < |s.pends| ==> !Stuck(s, p))
    requires (s.objs[o].inflight != {} && !step.expired) || s.objs[o].events == []
    ensures SticksIf(cfg, Drain(cfg, s, o, step.expired, step.closedAt, step.starts), step, None, p)
  {
  }

  lemma DrainSticks(cfg: Config, s: State, step: Step, o: nat, p: nat)
    requires Inv(cfg, s) && (step.Close? || step.CloseResumes?) && (p < |s.pends| ==> !Stuck(s, p))
    requires o < |s.objs| && !s.objs[o].closing.Closed?
    ensures var waits := s.objs[o].inflight != {} && !step.expired;
            var started := if waits || s.objs[o].events == [] then None else Some(|s.pends|);
            SticksIf(cfg, Drain(cfg, s, o, step.expired, step.closedAt, step.starts), step, started, p)
  {
    if (s.objs[o].inflight != {} && !step.expired) || s.objs[o].events == [] {
      UnsealedSticks(cfg, s, step, o, p);
    } else {
      if p <= |s.pends| { SealedSticks(cfg, s, step, o, p); }
      DrainAdds(cfg, s, o, step.expired, step.closedAt, step.starts);
    }
  }

  /** What the close of an open session, or the next turn of its drain loop, starts. */
  lemma OpenStarts(cfg: Config, s: State, step: Step, o: nat)
    requires Ranged(s) && Enabled(s, step) && o < |s.objs|
    requires (step.Close? && step.id in s.sessions && o == s.sessions[step.id]) || (step.CloseResumes? && o == step.o)
    ensures var waits := s.objs[o].inflight != {} && !step.expired;
            var joins := step.Close? && !s.objs[o].closing.NotClosing?;
            && Starts(s, step) == (if joins || waits || s.objs[o].events == [] then None else Some(|s.pends|))
            && Apply(cfg, s, step) == if joins then s else Drain(cfg, s, o, step.expired, step.closedAt, step.starts)
  {
  }

  lemma OpenSticks(cfg: Config, s: State, step: Step, o: nat, p: nat)
    requires Inv(cfg, s) && Enabled(s, step) && o < |s.objs| && !s.objs[o].closing.Closed?
    requires (step.Close? && step.id in s.sessions && o == s.sessions[step.id]) || (step.CloseResumes? && o == step.o)
    requires p < |s.pends| ==> !Stuck(s, p)
    ensures SticksIf(cfg, Apply(cfg, s, step), step, Starts(s, step), p)
  {
    OpenStarts(cfg, s, step, o);
    DrainSticks(cfg, s, step, o, p);
  }

  lemma CloseSticks(cfg: Config, s: State, step: Step, p: nat)
    requires Inv(cfg, s) && Enabled(s, step) && step.Close? && (p < |s.pends| ==> !Stuck(s, p))
    ensures SticksIf(cfg, Apply(cfg, s, step), step, Starts(s, step), p)
  {
    if step.id in s.sessions {
      assert EntryOk(s, step.id);
      OpenSticks(cfg, s, step, s.sessions[step.id], p);
    } else if step.id in s.sealed && p < |s.pends| {
      FinalizeSticks(cfg, s, s.sealed[step.id], step.starts, p);
    }
  }

  /**
   A step makes a sealed session stuck exactly when it starts an attempt for it whose first segment
   throws. A failure after the first suspension never does.
   */
  lemma StuckExactlyWhen(cfg: Config, s: State, step: Step, p: nat)
    requires Inv(cfg, s) && Enabled(s, step) && p < |Apply(cfg, s, step).pends| && (p < |s.pends| ==> !Stuck(s, p))
    ensures Stuck(Apply(cfg, s, step), p)
       <==> Starts(s, step) == Some(p) && (step.Close? || step.CloseResumes?)
            && ThrowsAtOnce(cfg, step, Apply(cfg, s, step).pends[p])
  {
    if step.Close? {
      CloseSticks(cfg, s, step, p);
    } else if step.CloseResumes? {
      OpenSticks(cfg, s, step, step.o, p);
    } else if step.SignerAnswers? || step.DeliveryAnswers? {
      AnswerPends(cfg, s, step);
      AnswerSticks(cfg, s, step, p);
    } else {
      QuietStep(cfg, s, step);
    }
  }

  lemma AnswerPends(cfg: Config, s: State, step: Step)
    requires Ranged(s) && Enabled(s, step) && (step.SignerAnswers? || step.DeliveryAnswers?)
    ensures |Apply(cfg, s, step).pends| == |s.pends|
  {
  }

  // ---- Sharing and retry ----

  /** A close of the id is waiting for calls to settle. */
  ghost predicate IsDraining(s: State, id: string, o: nat)
    requires o < |s.objs|
  {
    s.objs[o].id == id && s.objs[o].closing.Draining?
  }

  /** An attempt on the entry of the id is signing or delivering. */
  ghost predicate IsRunning(s: State, id: string, a: nat)
    requires a < |s.attempts|
  {
    id in s.sealed && s.attempts[a].pending == s.sealed[id] && !s.attempts[a].phase.Ended?
  }

  ghost predicate CloseInProgress(s: State, id: string) {
    if id in s.sessions then exists o | 0 <= o < |s.objs| :: IsDraining(s, id, o)
    else exists a | 0 <= a < |s.attempts| :: IsRunning(s, id, a)
  }

  lemma DrainingIsInMap(cfg: Config, s: State, id: string)
    requires Inv(cfg, s) && id in s.sessions
    ensures CloseInProgress(s, id) <==> s.objs[s.sessions[id]].closing.Draining?
  {
    assert EntryOk(s, id);
    if CloseInProgress(s, id) {
      var o :| 0 <= o < |s.objs| && IsDraining(s, id, o);
      assert ObjOk(cfg, s, o) && Registered(s, o);
    }
    if s.objs[s.sessions[id]].closing.Draining? { assert IsDraining(s, id, s.sessions[id]); }
  }

  lemma RunningIsStored(cfg: Config, s: State, id: string)
    requires Inv(cfg, s) && id !in s.sessions && id in s.sealed
    ensures CloseInProgress(s, id) <==> s.pends[s.sealed[id]].attempt.Some? && !Stuck(s, s.sealed[id])
  {
    var p := s.sealed[id];
    if CloseInProgress(s, id) {
      var a :| 0 <= a < |s.attempts| && IsRunning(s, id, a);
      assert AttemptOk(s, a);
    }
    assert StoredOk(s, p);
    if s.pends[p].attempt.Some? && !Stuck(s, p) { assert IsRunning(s, id, s.pends[p].attempt.value); }
  }

  /**
   A close changes nothing exactly when it joins a close in progress, draining or delivering, when nothing
   is known of its id, or when the entry of its id is stuck.
   */
  lemma ConcurrentClosesShare(cfg: Config, s: State, id: string, expired: bool, closedAt: string, starts: bool)
    requires Inv(cfg, s)
    ensures Apply(cfg, s, Close(id, expired, closedAt, starts)) == s
       <==> CloseInProgress(s, id) || (id !in s.sessions && id !in s.sealed)
            || (id !in s.sessions && Stuck(s, s.sealed[id]))
  {
    if id in s.sessions {
      DrainingIsInMap(cfg, s, id);
      assert EntryOk(s, id);
      if s.objs[s.sessions[id]].closing.NotClosing? {
        DrainObjects(cfg, s, s.sessions[id], expired, closedAt, starts);
      }
    } else if id in s.sealed {
      RunningIsStored(cfg, s, id);
      FinalizeAdds(cfg, s, s.sealed[id], starts);
    }
  }

  lemma FinalizeAdds(cfg: Config, s: State, p: nat, starts: bool)
    requires Ranged(s) && p < |s.pends|
    ensures if s.pends[p].attempt.Some? then Finalize(cfg, s, p, starts) == s
            else |Finalize(cfg, s, p, starts).attempts| == |s.attempts| + 1
  {
  }

  /** The answer of a signer or a sink that failed after it was awaited. */
  ghost predicate IsFailure(step: Step) {
    (step.SignerAnswers? && !step.ok) || (step.DeliveryAnswers? && !step.ok)
  }

  ghost function AnsweredAttempt(step: Step): nat
    requires step.SignerAnswers? || step.DeliveryAnswers?
  {
    step.a
  }

  /** After such a failure the entry stands as it was, and its next close starts over. */
  lemma FailureIsRetryable(cfg: Config, s: State, step: Step)
    requires Inv(cfg, s) && Enabled(s, step) && IsFailure(step)
    ensures var t, p := Apply(cfg, s, step), s.attempts[AnsweredAttempt(step)].pending;
            && t.sealed == s.sealed && t.sessions == s.sessions && p < |t.pends| && t.pends[p].attempt.None?
            && SameArtifact(s.pends[p], t.pends[p])
  {
  }

  /**
   A failed delivery is retried from where it stopped: after the failure, the next close of the id signs
   the same unsigned manifest if it is still unsigned, and otherwise hands over the same signed one again.
   */
  lemma RetryResumes(cfg: Config, s: State, step: Step, id: string, expired: bool, closedAt: string)
    requires Inv(cfg, s) && Enabled(s, step) && IsFailure(step)
    requires id !in s.sessions && id in s.sealed && s.sealed[id] == s.attempts[AnsweredAttempt(step)].pending
    requires cfg.sign(s.pends[s.sealed[id]].unsigned).Some?
    ensures var y := s.pends[s.sealed[id]];
            var t := Apply(cfg, s, step);
            Inv(cfg, t)
            && var u := Apply(cfg, t, Close(id, expired, closedAt, true));
               |u.attempts| == |s.attempts| + 1
               && u.attempts[|s.attempts|] == Attempt(s.sealed[id], if y.signature.None? then Signing else Delivering)
               && u.pends[s.sealed[id]].unsigned == y.unsigned && u.pends[s.sealed[id]].signature == y.signature
               && u.pends[s.sealed[id]].deliveries
                  == y.deliveries + if y.signature.None? then [] else [ReplayManifest(y.unsigned, y.signature.value)]
  {
    StepKeeps(cfg, s, step);
    FailureIsRetryable(cfg, s, step);
  }

  // ---- Retry over whole runs ----

  /** The entry of its id still leads to this sealed session. */
  ghost predicate Retained(s: State, p: nat)
    requires p < |s.pends|
  {
    s.pends[p].id in s.sealed && s.sealed[s.pends[p].id] == p
  }

  /** The step starts an attempt for p whose first segment throws. */
  ghost predicate Strands(cfg: Config, s: State, step: Step, p: nat)
    requires Ranged(s) && Enabled(s, step)
  {
    && Starts(s, step) == Some(p) && (step.Close? || step.CloseResumes?)
    && p < |Apply(cfg, s, step).pends| && ThrowsAtOnce(cfg, step, Apply(cfg, s, step).pends[p])
  }

  /** Some step of the run does. */
  ghost predicate StrandedBy(cfg: Config, s: State, steps: seq<Step>, p: nat)
    decreases |steps|
  {
    && steps != [] && Ranged(s) && Enabled(s, steps[0])
    && (Strands(cfg, s, steps[0], p) || StrandedBy(cfg, Apply(cfg, s, steps[0]), steps[1..], p))
  }

  /** A run leaves a sealed session stuck exactly when one of its steps started an attempt for it that threw at once. */
  lemma {:induction false} StuckAfterRunExactlyWhen(cfg: Config, s: State, steps: seq<Step>, p: nat)
    requires Inv(cfg, s) && Run(cfg, s, steps).Some? && p < |Run(cfg, s, steps).value.pends|
    requires p < |s.pends| ==> !Stuck(s, p)
    ensures Stuck(Run(cfg, s, steps).value, p) <==> StrandedBy(cfg, s, steps, p)
    decreases |steps|
  {
    if steps != [] {
      var t := Apply(cfg, s, steps[0]);
      StepKeeps(cfg, s, steps[0]);
      if p < |t.pends| { StuckExactlyWhen(cfg, s, steps[0], p); }
      if p < |t.pends| && Stuck(t, p) {
        StuckRun(cfg, t, steps[1..], p);
      } else {
        StuckAfterRunExactlyWhen(cfg, t, steps[1..], p);
      }
    }
  }

  ghost predicate SameUnsigned(s: State, t: State, p: nat)
    requires p < |s.pends|
  {
    p < |t.pends| && t.pends[p].unsigned == s.pends[p].unsigned
  }

  lemma DrainUnsigned(cfg: Config, s: State, o: nat, expired: bool, closedAt: string, starts: bool, p: nat)
    requires Ranged(s) && o < |s.objs| && p < |s.pends|
    ensures SameUnsigned(s, Drain(cfg, s, o, expired, closedAt, starts), p)
  {
    SealUnsigned(cfg, s, o, closedAt, p);
    FinalizeUnsigned(cfg, SealSession(cfg, s, o, closedAt), |s.pends|, starts, p);
  }

  lemma SealUnsigned(cfg: Config, s: State, o: nat, closedAt: string, p: nat)
    requires Ranged(s) && o < |s.objs| && p < |s.pends|
    ensures SameUnsigned(s, SealSession(cfg, s, o, closedAt), p) && Ranged(SealSession(cfg, s, o, closedAt))
    ensures |SealSession(cfg, s, o, closedAt).pends| == |s.pends| + if s.objs[o].events == [] then 0 else 1
  {
  }

  lemma FinalizeUnsigned(cfg: Config, s: State, q: nat, starts: bool, p: nat)
    requires Ranged(s) && p < |s.pends|
    ensures q < |s.pends| ==>
              SameUnsigned(s, Finalize(cfg, s, q, starts), p) && |Finalize(cfg, s, q, starts).pends| == |s.pends|
  {
  }

  lemma StepUnsigned(cfg: Config, s: State, step: Step, p: nat)
    requires Ranged(s) && Enabled(s, step) && p < |s.pends|
    ensures SameUnsigned(s, Apply(cfg, s, step), p)
  {
    match step
    case Close(id, expired, closedAt, starts) =>
      if id in s.sessions { DrainUnsigned(cfg, s, s.sessions[id], expired, closedAt, starts, p); }
      else if id in s.sealed { FinalizeUnsigned(cfg, s, s.sealed[id], starts, p); }
    case CloseResumes(o, expired, closedAt, starts) => DrainUnsigned(cfg, s, o, expired, closedAt, starts, p);
    case SignerAnswers(_, _, _) => 
    case DeliveryAnswers(_, _) =>
    case _ => QuietStep(cfg, s, step);
  }

  /** A sealed session comes with an attempt, so one that is not stuck can be signed. */
  ghost predicate CanSign(cfg: Config, s: State, p: nat)
    requires p < |s.pends|
  {
    Stuck(s, p) || cfg.sign(s.pends[p].unsigned).Some?
  }

  lemma NewIsStarted(cfg: Config, s: State, step: Step)
    requires Ranged(s) && Enabled(s, step) && |Apply(cfg, s, step).pends| > |s.pends|
    ensures (step.Close? || step.CloseResumes?) && Starts(s, step) == Some(|s.pends|)
    ensures |Apply(cfg, s, step).pends| == |s.pends| + 1 && Apply(cfg, s, step).pends[|s.pends|].signature.None?
  {
    match step
    case Close(id, expired, closedAt, starts) =>
      if id in s.sessions { DrainAdds(cfg, s, s.sessions[id], expired, closedAt, starts); }
      else if id in s.sealed { FinalizeUnsigned(cfg, s, s.sealed[id], starts, s.sealed[id]); }
    case CloseResumes(o, expired, closedAt, starts) => DrainAdds(cfg, s, o, expired, closedAt, starts);
    case SignerAnswers(_, _, _) => AnswerPends(cfg, s, step);
    case DeliveryAnswers(_, _) => AnswerPends(cfg, s, step);
    case _ => QuietStep(cfg, s, step);
  }

  lemma StepCanSign(cfg: Config, s: State, step: Step, p: nat)
    requires Inv(cfg, s) && Enabled(s, step) && p < |Apply(cfg, s, step).pends|
    requires p < |s.pends| ==> CanSign(cfg, s, p)
    ensures CanSign(cfg, Apply(cfg, s, step), p)
  {
    if p >= |s.pends| {
      NewIsStarted(cfg, s, step);
      StuckExactlyWhen(cfg, s, step, p);
    } else if Stuck(s, p) {
      StuckForever(cfg, s, step, p);
    } else {
      StepUnsigned(cfg, s, step, p);
    }
  }

  lemma {:induction false} RunCanSign(cfg: Config, s: State, steps: seq<Step>, p: nat)
    requires Inv(cfg, s) && Run(cfg, s, steps).Some? && p < |Run(cfg, s, steps).value.pends|
    requires p < |s.pends| ==> CanSign(cfg, s, p)
    ensures CanSign(cfg, Run(cfg, s, steps).value, p)
    decreases |steps|
  {
    if steps != [] {
      StepKeeps(cfg, s, steps[0]);
      if p < |Apply(cfg, s, steps[0]).pends| { StepCanSign(cfg, s, steps[0], p); }
      RunCanSign(cfg, Apply(cfg, s, steps[0]), steps[1..], p);
    }
  }

  /** The attempt a close starts on p: it signs what is unsigned and hands over again what is signed. */
  ghost predicate StartsOver(s: State, t: State, p: nat)
    requires p < |s.pends|
  {
    var y := s.pends[p];
    && p < |t.pends| && t.pends[p].attempt == Some(|s.attempts|)
    && t.attempts == s.attempts + [Attempt(p, if y.signature.None? then Signing else Delivering)]
    && t.pends[p].unsigned == y.unsigned && t.pends[p].signature == y.signature
    && t.pends[p].deliveries
       == y.deliveries + if y.signature.None? then [] else [ReplayManifest(y.unsigned, y.signature.value)]
  }

  lemma CloseStartsOver(cfg: Config, s: State, p: nat, expired: bool, closedAt: string)
    requires Ranged(s) && p < |s.pends| && Retained(s, p) && s.pends[p].attempt.None?
    requires s.pends[p].id !in s.sessions && cfg.sign(s.pends[p].unsigned).Some?
    ensures StartsOver(s, Apply(cfg, s, Close(s.pends[p].id, expired, closedAt, true)), p)
  {
  }

  lemma StoredIsRunning(cfg: Config, s: State, p: nat)
    requires Inv(cfg, s) && p < |s.pends| && Retained(s, p) && s.pends[p].attempt.Some? && !Stuck(s, p)
    ensures exists a | 0 <= a < |s.attempts| :: IsRunning(s, s.pends[p].id, a)
  {
    assert StoredOk(s, p);
    assert IsRunning(s, s.pends[p].id, s.pends[p].attempt.value);
  }

  /**
   Retry over whole runs. However a run interleaves calls, closes, failures and other sessions: as long as
   no attempt for a sealed session threw before it suspended, and its entry still leads to it, an attempt
   for it is running, or the next close of its id outside an open session starts one on the same artifact.
   */
  lemma RetryableInEveryRun(cfg: Config, mac: Mac, secret: string, steps: seq<Step>, s: State, p: nat,
                            expired: bool, closedAt: string)
    requires Reached(cfg, mac, secret, steps, s) && p < |s.pends|
    requires !StrandedBy(cfg, INIT, steps, p) && Retained(s, p)
    ensures Ranged(s) && !s.pends[p].delivered
    ensures s.pends[p].attempt.Some? ==> exists a | 0 <= a < |s.attempts| :: IsRunning(s, s.pends[p].id, a)
    ensures s.pends[p].attempt.None? && s.pends[p].id !in s.sessions ==>
              StartsOver(s, Apply(cfg, s, Close(s.pends[p].id, expired, closedAt, true)), p)
  {
    ReachedInv(cfg, mac, secret, steps, s);
    InitHolds(cfg, mac, secret);
    StuckAfterRunExactlyWhen(cfg, INIT, steps, p);
    RunCanSign(cfg, INIT, steps, p);
    assert SealedOk(s, s.pends[p].id);
    if s.pends[p].attempt.Some? {
      StoredIsRunning(cfg, s, p);
    } else if s.pends[p].id !in s.sessions {
      CloseStartsOver(cfg, s, p, expired, closedAt);
    }
  }

  // ---- Release ----

  /** Undelivered, not displaced by a later session, and yet without an entry: no close can reach it. */
  ghost predicate Lost(s: State, p: nat)
    requires p < |s.pends|
  {
    !s.pends[p].delivered && !s.pends[p].replaced && !Retained(s, p)
  }

  /**
   A successful delivery loses another session's undelivered manifest exactly when its id leads to
   another sealed session by then.
   */
  lemma DeliveryLosesExactlyWhen(cfg: Config, s: State, a: nat)
    requires Inv(cfg, s) && a < |s.attempts| && s.attempts[a].phase.Delivering?
    ensures var t, p := DeliverySettled(s, a, true), s.attempts[a].pending;
            p < |s.pends| == |t.pends|
            && ((exists q | 0 <= q < |s.pends| :: Retained(s, q) && !Retained(t, q) && !t.pends[q].delivered)
                <==> s.pends[p].id in s.sealed && s.sealed[s.pends[p].id] != p)
  {
    var t, p := DeliverySettled(s, a, true), s.attempts[a].pending;
    var id := s.pends[p].id;
    if id in s.sealed && s.sealed[id] != p {
      assert SealedOk(s, id);
      assert Retained(s, s.sealed[id]) && !Retained(t, s.sealed[id]);
    }
  }

  /** A running attempt belongs to a session that is still retained. */
  ghost predicate RunsRetained(s: State, a: nat)
    requires a < |s.attempts|
  {
    !s.attempts[a].phase.Ended? ==> s.attempts[a].pending < |s.pends| && Retained(s, s.attempts[a].pending)
  }

  ghost predicate NothingLost(s: State) {
    && (forall p | 0 <= p < |s.pends| :: !Lost(s, p))
    && (forall a | 0 <= a < |s.attempts| :: RunsRetained(s, a))
  }

  /** The hypothesis on hosts: no session is sealed under an id whose earlier delivery attempt is running. */
  ghost predicate NoReuse(s: State, step: Step)
    requires Ranged(s) && Enabled(s, step)
  {
    var sealing := SealsNow(s, step);
    sealing.Some? && sealing.value < |s.objs| && s.objs[sealing.value].events != [] ==>
      forall a | 0 <= a < |s.attempts| :: NotRunningUnder(s, s.objs[sealing.value].id, a)
  }

  ghost predicate NotRunningUnder(s: State, id: string, a: nat)
    requires Ranged(s) && a < |s.attempts|
  {
    s.attempts[a].phase.Ended? || s.pends[s.attempts[a].pending].id != id
  }

  ghost predicate NoReuseRun(cfg: Config, s: State, steps: seq<Step>)
    decreases |steps|
  {
    steps == []
    || (Ranged(s) && Enabled(s, steps[0]) && NoReuse(s, steps[0])
        && NoReuseRun(cfg, Apply(cfg, s, steps[0]), steps[1..]))
  }

  lemma FinalizeLosesNothing(cfg: Config, s: State, p: nat, starts: bool)
    requires Inv(cfg, s) && NothingLost(s) && p < |s.pends| && Retained(s, p)
    ensures NothingLost(Finalize(cfg, s, p, starts))
  {
    var t := Finalize(cfg, s, p, starts);
    forall q | 0 <= q < |t.pends| ensures !Lost(t, q) { assert !Lost(s, q); }
    forall a | 0 <= a < |t.attempts| ensures RunsRetained(t, a) { if a < |s.attempts| { assert RunsRetained(s, a); } }
  }

  lemma SealLosesNothing(cfg: Config, s: State, o: nat, closedAt: string)
    requires Inv(cfg, s) && NothingLost(s) && o < |s.objs| && s.objs[o].events != []
    requires forall a | 0 <= a < |s.attempts| :: NotRunningUnder(s, s.objs[o].id, a)
    ensures NothingLost(SealSession(cfg, s, o, closedAt)) && Retained(SealSession(cfg, s, o, closedAt), |s.pends|)
  {
    var t, id := SealSession(cfg, s, o, closedAt), s.objs[o].id;
    forall q | 0 <= q < |t.pends| ensures !Lost(t, q) {
      if q < |s.pends| {
        assert !Lost(s, q);
        assert t.pends[q] == s.pends[q].(replaced := t.pends[q].replaced);
      }
    }
    forall a | 0 <= a < |t.attempts| ensures RunsRetained(t, a) {
      assert RunsRetained(s, a) && NotRunningUnder(s, id, a);
    }
  }

  lemma DrainLosesNothing(cfg: Config, s: State, o: nat, expired: bool, closedAt: string, starts: bool)
    requires Inv(cfg, s) && NothingLost(s) && o < |s.objs| && !s.objs[o].closing.Closed?
    requires (s.objs[o].inflight == {} || expired) && s.objs[o].events != [] ==>
               forall a | 0 <= a < |s.attempts| :: NotRunningUnder(s, s.objs[o].id, a)
    ensures NothingLost(Drain(cfg, s, o, expired, closedAt, starts))
  {
    if (s.objs[o].inflight == {} || expired) && s.objs[o].events != [] {
      SealKeeps(cfg, s, o, closedAt);
      SealLosesNothing(cfg, s, o, closedAt);
      FinalizeLosesNothing(cfg, SealSession(cfg, s, o, closedAt), |s.pends|, starts);
    } else {
      NothingLostFrame(s, Drain(cfg, s, o, expired, closedAt, starts));
    }
  }

  lemma NothingLostFrame(s: State, t: State)
    requires NothingLost(s) && t.pends == s.pends && t.attempts == s.attempts && t.sealed == s.sealed
    ensures NothingLost(t)
  {
    forall p | 0 <= p < |t.pends| ensures !Lost(t, p) { assert !Lost(s, p); }
    forall a | 0 <= a < |t.attempts| ensures RunsRetained(t, a) { assert RunsRetained(s, a); }
  }

  lemma EndLosesNothing(cfg: Config, s: State, a: nat)
    requires Inv(cfg, s) && NothingLost(s) && a < |s.attempts|
    ensures NothingLost(EndAttempt(s, a))
  {
    var t := EndAttempt(s, a);
    forall p | 0 <= p < |t.pends| ensures !Lost(t, p) { assert !Lost(s, p); }
    forall b | 0 <= b < |t.attempts| ensures RunsRetained(t, b) { assert RunsRetained(s, b); }
  }

  lemma HandOverLosesNothing(cfg: Config, s: State, a: nat)
    requires Inv(cfg, s) && NothingLost(s) && a < |s.attempts| && s.attempts[a].phase.Signing?
    requires cfg.sign(s.pends[s.attempts[a].pending].unsigned).Some?
    ensures NothingLost(HandOver(cfg, s, a))
  {
    var t := HandOver(cfg, s, a);
    forall p | 0 <= p < |t.pends| ensures !Lost(t, p) { assert !Lost(s, p); }
    forall b | 0 <= b < |t.attempts| ensures RunsRetained(t, b) { assert RunsRetained(s, b); }
  }

  lemma SignLosesNothing(cfg: Config, s: State, a: nat, ok: bool, sinkStarts: bool)
    requires Inv(cfg, s) && NothingLost(s) && a < |s.attempts| && s.attempts[a].phase.Signing?
    ensures NothingLost(SignSettled(cfg, s, a, ok, sinkStarts))
  {
    if !ok || cfg.sign(s.pends[s.attempts[a].pending].unsigned).None? {
      EndLosesNothing(cfg, s, a);
    } else {
      HandOverKeeps(cfg, s, a);
      HandOverLosesNothing(cfg, s, a);
      if !sinkStarts { EndLosesNothing(cfg, HandOver(cfg, s, a), a); }
    }
  }

  /** Releasing its own entry, an attempt ends; no other attempt ran under that entry. */
  lemma DeliveryLosesNothing(cfg: Config, s: State, a: nat, ok: bool)
    requires Inv(cfg, s) && NothingLost(s) && a < |s.attempts| && s.attempts[a].phase.Delivering?
    ensures NothingLost(DeliverySettled(s, a, ok))
  {
    if !ok {
      EndLosesNothing(cfg, s, a);
    } else {
      var t, p := DeliverySettled(s, a, true), s.attempts[a].pending;
      assert RunsRetained(s, a) && AttemptOk(s, a);
      forall q | 0 <= q < |t.pends| ensures !Lost(t, q) { assert !Lost(s, q); }
      forall b | 0 <= b < |t.attempts| ensures RunsRetained(t, b) {
        assert RunsRetained(s, b);
        if b != a && !s.attempts[b].phase.Ended? { assert AttemptOk(s, b); }
      }
    }
  }

  lemma StepLosesNothing(cfg: Config, s: State, step: Step)
    requires Inv(cfg, s) && NothingLost(s) && Enabled(s, step) && NoReuse(s, step)
    ensures NothingLost(Apply(cfg, s, step))
  {
    match step
    case Close(id, expired, closedAt, starts) =>
      if id in s.sessions {
        assert EntryOk(s, id);
        if s.objs[s.sessions[id]].closing.NotClosing? {
          DrainLosesNothing(cfg, s, s.sessions[id], expired, closedAt, starts);
        }
      } else if id in s.sealed {
        assert SealedOk(s, id);
        FinalizeLosesNothing(cfg, s, s.sealed[id], starts);
      }
    case CloseResumes(o, expired, closedAt, starts) => DrainLosesNothing(cfg, s, o, expired, closedAt, starts);
    case SignerAnswers(a, ok, sinkStarts) => SignLosesNothing(cfg, s, a, ok, sinkStarts);
    case DeliveryAnswers(a, ok) => DeliveryLosesNothing(cfg, s, a, ok);
    case _ => QuietStep(cfg, s, step); NothingLostFrame(s, Apply(cfg, s, step));
  }

  lemma {:induction false} RunLosesNothing(cfg: Config, s: State, steps: seq<Step>)
    requires Inv(cfg, s) && NothingLost(s) && NoReuseRun(cfg, s, steps) && Run(cfg, s, steps).Some?
    ensures NothingLost(Run(cfg, s, steps).value)
    decreases |steps|
  {
    if steps != [] {
      StepLosesNothing(cfg, s, steps[0]);
      StepKeeps(cfg, s, steps[0]);
      RunLosesNothing(cfg, Apply(cfg, s, steps[0]), steps[1..]);
    }
  }

  /**
   In a run that never seals a session under an id whose earlier delivery attempt is running, an entry is
   released only by its own successful delivery: every sealed session is delivered, still retained for a
   retry, or displaced, with a report, by a later session that closed under the same id.
   */
  lemma ReleasedOnlyWhenDelivered(cfg: Config, mac: Mac, secret: string, steps: seq<Step>, s: State, p: nat)
    requires Reached(cfg, mac, secret, steps, s) && NoReuseRun(cfg, INIT, steps) && p < |s.pends|
    ensures s.pends[p].delivered || Retained(s, p) || s.pends[p].replaced
    ensures s.pends[p].delivered ==> s.pends[p].deliveries != [] && !Retained(s, p)
  {
    ReachedInv(cfg, mac, secret, steps, s);
    InitHolds(cfg, mac, secret);
    RunLosesNothing(cfg, INIT, steps);
    assert !Lost(s, p) && SignedOk(cfg, s.pends[p]);
    if Retained(s, p) { assert SealedOk(s, s.pends[p].id); }
  }
}
