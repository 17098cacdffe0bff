/** What an attempt must have gone through before it can be admitted, over whole runs. */
module SessionAdmissions {
  import opened Text
  import opened SessionTable
  import opened SessionShutdown

  /** The registry answered this attempt with a live record while there was room for it. */
  predicate Cleared(s: Table, step: Step, a: nat) {
    && step == RegistryAnswers(a, true)
    && !(s.max.Finite? && (|s.sessions| + s.pendingSessions) as real > s.max.value)
  }

  predicate ClearedIn(s: Table, steps: seq<Step>, a: nat)
    decreases |steps|
  {
    && steps != [] && Ranged(s) && Enabled(s, steps[0])
    && (Cleared(s, steps[0], a) || ClearedIn(Apply(s, steps[0]), steps[1..], a))
  }

  predicate HasServer(s: Table, a: nat) {
    && a < |s.attempts|
    && (s.attempts[a].phase.Connecting? || s.attempts[a].phase.Serving? || s.attempts[a].phase.Admitted?)
  }

  predicate IsServed(s: Table, a: nat) {
    a < |s.attempts| && (s.attempts[a].phase.Serving? || s.attempts[a].phase.Admitted?)
  }

  lemma NewAttempt(s: Table, step: Step, a: nat)
    requires Ranged(s) && Enabled(s, step) && |s.attempts| <= a < |Apply(s, step).attempts|
    ensures Mover(step).None?
    ensures Apply(s, step).attempts[a].phase.Passed? || Apply(s, step).attempts[a].phase.Looking?
  {
  }

  /** Where a step of its own takes an attempt. */
  ghost predicate MovesOn(s: Table, t: Table, step: Step, a: nat)
    requires a < |s.attempts| && a < |t.attempts|
  {
    && t.attempts[a].kind == s.attempts[a].kind
    && (t.attempts[a].phase.Connecting? ==> step.ServerBuilt? || Cleared(s, step, a))
    && (t.attempts[a].phase.Serving? ==> step == ConnectSettles(a, true))
    && (t.attempts[a].phase.Admitted? ==> step == SessionInitialized(a))
  }

  lemma FinishMovesOn(s: Table, t: Table, step: Step, a: nat)
    requires a < |s.attempts| && t == Finish(s, a)
    ensures a < |t.attempts| && t.attempts[a].kind == s.attempts[a].kind
    ensures t.attempts[a].phase.Ended? || t.attempts[a].phase.Leaving?
  {
  }

  lemma AnswerMovesOn(s: Table, a: nat, record: bool)
    requires a < |s.attempts|
    ensures a < |Found(s, a, record).attempts| && MovesOn(s, Found(s, a, record), RegistryAnswers(a, record), a)
  {
    FinishMovesOn(s, Finish(s, a), RegistryAnswers(a, record), a);
  }

  lemma ConnectMovesOn(s: Table, a: nat, ok: bool)
    requires a < |s.attempts| && s.attempts[a].server < |s.servers|
    ensures a < |Connected(s, a, ok).attempts| && MovesOn(s, Connected(s, a, ok), ConnectSettles(a, ok), a)
  {
  }

  lemma OwnStep(s: Table, step: Step, a: nat)
    requires Ranged(s) && Enabled(s, step) && Mover(step) == Some(a)
    ensures a < |s.attempts| && a < |Apply(s, step).attempts| && MovesOn(s, Apply(s, step), step, a)
  {
    match step
    case RegistryAnswers(_, record) => AnswerMovesOn(s, a, record);
    case ConnectSettles(_, ok) => ConnectMovesOn(s, a, ok);
    case _ =>
  }

  lemma ServerNeedsRecord(s: Table, step: Step, a: nat)
    requires Ranged(s) && Enabled(s, step) && !HasServer(s, a) && HasServer(Apply(s, step), a)
    requires Apply(s, step).attempts[a].kind.Resume?
    ensures Cleared(s, step, a)
  {
    if a >= |s.attempts| {
      NewAttempt(s, step, a);
    } else if Mover(step) == Some(a) {
      OwnStep(s, step, a);
    } else {
      StepLeavesAttempt(s, step, a);
    }
  }

  /** A resume has a server, and can be admitted, only if its registry answer was a live record with room. */
  lemma {:induction false} ResumedOnlyFromRecord(s: Table, steps: seq<Step>, t: Table, a: nat)
    requires Run(s, steps) == Some(t) && !HasServer(s, a) && HasServer(t, a) && t.attempts[a].kind.Resume?
    ensures ClearedIn(s, steps, a)
    decreases |steps|
  {
    if steps != [] {
      var u := Apply(s, steps[0]);
      if HasServer(u, a) {
        KindStays(u, steps[1..], t, a);
        ServerNeedsRecord(s, steps[0], a);
      } else {
        ResumedOnlyFromRecord(u, steps[1..], t, a);
      }
    }
  }

  lemma StepKind(s: Table, step: Step, a: nat)
    requires Ranged(s) && Enabled(s, step) && a < |s.attempts|
    ensures a < |Apply(s, step).attempts| && Apply(s, step).attempts[a].kind == s.attempts[a].kind
  {
    if Mover(step) == Some(a) { OwnStep(s, step, a); } else { StepLeavesAttempt(s, step, a); }
  }

  lemma {:induction false} KindStays(s: Table, steps: seq<Step>, t: Table, a: nat)
    requires Run(s, steps) == Some(t) && a < |s.attempts|
    ensures a < |t.attempts| && t.attempts[a].kind == s.attempts[a].kind
    decreases |steps|
  {
    if steps != [] {
      StepKind(s, steps[0], a);
      KindStays(Apply(s, steps[0]), steps[1..], t, a);
    }
  }

  lemma ServingNeedsConnect(s: Table, step: Step, a: nat)
    requires Ranged(s) && Enabled(s, step) && !IsServed(s, a) && IsServed(Apply(s, step), a)
    ensures step == ConnectSettles(a, true)
  {
    if a >= |s.attempts| {
      NewAttempt(s, step, a);
    } else if Mover(step) == Some(a) {
      OwnStep(s, step, a);
    } else {
      StepLeavesAttempt(s, step, a);
    }
  }

  lemma {:induction false} ServedOnlyAfterConnect(s: Table, steps: seq<Step>, t: Table, a: nat)
    requires Run(s, steps) == Some(t) && !IsServed(s, a) && IsServed(t, a)
    ensures ConnectSettles(a, true) in steps
    decreases |steps|
  {
    if steps != [] {
      var u := Apply(s, steps[0]);
      if IsServed(u, a) {
        ServingNeedsConnect(s, steps[0], a);
      } else {
        ServedOnlyAfterConnect(u, steps[1..], t, a);
      }
    }
  }

  /**
   Over every run: a resume that is admitted, or can be, was answered with a live record while there was
   room, and its connect succeeded.
   */
  lemma AdmittedOnlyIfCleared(max: Limit, registry: bool, steps: seq<Step>, s: Table, a: nat)
    requires Run(Start(max, registry), steps) == Some(s) && a < |s.attempts| && s.attempts[a].kind.Resume?
    requires s.attempts[a].phase.Admitted? || Enabled(s, SessionInitialized(a))
    ensures ClearedIn(Start(max, registry), steps, a) && ConnectSettles(a, true) in steps
  {
    ResumedOnlyFromRecord(Start(max, registry), steps, s, a);
    ServedOnlyAfterConnect(Start(max, registry), steps, s, a);
  }
}
