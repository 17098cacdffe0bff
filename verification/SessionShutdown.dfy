/** What server.close does to the session table, and what it leaves behind. */
module SessionShutdown {
  import opened Text
  import opened SessionTable
  import opened SessionLimits
  import opened SessionAccounts

  predicate Sound(s: Table) {
    CapInv(s) && Inv(s)
  }

  lemma StepIsSound(s: Table, step: Step)
    requires Sound(s) && Enabled(s, step)
    ensures Sound(Apply(s, step))
  {
    StepKeepsCap(s, step);
    StepKeeps(s, step);
  }

  /** Between two tables sessions only went from live to torn down. */
  predicate TearsDown(s: Table, t: Table) {
    |t.admitted| == |s.admitted| && |t.teardowns| + |t.sessions| == |s.teardowns| + |s.sessions|
  }

  /** No session is left, and every admission there ever was has its teardown. */
  predicate AllTornDown(s: Table, t: Table) {
    && t.sessions == map[] && |t.admitted| == |s.admitted| && |t.teardowns| == |s.teardowns| + |s.sessions|
    && forall n | 0 <= n < |t.admitted| :: t.admitted[n].TornDown?
  }

  /** Tearing down a list of ids, one after the other, records kept. */
  function DestroyAll(s: Table, order: seq<string>): (t: Table)
    requires Ranged(s)
    ensures Ranged(t)
    decreases |order|
  {
    if order == [] then s
    else
      var t := DestroyAll(s, order[..|order| - 1]);
      DestroyInRange(t, order[|order| - 1], true);
      Destroy(t, order[|order| - 1], true)
  }

  lemma {:induction false} DestroyAllIsSound(s: Table, order: seq<string>)
    requires Sound(s)
    ensures Sound(DestroyAll(s, order)) && TearsDown(s, DestroyAll(s, order))
    decreases |order|
  {
    if order != [] {
      var t, id := DestroyAll(s, order[..|order| - 1]), order[|order| - 1];
      DestroyAllIsSound(s, order[..|order| - 1]);
      StepIsSound(t, SessionEnds(id, true));
      if id in t.sessions { KeysRemoved(t.sessions, id); }
    }
  }

  lemma NoneLeft(s: Table, t: Table)
    requires TearsDown(s, t) && Inv(t) && t.sessions.Keys == {}
    ensures AllTornDown(s, t)
  {
    forall n | 0 <= n < |t.admitted| ensures t.admitted[n].TornDown? { assert OutcomeOk(t, n); }
  }

  /** A shutdown starts teardowns and does nothing to what is under way. */
  predicate SameWork(s: Table, t: Table) {
    && t.attempts == s.attempts && t.resuming == s.resuming && t.pendingSessions == s.pendingSessions
    && |t.servers| == |s.servers| && forall v | 0 <= v < |s.servers| :: t.servers[v].closed == s.servers[v].closed
  }

  lemma {:induction false} DestroyAllFrame(s: Table, order: seq<string>)
    requires Ranged(s)
    ensures SameWork(s, DestroyAll(s, order))
    decreases |order|
  {
    if order != [] { DestroyAllFrame(s, order[..|order| - 1]); }
  }

  /** A teardown as it starts: waiting for the registry's delete, or past it with the hook called. */
  predicate Starts(x: Teardown, live: Live, waits: bool) {
    x == Teardown(live.number, live.server, if waits then Deleting else Hook, if waits then 0 else 1)
  }

  predicate StartedIn(s: Table, x: Teardown) {
    exists id | id in s.sessions :: Starts(x, s.sessions[id], false)
  }

  /** The sessions a shutdown has not reached yet are as they were. */
  predicate Untouched(s: Table, t: Table) {
    forall id | id in t.sessions :: id in s.sessions && t.sessions[id] == s.sessions[id]
  }

  lemma DestroyStarts(s: Table, t: Table, id: string)
    requires Ranged(t) && Untouched(s, t) && |s.teardowns| <= |t.teardowns|
    requires t.teardowns[..|s.teardowns|] == s.teardowns
    requires forall k | |s.teardowns| <= k < |t.teardowns| :: StartedIn(s, t.teardowns[k])
    ensures var u := Destroy(t, id, true);
            && Untouched(s, u) && |s.teardowns| <= |u.teardowns| && u.teardowns[..|s.teardowns|] == s.teardowns
            && forall k | |s.teardowns| <= k < |u.teardowns| :: StartedIn(s, u.teardowns[k])
  {
    if id in t.sessions {
      var u := Destroy(t, id, true);
      assert Starts(u.teardowns[|t.teardowns|], s.sessions[id], false);
    }
  }

  /** No teardown of a shutdown waits for a delete: the records are kept. */
  lemma {:induction false} DestroyAllStarts(s: Table, order: seq<string>)
    requires Ranged(s)
    ensures var t := DestroyAll(s, order);
            && Untouched(s, t) && |s.teardowns| <= |t.teardowns| && t.teardowns[..|s.teardowns|] == s.teardowns
            && forall k | |s.teardowns| <= k < |t.teardowns| :: StartedIn(s, t.teardowns[k])
    decreases |order|
  {
    if order != [] {
      DestroyAllStarts(s, order[..|order| - 1]);
      DestroyStarts(s, DestroyAll(s, order[..|order| - 1]), order[|order| - 1]);
    }
  }

  // ---- After the shutdown ----

  /** The admission with this number has been torn down. */
  predicate Torn(s: Table, n: nat) {
    n < |s.admitted| && s.admitted[n].TornDown?
  }

  lemma DestroyStaysTorn(s: Table, id: string, keepRecord: bool, n: nat)
    requires Inv(s) && Torn(s, n)
    ensures Torn(Destroy(s, id, keepRecord), n)
  {
    if id in s.sessions { assert SessionOk(s, id); }
  }

  lemma StepStaysTorn(s: Table, step: Step, n: nat)
    requires Inv(s) && Enabled(s, step) && Torn(s, n)
    ensures Torn(Apply(s, step), n)
  {
    if step.SessionEnds? { DestroyStaysTorn(s, step.id, step.keepRecord, n); }
  }

  lemma {:induction false} RunStaysTorn(s: Table, steps: seq<Step>, n: nat)
    requires Inv(s) && Torn(s, n) && Run(s, steps).Some?
    ensures Torn(Run(s, steps).value, n)
    decreases |steps|
  {
    if steps != [] {
      StepKeeps(s, steps[0]);
      StepStaysTorn(s, steps[0], n);
      RunStaysTorn(Apply(s, steps[0]), steps[1..], n);
    }
  }

  predicate IsLive(s: Table, n: nat) {
    exists id | id in s.sessions :: s.sessions[id].number == n
  }

  /**
   After a shutdown the live sessions are exactly those admitted since and not torn down by some later
   step: the shutdown itself starts no teardown for any of them.
   */
  lemma LiveAfterShutdown(s: Table, order: seq<string>, steps: seq<Step>, t: Table, n: nat)
    requires Sound(s) && AllTornDown(s, DestroyAll(s, order))
    requires Run(DestroyAll(s, order), steps) == Some(t) && n < |t.admitted|
    ensures IsLive(t, n) <==> n >= |s.admitted| && t.admitted[n].Alive?
  {
    var t0 := DestroyAll(s, order);
    DestroyAllIsSound(s, order);
    RunKeeps(t0, steps);
    if n < |s.admitted| { RunStaysTorn(t0, steps, n); }
    assert OutcomeOk(t, n);
    if IsLive(t, n) {
      var id :| id in t.sessions && t.sessions[id].number == n;
      assert SessionOk(t, id);
    }
  }

  /** The attempt whose own step this is. */
  function Mover(step: Step): Option<nat> {
    match step
    case IdentityRejected(a) => Some(a)
    case ServerBuilt(a, _) => Some(a)
    case RegistryAnswers(a, _) => Some(a)
    case ConnectSettles(a, _) => Some(a)
    case SessionInitialized(a) => Some(a)
    case RequestServed(a) => Some(a)
    case ResumeSettles(a) => Some(a)
    case _ => None
  }

  predicate NoneMoves(steps: seq<Step>, a: nat) {
    forall i | 0 <= i < |steps| :: Mover(steps[i]) != Some(a)
  }

  predicate Leaves(s: Table, t: Table, a: nat)
    requires a < |s.attempts|
  {
    a < |t.attempts| && t.attempts[a] == s.attempts[a]
  }

  lemma FinishLeaves(s: Table, b: nat, a: nat)
    requires b < |s.attempts| && a < |s.attempts| && a != b
    ensures Leaves(s, Finish(s, b), a)
  {
  }

  lemma MoverLeavesOthers(s: Table, step: Step, a: nat)
    requires Ranged(s) && Enabled(s, step) && a < |s.attempts| && Mover(step).Some? && Mover(step) != Some(a)
    ensures Leaves(s, Apply(s, step), a)
  {
    FinishLeaves(s, Mover(step).value, a);
  }

  lemma StepLeavesAttempt(s: Table, step: Step, a: nat)
    requires Ranged(s) && Enabled(s, step) && a < |s.attempts| && Mover(step) != Some(a)
    ensures Leaves(s, Apply(s, step), a)
  {
    if Mover(step).Some? { MoverLeavesOthers(s, step, a); }
  }

  lemma {:induction false} RunLeavesAttempt(s: Table, steps: seq<Step>, a: nat)
    requires Run(s, steps).Some? && a < |s.attempts| && NoneMoves(steps, a)
    ensures Leaves(s, Run(s, steps).value, a)
    decreases |steps|
  {
    if steps != [] {
      StepLeavesAttempt(s, steps[0], a);
      assert forall i | 0 <= i < |steps[1..]| :: steps[1..][i] == steps[i + 1];
      RunLeavesAttempt(Apply(s, steps[0]), steps[1..], a);
    }
  }

  /** Admitted under the id of the attempt, by number n, and nothing tears it down. */
  predicate AdmittedForGood(s: Table, id: string, n: nat) {
    && id in s.sessions && s.sessions[id].number == n
    && forall k | 0 <= k < |s.teardowns| :: s.teardowns[k].number != n
  }

  lemma AdmitNumbers(s: Table, a: nat)
    requires Inv(s) && a < |s.attempts| && s.attempts[a].phase.Serving?
    ensures Enabled(s, SessionInitialized(a))
    ensures AdmittedForGood(Apply(s, SessionInitialized(a)), s.attempts[a].id, |s.admitted|)
  {
    var t := Admit(s, a);
    forall k | 0 <= k < |t.teardowns| ensures t.teardowns[k].number != |s.admitted| { assert TeardownOk(s, k); }
  }

  /**
   A shutdown does not reach what is in flight. An attempt that was being served at the shutdown can still
   be admitted, whatever else has happened since; it is then live, and no teardown is started for it.
   */
  lemma InFlightOutlivesShutdown(s: Table, order: seq<string>, steps: seq<Step>, t: Table, a: nat)
    requires Sound(s) && a < |s.attempts| && s.attempts[a].phase.Serving?
    requires Run(DestroyAll(s, order), steps) == Some(t) && NoneMoves(steps, a)
    ensures Ranged(t) && Enabled(t, SessionInitialized(a))
    ensures AdmittedForGood(Apply(t, SessionInitialized(a)), s.attempts[a].id, |t.admitted|)
  {
    DestroyAllIsSound(s, order);
    DestroyAllFrame(s, order);
    RunKeeps(DestroyAll(s, order), steps);
    RunLeavesAttempt(DestroyAll(s, order), steps, a);
    AdmitNumbers(t, a);
  }

  /** A resume of "x" on its way to being served. */
  function ResumeOfX(): seq<Step> {
    [RequestArrives("x"), RegistryAnswers(0, true), ConnectSettles(0, true)]
  }

  lemma ResumeRuns(max: Limit) returns (s: Table)
    requires ValidLimit(max) && !OverLimit(1, max)
    ensures Run(Start(max, true), ResumeOfX()) == Some(s) && Ranged(s)
    ensures s.attempts == [Attempt(Resume, "x", Serving, 0)] && |s.servers| == 1
    ensures s.sessions == map[] && s.teardowns == [] && s.admitted == []
  {
    var s0 := Start(max, true);
    var s1 := Request(s0, "x");
    var s2 := Build(s1, 0, "x");
    s := SetPhase(s2, 0, Serving);
    RunThree(s0, RequestArrives("x"), RegistryAnswers(0, true), ConnectSettles(0, true), s1, s2, s);
  }

  lemma RunOne(s: Table, step: Step)
    requires Ranged(s) && Enabled(s, step)
    ensures Run(s, [step]) == Some(Apply(s, step))
  {
    assert [step][1..] == [];
    assert Run(Apply(s, step), []) == Some(Apply(s, step));
  }

  lemma FirstAdmission(s: Table) returns (t: Table)
    requires Ranged(s) && s.attempts == [Attempt(Resume, "x", Serving, 0)] && s.teardowns == [] && s.admitted == []
    ensures Enabled(s, SessionInitialized(0)) && t == Apply(s, SessionInitialized(0))
    ensures AdmittedForGood(t, "x", 0) && t.teardowns == []
  {
    t := Admit(s, 0);
  }

  /** Such a run: a resume is being served when the server shuts down, and its session stays. */
  lemma ResumeIsLeftBehind(max: Limit) returns (s: Table, t: Table)
    requires ValidLimit(max) && !OverLimit(1, max)
    ensures Run(Start(max, true), ResumeOfX()) == Some(s) && Ranged(s) && AllTornDown(s, DestroyAll(s, []))
    ensures Run(DestroyAll(s, []), [SessionInitialized(0)]) == Some(t)
    ensures AdmittedForGood(t, "x", 0) && t.teardowns == []
  {
    s := ResumeRuns(max);
    t := FirstAdmission(s);
    RunOne(s, SessionInitialized(0));
  }
}
