/** The session table never holds more than it may, and every slot it hands out comes back. */
module SessionLimits {
  import opened Text
  import opened SessionTable

  // ---- Counting attempts ----

  type Weight = Attempt -> nat

  function Sum(xs: seq<Attempt>, w: Weight): nat {
    if xs == [] then 0 else Sum(xs[..|xs| - 1], w) + w(xs[|xs| - 1])
  }

  lemma {:induction false} SumUpdate(xs: seq<Attempt>, w: Weight, i: nat, x: Attempt)
    requires i < |xs|
    ensures Sum(xs[i := x], w) + w(xs[i]) == Sum(xs, w) + w(x)
  {
    var n := |xs| - 1;
    if i < n {
      SumUpdate(xs[..n], w, i, x);
      assert xs[i := x][..n] == xs[..n][i := x];
    } else {
      assert xs[i := x][..n] == xs[..n];
    }
  }

  lemma SumAppend(xs: seq<Attempt>, w: Weight, x: Attempt)
    ensures Sum(xs + [x], w) == Sum(xs, w) + w(x)
  {
    assert (xs + [x])[..|xs|] == xs;
  }

  /** The attempt holds a slot. */
  function Slot(x: Attempt): nat {
    if x.phase.Ended? then 0 else 1
  }

  /** The attempt has passed its check and has not been admitted. */
  function Bound(x: Attempt): nat {
    if x.phase.Passed? || x.phase.Connecting? || x.phase.Serving? then 1 else 0
  }

  lemma {:induction false} BoundBelowSlots(xs: seq<Attempt>)
    ensures Sum(xs, Bound) <= Sum(xs, Slot)
  {
    if xs != [] { BoundBelowSlots(xs[..|xs| - 1]); }
  }

  /** A slot whose attempt has not passed yet leaves room for it. */
  lemma {:induction false} SlotLeft(xs: seq<Attempt>, a: nat)
    requires a < |xs| && Slot(xs[a]) == 1 && Bound(xs[a]) == 0
    ensures Sum(xs, Bound) < Sum(xs, Slot)
  {
    var n := |xs| - 1;
    if a < n { SlotLeft(xs[..n], a); } else { BoundBelowSlots(xs[..n]); }
  }

  // ---- The cap ----

  /** The least integer that is not below r. */
  function Ceiling(r: real): (c: int)
    ensures (c - 1) as real < r <= c as real
  {
    -((-r).Floor)
  }

  lemma WholeCeiling(r: real)
    requires r == r.Floor as real
    ensures Ceiling(r) as real == r
  {
    var c := Ceiling(r);
    assert (c - 1) as real < r.Floor as real <= c as real;
    assert c - 1 < r.Floor <= c;
  }

  lemma FractionCeiling(r: real)
    requires r != r.Floor as real
    ensures r < Ceiling(r) as real
  {
    FloorOfInteger(Ceiling(r));
  }

  lemma FloorOfInteger(c: int)
    ensures (c as real).Floor == c
  {
  }

  lemma WholeBound(n: int, r: real)
    requires r == r.Floor as real && n <= Ceiling(r)
    ensures n as real <= r
  {
    WholeCeiling(r);
    assert n as real <= Ceiling(r) as real;
  }

  /** Live sessions and attempts that have passed their check but are not yet admitted. */
  function Claimed(s: Table): nat {
    |s.sessions| + Sum(s.attempts, Bound)
  }

  predicate WithinCap(s: Table) {
    s.max.Finite? ==> Claimed(s) <= Ceiling(s.max.value)
  }

  /** Every slot counted is held by an attempt. */
  predicate SlotsMatch(s: Table) {
    s.pendingSessions == Sum(s.attempts, Slot)
  }

  predicate CapInv(s: Table) {
    Ranged(s) && ValidLimit(s.max) && SlotsMatch(s) && WithinCap(s)
  }

  lemma BelowLimit(n: int, max: Limit)
    requires max.Finite? && !AtLimit(n, max)
    ensures n + 1 <= Ceiling(max.value)
  {
  }

  lemma NotOverLimit(n: int, max: Limit)
    requires max.Finite? && !OverLimit(n, max)
    ensures n <= Ceiling(max.value)
  {
  }

  lemma PhaseSums(s: Table, a: nat, x: Attempt)
    requires a < |s.attempts|
    ensures Sum(s.attempts[a := x], Slot) + Slot(s.attempts[a]) == Sum(s.attempts, Slot) + Slot(x)
    ensures Sum(s.attempts[a := x], Bound) + Bound(s.attempts[a]) == Sum(s.attempts, Bound) + Bound(x)
  {
    SumUpdate(s.attempts, Slot, a, x);
    SumUpdate(s.attempts, Bound, a, x);
  }

  /** Initializes check, then count: fewer than the limit are claimed or pending, so one more fits. */
  lemma InitializeKeepsCap(s: Table)
    requires CapInv(s)
    ensures CapInv(Initialize(s))
  {
    var x := Attempt(Fresh, "", Passed, 0);
    SumAppend(s.attempts, Slot, x);
    SumAppend(s.attempts, Bound, x);
    BoundBelowSlots(s.attempts);
    if s.max.Finite? && !AtLimit(|s.sessions| + s.pendingSessions, s.max) {
      BelowLimit(|s.sessions| + s.pendingSessions, s.max);
    }
  }

  lemma RequestInRange(s: Table, id: string)
    requires Ranged(s)
    ensures Ranged(Request(s, id))
  {
  }

  /** A new resume takes a slot and claims nothing yet. */
  lemma RequestSums(s: Table, id: string)
    requires SlotsMatch(s)
    ensures SlotsMatch(Request(s, id)) && SameClaims(s, Request(s, id))
  {
    var x := Attempt(Resume, id, Looking, 0);
    SumAppend(s.attempts, Slot, x);
    SumAppend(s.attempts, Bound, x);
  }

  predicate SameClaims(s: Table, t: Table) {
    Claimed(t) == Claimed(s) && t.max == s.max
  }

  lemma ClaimsCarryOver(s: Table, t: Table)
    requires CapInv(s) && Ranged(t) && SlotsMatch(t) && SameClaims(s, t)
    ensures CapInv(t)
  {
  }

  lemma RequestKeepsCap(s: Table, id: string)
    requires CapInv(s)
    ensures CapInv(Request(s, id))
  {
    RequestInRange(s, id);
    RequestSums(s, id);
    ClaimsCarryOver(s, Request(s, id));
  }

  lemma FinishKeepsCap(s: Table, a: nat)
    requires CapInv(s) && a < |s.attempts| && !s.attempts[a].phase.Ended?
    ensures CapInv(Finish(s, a))
  {
    PhaseSums(s, a, s.attempts[a].(phase := if s.attempts[a].kind.Fresh? then Ended else Leaving));
  }

  lemma BuildKeepsCap(s: Table, a: nat, id: string)
    requires CapInv(s) && a < |s.attempts| && !s.attempts[a].phase.Ended?
    requires s.max.Finite? && Bound(s.attempts[a]) == 0 ==> Claimed(s) < Ceiling(s.max.value)
    ensures CapInv(Build(s, a, id))
  {
    PhaseSums(s, a, s.attempts[a].(id := id, phase := Connecting, server := |s.servers|));
  }

  /** Resumes count, then check: the attempt's own slot is among those counted, so the check leaves it room. */
  lemma FoundKeepsCap(s: Table, a: nat, record: bool)
    requires CapInv(s) && a < |s.attempts| && s.attempts[a].phase.Looking?
    ensures CapInv(Found(s, a, record))
  {
    if !record || OverLimit(|s.sessions| + s.pendingSessions, s.max) {
      FinishKeepsCap(s, a);
    } else {
      SlotLeft(s.attempts, a);
      if s.max.Finite? { NotOverLimit(|s.sessions| + s.pendingSessions, s.max); }
      BuildKeepsCap(s, a, s.attempts[a].id);
    }
  }

  lemma ConnectedKeepsCap(s: Table, a: nat, ok: bool)
    requires CapInv(s) && a < |s.attempts| && s.attempts[a].phase.Connecting?
    ensures CapInv(Connected(s, a, ok))
  {
    if ok {
      PhaseSums(s, a, s.attempts[a].(phase := Serving));
    } else if s.attempts[a].kind.Fresh? {
      var v := s.attempts[a].server;
      FinishKeepsCap(s.(servers := s.servers[v := s.servers[v].(owner := Nobody)]), a);
    } else {
      FinishKeepsCap(CloseOrphan(s, a), a);
    }
  }

  /** An admission turns a claim into a live session. */
  lemma AdmitKeepsCap(s: Table, a: nat)
    requires CapInv(s) && a < |s.attempts| && s.attempts[a].phase.Serving?
    ensures CapInv(Admit(s, a))
  {
    var x, t := s.attempts[a], Admit(s, a);
    PhaseSums(s, a, x.(phase := Admitted));
    KeysCount(s.sessions, x.id, Live(|s.admitted|, x.server));
    assert Claimed(t) <= Claimed(s);
    assert Ranged(t) by { AdmitInRange(s, a); }
  }

  lemma AdmitInRange(s: Table, a: nat)
    requires Ranged(s) && a < |s.attempts| && Holds(s.attempts[a])
    ensures Ranged(Admit(s, a))
  {
  }

  lemma KeysCount(m: map<string, Live>, k: string, v: Live)
    ensures |m[k := v]| == if k in m then |m| else |m| + 1
  {
    assert m[k := v].Keys == m.Keys + {k};
    assert |m.Keys| == |m| && |m[k := v].Keys| == |m[k := v]|;
  }

  lemma KeysRemoved(m: map<string, Live>, k: string)
    requires k in m
    ensures |m - {k}| == |m| - 1
  {
    assert (m - {k}).Keys == m.Keys - {k};
    assert |m.Keys| == |m| && |(m - {k}).Keys| == |m - {k}|;
  }

  lemma ReleaseKeepsCap(s: Table, a: nat)
    requires CapInv(s) && a < |s.attempts| && s.attempts[a].phase.Leaving?
    ensures CapInv(Release(s, a))
  {
    PhaseSums(s, a, s.attempts[a].(phase := Ended));
  }

  lemma DestroyKeepsCap(s: Table, id: string, keepRecord: bool)
    requires CapInv(s)
    ensures CapInv(Destroy(s, id, keepRecord))
  {
    if id in s.sessions { KeysRemoved(s.sessions, id); }
  }

  lemma StepKeepsCap(s: Table, step: Step)
    requires CapInv(s) && Enabled(s, step)
    ensures CapInv(Apply(s, step))
  {
    match step
    case InitializeArrives => InitializeKeepsCap(s);
    case IdentityRejected(a) => FinishKeepsCap(s, a);
    case ServerBuilt(a, id) => BuildKeepsCap(s, a, id);
    case RequestArrives(id) => RequestKeepsCap(s, id);
    case RegistryAnswers(a, record) => FoundKeepsCap(s, a, record);
    case ConnectSettles(a, ok) => ConnectedKeepsCap(s, a, ok);
    case SessionInitialized(a) => AdmitKeepsCap(s, a);
    case RequestServed(a) => FinishKeepsCap(CloseOrphan(s, a), a);
    case ResumeSettles(a) => ReleaseKeepsCap(s, a);
    case SessionEnds(id, keepRecord) => DestroyKeepsCap(s, id, keepRecord);
    case _ =>
  }

  lemma StepSameMax(s: Table, step: Step)
    requires Ranged(s) && Enabled(s, step)
    ensures Apply(s, step).max == s.max
  {
  }

  lemma {:induction false} RunSameMax(s: Table, steps: seq<Step>)
    requires Run(s, steps).Some?
    ensures Run(s, steps).value.max == s.max
    decreases |steps|
  {
    if steps != [] {
      StepSameMax(s, steps[0]);
      RunSameMax(Apply(s, steps[0]), steps[1..]);
    }
  }

  lemma {:induction false} RunKeepsCap(s: Table, steps: seq<Step>)
    requires CapInv(s) && Run(s, steps).Some?
    ensures CapInv(Run(s, steps).value)
    decreases |steps|
  {
    if steps != [] {
      StepKeepsCap(s, steps[0]);
      RunKeepsCap(Apply(s, steps[0]), steps[1..]);
    }
  }

  /** The limit is reached by whole sessions only: an integer, or no limit. */
  predicate WholeLimit(max: Limit) {
    max.Finite? ==> max.value == max.value.Floor as real
  }

  /** No more sessions are claimed than the limit says. */
  predicate Capped(s: Table) {
    s.max.Finite? ==> Claimed(s) as real <= s.max.value
  }

  /** In every reachable state: never more than the limit rounded up. */
  lemma SessionCap(max: Limit, registry: bool, steps: seq<Step>, s: Table)
    requires ValidLimit(max) && Run(Start(max, registry), steps) == Some(s)
    ensures max.Finite? ==> |s.sessions| + Sum(s.attempts, Bound) <= Ceiling(max.value)
    ensures WholeLimit(max) ==> Capped(s)
    ensures s.pendingSessions == Sum(s.attempts, Slot)
  {
    StartCap(max, registry);
    RunKeepsCap(Start(max, registry), steps);
    RunSameMax(Start(max, registry), steps);
    if max.Finite? && WholeLimit(max) { WholeBound(Claimed(s), max.value); }
  }

  lemma StartCap(max: Limit, registry: bool)
    requires ValidLimit(max)
    ensures CapInv(Start(max, registry))
  {
    if max.Finite? { CeilingNotNegative(max.value); }
  }

  lemma CeilingNotNegative(r: real)
    requires r >= 0.0
    ensures Ceiling(r) >= 0
  {
    assert Ceiling(r) as real >= 0.0;
  }

  /** When no attempt is open, no slot is counted: the counter returns to zero. */
  lemma SlotsReturn(max: Limit, registry: bool, steps: seq<Step>, s: Table)
    requires ValidLimit(max) && Run(Start(max, registry), steps) == Some(s)
    requires forall a | 0 <= a < |s.attempts| :: s.attempts[a].phase.Ended?
    ensures s.pendingSessions == 0
  {
    SessionCap(max, registry, steps, s);
    AllEnded(s.attempts);
  }

  lemma {:induction false} AllEnded(xs: seq<Attempt>)
    requires forall a | 0 <= a < |xs| :: xs[a].phase.Ended?
    ensures Sum(xs, Slot) == 0
  {
    if xs != [] { AllEnded(xs[..|xs| - 1]); }
  }

  // ---- The cap is exact only for whole limits ----

  /** n initializes, none of them further along. */
  function Burst(n: nat): seq<Step> {
    seq(n, _ => InitializeArrives)
  }

  lemma {:induction false} BurstClaims(s: Table, n: nat)
    requires CapInv(s) && s.sessions == map[] && s.max.Finite? && s.pendingSessions == Sum(s.attempts, Bound)
    requires s.pendingSessions + n <= Ceiling(s.max.value)
    ensures Run(s, Burst(n)).Some? && Claimed(Run(s, Burst(n)).value) == s.pendingSessions + n
    ensures Run(s, Burst(n)).value.max == s.max
    decreases n
  {
    if n > 0 {
      var t := Initialize(s);
      assert !AtLimit(s.pendingSessions, s.max);
      InitializeKeepsCap(s);
      SumAppend(s.attempts, Bound, Attempt(Fresh, "", Passed, 0));
      BurstClaims(t, n - 1);
      assert Burst(n)[1..] == Burst(n - 1) && Burst(n)[0] == InitializeArrives;
    }
  }

  /** For a limit that is not whole, enough simultaneous initializes overshoot it. */
  lemma FractionalLimitOvershoots(max: Limit, registry: bool) returns (steps: seq<Step>)
    requires ValidLimit(max) && !WholeLimit(max)
    ensures Run(Start(max, registry), steps).Some? && !Capped(Run(Start(max, registry), steps).value)
  {
    var s := Start(max, registry);
    StartCap(max, registry);
    CeilingNotNegative(max.value);
    FractionCeiling(max.value);
    var n: nat := Ceiling(max.value);
    steps := Burst(n);
    BurstClaims(s, n);
  }

  /** The limit holds in every run exactly when it is a whole number. */
  lemma CapHoldsExactlyForWholeLimits(max: Limit, registry: bool)
    requires ValidLimit(max)
    ensures WholeLimit(max)
       <==> forall steps: seq<Step> | Run(Start(max, registry), steps).Some? ::
              Capped(Run(Start(max, registry), steps).value)
  {
    if WholeLimit(max) {
      forall steps: seq<Step> | Run(Start(max, registry), steps).Some?
        ensures Capped(Run(Start(max, registry), steps).value)
      {
        SessionCap(max, registry, steps, Run(Start(max, registry), steps).value);
      }
    } else {
      var steps := FractionalLimitOvershoots(max, registry);
    }
  }
}
