/** The session table's books: every admission is torn down once, every id resumed once, no server left open. */
module SessionAccounts {
  import opened Text
  import opened SessionTable
  import opened SessionLimits

  // ---- What every step keeps ----

  /** The attempt may still admit its id. */
  predicate Claims(x: Attempt) {
    x.phase.Connecting? || x.phase.Serving? || x.phase.Looking?
  }

  predicate AttemptOk(s: Table, a: nat)
    requires a < |s.attempts|
  {
    var x := s.attempts[a];
    && (x.phase.Passed? ==> x.kind.Fresh?)
    && (x.phase.Looking? || x.phase.Leaving? ==> x.kind.Resume?)
    && (x.kind.Resume? && !x.phase.Ended? ==> x.id in s.resuming && s.resuming[x.id] == a)
    && (Claims(x) ==> x.id in s.ids && x.id !in s.sessions)
    && (x.phase.Connecting? || x.phase.Serving? ==>
          x.server < |s.servers| && s.servers[x.server] == Server(false, ByAttempt(a)))
    && (x.phase.Admitted? ==> x.server < |s.servers| && !s.servers[x.server].owner.ByAttempt?
                              && (s.servers[x.server].owner.BySession? ==> s.servers[x.server].owner.id == x.id))
  }

  /** No two attempts can admit one id. */
  predicate PairOk(xs: seq<Attempt>, a: nat, b: nat)
    requires a < |xs| && b < |xs|
  {
    a != b && Claims(xs[a]) && Claims(xs[b]) ==> xs[a].id != xs[b].id
  }

  predicate PairsOk(xs: seq<Attempt>) {
    forall a, b | 0 <= a < |xs| && 0 <= b < |xs| :: PairOk(xs, a, b)
  }

  predicate ResumingOk(s: Table, id: string)
    requires id in s.resuming
  {
    && s.resuming[id] < |s.attempts|
    && s.attempts[s.resuming[id]].kind.Resume? && s.attempts[s.resuming[id]].id == id
    && !s.attempts[s.resuming[id]].phase.Ended?
  }

  /** A live session has its own open server and its own admission. */
  predicate SessionOk(s: Table, id: string)
    requires id in s.sessions
  {
    var x := s.sessions[id];
    && id in s.ids
    && x.server < |s.servers| && s.servers[x.server] == Server(false, BySession(id))
    && x.number < |s.admitted| && s.admitted[x.number] == Alive(id)
  }

  predicate TeardownOk(s: Table, t: nat)
    requires t < |s.teardowns|
  {
    var x := s.teardowns[t];
    && x.hooks == (if x.phase.Deleting? then 0 else 1)
    && x.number < |s.admitted| && s.admitted[x.number] == TornDown(t)
    && x.server < |s.servers|
    && (if x.phase.Deleting? || x.phase.Hook? then s.servers[x.server].owner == ByTeardown(t)
        else s.servers[x.server].closed)
  }

  /** An open server has somebody who will close it, unless nobody is left who could. */
  predicate ServerOk(s: Table, v: nat)
    requires v < |s.servers|
  {
    s.servers[v].closed
    || match s.servers[v].owner
       case ByAttempt(a) =>
         && a < |s.attempts| && s.attempts[a].server == v
         && (s.attempts[a].phase.Connecting? || s.attempts[a].phase.Serving?)
       case BySession(id) => id in s.sessions && s.sessions[id].server == v
       case ByTeardown(t) =>
         && t < |s.teardowns| && s.teardowns[t].server == v
         && (s.teardowns[t].phase.Deleting? || s.teardowns[t].phase.Hook?)
       case Nobody => true
  }

  predicate OutcomeOk(s: Table, n: nat)
    requires n < |s.admitted|
  {
    match s.admitted[n]
    case Alive(id) => id in s.sessions && s.sessions[id].number == n
    case TornDown(t) => t < |s.teardowns| && s.teardowns[t].number == n
  }

  predicate AttemptsInv(s: Table) {
    && (forall a | 0 <= a < |s.attempts| :: AttemptOk(s, a))
    && PairsOk(s.attempts)
    && (forall id | id in s.resuming :: ResumingOk(s, id))
  }

  predicate SessionsInv(s: Table) {
    && (forall id | id in s.sessions :: SessionOk(s, id))
    && (forall t | 0 <= t < |s.teardowns| :: TeardownOk(s, t))
    && (forall n | 0 <= n < |s.admitted| :: OutcomeOk(s, n))
    && |s.admitted| == |s.sessions| + |s.teardowns|
  }

  predicate ServersInv(s: Table) {
    forall v | 0 <= v < |s.servers| :: ServerOk(s, v)
  }

  predicate Inv(s: Table) {
    Ranged(s) && AttemptsInv(s) && SessionsInv(s) && ServersInv(s)
  }

  // ---- Frames ----

  lemma PairsAppend(xs: seq<Attempt>, x: Attempt)
    requires PairsOk(xs) && forall a | 0 <= a < |xs| :: Claims(x) && Claims(xs[a]) ==> xs[a].id != x.id
    ensures PairsOk(xs + [x])
  {
    var ys := xs + [x];
    forall a, b | 0 <= a < |ys| && 0 <= b < |ys| ensures PairOk(ys, a, b) {
      if a < |xs| && b < |xs| { assert PairOk(xs, a, b); }
    }
  }

  lemma PairsUpdate(xs: seq<Attempt>, i: nat, x: Attempt)
    requires i < |xs| && PairsOk(xs)
    requires (Claims(x) ==> Claims(xs[i]) && x.id == xs[i].id)
          || forall a | 0 <= a < |xs| && a != i :: Claims(xs[a]) ==> xs[a].id != x.id
    ensures PairsOk(xs[i := x])
  {
    var ys := xs[i := x];
    forall a, b | 0 <= a < |ys| && 0 <= b < |ys| ensures PairOk(ys, a, b) { assert PairOk(xs, a, b); }
  }

  /** Sessions, teardowns and their servers are untouched. */
  lemma SessionsKeep(s: Table, t: Table)
    requires SessionsInv(s) && t.sessions == s.sessions && t.teardowns == s.teardowns && t.admitted == s.admitted
    requires s.ids <= t.ids
    requires |s.servers| <= |t.servers|
    requires forall v | 0 <= v < |s.servers| && !s.servers[v].owner.ByAttempt? :: t.servers[v] == s.servers[v]
    requires forall v | 0 <= v < |s.servers| && s.servers[v].closed :: t.servers[v].closed
    ensures SessionsInv(t)
  {
    forall id | id in t.sessions ensures SessionOk(t, id) { assert SessionOk(s, id); }
    forall k | 0 <= k < |t.teardowns| ensures TeardownOk(t, k) { assert TeardownOk(s, k); }
    forall n | 0 <= n < |t.admitted| ensures OutcomeOk(t, n) { assert OutcomeOk(s, n); }
  }

  predicate InHand(x: Attempt) {
    x.phase.Connecting? || x.phase.Serving?
  }

  lemma ServersKeep(s: Table, t: Table)
    requires ServersInv(s) && t.servers == s.servers && t.sessions == s.sessions && t.teardowns == s.teardowns
    requires |s.attempts| <= |t.attempts|
    requires forall a | 0 <= a < |s.attempts| && InHand(s.attempts[a]) ::
               InHand(t.attempts[a]) && t.attempts[a].server == s.attempts[a].server
    ensures ServersInv(t)
  {
    forall v | 0 <= v < |t.servers| ensures ServerOk(t, v) { assert ServerOk(s, v); }
  }

  // ---- Steps of attempts ----

  lemma InitializeKeeps(s: Table)
    requires Inv(s)
    ensures Inv(Initialize(s))
  {
    var t, x := Initialize(s), Attempt(Fresh, "", Passed, 0);
    if t != s {
      forall a | 0 <= a < |t.attempts| ensures AttemptOk(t, a) { if a < |s.attempts| { assert AttemptOk(s, a); } }
      PairsAppend(s.attempts, x);
      forall id | id in t.resuming ensures ResumingOk(t, id) { assert ResumingOk(s, id); }
      SessionsKeep(s, t);
      ServersKeep(s, t);
    }
  }

  /** A new resume is for an id that no attempt claims. */
  lemma RequestIsNew(s: Table, id: string, a: nat)
    requires Inv(s) && !Unborn(s, id) && a < |s.attempts| && id !in s.resuming && Claims(s.attempts[a])
    ensures s.attempts[a].id != id
  {
    assert AttemptOk(s, a);
    if s.attempts[a].kind.Fresh? { assert !UnbornAt(s.attempts[a], id); }
  }

  lemma RequestAttempts(s: Table, id: string)
    requires Inv(s) && !Unborn(s, id)
    ensures AttemptsInv(Request(s, id))
  {
    var t, n, x := Request(s, id), |s.attempts|, Attempt(Resume, id, Looking, 0);
    forall a | 0 <= a < |t.attempts| ensures AttemptOk(t, a) { if a < n { assert AttemptOk(s, a); } }
    if t.attempts != s.attempts {
      forall a | 0 <= a < n && Claims(s.attempts[a]) ensures s.attempts[a].id != id { RequestIsNew(s, id, a); }
      PairsAppend(s.attempts, x);
    }
    forall k | k in t.resuming ensures ResumingOk(t, k) { if k in s.resuming { assert ResumingOk(s, k); } }
  }

  lemma RequestKeeps(s: Table, id: string)
    requires Inv(s) && !Unborn(s, id)
    ensures Inv(Request(s, id))
  {
    RequestAttempts(s, id);
    RequestInRange(s, id);
    SessionsKeep(s, Request(s, id));
    ServersKeep(s, Request(s, id));
  }

  /** An attempt returns: what the others and the resume map say of it stays true. */
  lemma FinishAttempts(s: Table, a: nat)
    requires Ranged(s) && AttemptsInv(s) && a < |s.attempts| && !s.attempts[a].phase.Ended?
    ensures AttemptsInv(Finish(s, a))
  {
    var t := Finish(s, a);
    forall b | 0 <= b < |t.attempts| ensures AttemptOk(t, b) { assert AttemptOk(s, b); }
    PairsUpdate(s.attempts, a, t.attempts[a]);
    forall id | id in t.resuming ensures ResumingOk(t, id) { assert ResumingOk(s, id); }
  }

  lemma FinishSessions(s: Table, a: nat)
    requires SessionsInv(s) && ServersInv(s) && a < |s.attempts| && !InHand(s.attempts[a])
    ensures SessionsInv(Finish(s, a)) && ServersInv(Finish(s, a))
  {
    SessionsKeep(s, Finish(s, a));
    ServersKeep(s, Finish(s, a));
  }

  lemma FinishInRange(s: Table, a: nat)
    requires Ranged(s) && a < |s.attempts|
    ensures Ranged(Finish(s, a))
  {
  }

  /** An attempt with no server in hand returns: its slot goes back, now or when its promise settles. */
  lemma FinishKeeps(s: Table, a: nat)
    requires Inv(s) && a < |s.attempts| && !InHand(s.attempts[a]) && !s.attempts[a].phase.Ended?
    ensures Inv(Finish(s, a))
  {
    FinishAttempts(s, a);
    FinishSessions(s, a);
    FinishInRange(s, a);
  }

  lemma ReleaseKeeps(s: Table, a: nat)
    requires Inv(s) && a < |s.attempts| && s.attempts[a].phase.Leaving?
    ensures Inv(Release(s, a))
  {
    var t := Release(s, a);
    assert AttemptOk(s, a);
    forall b | 0 <= b < |t.attempts| ensures AttemptOk(t, b) { assert AttemptOk(s, b); }
    PairsUpdate(s.attempts, a, t.attempts[a]);
    forall id | id in t.resuming ensures ResumingOk(t, id) { assert ResumingOk(s, id); }
    SessionsKeep(s, t);
    ServersKeep(s, t);
  }

  lemma BuildKeeps(s: Table, a: nat, id: string)
    requires Inv(s) && a < |s.attempts| && !Holds(s.attempts[a]) && !s.attempts[a].phase.Ended?
    requires !s.attempts[a].phase.Leaving?
    requires if s.attempts[a].kind.Fresh? then id !in s.ids else id == s.attempts[a].id && s.attempts[a].phase.Looking?
    ensures Inv(Build(s, a, id))
  {
    var t := Build(s, a, id);
    assert AttemptOk(s, a);
    assert id in s.sessions ==> SessionOk(s, id);
    forall b | 0 <= b < |t.attempts| ensures AttemptOk(t, b) { assert AttemptOk(s, b); }
    forall b | 0 <= b < |s.attempts| && b != a && s.attempts[a].kind.Fresh? && Claims(s.attempts[b])
      ensures s.attempts[b].id != id
    {
      assert AttemptOk(s, b);
    }
    PairsUpdate(s.attempts, a, t.attempts[a]);
    forall k | k in t.resuming ensures ResumingOk(t, k) { assert ResumingOk(s, k); }
    SessionsKeep(s, t);
    forall v | 0 <= v < |t.servers| ensures ServerOk(t, v) { if v < |s.servers| { assert ServerOk(s, v); } }
  }

  lemma FoundKeeps(s: Table, a: nat, record: bool)
    requires Inv(s) && a < |s.attempts| && s.attempts[a].phase.Looking?
    ensures Inv(Found(s, a, record))
  {
    assert AttemptOk(s, a);
    if !record || OverLimit(|s.sessions| + s.pendingSessions, s.max) {
      FinishKeeps(s, a);
    } else {
      BuildKeeps(s, a, s.attempts[a].id);
    }
  }

  lemma ServingKeeps(s: Table, a: nat)
    requires Inv(s) && a < |s.attempts| && s.attempts[a].phase.Connecting?
    ensures Inv(SetPhase(s, a, Serving))
  {
    var t := SetPhase(s, a, Serving);
    forall b | 0 <= b < |t.attempts| ensures AttemptOk(t, b) { assert AttemptOk(s, b); }
    PairsUpdate(s.attempts, a, t.attempts[a]);
    forall id | id in t.resuming ensures ResumingOk(t, id) { assert ResumingOk(s, id); }
    SessionsKeep(s, t);
    ServersKeep(s, t);
  }

  /** An attempt whose server never served a session: the server is closed, or given up, as the attempt returns. */
  lemma DropKeeps(s: Table, a: nat, server: Server)
    requires Inv(s) && a < |s.attempts| && InHand(s.attempts[a])
    requires s.attempts[a].server < |s.servers| && (server.closed || server.owner.Nobody?)
    ensures Inv(Finish(s.(servers := s.servers[s.attempts[a].server := server]), a))
  {
    var v, t := s.attempts[a].server, Finish(s.(servers := s.servers[s.attempts[a].server := server]), a);
    DropAttempts(s, a, server);
    DropSessions(s, a, server);
    DropServers(s, a, server);
    FinishInRange(s.(servers := s.servers[v := server]), a);
  }

  lemma DropSessions(s: Table, a: nat, server: Server)
    requires Inv(s) && a < |s.attempts| && InHand(s.attempts[a]) && s.attempts[a].server < |s.servers|
    ensures SessionsInv(Finish(s.(servers := s.servers[s.attempts[a].server := server]), a))
  {
    assert AttemptOk(s, a);
    SessionsKeep(s, Finish(s.(servers := s.servers[s.attempts[a].server := server]), a));
  }

  lemma DropServers(s: Table, a: nat, server: Server)
    requires Inv(s) && a < |s.attempts| && InHand(s.attempts[a])
    requires s.attempts[a].server < |s.servers| && (server.closed || server.owner.Nobody?)
    ensures ServersInv(Finish(s.(servers := s.servers[s.attempts[a].server := server]), a))
  {
    var t := Finish(s.(servers := s.servers[s.attempts[a].server := server]), a);
    assert AttemptOk(s, a);
    forall w | 0 <= w < |t.servers| ensures ServerOk(t, w) { assert ServerOk(s, w); }
  }

  lemma DropAttempts(s: Table, a: nat, server: Server)
    requires Inv(s) && a < |s.attempts| && InHand(s.attempts[a]) && s.attempts[a].server < |s.servers|
    ensures AttemptsInv(Finish(s.(servers := s.servers[s.attempts[a].server := server]), a))
  {
    var t := Finish(s.(servers := s.servers[s.attempts[a].server := server]), a);
    forall b | 0 <= b < |t.attempts| ensures AttemptOk(t, b) { DropAttempt(s, a, server, b); }
    PairsUpdate(s.attempts, a, t.attempts[a]);
    forall id | id in t.resuming ensures ResumingOk(t, id) { assert ResumingOk(s, id); }
  }

  lemma DropAttempt(s: Table, a: nat, server: Server, b: nat)
    requires Inv(s) && a < |s.attempts| && InHand(s.attempts[a]) && s.attempts[a].server < |s.servers|
    requires b < |s.attempts|
    ensures b < |Finish(s.(servers := s.servers[s.attempts[a].server := server]), a).attempts|
    ensures AttemptOk(Finish(s.(servers := s.servers[s.attempts[a].server := server]), a), b)
  {
    assert AttemptOk(s, a) && AttemptOk(s, b);
  }

  lemma ConnectedKeeps(s: Table, a: nat, ok: bool)
    requires Inv(s) && a < |s.attempts| && s.attempts[a].phase.Connecting?
    ensures Inv(Connected(s, a, ok))
  {
    assert AttemptOk(s, a);
    var v := s.attempts[a].server;
    if ok {
      ServingKeeps(s, a);
    } else if s.attempts[a].kind.Fresh? {
      DropKeeps(s, a, s.servers[v].(owner := Nobody));
    } else {
      DropKeeps(s, a, s.servers[v].(closed := true));
    }
  }

  lemma AdmitKeeps(s: Table, a: nat)
    requires Inv(s) && a < |s.attempts| && s.attempts[a].phase.Serving?
    ensures Inv(Admit(s, a))
  {
    AdmitAttempts(s, a);
    AdmitSessions(s, a);
    AdmitServers(s, a);
    AdmitInRange(s, a);
  }

  lemma AdmitAttempts(s: Table, a: nat)
    requires Inv(s) && a < |s.attempts| && s.attempts[a].phase.Serving?
    ensures AttemptsInv(Admit(s, a))
  {
    var t := Admit(s, a);
    assert AttemptOk(s, a);
    forall b | 0 <= b < |t.attempts| ensures AttemptOk(t, b) {
      assert AttemptOk(s, b) && PairOk(s.attempts, a, b);
    }
    PairsUpdate(s.attempts, a, t.attempts[a]);
    forall id | id in t.resuming ensures ResumingOk(t, id) { assert ResumingOk(s, id); }
  }

  lemma AdmitSessions(s: Table, a: nat)
    requires Inv(s) && a < |s.attempts| && s.attempts[a].phase.Serving?
    ensures SessionsInv(Admit(s, a))
  {
    var t, x := Admit(s, a), s.attempts[a];
    assert AttemptOk(s, a);
    forall id | id in t.sessions ensures SessionOk(t, id) { if id != x.id { assert SessionOk(s, id); } }
    forall k | 0 <= k < |t.teardowns| ensures TeardownOk(t, k) { assert TeardownOk(s, k); }
    forall n | 0 <= n < |t.admitted| ensures OutcomeOk(t, n) { if n < |s.admitted| { assert OutcomeOk(s, n); } }
    KeysCount(s.sessions, x.id, Live(|s.admitted|, x.server));
  }

  lemma AdmitServers(s: Table, a: nat)
    requires Inv(s) && a < |s.attempts| && s.attempts[a].phase.Serving?
    ensures ServersInv(Admit(s, a))
  {
    var t := Admit(s, a);
    assert AttemptOk(s, a);
    forall v | 0 <= v < |t.servers| ensures ServerOk(t, v) { assert ServerOk(s, v); }
  }

  /** Closing a server that has left its attempt and serves no live session. */
  lemma CloseKeeps(s: Table, v: nat)
    requires Inv(s) && v < |s.servers| && !s.servers[v].owner.ByAttempt?
    requires !(s.servers[v].owner.BySession? && s.servers[v].owner.id in s.sessions)
    ensures Inv(CloseServer(s, v))
  {
    var t := CloseServer(s, v);
    forall a | 0 <= a < |t.attempts| ensures AttemptOk(t, a) { assert AttemptOk(s, a); }
    forall id | id in t.resuming ensures ResumingOk(t, id) { assert ResumingOk(s, id); }
    forall id | id in t.sessions ensures SessionOk(t, id) { assert SessionOk(s, id); }
    forall k | 0 <= k < |t.teardowns| ensures TeardownOk(t, k) { assert TeardownOk(s, k); }
    forall n | 0 <= n < |t.admitted| ensures OutcomeOk(t, n) { assert OutcomeOk(s, n); }
    forall w | 0 <= w < |t.servers| ensures ServerOk(t, w) { assert ServerOk(s, w); }
  }

  lemma ServedKeeps(s: Table, a: nat)
    requires Inv(s) && a < |s.attempts| && (s.attempts[a].phase.Serving? || s.attempts[a].phase.Admitted?)
    ensures Inv(Served(s, a))
  {
    assert AttemptOk(s, a);
    var v := s.attempts[a].server;
    if s.attempts[a].phase.Serving? {
      DropKeeps(s, a, s.servers[v].(closed := true));
    } else if s.attempts[a].id in s.sessions {
      FinishKeeps(s, a);
    } else {
      CloseKeeps(s, v);
      FinishKeeps(CloseServer(s, v), a);
    }
  }

  // ---- Steps of teardowns ----

  lemma DestroyKeeps(s: Table, id: string, keepRecord: bool)
    requires Inv(s)
    ensures Inv(Destroy(s, id, keepRecord))
  {
    if id in s.sessions {
      DestroyAttempts(s, id, keepRecord);
      DestroySessions(s, id, keepRecord);
      DestroyServers(s, id, keepRecord);
      assert Ranged(Destroy(s, id, keepRecord)) by { DestroyInRange(s, id, keepRecord); }
    }
  }

  lemma DestroyInRange(s: Table, id: string, keepRecord: bool)
    requires Ranged(s)
    ensures Ranged(Destroy(s, id, keepRecord))
  {
  }

  lemma DestroyAttempts(s: Table, id: string, keepRecord: bool)
    requires Inv(s) && id in s.sessions
    ensures AttemptsInv(Destroy(s, id, keepRecord))
  {
    var t := Destroy(s, id, keepRecord);
    assert SessionOk(s, id);
    forall a | 0 <= a < |t.attempts| ensures AttemptOk(t, a) { assert AttemptOk(s, a); }
    forall k | k in t.resuming ensures ResumingOk(t, k) { assert ResumingOk(s, k); }
  }

  lemma DestroySessions(s: Table, id: string, keepRecord: bool)
    requires Inv(s) && id in s.sessions
    ensures SessionsInv(Destroy(s, id, keepRecord))
  {
    var t := Destroy(s, id, keepRecord);
    assert SessionOk(s, id);
    forall k | k in t.sessions ensures SessionOk(t, k) { assert SessionOk(s, k); }
    forall k | 0 <= k < |t.teardowns| ensures TeardownOk(t, k) { if k < |s.teardowns| { assert TeardownOk(s, k); } }
    forall n | 0 <= n < |t.admitted| ensures OutcomeOk(t, n) { assert OutcomeOk(s, n); }
    KeysRemoved(s.sessions, id);
  }

  lemma DestroyServers(s: Table, id: string, keepRecord: bool)
    requires Inv(s) && id in s.sessions
    ensures ServersInv(Destroy(s, id, keepRecord))
  {
    var t := Destroy(s, id, keepRecord);
    assert SessionOk(s, id);
    forall v | 0 <= v < |t.servers| ensures ServerOk(t, v) { assert ServerOk(s, v); }
  }

  lemma TeardownMoves(s: Table, k: nat, x: Teardown)
    requires Inv(s) && k < |s.teardowns| && x.number == s.teardowns[k].number && x.server == s.teardowns[k].server
    requires x.hooks == (if x.phase.Deleting? then 0 else 1)
    requires if x.phase.Deleting? || x.phase.Hook? then s.teardowns[k].phase.Deleting? || s.teardowns[k].phase.Hook?
             else s.servers[x.server].closed
    ensures Inv(s.(teardowns := s.teardowns[k := x]))
  {
    var t := s.(teardowns := s.teardowns[k := x]);
    assert TeardownOk(s, k);
    forall a | 0 <= a < |t.attempts| ensures AttemptOk(t, a) { assert AttemptOk(s, a); }
    forall id | id in t.resuming ensures ResumingOk(t, id) { assert ResumingOk(s, id); }
    forall id | id in t.sessions ensures SessionOk(t, id) { assert SessionOk(s, id); }
    forall j | 0 <= j < |t.teardowns| ensures TeardownOk(t, j) { assert TeardownOk(s, j); }
    forall n | 0 <= n < |t.admitted| ensures OutcomeOk(t, n) { assert OutcomeOk(s, n); }
    forall v | 0 <= v < |t.servers| ensures ServerOk(t, v) { assert ServerOk(s, v); }
  }

  lemma HookKeeps(s: Table, k: nat)
    requires Inv(s) && k < |s.teardowns| && s.teardowns[k].phase.Hook?
    ensures Inv(HookSettled(s, k))
  {
    var v := s.teardowns[k].server;
    assert TeardownOk(s, k);
    CloseKeeps(s, v);
    TeardownMoves(CloseServer(s, v), k, s.teardowns[k].(phase := Closing));
  }

  // ---- Runs ----

  lemma StepKeeps(s: Table, step: Step)
    requires Inv(s) && Enabled(s, step)
    ensures Inv(Apply(s, step))
  {
    match step
    case InitializeArrives => InitializeKeeps(s);
    case IdentityRejected(a) => FinishKeeps(s, a);
    case ServerBuilt(a, id) => BuildKeeps(s, a, id);
    case RequestArrives(id) => RequestKeeps(s, id);
    case RegistryAnswers(a, record) => FoundKeeps(s, a, record);
    case ConnectSettles(a, ok) => ConnectedKeeps(s, a, ok);
    case SessionInitialized(a) => AdmitKeeps(s, a);
    case RequestServed(a) => ServedKeeps(s, a);
    case ResumeSettles(a) => ReleaseKeeps(s, a);
    case SessionEnds(id, keepRecord) => DestroyKeeps(s, id, keepRecord);
    case RecordDropped(k) =>
      assert TeardownOk(s, k);
      TeardownMoves(s, k, s.teardowns[k].(phase := Hook, hooks := s.teardowns[k].hooks + 1));
    case HookReturns(k) => HookKeeps(s, k);
    case ServerCloses(k) =>
      assert TeardownOk(s, k);
      TeardownMoves(s, k, s.teardowns[k].(phase := Done));
  }

  lemma {:induction false} RunKeeps(s: Table, steps: seq<Step>)
    requires Inv(s) && Run(s, steps).Some?
    ensures Inv(Run(s, steps).value)
    decreases |steps|
  {
    if steps != [] {
      StepKeeps(s, steps[0]);
      RunKeeps(Apply(s, steps[0]), steps[1..]);
    }
  }

  /** A state some run reaches from the empty table. */
  ghost predicate Reached(max: Limit, registry: bool, steps: seq<Step>, s: Table) {
    Run(Start(max, registry), steps) == Some(s)
  }

  lemma ReachedInv(max: Limit, registry: bool, steps: seq<Step>, s: Table)
    requires Reached(max, registry, steps, s)
    ensures Inv(s)
  {
    RunKeeps(Start(max, registry), steps);
  }

  /**
   The books balance: admissions are the live sessions and the started teardowns, each admission being
   exactly one of the two, and the close hook has run once in every teardown that is past its record,
   however often and by whatever way the session's end was asked for.
   */
  lemma AdmissionsBalance(max: Limit, registry: bool, steps: seq<Step>, s: Table)
    requires Reached(max, registry, steps, s)
    ensures |s.admitted| == |s.sessions| + |s.teardowns|
    ensures forall n | 0 <= n < |s.admitted| :: OutcomeOk(s, n)
    ensures forall t, u | 0 <= t < u < |s.teardowns| :: s.teardowns[t].number != s.teardowns[u].number
    ensures forall id, t | id in s.sessions && 0 <= t < |s.teardowns| :: s.sessions[id].number != s.teardowns[t].number
    ensures forall t | 0 <= t < |s.teardowns| :: s.teardowns[t].hooks == if s.teardowns[t].phase.Deleting? then 0 else 1
  {
    ReachedInv(max, registry, steps, s);
    forall t, u | 0 <= t < u < |s.teardowns| ensures s.teardowns[t].number != s.teardowns[u].number {
      assert TeardownOk(s, t) && TeardownOk(s, u);
    }
    forall id, t | id in s.sessions && 0 <= t < |s.teardowns| ensures s.sessions[id].number != s.teardowns[t].number {
      assert SessionOk(s, id) && TeardownOk(s, t);
    }
    forall t | 0 <= t < |s.teardowns| ensures s.teardowns[t].hooks == if s.teardowns[t].phase.Deleting? then 0 else 1 {
      assert TeardownOk(s, t);
    }
  }

  /** At most one resume per id is in flight, and none for an id that is live. */
  lemma OneResumePerId(max: Limit, registry: bool, steps: seq<Step>, s: Table, a: nat, b: nat)
    requires Reached(max, registry, steps, s) && a < |s.attempts| && b < |s.attempts|
    requires s.attempts[a].kind.Resume? && s.attempts[b].kind.Resume? && s.attempts[a].id == s.attempts[b].id
    requires !s.attempts[a].phase.Ended? && !s.attempts[b].phase.Ended?
    ensures a == b
    ensures Claims(s.attempts[a]) ==> s.attempts[a].id !in s.sessions
  {
    ReachedInv(max, registry, steps, s);
    assert AttemptOk(s, a) && AttemptOk(s, b);
  }

  predicate Quiet(s: Table) {
    && (forall a | 0 <= a < |s.attempts| :: s.attempts[a].phase.Ended?)
    && (forall t | 0 <= t < |s.teardowns| :: s.teardowns[t].phase.Done?)
  }

  /**
   No proxy server outlives its use: a live session's server is open, and when every attempt and teardown
   has finished, an open server is a live session's, except the servers of fresh attempts whose connect
   failed, which nobody closes.
   */
  lemma ServersAccountedFor(max: Limit, registry: bool, steps: seq<Step>, s: Table, v: nat)
    requires Reached(max, registry, steps, s) && v < |s.servers|
    ensures forall id | id in s.sessions ::
              s.sessions[id].server < |s.servers| && !s.servers[s.sessions[id].server].closed
    ensures Quiet(s) && !s.servers[v].closed ==>
              s.servers[v].owner.Nobody? || (s.servers[v].owner.BySession? && s.servers[v].owner.id in s.sessions
                                             && s.sessions[s.servers[v].owner.id].server == v)
  {
    ReachedInv(max, registry, steps, s);
    assert ServerOk(s, v);
    forall id | id in s.sessions
      ensures s.sessions[id].server < |s.servers| && !s.servers[s.sessions[id].server].closed
    {
      assert SessionOk(s, id);
    }
  }

  predicate Ownerless(s: Table, v: nat) {
    v < |s.servers| && s.servers[v].owner.Nobody?
  }

  lemma ConnectOwners(s: Table, a: nat, ok: bool, v: nat)
    requires a < |s.attempts| && s.attempts[a].server < |s.servers| && !Ownerless(s, v)
    ensures Ownerless(Connected(s, a, ok), v) <==> !ok && s.attempts[a].kind.Fresh? && s.attempts[a].server == v
  {
  }

  lemma EndOwners(s: Table, id: string, keepRecord: bool, v: nat)
    requires Ranged(s) && !Ownerless(s, v)
    ensures !Ownerless(Destroy(s, id, keepRecord), v)
  {
  }

  lemma AttemptOwners(s: Table, step: Step, v: nat)
    requires Ranged(s) && Enabled(s, step) && !Ownerless(s, v)
    requires step.ServerBuilt? || step.RegistryAnswers? || step.SessionInitialized? || step.RequestServed?
    ensures !Ownerless(Apply(s, step), v)
  {
  }

  lemma OtherOwners(s: Table, step: Step, v: nat)
    requires Ranged(s) && Enabled(s, step) && !Ownerless(s, v)
    requires !step.ServerBuilt? && !step.RegistryAnswers? && !step.SessionInitialized? && !step.RequestServed?
    requires !step.ConnectSettles? && !step.SessionEnds?
    ensures !Ownerless(Apply(s, step), v)
  {
  }

  /** A server is given up by one step only: a fresh attempt whose connect fails. */
  lemma GivenUpExactlyWhen(s: Table, step: Step, v: nat)
    requires Ranged(s) && Enabled(s, step) && !Ownerless(s, v)
    ensures Ownerless(Apply(s, step), v)
       <==> step.ConnectSettles? && !step.ok && s.attempts[step.a].kind.Fresh? && s.attempts[step.a].server == v
  {
    if step.ConnectSettles? {
      ConnectOwners(s, step.a, step.ok, v);
    } else if step.SessionEnds? {
      EndOwners(s, step.id, step.keepRecord, v);
    } else if step.ServerBuilt? || step.RegistryAnswers? || step.SessionInitialized? || step.RequestServed? {
      AttemptOwners(s, step, v);
    } else {
      OtherOwners(s, step, v);
    }
  }

  lemma RunThree(s: Table, a: Step, b: Step, c: Step, s1: Table, s2: Table, t: Table)
    requires Ranged(s) && Enabled(s, a) && Apply(s, a) == s1
    requires Ranged(s1) && Enabled(s1, b) && Apply(s1, b) == s2
    requires Ranged(s2) && Enabled(s2, c) && Apply(s2, c) == t
    ensures Run(s, [a, b, c]) == Some(t)
  {
    assert [a, b, c][1..] == [b, c] && [b, c][1..] == [c] && [c][1..] == [];
    assert Run(t, []) == Some(t);
    assert Run(s2, [c]) == Some(t);
    assert Run(s1, [b, c]) == Some(t);
  }

  /** Such a server stays open after everything has come to rest. */
  lemma FailedConnectLeavesServerOpen(max: Limit, registry: bool)
    requires ValidLimit(max) && !AtLimit(0, max)
    ensures var r := Run(Start(max, registry), [InitializeArrives, ServerBuilt(0, "x"), ConnectSettles(0, false)]);
            && r.Some? && Quiet(r.value) && r.value.sessions == map[]
            && |r.value.servers| == 1 && !r.value.servers[0].closed
  {
    var s0 := Start(max, registry);
    var s1 := Initialize(s0);
    var s2 := Build(s1, 0, "x");
    var s3 := Connected(s2, 0, false);
    RunThree(s0, InitializeArrives, ServerBuilt(0, "x"), ConnectSettles(0, false), s1, s2, s3);
  }
}
