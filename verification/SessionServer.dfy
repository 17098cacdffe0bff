/** The HTTP server's session table as the object it is, its maps and counter updated in place. */
module SessionServer {
  import opened Text
  import opened SessionTable
  import opened SessionLimits
  import opened SessionAccounts
  import opened SessionShutdown

  /** What a resume hears from the registry: no live record, no room, or the server built for it. */
  datatype RegistryAnswer = Unknown | Refused | Built(server: nat)

  lemma LookingIsResume(s: Table, a: nat)
    requires Sound(s) && a < |s.attempts|
    ensures s.attempts[a].phase.Looking? ==> s.attempts[a].kind.Resume?
  {
    assert AttemptOk(s, a);
  }

  lemma InHandIsNew(s: Table, a: nat)
    requires Sound(s) && a < |s.attempts| && (s.attempts[a].phase.Connecting? || s.attempts[a].phase.Serving?)
    ensures s.attempts[a].id !in s.sessions && s.attempts[a].server < |s.servers|
    ensures s.servers[s.attempts[a].server] == Server(false, ByAttempt(a))
  {
    assert AttemptOk(s, a);
  }

  /** Each method is one await-free segment; attempts, teardowns and proxy servers are named by their place. */
  class HttpSessions {
    const max: Limit
    const registry: bool
    var sessions: map<string, Live>
    var resuming: map<string, nat>
    var pendingSessions: int
    var shuttingDown: bool
    var attempts: seq<Attempt>
    var teardowns: seq<Teardown>
    var servers: seq<Server>
    var admitted: seq<Outcome>
    ghost var ids: set<string>

    ghost function View(): Table
      reads this
    {
      Table(max, registry, sessions, resuming, pendingSessions, attempts, teardowns, servers, admitted, ids)
    }

    ghost predicate Valid()
      reads this
    {
      Sound(View())
    }

    constructor (max: Limit, registry: bool)
      requires ValidLimit(max)
      ensures View() == Start(max, registry) && Valid() && !shuttingDown
    {
      this.max, this.registry := max, registry;
      sessions, resuming, pendingSessions, shuttingDown := map[], map[], 0, false;
      attempts, teardowns, servers, admitted, ids := [], [], [], [], {};
      new;
      StartCap(max, registry);
    }

    /** A session-less POST; false is the 503. */
    method Initialize() returns (accepted: bool)
      requires Valid()
      modifies this
      ensures Valid() && View() == Apply(old(View()), InitializeArrives) && shuttingDown == old(shuttingDown)
      ensures accepted <==> !(max.Finite? && (|old(sessions)| + old(pendingSessions)) as real >= max.value)
      ensures accepted ==>
                pendingSessions == old(pendingSessions) + 1
                && attempts == old(attempts) + [SessionTable.Attempt(Fresh, "", Passed, 0)]
      ensures !accepted ==> pendingSessions == old(pendingSessions) && attempts == old(attempts)
    {
      StepIsSound(View(), InitializeArrives);
      if AtLimit(|sessions| + pendingSessions, max) {
        return false;
      }
      pendingSessions := pendingSessions + 1;
      attempts := attempts + [Attempt(Fresh, "", Passed, 0)];
      return true;
    }

    /** The attempt a request for an id starts or joins, or None when it is routed or unknown. */
    method FindOrResume(id: string) returns (attempt: Option<nat>)
      requires forall k | k in resuming :: resuming[k] < |attempts|
      modifies this
      ensures View() == SessionTable.Request(old(View()), id) && shuttingDown == old(shuttingDown)
      ensures attempt == if id in sessions || !registry then None else Some(resuming[id])
      ensures attempt.Some? ==> id in resuming
    {
      ids := ids + {id};
      if id in sessions || !registry {
        return None;
      }
      if id in resuming {
        return Some(resuming[id]);
      }
      attempt := Some(|attempts|);
      pendingSessions := pendingSessions + 1;
      resuming := resuming[id := |attempts|];
      attempts := attempts + [Attempt(Resume, id, Looking, 0)];
    }

    method Request(id: string) returns (attempt: Option<nat>)
      requires Valid() && Enabled(View(), RequestArrives(id))
      modifies this
      ensures Valid() && View() == Apply(old(View()), RequestArrives(id)) && shuttingDown == old(shuttingDown)
      ensures attempt.Some? <==> id !in sessions && registry
      ensures attempt.Some? ==> id in resuming && resuming[id] == attempt.value
      ensures if attempt.Some? && id !in old(resuming) then
                && attempt.value == |old(attempts)| && pendingSessions == old(pendingSessions) + 1
                && attempts == old(attempts) + [SessionTable.Attempt(Resume, id, Looking, 0)]
              else pendingSessions == old(pendingSessions) && attempts == old(attempts)
    {
      StepIsSound(View(), RequestArrives(id));
      attempt := FindOrResume(id);
    }

    /** An attempt returns; a fresh one gives its slot back in the same segment. */
    method Returns(a: nat)
      requires a < |attempts|
      modifies `attempts, `pendingSessions
      ensures View() == Finish(old(View()), a)
    {
      if attempts[a].kind.Fresh? {
        attempts := attempts[a := attempts[a].(phase := Ended)];
        pendingSessions := pendingSessions - 1;
      } else {
        attempts := attempts[a := attempts[a].(phase := Leaving)];
      }
    }

    method RejectIdentity(a: nat)
      requires Valid() && Enabled(View(), IdentityRejected(a))
      modifies this
      ensures Valid() && View() == Apply(old(View()), IdentityRejected(a)) && shuttingDown == old(shuttingDown)
    {
      StepIsSound(View(), IdentityRejected(a));
      Returns(a);
    }

    method BuildServer(a: nat, id: string)
      requires a < |attempts|
      modifies `attempts, `servers, `ids
      ensures View() == Build(old(View()), a, id)
    {
      attempts := attempts[a := attempts[a].(id := id, phase := Connecting, server := |servers|)];
      servers := servers + [Server(false, ByAttempt(a))];
      ids := ids + {id};
    }

    method ResolveIdentity(a: nat, id: string)
      requires Valid() && Enabled(View(), ServerBuilt(a, id))
      modifies this
      ensures Valid() && View() == Apply(old(View()), ServerBuilt(a, id)) && shuttingDown == old(shuttingDown)
    {
      StepIsSound(View(), ServerBuilt(a, id));
      BuildServer(a, id);
    }

    /**
     Unknown exactly for an id without a live record, refused exactly over the limit; neither builds anything,
     and otherwise a server is built under the attempt's own id.
     */
    method AnswerRegistry(a: nat, record: bool) returns (answer: RegistryAnswer)
      requires Valid() && Enabled(View(), RegistryAnswers(a, record))
      modifies this
      ensures Valid() && View() == Apply(old(View()), RegistryAnswers(a, record)) && shuttingDown == old(shuttingDown)
      ensures answer.Unknown? <==> !record
      ensures answer.Refused? <==>
                record && max.Finite? && (|old(sessions)| + old(pendingSessions)) as real > max.value
      ensures sessions == old(sessions) && pendingSessions == old(pendingSessions) && resuming == old(resuming)
      ensures a < |old(attempts)|
      ensures !answer.Built? ==>
                servers == old(servers) && attempts == old(attempts)[a := old(attempts)[a].(phase := Leaving)]
      ensures answer.Built? ==>
                && answer.server == |old(servers)| && servers == old(servers) + [Server(false, ByAttempt(a))]
                && attempts == old(attempts)[a := old(attempts)[a].(phase := Connecting, server := answer.server)]
    {
      StepIsSound(View(), RegistryAnswers(a, record));
      LookingIsResume(View(), a);
      if !record {
        Returns(a);
        return Unknown;
      }
      if OverLimit(|sessions| + pendingSessions, max) {
        Returns(a);
        return Refused;
      }
      answer := Built(|servers|);
      BuildServer(a, attempts[a].id);
    }

    method CloseUnlessLive(a: nat)
      requires a < |attempts| && attempts[a].server < |servers|
      modifies `servers
      ensures View() == CloseOrphan(old(View()), a)
    {
      if attempts[a].id !in sessions {
        var v := attempts[a].server;
        servers := servers[v := servers[v].(closed := true)];
      }
    }

    /** What a connect leads to: serving, or the end of the attempt. */
    method ReadsConnect(a: nat, ok: bool)
      requires a < |attempts| && attempts[a].server < |servers|
      modifies this
      ensures View() == Connected(old(View()), a, ok) && shuttingDown == old(shuttingDown)
    {
      if ok {
        attempts := attempts[a := attempts[a].(phase := Serving)];
        return;
      }
      if attempts[a].kind.Fresh? {
        var v := attempts[a].server;
        servers := servers[v := servers[v].(owner := Nobody)];
      } else {
        CloseUnlessLive(a);
      }
      Returns(a);
    }

    method SettleConnect(a: nat, ok: bool)
      requires Valid() && Enabled(View(), ConnectSettles(a, ok))
      modifies this
      ensures Valid() && View() == Apply(old(View()), ConnectSettles(a, ok)) && shuttingDown == old(shuttingDown)
      ensures a < |old(attempts)| && sessions == old(sessions) && |attempts| == |old(attempts)|
      ensures var x := old(attempts)[a];
              && x.server < |old(servers)| && |servers| == |old(servers)|
              && attempts[a].phase == (if ok then Serving else if x.kind.Fresh? then Ended else Leaving)
              && pendingSessions == old(pendingSessions) - (if !ok && x.kind.Fresh? then 1 else 0)
              && servers[x.server].closed == (!ok && x.kind.Resume?)
    {
      InHandIsNew(View(), a);
      StepIsSound(View(), ConnectSettles(a, ok));
      ReadsConnect(a, ok);
    }

    method Admits(a: nat)
      requires a < |attempts| && attempts[a].server < |servers|
      modifies this
      ensures View() == Admit(old(View()), a) && shuttingDown == old(shuttingDown)
    {
      var x := attempts[a];
      attempts := attempts[a := x.(phase := Admitted)];
      sessions := sessions[x.id := Live(|admitted|, x.server)];
      admitted := admitted + [Alive(x.id)];
      servers := servers[x.server := servers[x.server].(owner := BySession(x.id))];
    }

    method AdmitSession(a: nat)
      requires Valid() && Enabled(View(), SessionInitialized(a))
      modifies this
      ensures Valid() && View() == Apply(old(View()), SessionInitialized(a)) && shuttingDown == old(shuttingDown)
      ensures a < |old(attempts)| && old(attempts)[a].id !in old(sessions) && teardowns == old(teardowns)
      ensures sessions == old(sessions)[old(attempts)[a].id := Live(|old(admitted)|, old(attempts)[a].server)]
    {
      InHandIsNew(View(), a);
      StepIsSound(View(), SessionInitialized(a));
      Admits(a);
    }

    method ServeRequest(a: nat)
      requires Valid() && Enabled(View(), RequestServed(a))
      modifies this
      ensures Valid() && View() == Apply(old(View()), RequestServed(a)) && shuttingDown == old(shuttingDown)
      ensures a < |old(attempts)| && sessions == old(sessions) && |attempts| == |old(attempts)|
      ensures var x := old(attempts)[a];
              && x.server < |old(servers)| && |servers| == |old(servers)|
              && attempts[a].phase == (if x.kind.Fresh? then Ended else Leaving)
              && servers[x.server].closed == (old(servers)[x.server].closed || x.id !in old(sessions))
    {
      StepIsSound(View(), RequestServed(a));
      CloseUnlessLive(a);
      Returns(a);
    }

    method GiveBack(a: nat)
      requires a < |attempts|
      modifies this
      ensures View() == Release(old(View()), a) && shuttingDown == old(shuttingDown)
    {
      resuming := resuming - {attempts[a].id};
      pendingSessions := pendingSessions - 1;
      attempts := attempts[a := attempts[a].(phase := Ended)];
    }

    method SettleResume(a: nat)
      requires Valid() && Enabled(View(), ResumeSettles(a))
      modifies this
      ensures Valid() && View() == Apply(old(View()), ResumeSettles(a)) && shuttingDown == old(shuttingDown)
      ensures a < |old(attempts)| && resuming == old(resuming) - {old(attempts)[a].id}
      ensures pendingSessions == old(pendingSessions) - 1 && sessions == old(sessions) && servers == old(servers)
    {
      StepIsSound(View(), ResumeSettles(a));
      GiveBack(a);
    }

    /** The one teardown path, up to its first suspension; a second call for the id does nothing. */
    method Teardowns(id: string, keepRecord: bool)
      requires Ranged(View())
      modifies this
      ensures View() == Destroy(old(View()), id, keepRecord) && shuttingDown == old(shuttingDown)
    {
      if id !in sessions {
        return;
      }
      var x := sessions[id];
      var awaits := registry && !keepRecord;
      sessions := sessions - {id};
      admitted := admitted[x.number := TornDown(|teardowns|)];
      servers := servers[x.server := servers[x.server].(owner := ByTeardown(|teardowns|))];
      var phase, hooks := if awaits then Deleting else Hook, if awaits then 0 else 1;
      teardowns := teardowns + [Teardown(x.number, x.server, phase, hooks)];
    }

    /** The teardown waits for the registry's delete exactly when there is a registry and the record is not kept. */
    method DestroySession(id: string, keepRecord: bool)
      requires Valid()
      modifies this
      ensures Valid() && View() == Apply(old(View()), SessionEnds(id, keepRecord)) && shuttingDown == old(shuttingDown)
      ensures id !in old(sessions) ==> sessions == old(sessions) && teardowns == old(teardowns)
      ensures id in old(sessions) ==>
                && sessions == old(sessions) - {id} && |teardowns| == |old(teardowns)| + 1
                && teardowns[..|old(teardowns)|] == old(teardowns)
                && Starts(teardowns[|old(teardowns)|], old(sessions)[id], registry && !keepRecord)
    {
      StepIsSound(View(), SessionEnds(id, keepRecord));
      Teardowns(id, keepRecord);
    }

    /** The teardowns server.close starts, in the order it starts them. */
    method TearDownAll() returns (ghost order: seq<string>)
      requires Ranged(View())
      modifies this
      ensures View() == DestroyAll(old(View()), order) && sessions.Keys == {} && shuttingDown == old(shuttingDown)
    {
      order := [];
      while sessions.Keys != {}
        invariant View() == DestroyAll(old(View()), order) && shuttingDown == old(shuttingDown)
        decreases |sessions.Keys|
      {
        var id :| id in sessions.Keys;
        assert (order + [id])[..|order|] == order;
        order := order + [id];
        Teardowns(id, true);
      }
    }

    /**
     server.close: every session held is torn down, its record kept, and nothing else moves; a second call
     tears down nothing.
     */
    method Close() returns (ghost order: seq<string>)
      requires Valid()
      modifies this
      ensures Valid() && shuttingDown
      ensures old(shuttingDown) ==> order == []
      ensures View() == DestroyAll(old(View()), order)
      ensures !old(shuttingDown) ==> AllTornDown(old(View()), View())
      ensures |old(teardowns)| <= |teardowns| && teardowns[..|old(teardowns)|] == old(teardowns)
      ensures forall k | |old(teardowns)| <= k < |teardowns| ::
                exists id | id in old(sessions) :: Starts(teardowns[k], old(sessions)[id], false)
    {
      if shuttingDown {
        return [];
      }
      shuttingDown := true;
      ghost var before := View();
      order := TearDownAll();
      DestroyAllIsSound(before, order);
      DestroyAllStarts(before, order);
      NoneLeft(before, View());
    }

    method DropRecord(t: nat)
      requires Valid() && Enabled(View(), RecordDropped(t))
      modifies this
      ensures Valid() && View() == Apply(old(View()), RecordDropped(t)) && shuttingDown == old(shuttingDown)
    {
      StepIsSound(View(), RecordDropped(t));
      teardowns := teardowns[t := teardowns[t].(phase := Hook, hooks := teardowns[t].hooks + 1)];
    }

    method ReturnHook(t: nat)
      requires Valid() && Enabled(View(), HookReturns(t))
      modifies this
      ensures Valid() && View() == Apply(old(View()), HookReturns(t)) && shuttingDown == old(shuttingDown)
    {
      StepIsSound(View(), HookReturns(t));
      var v := teardowns[t].server;
      teardowns := teardowns[t := teardowns[t].(phase := Closing)];
      servers := servers[v := servers[v].(closed := true)];
    }

    method FinishTeardown(t: nat)
      requires Valid() && Enabled(View(), ServerCloses(t))
      modifies this
      ensures Valid() && View() == Apply(old(View()), ServerCloses(t)) && shuttingDown == old(shuttingDown)
    {
      StepIsSound(View(), ServerCloses(t));
      teardowns := teardowns[t := teardowns[t].(phase := Done)];
    }
  }
}
