/**
 The HTTP session table as a step relation: fresh initializes and resumes compete for a bounded number of
 sessions, and every way a session can end goes through one teardown. One step is one await-free segment.
 */
module SessionTable {
  import opened Text

  // ---- The limit ----

  /** maxSessions: any number that is not negative, or Infinity. */
  datatype Limit = Finite(value: real) | Unlimited

  predicate ValidLimit(max: Limit) {
    max.Finite? ==> max.value >= 0.0
  }

  predicate AtLimit(n: int, max: Limit) {
    max.Finite? && n as real >= max.value
  }

  predicate OverLimit(n: int, max: Limit) {
    max.Finite? && n as real > max.value
  }

  // ---- State ----

  datatype Kind = Fresh | Resume

  /**
   Looking: a resume awaits the registry. Passed: the limit was checked. Connecting and Serving: a proxy
   server exists. Leaving: a resume has returned and its slot is about to be given back.
   */
  datatype Phase = Looking | Passed | Connecting | Serving | Admitted | Leaving | Ended

  datatype Attempt = Attempt(kind: Kind, id: string, phase: Phase, server: nat)

  /** A live session: the number of its admission, and its proxy server. */
  datatype Live = Live(number: nat, server: nat)

  datatype TeardownPhase = Deleting | Hook | Closing | Done

  /** Hooks counts the calls of onSessionClosed. */
  datatype Teardown = Teardown(number: nat, server: nat, phase: TeardownPhase, hooks: nat)

  /** Who will close a proxy server. */
  datatype Owner = ByAttempt(a: nat) | BySession(id: string) | ByTeardown(t: nat) | Nobody

  datatype Server = Server(closed: bool, owner: Owner)

  /** What became of an admission, by its number: still live under an id, or handed to a teardown. */
  datatype Outcome = Alive(id: string) | TornDown(t: nat)

  datatype Table = Table(
    max: Limit,
    registry: bool,
    sessions: map<string, Live>,
    resuming: map<string, nat>,
    pendingSessions: int,
    attempts: seq<Attempt>,
    teardowns: seq<Teardown>,
    servers: seq<Server>,
    admitted: seq<Outcome>,
    ids: set<string>)

  function Start(max: Limit, registry: bool): Table {
    Table(max, registry, map[], map[], 0, [], [], [], [], {})
  }

  predicate Ranged(s: Table) {
    && (forall a | 0 <= a < |s.attempts| && Holds(s.attempts[a]) :: s.attempts[a].server < |s.servers|)
    && (forall id | id in s.sessions :: s.sessions[id].server < |s.servers|)
    && (forall id | id in s.sessions :: s.sessions[id].number < |s.admitted|)
    && (forall t | 0 <= t < |s.teardowns| :: s.teardowns[t].server < |s.servers|)
    && (forall id | id in s.resuming :: s.resuming[id] < |s.attempts|)
  }

  /** The attempt has built a proxy server. */
  predicate Holds(x: Attempt) {
    x.phase.Connecting? || x.phase.Serving? || x.phase.Admitted?
  }

  function CloseServer(s: Table, v: nat): Table
    requires v < |s.servers|
  {
    s.(servers := s.servers[v := s.servers[v].(closed := true)])
  }

  function SetPhase(s: Table, a: nat, phase: Phase): Table
    requires a < |s.attempts|
  {
    s.(attempts := s.attempts[a := s.attempts[a].(phase := phase)])
  }

  // ---- Attempts ----

  /** A session-less POST: the limit first, then the slot. */
  function Initialize(s: Table): Table {
    if AtLimit(|s.sessions| + s.pendingSessions, s.max) then s
    else s.(pendingSessions := s.pendingSessions + 1, attempts := s.attempts + [Attempt(Fresh, "", Passed, 0)])
  }

  /** A request for an id: routed, joined to a resume in flight, or a new resume, which takes its slot at once. */
  function Request(s: Table, id: string): Table {
    if id in s.sessions || !s.registry || id in s.resuming then s.(ids := s.ids + {id})
    else s.(pendingSessions := s.pendingSessions + 1, attempts := s.attempts + [Attempt(Resume, id, Looking, 0)],
            resuming := s.resuming[id := |s.attempts|], ids := s.ids + {id})
  }

  /** The attempt is over. A fresh one gives its slot back at once, a resume when its promise settles. */
  function Finish(s: Table, a: nat): Table
    requires a < |s.attempts|
  {
    if s.attempts[a].kind.Fresh? then SetPhase(s, a, Ended).(pendingSessions := s.pendingSessions - 1)
    else SetPhase(s, a, Leaving)
  }

  function Release(s: Table, a: nat): Table
    requires a < |s.attempts|
  {
    SetPhase(s, a, Ended).(pendingSessions := s.pendingSessions - 1, resuming := s.resuming - {s.attempts[a].id})
  }

  /** The proxy server and its transport are built, under the id of the session to be. */
  function Build(s: Table, a: nat, id: string): Table
    requires a < |s.attempts|
  {
    s.(attempts := s.attempts[a := s.attempts[a].(id := id, phase := Connecting, server := |s.servers|)],
       servers := s.servers + [Server(false, ByAttempt(a))], ids := s.ids + {id})
  }

  /** The registry has answered: no live record, no room, or a server to build. */
  function Found(s: Table, a: nat, record: bool): Table
    requires a < |s.attempts|
  {
    if !record || OverLimit(|s.sessions| + s.pendingSessions, s.max) then Finish(s, a)
    else Build(s, a, s.attempts[a].id)
  }

  /** The last thing an attempt with a server does: close it unless its id is live. */
  function CloseOrphan(s: Table, a: nat): Table
    requires a < |s.attempts| && s.attempts[a].server < |s.servers|
  {
    if s.attempts[a].id in s.sessions then s else CloseServer(s, s.attempts[a].server)
  }

  /** A failed connect ends the attempt; only a resume then closes the server. */
  function Connected(s: Table, a: nat, ok: bool): Table
    requires a < |s.attempts| && s.attempts[a].server < |s.servers|
  {
    if ok then SetPhase(s, a, Serving)
    else if s.attempts[a].kind.Fresh? then
      var v := s.attempts[a].server;
      Finish(s.(servers := s.servers[v := s.servers[v].(owner := Nobody)]), a)
    else Finish(CloseOrphan(s, a), a)
  }

  function Admit(s: Table, a: nat): Table
    requires a < |s.attempts| && s.attempts[a].server < |s.servers|
  {
    var x := s.attempts[a];
    SetPhase(s, a, Admitted).(sessions := s.sessions[x.id := Live(|s.admitted|, x.server)],
                              admitted := s.admitted + [Alive(x.id)],
                              servers := s.servers[x.server := s.servers[x.server].(owner := BySession(x.id))])
  }

  /** The request, or the replayed initialize, has been handled. */
  function Served(s: Table, a: nat): Table
    requires a < |s.attempts| && s.attempts[a].server < |s.servers|
  {
    Finish(CloseOrphan(s, a), a)
  }

  // ---- Teardown ----

  /** Idempotent: an id that is not live is left alone. */
  function Destroy(s: Table, id: string, keepRecord: bool): Table
    requires id in s.sessions ==> s.sessions[id].server < |s.servers| && s.sessions[id].number < |s.admitted|
  {
    if id !in s.sessions then s
    else
      var x := s.sessions[id];
      var awaits := s.registry && !keepRecord;
      s.(sessions := s.sessions - {id},
         teardowns := s.teardowns + [Teardown(x.number, x.server, if awaits then Deleting else Hook,
                                              if awaits then 0 else 1)],
         admitted := s.admitted[x.number := TornDown(|s.teardowns|)],
         servers := s.servers[x.server := s.servers[x.server].(owner := ByTeardown(|s.teardowns|))])
  }

  function RecordDeleted(s: Table, t: nat): Table
    requires t < |s.teardowns|
  {
    s.(teardowns := s.teardowns[t := s.teardowns[t].(phase := Hook, hooks := s.teardowns[t].hooks + 1)])
  }

  function HookSettled(s: Table, t: nat): Table
    requires t < |s.teardowns| && s.teardowns[t].server < |s.servers|
  {
    CloseServer(s.(teardowns := s.teardowns[t := s.teardowns[t].(phase := Closing)]), s.teardowns[t].server)
  }

  function ServerClosed(s: Table, t: nat): Table
    requires t < |s.teardowns|
  {
    s.(teardowns := s.teardowns[t := s.teardowns[t].(phase := Done)])
  }

  // ---- Steps and runs ----

  datatype Step =
    | InitializeArrives
    | IdentityRejected(a: nat)
    | ServerBuilt(a: nat, id: string)
    | RequestArrives(id: string)
    | RegistryAnswers(a: nat, record: bool)
    | ConnectSettles(a: nat, ok: bool)
    | SessionInitialized(a: nat)
    | RequestServed(a: nat)
    | ResumeSettles(a: nat)
    | SessionEnds(id: string, keepRecord: bool)
    | RecordDropped(t: nat)
    | HookReturns(t: nat)
    | ServerCloses(t: nat)

  /** The id of a fresh session before it is admitted: chosen at random, and told to nobody. */
  predicate Unborn(s: Table, id: string) {
    exists a | 0 <= a < |s.attempts| :: UnbornAt(s.attempts[a], id)
  }

  predicate UnbornAt(x: Attempt, id: string) {
    x.kind.Fresh? && x.id == id && (x.phase.Connecting? || x.phase.Serving?)
  }

  predicate Enabled(s: Table, step: Step) {
    match step
    case InitializeArrives => true
    case IdentityRejected(a) => a < |s.attempts| && s.attempts[a].kind.Fresh? && s.attempts[a].phase.Passed?
    case ServerBuilt(a, id) =>
      a < |s.attempts| && s.attempts[a].kind.Fresh? && s.attempts[a].phase.Passed? && id !in s.ids
    case RequestArrives(id) => !Unborn(s, id)
    case RegistryAnswers(a, _) => a < |s.attempts| && s.attempts[a].phase.Looking?
    case ConnectSettles(a, _) => a < |s.attempts| && s.attempts[a].phase.Connecting?
    case SessionInitialized(a) => a < |s.attempts| && s.attempts[a].phase.Serving?
    case RequestServed(a) => a < |s.attempts| && (s.attempts[a].phase.Serving? || s.attempts[a].phase.Admitted?)
    case ResumeSettles(a) => a < |s.attempts| && s.attempts[a].phase.Leaving?
    case SessionEnds(id, _) => true
    case RecordDropped(t) => t < |s.teardowns| && s.teardowns[t].phase.Deleting?
    case HookReturns(t) => t < |s.teardowns| && s.teardowns[t].phase.Hook?
    case ServerCloses(t) => t < |s.teardowns| && s.teardowns[t].phase.Closing?
  }

  function Apply(s: Table, step: Step): Table
    requires Ranged(s) && Enabled(s, step)
  {
    match step
    case InitializeArrives => Initialize(s)
    case IdentityRejected(a) => Finish(s, a)
    case ServerBuilt(a, id) => Build(s, a, id)
    case RequestArrives(id) => Request(s, id)
    case RegistryAnswers(a, record) => Found(s, a, record)
    case ConnectSettles(a, ok) => Connected(s, a, ok)
    case SessionInitialized(a) => Admit(s, a)
    case RequestServed(a) => Served(s, a)
    case ResumeSettles(a) => Release(s, a)
    case SessionEnds(id, keepRecord) => Destroy(s, id, keepRecord)
    case RecordDropped(t) => RecordDeleted(s, t)
    case HookReturns(t) => HookSettled(s, t)
    case ServerCloses(t) => ServerClosed(s, t)
  }

  function Run(s: Table, steps: seq<Step>): Option<Table>
    decreases |steps|
  {
    if steps == [] then Some(s)
    else if !Ranged(s) || !Enabled(s, steps[0]) then None
    else Run(Apply(s, steps[0]), steps[1..])
  }
}
