/**
 The audit session protocol as a step relation. One step is one await-free segment of the program:
 what runs between two suspensions runs alone. Objects are numbered by the order of their creation,
 so a later session under the same id is a different object.
 */
module AuditProtocol {
  import opened Text
  import opened Json
  import opened Digests
  import opened Chain
  import opened Verifier
  import opened Manifest
  import opened Replay

  /**
   What the deployment fixes: how an event is hashed onto the chain, the hash of the tree, and the
   signing oracle. Signing is None where the canonical payload throws.
   */
  datatype Config = Config(
    hash: Hasher,
    h: Hash,
    sign: Unsigned -> Option<Digest>,
    includeRejections: bool,
    keyId: string)

  // ---- State ----

  datatype Fate = KeyFailed | Skipped | BuildFailed | Recorded

  /** Running: keys and upstream. Persisting: the event is appended and the sink has not settled. */
  datatype Phase = Running | Persisting | Settled(fate: Fate)

  /** One activation of observe. The session object is captured at admission. */
  datatype Call = Call(
    sessionId: Option<string>,
    session: Option<nat>,
    requestId: string,
    phase: Phase,
    event: Option<AuditEvent>)

  /** Draining: a close waits; woken says that its wait has been resolved. */
  datatype Closing = NotClosing | Draining(woken: bool) | Closed

  /**
   A session object. Writers holds the call that appended each event; stragglers the calls reported
   as still in flight when the session was sealed.
   */
  datatype Session = Session(
    id: string,
    identity: Value,
    proxy: Value,
    startedAt: string,
    events: seq<AuditEvent>,
    prevChainHash: string,
    inflight: set<nat>,
    closing: Closing,
    writers: seq<nat>,
    stragglers: set<nat>)

  /**
   A sealed session. The attempt is the promise stored on it. Source, snapshot, signings, deliveries,
   delivered and replaced are its history: the session object and events it was sealed from, how often
   the signer signed it, every manifest handed to the sink, and whether a delivery succeeded or a later
   session under the same id took its entry.
   */
  datatype Pending = Pending(
    id: string,
    unsigned: Unsigned,
    signature: Option<Digest>,
    attempt: Option<nat>,
    source: nat,
    snapshot: seq<AuditEvent>,
    signings: nat,
    deliveries: seq<ReplayManifest>,
    delivered: bool,
    replaced: bool)

  datatype AttemptPhase = Signing | Delivering | Ended

  /** One activation of the sign-and-deliver body. */
  datatype Attempt = Attempt(pending: nat, phase: AttemptPhase)

  datatype State = State(
    calls: seq<Call>,
    objs: seq<Session>,
    pends: seq<Pending>,
    attempts: seq<Attempt>,
    sessions: map<string, nat>,
    sealed: map<string, nat>)

  const INIT: State := State([], [], [], [], map[], map[])

  /** Every reference points to an object. */
  ghost predicate Ranged(s: State) {
    && (forall c | 0 <= c < |s.calls| :: s.calls[c].session.Some? ==> s.calls[c].session.value < |s.objs|)
    && (forall id | id in s.sessions :: s.sessions[id] < |s.objs|)
    && (forall id | id in s.sealed :: s.sealed[id] < |s.pends|)
    && (forall a | 0 <= a < |s.attempts| :: s.attempts[a].pending < |s.pends|)
  }

  // ---- Calls ----

  function NewSession(id: string, identity: Value, proxy: Value, startedAt: string): Session {
    Session(id, identity, proxy, startedAt, [], "", {}, NotClosing, [], {})
  }

  /** The session object of an id, created on first sight. */
  ghost function OpenSession(s: State, id: string, identity: Value, proxy: Value, now: string): State {
    if id in s.sessions then s
    else s.(objs := s.objs + [NewSession(id, identity, proxy, now)], sessions := s.sessions[id := |s.objs|])
  }

  ghost function AddCall(s: State, sessionId: Option<string>, session: Option<nat>, requestId: string): State
    requires session.Some? ==> session.value < |s.objs|
  {
    var c := |s.calls|;
    var t := s.(calls := s.calls + [Call(sessionId, session, requestId, Running, None)]);
    if session.None? then t
    else
      var x := s.objs[session.value];
      t.(objs := s.objs[session.value := x.(inflight := x.inflight + {c})])
  }

  /** Admission: an empty or absent session id means no session; without a proxy identity the call throws. */
  ghost function Admit(s: State, sessionId: Option<string>, identity: Value, proxy: Option<Value>, requestId: string,
      now: string): State
    requires Ranged(s)
  {
    if proxy.None? then s
    else if sessionId.None? || sessionId.value == "" then AddCall(s, sessionId, None, requestId)
    else
      var t := OpenSession(s, sessionId.value, identity, proxy.value, now);
      AddCall(t, sessionId, Some(t.sessions[sessionId.value]), requestId)
  }

  /** Leaving the call: it is no longer in flight, and the last one out wakes a waiting close. */
  ghost function Settle(s: State, c: nat, fate: Fate): State
    requires Ranged(s) && c < |s.calls|
  {
    var call := s.calls[c];
    var t := s.(calls := s.calls[c := call.(phase := Settled(fate))]);
    if call.session.None? then t
    else
      var o, x := call.session.value, s.objs[call.session.value];
      var left := x.inflight - {c};
      t.(objs := s.objs[o := x.(inflight := left,
                                closing := if left == {} && x.closing.Draining? then Draining(true) else x.closing)])
  }

  function SessionField(sessionId: Option<string>): Value {
    if sessionId.Some? then Str(sessionId.value) else Undefined
  }

  /** The event of a call at a position, or None where the canonical preimage throws. */
  function BuildEvent(cfg: Config, call: Call, draft: AuditEvent, position: nat, prev: string): Option<AuditEvent> {
    var e := draft.(id := Str(call.requestId), sessionId := SessionField(call.sessionId),
                    position := Num(IntNumeral(position)));
    var d := cfg.hash(e, prev);
    if d.None? then None else Some(e.(chainHash := d.value))
  }

  ghost function Append(s: State, c: nat, e: AuditEvent): State
    requires Ranged(s) && c < |s.calls|
  {
    var call := s.calls[c];
    var t := s.(calls := s.calls[c := call.(phase := Persisting, event := Some(e))]);
    if call.session.None? then t
    else
      var o, x := call.session.value, s.objs[call.session.value];
      t.(objs := s.objs[o := x.(events := x.events + [e], prevChainHash := e.chainHash, writers := x.writers + [c])])
  }

  ghost function NextPosition(s: State, c: nat): nat
    requires Ranged(s) && c < |s.calls|
  {
    if s.calls[c].session.None? then 0 else |s.objs[s.calls[c].session.value].events|
  }

  ghost function PrevHash(s: State, c: nat): string
    requires Ranged(s) && c < |s.calls|
  {
    if s.calls[c].session.None? then "" else s.objs[s.calls[c].session.value].prevChainHash
  }

  /** The upstream has settled: skip, fail to build, or append at the next position of the session. */
  ghost function Finish(cfg: Config, s: State, c: nat, draft: AuditEvent, rejected: bool): State
    requires Ranged(s) && c < |s.calls|
  {
    if rejected && !cfg.includeRejections then Settle(s, c, Skipped)
    else
      var e := BuildEvent(cfg, s.calls[c], draft, NextPosition(s, c), PrevHash(s, c));
      if e.None? then Settle(s, c, BuildFailed) else Append(s, c, e.value)
  }

  // ---- Sealing ----

  /** The session leaves the map; calls still in flight are reported. */
  ghost function Leave(s: State, o: nat): State
    requires o < |s.objs|
  {
    var x := s.objs[o];
    s.(objs := s.objs[o := x.(closing := Closed, stragglers := x.inflight)], sessions := s.sessions - {x.id})
  }

  ghost function NewPending(cfg: Config, x: Session, o: nat, closedAt: string): Pending {
    Pending(x.id, Sealed(cfg.h, x.id, x.identity, x.proxy, x.startedAt, closedAt, x.events, cfg.keyId),
            None, None, o, x.events, 0, [], false, false)
  }

  /** An undelivered manifest under the same id loses its entry. */
  ghost function Displace(s: State, id: string): State
    requires Ranged(s)
  {
    if id in s.sealed then s.(pends := s.pends[s.sealed[id] := s.pends[s.sealed[id]].(replaced := true)]) else s
  }

  ghost function AddPending(s: State, y: Pending): State {
    s.(pends := s.pends + [y], sealed := s.sealed[y.id := |s.pends|])
  }

  /** Past the drain: what the session recorded is fixed as an unsigned manifest, unless it recorded nothing. */
  ghost function SealSession(cfg: Config, s: State, o: nat, closedAt: string): State
    requires Ranged(s) && o < |s.objs|
  {
    var x := s.objs[o];
    if x.events == [] then Leave(s, o)
    else AddPending(Displace(Leave(s, o), x.id), NewPending(cfg, x, o, closedAt))
  }

  /**
   A sign-and-deliver attempt, unless one is stored already. Starts is false when the first segment
   throws before it suspends. The stored attempt is then one that has already ended: its finally block
   ran before the assignment stored it.
   */
  ghost function Finalize(cfg: Config, s: State, p: nat, starts: bool): State
    requires Ranged(s) && p < |s.pends|
  {
    var x := s.pends[p];
    if x.attempt.Some? then s
    else
      var a := |s.attempts|;
      if x.signature.None? then
        var phase := if starts && cfg.sign(x.unsigned).Some? then Signing else Ended;
        s.(attempts := s.attempts + [Attempt(p, phase)], pends := s.pends[p := x.(attempt := Some(a))])
      else
        s.(attempts := s.attempts + [Attempt(p, if starts then Delivering else Ended)],
           pends := s.pends[p := x.(attempt := Some(a),
                                    deliveries := x.deliveries + [ReplayManifest(x.unsigned, x.signature.value)])])
  }

  /** One turn of the drain loop: wait again, or seal and start the attempt. */
  ghost function Drain(cfg: Config, s: State, o: nat, expired: bool, closedAt: string, starts: bool): State
    requires Ranged(s) && o < |s.objs|
  {
    var x := s.objs[o];
    if x.inflight != {} && !expired then s.(objs := s.objs[o := x.(closing := Draining(false))])
    else
      var t := SealSession(cfg, s, o, closedAt);
      if x.events == [] then t else Finalize(cfg, t, |s.pends|, starts)
  }

  ghost function CloseSession(cfg: Config, s: State, id: string, expired: bool, closedAt: string, starts: bool): State
    requires Ranged(s)
  {
    if id in s.sessions then
      if s.objs[s.sessions[id]].closing.NotClosing? then Drain(cfg, s, s.sessions[id], expired, closedAt, starts) else s
    else if id in s.sealed then Finalize(cfg, s, s.sealed[id], starts)
    else s
  }

  // ---- Delivery ----

  /** The finally block of an attempt. */
  ghost function EndAttempt(s: State, a: nat): State
    requires Ranged(s) && a < |s.attempts|
  {
    var p := s.attempts[a].pending;
    s.(attempts := s.attempts[a := Attempt(p, Ended)], pends := s.pends[p := s.pends[p].(attempt := None)])
  }

  /** The signer has answered: keep the signature and hand the manifest to the sink, or give up. */
  ghost function SignSettled(cfg: Config, s: State, a: nat, ok: bool, sinkStarts: bool): State
    requires Ranged(s) && a < |s.attempts|
  {
    var p := s.attempts[a].pending;
    var x := s.pends[p];
    var d := cfg.sign(x.unsigned);
    if !ok || d.None? then EndAttempt(s, a)
    else
      var t := s.(attempts := s.attempts[a := Attempt(p, Delivering)],
                  pends := s.pends[p := x.(signature := d, signings := x.signings + 1,
                                           deliveries := x.deliveries + [ReplayManifest(x.unsigned, d.value)])]);
      if sinkStarts then t else EndAttempt(t, a)
  }

  /** The sink has answered: on success the entry under the session's id is released. */
  ghost function DeliverySettled(s: State, a: nat, ok: bool): State
    requires Ranged(s) && a < |s.attempts|
  {
    var p := s.attempts[a].pending;
    if !ok then EndAttempt(s, a)
    else EndAttempt(s.(pends := s.pends[p := s.pends[p].(delivered := true)], sealed := s.sealed - {s.pends[p].id}), a)
  }

  // ---- Steps and runs ----

  /**
   Expired says whether the drain deadline has passed when the loop looks; starts whether an attempt
   reaches its first suspension; sinkStarts whether the sink returns instead of throwing at once.
   */
  datatype Step =
    | AdmitCall(sessionId: Option<string>, identity: Value, proxy: Option<Value>, requestId: string, now: string)
    | KeysRejected(c: nat)
    | UpstreamSettled(c: nat, draft: AuditEvent, rejected: bool)
    | SinkSettled(c: nat)
    | Close(id: string, expired: bool, closedAt: string, starts: bool)
    | TimerFires(o: nat)
    | CloseResumes(o: nat, expired: bool, closedAt: string, starts: bool)
    | SignerAnswers(a: nat, ok: bool, sinkStarts: bool)
    | DeliveryAnswers(a: nat, ok: bool)

  ghost predicate Enabled(s: State, step: Step) {
    match step
    case AdmitCall(_, identity, proxy, _, _) => WellFormed(identity) && (proxy.Some? ==> WellFormed(proxy.value))
    case KeysRejected(c) => c < |s.calls| && s.calls[c].phase == Running
    case UpstreamSettled(c, draft, _) => c < |s.calls| && s.calls[c].phase == Running && EventWellFormed(draft)
    case SinkSettled(c) => c < |s.calls| && s.calls[c].phase == Persisting
    case Close(_, _, _, _) => true
    case TimerFires(o) => o < |s.objs| && s.objs[o].closing.Draining?
    case CloseResumes(o, _, _, _) => o < |s.objs| && s.objs[o].closing == Draining(true)
    case SignerAnswers(a, _, _) => a < |s.attempts| && s.attempts[a].phase == Signing
    case DeliveryAnswers(a, _) => a < |s.attempts| && s.attempts[a].phase == Delivering
  }

  ghost function Wake(s: State, o: nat): State
    requires o < |s.objs|
  {
    s.(objs := s.objs[o := s.objs[o].(closing := Draining(true))])
  }

  ghost function Apply(cfg: Config, s: State, step: Step): State
    requires Ranged(s) && Enabled(s, step)
  {
    match step
    case AdmitCall(sessionId, identity, proxy, requestId, now) => Admit(s, sessionId, identity, proxy, requestId, now)
    case KeysRejected(c) => Settle(s, c, KeyFailed)
    case UpstreamSettled(c, draft, rejected) => Finish(cfg, s, c, draft, rejected)
    case SinkSettled(c) => Settle(s, c, Recorded)
    case Close(id, expired, closedAt, starts) => CloseSession(cfg, s, id, expired, closedAt, starts)
    case TimerFires(o) => Wake(s, o)
    case CloseResumes(o, expired, closedAt, starts) => Drain(cfg, s, o, expired, closedAt, starts)
    case SignerAnswers(a, ok, sinkStarts) => SignSettled(cfg, s, a, ok, sinkStarts)
    case DeliveryAnswers(a, ok) => DeliverySettled(s, a, ok)
  }

  /** The last state of a run from s, or None when some step is not enabled. */
  ghost function Run(cfg: Config, s: State, steps: seq<Step>): Option<State>
    decreases |steps|
  {
    if steps == [] then Some(s)
    else if !Ranged(s) || !Enabled(s, steps[0]) then None
    else Run(cfg, Apply(cfg, s, steps[0]), steps[1..])
  }
}
