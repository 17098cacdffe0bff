/** The audit middleware as the object it is: two maps and the objects they lead to, updated in place. */
module AuditMiddleware {
  import opened Text
  import opened Json
  import opened Merkle
  import opened Chain
  import opened Manifest
  import opened Replay
  import opened AuditProtocol
  import opened AuditInvariant

  /**
   Each method is one await-free segment. Session objects, sealed sessions, calls and attempts are held
   in lists and named by their place, which stands for object identity.
   */
  class Middleware {
    const cfg: Config
    var sessions: map<string, nat>
    var sealed: map<string, nat>
    var objs: seq<Session>
    var pends: seq<Pending>
    var calls: seq<Call>
    var attempts: seq<Attempt>

    ghost function View(): State
      reads this
    {
      State(calls, objs, pends, attempts, sessions, sealed)
    }

    ghost predicate Valid()
      reads this
    {
      Inv(cfg, View())
    }

    constructor (cfg: Config)
      requires IgnoresStoredHash(cfg.hash)
      ensures this.cfg == cfg && View() == INIT && Valid()
    {
      this.cfg := cfg;
      sessions, sealed := map[], map[];
      objs, pends, calls, attempts := [], [], [], [];
    }

    // ---- Calls ----

    /** The call's number, or None when the call throws for want of a proxy identity. */
    method Admit(sessionId: Option<string>, identity: Value, proxy: Option<Value>, requestId: string, now: string)
      returns (call: Option<nat>)
      requires Valid() && Enabled(View(), AdmitCall(sessionId, identity, proxy, requestId, now))
      modifies this
      ensures Valid() && View() == Apply(cfg, old(View()), AdmitCall(sessionId, identity, proxy, requestId, now))
      ensures call == if proxy.None? then None else Some(|old(calls)|)
    {
      ghost var before := View();
      StepKeeps(cfg, before, AdmitCall(sessionId, identity, proxy, requestId, now));
      if proxy.None? {
        return None;
      }
      var session: Option<nat> := None;
      if sessionId.Some? && sessionId.value != "" {
        if sessionId.value !in sessions {
          sessions := sessions[sessionId.value := |objs|];
          objs := objs + [NewSession(sessionId.value, identity, proxy.value, now)];
        }
        session := Some(sessions[sessionId.value]);
      }
      var admission := |calls|;
      calls := calls + [Call(sessionId, session, requestId, Running, None)];
      if session.Some? {
        var x := objs[session.value];
        objs := objs[session.value := x.(inflight := x.inflight + {admission})];
      }
      return Some(admission);
    }

    /** The finally block of a call. */
    method Leaves(c: nat, fate: Fate)
      requires Ranged(View()) && c < |calls|
      modifies this
      ensures View() == Settle(old(View()), c, fate)
    {
      var session := calls[c].session;
      calls := calls[c := calls[c].(phase := Settled(fate))];
      if session.Some? {
        var x := objs[session.value];
        x := x.(inflight := x.inflight - {c});
        if x.inflight == {} && x.closing.Draining? {
          x := x.(closing := Draining(true));
        }
        objs := objs[session.value := x];
      }
    }

    method RejectKeys(c: nat)
      requires Valid() && Enabled(View(), KeysRejected(c))
      modifies this
      ensures Valid() && View() == Apply(cfg, old(View()), KeysRejected(c))
    {
      StepKeeps(cfg, View(), KeysRejected(c));
      Leaves(c, KeyFailed);
    }

    /** Position and previous hash are read and the event appended without a suspension between. */
    method SettleUpstream(c: nat, draft: AuditEvent, rejected: bool)
      requires Valid() && Enabled(View(), UpstreamSettled(c, draft, rejected))
      modifies this
      ensures Valid() && View() == Apply(cfg, old(View()), UpstreamSettled(c, draft, rejected))
    {
      StepKeeps(cfg, View(), UpstreamSettled(c, draft, rejected));
      if rejected && !cfg.includeRejections {
        Leaves(c, Skipped);
        return;
      }
      var session := calls[c].session;
      var position := if session.Some? then |objs[session.value].events| else 0;
      var prev := if session.Some? then objs[session.value].prevChainHash else "";
      var event := BuildEvent(cfg, calls[c], draft, position, prev);
      if event.None? {
        Leaves(c, BuildFailed);
        return;
      }
      calls := calls[c := calls[c].(phase := Persisting, event := event)];
      if session.Some? {
        var x := objs[session.value];
        objs := objs[session.value := x.(events := x.events + [event.value], prevChainHash := event.value.chainHash,
                                         writers := x.writers + [c])];
      }
    }

    method SettleSink(c: nat)
      requires Valid() && Enabled(View(), SinkSettled(c))
      modifies this
      ensures Valid() && View() == Apply(cfg, old(View()), SinkSettled(c))
    {
      StepKeeps(cfg, View(), SinkSettled(c));
      Leaves(c, Recorded);
    }

    // ---- Closing ----

    /** What the session recorded, with root and proofs computed in one batch. */
    static method UnsignedManifest(cfg: Config, x: Session, closedAt: string) returns (unsigned: Unsigned)
      ensures unsigned
           == Sealed(cfg.h, x.id, x.identity, x.proxy, x.startedAt, closedAt, x.events, cfg.keyId)
    {
      var hashes := Hashes(x.events);
      var merkleRoot, merkleProofs, _ := ComputeMerkleRootAndProofs(cfg.h, hashes);
      assert merkleProofs == seq(|x.events|, i requires 0 <= i < |x.events| => ProofOf(cfg.h, hashes, i));
      unsigned := Unsigned(x.id, x.identity, x.proxy, x.startedAt, closedAt, |x.events|, merkleRoot, merkleProofs,
                           cfg.keyId);
    }

    /** Everything after the drain loop, up to the attempt; None when the session recorded nothing. */
    method Seal(o: nat, closedAt: string) returns (pending: Option<nat>)
      requires Ranged(View()) && o < |objs|
      modifies this
      ensures View() == SealSession(cfg, old(View()), o, closedAt)
      ensures pending == if old(objs)[o].events == [] then None else Some(|old(pends)|)
      ensures pending.Some? ==> pending.value < |pends|
    {
      var x := objs[o];
      objs := objs[o := x.(closing := Closed, stragglers := x.inflight)];
      sessions := sessions - {x.id};
      if |x.events| == 0 {
        return None;
      }
      ghost var left := View();
      if x.id in sealed {
        pends := pends[sealed[x.id] := pends[sealed[x.id]].(replaced := true)];
      }
      assert View() == Displace(left, x.id);
      var unsigned := UnsignedManifest(cfg, x, closedAt);
      pending := Some(|pends|);
      sealed := sealed[x.id := |pends|];
      pends := pends + [Pending(x.id, unsigned, None, None, o, x.events, 0, [], false, false)];
    }

    /** Signs and delivers, joining an attempt that is stored already. */
    method StartAttempt(p: nat, starts: bool)
      requires Ranged(View()) && p < |pends|
      modifies this
      ensures View() == Finalize(cfg, old(View()), p, starts)
    {
      if pends[p].attempt.Some? {
        return;
      }
      var y := pends[p];
      var phase: AttemptPhase;
      if y.signature.None? {
        phase := if starts && cfg.sign(y.unsigned).Some? then Signing else Ended;
      } else {
        y := y.(deliveries := y.deliveries + [ReplayManifest(y.unsigned, y.signature.value)]);
        phase := if starts then Delivering else Ended;
      }
      pends := pends[p := y.(attempt := Some(|attempts|))];
      attempts := attempts + [Attempt(p, phase)];
    }

    /** One turn of the drain loop. */
    method DrainLoop(o: nat, expired: bool, closedAt: string, starts: bool)
      requires Ranged(View()) && o < |objs|
      modifies this
      ensures View() == Drain(cfg, old(View()), o, expired, closedAt, starts)
    {
      if objs[o].inflight != {} && !expired {
        objs := objs[o := objs[o].(closing := Draining(false))];
        return;
      }
      var pending := Seal(o, closedAt);
      if pending.Some? {
        StartAttempt(pending.value, starts);
      }
    }

    method CloseSession(id: string, expired: bool, closedAt: string, starts: bool)
      requires Valid()
      modifies this
      ensures Valid() && View() == Apply(cfg, old(View()), Close(id, expired, closedAt, starts))
    {
      StepKeeps(cfg, View(), Close(id, expired, closedAt, starts));
      if id in sessions {
        if objs[sessions[id]].closing.NotClosing? {
          DrainLoop(sessions[id], expired, closedAt, starts);
        }
      } else if id in sealed {
        StartAttempt(sealed[id], starts);
      }
    }

    method FireTimer(o: nat)
      requires Valid() && Enabled(View(), TimerFires(o))
      modifies this
      ensures Valid() && View() == Apply(cfg, old(View()), TimerFires(o))
    {
      StepKeeps(cfg, View(), TimerFires(o));
      objs := objs[o := objs[o].(closing := Draining(true))];
    }

    method ResumeClose(o: nat, expired: bool, closedAt: string, starts: bool)
      requires Valid() && Enabled(View(), CloseResumes(o, expired, closedAt, starts))
      modifies this
      ensures Valid() && View() == Apply(cfg, old(View()), CloseResumes(o, expired, closedAt, starts))
    {
      StepKeeps(cfg, View(), CloseResumes(o, expired, closedAt, starts));
      DrainLoop(o, expired, closedAt, starts);
    }

    // ---- Delivery ----

    method EndsAttempt(a: nat)
      requires Ranged(View()) && a < |attempts|
      modifies this
      ensures View() == EndAttempt(old(View()), a)
    {
      var p := attempts[a].pending;
      attempts := attempts[a := Attempt(p, Ended)];
      pends := pends[p := pends[p].(attempt := None)];
    }

    method AnswerSigner(a: nat, ok: bool, sinkStarts: bool)
      requires Valid() && Enabled(View(), SignerAnswers(a, ok, sinkStarts))
      modifies this
      ensures Valid() && View() == Apply(cfg, old(View()), SignerAnswers(a, ok, sinkStarts))
    {
      StepKeeps(cfg, View(), SignerAnswers(a, ok, sinkStarts));
      var p := attempts[a].pending;
      var signature := cfg.sign(pends[p].unsigned);
      if !ok || signature.None? {
        EndsAttempt(a);
        return;
      }
      var y := pends[p];
      var manifest := ReplayManifest(y.unsigned, signature.value);
      pends := pends[p := y.(signature := signature, signings := y.signings + 1,
                             deliveries := y.deliveries + [manifest])];
      attempts := attempts[a := Attempt(p, Delivering)];
      if !sinkStarts {
        EndsAttempt(a);
      }
    }

    method AnswerDelivery(a: nat, ok: bool)
      requires Valid() && Enabled(View(), DeliveryAnswers(a, ok))
      modifies this
      ensures Valid() && View() == Apply(cfg, old(View()), DeliveryAnswers(a, ok))
    {
      StepKeeps(cfg, View(), DeliveryAnswers(a, ok));
      if ok {
        var p := attempts[a].pending;
        pends := pends[p := pends[p].(delivered := true)];
        sealed := sealed - {pends[p].id};
      }
      EndsAttempt(a);
    }
  }
}
