// Clean-up, replies, requests and connections keep the invariant.

module WsReplying {
  import opened Lists
  import opened Bytes
  import opened WsModel
  import opened WsInvariant
  import opened WsSteps
  import opened WsForwarding

  // ---- Keep-alive and clean-up ----

  lemma SendPingKeeps(env: Env, s: State, p: Ptr)
    requires Inv(s, {}) && p in s.calls && s.calls[p].session.Some?
    ensures Good(s, SendPing(env, s, p, s.calls[p].session.value), {})
  {
    var f := Frame(s.calls[p].session.value, s.calls[p].serial, Ping, env.accepts(|s.log|));
    assert CallOk(s, p, {});
    FrameKeeps(s, f, {}, {});
    FrameHush(s, p, f);
  }

  lemma PingKeeps(env: Env, s: State, p: Ptr)
    requires Inv(s, {}) && p in s.calls && s.calls[p].session.Some? && s.calls[p].session.value in s.sessions
    ensures Good(s, PingCall(env, s, p, s.calls[p].session.value), {})
  {
    var x := s.calls[p].session.value;
    var s1 := SendPing(env, s, p, x);
    SendPingKeeps(env, s, p);
    if env.accepts(|s.log|) {
      var sessions := s1.sessions[x := Pinged(env, s1.sessions[x], s1.clockReads)];
      SessionTimesKeep(s1, sessions, {});
      HushTrans(s, s1, s1.(sessions := sessions, clockReads := s1.clockReads + 1));
    } else {
      CompleteKeeps(s1, p, {});
      HushTrans(s, s1, CompleteCall(s1, p));
    }
  }

  lemma PingUnlessKeeps(env: Env, s: State, s1: State, p: Ptr, seen: bool)
    requires Good(s, s1, {}) && p in s1.calls && s1.calls[p].session.Some? && s1.calls[p].session.value in s1.sessions
    ensures Good(s, PingUnless(env, s1, p, s1.calls[p].session.value, seen), {})
  {
    if !seen {
      PingKeeps(env, s1, p);
      HushTrans(s, s1, PingCall(env, s1, p, s1.calls[p].session.value));
    }
  }

  lemma ServeLiveKeeps(env: Env, s: State, p: Ptr)
    requires Inv(s, {}) && p in s.calls && s.calls[p].session.Some? && s.calls[p].session.value in s.sessions
    ensures Good(s, ServeLive(env, s, p, s.calls[p].session.value), {})
  {
    hide PingCall, Inv, Hush, RecentlySeen;
    ClockKeeps(s);
    var seen := RecentlySeen(env, s, s.sessions[s.calls[p].session.value]);
    PingUnlessKeeps(env, s, s.(clockReads := s.clockReads + 1), p, seen);
  }

  lemma ServeOneKeeps(env: Env, s: State, p: Ptr)
    requires Inv(s, {}) && p in s.calls
    ensures Good(s, ServeOne(env, s, p), {})
  {
    if s.calls[p].session.None? {
      ReleaseKeeps(s, p, {});
    } else {
      CallFacts(s, p);
      ServeLiveKeeps(env, s, p);
    }
  }

  lemma ClockKeeps(s: State)
    requires Inv(s, {})
    ensures Good(s, s.(clockReads := s.clockReads + 1), {})
  {
    SessionsOk(s, {});
    Soften(s, s.(clockReads := s.clockReads + 1), {});
  }

  lemma ServeOneCalls(env: Env, s: State, p: Ptr)
    requires Inv(s, {}) && p in s.calls
    ensures ServeOne(env, s, p).calls.Keys == if s.calls[p].session.None? then s.calls.Keys - {p} else s.calls.Keys
  {
    CallFacts(s, p);
  }

  lemma {:induction false} ServeAllKeeps(env: Env, s: State, ps: seq<Ptr>)
    requires Inv(s, {}) && Distinct(ps) && forall p :: p in ps ==> p in s.calls
    ensures Good(s, ServeAll(env, s, ps), {})
    decreases |ps|
  {
    if ps != [] {
      var s1 := ServeOne(env, s, ps[0]);
      ServeOneKeeps(env, s, ps[0]);
      ServeOneCalls(env, s, ps[0]);
      DistinctTail(ps);
      ServeAllKeeps(env, s1, ps[1..]);
      HushTrans(s, s1, ServeAll(env, s, ps));
    }
  }

  lemma ServePassKeeps(env: Env, s: State)
    requires Inv(s, {})
    ensures Good(s, ServePass(env, s), {})
  {
    ListFacts(s);
    ServeAllKeeps(env, s, s.active);
    var s1 := ServeAll(env, s, s.active);
    ListFacts(s1);
    ServeAllKeeps(env, s1, s1.waiting);
    HushTrans(s, s1, ServePass(env, s));
  }

  // ---- Replies ----

  /** Only the session and the pending count of call `p`, and the log, have changed. */
  ghost predicate Softened(s: State, t: State, p: Ptr)
    requires p in s.calls
  {
    && t == s.(calls := t.calls, log := t.log)
    && p in t.calls && t.calls == s.calls[p := t.calls[p]]
    && t.calls[p] == s.calls[p].(session := t.calls[p].session, pending := t.calls[p].pending)
  }

  lemma HandlerStepKeeps(env: Env, s: State, p: Ptr, op: HandlerOp)
    requires Inv(s, {}) && p in s.calls
    ensures Good(s, HandlerStep(env, s, p, op), {}) && Softened(s, HandlerStep(env, s, p, op), p)
  {
    assert s.calls == s.calls[p := s.calls[p]];
    match op {
      case Say(json) => EmitKeeps(env, s, p, Said(json), {});
      case Finish =>
        CompleteKeeps(s, p, {});
        ListFacts(s);
    }
  }

  lemma SoftenedTrans(s: State, t: State, u: State, p: Ptr)
    requires p in s.calls && Softened(s, t, p) && Softened(t, u, p)
    ensures Softened(s, u, p)
  {
    assert t.calls[p := u.calls[p]] == s.calls[p := u.calls[p]];
  }

  lemma {:induction false} RunHandlerKeeps(env: Env, s: State, p: Ptr, ops: seq<HandlerOp>)
    requires Inv(s, {}) && p in s.calls
    ensures Good(s, RunHandler(env, s, p, ops), {}) && Softened(s, RunHandler(env, s, p, ops), p)
    decreases |ops|
  {
    if ops == [] {
      assert s.calls == s.calls[p := s.calls[p]];
    } else {
      var s1 := HandlerStep(env, s, p, ops[0]);
      HandlerStepKeeps(env, s, p, ops[0]);
      RunHandlerKeeps(env, s1, p, ops[1..]);
      SoftenedTrans(s, s1, RunHandler(env, s, p, ops), p);
      HushTrans(s, s1, RunHandler(env, s, p, ops));
    }
  }

  lemma HandlerKeeps(env: Env, s: State, p: Ptr, ops: seq<HandlerOp>, run: bool)
    requires Inv(s, {}) && p in s.calls
    ensures var t := if run then RunHandler(env, s, p, ops) else s;
            Good(s, t, {}) && Softened(s, t, p)
  {
    if run { RunHandlerKeeps(env, s, p, ops); }
    assert s.calls == s.calls[p := s.calls[p]];
  }

  lemma NotifyKeeps(env: Env, s: State, p: Ptr, payload: seq<byte>)
    requires Inv(s, {}) && p in s.calls
    ensures Good(s, Notify(env, s, p, payload), {}) && Softened(s, Notify(env, s, p, payload), p)
  {
    var ops := env.handler(s.calls[p], payload, |s.log|);
    var s1 := if s.calls[p].handled then RunHandler(env, s, p, ops) else s;
    HandlerKeeps(env, s, p, ops, s.calls[p].handled);
    if payload != [] {
      var t := Emit(env, s1, p, Reply(payload));
      EmitKeeps(env, s1, p, Reply(payload), {});
      HushTrans(s, s1, t);
      assert Notify(env, s, p, payload) == t;
    } else {
      assert Notify(env, s, p, payload) == s1;
    }
  }

  /** Setting the next poll of a call from the present clock reading. */
  function Stamp(env: Env, s: State, p: Ptr): State
    requires p in s.calls
  {
    SetCall(s, p, s.calls[p].(nextPoll := Wrap(env.Tick(s.clockReads) + s.calls[p].interval),
      repliedAt := Some(env.clock(s.clockReads))))
  }

  lemma StampCalls(env: Env, s: State, p: Ptr)
    requires CallsOk(s, {}) && SerialsDiffer(s) && p in s.calls
    ensures var t := Stamp(env, s, p); CallsOk(t, {}) && SerialsDiffer(t) && Hush(s, t)
  {
    var t := Stamp(env, s, p);
    var i := s.calls[p].interval;
    var now := env.clock(s.clockReads);
    assert Wrap(Wrap(now) + i) == Wrap(now + i);
    forall q | q in t.calls ensures CallOk(t, q, {}) { assert CallOk(s, q, {}); }
    forall k: nat | Quiet(s, k) ensures Quiet(t, k) && Unheard(s.log, t.log, k) {}
  }

  lemma StampKeeps(env: Env, s: State, p: Ptr)
    requires Inv(s, {}) && p in s.calls
    ensures Good(s, Stamp(env, s, p), {})
  {
    StampCalls(env, s, p);
    SameOwners(s, Stamp(env, s, p));
  }

  lemma RearmKeeps(env: Env, s: State, p: Ptr)
    requires Inv(s, {}) && p in s.calls
    ensures Good(s, Rearm(env, s, p), {})
  {
    hide Inv, Hush;
    var s1 := Stamp(env, s, p);
    var s2 := ToActive(s1, p);
    StampKeeps(env, s, p);
    ToActiveKeeps(s1, p, {});
    HushTrans(s, s1, s2);
    var t := s2.(clockReads := s2.clockReads + 1);
    ClockKeeps(s2);
    HushTrans(s, s2, t);
    assert t == Rearm(env, s, p);
  }

  /** A waiting call a reply may be delivered to: freeing its bare record would leak nothing. */
  ghost predicate Ready(s: State, p: Ptr) {
    p in s.calls && p in s.waiting && (s.calls[p].longTerm || s.calls[p].data.None?)
  }

  lemma DeliverOneKeeps(env: Env, s: State, p: Ptr, payload: seq<byte>)
    requires Inv(s, {}) && Ready(s, p)
    ensures Good(s, DeliverOne(env, s, p, payload), {})
  {
    var s1 := Notify(env, s, p, payload);
    NotifyKeeps(env, s, p, payload);
    if s.calls[p].longTerm { RearmKeeps(env, s1, p); } else { DropKeeps(s1, p, {}); }
    HushTrans(s, s1, DeliverOne(env, s, p, payload));
  }

  lemma DeliverOneFrame(env: Env, s: State, p: Ptr, payload: seq<byte>)
    requires Inv(s, {}) && Ready(s, p)
    ensures var t := DeliverOne(env, s, p, payload);
            && OnlyCall(s, t, p) && s.calls.Keys - {p} <= t.calls.Keys
            && t.replies == s.replies && t.inHand == s.inHand && t.posted == s.posted && t.blocks == s.blocks
  {
    NotifyKeeps(env, s, p, payload);
    UnlinkLists(Notify(env, s, p, payload), p);
  }

  lemma {:induction false} DeliverAllKeeps(env: Env, s: State, ps: seq<Ptr>, payload: seq<byte>)
    requires Inv(s, {}) && Distinct(ps) && forall p :: p in ps ==> Ready(s, p)
    ensures var t := DeliverAll(env, s, ps, payload);
            Good(s, t, {}) && t.inHand == s.inHand && t.blocks == s.blocks
    decreases |ps|
  {
    if ps != [] {
      var s1 := DeliverOne(env, s, ps[0], payload);
      DeliverOneKeeps(env, s, ps[0], payload);
      DeliverOneFrame(env, s, ps[0], payload);
      DistinctTail(ps);
      forall q | q in ps[1..] ensures Ready(s1, q) { assert q != ps[0] && Ready(s, q); }
      DeliverAllKeeps(env, s1, ps[1..], payload);
      HushTrans(s, s1, DeliverAll(env, s, ps, payload));
    }
  }

  lemma AddresseesReady(s: State, r: Msg)
    requires Inv(s, {})
    ensures Distinct(Addressees(s, r)) && forall p :: p in Addressees(s, r) ==> Ready(s, p) && s.calls[p].session.Some?
  {
    ListFacts(s);
    SelectMembers(s.waiting, LiveFid(s, r.fid));
    SelectMembers(s.waiting, LiveId(s, r.id));
    SelectDistinct(s.waiting, LiveFid(s, r.fid));
    FirstIsSelected(s.waiting, LiveId(s, r.id));
    forall p | p in Addressees(s, r) ensures Ready(s, p) && s.calls[p].session.Some? {
      assert CallOk(s, p, {});
    }
  }

  lemma InHandBlock(s: State)
    requires OwnedOnce(s) && s.inHand.Some? && s.inHand.value.data.Some?
    ensures s.inHand.value.data.value in s.blocks
  {
    assert References(s, s.inHand.value.data.value) > 0;
  }

  lemma LetGoKeeps(s: State, t: State)
    requires Inv(s, {}) && s.inHand.Some?
    requires t == FreeBlock(s, s.inHand.value.data).(inHand := None)
    ensures Good(s, t, {})
  {
    if s.inHand.value.data.Some? { InHandBlock(s); }
    forall b: Ptr ensures References(t, b) == if b in t.blocks then 1 else 0 {
      assert References(s, b) == if b in s.blocks then 1 else 0;
    }
    SessionsOk(s, {});
    SoftenCalls(s, t, {});
    SoftenHush(s, t);
  }

  lemma DeliverReplyKeeps(env: Env, s: State)
    requires Inv(s, {})
    ensures Good(s, DeliverReplyInHand(env, s), {})
  {
    if s.inHand.Some? {
      var r := s.inHand.value;
      if r.data.Some? { InHandBlock(s); }
      var payload := if r.len > 0 then s.blocks[r.data.value] else [];
      AddresseesReady(s, r);
      DeliverAllKeeps(env, s, Addressees(s, r), payload);
      var s1 := DeliverAll(env, s, Addressees(s, r), payload);
      LetGoKeeps(s1, FreeBlock(s1, r.data).(inHand := None));
      HushTrans(s, s1, DeliverReplyInHand(env, s));
    }
  }
}
