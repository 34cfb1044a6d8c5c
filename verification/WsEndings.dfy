// The frames that end a call: after a BUSY status, or a ping that could not be queued, nothing more is
// sent for the call in any run.

module WsEndings {
  import opened Lists
  import opened Bytes
  import opened WsModel
  import opened WsInvariant
  import opened WsSteps
  import opened WsForwarding
  import opened WsReplying
  import opened WsRuns
  import opened WsTheorems
  import opened WsMeaning

  /** A frame that is the last one of its call. */
  predicate Ending(f: Frame) { f.body == Status(BUSY) || (f.body == Ping && !f.ok) }

  /** No frame sent from `s` to `t` ends a call. */
  ghost predicate Calm(s: State, t: State) {
    s.log <= t.log && forall i :: |s.log| <= i < |t.log| ==> !Ending(t.log[i])
  }

  /** A frame sent from `s` to `t` that ends its call is the call's last, and leaves it without a session. */
  ghost predicate Ends(s: State, t: State) {
    s.log <= t.log && forall i :: |s.log| <= i < |t.log| && Ending(t.log[i]) ==> LastOf(t, i)
  }

  ghost predicate LastOf(t: State, i: nat)
    requires i < |t.log|
  {
    Quiet(t, t.log[i].serial) && forall j :: i < j < |t.log| ==> t.log[j].serial != t.log[i].serial
  }

  lemma EndsTrans(s: State, t: State, u: State)
    requires Ends(s, t) && Ends(t, u) && Hush(t, u)
    ensures Ends(s, u)
  {
    forall i | |s.log| <= i < |u.log| && Ending(u.log[i]) ensures LastOf(u, i) {
      if i < |t.log| {
        assert t.log[i] == u.log[i] && LastOf(t, i);
        forall j | i < j < |u.log| ensures u.log[j].serial != u.log[i].serial {
          if j < |t.log| { assert t.log[j] == u.log[j]; }
        }
      }
    }
  }

  lemma CalmTrans(s: State, t: State, u: State)
    requires Calm(s, t) && Calm(t, u)
    ensures Calm(s, u)
  {
    forall i | |s.log| <= i < |u.log| ensures !Ending(u.log[i]) {
      if i < |t.log| { assert t.log[i] == u.log[i]; }
    }
  }

  lemma EmitCalm(env: Env, s: State, p: Ptr, body: Body)
    requires body != Ping && body != Status(BUSY)
    ensures Calm(s, Emit(env, s, p, body))
  {}

  lemma {:induction false} EmitAllCalm(env: Env, s: State, ps: seq<Ptr>, body: Body)
    requires body.Group?
    ensures Calm(s, EmitAll(env, s, ps, body))
    decreases |ps|
  {
    if ps != [] {
      var s1 := Emit(env, s, ps[0], body);
      EmitCalm(env, s, ps[0], body);
      EmitAllCalm(env, s1, ps[1..], body);
      CalmTrans(s, s1, EmitAll(env, s, ps, body));
    }
  }

  // ---- Clean-up ----

  lemma PingEnds(env: Env, s: State, p: Ptr, t: State)
    requires Inv(s, {}) && p in s.calls && s.calls[p].session.Some? && t == ServeOne(env, s, p)
    ensures Ends(s, t)
  {
    CallFacts(s, p);
    var x := s.calls[p].session.value;
    if !RecentlySeen(env, s, s.sessions[x]) {
      assert t.log == s.log + [Frame(x, s.calls[p].serial, Ping, env.accepts(|s.log|))];
      if !env.accepts(|s.log|) { FailedPingSilences(env, s, p); }
    }
  }

  lemma ServeOneEnds(env: Env, s: State, p: Ptr)
    requires Inv(s, {}) && p in s.calls
    ensures Ends(s, ServeOne(env, s, p))
  {
    if s.calls[p].session.Some? { PingEnds(env, s, p, ServeOne(env, s, p)); } else { ReleaseShape(s, p); }
  }

  lemma {:induction false} ServeAllEnds(env: Env, s: State, ps: seq<Ptr>)
    requires Inv(s, {}) && Distinct(ps) && forall p :: p in ps ==> p in s.calls
    ensures Ends(s, ServeAll(env, s, ps))
    decreases |ps|
  {
    if ps != [] {
      var s1 := ServeOne(env, s, ps[0]);
      ServeOneEnds(env, s, ps[0]);
      ServeOneKeeps(env, s, ps[0]);
      ServeOneCalls(env, s, ps[0]);
      DistinctTail(ps);
      ServeAllKeeps(env, s1, ps[1..]);
      ServeAllEnds(env, s1, ps[1..]);
      EndsTrans(s, s1, ServeAll(env, s, ps));
    }
  }

  lemma ServePassEnds(env: Env, s: State)
    requires Inv(s, {})
    ensures Ends(s, ServePass(env, s))
  {
    var s1 := ServeAll(env, s, s.active);
    ListFacts(s);
    ServeAllKeeps(env, s, s.active);
    ServeAllEnds(env, s, s.active);
    ListFacts(s1);
    ServeAllKeeps(env, s1, s1.waiting);
    ServeAllEnds(env, s1, s1.waiting);
    EndsTrans(s, s1, ServePass(env, s));
  }

  // ---- Forwarding ----

  lemma PostEnds(env: Env, s: State, p: Ptr, queue: nat)
    requires Inv(s, {}) && env.Fair() && p in s.calls
    ensures Ends(s, Post(env, s, p, queue))
  {
    QueueLenCounts(s.posted, queue);
    if HasRoom(env, s, queue) { PostLog(env, s, p, queue); } else { BusySilences(env, s, p, queue); }
  }

  lemma PostCopyLog(env: Env, s: State, p: Ptr, queue: nat)
    requires HasRoom(env, s, queue)
    ensures PostCopy(env, s, p, queue).log == s.log
  {}

  lemma PostLog(env: Env, s: State, p: Ptr, queue: nat)
    requires HasRoom(env, s, queue)
    ensures Post(env, s, p, queue).log == s.log
  {
    PostCopyLog(env, s, p, queue);
    assert PostOwn(env, s, p, queue).log == s.log;
  }

  lemma AcknowledgeCalm(env: Env, s: State, p: Ptr)
    ensures Calm(s, Acknowledge(env, s, p))
  {
    EmitCalm(env, s, p, Status(DELIVERED));
  }

  lemma RoutedEnds(env: Env, s: State, p: Ptr)
    requires Inv(s, {}) && env.Fair() && p in s.calls && !s.calls[p].toDelete && s.calls[p].fid in s.routes
    ensures Ends(s, Dispatch(env, s, p))
  {
    var queue := s.routes[s.calls[p].fid];
    var s1 := Post(env, s, p, queue);
    var s2 := ToWaiting(s1, p);
    var t := Acknowledge(env, s2, p);
    CallFacts(s, p);
    PostEnds(env, s, p, queue);
    PostKeeps(env, s, p, queue, {});
    PostFrame(env, s, p, queue);
    ToWaitingKeeps(s1, p, {});
    AcknowledgeKeeps(env, s2, p);
    AcknowledgeCalm(env, s2, p);
    HushTrans(s1, s2, t);
    EndsTrans(s, s1, t);
    assert Dispatch(env, s, p) == t;
  }

  lemma UnroutedEnds(env: Env, s: State, p: Ptr)
    requires p in s.calls && s.calls[p].fid !in s.routes
    ensures Ends(s, Dispatch(env, s, p))
  {
    var s1 := Emit(env, s, p, Status(INVALID));
    EmitCalm(env, s, p, Status(INVALID));
    if p in s1.calls { ReleaseShape(s1, p); }
    assert Dispatch(env, s, p) == Release(s1, p);
  }

  lemma {:induction false} ReleaseAllLog(s: State, ps: seq<Ptr>)
    ensures ReleaseAll(s, ps).log == s.log
    decreases |ps|
  {
    if ps != [] {
      if ps[0] in s.calls { ReleaseShape(s, ps[0]); }
      ReleaseAllLog(Release(s, ps[0]), ps[1..]);
    }
  }

  lemma DeleteCalm(env: Env, s: State, p: Ptr)
    requires p in s.calls
    ensures Calm(s, Delete(env, s, p))
  {
    var s1 := Emit(env, s, p, Status(DELIVERED));
    var s2 := Purge(env, s, p);
    EmitCalm(env, s, p, Status(DELIVERED));
    if s.calls[p].session.Some? { ReleaseAllLog(Cut(s1, p), Doomed(s1, p)); }
    assert s2.log == s1.log;
    ReleaseAllLog(s2, [p]);
    assert ReleaseAll(s2, [p]) == ReleaseAll(Release(s2, p), []);
  }

  lemma ForwardOneEnds(env: Env, s: State, p: Ptr)
    requires Inv(s, {}) && env.Fair() && p in s.calls
    ensures Ends(s, ForwardOne(env, s, p))
  {
    hide Inv, Hush;
    if s.calls[p].toDelete {
      DeleteCalm(env, s, p);
    } else if !Throttled(env, s, s.calls[p]) {
      var s1 := ReadClock(s, s.calls[p]);
      ClockKeeps(s);
      assert s1 == s || s1 == s.(clockReads := s.clockReads + 1);
      if s1.calls[p].fid in s1.routes { RoutedEnds(env, s1, p); } else { UnroutedEnds(env, s1, p); }
      assert ForwardOne(env, s, p) == Dispatch(env, s1, p);
    }
  }

  lemma {:induction false} ForwardAllEnds(env: Env, s: State, ps: seq<Ptr>)
    requires Inv(s, {}) && env.Fair()
    ensures Ends(s, ForwardAll(env, s, ps))
    decreases |ps|
  {
    if ps != [] {
      var s1 := if ps[0] in s.calls then ForwardOne(env, s, ps[0]) else s;
      if ps[0] in s.calls {
        ForwardOneKeeps(env, s, ps[0]);
        ForwardOneEnds(env, s, ps[0]);
      }
      ForwardAllKeeps(env, s1, ps[1..]);
      ForwardAllEnds(env, s1, ps[1..]);
      EndsTrans(s, s1, ForwardAll(env, s, ps));
    }
  }

  // ---- Replies ----

  lemma {:induction false} RunHandlerCalm(env: Env, s: State, p: Ptr, ops: seq<HandlerOp>)
    ensures Calm(s, RunHandler(env, s, p, ops))
    decreases |ops|
  {
    if ops != [] {
      var s1 := HandlerStep(env, s, p, ops[0]);
      if ops[0].Say? { EmitCalm(env, s, p, Said(ops[0].json)); } else { assert s1.log == s.log; }
      RunHandlerCalm(env, s1, p, ops[1..]);
      CalmTrans(s, s1, RunHandler(env, s, p, ops));
    }
  }

  lemma NotifyCalm(env: Env, s: State, p: Ptr, payload: seq<byte>)
    ensures Calm(s, Notify(env, s, p, payload))
  {
    if p in s.calls {
      var ops := env.handler(s.calls[p], payload, |s.log|);
      var s1 := if s.calls[p].handled then RunHandler(env, s, p, ops) else s;
      RunHandlerCalm(env, s, p, ops);
      EmitCalm(env, s1, p, Reply(payload));
      CalmTrans(s, s1, Notify(env, s, p, payload));
    }
  }

  lemma {:induction false} DeliverAllCalm(env: Env, s: State, ps: seq<Ptr>, payload: seq<byte>)
    ensures Calm(s, DeliverAll(env, s, ps, payload))
    decreases |ps|
  {
    if ps != [] {
      var s1 := DeliverOne(env, s, ps[0], payload);
      NotifyCalm(env, s, ps[0], payload);
      assert Calm(s, s1);
      DeliverAllCalm(env, s1, ps[1..], payload);
      CalmTrans(s, s1, DeliverAll(env, s, ps, payload));
    }
  }

  lemma DeliverReplyCalm(env: Env, s: State)
    ensures Calm(s, DeliverReplyInHand(env, s))
  {
    if s.inHand.Some? {
      var r := s.inHand.value;
      if !(r.len > 0 && (r.data.None? || r.data.value !in s.blocks)) {
        var payload := if r.len > 0 then s.blocks[r.data.value] else [];
        DeliverAllCalm(env, s, Addressees(s, r), payload);
        assert DeliverReplyInHand(env, s).log == DeliverAll(env, s, Addressees(s, r), payload).log;
      }
    }
  }

  // ---- The other sections ----

  lemma OnTextCalm(env: Env, s: State, x: Ptr, req: Request)
    requires env.Fair()
    ensures Calm(s, OnText(env, s, x, req))
  {
    RequestFate(env, s, x, req);
  }

  lemma ClientStepLog(env: Env, s: State, e: Event)
    requires e.Connect? || e.Alive? || e.Disconnect? || e.SendDone? || e.Complete?
    ensures Step(env, s, e).log == s.log
  {}

  lemma TableStepLog(env: Env, s: State, e: Event)
    requires e.Register? || e.Unregister? || e.Route?
    ensures Step(env, s, e).log == s.log
  {}

  lemma QueueStepLog(env: Env, s: State, e: Event)
    requires e.Receive? || e.Take? || e.Answer?
    ensures Step(env, s, e).log == s.log
  {
    match e {
      case Receive =>
      case Take(queue) => TakeMsgShape(s, queue);
      case Answer(fid, id, payload) => PutAnswerShape(env, s, fid, id, payload);
    }
  }

  lemma QuietStepLog(env: Env, s: State, e: Event)
    requires !e.Text? && !e.GroupSend? && !e.CollectGarbage? && !e.Forward? && !e.DeliverReply?
    ensures Step(env, s, e).log == s.log
  {
    if e.Register? || e.Unregister? || e.Route? {
      TableStepLog(env, s, e);
    } else if e.Receive? || e.Take? || e.Answer? {
      QueueStepLog(env, s, e);
    } else {
      ClientStepLog(env, s, e);
    }
  }

  lemma StepEnds(env: Env, s: State, e: Event)
    requires Inv(s, {}) && env.Fair()
    ensures Ends(s, Step(env, s, e))
  {
    match e {
      case Text(x, req) => OnTextCalm(env, s, x, req);
      case GroupSend(fid, json) =>
        var targets := Select(s.waiting, LiveFid(s, fid)) + Select(s.active, LiveFid(s, fid));
        EmitAllCalm(env, s, targets, Group(fid, json));
      case CollectGarbage => ServePassEnds(env, s);
      case Forward => ForwardAllEnds(env, s, s.active);
      case DeliverReply => DeliverReplyCalm(env, s);
      case _ => QuietStepLog(env, s, e);
    }
  }

  lemma {:induction false} RunEnds(env: Env, s: State, es: seq<Event>)
    requires Inv(s, {}) && env.Fair()
    ensures Ends(s, Run(env, s, es))
    decreases |es|
  {
    if es != [] {
      var s1 := Step(env, s, es[0]);
      StepKeeps(env, s, es[0]);
      StepEnds(env, s, es[0]);
      RunKeeps(env, s1, es[1..]);
      RunEnds(env, s1, es[1..]);
      EndsTrans(s, s1, Run(env, s, es));
    }
  }

  /** In every run, once a call has been told BUSY, or a ping sent for it could not be queued, it has no
      session and nothing more is sent for it. */
  lemma NothingAfterTheEnd(env: Env, es: seq<Event>, i: nat)
    requires env.Fair() && i < |Run(env, Initial, es).log|
    requires var f := Run(env, Initial, es).log[i]; f.body == Status(BUSY) || (f.body == Ping && !f.ok)
    ensures var s := Run(env, Initial, es);
            && Quiet(s, s.log[i].serial)
            && forall j :: i < j < |s.log| ==> s.log[j].serial != s.log[i].serial
  {
    InitialOk();
    RunEnds(env, Initial, es);
    assert LastOf(Run(env, Initial, es), i);
  }
}
