// What a request asks for stays with its call: from the request on, in every run, the call has the FID, id,
// flags, poll interval and handler that the request gave it.

module WsTerms {
  import opened Lists
  import opened Bytes
  import opened WsModel
  import opened WsInvariant
  import opened WsReplying
  import opened WsRuns
  import opened WsPasses
  import opened WsMeaning
  import opened WsThrottle
  import opened WsQueues

  /** What no section changes of a call. */
  ghost predicate SameTerms(c: Call, d: Call) {
    && d.serial == c.serial && d.fid == c.fid && d.id == c.id && d.len == c.len
    && d.longTerm == c.longTerm && d.toDelete == c.toDelete && d.handled == c.handled && d.interval == c.interval
  }

  /** The calls are those there were, or fewer, on the same terms. */
  ghost predicate Inherits(s: State, t: State) {
    && t.created == s.created
    && forall p :: p in t.calls ==> p in s.calls && SameTerms(s.calls[p], t.calls[p])
  }

  /** As `Inherits`, but there may be younger calls. */
  ghost predicate Keeps(s: State, t: State) {
    && s.created <= t.created
    && forall p :: p in t.calls && t.calls[p].serial < s.created ==> p in s.calls && SameTerms(s.calls[p], t.calls[p])
  }

  lemma KeepsTrans(s: State, t: State, u: State)
    requires Keeps(s, t) && Keeps(t, u)
    ensures Keeps(s, u)
  {}

  // ---- Each section ----

  lemma EmitInherits(env: Env, s: State, p: Ptr, body: Body)
    ensures Inherits(s, Emit(env, s, p, body))
  {}

  lemma CutInherits(s: State, p: Ptr)
    ensures Inherits(s, Cut(s, p))
  {}

  lemma ReleaseInherits(s: State, p: Ptr)
    ensures Inherits(s, Release(s, p))
  {}

  lemma CompleteInherits(s: State, p: Ptr)
    ensures Inherits(s, CompleteCall(s, p))
  {}

  lemma {:induction false} EmitAllInherits(env: Env, s: State, ps: seq<Ptr>, body: Body)
    ensures Inherits(s, EmitAll(env, s, ps, body))
    decreases |ps|
  {
    if ps != [] {
      EmitInherits(env, s, ps[0], body);
      EmitAllInherits(env, Emit(env, s, ps[0], body), ps[1..], body);
    }
  }

  lemma {:induction false} ReleaseAllInherits(s: State, ps: seq<Ptr>)
    ensures Inherits(s, ReleaseAll(s, ps))
    decreases |ps|
  {
    if ps != [] {
      hide Release;
      ReleaseInherits(s, ps[0]);
      ReleaseAllInherits(Release(s, ps[0]), ps[1..]);
    }
  }

  lemma ServeOneInherits(env: Env, s: State, p: Ptr)
    ensures Inherits(s, ServeOne(env, s, p))
  {
    hide RecentlySeen, CompleteCall, Release;
    ReleaseInherits(s, p);
    if p in s.calls && s.calls[p].session.Some? {
      var s1 := s.(clockReads := s.clockReads + 1);
      CompleteInherits(SendPing(env, s1, p, s.calls[p].session.value), p);
    }
  }

  lemma {:induction false} ServeAllInherits(env: Env, s: State, ps: seq<Ptr>)
    ensures Inherits(s, ServeAll(env, s, ps))
    decreases |ps|
  {
    if ps != [] {
      hide ServeOne;
      ServeOneInherits(env, s, ps[0]);
      ServeAllInherits(env, ServeOne(env, s, ps[0]), ps[1..]);
    }
  }

  lemma {:induction false} RunHandlerInherits(env: Env, s: State, p: Ptr, ops: seq<HandlerOp>)
    ensures Inherits(s, RunHandler(env, s, p, ops))
    decreases |ops|
  {
    hide Emit, CompleteCall;
    if ops != [] {
      if ops[0].Say? { EmitInherits(env, s, p, Said(ops[0].json)); }
      CompleteInherits(s, p);
      RunHandlerInherits(env, HandlerStep(env, s, p, ops[0]), p, ops[1..]);
    }
  }

  lemma NotifyInherits(env: Env, s: State, p: Ptr, payload: seq<byte>)
    ensures Inherits(s, Notify(env, s, p, payload))
  {
    hide Emit;
    if p in s.calls {
      var ops := env.handler(s.calls[p], payload, |s.log|);
      RunHandlerInherits(env, s, p, ops);
      EmitInherits(env, if s.calls[p].handled then RunHandler(env, s, p, ops) else s, p, Reply(payload));
    }
  }

  lemma DeliverOneInherits(env: Env, s: State, p: Ptr, payload: seq<byte>)
    ensures Inherits(s, DeliverOne(env, s, p, payload))
  {
    hide Notify;
    NotifyInherits(env, s, p, payload);
    assert Inherits(Notify(env, s, p, payload), Rearm(env, Notify(env, s, p, payload), p));
  }

  lemma {:induction false} DeliverAllInherits(env: Env, s: State, ps: seq<Ptr>, payload: seq<byte>)
    ensures Inherits(s, DeliverAll(env, s, ps, payload))
    decreases |ps|
  {
    if ps != [] {
      hide DeliverOne;
      DeliverOneInherits(env, s, ps[0], payload);
      DeliverAllInherits(env, DeliverOne(env, s, ps[0], payload), ps[1..], payload);
    }
  }

  lemma DeliverReplyInherits(env: Env, s: State)
    ensures Inherits(s, DeliverReplyInHand(env, s))
  {
    hide DeliverAll, Addressees;
    if s.inHand.Some? {
      var r := s.inHand.value;
      if !(r.len > 0 && (r.data.None? || r.data.value !in s.blocks)) {
        DeliverAllInherits(env, s, Addressees(s, r), if r.len > 0 then s.blocks[r.data.value] else []);
      }
    }
  }

  lemma RefuseInherits(env: Env, s: State, p: Ptr)
    ensures Inherits(s, Refuse(env, s, p))
  {
    hide Emit, Cut;
    EmitInherits(env, s, p, Status(BUSY));
    CutInherits(Emit(env, s, p, Status(BUSY)), p);
  }

  lemma CopyInherits(env: Env, s: State, p: Ptr, queue: nat)
    ensures Inherits(s, PostCopy(env, s, p, queue))
  {
    hide Refuse, HasRoom;
    RefuseInherits(env, s, p);
    if p in s.calls && s.calls[p].data.Some? && s.calls[p].data.value in s.blocks {
      var b := env.malloc(s.blocks.Keys);
      var s1 := s.(blocks := s.blocks[b := s.blocks[s.calls[p].data.value]]);
      RefuseInherits(env, FreeBlock(s1, Some(b)), p);
    }
  }

  lemma OwnInherits(env: Env, s: State, p: Ptr, queue: nat)
    ensures Inherits(s, PostOwn(env, s, p, queue))
  {
    hide Refuse, HasRoom;
    RefuseInherits(env, s, p);
  }

  lemma AcknowledgeInherits(env: Env, s: State, p: Ptr)
    ensures Inherits(s, Acknowledge(env, ToWaiting(s, p), p))
  {
    hide Emit;
    EmitInherits(env, ToWaiting(s, p), p, Status(DELIVERED));
  }

  lemma DispatchInherits(env: Env, s: State, p: Ptr)
    ensures Inherits(s, Dispatch(env, s, p))
  {
    hide PostCopy, PostOwn, Acknowledge, ToWaiting, Release, Emit;
    if p in s.calls {
      if s.calls[p].fid in s.routes {
        var queue := s.routes[s.calls[p].fid];
        CopyInherits(env, s, p, queue);
        OwnInherits(env, s, p, queue);
        AcknowledgeInherits(env, Post(env, s, p, queue), p);
      } else {
        EmitInherits(env, s, p, Status(INVALID));
        ReleaseInherits(Emit(env, s, p, Status(INVALID)), p);
      }
    }
  }

  lemma DeleteInherits(env: Env, s: State, p: Ptr)
    ensures Inherits(s, Delete(env, s, p))
  {
    hide Emit, Cut, Doomed, Release;
    var s1 := Emit(env, s, p, Status(DELIVERED));
    EmitInherits(env, s, p, Status(DELIVERED));
    CutInherits(s1, p);
    ReleaseAllInherits(Cut(s1, p), Doomed(s1, p));
    ReleaseInherits(Purge(env, s, p), p);
  }

  lemma ForwardOneInherits(env: Env, s: State, p: Ptr)
    ensures Inherits(s, ForwardOne(env, s, p))
  {
    hide Delete, Dispatch;
    DeleteInherits(env, s, p);
    if p in s.calls { DispatchInherits(env, ReadClock(s, s.calls[p]), p); }
  }

  lemma {:induction false} ForwardAllInherits(env: Env, s: State, ps: seq<Ptr>)
    ensures Inherits(s, ForwardAll(env, s, ps))
    decreases |ps|
  {
    if ps != [] {
      hide ForwardOne;
      ForwardOneInherits(env, s, ps[0]);
      ForwardAllInherits(env, if ps[0] in s.calls then ForwardOne(env, s, ps[0]) else s, ps[1..]);
    }
  }

  /** A request brings at most one call, the youngest. */
  lemma TextKeeps(env: Env, s: State, x: Ptr, req: Request)
    requires env.Fair()
    ensures Keeps(s, OnText(env, s, x, req))
  {
    hide OnText;
    RequestFate(env, s, x, req);
  }

  lemma BreakInherits(s: State, fd: int, fid: nat)
    ensures Inherits(s, BreakFd(s, fd)) && Inherits(s, BreakFid(s, fid))
  {}

  lemma QueueStepInherits(env: Env, s: State, queue: nat, fid: nat, id: nat, payload: seq<byte>)
    ensures TakeMsg(s, queue).calls == s.calls && TakeMsg(s, queue).created == s.created
    ensures var t := PutAnswer(env, s, fid, id, payload); t.calls == s.calls && t.created == s.created
  {}

  lemma SessionStepInherits(env: Env, s: State, e: Event)
    requires e.Connect? || e.Alive? || e.Register? || e.Route? || e.Receive?
    ensures Step(env, s, e).calls == s.calls && Step(env, s, e).created == s.created
  {}

  lemma BreakStepInherits(env: Env, s: State, e: Event)
    requires e.Disconnect? || e.SendDone? || e.Unregister?
    ensures Inherits(s, Step(env, s, e))
  {
    hide BreakFd, BreakFid;
    match e {
      case Disconnect(x) => if x in s.sessions { BreakInherits(s, s.sessions[x].fd, 0); }
      case SendDone(_, fd, _) => BreakInherits(s, fd, 0);
      case Unregister(fid, _) => BreakInherits(s, 0, fid);
    }
  }

  lemma PassInherits(env: Env, s: State, e: Event)
    requires e.CollectGarbage? || e.Forward? || e.DeliverReply? || e.GroupSend?
    ensures Inherits(s, Step(env, s, e))
  {
    match e {
      case GroupSend(fid, json) =>
        var targets := Select(s.waiting, LiveFid(s, fid)) + Select(s.active, LiveFid(s, fid));
        EmitAllInherits(env, s, targets, Group(fid, json));
      case CollectGarbage =>
        var s1 := ServeAll(env, s, s.active);
        ServeAllInherits(env, s, s.active);
        ServeAllInherits(env, s1, s1.waiting);
      case Forward => ForwardAllInherits(env, s, s.active);
      case DeliverReply => DeliverReplyInherits(env, s);
    }
  }

  lemma StepKeepsTerms(env: Env, s: State, e: Event)
    requires env.Fair()
    ensures Keeps(s, Step(env, s, e))
  {
    match e {
      case Text(x, req) => TextKeeps(env, s, x, req);
      case Take(queue) => QueueStepInherits(env, s, queue, 0, 0, []);
      case Answer(fid, id, payload) => QueueStepInherits(env, s, 0, fid, id, payload);
      case Complete(p) => CompleteInherits(s, p);
      case _ =>
        if e.CollectGarbage? || e.Forward? || e.DeliverReply? || e.GroupSend? {
          PassInherits(env, s, e);
        } else if e.Disconnect? || e.SendDone? || e.Unregister? {
          BreakStepInherits(env, s, e);
        } else {
          SessionStepInherits(env, s, e);
        }
    }
  }

  lemma {:induction false} RunKeepsTerms(env: Env, s: State, es: seq<Event>)
    requires env.Fair()
    ensures Keeps(s, Run(env, s, es))
    decreases |es|
  {
    if es != [] {
      hide Step;
      var s1 := Step(env, s, es[0]);
      StepKeepsTerms(env, s, es[0]);
      RunKeepsTerms(env, s1, es[1..]);
      KeepsTrans(s, s1, Run(env, s, es));
    }
  }

  // ---- From the request on ----

  /** What a request that `s` takes on makes of its call, for as long as that exists. */
  ghost predicate AsAsked(env: Env, s: State, req: Request, c: Call)
    requires req.Parsed? && req.flags.Some? && req.sid.Some?
  {
    && c.fid == Wrap(req.fid) && c.id == req.sid.value % 0x1_0000
    && (c.longTerm <==> Wrap(req.flags.value) / 4 % 2 == 1) && (c.toDelete <==> Wrap(req.flags.value) / 8 % 2 == 1)
    && c.len == (if req.arg.Some? then |req.arg.value| else 0)
    && c.interval == IntervalAsked(env, req) && (c.handled <==> Wrap(req.fid) in s.handlers)
  }

  /** In every run, whatever follows a request that is taken on: its call, which has the serial the request was
      given, is what the request asked for, with the handler that was registered for its FID at that moment. */
  lemma CallAsAsked(env: Env, before: seq<Event>, x: Ptr, req: Request, after: seq<Event>, p: Ptr)
    requires env.Fair() && TakenOn(Run(env, Initial, before), x, req)
    requires var s := Run(env, Initial, before);
             var t := Run(env, Step(env, s, Text(x, req)), after);
             p in t.calls && t.calls[p].serial == s.created
    ensures var s := Run(env, Initial, before);
            var t := Run(env, Step(env, s, Text(x, req)), after);
            AsAsked(env, s, req, t.calls[p])
  {
    hide Step;
    var s := Run(env, Initial, before);
    InitialOk();
    RunKeeps(env, Initial, before);
    AskedAtOnce(env, s, x, req, p);
    RunKeepsTerms(env, Step(env, s, Text(x, req)), after);
  }

  lemma AskedAtOnce(env: Env, s: State, x: Ptr, req: Request, p: Ptr)
    requires Inv(s, {}) && env.Fair() && TakenOn(s, x, req)
    ensures var t := Step(env, s, Text(x, req));
            && t.created == s.created + 1
            && (p in t.calls && t.calls[p].serial == s.created ==> AsAsked(env, s, req, t.calls[p]))
  {
    RequestFate(env, s, x, req);
    var t := Step(env, s, Text(x, req));
    var q := env.malloc(s.calls.Keys);
    assert Records(env, s, t, q, x, req);
    assert t.created == s.created + 1;
    if p in t.calls && p != q { assert CallOk(s, p, {}); }
  }

  // ---- The poll interval ----

  /** A long-term call whose request `req` has been acknowledged, seen in `mid` less than 2^31 ticks late. */
  ghost predicate PollTestable(env: Env, mid: State, p: Ptr, req: Request) {
    && p in mid.calls && mid.calls[p].longTerm && !mid.calls[p].isNew && IntervalAsked(env, req) < 0x8000_0000
    && (mid.calls[p].repliedAt.Some? ==>
          env.clock(mid.clockReads) < mid.calls[p].repliedAt.value + IntervalAsked(env, req) + 0x8000_0000)
  }

  /** The call is forwarded exactly if the interval that the request asked for has passed since the last
      reply: so at once if it asked for none.  Otherwise it stays where it is. */
  ghost predicate PolledAs(env: Env, mid: State, p: Ptr, req: Request)
    requires p in mid.calls
  {
    var t := ForwardOne(env, mid, p);
    var now := mid.(clockReads := mid.clockReads + 1);
    && mid.calls[p].repliedAt.Some?
    && (p in t.active <==> env.clock(mid.clockReads) - mid.calls[p].repliedAt.value < IntervalAsked(env, req))
    && (p in t.active ==> t == now && IntervalAsked(env, req) > 0)
    && (p !in t.active && mid.calls[p].fid in mid.routes ==> HandedOrRefused(env, now, t, p))
  }

  /** In every run, whatever follows a request that is taken on: wherever its acknowledged long-term call
      stands in the active list, the pass forwards it again exactly when the delay that the request gave,
      in ticks, has passed since its last reply; without a positive delay, whenever it comes to it. */
  lemma PolledAsAsked(env: Env, before: seq<Event>, x: Ptr, req: Request, after: seq<Event>, pre: seq<Ptr>, p: Ptr,
      post: seq<Ptr>)
    requires env.Fair() && TakenOn(Run(env, Initial, before), x, req)
    requires var s := Run(env, Initial, before);
             var t := Run(env, Step(env, s, Text(x, req)), after);
             var mid := ForwardAll(env, t, pre);
             && t.active == pre + [p] + post && PollTestable(env, mid, p, req) && mid.calls[p].serial == s.created
    ensures var t := Run(env, Step(env, Run(env, Initial, before), Text(x, req)), after);
            PolledAs(env, ForwardAll(env, t, pre), p, req)
  {
    hide Step;
    var s := Run(env, Initial, before);
    var t := Run(env, Step(env, s, Text(x, req)), after);
    var mid := ForwardAll(env, t, pre);
    hide Run, Inv, Punctual, Bounded, ForwardAll, PolledAs;
    RunsSound(env, before, Text(x, req), after);
    ForwardAllInherits(env, t, pre);
    CallAsAsked(env, before, x, req, after, p);
    PolledInRun(env, t, pre, p, post, req);
  }

  lemma PolledInRun(env: Env, t: State, pre: seq<Ptr>, p: Ptr, post: seq<Ptr>, req: Request)
    requires env.Fair() && Inv(t, {}) && Punctual(env, t) && Bounded(env, t) && t.active == pre + [p] + post
    requires PollTestable(env, ForwardAll(env, t, pre), p, req)
    requires ForwardAll(env, t, pre).calls[p].interval == IntervalAsked(env, req)
    ensures PolledAs(env, ForwardAll(env, t, pre), p, req)
  {
    hide PolledAs, PolledWhenDue, IntervalAsked;
    var mid := ForwardAll(env, t, pre);
    PolledInPass(env, t, pre, p, post);
    MidPunctual(env, t, pre, p, post);
    ForwardMid(env, t, pre, p, post);
    ForwardAllBounded(env, t, pre);
    assert p in [p] + post && p in mid.active;
    DueOrResting(env, mid, p);
    PolledOnce(env, mid, p, req);
  }

  lemma RunsSound(env: Env, before: seq<Event>, e: Event, after: seq<Event>)
    requires env.Fair()
    ensures var t := Run(env, Step(env, Run(env, Initial, before), e), after);
            Inv(t, {}) && Punctual(env, t) && Bounded(env, t)
  {
    hide Step;
    var s := Run(env, Initial, before);
    var s1 := Step(env, s, e);
    InitialOk();
    InitialBounded(env);
    RunKeeps(env, Initial, before);
    RunPunctual(env, Initial, before);
    RunBounded(env, Initial, before);
    StepKeeps(env, s, e);
    StepPunctual(env, s, e);
    StepBounded(env, s, e);
    RunKeeps(env, s1, after);
    RunPunctual(env, s1, after);
    RunBounded(env, s1, after);
  }

  lemma PolledOnce(env: Env, s: State, p: Ptr, req: Request)
    requires Inv(s, {}) && env.Fair() && Bounded(env, s) && p in s.calls && p in s.active
    requires PolledWhenDue(env, s, p) && s.calls[p].interval == IntervalAsked(env, req)
    requires !s.calls[p].toDelete && s.calls[p].repliedAt.Some?
             && s.calls[p].repliedAt.value <= env.clock(s.clockReads)
    ensures PolledAs(env, s, p, req)
  {
    hide ForwardOne, Dispatch, Inv, HandedOrRefused;
    var now := s.(clockReads := s.clockReads + 1);
    ClockKeeps(s);
    assert Bounded(env, now);
    if s.calls[p].fid in s.routes { DispatchedOnce(env, now, p); }
  }
}
