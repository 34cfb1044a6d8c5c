// When an acknowledged long-term call is forwarded again, in spite of 32-bit clock wrap-around.

module WsThrottle {
  import opened Lists
  import opened Bytes
  import opened WsModel
  import opened WsInvariant
  import opened WsSteps
  import opened WsForwarding
  import opened WsReplying
  import opened WsRuns
  import opened WsTheorems
  import opened WsPasses
  import opened WsMeaning
  import opened WsDelivery

  /** No call was last replied to in the future. */
  ghost predicate Punctual(env: Env, s: State) {
    forall p :: p in s.calls && s.calls[p].repliedAt.Some? ==> s.calls[p].repliedAt.value <= env.clock(s.clockReads)
  }

  /** No call has got a new reply time, and the clock has not been unread. */
  ghost predicate Kept(s: State, t: State) {
    && s.clockReads <= t.clockReads
    && forall p :: p in t.calls && t.calls[p].repliedAt.Some? ==>
         p in s.calls && s.calls[p].repliedAt == t.calls[p].repliedAt
  }

  lemma KeptPunctual(env: Env, s: State, t: State)
    requires env.Fair() && Kept(s, t) && Punctual(env, s)
    ensures Punctual(env, t)
  {
    assert env.clock(s.clockReads) <= env.clock(t.clockReads);
  }

  lemma {:induction false} ForwardAllPunctual(env: Env, s: State, ps: seq<Ptr>)
    requires Inv(s, {}) && env.Fair() && Distinct(ps) && Punctual(env, s)
    requires forall p :: p in ps && p in s.calls ==> p in s.active
    ensures Punctual(env, ForwardAll(env, s, ps))
    decreases |ps|
  {
    if ps != [] {
      var p := ps[0];
      var s1 := if p in s.calls then ForwardOne(env, s, p) else s;
      DistinctTail(ps);
      if p in s.calls {
        ForwardOneKeeps(env, s, p);
        ForwardOneFate(env, s, p);
      }
      KeptPunctual(env, s, s1);
      ForwardAllPunctual(env, s1, ps[1..]);
    }
  }

  lemma {:induction false} ServeAllPunctual(env: Env, s: State, ps: seq<Ptr>)
    requires Inv(s, {}) && env.Fair() && Distinct(ps) && Punctual(env, s) && forall p :: p in ps ==> p in s.calls
    ensures Punctual(env, ServeAll(env, s, ps))
    decreases |ps|
  {
    if ps != [] {
      var s1 := ServeOne(env, s, ps[0]);
      ServeOneKeeps(env, s, ps[0]);
      ServeOneFate(env, s, ps[0]);
      DistinctTail(ps);
      KeptPunctual(env, s, s1);
      ServeAllPunctual(env, s1, ps[1..]);
    }
  }

  lemma ServePassPunctual(env: Env, s: State)
    requires Inv(s, {}) && env.Fair() && Punctual(env, s)
    ensures Punctual(env, ServePass(env, s))
  {
    var s1 := ServeAll(env, s, s.active);
    ListFacts(s);
    ServeAllKeeps(env, s, s.active);
    ServeAllPunctual(env, s, s.active);
    ListFacts(s1);
    ServeAllPunctual(env, s1, s1.waiting);
  }

  /** A reply stamps its addressees with clock readings of its own. */
  lemma DeliveredPunctual(env: Env, s: State, t: State, ps: seq<Ptr>)
    requires env.Fair() && Punctual(env, s) && Delivered(env, s, t, ps)
    ensures Punctual(env, t)
  {
    assert env.clock(s.clockReads) <= env.clock(t.clockReads);
    forall p | p in t.calls && t.calls[p].repliedAt.Some?
      ensures t.calls[p].repliedAt.value <= env.clock(t.clockReads)
    {
      if p in ps {
        assert Rearmed(env, s.calls[p], t.calls[p], s.clockReads, t.clockReads);
        var i: nat :| s.clockReads <= i < t.clockReads && t.calls[p].repliedAt == Some(env.clock(i));
        assert env.clock(i) <= env.clock(t.clockReads);
      }
    }
  }

  lemma DeliverReplyPunctual(env: Env, s: State)
    requires Inv(s, {}) && env.Fair() && Punctual(env, s)
    ensures Punctual(env, DeliverReplyInHand(env, s))
  {
    if s.inHand.Some? {
      var r := s.inHand.value;
      if r.data.Some? { InHandBlock(s); }
      var payload := if r.len > 0 then s.blocks[r.data.value] else [];
      AddresseesReady(s, r);
      DeliverAllFate(env, s, Addressees(s, r), payload);
      var t := DeliverAll(env, s, Addressees(s, r), payload);
      DeliveredPunctual(env, s, t, Addressees(s, r));
      KeptPunctual(env, t, FreeBlock(t, r.data).(inHand := None));
    }
  }

  lemma {:induction false} EmitAllCalls(env: Env, s: State, ps: seq<Ptr>, body: Body)
    ensures EmitAll(env, s, ps, body).calls == s.calls && EmitAll(env, s, ps, body).clockReads == s.clockReads
    decreases |ps|
  {
    if ps != [] { EmitAllCalls(env, Emit(env, s, ps[0], body), ps[1..], body); }
  }

  lemma OnTextKept(env: Env, s: State, x: Ptr, req: Request)
    requires env.Fair()
    ensures Kept(s, OnText(env, s, x, req))
  {
    RequestFate(env, s, x, req);
  }

  lemma QueueStepKept(env: Env, s: State, queue: nat, fid: nat, id: nat, payload: seq<byte>)
    ensures Kept(s, TakeMsg(s, queue)) && Kept(s, PutAnswer(env, s, fid, id, payload))
  {
    TakeMsgShape(s, queue);
    PutAnswerShape(env, s, fid, id, payload);
  }

  lemma SessionStepKept(env: Env, s: State, e: Event)
    requires e.Connect? || e.Alive? || e.Register? || e.Route? || e.Complete?
    ensures Kept(s, Step(env, s, e))
  {}

  lemma BreakFdKept(s: State, fd: int)
    ensures Kept(s, BreakFd(s, fd))
  {}

  lemma BreakFidKept(s: State, fid: nat)
    ensures Kept(s, BreakFid(s, fid))
  {}

  lemma BreakStepKept(env: Env, s: State, e: Event)
    requires e.Disconnect? || e.SendDone? || e.Unregister?
    ensures Kept(s, Step(env, s, e))
  {
    match e {
      case Disconnect(x) => if x in s.sessions { BreakFdKept(s, s.sessions[x].fd); }
      case SendDone(failed, fd, locked) => BreakFdKept(s, fd);
      case Unregister(fid, locked) => BreakFidKept(s, fid);
    }
  }

  lemma OtherStepKept(env: Env, s: State, e: Event)
    requires e.Receive? || e.Connect? || e.Alive? || e.Register? || e.Route? || e.Complete?
             || e.Disconnect? || e.SendDone? || e.Unregister?
    ensures Kept(s, Step(env, s, e))
  {
    if e.Disconnect? || e.SendDone? || e.Unregister? {
      BreakStepKept(env, s, e);
    } else if e.Receive? {
      assert Step(env, s, e).calls == s.calls && Step(env, s, e).clockReads == s.clockReads;
    } else {
      SessionStepKept(env, s, e);
    }
  }

  lemma StepPunctual(env: Env, s: State, e: Event)
    requires Inv(s, {}) && env.Fair() && Punctual(env, s)
    ensures Punctual(env, Step(env, s, e))
  {
    match e {
      case GroupSend(fid, json) =>
        EmitAllCalls(env, s, Select(s.waiting, LiveFid(s, fid)) + Select(s.active, LiveFid(s, fid)), Group(fid, json));
      case CollectGarbage => ServePassPunctual(env, s);
      case Forward =>
        ListFacts(s);
        ForwardAllPunctual(env, s, s.active);
      case DeliverReply => DeliverReplyPunctual(env, s);
      case Text(x, req) => OnTextKept(env, s, x, req); KeptPunctual(env, s, Step(env, s, e));
      case Take(queue) => QueueStepKept(env, s, queue, 0, 0, []); KeptPunctual(env, s, Step(env, s, e));
      case Answer(fid, id, payload) =>
        QueueStepKept(env, s, 0, fid, id, payload);
        KeptPunctual(env, s, Step(env, s, e));
      case _ => OtherStepKept(env, s, e); KeptPunctual(env, s, Step(env, s, e));
    }
  }

  lemma {:induction false} RunPunctual(env: Env, s: State, es: seq<Event>)
    requires Inv(s, {}) && env.Fair() && Punctual(env, s)
    ensures Punctual(env, Run(env, s, es))
    decreases |es|
  {
    if es != [] {
      StepKeeps(env, s, es[0]);
      StepPunctual(env, s, es[0]);
      RunPunctual(env, Step(env, s, es[0]), es[1..]);
    }
  }

  /** The wrapped comparison decides the unwrapped one, for an interval and a lateness below 2^31. */
  lemma WrappedComparison(now: nat, start: nat, interval: nat)
    requires start <= now < start + interval + 0x8000_0000 && interval < 0x8000_0000
    ensures Before(Wrap(now), Wrap(start + interval)) <==> now - start < interval
  {
    var due := start + interval;
    assert Wrap(Wrap(now) - Wrap(due)) == Wrap(now - due);
    if now < due {
      assert Wrap(now - due) == now - due + TWO32;
    } else {
      assert Wrap(now - due) == now - due;
    }
  }

  /** An acknowledged long-term call with an interval below 2^31 ticks, looked at less than 2^31 ticks late. */
  ghost predicate DueTestable(env: Env, s: State, p: Ptr) {
    && p in s.calls && s.calls[p].longTerm && !s.calls[p].isNew && s.calls[p].interval < 0x8000_0000
    && (s.calls[p].repliedAt.Some? ==>
          env.clock(s.clockReads) < s.calls[p].repliedAt.value + s.calls[p].interval + 0x8000_0000)
  }

  lemma DueOrResting(env: Env, s: State, p: Ptr)
    requires env.Fair() && Inv(s, {}) && Punctual(env, s) && p in s.active && DueTestable(env, s, p)
    ensures s.calls[p].repliedAt.Some?
    ensures Throttled(env, s, s.calls[p])
            <==> env.clock(s.clockReads) - s.calls[p].repliedAt.value < s.calls[p].interval
    ensures !s.calls[p].toDelete
  {
    assert CallOk(s, p, {});
    WrappedComparison(env.clock(s.clockReads), s.calls[p].repliedAt.value, s.calls[p].interval);
  }

  /** The throttle seen from one state of a run. */
  ghost predicate PolledWhenDue(env: Env, s: State, p: Ptr)
    requires p in s.calls
  {
    var t := ForwardOne(env, s, p);
    && s.calls[p].repliedAt.Some?
    && (p in t.active <==> env.clock(s.clockReads) - s.calls[p].repliedAt.value < s.calls[p].interval)
    && (p in t.active ==> t == s.(clockReads := s.clockReads + 1))
    && (p !in t.active ==> t == Dispatch(env, s.(clockReads := s.clockReads + 1), p))
  }

  lemma PolledInState(env: Env, s: State, p: Ptr)
    requires env.Fair() && Inv(s, {}) && Punctual(env, s) && p in s.active && DueTestable(env, s, p)
    ensures PolledWhenDue(env, s, p)
  {
    DueOrResting(env, s, p);
    ForwardOneFate(env, s, p);
  }

  /** The state in which a forwarding pass looks at `p` keeps its reply times in the past. */
  lemma MidPunctual(env: Env, s: State, pre: seq<Ptr>, p: Ptr, post: seq<Ptr>)
    requires Inv(s, {}) && env.Fair() && Punctual(env, s) && s.active == pre + [p] + post
    ensures Punctual(env, ForwardAll(env, s, pre))
  {
    ListFacts(s);
    assert s.active == pre + ([p] + post);
    PrefixDistinct(pre, [p] + post);
    forall q | q in pre ensures q in s.active { assert q in pre + ([p] + post); }
    ForwardAllPunctual(env, s, pre);
  }

  lemma PrefixDistinct(pre: seq<Ptr>, post: seq<Ptr>)
    requires Distinct(pre + post)
    ensures Distinct(pre)
  {
    forall q: Ptr ensures Count(pre, q) <= 1 {
      CountAppend(pre, post, q);
      assert Count(pre + post, q) <= 1;
    }
  }

  lemma PolledInPass(env: Env, s: State, pre: seq<Ptr>, p: Ptr, post: seq<Ptr>)
    requires Inv(s, {}) && env.Fair() && Punctual(env, s) && s.active == pre + [p] + post
    requires DueTestable(env, ForwardAll(env, s, pre), p)
    ensures PolledWhenDue(env, ForwardAll(env, s, pre), p)
    ensures ForwardAll(env, s, s.active) == ForwardAll(env, ForwardOne(env, ForwardAll(env, s, pre), p), post)
  {
    var mid := ForwardAll(env, s, pre);
    MidPunctual(env, s, pre, p, post);
    ForwardMid(env, s, pre, p, post);
    assert p in [p] + post && ([p] + post)[1..] == post;
    PolledInState(env, mid, p);
  }

  /** In any run, wherever an acknowledged long-term call stands in the active list: when the forwarding
      pass comes to it, it is forwarded (or found to have no queue) exactly when its poll interval has
      passed since its last reply; before that it stays on the active list untouched. */
  lemma PolledExactlyWhenDue(env: Env, es: seq<Event>, pre: seq<Ptr>, p: Ptr, post: seq<Ptr>)
    requires env.Fair() && Run(env, Initial, es).active == pre + [p] + post
    requires DueTestable(env, ForwardAll(env, Run(env, Initial, es), pre), p)
    ensures var s := Run(env, Initial, es);
            var mid := ForwardAll(env, s, pre);
            && PolledWhenDue(env, mid, p)
            && ForwardAll(env, s, s.active) == ForwardAll(env, ForwardOne(env, mid, p), post)
  {
    InitialOk();
    RunKeeps(env, Initial, es);
    RunPunctual(env, Initial, es);
    PolledInPass(env, Run(env, Initial, es), pre, p, post);
  }
}
