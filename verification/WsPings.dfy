// When the clean-up pass pings a client, in spite of the clock's wrap-around, in any run.

module WsPings {
  import opened Lists
  import opened Bytes
  import opened WsModel
  import opened WsInvariant
  import opened WsSteps
  import opened WsForwarding
  import opened WsReplying
  import opened WsRuns
  import opened WsTheorems
  import opened WsPasses
  import opened WsMeaning
  import opened WsDelivery
  import opened WsWalks

  /** The wrapped times of each client are readings made no later than now. */
  ghost predicate Timed(env: Env, s: State) {
    forall x :: x in s.sessions ==> TimedSession(s.sessions[x], env.clock(s.clockReads))
  }

  ghost predicate TimedSession(sess: Session, now: nat) {
    && sess.aliveAt == Wrap(sess.heardAt) && sess.heardAt <= now
    && sess.pingAt == Wrap(sess.pingedAt) && sess.pingedAt <= now
  }

  /** The clients are as they were, or gone, and the clock has not been unread. */
  ghost predicate SameClients(s: State, t: State) {
    && s.clockReads <= t.clockReads
    && forall x :: x in t.sessions ==> x in s.sessions && t.sessions[x] == s.sessions[x]
  }

  lemma SameClientsTimed(env: Env, s: State, t: State)
    requires env.Fair() && SameClients(s, t) && Timed(env, s)
    ensures Timed(env, t)
  {
    assert env.clock(s.clockReads) <= env.clock(t.clockReads);
    forall x | x in t.sessions ensures TimedSession(t.sessions[x], env.clock(t.clockReads)) {
      assert TimedSession(s.sessions[x], env.clock(s.clockReads));
    }
  }

  /** One client is new or has a new time, read from the clock just now. */
  lemma StampedTimed(env: Env, s: State, t: State, x: Ptr)
    requires env.Fair() && Timed(env, s) && t.clockReads == s.clockReads + 1
    requires x in t.sessions && t.sessions == s.sessions[x := t.sessions[x]]
    requires TimedSession(t.sessions[x], env.clock(s.clockReads))
    ensures Timed(env, t)
  {
    assert env.clock(s.clockReads) <= env.clock(t.clockReads);
    forall y | y in t.sessions ensures TimedSession(t.sessions[y], env.clock(t.clockReads)) {
      if y != x { assert TimedSession(s.sessions[y], env.clock(s.clockReads)); }
    }
  }

  // ---- Each section ----

  lemma PingTimed(env: Env, s: State, p: Ptr)
    requires env.Fair() && ListedOnce(s) && Timed(env, s) && p in s.calls && s.calls[p].session.Some?
    requires s.calls[p].session.value in s.sessions
    ensures Timed(env, PingCall(env, s, p, s.calls[p].session.value))
  {
    var x := s.calls[p].session.value;
    var t := PingCall(env, s, p, x);
    assert TimedSession(s.sessions[x], env.clock(s.clockReads));
    if env.accepts(|s.log|) {
      StampedTimed(env, s, t, x);
    } else {
      SameClientsTimed(env, s, t);
    }
  }

  lemma ServeLiveTimed(env: Env, s: State, p: Ptr)
    requires env.Fair() && ListedOnce(s) && Timed(env, s) && p in s.calls && s.calls[p].session.Some?
    requires s.calls[p].session.value in s.sessions
    ensures Timed(env, ServeLive(env, s, p, s.calls[p].session.value))
  {
    var s1 := s.(clockReads := s.clockReads + 1);
    SameClientsTimed(env, s, s1);
    var seen := RecentlySeen(env, s, s.sessions[s.calls[p].session.value]);
    if !seen { PingTimed(env, s1, p); }
    assert Timed(env, PingUnless(env, s1, p, s.calls[p].session.value, seen));
  }

  lemma ReleaseTimed(env: Env, s: State, p: Ptr)
    requires env.Fair() && Timed(env, s) && p in s.calls
    ensures Timed(env, Release(s, p))
  {
    ReleaseShape(s, p);
    SameClientsTimed(env, s, Release(s, p));
  }

  lemma ServeOneTimed(env: Env, s: State, p: Ptr)
    requires env.Fair() && Inv(s, {}) && Timed(env, s) && p in s.calls
    ensures Timed(env, ServeOne(env, s, p))
  {
    CallFacts(s, p);
    if s.calls[p].session.None? { ReleaseTimed(env, s, p); } else { ServeLiveTimed(env, s, p); }
  }

  lemma {:induction false} ServeAllTimed(env: Env, s: State, ps: seq<Ptr>)
    requires env.Fair() && Inv(s, {}) && Timed(env, s) && Distinct(ps) && forall p :: p in ps ==> p in s.calls
    ensures Timed(env, ServeAll(env, s, ps)) && Inv(ServeAll(env, s, ps), {})
    decreases |ps|
  {
    if ps != [] {
      ServeOneTimed(env, s, ps[0]);
      ServeOneKeeps(env, s, ps[0]);
      ServeOneCalls(env, s, ps[0]);
      DistinctTail(ps);
      ServeAllTimed(env, ServeOne(env, s, ps[0]), ps[1..]);
    }
  }

  lemma ServePassTimed(env: Env, s: State)
    requires env.Fair() && Inv(s, {}) && Timed(env, s)
    ensures Timed(env, ServePass(env, s))
  {
    ListFacts(s);
    ServeAllTimed(env, s, s.active);
    var s1 := ServeAll(env, s, s.active);
    ListFacts(s1);
    ServeAllTimed(env, s1, s1.waiting);
  }

  lemma {:induction false} ForwardClients(env: Env, s: State, ps: seq<Ptr>)
    requires Inv(s, {}) && env.Fair() && Distinct(ps) && forall p :: p in ps && p in s.calls ==> p in s.active
    ensures SameClients(s, ForwardAll(env, s, ps))
    decreases |ps|
  {
    if ps != [] {
      var p := ps[0];
      var s1 := if p in s.calls then ForwardOne(env, s, p) else s;
      DistinctTail(ps);
      if p in s.calls {
        ForwardOneKeeps(env, s, p);
        ForwardOneFate(env, s, p);
      }
      ForwardClients(env, s1, ps[1..]);
    }
  }

  lemma DeliverClients(env: Env, s: State)
    requires Inv(s, {})
    ensures SameClients(s, DeliverReplyInHand(env, s))
  {
    if s.inHand.Some? {
      var r := s.inHand.value;
      if r.data.Some? { InHandBlock(s); }
      var payload := if r.len > 0 then s.blocks[r.data.value] else [];
      AddresseesReady(s, r);
      DeliverAllFate(env, s, Addressees(s, r), payload);
      var t := DeliverAll(env, s, Addressees(s, r), payload);
      assert DeliverReplyInHand(env, s) == FreeBlock(t, r.data).(inHand := None);
    }
  }

  lemma {:induction false} EmitAllClients(env: Env, s: State, ps: seq<Ptr>, body: Body)
    ensures SameClients(s, EmitAll(env, s, ps, body))
    decreases |ps|
  {
    if ps != [] { EmitAllClients(env, Emit(env, s, ps[0], body), ps[1..], body); }
  }

  lemma TextClients(env: Env, s: State, x: Ptr, req: Request)
    requires env.Fair()
    ensures SameClients(s, OnText(env, s, x, req))
  {
    RequestFate(env, s, x, req);
  }

  lemma QuietStepClients(env: Env, s: State, e: Event)
    requires e.Disconnect? || e.SendDone? || e.Register? || e.Unregister? || e.Route? || e.Complete?
    ensures SameClients(s, Step(env, s, e))
  {}

  lemma QueueStepClients(env: Env, s: State, queue: nat, fid: nat, id: nat, payload: seq<byte>)
    ensures SameClients(s, TakeMsg(s, queue)) && SameClients(s, PutAnswer(env, s, fid, id, payload))
  {
    TakeMsgShape(s, queue);
    PutAnswerShape(env, s, fid, id, payload);
  }

  lemma StampTimed(env: Env, s: State, e: Event)
    requires env.Fair() && Timed(env, s) && (e.Connect? || e.Alive?)
    ensures Timed(env, Step(env, s, e))
  {
    var t := Step(env, s, e);
    match e {
      case Connect(fd) => StampedTimed(env, s, t, env.malloc(s.sessions.Keys));
      case Alive(x) =>
        if x in s.sessions {
          assert TimedSession(s.sessions[x], env.clock(s.clockReads));
          StampedTimed(env, s, t, x);
        }
    }
  }

  lemma OtherStepClients(env: Env, s: State, e: Event)
    requires Inv(s, {}) && env.Fair() && !e.Connect? && !e.Alive? && !e.CollectGarbage?
    ensures SameClients(s, Step(env, s, e))
  {
    match e {
      case Text(x, req) => TextClients(env, s, x, req);
      case GroupSend(fid, json) =>
        var targets := Select(s.waiting, LiveFid(s, fid)) + Select(s.active, LiveFid(s, fid));
        EmitAllClients(env, s, targets, Group(fid, json));
      case Forward =>
        ListFacts(s);
        ForwardClients(env, s, s.active);
      case DeliverReply => DeliverClients(env, s);
      case Receive =>
      case Take(queue) => QueueStepClients(env, s, queue, 0, 0, []);
      case Answer(fid, id, payload) => QueueStepClients(env, s, 0, fid, id, payload);
      case _ => QuietStepClients(env, s, e);
    }
  }

  lemma StepTimed(env: Env, s: State, e: Event)
    requires Inv(s, {}) && env.Fair() && Timed(env, s)
    ensures Timed(env, Step(env, s, e))
  {
    if e.Connect? || e.Alive? {
      StampTimed(env, s, e);
    } else if e.CollectGarbage? {
      ServePassTimed(env, s);
    } else {
      OtherStepClients(env, s, e);
      SameClientsTimed(env, s, Step(env, s, e));
    }
  }

  lemma {:induction false} RunTimed(env: Env, s: State, es: seq<Event>)
    requires Inv(s, {}) && env.Fair() && Timed(env, s)
    ensures Timed(env, Run(env, s, es))
    decreases |es|
  {
    if es != [] {
      StepKeeps(env, s, es[0]);
      StepTimed(env, s, es[0]);
      RunTimed(env, Step(env, s, es[0]), es[1..]);
    }
  }

  // ---- A visit of the clean-up pass ----

  /** A difference of wrapped readings is the time between them, if that is less than 2^32 ticks. */
  lemma WrappedSince(now: nat, start: nat)
    requires start <= now < start + TWO32
    ensures Since(Wrap(now), Wrap(start)) == now - start
  {
    assert Wrap(Wrap(now) - Wrap(start)) == Wrap(now - start);
  }

  /** A live call whose client was last heard from, and last pinged, less than 2^32 ticks ago. */
  ghost predicate PingTestable(env: Env, s: State, p: Ptr) {
    && p in s.calls && s.calls[p].session.Some? && s.calls[p].session.value in s.sessions
    && var sess := s.sessions[s.calls[p].session.value];
    && env.clock(s.clockReads) < sess.heardAt + TWO32 && env.clock(s.clockReads) < sess.pingedAt + TWO32
  }

  /** What serving such a call does: a ping exactly when its client has been quiet, and not been pinged,
      for the ping delay. */
  ghost predicate PingedWhenQuiet(env: Env, s: State, p: Ptr)
    requires PingTestable(env, s, p)
  {
    var x := s.calls[p].session.value;
    var sess := s.sessions[x];
    var now := env.clock(s.clockReads);
    var ok := env.accepts(|s.log|);
    var i := s.clockReads + 1;
    var t := ServeOne(env, s, p);
    if now - sess.heardAt >= PING_DELAY && now - sess.pingedAt >= PING_DELAY then
      && t.log == s.log + [Frame(x, s.calls[p].serial, Ping, ok)]
      && t.sessions
         == (if ok then s.sessions[x := sess.(pingAt := env.Tick(i), pingedAt := env.clock(i))] else s.sessions)
      && (ok ==> t.calls == s.calls)
    else
      t == s.(clockReads := s.clockReads + 1)
  }

  lemma PingSent(env: Env, s: State, p: Ptr)
    requires ListedOnce(s) && p in s.calls && s.calls[p].session.Some? && s.calls[p].session.value in s.sessions
    ensures var x := s.calls[p].session.value;
            var ok := env.accepts(|s.log|);
            var t := PingCall(env, s, p, x);
            && t.log == s.log + [Frame(x, s.calls[p].serial, Ping, ok)]
            && t.sessions == (if ok then s.sessions[x := Pinged(env, s.sessions[x], s.clockReads)] else s.sessions)
            && (ok ==> t.calls == s.calls)
  {
    ListFacts(s);
  }

  lemma PingDecided(env: Env, s: State, p: Ptr)
    requires Inv(s, {}) && Timed(env, s) && PingTestable(env, s, p)
    ensures PingedWhenQuiet(env, s, p)
  {
    var x := s.calls[p].session.value;
    var sess := s.sessions[x];
    var now := env.clock(s.clockReads);
    assert TimedSession(sess, now);
    WrappedSince(now, sess.heardAt);
    WrappedSince(now, sess.pingedAt);
    var s1 := s.(clockReads := s.clockReads + 1);
    PingSent(env, s1, p);
    assert ServeOne(env, s, p) == PingUnless(env, s1, p, x, RecentlySeen(env, s, sess));
  }

  lemma {:induction false} ServeAllAppend(env: Env, s: State, ps: seq<Ptr>, qs: seq<Ptr>)
    ensures ServeAll(env, s, ps + qs) == ServeAll(env, ServeAll(env, s, ps), qs)
    decreases |ps|
  {
    if ps == [] {
      assert ps + qs == qs;
    } else {
      assert (ps + qs)[1..] == ps[1..] + qs;
      ServeAllAppend(env, ServeOne(env, s, ps[0]), ps[1..], qs);
    }
  }

  lemma VisitTimed(env: Env, s: State, list: seq<Ptr>, pre: seq<Ptr>, p: Ptr, post: seq<Ptr>)
    requires Inv(s, {}) && env.Fair() && Timed(env, s) && list == pre + [p] + post && Distinct(list)
    requires forall q :: q in list ==> q in s.calls
    ensures var mid := ServeAll(env, s, pre);
            && Inv(mid, {}) && Timed(env, mid)
            && ServeAll(env, s, list) == ServeAll(env, ServeOne(env, mid, p), post)
  {
    assert list == pre + ([p] + post) && ([p] + post)[1..] == post;
    ServeAllAppend(env, s, pre, [p] + post);
    DistinctParts(pre, p, post);
    forall q | q in pre ensures q in s.calls { assert q in list; }
    ServeAllTimed(env, s, pre);
  }

  /** The state in which the clean-up pass of `s` begins with one of its two lists. */
  function PassStart(env: Env, s: State, onActive: bool): State {
    if onActive then s else ServeAll(env, s, s.active)
  }

  lemma PassStartFacts(env: Env, s: State, onActive: bool)
    requires Inv(s, {}) && env.Fair() && Timed(env, s)
    ensures var start := PassStart(env, s, onActive);
            && Inv(start, {}) && Timed(env, start)
            && Distinct(ListOf(start, onActive)) && forall q :: q in ListOf(start, onActive) ==> q in start.calls
  {
    ListFacts(s);
    if !onActive { ServeAllTimed(env, s, s.active); }
    ListFacts(PassStart(env, s, onActive));
  }

  /** In any run, wherever a live call stands in its list: when the clean-up pass comes to it, its client is
      pinged exactly when it was last heard from, and last pinged, at least a ping delay ago. */
  lemma PingedExactlyWhenQuiet(env: Env, es: seq<Event>, onActive: bool, pre: seq<Ptr>, p: Ptr, post: seq<Ptr>)
    requires env.Fair()
    requires var start := PassStart(env, Run(env, Initial, es), onActive);
             ListOf(start, onActive) == pre + [p] + post && PingTestable(env, ServeAll(env, start, pre), p)
    ensures var start := PassStart(env, Run(env, Initial, es), onActive);
            var mid := ServeAll(env, start, pre);
            && PingedWhenQuiet(env, mid, p)
            && ServeAll(env, start, ListOf(start, onActive)) == ServeAll(env, ServeOne(env, mid, p), post)
  {
    var s := Run(env, Initial, es);
    var start := PassStart(env, s, onActive);
    InitialOk();
    RunKeeps(env, Initial, es);
    RunTimed(env, Initial, es);
    PassStartFacts(env, s, onActive);
    VisitTimed(env, start, ListOf(start, onActive), pre, p, post);
    PingDecided(env, ServeAll(env, start, pre), p);
  }
}
