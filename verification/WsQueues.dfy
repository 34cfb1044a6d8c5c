// The queues: no peripheral's queue ever holds more than it has room for, a call is refused exactly when
// its queue is full, and every queue is first in, first out.

module WsQueues {
  import opened Lists
  import opened Bytes
  import opened WsModel
  import opened WsInvariant
  import opened WsForwarding
  import opened WsRuns
  import opened WsTheorems
  import opened WsPasses
  import opened WsMeaning

  // ---- What leaves the queues and tables alone ----

  /** The queues and the tables are as they were. */
  ghost predicate Outside(s: State, t: State) {
    && t.posted == s.posted && t.replies == s.replies && t.inHand == s.inHand
    && t.handlers == s.handlers && t.routes == s.routes
  }

  /** As `Outside`, but for the peripherals' queues. */
  ghost predicate OnlyPosts(s: State, t: State) {
    && t.replies == s.replies && t.inHand == s.inHand
    && t.handlers == s.handlers && t.routes == s.routes
  }

  lemma EmitOutside(env: Env, s: State, p: Ptr, body: Body)
    ensures Outside(s, Emit(env, s, p, body))
  {}

  lemma FreeBlockOutside(s: State, o: Option<Ptr>)
    ensures Outside(s, FreeBlock(s, o))
  {}

  lemma {:induction false} EmitAllOutside(env: Env, s: State, ps: seq<Ptr>, body: Body)
    ensures Outside(s, EmitAll(env, s, ps, body))
    decreases |ps|
  {
    if ps != [] { EmitAllOutside(env, Emit(env, s, ps[0], body), ps[1..], body); }
  }

  lemma ReleaseOutside(s: State, p: Ptr)
    ensures Outside(s, Release(s, p))
  {}

  lemma {:induction false} ReleaseAllOutside(s: State, ps: seq<Ptr>)
    ensures Outside(s, ReleaseAll(s, ps))
    decreases |ps|
  {
    if ps != [] {
      ReleaseOutside(s, ps[0]);
      ReleaseAllOutside(Release(s, ps[0]), ps[1..]);
    }
  }

  lemma CompleteOutside(s: State, p: Ptr)
    ensures Outside(s, CompleteCall(s, p))
  {}

  lemma PingOutside(env: Env, s: State, p: Ptr, x: Ptr)
    requires x in s.sessions && p in s.calls
    ensures Outside(s, PingCall(env, s, p, x))
  {
    CompleteOutside(SendPing(env, s, p, x), p);
  }

  lemma ServeOneOutside(env: Env, s: State, p: Ptr)
    ensures Outside(s, ServeOne(env, s, p))
  {
    hide RecentlySeen, PingCall;
    if p in s.calls {
      ReleaseOutside(s, p);
      if s.calls[p].session.Some? && s.calls[p].session.value in s.sessions {
        PingOutside(env, s.(clockReads := s.clockReads + 1), p, s.calls[p].session.value);
      }
    }
  }

  lemma {:induction false} ServeAllOutside(env: Env, s: State, ps: seq<Ptr>)
    ensures Outside(s, ServeAll(env, s, ps))
    decreases |ps|
  {
    if ps != [] {
      ServeOneOutside(env, s, ps[0]);
      ServeAllOutside(env, ServeOne(env, s, ps[0]), ps[1..]);
    }
  }

  lemma {:induction false} RunHandlerOutside(env: Env, s: State, p: Ptr, ops: seq<HandlerOp>)
    ensures Outside(s, RunHandler(env, s, p, ops))
    decreases |ops|
  {
    hide Emit, CompleteCall;
    if ops != [] {
      if ops[0].Say? { EmitOutside(env, s, p, Said(ops[0].json)); }
      CompleteOutside(s, p);
      RunHandlerOutside(env, HandlerStep(env, s, p, ops[0]), p, ops[1..]);
    }
  }

  lemma DeliverOneOutside(env: Env, s: State, p: Ptr, payload: seq<byte>)
    ensures Outside(s, DeliverOne(env, s, p, payload))
  {
    hide Notify;
    NotifyOutside(env, s, p, payload);
    assert Outside(Notify(env, s, p, payload), Rearm(env, Notify(env, s, p, payload), p));
  }

  lemma NotifyOutside(env: Env, s: State, p: Ptr, payload: seq<byte>)
    ensures Outside(s, Notify(env, s, p, payload))
  {
    hide Emit;
    if p in s.calls {
      var ops := env.handler(s.calls[p], payload, |s.log|);
      RunHandlerOutside(env, s, p, ops);
      EmitOutside(env, if s.calls[p].handled then RunHandler(env, s, p, ops) else s, p, Reply(payload));
    }
  }

  lemma {:induction false} DeliverAllOutside(env: Env, s: State, ps: seq<Ptr>, payload: seq<byte>)
    ensures Outside(s, DeliverAll(env, s, ps, payload))
    decreases |ps|
  {
    if ps != [] {
      DeliverOneOutside(env, s, ps[0], payload);
      DeliverAllOutside(env, DeliverOne(env, s, ps[0], payload), ps[1..], payload);
    }
  }

  lemma DeleteOutside(env: Env, s: State, p: Ptr)
    ensures Outside(s, Delete(env, s, p))
  {
    hide Emit, Doomed, Release;
    if p in s.calls {
      var s1 := Emit(env, s, p, Status(DELIVERED));
      EmitOutside(env, s, p, Status(DELIVERED));
      ReleaseAllOutside(Cut(s1, p), Doomed(s1, p));
    }
    ReleaseOutside(Purge(env, s, p), p);
  }

  // ---- Bounded queues ----

  ghost predicate Bounded(env: Env, s: State) { forall q: nat :: |Places(s.posted, q)| <= env.depth(q) }

  /** A post adds at most one message, to its own queue, and only if there is room. */
  lemma PostBounded(env: Env, s: State, p: Ptr, queue: nat)
    requires Bounded(env, s)
    ensures var t := Post(env, s, p, queue);
            OnlyPosts(s, t) && Bounded(env, t)
  {
    var t := Post(env, s, p, queue);
    PostAppends(env, s, p, queue);
    if t.posted != s.posted { AppendBounded(env, s, t); }
  }

  ghost predicate Appends(env: Env, s: State, t: State, queue: nat) {
    && OnlyPosts(s, t)
    && (t.posted == s.posted
       || (|t.posted| > 0 && t.posted == s.posted + [t.posted[|t.posted| - 1]]
           && t.posted[|t.posted| - 1].queue == queue && HasRoom(env, s, queue)))
  }

  lemma RefuseOutside(env: Env, s: State, p: Ptr)
    ensures Outside(s, Refuse(env, s, p))
  {
    hide Emit;
    EmitOutside(env, s, p, Status(BUSY));
  }

  lemma CopyAppends(env: Env, s: State, p: Ptr, queue: nat)
    ensures Appends(env, s, PostCopy(env, s, p, queue), queue)
  {
    hide Refuse, HasRoom;
    RefuseOutside(env, s, p);
    if p in s.calls && s.calls[p].data.Some? && s.calls[p].data.value in s.blocks {
      var b := env.malloc(s.blocks.Keys);
      var s1 := s.(blocks := s.blocks[b := s.blocks[s.calls[p].data.value]]);
      RefuseOutside(env, FreeBlock(s1, Some(b)), p);
    }
  }

  lemma OwnAppends(env: Env, s: State, p: Ptr, queue: nat)
    ensures Appends(env, s, PostOwn(env, s, p, queue), queue)
  {
    hide Refuse, HasRoom;
    RefuseOutside(env, s, p);
  }

  lemma PostAppends(env: Env, s: State, p: Ptr, queue: nat)
    ensures Appends(env, s, Post(env, s, p, queue), queue)
  {
    hide PostCopy, PostOwn, HasRoom;
    CopyAppends(env, s, p, queue);
    OwnAppends(env, s, p, queue);
  }

  lemma AppendBounded(env: Env, s: State, t: State)
    requires Bounded(env, s) && |t.posted| > 0 && t.posted == s.posted + [t.posted[|t.posted| - 1]]
             && HasRoom(env, s, t.posted[|t.posted| - 1].queue)
    ensures Bounded(env, t)
  {
    var m := t.posted[|t.posted| - 1];
    forall q: nat ensures |Places(t.posted, q)| <= env.depth(q) {
      assert |Places(s.posted, q)| <= env.depth(q);
      QueueLenAppend(s.posted, m, q);
      QueueLenCounts(s.posted, q);
      QueueLenCounts(t.posted, q);
    }
  }

  lemma AcknowledgeOutside(env: Env, s: State, p: Ptr)
    ensures Outside(s, Acknowledge(env, ToWaiting(s, p), p))
  {
    hide Emit;
    EmitOutside(env, ToWaiting(s, p), p, Status(DELIVERED));
  }

  lemma DispatchBounded(env: Env, s: State, p: Ptr)
    requires Bounded(env, s)
    ensures OnlyPosts(s, Dispatch(env, s, p)) && Bounded(env, Dispatch(env, s, p))
  {
    hide Post, Acknowledge, ToWaiting, Release;
    if p in s.calls {
      if s.calls[p].fid in s.routes {
        PostBounded(env, s, p, s.routes[s.calls[p].fid]);
        AcknowledgeOutside(env, Post(env, s, p, s.routes[s.calls[p].fid]), p);
      } else {
        ReleaseOutside(Emit(env, s, p, Status(INVALID)), p);
      }
    }
  }

  lemma ForwardOneBounded(env: Env, s: State, p: Ptr)
    requires Bounded(env, s)
    ensures OnlyPosts(s, ForwardOne(env, s, p)) && Bounded(env, ForwardOne(env, s, p))
  {
    hide Delete, Dispatch;
    if p in s.calls {
      DeleteOutside(env, s, p);
      var s1 := ReadClock(s, s.calls[p]);
      assert Bounded(env, s1);
      DispatchBounded(env, s1, p);
    }
  }

  lemma {:induction false} ForwardAllBounded(env: Env, s: State, ps: seq<Ptr>)
    requires Bounded(env, s)
    ensures OnlyPosts(s, ForwardAll(env, s, ps)) && Bounded(env, ForwardAll(env, s, ps))
    decreases |ps|
  {
    if ps != [] {
      var s1 := if ps[0] in s.calls then ForwardOne(env, s, ps[0]) else s;
      ForwardOneBounded(env, s, ps[0]);
      ForwardAllBounded(env, s1, ps[1..]);
    }
  }

  // ---- First in, first out ----

  /** Taking from a queue takes the first message for it and leaves the others in order. */
  lemma {:induction false} PopFirst(ms: seq<Msg>, queue: nat, i: nat)
    requires i < |ms| && ms[i].queue == queue && forall j :: 0 <= j < i ==> ms[j].queue != queue
    ensures Pop(ms, queue) == (ms[..i] + ms[i + 1..], Some(ms[i]))
    decreases |ms|
  {
    if i > 0 {
      assert ms[0].queue != queue;
      forall j | 0 <= j < i - 1 ensures ms[1..][j].queue != queue { assert ms[1..][j] == ms[j + 1]; }
      PopFirst(ms[1..], queue, i - 1);
      assert [ms[0]] + (ms[1..][..i - 1] + ms[1..][i..]) == ms[..i] + ms[i + 1..];
    } else {
      assert ms[..0] + ms[1..] == ms[1..];
    }
  }

  lemma {:induction false} PopNone(ms: seq<Msg>, queue: nat)
    requires forall j :: 0 <= j < |ms| ==> ms[j].queue != queue
    ensures Pop(ms, queue) == (ms, None)
    decreases |ms|
  {
    if ms != [] {
      assert ms[0].queue != queue;
      forall j | 0 <= j < |ms[1..]| ensures ms[1..][j].queue != queue { assert ms[1..][j] == ms[j + 1]; }
      PopNone(ms[1..], queue);
      assert [ms[0]] + ms[1..] == ms;
    }
  }

  /** A peripheral gets the oldest message for it, or nothing if there is none. */
  lemma TakesOldest(s: State, queue: nat, i: nat)
    requires Inv(s, {}) && i <= |s.posted| && forall j :: 0 <= j < i ==> s.posted[j].queue != queue
    requires i < |s.posted| ==> s.posted[i].queue == queue
    ensures var t := TakeMsg(s, queue);
            && (i == |s.posted| ==> t == s)
            && (i < |s.posted| ==>
                  && t.posted == s.posted[..i] + s.posted[i + 1..]
                  && t == s.(posted := t.posted, blocks := t.blocks)
                  && t.blocks == s.blocks - (if s.posted[i].data.Some? then {s.posted[i].data.value} else {}))
  {
    if i == |s.posted| {
      PopNone(s.posted, queue);
    } else {
      PopFirst(s.posted, queue, i);
      TakeMsgMemory(s, queue);
    }
  }

  lemma {:induction false} PopShorter(ms: seq<Msg>, queue: nat, q: nat)
    ensures QueueLen(Pop(ms, queue).0, q) <= QueueLen(ms, q)
    decreases |ms|
  {
    if ms != [] && ms[0].queue != queue {
      PopShorter(ms[1..], queue, q);
      var rest := Pop(ms[1..], queue).0;
      assert ([ms[0]] + rest)[1..] == rest;
    }
  }

  lemma TakeBounded(env: Env, s: State, queue: nat)
    requires Bounded(env, s)
    ensures Bounded(env, TakeMsg(s, queue))
  {
    var t := TakeMsg(s, queue);
    forall q: nat ensures |Places(t.posted, q)| <= env.depth(q) {
      assert |Places(s.posted, q)| <= env.depth(q);
      PopShorter(s.posted, queue, q);
      QueueLenCounts(s.posted, q);
      QueueLenCounts(t.posted, q);
    }
  }

  // ---- Whole runs ----

  lemma TextOutside(env: Env, s: State, x: Ptr, req: Request)
    ensures Outside(s, OnText(env, s, x, req))
  {
    hide Place, NewCall;
    if !(x !in s.sessions || req.Malformed? || Wrap(req.fid) == 0) {
      var (s1, data) := Store(env, s, req.arg);
      var s2 := s1.(created := s.created + 1);
      var c := NewCall(env, s, x, req, data);
      PlaceOutside(env, s2, env.malloc(s.calls.Keys), c, req);
    }
  }

  lemma RejectOutside(env: Env, s: State, p: Ptr, c: Call, code: nat)
    ensures Outside(s, Reject(env, s, p, c, code))
  {
    hide Emit, FreeBlock;
    var s1 := s.(calls := s.calls[p := c]);
    EmitOutside(env, s1, p, Status(code));
    FreeBlockOutside(Emit(env, s1, p, Status(code)), c.data);
  }

  lemma PlaceOutside(env: Env, s: State, p: Ptr, c: Call, req: Request)
    requires req.Parsed?
    ensures Outside(s, Place(env, s, p, c, req))
  {
    hide Reject;
    RejectOutside(env, s, p, c.(id := 0), BAD_REQ);
    RejectOutside(env, s, p, c, NO_HANDLER);
  }

  lemma PassOutside(env: Env, s: State, e: Event)
    requires e.GroupSend? || e.CollectGarbage? || e.Text?
    ensures Outside(s, Step(env, s, e))
  {
    match e {
      case GroupSend(fid, json) =>
        var targets := Select(s.waiting, LiveFid(s, fid)) + Select(s.active, LiveFid(s, fid));
        EmitAllOutside(env, s, targets, Group(fid, json));
      case CollectGarbage =>
        ServeAllOutside(env, s, s.active);
        var s1 := ServeAll(env, s, s.active);
        ServeAllOutside(env, s1, s1.waiting);
      case Text(x, req) => TextOutside(env, s, x, req);
    }
  }

  lemma DeliverPosted(env: Env, s: State)
    ensures var t := DeliverReplyInHand(env, s);
            t.posted == s.posted && t.replies == s.replies && t.handlers == s.handlers && t.routes == s.routes
  {
    if s.inHand.Some? {
      var r := s.inHand.value;
      if !(r.len > 0 && (r.data.None? || r.data.value !in s.blocks)) {
        DeliverAllOutside(env, s, Addressees(s, r), if r.len > 0 then s.blocks[r.data.value] else []);
      }
    }
  }

  lemma StepBounded(env: Env, s: State, e: Event)
    requires Bounded(env, s)
    ensures Bounded(env, Step(env, s, e))
  {
    match e {
      case Forward => ForwardAllBounded(env, s, s.active);
      case Take(queue) => TakeBounded(env, s, queue);
      case DeliverReply => DeliverPosted(env, s);
      case GroupSend(_, _) => PassOutside(env, s, e);
      case CollectGarbage => PassOutside(env, s, e);
      case Text(_, _) => PassOutside(env, s, e);
      case Complete(p) => CompleteOutside(s, p);
      case _ => assert Step(env, s, e).posted == s.posted;
    }
  }

  lemma {:induction false} RunBounded(env: Env, s: State, es: seq<Event>)
    requires Bounded(env, s)
    ensures Bounded(env, Run(env, s, es))
    decreases |es|
  {
    if es != [] {
      StepBounded(env, s, es[0]);
      RunBounded(env, Step(env, s, es[0]), es[1..]);
    }
  }

  lemma InitialBounded(env: Env)
    ensures Bounded(env, Initial)
  {
    forall q: nat ensures |Places(Initial.posted, q)| <= env.depth(q) { assert Places(Initial.posted, q) == {}; }
  }

  /** In every run no peripheral's queue holds more messages than its depth. */
  lemma QueuesBounded(env: Env, es: seq<Event>, q: nat)
    ensures var s := Run(env, Initial, es);
            |set i: nat | i < |s.posted| && s.posted[i].queue == q| <= env.depth(q)
  {
    InitialBounded(env);
    RunBounded(env, Initial, es);
    assert |Places(Run(env, Initial, es).posted, q)| <= env.depth(q);
  }

  /** A call is refused exactly when its queue is full: it is told BUSY, if it has a client, and loses its
      session, and nothing is posted; otherwise one message goes to the end of the queue. */
  lemma RefusedExactlyWhenFull(env: Env, s: State, p: Ptr, queue: nat)
    requires Inv(s, {}) && env.Fair() && p in s.calls && Bounded(env, s)
    ensures var full := |set i: nat | i < |s.posted| && s.posted[i].queue == queue| == env.depth(queue);
            var t := Post(env, s, p, queue);
            && (full <==> t.posted == s.posted)
            && (full ==>
                  && Quiet(t, s.calls[p].serial) && t.blocks == s.blocks
                  && t.log == s.log + match s.calls[p].session
                                      case None => []
                                      case Some(x) => [Frame(x, s.calls[p].serial, Status(BUSY), env.accepts(|s.log|))])
            && (!full ==> Handed(s, t, p, queue) && t.log == s.log)
  {
    assert (set i: nat | i < |s.posted| && s.posted[i].queue == queue) == Places(s.posted, queue);
    assert |Places(s.posted, queue)| <= env.depth(queue);
    QueueLenCounts(s.posted, queue);
    CallFacts(s, p);
    if |Places(s.posted, queue)| == env.depth(queue) {
      BusySilences(env, s, p, queue);
      assert s.log + [] == s.log;
    } else {
      PostHands(env, s, p, queue);
    }
  }

  /** What forwarding a call that is due comes to: a message at the end of its queue, or nothing if that is full. */
  ghost predicate HandedOrRefused(env: Env, s: State, t: State, p: Ptr)
    requires p in s.calls && s.calls[p].fid in s.routes
  {
    var queue := s.routes[s.calls[p].fid];
    && p in t.waiting && p !in t.active
    && (t.posted == s.posted <==> |set i: nat | i < |s.posted| && s.posted[i].queue == queue| == env.depth(queue))
    && (t.posted != s.posted ==>
          |t.posted| == |s.posted| + 1 && s.posted <= t.posted && t.posted[|s.posted|].queue == queue
          && Hands(s, t, p, t.posted[|s.posted|]))
  }

  /** In any run, wherever a new or one-shot call with a queue stands in the active list: when the pass
      comes to it, it is refused exactly if its queue is full then, and handed over otherwise. */
  lemma ForwardedOrBusy(env: Env, es: seq<Event>, pre: seq<Ptr>, p: Ptr, post: seq<Ptr>)
    requires env.Fair() && Run(env, Initial, es).active == pre + [p] + post
    requires var mid := ForwardAll(env, Run(env, Initial, es), pre);
             && p in mid.calls && !mid.calls[p].toDelete && (!mid.calls[p].longTerm || mid.calls[p].isNew)
             && mid.calls[p].fid in mid.routes
    ensures var mid := ForwardAll(env, Run(env, Initial, es), pre);
            HandedOrRefused(env, mid, ForwardOne(env, mid, p), p)
  {
    var s := Run(env, Initial, es);
    var mid := ForwardAll(env, s, pre);
    InitialOk();
    RunKeeps(env, Initial, es);
    ForwardMid(env, s, pre, p, post);
    InitialBounded(env);
    RunBounded(env, Initial, es);
    ForwardAllBounded(env, s, pre);
    assert p in [p] + post && p in mid.active;
    DispatchedOnce(env, mid, p);
    assert ForwardOne(env, mid, p) == Dispatch(env, mid, p);
  }

  lemma DispatchedOnce(env: Env, s: State, p: Ptr)
    requires Inv(s, {}) && env.Fair() && Bounded(env, s) && p in s.calls && p in s.active && !s.calls[p].toDelete
    requires s.calls[p].fid in s.routes
    ensures HandedOrRefused(env, s, Dispatch(env, s, p), p)
  {
    hide Dispatch, Hands, Inv;
    var queue := s.routes[s.calls[p].fid];
    var full := set i: nat | i < |s.posted| && s.posted[i].queue == queue;
    assert full == Places(s.posted, queue);
    assert |Places(s.posted, queue)| <= env.depth(queue);
    DispatchFate(env, s, p);
    DispatchedWaits(env, s, p);
    if |full| == env.depth(queue) {
      DispatchPostsAs(env, s, p);
      RefusedExactlyWhenFull(env, s, p, queue);
    } else {
      DispatchHandsOver(env, s, p);
    }
  }

  lemma DispatchPostsAs(env: Env, s: State, p: Ptr)
    requires p in s.calls && s.calls[p].fid in s.routes
    ensures Dispatch(env, s, p).posted == Post(env, s, p, s.routes[s.calls[p].fid]).posted
  {
    hide Post, Acknowledge, ToWaiting;
    AcknowledgeOutside(env, Post(env, s, p, s.routes[s.calls[p].fid]), p);
  }

  lemma DispatchedWaits(env: Env, s: State, p: Ptr)
    requires Inv(s, {}) && env.Fair() && p in s.calls && s.calls[p].fid in s.routes
    ensures p in Dispatch(env, s, p).waiting
  {
    hide Post;
    var queue := s.routes[s.calls[p].fid];
    CallFacts(s, p);
    PostFrame(env, s, p, queue);
    AcknowledgeFate(env, ToWaiting(Post(env, s, p, queue), p), p);
  }

  // ---- The worker's queue ----

  /** An answer joins the end of the worker's queue, as long as that holds fewer than ten, with its FID, id
      and payload; an answer that finds it full leaves nothing behind. */
  lemma AnswerJoinsQueue(env: Env, s: State, fid: nat, id: nat, payload: seq<byte>)
    requires env.Fair()
    ensures var t := Step(env, s, Answer(fid, id, payload));
            && (|s.replies| >= 10 ==> t == s)
            && (|s.replies| < 10 ==>
                  && |t.replies| == |s.replies| + 1 && t.replies[..|s.replies|] == s.replies
                  && t == s.(replies := t.replies, blocks := t.blocks)
                  && var m := t.replies[|s.replies|];
                  && m.fid == fid && m.id == id && m.len == |payload|
                  && (payload == [] ==> m.data.None? && t.blocks == s.blocks)
                  && (payload != [] ==> m.data.Some? && m.data.value !in s.blocks
                                        && t.blocks == s.blocks[m.data.value := payload]))
  {
    var b := env.malloc(s.blocks.Keys);
    if |s.replies| >= 10 && payload != [] { assert s.blocks[b := payload] - {b} == s.blocks; }
  }

  /** The worker takes the oldest answer, once it has dealt with the one before. */
  lemma ReceivesOldest(env: Env, s: State)
    ensures var t := Step(env, s, Receive);
            && (s.inHand.Some? || s.replies == [] ==> t == s)
            && (s.inHand.None? && s.replies != [] ==>
                  t == s.(inHand := t.inHand, replies := t.replies) && t.inHand.Some?
                  && s.replies == [t.inHand.value] + t.replies)
  {}

  /** Every other section leaves the queue of answers as it is. */
  lemma AnswersStand(env: Env, s: State, e: Event)
    requires !e.Answer? && !e.Receive?
    ensures Step(env, s, e).replies == s.replies
  {
    match e {
      case Forward => AnswersForwarded(env, s, s.active);
      case DeliverReply => DeliverPosted(env, s);
      case GroupSend(_, _) => PassOutside(env, s, e);
      case CollectGarbage => PassOutside(env, s, e);
      case Text(_, _) => PassOutside(env, s, e);
      case Complete(p) => CompleteOutside(s, p);
      case _ =>
    }
  }

  lemma {:induction false} AnswersForwarded(env: Env, s: State, ps: seq<Ptr>)
    ensures OnlyPosts(s, ForwardAll(env, s, ps))
    decreases |ps|
  {
    if ps != [] {
      var s1 := if ps[0] in s.calls then ForwardOne(env, s, ps[0]) else s;
      ForwardOneOnlyPosts(env, s, ps[0]);
      AnswersForwarded(env, s1, ps[1..]);
    }
  }

  lemma ForwardOneOnlyPosts(env: Env, s: State, p: Ptr)
    ensures OnlyPosts(s, ForwardOne(env, s, p))
  {
    hide Delete, Dispatch;
    if p in s.calls {
      DeleteOutside(env, s, p);
      DispatchOnlyPosts(env, ReadClock(s, s.calls[p]), p);
    }
  }

  lemma DispatchOnlyPosts(env: Env, s: State, p: Ptr)
    ensures OnlyPosts(s, Dispatch(env, s, p))
  {
    hide Post, Acknowledge, ToWaiting, Release;
    if p in s.calls {
      if s.calls[p].fid in s.routes {
        PostAppends(env, s, p, s.routes[s.calls[p].fid]);
        AcknowledgeOutside(env, Post(env, s, p, s.routes[s.calls[p].fid]), p);
      } else {
        ReleaseOutside(Emit(env, s, p, Status(INVALID)), p);
      }
    }
  }
}
