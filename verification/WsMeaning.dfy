// What single operations mean for the clients and the peripherals: which requests are taken on, and what
// a peripheral is handed.

module WsMeaning {
  import opened Lists
  import opened Bytes
  import opened WsModel
  import opened WsInvariant
  import opened WsForwarding
  import opened WsRuns
  import opened WsPasses

  // ---- Requests ----

  /** A request with a FID, FLAGS and a SID, for which a handler or a queue is registered. */
  predicate TakenOn(s: State, x: Ptr, req: Request) {
    && x in s.sessions && req.Parsed? && Wrap(req.fid) != 0 && req.flags.Some? && req.sid.Some?
    && (Wrap(req.fid) in s.handlers || Wrap(req.fid) in s.routes)
  }

  /** What is sent for a request that is not taken on. */
  function Refusal(s: State, x: Ptr, req: Request): Option<nat> {
    if x !in s.sessions || !req.Parsed? || Wrap(req.fid) == 0 then None
    else if req.flags.None? || req.sid.None? then Some(BAD_REQ)
    else Some(NO_HANDLER)
  }

  /** The poll interval a request asks for, in ticks: none unless it gives a positive delay. */
  function IntervalAsked(env: Env, req: Request): nat {
    if req.Parsed? && req.arg.Some? && req.rdl.Some? && req.rdl.value > 0 then env.toTicks(req.rdl.value) else 0
  }

  /** The record of a request that was taken on; its handler is the one registered at that moment. */
  ghost predicate Records(env: Env, s: State, t: State, p: Ptr, x: Ptr, req: Request)
    requires TakenOn(s, x, req)
  {
    && p !in s.calls && p in t.calls
    && var c := t.calls[p];
    && c.session == Some(x) && c.fid == Wrap(req.fid) && c.id == req.sid.value % 0x1_0000
    && c.isNew && c.pending == 1 && c.serial == s.created && c.repliedAt.None?
    && (c.longTerm <==> Wrap(req.flags.value) / 4 % 2 == 1) && (c.toDelete <==> Wrap(req.flags.value) / 8 % 2 == 1)
    && c.interval == IntervalAsked(env, req) && (c.handled <==> Wrap(req.fid) in s.handlers) && c.nextPoll == 0
    && (req.arg.None? ==> c.data.None? && c.len == 0)
    && (req.arg.Some? ==> c.data.Some? && c.data.value in t.blocks && t.blocks[c.data.value] == req.arg.value
                          && c.len == |req.arg.value|)
  }

  lemma TakenOnPlaced(env: Env, s: State, x: Ptr, req: Request, t: State, p: Ptr)
    requires env.Fair() && TakenOn(s, x, req) && t == OnText(env, s, x, req) && p == env.malloc(s.calls.Keys)
    ensures t.active == s.active + [p] && p in t.calls && t.calls == s.calls[p := t.calls[p]] && t.log == s.log
    ensures Records(env, s, t, p, x, req) && t.created == s.created + 1
            && t == s.(calls := t.calls, blocks := t.blocks, active := t.active, created := t.created)
  {
    var s1 := Stored(env, s, req.arg);
    StoredShape(env, s, req.arg);
    var c := NewCall(env, s, x, req, Store(env, s, req.arg).1);
    var u := SetCall(s1, p, c).(active := s1.active + [p]);
    assert Place(env, s1, p, c, req) == u;
    assert t == u;
  }

  lemma RefusedPlaced(env: Env, s: State, x: Ptr, req: Request)
    requires env.Fair() && !TakenOn(s, x, req)
    ensures var t := OnText(env, s, x, req);
            && t == s.(created := t.created, log := t.log)
            && t.created == s.created + (if Refusal(s, x, req).Some? then 1 else 0)
            && t.log == match Refusal(s, x, req)
                        case None => s.log
                        case Some(code) => s.log + [Frame(x, s.created, Status(code), env.accepts(|s.log|))]
  {
    if Refusal(s, x, req).Some? {
      var c := NewCall(env, s, x, req, Store(env, s, req.arg).1);
      var p := env.malloc(s.calls.Keys);
      var code := Refusal(s, x, req).value;
      var c' := if code == BAD_REQ then c.(id := 0) else c;
      RejectLeavesNothing(env, s, x, req.arg, c', code);
      var t := Reject(env, Stored(env, s, req.arg), p, c', code);
      assert OnText(env, s, x, req) == t;
    }
  }

  /** A request is put at the tail of the active list exactly if it is taken on; any other leaves the
      server as it was but for the status that its sender is told, if there is one. */
  lemma RequestFate(env: Env, s: State, x: Ptr, req: Request)
    requires env.Fair()
    ensures var t := OnText(env, s, x, req);
            && t.created == s.created + (if TakenOn(s, x, req) || Refusal(s, x, req).Some? then 1 else 0)
            && (TakenOn(s, x, req) <==> t.active != s.active)
            && (TakenOn(s, x, req) ==>
                  var p := env.malloc(s.calls.Keys);
                  && t == s.(calls := t.calls, blocks := t.blocks, active := s.active + [p], created := t.created)
                  && p in t.calls && t.calls == s.calls[p := t.calls[p]] && Records(env, s, t, p, x, req))
            && (!TakenOn(s, x, req) ==>
                  t == s.(created := t.created, log := t.log)
                  && t.log == match Refusal(s, x, req)
                              case None => s.log
                              case Some(code) => s.log + [Frame(x, s.created, Status(code), env.accepts(|s.log|))])
  {
    if TakenOn(s, x, req) {
      TakenOnPlaced(env, s, x, req, OnText(env, s, x, req), env.malloc(s.calls.Keys));
    } else {
      RefusedPlaced(env, s, x, req);
    }
  }

  // ---- What a peripheral is handed ----

  /** The message carries the call's data: a block of its own for a long-term call, the call's own block
      for any other. */
  ghost predicate Hands(s: State, t: State, p: Ptr, m: Msg)
    requires p in s.calls
  {
    var c := s.calls[p];
    && m.fid == c.fid && m.id == c.id && m.len == c.len
    && (c.data.Some? && (!c.longTerm || c.len > 0) ==>
          c.data.value in s.blocks && m.data.Some? && m.data.value in t.blocks
            && t.blocks[m.data.value] == s.blocks[c.data.value])
    && (c.data.None? || (c.longTerm && c.len == 0) ==> m.data.None?)
    && p in t.calls
    && (c.longTerm ==> t.calls[p].data == c.data && (m.data.Some? ==> m.data.value !in s.blocks))
    && (!c.longTerm ==> t.calls[p].data.None?)
  }

  /** What a handed-over call keeps. */
  ghost predicate Handed(s: State, t: State, p: Ptr, queue: nat)
    requires p in s.calls
  {
    && |t.posted| == |s.posted| + 1 && s.posted <= t.posted && t.posted[|s.posted|].queue == queue
    && Hands(s, t, p, t.posted[|s.posted|])
    && t.calls[p].session == s.calls[p].session && t.calls[p].isNew == s.calls[p].isNew
       && t.calls[p].serial == s.calls[p].serial
  }

  lemma CopyHands(env: Env, s: State, p: Ptr, queue: nat)
    requires env.Fair() && p in s.calls && (s.calls[p].data.Some? ==> s.calls[p].data.value in s.blocks)
    requires HasRoom(env, s, queue) && s.calls[p].longTerm
    ensures var t := PostCopy(env, s, p, queue);
            Handed(s, t, p, queue) && t == s.(blocks := t.blocks, posted := t.posted)
  {}

  lemma OwnHands(env: Env, s: State, p: Ptr, queue: nat)
    requires p in s.calls && (s.calls[p].data.Some? ==> s.calls[p].data.value in s.blocks)
    requires HasRoom(env, s, queue) && !s.calls[p].longTerm
    ensures var t := PostOwn(env, s, p, queue);
            Handed(s, t, p, queue) && t == s.(calls := t.calls, posted := t.posted)
  {}

  lemma PostHands(env: Env, s: State, p: Ptr, queue: nat)
    requires env.Fair() && p in s.calls && (s.calls[p].data.Some? ==> s.calls[p].data.value in s.blocks)
    requires HasRoom(env, s, queue)
    ensures var t := Post(env, s, p, queue);
            Handed(s, t, p, queue) && t == s.(calls := t.calls, blocks := t.blocks, posted := t.posted)
  {
    if s.calls[p].longTerm { CopyHands(env, s, p, queue); } else { OwnHands(env, s, p, queue); }
  }

  /** The frames of an acknowledgement, in the log of `s`. */
  function AckFrames(env: Env, s: State, p: Ptr): seq<Frame>
    requires p in s.calls
  {
    var c := s.calls[p];
    if c.isNew && c.session.Some?
    then [Frame(c.session.value, c.serial, Status(DELIVERED), env.accepts(|s.log|))]
    else []
  }

  /** What acknowledging a call that has been handed over adds. */
  lemma AcknowledgedHandover(env: Env, s: State, s1: State, p: Ptr, queue: nat)
    requires p in s.calls && p in s1.calls && Handed(s, s1, p, queue) && s1.log == s.log
    requires s.calls[p].session.Some? ==> s.calls[p].session.value in s1.sessions
    ensures var t := Acknowledge(env, s1, p);
            && t.posted == s1.posted && Hands(s, t, p, t.posted[|s.posted|])
            && t.log == s.log + AckFrames(env, s, p)
            && (t.calls[p].isNew <==> s.calls[p].isNew && !(s.calls[p].session.Some? && env.accepts(|s.log|)))
  {
    AcknowledgeFate(env, s1, p);
    assert s.log + [] == s.log;
  }

  /** A call that is due and whose queue has room is handed over, goes to the tail of the waiting list, and
      is acknowledged if it has not been. */
  lemma DispatchHandsOver(env: Env, s: State, p: Ptr)
    requires Inv(s, {}) && env.Fair() && p in s.active && p in s.calls && s.calls[p].fid in s.routes
    requires |Places(s.posted, s.routes[s.calls[p].fid])| < env.depth(s.routes[s.calls[p].fid])
    ensures var t := Dispatch(env, s, p);
            && |t.posted| == |s.posted| + 1 && s.posted <= t.posted
               && t.posted[|s.posted|].queue == s.routes[s.calls[p].fid]
            && Hands(s, t, p, t.posted[|s.posted|])
            && t.waiting == s.waiting + [p] && t.active == Without(s.active, p)
            && t.log == s.log + AckFrames(env, s, p)
            && (t.calls[p].isNew <==> s.calls[p].isNew && !(s.calls[p].session.Some? && env.accepts(|s.log|)))
  {
    var queue := s.routes[s.calls[p].fid];
    CallFacts(s, p);
    ListFacts(s);
    QueueLenCounts(s.posted, queue);
    PostHands(env, s, p, queue);
    var s1 := Post(env, s, p, queue);
    var s2 := ToWaiting(s1, p);
    WithoutMembers(s.waiting, p);
    DispatchLists(env, s, p);
    AcknowledgedHandover(env, s, s2, p, queue);
    AcknowledgeFate(env, s2, p);
    assert Dispatch(env, s, p) == Acknowledge(env, s2, p);
  }
}
