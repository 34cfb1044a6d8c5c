// The server's methods, which walk and change the lists in place.  Each is proved against the
// function of `WsModel` that says what it does; here every record is read through its address, so
// reading a freed record would not verify.

module WsServer {
  import opened Lists
  import opened Bytes
  import opened WsModel
  import opened WsInvariant
  import opened WsSteps
  import opened WsForwarding
  import opened WsReplying
  import opened WsRuns
  import opened WsWalks

  class Server {
    const env: Env
    var calls: map<Ptr, Call>
    var blocks: map<Ptr, seq<byte>>
    var sessions: map<Ptr, Session>
    var active: seq<Ptr>
    var waiting: seq<Ptr>
    var handlers: set<nat>
    var routes: map<nat, nat>
    var posted: seq<Msg>
    var replies: seq<Msg>
    var inHand: Option<Msg>
    var log: seq<Frame>
    var clockReads: nat
    var created: nat

    function Abs(): State
      reads this
    {
      State(calls, blocks, sessions, active, waiting, handlers, routes, posted, replies, inHand, log, clockReads,
        created, false)
    }

    ghost predicate Valid()
      reads this
    {
      Inv(Abs(), {}) && env.Fair()
    }

    constructor (env: Env)
      requires env.Fair()
      ensures Valid() && Abs() == Initial && this.env == env
    {
      this.env := env;
      calls, blocks, sessions, active, waiting := map[], map[], map[], [], [];
      handlers, routes, posted, replies, inHand, log, clockReads, created := {}, map[], [], [], None, [], 0, 0;
    }

    // ---- Primitives ----

    method Tick() returns (now: int)
      modifies this`clockReads
      ensures now == env.Tick(old(clockReads)) && clockReads == old(clockReads) + 1
    {
      now := env.Tick(clockReads);
      clockReads := clockReads + 1;
    }

    /** Sends to the call's session, if it has one. */
    method Send(p: Ptr, body: Body) returns (sent: bool)
      requires p in calls && (calls[p].session.Some? ==> calls[p].session.value in sessions)
      modifies this`log
      ensures Abs() == Emit(env, old(Abs()), p, body) && sent == Sent(env, old(Abs()), p)
    {
      var session := calls[p].session;
      if session.None? { return false; }
      sent := env.accepts(|log|);
      log := log + [Frame(session.value, calls[p].serial, body, sent)];
    }

    method Free(data: Option<Ptr>)
      requires data.Some? ==> data.value in blocks
      modifies this`blocks
      ensures Abs() == FreeBlock(old(Abs()), data)
    {
      if data.Some? { blocks := blocks - {data.value}; }
    }

    method UnlinkCall(p: Ptr)
      modifies this`active, this`waiting
      ensures Abs() == Unlink(old(Abs()), p)
    {
      active := Without(active, p);
      waiting := Without(waiting, p);
    }

    method ReleaseCall(p: Ptr)
      requires p in calls && (calls[p].data.Some? ==> calls[p].data.value in blocks)
      modifies this`active, this`waiting, this`blocks, this`calls
      ensures Abs() == Release(old(Abs()), p)
    {
      UnlinkCall(p);
      Free(calls[p].data);
      calls := calls - {p};
    }

    method ApiCallComplete(p: Ptr)
      requires ListedOnce(Abs())
      modifies this`calls
      ensures Abs() == CompleteCall(old(Abs()), p)
    {
      ListFacts(Abs());
      if p in active || p in waiting {
        var c := calls[p];
        if c.pending > 0 { c := c.(pending := c.pending - 1); }
        if c.pending == 0 { c := c.(session := None); }
        calls := calls[p := c];
      }
    }

    // ---- Breaking calls ----

    method BreakIf(p: Ptr, hit: bool)
      requires p in calls
      modifies this`calls
      ensures calls == if hit then old(calls)[p := old(calls)[p].(session := None)] else old(calls)
    {
      if hit { calls := calls[p := calls[p].(session := None)]; }
    }

    /** Clears the session of every listed call of file descriptor `fd`. */
    method BreakCallsByFd(fd: int)
      requires Valid()
      modifies this`calls
      ensures Abs() == BreakFd(old(Abs()), fd)
    {
      ghost var s := Abs();
      AllListed(s);
      var nodes := active + waiting;
      for i := 0 to |nodes|
        invariant Broken(s, nodes[..i], AllOnFd(s, fd), calls)
      {
        BrokenStepFd(s, nodes, i, fd, calls);
        var session := calls[nodes[i]].session;
        BreakIf(nodes[i], session.Some? && sessions[session.value].fd == fd);
      }
      BrokenAllFd(s, nodes, fd, calls);
    }

    method BreakCallsByFid(fid: nat)
      requires Valid()
      modifies this`calls
      ensures Abs() == BreakFid(old(Abs()), fid)
    {
      ghost var s := Abs();
      AllListed(s);
      var nodes := active + waiting;
      for i := 0 to |nodes|
        invariant Broken(s, nodes[..i], AllOfFid(s, fid), calls)
      {
        BrokenStepFid(s, nodes, i, fid, calls);
        BreakIf(nodes[i], calls[nodes[i]].fid == fid);
      }
      BrokenAllFid(s, nodes, fid, calls);
    }

    method Unregister(fid: nat)
      requires Valid()
      modifies this`calls, this`handlers
      ensures Valid() && Abs() == Step(env, old(Abs()), Event.Unregister(fid, true))
    {
      UnregisterKeeps(env, Abs(), fid);
      if fid != 0 && fid in handlers {
        BreakCallsByFid(fid);
        handlers := handlers - {fid};
      }
    }

    method OnDisconnect(x: Ptr)
      requires Valid() && x in sessions
      modifies this`calls, this`sessions
      ensures Valid() && Abs() == WsModel.OnDisconnect(old(Abs()), x)
    {
      OnDisconnectKeeps(Abs(), x);
      BreakCallsByFd(sessions[x].fd);
      sessions := sessions - {x};
    }

    // ---- Clean-up pass ----

    method PingCall(p: Ptr, x: Ptr)
      requires p in calls && x in sessions && calls[p].session == Some(x) && ListedOnce(Abs())
      modifies this`log, this`sessions, this`clockReads, this`calls
      ensures Abs() == WsModel.PingCall(env, old(Abs()), p, x)
    {
      var sent := Send(p, Ping);
      if sent {
        sessions := sessions[x := Pinged(env, sessions[x], clockReads)];
        var now := Tick();
      } else {
        ApiCallComplete(p);
      }
    }

    method ServeLiveCall(p: Ptr, x: Ptr)
      requires p in calls && x in sessions && calls[p].session == Some(x) && ListedOnce(Abs())
      modifies this`log, this`sessions, this`clockReads, this`calls
      ensures Abs() == ServeLive(env, old(Abs()), p, x)
    {
      hide Inv;
      var sess := sessions[x];
      var now := Tick();
      if Since(now, sess.aliveAt) >= PING_DELAY && Since(now, sess.pingAt) >= PING_DELAY {
        PingCall(p, x);
      }
    }

    method ServeCall(p: Ptr)
      requires Valid() && p in calls
      modifies this`active, this`waiting, this`blocks, this`calls, this`log, this`sessions, this`clockReads
      ensures Abs() == ServeOne(env, old(Abs()), p)
    {
      CallFacts(Abs(), p);
      if calls[p].session.Some? {
        ServeLiveCall(p, calls[p].session.value);
      } else {
        ReleaseCall(p);
      }
    }

    /** Visits node `p`, which the visit may unlink and free, after the node behind it has been found. */
    method ServeNext(p: Ptr, onActive: bool, ghost kept: seq<Ptr>, ghost rest: seq<Ptr>)
        returns (next: Option<Ptr>, ghost kept': seq<Ptr>)
      requires Valid() && ListOf(Abs(), onActive) == kept + [p] + rest
      modifies this`active, this`waiting, this`blocks, this`calls, this`log, this`sessions, this`clockReads
      ensures Valid() && ListOf(Abs(), onActive) == kept' + rest && next == Head(rest)
      ensures Abs() == ServeOne(env, old(Abs()), p)
    {
      ServeVisit(env, Abs(), onActive, kept, p, rest);
      next := NextOf(ListOf(Abs(), onActive), p);
      kept' := if calls[p].session.None? then kept else kept + [p];
      ServeCall(p);
    }

    /** Visits every node of one list. */
    method ServeList(onActive: bool)
      requires Valid()
      modifies this
      ensures Valid() && inHand == old(inHand)
      ensures Abs() == ServeAll(env, old(Abs()), ListOf(old(Abs()), onActive))
    {
      hide Inv;
      var item := Head(ListOf(Abs(), onActive));
      ghost var kept, rest := [], ListOf(Abs(), onActive);
      ghost var end := ServeAll(env, Abs(), rest);
      while item.Some?
        invariant Valid() && inHand == old(inHand)
        invariant ListOf(Abs(), onActive) == kept + rest && item == Head(rest) && ServeAll(env, Abs(), rest) == end
        decreases |rest|
      {
        SplitHead(kept, rest);
        item, kept := ServeNext(item.value, onActive, kept, rest[1..]);
        rest := rest[1..];
      }
    }

    method ServePass()
      requires Valid()
      modifies this
      ensures Valid() && inHand == old(inHand) && Abs() == WsModel.ServePass(env, old(Abs()))
    {
      ServeList(true);
      ServeList(false);
    }

    // ---- Forwarding pass ----

    method QueueSend(m: Msg) returns (sent: bool)
      modifies this`posted
      ensures sent == HasRoom(env, old(Abs()), m.queue)
      ensures posted == if sent then old(posted) + [m] else old(posted)
    {
      sent := QueueLen(posted, m.queue) < env.depth(m.queue);
      if sent { posted := posted + [m]; }
    }

    /** A call whose message does not fit is told BUSY and loses its session. */
    method Refuse(p: Ptr)
      requires p in calls && (calls[p].session.Some? ==> calls[p].session.value in sessions)
      modifies this`calls, this`log
      ensures Abs() == WsModel.Refuse(env, old(Abs()), p)
    {
      var sent := Send(p, Status(BUSY));
      calls := calls[p := calls[p].(session := None)];
    }

    /** A long-term call sends a copy of its data, which is freed again if the message does not fit. */
    method PostCopy(p: Ptr, queue: nat)
      requires p in calls && (calls[p].data.Some? ==> calls[p].data.value in blocks)
      requires calls[p].session.Some? ==> calls[p].session.value in sessions
      modifies this`blocks, this`posted, this`calls, this`log
      ensures Abs() == WsModel.PostCopy(env, old(Abs()), p, queue)
    {
      var c := calls[p];
      var data: Option<Ptr> := None;
      if c.data.Some? && c.len > 0 {
        data := Some(env.malloc(blocks.Keys));
        blocks := blocks[data.value := blocks[c.data.value]];
      }
      var sent := QueueSend(Msg(queue, c.fid, c.id, data, c.len));
      if !sent {
        Free(data);
        Refuse(p);
      }
    }

    /** Hands a call over to its peripheral. */
    method Post(p: Ptr, queue: nat)
      requires p in calls && (calls[p].data.Some? ==> calls[p].data.value in blocks)
      requires calls[p].session.Some? ==> calls[p].session.value in sessions
      modifies this`blocks, this`posted, this`calls, this`log
      ensures Abs() == WsModel.Post(env, old(Abs()), p, queue)
    {
      var c := calls[p];
      if c.longTerm {
        PostCopy(p, queue);
      } else {
        var sent := QueueSend(Msg(queue, c.fid, c.id, c.data, c.len));
        if sent { calls := calls[p := c.(data := None)]; } else { Refuse(p); }
      }
    }

    method Dispatch(p: Ptr)
      requires Valid() && p in calls
      modifies this`active, this`waiting, this`blocks, this`calls, this`log, this`clockReads, this`posted
      ensures Abs() == WsModel.Dispatch(env, old(Abs()), p)
    {
      CallFacts(Abs(), p);
      if calls[p].fid in routes {
        PostFrame(env, Abs(), p, routes[calls[p].fid]);
        Post(p, routes[calls[p].fid]);
        UnlinkCall(p);
        waiting := waiting + [p];
        Acknowledge(p);
      } else {
        var sent := Send(p, Status(INVALID));
        ReleaseCall(p);
      }
    }

    method Acknowledge(p: Ptr)
      requires p in calls && (calls[p].session.Some? ==> calls[p].session.value in sessions)
      modifies this`calls, this`log
      ensures Abs() == WsModel.Acknowledge(env, old(Abs()), p)
    {
      if calls[p].isNew {
        var sent := Send(p, Status(DELIVERED));
        if sent { calls := calls[p := calls[p].(isNew := false)]; }
      }
    }

    /** Whether a call is to be forwarded now; the clock is read only for an acknowledged long-term call. */
    method IsDue(p: Ptr) returns (due: bool)
      requires p in calls
      modifies this`clockReads
      ensures Abs() == ReadClock(old(Abs()), calls[p]) && due == !Throttled(env, old(Abs()), calls[p])
    {
      due := true;
      if calls[p].longTerm && !calls[p].isNew {
        var now := Tick();
        due := !Before(now, calls[p].nextPoll);
      }
    }

    method ForwardCall(p: Ptr)
      requires Valid() && p in calls && !calls[p].toDelete
      modifies this`active, this`waiting, this`blocks, this`calls, this`log, this`clockReads, this`posted
      ensures Abs() == ForwardOne(env, old(Abs()), p)
    {
      ReadClockKeeps(Abs(), calls[p]);
      var due := IsDue(p);
      if due { Dispatch(p); }
    }

    /** Unlinks and frees every call of one client, FID and SID on one list, searching from the head each time. */
    method FreeMatches(onActive: bool, fd: int, fid: nat, id: nat, ghost loose: set<nat>)
      requires Inv(Abs(), loose)
      modifies this`active, this`waiting, this`blocks, this`calls
      ensures Inv(Abs(), loose)
      ensures Abs() == ReleaseAll(old(Abs()),
              Select(ListOf(old(Abs()), onActive), SameClientId(old(Abs()), fd, fid, id)))
      ensures ListOf(Abs(), !onActive) == ListOf(old(Abs()), !onActive)
      ensures Select(ListOf(Abs(), !onActive), SameClientId(Abs(), fd, fid, id))
              == Select(ListOf(old(Abs()), !onActive), SameClientId(old(Abs()), fd, fid, id))
    {
      var found := FirstOf(ListOf(Abs(), onActive), SameClientId(Abs(), fd, fid, id));
      while found.Some?
        invariant Inv(Abs(), loose)
        invariant found == FirstOf(ListOf(Abs(), onActive), SameClientId(Abs(), fd, fid, id))
        invariant ReleaseAll(Abs(), Select(ListOf(Abs(), onActive), SameClientId(Abs(), fd, fid, id)))
               == ReleaseAll(old(Abs()), Select(ListOf(old(Abs()), onActive), SameClientId(old(Abs()), fd, fid, id)))
        invariant ListOf(Abs(), !onActive) == ListOf(old(Abs()), !onActive)
        invariant Select(ListOf(Abs(), !onActive), SameClientId(Abs(), fd, fid, id))
                  == Select(ListOf(old(Abs()), !onActive), SameClientId(old(Abs()), fd, fid, id))
        decreases |ListOf(Abs(), onActive)|
      {
        ghost var s := Abs();
        FreeFirstMatch(s, onActive, fd, fid, id, loose);
        ReleaseCall(found.value);
        ReleaseAllFirst(s, Abs(), found.value, Select(ListOf(Abs(), onActive), SameClientId(Abs(), fd, fid, id)));
        found := FirstOf(ListOf(Abs(), onActive), SameClientId(Abs(), fd, fid, id));
      }
      FirstIsSelected(ListOf(Abs(), onActive), SameClientId(Abs(), fd, fid, id));
    }

    /** Frees the victims of the delete request `p` of a live client. */
    method FreeVictims(p: Ptr, fd: int, ghost loose: set<nat>)
      requires Inv(Abs(), loose) && p in calls && calls[p].session.None?
      modifies this`active, this`waiting, this`blocks, this`calls
      ensures var s := old(Abs());
              var key := SameClientId(s, fd, s.calls[p].fid, s.calls[p].id);
              Inv(Abs(), loose) && Abs() == ReleaseAll(s, Select(s.waiting, key) + Select(s.active, key))
    {
      ghost var s := Abs();
      ghost var key := SameClientId(s, fd, s.calls[p].fid, s.calls[p].id);
      var fid, id := calls[p].fid, calls[p].id;
      FreeMatches(false, fd, fid, id, loose);
      ReleaseAllAppend(s, Select(s.waiting, key), Select(s.active, key));
      FreeMatches(true, fd, fid, id, loose);
    }

    /** Takes the session from a delete request and frees its victims. */
    method CutAndFree(p: Ptr, ghost loose: set<nat>)
      requires Inv(Abs(), loose) && p in calls && calls[p].session.Some? && calls[p].session.value in sessions
      modifies this`calls, this`active, this`waiting, this`blocks
      ensures Abs() == ReleaseAll(Cut(old(Abs()), p), Doomed(old(Abs()), p))
    {
      var fd := sessions[calls[p].session.value].fd;
      CutKeeps(Abs(), p, loose);
      CutDoomed(Abs(), p);
      calls := calls[p := calls[p].(session := None)];
      FreeVictims(p, fd, loose);
    }

    /** Acknowledges the delete request `p` and frees its victims; if there can be any, the node after
        it, which may be one of them, is read again. */
    method PurgeCall(p: Ptr, following: Option<Ptr>) returns (next: Option<Ptr>)
      requires Valid() && p in calls && calls[p].toDelete
      modifies this`log, this`calls, this`active, this`waiting, this`blocks
      ensures Abs() == Purge(env, old(Abs()), p)
      ensures next == if old(calls[p].session.Some?) then NextOf(active, p) else following
    {
      ghost var loose := if Sent(env, Abs(), p) then {calls[p].serial} else {};
      CallFacts(Abs(), p);
      DeleteAcked(env, Abs(), p);
      next := following;
      var sent := Send(p, Status(DELIVERED));
      if calls[p].session.Some? {
        CutAndFree(p, loose);
        next := NextOf(active, p);
      }
    }

    /** The delete request `p`; returns the node to visit next. */
    method DeleteCall(p: Ptr, following: Option<Ptr>, ghost kept: seq<Ptr>, ghost rest: seq<Ptr>)
        returns (next: Option<Ptr>)
      requires Valid() && p in calls && calls[p].toDelete && active == kept + [p] + rest && following == Head(rest)
      modifies this`log, this`calls, this`active, this`waiting, this`blocks
      ensures Valid() && Abs() == ForwardOne(env, old(Abs()), p)
      ensures var keep := Survivors(old(Abs()), p);
              && active == Select(kept, keep) + Select(rest, keep) && next == Head(Select(rest, keep))
              && ForwardAll(env, Abs(), Select(rest, keep)) == ForwardAll(env, Abs(), rest)
    {
      PurgeVisit(env, Abs(), kept, p, rest);
      next := PurgeCall(p, following);
      ReleaseCall(p);
    }

    /** Visits node `p`, which the visit may unlink and free together with any other node. */
    method ForwardNext(p: Ptr, ghost kept: seq<Ptr>, ghost rest: seq<Ptr>)
        returns (next: Option<Ptr>, ghost kept': seq<Ptr>, ghost rest': seq<Ptr>)
      requires Valid() && active == kept + [p] + rest
      modifies this`active, this`waiting, this`blocks, this`calls, this`log, this`clockReads, this`posted
      ensures Valid() && active == kept' + rest' && next == Head(rest') && |rest'| <= |rest|
      ensures ForwardAll(env, Abs(), rest') == ForwardAll(env, ForwardOne(env, old(Abs()), p), rest)
    {
      ghost var s := Abs();
      ForwardVisit(env, s, kept, p, rest);
      next := NextOf(active, p);
      if calls[p].toDelete {
        next := DeleteCall(p, next, kept, rest);
        SelectShorter(rest, Survivors(s, p));
        kept', rest' := Select(kept, Survivors(s, p)), Select(rest, Survivors(s, p));
      } else {
        ForwardCall(p);
        kept', rest' := if Throttled(env, s, s.calls[p]) then kept + [p] else kept, rest;
      }
    }

    /** Visits every node of the active list, from node to node, while visits unlink and free nodes. */
    method ForwardPass()
      requires Valid()
      modifies this
      ensures Valid() && inHand == old(inHand) && Abs() == ForwardAll(env, old(Abs()), old(active))
    {
      ghost var kept, rest := [], active;
      var item := Head(active);
      ghost var end := ForwardAll(env, Abs(), active);
      while item.Some?
        invariant Valid() && inHand == old(inHand)
        invariant active == kept + rest && item == Head(rest) && ForwardAll(env, Abs(), rest) == end
        decreases |rest|
      {
        SplitHead(kept, rest);
        InListed(Abs(), kept, rest);
        item, kept, rest := ForwardNext(item.value, kept, rest[1..]);
      }
    }

    // ---- Replies of the peripherals ----

    /** A registered handler runs on its own call: it may send on it and complete it. */
    method RunHandler(p: Ptr, ops: seq<HandlerOp>)
      requires Valid() && p in calls
      modifies this`log, this`calls
      ensures Valid() && p in calls && Abs() == WsModel.RunHandler(env, old(Abs()), p, ops)
    {
      for i := 0 to |ops|
        invariant Valid() && p in calls
        invariant WsModel.RunHandler(env, Abs(), p, ops[i..]) == WsModel.RunHandler(env, old(Abs()), p, ops)
      {
        assert ops[i..][1..] == ops[i + 1..];
        HandlerStepKeeps(env, Abs(), p, ops[i]);
        CallFacts(Abs(), p);
        match ops[i] {
          case Say(json) => var sent := Send(p, Said(json));
          case Finish => ApiCallComplete(p);
        }
      }
    }

    method Notify(p: Ptr, payload: seq<byte>)
      requires Valid() && p in calls
      modifies this`log, this`calls
      ensures Abs() == WsModel.Notify(env, old(Abs()), p, payload)
    {
      if calls[p].handled { RunHandler(p, env.handler(calls[p], payload, |log|)); }
      CallFacts(Abs(), p);
      if payload != [] { var sent := Send(p, Reply(payload)); }
    }

    method Rearm(p: Ptr)
      requires p in calls
      modifies this`calls, this`active, this`waiting, this`clockReads
      ensures Abs() == WsModel.Rearm(env, old(Abs()), p)
    {
      var repliedAt := env.clock(clockReads);
      var now := Tick();
      calls := calls[p := calls[p].(nextPoll := Wrap(now + calls[p].interval), repliedAt := Some(repliedAt))];
      UnlinkCall(p);
      active := active + [p];
    }

    /** Delivers a reply to one waiting call, which is then freed or due again one interval from now. */
    method DeliverTo(p: Ptr, payload: seq<byte>)
      requires Valid() && Ready(Abs(), p)
      modifies this`active, this`waiting, this`calls, this`log, this`clockReads
      ensures Valid() && Abs() == DeliverOne(env, old(Abs()), p, payload)
    {
      NotifyKeeps(env, Abs(), p, payload);
      DeliverOneKeeps(env, Abs(), p, payload);
      Notify(p, payload);
      if calls[p].longTerm {
        Rearm(p);
      } else {
        UnlinkCall(p);
        calls := calls - {p};
      }
    }

    /** Delivers a broadcast reply, finding the next addressee before the present one is moved or freed. */
    method DeliverToGroup(fid: nat, payload: seq<byte>)
      requires Valid()
      modifies this`active, this`waiting, this`calls, this`log, this`clockReads
      ensures Valid() && Abs() == DeliverAll(env, old(Abs()), Select(old(waiting), LiveFid(old(Abs()), fid)), payload)
    {
      ghost var behind, ahead := [], waiting;
      assert waiting == behind + ahead;
      var item := FirstOf(waiting, LiveFid(Abs(), fid));
      while item.Some?
        invariant Valid()
        invariant waiting == behind + ahead && item == FirstOf(ahead, LiveFid(Abs(), fid))
        invariant DeliverAll(env, Abs(), Select(ahead, LiveFid(Abs(), fid)), payload)
               == DeliverAll(env, old(Abs()), Select(old(waiting), LiveFid(old(Abs()), fid)), payload)
        decreases |ahead|
      {
        var p := item.value;
        ghost var skip, post := DeliverVisit(env, Abs(), fid, behind, ahead, payload);
        DeliverAllFirst(env, Abs(), p, Select(post, LiveFid(Abs(), fid)), payload);
        var next := NextIn(waiting, p, LiveFid(Abs(), fid));
        DeliverTo(p, payload);
        behind, ahead := behind + skip, post;
        item := next;
      }
      FirstIsSelected(ahead, LiveFid(Abs(), fid));
    }

    /** Delivers a reply to the first live waiting call with its id, if there is one. */
    method DeliverToFirst(id: nat, payload: seq<byte>)
      requires Valid() && forall p :: FirstOf(waiting, LiveId(Abs(), id)) == Some(p) ==> Ready(Abs(), p)
      modifies this`active, this`waiting, this`calls, this`log, this`clockReads
      ensures Abs() == match FirstOf(old(waiting), LiveId(old(Abs()), id))
                       case None => old(Abs())
                       case Some(p) => DeliverAll(env, old(Abs()), [p], payload)
    {
      var found := FirstOf(waiting, LiveId(Abs(), id));
      if found.Some? {
        DeliverAllFirst(env, Abs(), found.value, [], payload);
        DeliverTo(found.value, payload);
      }
    }

    method DeliverReply()
      requires Valid() && inHand.Some?
      modifies this`active, this`waiting, this`calls, this`log, this`clockReads, this`blocks, this`inHand
      ensures Valid() && Abs() == DeliverReplyInHand(env, old(Abs()))
    {
      hide Inv;
      DeliverReplyKeeps(env, Abs());
      var r := inHand.value;
      ReplyOk(env, Abs());
      var payload := if r.len > 0 then blocks[r.data.value] else [];
      DeliveredBlocks(env, Abs(), payload);
      if r.id == 0 {
        DeliverToGroup(r.fid, payload);
      } else {
        DeliverToFirst(r.id, payload);
      }
      assert Abs() == DeliverAll(env, old(Abs()), Addressees(old(Abs()), r), payload);
      Free(r.data);
      inHand := None;
    }

    // ---- Broadcasts of the application ----

    /** Sends to the first node of `ahead` that is in `keep`; the node after it is found before. */
    method SendToNext(p: Ptr, onActive: bool, keep: set<Ptr>, body: Body, ghost behind: seq<Ptr>, ghost ahead: seq<Ptr>)
        returns (next: Option<Ptr>, ghost behind': seq<Ptr>, ghost ahead': seq<Ptr>)
      requires Valid() && body.Group? && ListOf(Abs(), onActive) == behind + ahead && FirstOf(ahead, keep) == Some(p)
      modifies this`log
      ensures Valid() && ListOf(Abs(), onActive) == behind' + ahead' && next == FirstOf(ahead', keep)
              && |ahead'| < |ahead|
      ensures EmitAll(env, Abs(), Select(ahead', keep), body) == EmitAll(env, old(Abs()), Select(ahead, keep), body)
    {
      hide Inv, EmitAll, Select;
      ghost var skip, post := GroupVisit(env, Abs(), onActive, keep, behind, ahead, body);
      next := NextIn(ListOf(Abs(), onActive), p, keep);
      var sent := Send(p, body);
      behind', ahead' := behind + skip + [p], post;
    }

    method SendToList(onActive: bool, fid: nat, body: Body)
      requires Valid() && body.Group?
      modifies this`log
      ensures Valid()
              && Abs() == EmitAll(env, old(Abs()), Select(ListOf(old(Abs()), onActive), LiveFid(old(Abs()), fid)), body)
    {
      var keep := LiveFid(Abs(), fid);
      var item := FirstOf(ListOf(Abs(), onActive), keep);
      ghost var behind, ahead := [], ListOf(Abs(), onActive);
      while item.Some?
        invariant Valid() && ListOf(Abs(), onActive) == behind + ahead && item == FirstOf(ahead, keep)
        invariant EmitAll(env, Abs(), Select(ahead, keep), body)
                  == EmitAll(env, old(Abs()), Select(ListOf(old(Abs()), onActive), keep), body)
        decreases |ahead|
      {
        item, behind, ahead := SendToNext(item.value, onActive, keep, body, behind, ahead);
      }
      FirstIsSelected(ahead, keep);
    }

    /** Sends to the live calls of a FID, the waiting ones first. */
    method SendToGroup(fid: nat, json: seq<byte>)
      requires Valid()
      modifies this`log
      ensures Valid() && Abs() == WsModel.SendToGroup(env, old(Abs()), fid, json)
    {
      if fid != 0 {
        EmitAllAppend(env, Abs(), Select(waiting, LiveFid(Abs(), fid)), Select(active, LiveFid(Abs(), fid)),
          Group(fid, json));
        SendToList(false, fid, Group(fid, json));
        assert LiveFid(Abs(), fid) == LiveFid(old(Abs()), fid);
        SendToList(true, fid, Group(fid, json));
      }
    }

    // ---- Requests ----

    method Reject(p: Ptr, c: Call, code: nat)
      requires p !in calls && (c.session.Some? ==> c.session.value in sessions)
               && (c.data.Some? ==> c.data.value in blocks)
      modifies this`calls, this`log, this`blocks
      ensures Abs() == WsModel.Reject(env, old(Abs()), p, c, code)
    {
      calls := calls[p := c];
      var sent := Send(p, Status(code));
      Free(c.data);
      calls := calls - {p};
    }

    method Store(arg: Option<seq<byte>>) returns (data: Option<Ptr>)
      modifies this`blocks
      ensures (Abs(), data) == WsModel.Store(env, old(Abs()), arg)
    {
      if arg.None? { return None; }
      data := Some(env.malloc(blocks.Keys));
      blocks := blocks[data.value := arg.value];
    }

    method Place(p: Ptr, c: Call, req: Request)
      requires req.Parsed? && p !in calls
      requires (c.session.Some? ==> c.session.value in sessions) && (c.data.Some? ==> c.data.value in blocks)
      modifies this`calls, this`log, this`blocks, this`active
      ensures Abs() == WsModel.Place(env, old(Abs()), p, c, req)
    {
      if req.flags.None? || req.sid.None? {
        Reject(p, c.(id := 0), BAD_REQ);
      } else if c.fid !in handlers && c.fid !in routes {
        Reject(p, c, NO_HANDLER);
      } else {
        List(p, c);
      }
    }

    method List(p: Ptr, c: Call)
      modifies this`calls, this`active
      ensures Abs() == SetCall(old(Abs()), p, c).(active := old(active) + [p])
    {
      calls := calls[p := c];
      active := active + [p];
    }

    method OnText(x: Ptr, req: Request)
      requires Valid() && x in sessions
      modifies this`calls, this`log, this`blocks, this`active, this`created
      ensures Valid() && Abs() == WsModel.OnText(env, old(Abs()), x, req)
    {
      OnTextKeeps(env, Abs(), x, req);
      Handle(x, req);
    }

    method Handle(x: Ptr, req: Request)
      requires env.Fair() && x in sessions
      modifies this`calls, this`log, this`blocks, this`active, this`created
      ensures Abs() == WsModel.OnText(env, old(Abs()), x, req)
    {
      if req.Malformed? || Wrap(req.fid) == 0 { return; }
      var p := env.malloc(calls.Keys);
      var data := Store(req.arg);
      var c := NewCall(env, Abs(), x, req, data);
      created := created + 1;
      Place(p, c, req);
    }

    // ---- One iteration of the worker ----

    method Receive()
      requires Valid() && inHand.None? && replies != []
      modifies this`inHand, this`replies
      ensures Valid() && inHand.Some? && replies == old(replies)[1..] && Abs() == Received(old(Abs()))
    {
      ReceiveKeeps(Abs());
      inHand, replies := Some(replies[0]), replies[1..];
    }

    /** The replies in the queue are delivered one by one. */
    method DeliverReplies(ghost from: State, ghost done: seq<Event>) returns (ghost events: seq<Event>)
      requires Valid() && inHand.None? && Run(env, from, done) == Abs()
      modifies this
      ensures Valid() && inHand.None? && replies == [] && Run(env, from, events) == Abs() && done <= events
    {
      events := done;
      while replies != []
        invariant Valid() && inHand.None? && Run(env, from, events) == Abs() && done <= events
        decreases |replies|
      {
        RunReply(env, from, events, Abs());
        Receive();
        DeliverReply();
        events := events + [Event.Receive, Event.DeliverReply];
      }
    }

    /** Clean-up, forwarding, and the delivery of every reply in the queue. */
    method WorkerStep() returns (ghost events: seq<Event>)
      requires Valid() && inHand.None?
      modifies this
      ensures Valid() && inHand.None? && replies == []
      ensures [CollectGarbage, Forward] <= events && Abs() == Run(env, old(Abs()), events)
    {
      RunPasses(env, Abs());
      ServePass();
      ForwardPass();
      events := DeliverReplies(old(Abs()), [CollectGarbage, Forward]);
    }
  }
}
