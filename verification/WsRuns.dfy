// Safety over whole runs: every event keeps the invariant, so every run does.

module WsRuns {
  import opened Lists
  import opened Bytes
  import opened WsModel
  import opened WsInvariant
  import opened WsSteps
  import opened WsForwarding
  import opened WsReplying

  // ---- Broadcasts ----

  lemma {:induction false} EmitAllKeeps(env: Env, s: State, ps: seq<Ptr>, body: Body)
    requires Inv(s, {}) && body.Group? && forall p :: p in ps ==> p in s.calls
    ensures Good(s, EmitAll(env, s, ps, body), {})
    decreases |ps|
  {
    if ps != [] {
      var s1 := Emit(env, s, ps[0], body);
      EmitKeeps(env, s, ps[0], body, {});
      EmitAllKeeps(env, s1, ps[1..], body);
      HushTrans(s, s1, EmitAll(env, s, ps, body));
    }
  }

  lemma SendToGroupKeeps(env: Env, s: State, fid: nat, json: seq<byte>)
    requires Inv(s, {})
    ensures Good(s, SendToGroup(env, s, fid, json), {})
  {
    if fid != 0 {
      SelectMembers(s.waiting, LiveFid(s, fid));
      SelectMembers(s.active, LiveFid(s, fid));
      EmitAllKeeps(env, s, Select(s.waiting, LiveFid(s, fid)) + Select(s.active, LiveFid(s, fid)), Group(fid, json));
    }
  }

  // ---- Requests ----

  /** The state after a request's data has been stored and its serial been given out. */
  function Stored(env: Env, s: State, arg: Option<seq<byte>>): State {
    Store(env, s, arg).0.(created := s.created + 1)
  }

  /** The state after a request has been turned away: its serial is used up and its status is in the log. */
  function TurnedAway(s: State, f: Frame): State { s.(created := s.created + 1, log := s.log + [f]) }

  lemma StoredShape(env: Env, s: State, arg: Option<seq<byte>>)
    requires env.Fair()
    ensures var t := Stored(env, s, arg);
            && t == s.(blocks := t.blocks, created := s.created + 1)
            && FreeBlock(t, Store(env, s, arg).1) == s.(created := s.created + 1)
  {
    var b := env.malloc(s.blocks.Keys);
    if arg.Some? { assert s.blocks[b := arg.value] - {b} == s.blocks; }
  }

  lemma FreeCommutes(t: State, data: Option<Ptr>, calls: map<Ptr, Call>, log: seq<Frame>)
    ensures FreeBlock(t.(calls := calls, log := log), data) == FreeBlock(t, data).(calls := calls, log := log)
  {}

  /** A request that is turned away leaves nothing behind but its status in the log. */
  lemma RejectLeavesNothing(env: Env, s: State, x: Ptr, arg: Option<seq<byte>>, c: Call, code: nat)
    requires env.Fair() && x in s.sessions && c.session == Some(x) && c.data == Store(env, s, arg).1
    ensures Reject(env, Stored(env, s, arg), env.malloc(s.calls.Keys), c, code)
            == TurnedAway(s, Frame(x, c.serial, Status(code), env.accepts(|s.log|)))
  {
    var p := env.malloc(s.calls.Keys);
    var t := Stored(env, s, arg);
    var listed := s.calls[p := c];
    var log := s.log + [Frame(x, c.serial, Status(code), env.accepts(|s.log|))];
    StoredShape(env, s, arg);
    assert listed - {p} == s.calls;
    assert Emit(env, t.(calls := listed), p, Status(code)) == t.(calls := listed, log := log);
    FreeCommutes(t, c.data, listed, log);
  }

  lemma RejectedKeeps(s: State, f: Frame)
    requires Inv(s, {}) && f.serial == s.created && f.body != Status(DELIVERED)
    ensures Good(s, TurnedAway(s, f), {})
  {
    var t := TurnedAway(s, f);
    SameOwners(s, t);
    forall q | q in t.calls ensures CallOk(t, q, {}) {
      assert CallOk(s, q, {});
      AcksAppend(s.log, f, t.calls[q].serial);
    }
    forall k: nat ensures Acks(t.log, k) <= if k < t.created then 1 else 0 { AcksAppend(s.log, f, k); }
    forall k: nat | Quiet(s, k) ensures Quiet(t, k) && Unheard(s.log, t.log, k) {}
  }

  /** A request that is accepted: its record and its data are new, and the record goes to the active tail. */
  function Enlist(s: State, p: Ptr, c: Call, bytes: seq<byte>): State {
    s.(calls := s.calls[p := c], active := s.active + [p], created := s.created + 1,
       blocks := if c.data.Some? then s.blocks[c.data.value := bytes] else s.blocks)
  }

  lemma EnlistMemory(s: State, p: Ptr, c: Call, bytes: seq<byte>)
    requires ListedOnce(s) && OwnedOnce(s) && p !in s.calls && (c.data.Some? ==> c.data.value !in s.blocks)
    ensures ListedOnce(Enlist(s, p, c, bytes)) && OwnedOnce(Enlist(s, p, c, bytes))
  {
    var t := Enlist(s, p, c, bytes);
    ListFacts(s);
    forall q: Ptr ensures Count(t.active, q) + Count(t.waiting, q) == if q in t.calls then 1 else 0 {
      assert Count(s.active, q) + Count(s.waiting, q) == if q in s.calls then 1 else 0;
      CountAppend(s.active, [p], q);
    }
    forall b: Ptr ensures References(t, b) == if b in t.blocks then 1 else 0 {
      assert References(s, b) == if b in s.blocks then 1 else 0;
      HeldAppend(t.calls, s.active, p, b);
      HeldSame(s.calls, t.calls, s.active, b);
      HeldSame(s.calls, t.calls, s.waiting, b);
    }
  }

  lemma EnlistCalls(s: State, p: Ptr, c: Call, bytes: seq<byte>)
    requires CallsOk(s, {}) && SerialsDiffer(s) && AcksOnce(s) && ListedOnce(s) && p !in s.calls
    requires c.serial == s.created && c.session.Some? && c.session.value in s.sessions && c.pending == 1 && c.isNew
             && c.repliedAt.None?
    ensures var t := Enlist(s, p, c, bytes); CallsOk(t, {}) && SerialsDiffer(t) && AcksOnce(t) && Hush(s, t)
  {
    var t := Enlist(s, p, c, bytes);
    ListFacts(s);
    forall q | q in t.calls ensures CallOk(t, q, {}) {
      if q in s.calls { assert CallOk(s, q, {}); }
    }
    forall q, r | q in t.calls && r in t.calls && t.calls[q].serial == t.calls[r].serial ensures q == r {
      if q in s.calls { assert CallOk(s, q, {}); }
      if r in s.calls { assert CallOk(s, r, {}); }
    }
    forall k: nat | Quiet(s, k) ensures Quiet(t, k) && Unheard(s.log, t.log, k) {}
  }

  lemma EnlistKeeps(s: State, p: Ptr, c: Call, bytes: seq<byte>)
    requires Inv(s, {}) && p !in s.calls && (c.data.Some? ==> c.data.value !in s.blocks)
    requires c.serial == s.created && c.session.Some? && c.session.value in s.sessions && c.pending == 1 && c.isNew
             && c.repliedAt.None?
    ensures Good(s, Enlist(s, p, c, bytes), {})
  {
    EnlistMemory(s, p, c, bytes);
    EnlistCalls(s, p, c, bytes);
  }

  lemma TurnedAwayKeeps(env: Env, s: State, x: Ptr, arg: Option<seq<byte>>, c: Call, code: nat)
    requires Inv(s, {}) && env.Fair() && x in s.sessions && c.session == Some(x) && c.serial == s.created
    requires c.data == Store(env, s, arg).1 && code != DELIVERED
    ensures Good(s, Reject(env, Stored(env, s, arg), env.malloc(s.calls.Keys), c, code), {})
  {
    RejectLeavesNothing(env, s, x, arg, c, code);
    RejectedKeeps(s, Frame(x, s.created, Status(code), env.accepts(|s.log|)));
  }

  lemma ListedKeeps(env: Env, s: State, req: Request, c: Call)
    requires Inv(s, {}) && env.Fair() && req.Parsed?
    requires c.session.Some? && c.session.value in s.sessions && c.serial == s.created
    requires c.data == Store(env, s, req.arg).1 && c.pending == 1 && c.isNew && c.repliedAt.None?
    ensures var s1, p := Stored(env, s, req.arg), env.malloc(s.calls.Keys);
            Good(s, SetCall(s1, p, c).(active := s1.active + [p]), {})
  {
    EnlistKeeps(s, env.malloc(s.calls.Keys), c, if req.arg.Some? then req.arg.value else []);
  }

  lemma PlaceKeeps(env: Env, s: State, x: Ptr, req: Request, c: Call)
    requires Inv(s, {}) && env.Fair() && req.Parsed? && x in s.sessions && c.session == Some(x) && c.serial == s.created
    requires c.data == Store(env, s, req.arg).1 && c.pending == 1 && c.isNew && c.repliedAt.None?
    ensures Good(s, Place(env, Stored(env, s, req.arg), env.malloc(s.calls.Keys), c, req), {})
  {
    StoredShape(env, s, req.arg);
    if req.flags.None? || req.sid.None? {
      TurnedAwayKeeps(env, s, x, req.arg, c.(id := 0), BAD_REQ);
    } else if c.fid !in s.handlers && c.fid !in s.routes {
      TurnedAwayKeeps(env, s, x, req.arg, c, NO_HANDLER);
    } else {
      ListedKeeps(env, s, req, c);
    }
  }

  lemma OnTextKeeps(env: Env, s: State, x: Ptr, req: Request)
    requires Inv(s, {}) && env.Fair()
    ensures Good(s, OnText(env, s, x, req), {})
  {
    if !(x !in s.sessions || req.Malformed? || Wrap(req.fid) == 0) {
      PlaceKeeps(env, s, x, req, NewCall(env, s, x, req, Store(env, s, req.arg).1));
    }
  }

  // ---- Connections and peripherals ----

  lemma DisconnectSofter(s: State, x: Ptr)
    requires x in s.sessions && forall p :: p in s.calls ==> SessionOk(s, s.calls[p])
    ensures var t := OnDisconnect(s, x);
            && t == s.(calls := t.calls, sessions := s.sessions - {x}) && t.calls.Keys == s.calls.Keys
            && forall p :: p in s.calls ==> Softer(s.calls[p], t.calls[p]) && SessionOk(t, t.calls[p])
  {
    var t := OnDisconnect(s, x);
    forall p | p in s.calls ensures Softer(s.calls[p], t.calls[p]) && SessionOk(t, t.calls[p]) {
      assert SessionOk(s, s.calls[p]);
    }
  }

  lemma OnDisconnectKeeps(s: State, x: Ptr)
    requires Inv(s, {})
    ensures Good(s, OnDisconnect(s, x), {})
  {
    SessionsOk(s, {});
    if x in s.sessions {
      DisconnectSofter(s, x);
      SoftenAll(s, OnDisconnect(s, x));
    } else {
      SameKeeps(s);
    }
  }

  lemma SameKeeps(s: State)
    requires Inv(s, {})
    ensures Good(s, s, {})
  {
    forall k: nat | Quiet(s, k) ensures Unheard(s.log, s.log, k) {}
  }

  lemma SoftenAll(s: State, t: State)
    requires Inv(s, {}) && t.calls.Keys == s.calls.Keys && t == s.(calls := t.calls, sessions := t.sessions)
    requires forall p :: p in s.calls ==> Softer(s.calls[p], t.calls[p]) && SessionOk(t, t.calls[p])
    ensures Good(s, t, {})
  {
    Soften(s, t, {});
  }

  lemma TakeMsgMemory(s: State, queue: nat)
    requires OwnedOnce(s) && !s.fault
    ensures var t := TakeMsg(s, queue);
            && t == s.(posted := t.posted, blocks := t.blocks) && OwnedOnce(t)
  {
    var (rest, m) := Pop(s.posted, queue);
    var t := TakeMsg(s, queue);
    if m.Some? {
      if m.value.data.Some? {
        CarriedPop(s.posted, queue, m.value.data.value);
        assert References(s, m.value.data.value) > 0;
      }
      forall b: Ptr ensures References(t, b) == if b in t.blocks then 1 else 0 {
        assert References(s, b) == if b in s.blocks then 1 else 0;
        CarriedPop(s.posted, queue, b);
      }
    }
  }

  lemma TakeMsgKeeps(s: State, queue: nat)
    requires Inv(s, {})
    ensures Good(s, TakeMsg(s, queue), {})
  {
    var t := TakeMsg(s, queue);
    TakeMsgMemory(s, queue);
    SessionsOk(s, {});
    SoftenCalls(s, t, {});
    SoftenHush(s, t);
  }

  lemma PutReplyKeeps(s: State, m: Msg, bytes: seq<byte>)
    requires Inv(s, {}) && (m.data.Some? ==> m.data.value !in s.blocks) && (m.len > 0 ==> m.data.Some?)
    ensures var t := s.(replies := s.replies + [m], blocks := WithBlock(s.blocks, m.data, bytes));
            Good(s, t, {})
  {
    var t := s.(replies := s.replies + [m], blocks := WithBlock(s.blocks, m.data, bytes));
    forall b: Ptr ensures References(t, b) == if b in t.blocks then 1 else 0 {
      assert References(s, b) == if b in s.blocks then 1 else 0;
      CarriedAppend(s.replies, m, b);
    }
    SessionsOk(s, {});
    SoftenCalls(s, t, {});
    SoftenHush(s, t);
  }

  lemma PutAnswerKeeps(env: Env, s: State, fid: nat, id: nat, payload: seq<byte>)
    requires Inv(s, {}) && env.Fair()
    ensures Good(s, PutAnswer(env, s, fid, id, payload), {})
  {
    var b := env.malloc(s.blocks.Keys);
    var data: Option<Ptr> := if payload == [] then None else Some(b);
    if |s.replies| < REPLY_DEPTH {
      PutReplyKeeps(s, Msg(0, fid, id, data, |payload|), payload);
    } else {
      assert s.blocks[b := payload] - {b} == s.blocks;
    }
  }

  lemma ReceiveKeeps(s: State)
    requires Inv(s, {}) && s.inHand.None? && s.replies != []
    ensures Good(s, s.(inHand := Some(s.replies[0]), replies := s.replies[1..]), {})
  {
    var t := s.(inHand := Some(s.replies[0]), replies := s.replies[1..]);
    forall b: Ptr ensures References(t, b) == if b in t.blocks then 1 else 0 {
      assert References(s, b) == if b in s.blocks then 1 else 0;
    }
    SessionsOk(s, {});
    SoftenCalls(s, t, {});
    SoftenHush(s, t);
  }

  // ---- Steps and runs ----

  lemma UnregisterKeeps(env: Env, s: State, fid: nat)
    requires Inv(s, {})
    ensures Good(s, BreakFid(s, fid).(handlers := s.handlers - {fid}), {})
  {
    var s1 := BreakFid(s, fid);
    SessionsOk(s, {});
    Soften(s, s1.(handlers := s.handlers - {fid}), {});
  }

  lemma TablesKeep(s: State, handlers: set<nat>, routes: map<nat, nat>)
    requires Inv(s, {})
    ensures Good(s, s.(handlers := handlers, routes := routes), {})
  {
    SessionsOk(s, {});
    Soften(s, s.(handlers := handlers, routes := routes), {});
  }

  lemma SmallStepKeeps(env: Env, s: State, e: Event)
    requires Inv(s, {}) && (e.Connect? || e.Alive? || e.Register? || e.Route?)
    ensures Good(s, Step(env, s, e), {})
  {
    hide Inv, Hush;
    TablesKeep(s, s.handlers, s.routes);
    match e {
      case Connect(fd) => SessionTimesKeep(s, Step(env, s, e).sessions, {});
      case Alive(x) => SessionTimesKeep(s, Step(env, s, e).sessions, {});
      case Register(fid, locked) => TablesKeep(s, s.handlers + {fid}, s.routes);
      case Route(fid, queue, locked) => TablesKeep(s, s.handlers, s.routes[fid := queue]);
    }
  }

  /** Whatever happens next, the invariant survives it and quiet calls stay quiet. */
  lemma StepKeeps(env: Env, s: State, e: Event)
    requires Inv(s, {}) && env.Fair()
    ensures Good(s, Step(env, s, e), {})
  {
    hide Inv, Hush;
    SameKeeps(s);
    match e {
      case Text(x, req) => OnTextKeeps(env, s, x, req);
      case Disconnect(x) => OnDisconnectKeeps(s, x);
      case Unregister(fid, locked) => UnregisterKeeps(env, s, fid);
      case SendDone(failed, fd, locked) => BreakFdKeeps(s, fd, {});
      case Complete(p) => CompleteKeeps(s, p, {});
      case GroupSend(fid, json) => SendToGroupKeeps(env, s, fid, json);
      case CollectGarbage => ServePassKeeps(env, s);
      case Forward => ForwardAllKeeps(env, s, s.active);
      case Receive => if s.inHand.None? && s.replies != [] { ReceiveKeeps(s); }
      case DeliverReply => DeliverReplyKeeps(env, s);
      case Take(queue) => TakeMsgKeeps(s, queue);
      case Answer(fid, id, payload) => PutAnswerKeeps(env, s, fid, id, payload);
      case _ => SmallStepKeeps(env, s, e);
    }
  }

  lemma {:induction false} RunKeeps(env: Env, s: State, es: seq<Event>)
    requires Inv(s, {}) && env.Fair()
    ensures Good(s, Run(env, s, es), {})
    decreases |es|
  {
    if es != [] {
      var s1 := Step(env, s, es[0]);
      StepKeeps(env, s, es[0]);
      RunKeeps(env, s1, es[1..]);
      HushTrans(s, s1, Run(env, s, es));
    }
  }

  lemma InitialOk()
    ensures Inv(Initial, {})
  {}
}
