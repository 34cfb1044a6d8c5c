// What single events do, and what they leave alone: tables, lost connections, times, delete requests.

module WsEvents {
  import opened Lists
  import opened Bytes
  import opened WsModel
  import opened WsInvariant
  import opened WsForwarding
  import opened WsRuns
  import opened WsTheorems
  import opened WsPasses
  import opened WsWalks
  import opened WsQueues
  import opened WsEndings
  import opened WsPings

  // ---- The tables ----

  lemma StepTables(env: Env, s: State, e: Event)
    requires !e.Register? && !e.Unregister? && !e.Route?
    ensures Step(env, s, e).handlers == s.handlers && Step(env, s, e).routes == s.routes
  {
    hide TakeMsg, PutAnswer, CompleteCall, OnText, ServePass, ForwardAll, DeliverReplyInHand, SendToGroup;
    match e {
      case Forward => AnswersForwarded(env, s, s.active);
      case DeliverReply => DeliverPosted(env, s);
      case GroupSend(_, _) => PassOutside(env, s, e);
      case CollectGarbage => PassOutside(env, s, e);
      case Text(_, _) => PassOutside(env, s, e);
      case Complete(p) => CompleteOutside(s, p);
      case Take(queue) => TakeTables(s, queue);
      case Answer(fid, id, payload) => AnswerTables(env, s, fid, id, payload);
      case _ => ClientTables(env, s, e);
    }
  }

  lemma TakeTables(s: State, queue: nat)
    ensures TakeMsg(s, queue).handlers == s.handlers && TakeMsg(s, queue).routes == s.routes
  {}

  lemma AnswerTables(env: Env, s: State, fid: nat, id: nat, payload: seq<byte>)
    ensures var t := PutAnswer(env, s, fid, id, payload); t.handlers == s.handlers && t.routes == s.routes
  {}

  lemma ClientTables(env: Env, s: State, e: Event)
    requires e.Connect? || e.Alive? || e.Disconnect? || e.SendDone? || e.Receive?
    ensures Step(env, s, e).handlers == s.handlers && Step(env, s, e).routes == s.routes
  {}

  /** The FID has been registered and not been unregistered since. */
  ghost predicate StillRegistered(es: seq<Event>, fid: nat) {
    exists i :: 0 <= i < |es| && es[i] == Register(fid, true)
      && forall j :: i < j < |es| ==> es[j] != Unregister(fid, true)
  }

  lemma StaysRegistered(es: seq<Event>, e: Event, fid: nat)
    requires StillRegistered(es, fid) && e != Unregister(fid, true)
    ensures StillRegistered(es + [e], fid)
  {
    var i :| 0 <= i < |es| && es[i] == Register(fid, true)
      && forall j :: i < j < |es| ==> es[j] != Unregister(fid, true);
    assert (es + [e])[i] == Register(fid, true);
  }

  lemma WasRegistered(es: seq<Event>, e: Event, fid: nat)
    requires StillRegistered(es + [e], fid) && e != Register(fid, true)
    ensures StillRegistered(es, fid) && e != Unregister(fid, true)
  {
    var all := es + [e];
    var i :| 0 <= i < |all| && all[i] == Register(fid, true)
      && forall j :: i < j < |all| ==> all[j] != Unregister(fid, true);
    assert all[|es|] == e && es[i] == Register(fid, true);
    forall j | i < j < |es| ensures es[j] != Unregister(fid, true) { assert all[j] == es[j]; }
  }

  lemma RegisteredOneMore(es: seq<Event>, e: Event, fid: nat)
    ensures StillRegistered(es + [e], fid)
            <==> e == Register(fid, true) || (StillRegistered(es, fid) && e != Unregister(fid, true))
  {
    if e == Register(fid, true) {
      assert (es + [e])[|es|] == e;
    } else {
      if StillRegistered(es + [e], fid) { WasRegistered(es, e, fid); }
      if StillRegistered(es, fid) && e != Unregister(fid, true) { StaysRegistered(es, e, fid); }
    }
  }

  /** In every run the handlers are those registered and not unregistered since. */
  lemma {:induction false} HandlersFollow(env: Env, es: seq<Event>, fid: nat)
    ensures fid in Run(env, Initial, es).handlers <==> fid != 0 && StillRegistered(es, fid)
    decreases |es|
  {
    if es != [] {
      hide Step, Run;
      var front, e := es[..|es| - 1], es[|es| - 1];
      assert es == front + [e];
      HandlersFollow(env, front, fid);
      RunAppend(env, Initial, front, e);
      RegisteredOneMore(front, e, fid);
      HandlersStep(env, Run(env, Initial, front), e, fid);
    } else {
      assert Run(env, Initial, es) == Initial;
    }
  }

  lemma HandlersStep(env: Env, s: State, e: Event, fid: nat)
    ensures fid in Step(env, s, e).handlers
            <==> (e == Register(fid, true) && fid != 0)
                 || (fid in s.handlers && (fid == 0 || e != Unregister(fid, true)))
  {
    if !e.Register? && !e.Unregister? && !e.Route? { StepTables(env, s, e); }
  }

  /** The event routes the FID, to whichever queue. */
  predicate Routes(e: Event, fid: nat) { e.Route? && e.locked && e.fid == fid }

  /** The first event that routes the FID routes it to `queue`. */
  ghost predicate FirstRouteIs(es: seq<Event>, fid: nat, queue: nat) {
    exists i :: 0 <= i < |es| && es[i] == Route(fid, queue, true) && forall j :: 0 <= j < i ==> !Routes(es[j], fid)
  }

  ghost predicate Routed(es: seq<Event>, fid: nat) { exists i :: 0 <= i < |es| && Routes(es[i], fid) }

  /** In every run a FID goes to the queue of the first route made for it. */
  lemma {:induction false} RoutesFollow(env: Env, es: seq<Event>, fid: nat, queue: nat)
    ensures var s := Run(env, Initial, es);
            fid in s.routes && s.routes[fid] == queue
            <==> FirstRouteIs(es, fid, queue)
    ensures fid in Run(env, Initial, es).routes <==> Routed(es, fid)
    decreases |es|
  {
    if es != [] {
      hide Step, Run;
      var front, e := es[..|es| - 1], es[|es| - 1];
      assert es == front + [e];
      RoutesFollow(env, front, fid, queue);
      RunAppend(env, Initial, front, e);
      RoutesStep(env, Run(env, Initial, front), e, fid);
      FirstRoute(front, e, fid, queue);
    } else {
      assert Run(env, Initial, es) == Initial;
    }
  }

  lemma RoutesStep(env: Env, s: State, e: Event, fid: nat)
    ensures var t := Step(env, s, e);
            && (fid in t.routes <==> fid in s.routes || Routes(e, fid))
            && (fid in t.routes ==> t.routes[fid] == if fid in s.routes then s.routes[fid] else e.queue)
  {
    if !e.Register? && !e.Unregister? && !e.Route? { StepTables(env, s, e); }
  }

  lemma FirstRoute(es: seq<Event>, e: Event, fid: nat, queue: nat)
    ensures Routed(es + [e], fid) <==> Routed(es, fid) || Routes(e, fid)
    ensures FirstRouteIs(es + [e], fid, queue)
            <==> FirstRouteIs(es, fid, queue) || (!Routed(es, fid) && e == Route(fid, queue, true))
  {
    var all := es + [e];
    assert all[|es|] == e && forall j :: 0 <= j < |es| ==> all[j] == es[j];
    if FirstRouteIs(es, fid, queue) {
      var i :| 0 <= i < |es| && es[i] == Route(fid, queue, true) && forall j :: 0 <= j < i ==> !Routes(es[j], fid);
      assert all[i] == Route(fid, queue, true);
    }
    if FirstRouteIs(all, fid, queue) { FirstRouteWas(es, e, fid, queue); }
  }

  lemma FirstRouteWas(es: seq<Event>, e: Event, fid: nat, queue: nat)
    requires FirstRouteIs(es + [e], fid, queue)
    ensures FirstRouteIs(es, fid, queue) || (!Routed(es, fid) && e == Route(fid, queue, true))
  {
    var all := es + [e];
    var i :| 0 <= i < |all| && all[i] == Route(fid, queue, true) && forall j :: 0 <= j < i ==> !Routes(all[j], fid);
    forall j | 0 <= j < |es| && j < i ensures !Routes(es[j], fid) { assert all[j] == es[j]; }
    if i < |es| { assert es[i] == Route(fid, queue, true); }
  }

  // ---- Lost connections ----

  /** The call's client is on file descriptor `fd`. */
  ghost predicate ClientOn(s: State, p: Ptr, fd: int) {
    && p in s.calls && s.calls[p].session.Some? && s.calls[p].session.value in s.sessions
    && s.sessions[s.calls[p].session.value].fd == fd
  }

  /** Exactly the calls in `hit` have lost their sessions; nothing else about any call has changed. */
  ghost predicate LoseSessions(s: State, t: State, hit: set<Ptr>) {
    && t.calls.Keys == s.calls.Keys && t.active == s.active && t.waiting == s.waiting && t.blocks == s.blocks
       && t.posted == s.posted && t.log == s.log
    && forall p :: p in s.calls ==> t.calls[p] == if p in hit then s.calls[p].(session := None) else s.calls[p]
  }

  /** A disconnect takes the session from the calls on its file descriptor and from no others. */
  lemma DisconnectBreaksExactly(env: Env, s: State, x: Ptr)
    requires x in s.sessions
    ensures var t := Step(env, s, Disconnect(x));
            && LoseSessions(s, t, set p | p in s.calls && ClientOn(s, p, s.sessions[x].fd))
            && t.sessions == s.sessions - {x}
  {}

  /** So does a send that fails later, if the callback gets the mutex; otherwise it changes nothing. */
  lemma FailedSendBreaksExactly(env: Env, s: State, failed: bool, fd: int, locked: bool)
    ensures var t := Step(env, s, SendDone(failed, fd, locked));
            && (failed && locked ==> LoseSessions(s, t, set p | p in s.calls && ClientOn(s, p, fd)))
            && (!failed || !locked ==> t == s)
            && t.sessions == s.sessions
  {}

  /** Unregistering takes the session from the calls of the FID and from no others. */
  lemma UnregisterBreaksExactly(env: Env, s: State, fid: nat)
    requires fid != 0 && fid in s.handlers
    ensures var t := Step(env, s, Unregister(fid, true));
            LoseSessions(s, t, set p | p in s.calls && s.calls[p].fid == fid) && t.sessions == s.sessions
  {}

  /** A later failure of a send silences the calls on that file descriptor for ever. */
  lemma NothingAfterFailedSend(env: Env, before: seq<Event>, fd: int, p: Ptr, after: seq<Event>)
    requires env.Fair() && ClientOn(Run(env, Initial, before), p, fd)
    ensures var s := Run(env, Initial, before);
            var t := Run(env, Step(env, s, SendDone(true, fd, true)), after);
            && Quiet(t, s.calls[p].serial) && s.log <= t.log
            && forall i :: |s.log| <= i < |t.log| ==> t.log[i].serial != s.calls[p].serial
  {
    var s := Run(env, Initial, before);
    var s1 := Step(env, s, SendDone(true, fd, true));
    InitialOk();
    RunKeeps(env, Initial, before);
    FailedSendBreaksExactly(env, s, true, fd, true);
    BrokenIsQuiet(s, s1, p);
    StepKeeps(env, s, SendDone(true, fd, true));
    RunKeeps(env, s1, after);
  }

  lemma BrokenIsQuiet(s: State, t: State, p: Ptr)
    requires Inv(s, {}) && p in s.calls && t.calls.Keys == s.calls.Keys && t.created == s.created
    requires t.calls[p].session.None? && forall q :: q in s.calls ==> t.calls[q].serial == s.calls[q].serial
    ensures Quiet(t, s.calls[p].serial)
  {
    assert CallOk(s, p, {});
  }

  // ---- When a client was last heard from ----

  /** The clients are as they were but for the times of their last pings, or gone. */
  ghost predicate SameHeard(s: State, t: State) {
    forall x :: x in t.sessions ==>
      x in s.sessions && t.sessions[x].heardAt == s.sessions[x].heardAt && t.sessions[x].fd == s.sessions[x].fd
  }

  lemma CompleteClients(s: State, p: Ptr)
    ensures CompleteCall(s, p).sessions == s.sessions
  {}

  lemma ServeOneHeard(env: Env, s: State, p: Ptr)
    ensures SameHeard(s, ServeOne(env, s, p))
  {
    hide RecentlySeen, CompleteCall;
    if p in s.calls && s.calls[p].session.Some? {
      CompleteClients(SendPing(env, s.(clockReads := s.clockReads + 1), p, s.calls[p].session.value), p);
    }
  }

  lemma {:induction false} ServeAllHeard(env: Env, s: State, ps: seq<Ptr>)
    ensures SameHeard(s, ServeAll(env, s, ps))
    decreases |ps|
  {
    if ps != [] {
      hide ServeOne;
      ServeOneHeard(env, s, ps[0]);
      ServeAllHeard(env, ServeOne(env, s, ps[0]), ps[1..]);
    }
  }

  /** A frame from a client sets the time it was last heard from to the present clock reading, and so does
      its connection; no other section sets it. */
  lemma HeardOnlyWhenAlive(env: Env, s: State, e: Event, x: Ptr)
    requires Inv(s, {}) && env.Fair() && x in Step(env, s, e).sessions
    ensures var t := Step(env, s, e);
            && (e == Alive(x) || x !in s.sessions ==> t.sessions[x].heardAt == env.clock(s.clockReads))
            && (x !in s.sessions ==>
                  e.Connect? && t.sessions[x].fd == e.fd && t.sessions[x].pingedAt == env.clock(s.clockReads))
            && (!e.CollectGarbage? && x in s.sessions ==> t.sessions[x].pingedAt == s.sessions[x].pingedAt)
            && (e != Alive(x) && x in s.sessions ==> t.sessions[x].heardAt == s.sessions[x].heardAt)
            && (x in s.sessions ==> t.sessions[x].fd == s.sessions[x].fd)
  {
    if e.CollectGarbage? {
      var s1 := ServeAll(env, s, s.active);
      ServeAllHeard(env, s, s.active);
      ServeAllHeard(env, s1, s1.waiting);
    } else if !e.Connect? && !e.Alive? {
      hide Step;
      OtherStepClients(env, s, e);
    }
  }

  // ---- Delete requests ----

  /** Call `q` is live, and of the same client, FID and SID as `p`. */
  ghost predicate SameCall(s: State, p: Ptr, q: Ptr)
    requires p in s.calls && s.calls[p].session.Some? && s.calls[p].session.value in s.sessions
  {
    && ClientOn(s, q, s.sessions[s.calls[p].session.value].fd)
    && s.calls[q].fid == s.calls[p].fid && s.calls[q].id == s.calls[p].id
  }

  /** A delete request of a connected client is acknowledged once, and frees itself and the live calls of its
      client with its FID and SID, and no others; one whose client has gone frees only itself. */
  lemma DeleteFreesExactly(env: Env, s: State, p: Ptr)
    requires Inv(s, {}) && p in s.calls && s.calls[p].toDelete
    ensures var c := s.calls[p];
            var t := ForwardOne(env, s, p);
            && (c.session.Some? ==> c.session.value in s.sessions)
            && (forall q :: q in t.calls <==> q in s.calls && q != p && !(c.session.Some? && SameCall(s, p, q)))
            && (forall q :: q in t.calls ==> t.calls[q] == s.calls[q])
            && t.log == s.log + match c.session
                                case None => []
                                case Some(x) => [Frame(x, c.serial, Status(DELIVERED), env.accepts(|s.log|))]
  {
    CallFacts(s, p);
    DeleteFate(env, s, p);
    DeleteLog(env, s, p);
    DoomedExactly(s, p);
    assert ForwardOne(env, s, p) == Delete(env, s, p);
  }

  lemma DoomedExactly(s: State, p: Ptr)
    requires Inv(s, {}) && p in s.calls && (s.calls[p].session.Some? ==> s.calls[p].session.value in s.sessions)
    ensures forall q :: q in Doomed(s, p) <==> q != p && q in s.calls && s.calls[p].session.Some? && SameCall(s, p, q)
  {
    if s.calls[p].session.Some? {
      var key := SameClientId(s, s.sessions[s.calls[p].session.value].fd, s.calls[p].fid, s.calls[p].id) - {p};
      ListFacts(s);
      SelectMembers(s.waiting, key);
      SelectMembers(s.active, key);
    }
  }

  lemma DeleteLog(env: Env, s: State, p: Ptr)
    requires p in s.calls
    ensures Delete(env, s, p).log == Emit(env, s, p, Status(DELIVERED)).log
  {
    hide Emit, Doomed;
    var s1 := Emit(env, s, p, Status(DELIVERED));
    ReleaseAllLog(Cut(s1, p), Doomed(s1, p));
  }

  // ---- Calls without a queue ----

  /** A call whose FID has no queue is told INVALID, if it has a client, and freed; nothing is posted. */
  lemma UnroutedTurnedAway(env: Env, s: State, p: Ptr)
    requires Inv(s, {}) && p in s.calls && s.calls[p].fid !in s.routes && !s.calls[p].toDelete
    requires !s.calls[p].longTerm || s.calls[p].isNew
    ensures var c := s.calls[p];
            var t := ForwardOne(env, s, p);
            && t.calls == s.calls - {p} && t.posted == s.posted
            && t.active == Without(s.active, p) && t.waiting == Without(s.waiting, p)
            && t.log == s.log + match c.session
                                case None => []
                                case Some(x) => [Frame(x, c.serial, Status(INVALID), env.accepts(|s.log|))]
  {
    CallFacts(s, p);
    var s1 := Emit(env, s, p, Status(INVALID));
    ReleaseShape(s1, p);
    ReleaseOutside(s1, p);
    assert ForwardOne(env, s, p) == Release(s1, p);
  }
}
