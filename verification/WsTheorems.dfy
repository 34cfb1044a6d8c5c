// What the server promises, stated on whole runs and on whole passes.

module WsTheorems {
  import opened Lists
  import opened WsModel
  import opened WsInvariant
  import opened WsForwarding
  import opened WsReplying
  import opened WsRuns

  // ---- Whole runs ----

  /** No run reads or frees an address that is not allocated; every record and block always has exactly one owner. */
  lemma MemorySafety(env: Env, es: seq<Event>)
    requires env.Fair()
    ensures var s := Run(env, Initial, es);
            && !s.fault
            && (forall p: Ptr :: Count(s.active, p) + Count(s.waiting, p) == if p in s.calls then 1 else 0)
            && (forall b: Ptr :: References(s, b) == if b in s.blocks then 1 else 0)
  {
    InitialOk();
    RunKeeps(env, Initial, es);
  }

  /** A session pointer on either list names a connected session; a completed call has none; a one-shot
      call that waits and is live has handed its data over. */
  lemma SessionSafety(env: Env, es: seq<Event>, p: Ptr)
    requires env.Fair()
    requires var s := Run(env, Initial, es); p in s.active || p in s.waiting
    ensures var s := Run(env, Initial, es);
            && p in s.calls
            && (s.calls[p].session.Some? ==> s.calls[p].session.value in s.sessions)
            && (s.calls[p].pending == 0 ==> s.calls[p].session.None?)
            && (p in s.waiting && !s.calls[p].longTerm && s.calls[p].session.Some? ==> s.calls[p].data.None?)
  {
    var s := Run(env, Initial, es);
    InitialOk();
    RunKeeps(env, Initial, es);
    ListFacts(s);
    assert CallOk(s, p, {});
  }

  /** Over a whole run the transport accepts at most one DELIVERED status per call. */
  lemma DeliveredAtMostOnce(env: Env, es: seq<Event>, serial: nat)
    requires env.Fair()
    ensures Acks(Run(env, Initial, es).log, serial) <= 1
  {
    InitialOk();
    RunKeeps(env, Initial, es);
    assert AcksOnce(Run(env, Initial, es));
  }

  /** A call that has lost its session never gets one again, and no frame is sent for it any more. */
  lemma SilentForEver(env: Env, before: seq<Event>, after: seq<Event>, serial: nat)
    requires env.Fair() && Quiet(Run(env, Initial, before), serial)
    ensures var s := Run(env, Initial, before);
            var t := Run(env, s, after);
            && Quiet(t, serial)
            && s.log <= t.log && (forall i :: |s.log| <= i < |t.log| ==> t.log[i].serial != serial)
  {
    InitialOk();
    RunKeeps(env, Initial, before);
    RunKeeps(env, Run(env, Initial, before), after);
  }

  // ---- What silences a call ----

  /** A disconnect silences every call of the connection, and of any other connection with its fd. */
  lemma DisconnectSilences(env: Env, s: State, x: Ptr, p: Ptr)
    requires Inv(s, {}) && x in s.sessions && p in s.calls && OnFd(s, s.calls[p], s.sessions[x].fd)
    ensures Quiet(Step(env, s, Disconnect(x)), s.calls[p].serial)
  {
    assert CallOk(s, p, {});
  }

  lemma UnregisterSilences(env: Env, s: State, fid: nat, p: Ptr)
    requires Inv(s, {}) && fid != 0 && fid in s.handlers && p in s.calls && s.calls[p].fid == fid
    ensures Quiet(Step(env, s, Unregister(fid, true)), s.calls[p].serial)
  {
    assert CallOk(s, p, {});
  }

  /** In every run, once the client of a call has disconnected, the call has no session and nothing more is
      sent for it. */
  lemma NothingAfterDisconnect(env: Env, before: seq<Event>, x: Ptr, p: Ptr, after: seq<Event>)
    requires env.Fair()
    requires var s := Run(env, Initial, before);
             && x in s.sessions && p in s.calls && s.calls[p].session.Some? && s.calls[p].session.value in s.sessions
             && s.sessions[s.calls[p].session.value].fd == s.sessions[x].fd
    ensures var s := Run(env, Initial, before);
            var t := Run(env, Step(env, s, Disconnect(x)), after);
            && Quiet(t, s.calls[p].serial) && s.log <= t.log
            && forall i :: |s.log| <= i < |t.log| ==> t.log[i].serial != s.calls[p].serial
  {
    var s := Run(env, Initial, before);
    InitialOk();
    RunKeeps(env, Initial, before);
    DisconnectSilences(env, s, x, p);
    StepKeeps(env, s, Disconnect(x));
    RunKeeps(env, Step(env, s, Disconnect(x)), after);
  }

  /** In every run, once the handler of a call's FID has been unregistered, the call has no session and
      nothing more is sent for it. */
  lemma NothingAfterUnregister(env: Env, before: seq<Event>, fid: nat, p: Ptr, after: seq<Event>)
    requires env.Fair() && fid != 0
    requires var s := Run(env, Initial, before); fid in s.handlers && p in s.calls && s.calls[p].fid == fid
    ensures var s := Run(env, Initial, before);
            var t := Run(env, Step(env, s, Unregister(fid, true)), after);
            && Quiet(t, s.calls[p].serial) && s.log <= t.log
            && forall i :: |s.log| <= i < |t.log| ==> t.log[i].serial != s.calls[p].serial
  {
    var s := Run(env, Initial, before);
    InitialOk();
    RunKeeps(env, Initial, before);
    UnregisterSilences(env, s, fid, p);
    StepKeeps(env, s, Unregister(fid, true));
    RunKeeps(env, Step(env, s, Unregister(fid, true)), after);
  }

  /** A ping that cannot be queued silences the call it was sent for. */
  lemma FailedPingSilences(env: Env, s: State, p: Ptr)
    requires Inv(s, {}) && p in s.calls && s.calls[p].session.Some?
    requires !RecentlySeen(env, s, s.sessions[s.calls[p].session.value]) && !env.accepts(|s.log|)
    requires s.calls[p].session.value in s.sessions
    ensures Quiet(ServeOne(env, s, p), s.calls[p].serial)
  {
    assert CallOk(s, p, {});
    ListFacts(s);
  }

  /** A call whose peripheral queue is full is told BUSY, if that can be sent, and nothing after it. */
  lemma BusySilences(env: Env, s: State, p: Ptr, queue: nat)
    requires Inv(s, {}) && env.Fair() && p in s.calls && |Places(s.posted, queue)| >= env.depth(queue)
    ensures var t := Post(env, s, p, queue);
            && Quiet(t, s.calls[p].serial) && t.posted == s.posted && t.blocks == s.blocks
            && (s.calls[p].session.None? ==> t.log == s.log)
            && (s.calls[p].session.Some? ==>
                  var c := s.calls[p];
                  t.log == s.log + [Frame(c.session.value, c.serial, Status(BUSY), env.accepts(|s.log|))])
  {
    CallFacts(s, p);
    QueueLenCounts(s.posted, queue);
    var c := s.calls[p];
    if c.longTerm && c.data.Some? && c.len > 0 {
      var b := env.malloc(s.blocks.Keys);
      assert s.blocks[b := s.blocks[c.data.value]] - {b} == s.blocks;
    }
    assert Post(env, s, p, queue) == Refuse(env, s, p);
    RefuseQuiet(env, s, p);
  }

  lemma RefuseQuiet(env: Env, s: State, p: Ptr)
    requires SerialsDiffer(s) && CallsOk(s, {}) && p in s.calls
    ensures Quiet(Refuse(env, s, p), s.calls[p].serial)
  {
    assert CallOk(s, p, {});
  }

  // ---- The clean-up pass ----

  ghost function Dead(s: State, ps: seq<Ptr>): set<Ptr> { set p | p in ps && p in s.calls && s.calls[p].session.None? }

  /** Serving a live call changes at most its session, its client's ping time, the log and the clock. */
  ghost predicate PingServed(s: State, t: State, p: Ptr)
    requires p in s.calls
  {
    && OnlyCall(s, t, p) && t.calls.Keys == s.calls.Keys && t.active == s.active && t.waiting == s.waiting
    && s.clockReads <= t.clockReads && t.calls[p].repliedAt == s.calls[p].repliedAt
  }

  lemma PingFate(env: Env, s: State, p: Ptr)
    requires ListedOnce(s) && p in s.calls && s.calls[p].session.Some? && s.calls[p].session.value in s.sessions
    ensures PingServed(s, PingCall(env, s, p, s.calls[p].session.value), p)
  {}

  lemma PingUnlessFate(env: Env, s: State, p: Ptr, seen: bool)
    requires ListedOnce(s) && p in s.calls && s.calls[p].session.Some? && s.calls[p].session.value in s.sessions
    ensures PingServed(s, PingUnless(env, s, p, s.calls[p].session.value, seen), p)
  {
    if !seen { PingFate(env, s, p); }
  }

  lemma ServeLiveFate(env: Env, s: State, p: Ptr)
    requires ListedOnce(s) && p in s.calls && s.calls[p].session.Some? && s.calls[p].session.value in s.sessions
    ensures PingServed(s, ServeLive(env, s, p, s.calls[p].session.value), p)
  {
    hide PingCall, RecentlySeen;
    var s1 := s.(clockReads := s.clockReads + 1);
    var seen := RecentlySeen(env, s, s.sessions[s.calls[p].session.value]);
    PingUnlessFate(env, s1, p, seen);
    PingServedLater(s, s1, PingUnless(env, s1, p, s.calls[p].session.value, seen), p);
  }

  lemma PingServedLater(s: State, s1: State, t: State, p: Ptr)
    requires p in s.calls && s1 == s.(clockReads := s.clockReads + 1) && PingServed(s1, t, p)
    ensures PingServed(s, t, p)
  {}

  lemma ReleaseShape(s: State, p: Ptr)
    requires p in s.calls
    ensures var t := Release(s, p);
            && t.calls == s.calls - {p} && t.sessions == s.sessions && t.log == s.log && t.clockReads == s.clockReads
            && t.active == Without(s.active, p) && t.waiting == Without(s.waiting, p)
  {}

  lemma ReleaseFate(s: State, p: Ptr)
    requires ListedOnce(s) && p in s.calls
    ensures OnlyCall(s, Release(s, p), p)
  {
    ReleaseShape(s, p);
    WithoutMembers(s.active, p);
    WithoutMembers(s.waiting, p);
  }

  /** What serving one call does to the lists. */
  ghost predicate Served(s: State, t: State, p: Ptr)
    requires p in s.calls
  {
    && OnlyCall(s, t, p) && s.clockReads <= t.clockReads
    && (p in t.calls ==> t.calls[p].repliedAt == s.calls[p].repliedAt)
    && (if s.calls[p].session.None?
        then t.calls.Keys == s.calls.Keys - {p} && t.active == Without(s.active, p)
          && t.waiting == Without(s.waiting, p)
        else t.calls.Keys == s.calls.Keys && t.active == s.active && t.waiting == s.waiting)
  }

  lemma ServeOneFate(env: Env, s: State, p: Ptr)
    requires Inv(s, {}) && p in s.calls
    ensures Served(s, ServeOne(env, s, p), p)
  {
    CallFacts(s, p);
    if s.calls[p].session.None? {
      ReleaseShape(s, p);
      ReleaseFate(s, p);
      var t := Release(s, p);
      assert Served(s, t, p);
      assert ServeOne(env, s, p) == t;
    } else {
      ServeLiveFate(env, s, p);
      var t := ServeLive(env, s, p, s.calls[p].session.value);
      assert Served(s, t, p);
      assert ServeOne(env, s, p) == t;
    }
  }

  /** What serving the calls `ps` does: the dead ones are freed, the others keep their place. */
  ghost predicate ServedAll(s: State, t: State, ps: seq<Ptr>) {
    var keep := s.calls.Keys - Dead(s, ps);
    && t.calls.Keys == keep && t.active == Select(s.active, keep) && t.waiting == Select(s.waiting, keep)
    && forall q :: q in s.calls && q !in ps ==> q in t.calls && t.calls[q] == s.calls[q]
  }

  lemma ServedNone(s: State)
    requires ListedOnce(s)
    ensures ServedAll(s, s, [])
  {
    ListFacts(s);
    assert s.calls.Keys - Dead(s, []) == s.calls.Keys;
    SelectAll(s.active, s.calls.Keys);
    SelectAll(s.waiting, s.calls.Keys);
  }

  lemma ServedOneMore(s: State, s1: State, t: State, ps: seq<Ptr>)
    requires ListedOnce(s) && ps != [] && ps[0] !in ps[1..] && ps[0] in s.calls
    requires Served(s, s1, ps[0]) && ServedAll(s1, t, ps[1..])
    ensures ServedAll(s, t, ps)
  {
    var p := ps[0];
    var keep := s1.calls.Keys - Dead(s1, ps[1..]);
    ListFacts(s);
    DeadStep(s, s1, ps);
    if s.calls[p].session.None? {
      SelectWithout(s.active, p, keep);
      SelectWithout(s.waiting, p, keep);
      assert keep - {p} == keep;
    }
  }

  lemma {:induction false} ServeAllFate(env: Env, s: State, ps: seq<Ptr>)
    requires Inv(s, {}) && Distinct(ps) && forall p :: p in ps ==> p in s.calls
    ensures ServedAll(s, ServeAll(env, s, ps), ps)
    decreases |ps|
  {
    if ps == [] {
      ServedNone(s);
    } else {
      var s1 := ServeOne(env, s, ps[0]);
      ServeOneKeeps(env, s, ps[0]);
      ServeOneFate(env, s, ps[0]);
      DistinctTail(ps);
      ServeAllFate(env, s1, ps[1..]);
      ServedOneMore(s, s1, ServeAll(env, s1, ps[1..]), ps);
    }
  }

  lemma DeadStep(s: State, s1: State, ps: seq<Ptr>)
    requires ps != [] && ps[0] !in ps[1..] && ps[0] in s.calls && OnlyCall(s, s1, ps[0])
    requires s1.calls.Keys == if s.calls[ps[0]].session.None? then s.calls.Keys - {ps[0]} else s.calls.Keys
    ensures s1.calls.Keys - Dead(s1, ps[1..]) == s.calls.Keys - Dead(s, ps)
  {
    forall q ensures q in s1.calls.Keys - Dead(s1, ps[1..]) <==> q in s.calls.Keys - Dead(s, ps) {}
  }

  /** The clean-up pass frees exactly the listed calls that had no session when it began, and keeps the
      others on their lists in order. */
  lemma CleanUpFreesTheDead(env: Env, s: State)
    requires Inv(s, {})
    ensures var t := ServePass(env, s);
            t.calls.Keys == Live(s) && t.active == Select(s.active, Live(s)) && t.waiting == Select(s.waiting, Live(s))
  {
    ListFacts(s);
    var s1 := ServeAll(env, s, s.active);
    ServeAllKeeps(env, s, s.active);
    ServeAllFate(env, s, s.active);
    SelectAll(s.waiting, s.calls.Keys - Dead(s, s.active));
    ListFacts(s1);
    ServeAllFate(env, s1, s1.waiting);
    var t := ServePass(env, s);
    var keep := s1.calls.Keys - Dead(s1, s1.waiting);
    assert t.calls.Keys == Live(s);
    SelectTwice(s.active, s.calls.Keys - Dead(s, s.active), keep);
    SelectAgree(s.active, keep * (s.calls.Keys - Dead(s, s.active)), Live(s));
  }

  lemma {:induction false} SelectTwice(xs: seq<Ptr>, a: set<Ptr>, b: set<Ptr>)
    ensures Select(Select(xs, a), b) == Select(xs, b * a)
  {
    if xs != [] {
      SelectTwice(xs[1..], a, b);
      if xs[0] in a { assert ([xs[0]] + Select(xs[1..], a))[1..] == Select(xs[1..], a); }
    }
  }
}
