// The forwarding pass keeps the invariant: handing over data, copying it, acknowledging, deleting.

module WsForwarding {
  import opened Lists
  import opened Bytes
  import opened WsModel
  import opened WsInvariant
  import opened WsSteps

  /** Only call `p` is touched: every other call that survives is as it was, on the list it was on. */
  ghost predicate OnlyCall(s: State, t: State, p: Ptr) {
    && t.sessions.Keys == s.sessions.Keys
    && forall q :: q in t.calls && q != p ==>
         && q in s.calls && t.calls[q] == s.calls[q]
         && (q in t.active <==> q in s.active) && (q in t.waiting <==> q in s.waiting)
  }

  // ---- Posting ----

  function WithBlock(blocks: map<Ptr, seq<byte>>, data: Option<Ptr>, bytes: seq<byte>): map<Ptr, seq<byte>> {
    if data.Some? then blocks[data.value := bytes] else blocks
  }

  /** A new reference in the peripherals' queue to a block nobody else points to. */
  lemma PostFreshMemory(s: State, m: Msg, bytes: seq<byte>)
    requires OwnedOnce(s) && (m.data.Some? ==> m.data.value !in s.blocks)
    ensures var t := s.(posted := s.posted + [m], blocks := WithBlock(s.blocks, m.data, bytes));
            OwnedOnce(t)
  {
    var t := s.(posted := s.posted + [m], blocks := WithBlock(s.blocks, m.data, bytes));
    forall b: Ptr ensures References(t, b) == if b in t.blocks then 1 else 0 {
      assert References(s, b) == if b in s.blocks then 1 else 0;
      CarriedAppend(s.posted, m, b);
    }
  }

  lemma PostFreshKeeps(s: State, m: Msg, bytes: seq<byte>, loose: set<nat>)
    requires Inv(s, loose) && (m.data.Some? ==> m.data.value !in s.blocks)
    ensures var t := s.(posted := s.posted + [m], blocks := WithBlock(s.blocks, m.data, bytes));
            Good(s, t, loose)
  {
    var t := s.(posted := s.posted + [m], blocks := WithBlock(s.blocks, m.data, bytes));
    PostFreshMemory(s, m, bytes);
    SoftenCalls(s, t, loose) by { SessionsOk(s, loose); }
    SoftenHush(s, t) by { SessionsOk(s, loose); }
  }

  /** Handing the block of call `p` over to a message. */
  lemma HandOverMemory(s: State, p: Ptr, m: Msg, t: State)
    requires ListedOnce(s) && OwnedOnce(s) && p in s.calls && m.data == s.calls[p].data
    requires t == SetCall(s, p, s.calls[p].(data := None)).(posted := s.posted + [m])
    ensures OwnedOnce(t)
  {
    forall b: Ptr ensures References(t, b) == if b in t.blocks then 1 else 0 {
      assert References(s, b) == if b in s.blocks then 1 else 0;
      CarriedAppend(s.posted, m, b);
      DetachedHeld(s, t, p, b);
    }
  }

  lemma HandOverKeeps(s: State, p: Ptr, m: Msg, loose: set<nat>)
    requires Inv(s, loose) && p in s.calls && m.data == s.calls[p].data
    ensures Good(s, SetCall(s, p, s.calls[p].(data := None)).(posted := s.posted + [m]), loose)
  {
    var t := SetCall(s, p, s.calls[p].(data := None)).(posted := s.posted + [m]);
    HandOverMemory(s, p, m, t);
    DetachCalls(s, p, t, loose);
  }

  lemma RefuseKeeps(env: Env, s: State, p: Ptr, loose: set<nat>)
    requires Inv(s, loose) && p in s.calls
    ensures Good(s, Refuse(env, s, p), loose)
  {
    var s1 := Emit(env, s, p, Status(BUSY));
    EmitKeeps(env, s, p, Status(BUSY), loose);
    CutKeeps(s1, p, loose);
    HushTrans(s, s1, Cut(s1, p));
  }

  lemma PostCopyKeeps(env: Env, s: State, p: Ptr, queue: nat, loose: set<nat>)
    requires Inv(s, loose) && env.Fair() && p in s.calls
    ensures Good(s, PostCopy(env, s, p, queue), loose)
  {
    var c := s.calls[p];
    if c.data.Some? && c.len > 0 {
      HeldBlock(s, p);
      var b := env.malloc(s.blocks.Keys);
      var bytes := s.blocks[c.data.value];
      if HasRoom(env, s, queue) {
        PostFreshKeeps(s, Msg(queue, c.fid, c.id, Some(b), c.len), bytes, loose);
      } else {
        assert s.blocks[b := bytes] - {b} == s.blocks;
        RefuseKeeps(env, s, p, loose);
      }
    } else if HasRoom(env, s, queue) {
      PostFreshKeeps(s, Msg(queue, c.fid, c.id, None, c.len), [], loose);
    } else {
      RefuseKeeps(env, s, p, loose);
    }
  }

  lemma PostKeeps(env: Env, s: State, p: Ptr, queue: nat, loose: set<nat>)
    requires Inv(s, loose) && env.Fair() && p in s.calls
    ensures Good(s, Post(env, s, p, queue), loose)
  {
    var c := s.calls[p];
    if c.longTerm {
      PostCopyKeeps(env, s, p, queue, loose);
    } else if HasRoom(env, s, queue) {
      HandOverKeeps(s, p, Msg(queue, c.fid, c.id, c.data, c.len), loose);
    } else {
      RefuseKeeps(env, s, p, loose);
    }
  }

  /** What posting leaves of the call: a one-shot call has either given its data away or lost its session. */
  ghost predicate Posted(s: State, t: State, p: Ptr)
    requires p in s.calls
  {
    && t == s.(calls := t.calls, blocks := t.blocks, posted := t.posted, log := t.log)
    && p in t.calls && t.calls == s.calls[p := t.calls[p]]
    && t.calls[p] == s.calls[p].(data := t.calls[p].data, session := t.calls[p].session)
    && (t.calls[p].session == s.calls[p].session || t.calls[p].session.None?)
    && (s.calls[p].longTerm ==> t.calls[p].data == s.calls[p].data)
    && (!s.calls[p].longTerm && t.calls[p].session.Some? ==> t.calls[p].data.None?)
  }

  lemma RefuseFrame(env: Env, s: State, p: Ptr)
    requires p in s.calls && (s.calls[p].session.Some? ==> s.calls[p].session.value in s.sessions)
    ensures Posted(s, Refuse(env, s, p), p)
  {
    var t := Refuse(env, s, p);
    assert t.calls == s.calls[p := s.calls[p].(session := None)];
  }

  lemma PostCopyFrame(env: Env, s: State, p: Ptr, queue: nat)
    requires env.Fair() && p in s.calls && s.calls[p].longTerm
             && (s.calls[p].data.Some? ==> s.calls[p].data.value in s.blocks)
    requires s.calls[p].session.Some? ==> s.calls[p].session.value in s.sessions
    ensures Posted(s, PostCopy(env, s, p, queue), p)
  {
    var c := s.calls[p];
    assert s.calls == s.calls[p := c];
    if HasRoom(env, s, queue) {
    } else {
      RefuseFrame(env, s, p);
      if c.data.Some? && c.len > 0 {
        var b := env.malloc(s.blocks.Keys);
        assert s.blocks[b := s.blocks[c.data.value]] - {b} == s.blocks;
      }
    }
  }

  lemma PostFrame(env: Env, s: State, p: Ptr, queue: nat)
    requires env.Fair() && p in s.calls && (s.calls[p].data.Some? ==> s.calls[p].data.value in s.blocks)
    requires s.calls[p].session.Some? ==> s.calls[p].session.value in s.sessions
    ensures Posted(s, Post(env, s, p, queue), p)
  {
    if s.calls[p].longTerm {
      PostCopyFrame(env, s, p, queue);
    } else if !HasRoom(env, s, queue) {
      RefuseFrame(env, s, p);
    }
  }

  // ---- Moving between the lists ----

  lemma ToWaitingMemory(s: State, p: Ptr)
    requires ListedOnce(s) && OwnedOnce(s) && p in s.calls
    ensures ListedOnce(ToWaiting(s, p)) && OwnedOnce(ToWaiting(s, p))
  {
    var u := Unlink(s, p);
    var t := ToWaiting(s, p);
    UnlinkLists(s, p);
    forall q: Ptr ensures Count(t.active, q) + Count(t.waiting, q) == if q in t.calls then 1 else 0 {
      CountAppend(u.waiting, [p], q);
    }
    forall b: Ptr ensures References(t, b) == if b in t.blocks then 1 else 0 {
      UnlinkHeld(s, p, b);
      HeldAppend(s.calls, u.waiting, p, b);
      assert References(s, b) == if b in s.blocks then 1 else 0;
    }
  }

  lemma ToActiveMemory(s: State, p: Ptr)
    requires ListedOnce(s) && OwnedOnce(s) && p in s.calls
    ensures ListedOnce(ToActive(s, p)) && OwnedOnce(ToActive(s, p))
  {
    var u := Unlink(s, p);
    var t := ToActive(s, p);
    UnlinkLists(s, p);
    forall q: Ptr ensures Count(t.active, q) + Count(t.waiting, q) == if q in t.calls then 1 else 0 {
      CountAppend(u.active, [p], q);
    }
    forall b: Ptr ensures References(t, b) == if b in t.blocks then 1 else 0 {
      UnlinkHeld(s, p, b);
      HeldAppend(s.calls, u.active, p, b);
      assert References(s, b) == if b in s.blocks then 1 else 0;
    }
  }

  lemma ToWaitingKeeps(s: State, p: Ptr, loose: set<nat>)
    requires Inv(s, loose) && p in s.calls && !s.calls[p].toDelete
    requires !s.calls[p].longTerm && s.calls[p].session.Some? ==> s.calls[p].data.None?
    ensures Good(s, ToWaiting(s, p), loose) && OnlyCall(s, ToWaiting(s, p), p)
  {
    var t := ToWaiting(s, p);
    ToWaitingMemory(s, p);
    UnlinkLists(s, p);
    forall q | q in t.calls ensures CallOk(t, q, loose) { assert CallOk(s, q, loose); }
    forall k: nat | Quiet(s, k) ensures Quiet(t, k) && Unheard(s.log, t.log, k) {}
  }

  lemma ToActiveKeeps(s: State, p: Ptr, loose: set<nat>)
    requires Inv(s, loose) && p in s.calls && s.calls[p].repliedAt.Some?
    ensures Good(s, ToActive(s, p), loose) && OnlyCall(s, ToActive(s, p), p)
  {
    var t := ToActive(s, p);
    ToActiveMemory(s, p);
    UnlinkLists(s, p);
    forall q | q in t.calls ensures CallOk(t, q, loose) { assert CallOk(s, q, loose); }
    forall k: nat | Quiet(s, k) ensures Quiet(t, k) && Unheard(s.log, t.log, k) {}
  }

  // ---- Acknowledging ----

  lemma MarkCalls(s: State, p: Ptr, t: State, loose: set<nat>)
    requires CallsOk(s, loose) && SerialsDiffer(s) && p in s.calls && p in s.waiting && p !in s.active
    requires t == SetCall(s, p, s.calls[p].(isNew := false))
    ensures CallsOk(t, loose - {s.calls[p].serial}) && SerialsDiffer(t) && Hush(s, t)
  {
    forall q | q in t.calls ensures CallOk(t, q, loose - {s.calls[p].serial}) {
      assert CallOk(s, q, loose) && CallOk(s, p, loose);
    }
    forall k: nat | Quiet(s, k) ensures Quiet(t, k) && Unheard(s.log, t.log, k) {}
  }

  /** Recording that the DELIVERED status of a waiting call has been sent. */
  lemma MarkKeeps(s: State, p: Ptr, loose: set<nat>)
    requires Inv(s, loose) && p in s.calls && p in s.waiting
    ensures Good(s, SetCall(s, p, s.calls[p].(isNew := false)), loose - {s.calls[p].serial})
  {
    var t := SetCall(s, p, s.calls[p].(isNew := false));
    ListFacts(s);
    SameOwners(s, t);
    MarkCalls(s, p, t, loose);
  }

  lemma AcknowledgeKeeps(env: Env, s: State, p: Ptr)
    requires Inv(s, {}) && p in s.calls && p in s.waiting
    ensures Good(s, Acknowledge(env, s, p), {})
  {
    if s.calls[p].isNew {
      var s1 := Emit(env, s, p, Status(DELIVERED));
      EmitKeeps(env, s, p, Status(DELIVERED), {});
      if Sent(env, s, p) {
        MarkKeeps(s1, p, {s.calls[p].serial});
        assert {s.calls[p].serial} - {s.calls[p].serial} == {};
        assert ({} + {s.calls[p].serial}) == {s.calls[p].serial};
        HushTrans(s, s1, Acknowledge(env, s, p));
      }
    }
  }

  /** The whole of forwarding one call to its peripheral. */
  lemma DispatchKeeps(env: Env, s: State, p: Ptr)
    requires Inv(s, {}) && env.Fair() && p in s.calls && !s.calls[p].toDelete
    ensures Good(s, Dispatch(env, s, p), {})
  {
    var c := s.calls[p];
    if c.fid in s.routes {
      var s1 := Post(env, s, p, s.routes[c.fid]);
      var s2 := ToWaiting(s1, p);
      PostKeeps(env, s, p, s.routes[c.fid], {});
      CallFacts(s, p);
      PostFrame(env, s, p, s.routes[c.fid]);
      ToWaitingKeeps(s1, p, {});
      AcknowledgeKeeps(env, s2, p);
      HushTrans(s, s1, s2);
      HushTrans(s, s2, Dispatch(env, s, p));
    } else {
      var s1 := Emit(env, s, p, Status(INVALID));
      EmitKeeps(env, s, p, Status(INVALID), {});
      ReleaseKeeps(s1, p, {});
      HushTrans(s, s1, Release(s1, p));
    }
  }

  lemma CallFacts(s: State, p: Ptr)
    requires Inv(s, {}) && p in s.calls
    ensures s.calls[p].data.Some? ==> s.calls[p].data.value in s.blocks
    ensures s.calls[p].session.Some? ==> s.calls[p].session.value in s.sessions
    ensures s.calls[p].toDelete ==> s.calls[p].isNew && p !in s.waiting
  {
    assert CallOk(s, p, {});
    if s.calls[p].data.Some? { HeldBlock(s, p); }
  }

  // ---- Deleting ----

  lemma {:induction false} ReleaseAllCalls(s: State, ps: seq<Ptr>)
    ensures ReleaseAll(s, ps).calls == s.calls - (set p | p in ps)
    decreases |ps|
  {
    if ps == [] {
      assert s.calls == s.calls - (set p | p in ps);
    } else {
      var s1 := Release(s, ps[0]);
      assert s1.calls == s.calls - {ps[0]};
      ReleaseAllCalls(s1, ps[1..]);
      assert (set p | p in ps) == {ps[0]} + (set p | p in ps[1..]);
    }
  }

  lemma {:induction false} ReleaseAllKeeps(s: State, ps: seq<Ptr>, loose: set<nat>)
    requires Inv(s, loose) && Distinct(ps) && (forall p :: p in ps ==> p in s.calls)
    ensures Good(s, ReleaseAll(s, ps), loose)
    decreases |ps|
  {
    if ps != [] {
      var s1 := Release(s, ps[0]);
      ReleaseKeeps(s, ps[0], loose);
      assert s1.calls == s.calls - {ps[0]};
      DistinctTail(ps);
      ReleaseAllKeeps(s1, ps[1..], loose);
      HushTrans(s, s1, ReleaseAll(s, ps));
    }
  }

  lemma DoomedFacts(s: State, p: Ptr)
    requires ListedOnce(s)
    ensures Distinct(Doomed(s, p)) && p !in Doomed(s, p)
    ensures forall q :: q in Doomed(s, p) ==> q in s.calls
  {
    if p in s.calls && s.calls[p].session.Some? && s.calls[p].session.value in s.sessions {
      var key := SameClientId(s, s.sessions[s.calls[p].session.value].fd, s.calls[p].fid, s.calls[p].id) - {p};
      ListFacts(s);
      SelectMembers(s.waiting, key);
      SelectMembers(s.active, key);
      forall q ensures Count(Doomed(s, p), q) <= 1 {
        CountAppend(Select(s.waiting, key), Select(s.active, key), q);
        SelectCount(s.waiting, key, q);
        SelectCount(s.active, key, q);
        assert Count(s.active, q) + Count(s.waiting, q) <= 1;
      }
    }
  }

  lemma DeleteKeeps(env: Env, s: State, p: Ptr)
    requires Inv(s, {}) && p in s.calls && s.calls[p].toDelete
    ensures Good(s, Delete(env, s, p), {})
  {
    var k := s.calls[p].serial;
    var s1 := Emit(env, s, p, Status(DELIVERED));
    CallFacts(s, p);
    EmitKeeps(env, s, p, Status(DELIVERED), {});
    if s.calls[p].session.Some? {
      var loose: set<nat> := if Sent(env, s, p) then {k} else {};
      assert Inv(s1, loose) by { assert ({} + {k}) == {k}; }
      var s2 := Cut(s1, p);
      CutKeeps(s1, p, loose);
      DoomedFacts(s1, p);
      ReleaseAllKeeps(s2, Doomed(s1, p), loose);
      ReleaseAllCalls(s2, Doomed(s1, p));
      var s3 := ReleaseAll(s2, Doomed(s1, p));
      ReleaseKeeps(s3, p, loose);
      assert loose - {k} == {};
      HushTrans(s, s1, s2);
      HushTrans(s, s2, s3);
      HushTrans(s, s3, Delete(env, s, p));
    } else {
      ReleaseKeeps(s1, p, {});
      HushTrans(s, s1, Delete(env, s, p));
    }
  }

  lemma ForwardOneKeeps(env: Env, s: State, p: Ptr)
    requires Inv(s, {}) && env.Fair() && p in s.calls
    ensures Good(s, ForwardOne(env, s, p), {})
  {
    var c := s.calls[p];
    if c.toDelete {
      DeleteKeeps(env, s, p);
    } else {
      var s1 := ReadClock(s, c);
      SessionsOk(s, {});
      Soften(s, s1, {});
      if !Throttled(env, s, c) {
        DispatchKeeps(env, s1, p);
        HushTrans(s, s1, Dispatch(env, s1, p));
      }
    }
  }

  lemma {:induction false} ForwardAllKeeps(env: Env, s: State, ps: seq<Ptr>)
    requires Inv(s, {}) && env.Fair()
    ensures Good(s, ForwardAll(env, s, ps), {})
    decreases |ps|
  {
    if ps != [] {
      var s1 := if ps[0] in s.calls then ForwardOne(env, s, ps[0]) else s;
      if ps[0] in s.calls { ForwardOneKeeps(env, s, ps[0]); }
      ForwardAllKeeps(env, s1, ps[1..]);
      HushTrans(s, s1, ForwardAll(env, s, ps));
    }
  }
}
