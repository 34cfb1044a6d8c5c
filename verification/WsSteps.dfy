// Each operation of the server keeps the invariant, and keeps quiet calls quiet.

module WsSteps {
  import opened Lists
  import opened Bytes
  import opened WsModel
  import opened WsInvariant

  /** `d` is `c`, except that it may have lost its session or a pending invocation. */
  ghost predicate Softer(c: Call, d: Call) {
    && d == c.(session := d.session, pending := d.pending)
    && (d.session == c.session || d.session.None?)
    && d.pending <= c.pending && (d.pending == 0 ==> d.session.None?)
  }

  ghost predicate SameData(s: State, t: State) {
    forall p :: p in s.calls ==> p in t.calls && t.calls[p].data == s.calls[p].data
  }

  lemma SameReferences(s: State, t: State, b: Ptr)
    requires t.active == s.active && t.waiting == s.waiting && t.posted == s.posted && t.replies == s.replies
             && t.inHand == s.inHand
    requires t.calls.Keys == s.calls.Keys && SameData(s, t)
    ensures References(t, b) == References(s, b)
  {
    HeldSame(s.calls, t.calls, s.active, b);
    HeldSame(s.calls, t.calls, s.waiting, b);
  }

  lemma SameOwners(s: State, t: State)
    requires OwnedOnce(s)
    requires t.active == s.active && t.waiting == s.waiting && t.posted == s.posted && t.replies == s.replies
             && t.inHand == s.inHand
    requires t.calls.Keys == s.calls.Keys && SameData(s, t) && t.blocks == s.blocks
    ensures OwnedOnce(t)
  {
    forall b: Ptr ensures References(t, b) == if b in t.blocks then 1 else 0 {
      SameReferences(s, t, b);
    }
  }

  lemma SoftenCalls(s: State, t: State, loose: set<nat>)
    requires CallsOk(s, loose) && SerialsDiffer(s)
    requires t.calls.Keys == s.calls.Keys && t.active == s.active && t.waiting == s.waiting && t.log == s.log
             && t.created == s.created
    requires forall p :: p in s.calls ==> Softer(s.calls[p], t.calls[p])
    requires forall p :: p in t.calls && t.calls[p].session.Some? ==> t.calls[p].session.value in t.sessions
    ensures CallsOk(t, loose) && SerialsDiffer(t)
  {
    forall p | p in t.calls ensures CallOk(t, p, loose) {
      assert CallOk(s, p, loose) && Softer(s.calls[p], t.calls[p]);
    }
  }

  lemma SoftenHush(s: State, t: State)
    requires t.calls.Keys == s.calls.Keys && t.log == s.log && t.created == s.created
    requires forall p :: p in s.calls ==> Softer(s.calls[p], t.calls[p])
    ensures Hush(s, t)
  {
    forall k: nat | Quiet(s, k) ensures Quiet(t, k) && Unheard(s.log, t.log, k) {
      forall p | p in t.calls && t.calls[p].serial == k ensures t.calls[p].session.None? {
        assert Softer(s.calls[p], t.calls[p]);
      }
    }
  }

  /** Clearing sessions, and touching clocks, handlers, routes or session times. */
  lemma Soften(s: State, t: State, loose: set<nat>)
    requires Inv(s, loose)
    requires t == s.(calls := t.calls, sessions := t.sessions, handlers := t.handlers, routes := t.routes,
             clockReads := t.clockReads)
    requires t.calls.Keys == s.calls.Keys
    requires forall p :: p in s.calls ==> Softer(s.calls[p], t.calls[p])
    requires forall p :: p in t.calls && t.calls[p].session.Some? ==> t.calls[p].session.value in t.sessions
    ensures Good(s, t, loose)
  {
    forall p | p in s.calls ensures t.calls[p].data == s.calls[p].data { assert Softer(s.calls[p], t.calls[p]); }
    SameOwners(s, t);
    SoftenCalls(s, t, loose);
    SoftenHush(s, t);
  }

  ghost predicate SessionOk(s: State, c: Call) {
    && (c.session.Some? ==> c.session.value in s.sessions)
    && (c.pending == 0 ==> c.session.None?)
  }

  lemma SessionsOk(s: State, loose: set<nat>)
    requires CallsOk(s, loose)
    ensures forall p :: p in s.calls ==> SessionOk(s, s.calls[p])
  {
    forall p | p in s.calls ensures SessionOk(s, s.calls[p]) {
      assert CallOk(s, p, loose);
    }
  }

  // ---- What sending and freeing leave alone ----

  lemma FreeBlockShape(s: State, o: Option<Ptr>)
    ensures var t := FreeBlock(s, o); t == s.(blocks := t.blocks, fault := t.fault)
  {}

  lemma StoreShape(env: Env, s: State, arg: Option<seq<byte>>)
    ensures Store(env, s, arg).0 == s.(blocks := Store(env, s, arg).0.blocks)
  {}

  lemma TakeMsgShape(s: State, queue: nat)
    ensures var t := TakeMsg(s, queue); t == s.(posted := t.posted, blocks := t.blocks, fault := t.fault)
  {
    var (rest, m) := Pop(s.posted, queue);
    if m.Some? { FreeBlockShape(s.(posted := rest), m.value.data); }
  }

  lemma PutAnswerShape(env: Env, s: State, fid: nat, id: nat, payload: seq<byte>)
    ensures var t := PutAnswer(env, s, fid, id, payload);
            t == s.(replies := t.replies, blocks := t.blocks, fault := t.fault)
  {
    var arg := if payload == [] then None else Some(payload);
    StoreShape(env, s, arg);
    FreeBlockShape(Store(env, s, arg).0, Store(env, s, arg).1);
  }

  /** New session times, and a clock reading. */
  lemma SessionTimesKeep(s: State, sessions: map<Ptr, Session>, loose: set<nat>)
    requires Inv(s, loose) && s.sessions.Keys <= sessions.Keys
    ensures Good(s, s.(sessions := sessions, clockReads := s.clockReads + 1), loose)
  {
    SessionsOk(s, loose);
    Soften(s, s.(sessions := sessions, clockReads := s.clockReads + 1), loose);
  }

  lemma CutKeeps(s: State, p: Ptr, loose: set<nat>)
    requires Inv(s, loose) && p in s.calls
    ensures Good(s, Cut(s, p), loose)
  {
    SessionsOk(s, loose);
    Soften(s, Cut(s, p), loose);
  }

  lemma CompleteSofter(s: State, p: Ptr)
    requires p in s.calls && (p in s.active || p in s.waiting) && SessionOk(s, s.calls[p])
    ensures var t := CompleteCall(s, p);
            && t == s.(calls := t.calls) && p in t.calls && t.calls == s.calls[p := t.calls[p]]
            && Softer(s.calls[p], t.calls[p]) && SessionOk(s, t.calls[p])
  {}

  lemma CompleteKeeps(s: State, p: Ptr, loose: set<nat>)
    requires Inv(s, loose)
    ensures Good(s, CompleteCall(s, p), loose)
  {
    SessionsOk(s, loose);
    if p in s.active || p in s.waiting {
      ListFacts(s);
      CompleteSofter(s, p);
      SoftenOne(s, CompleteCall(s, p), p, loose);
    } else {
      Soften(s, s, loose);
    }
  }

  lemma SoftenOne(s: State, t: State, p: Ptr, loose: set<nat>)
    requires Inv(s, loose) && (forall q :: q in s.calls ==> SessionOk(s, s.calls[q]))
    requires t == s.(calls := t.calls) && p in s.calls && p in t.calls && t.calls == s.calls[p := t.calls[p]]
    requires Softer(s.calls[p], t.calls[p]) && SessionOk(s, t.calls[p])
    ensures Good(s, t, loose)
  {
    forall q | q in s.calls ensures Softer(s.calls[q], t.calls[q]) { assert SessionOk(s, s.calls[q]); }
    forall q | q in t.calls && t.calls[q].session.Some? ensures t.calls[q].session.value in t.sessions {
      assert SessionOk(s, t.calls[q]);
    }
    Soften(s, t, loose);
  }

  lemma BreakFdKeeps(s: State, fd: int, loose: set<nat>)
    requires Inv(s, loose)
    ensures Good(s, BreakFd(s, fd), loose)
  {
    SessionsOk(s, loose);
    Soften(s, BreakFd(s, fd), loose);
  }

  lemma AcksAppend(log: seq<Frame>, f: Frame, k: nat)
    ensures Acks(log + [f], k) == Acks(log, k) + if IsAck(f, k) then 1 else 0
  {
    assert (log + [f])[..|log|] == log;
  }

  /** One more frame in the log. */
  lemma FrameKeeps(s: State, f: Frame, loose: set<nat>, loose': set<nat>)
    requires Inv(s, loose) && loose <= loose' && f.serial < s.created
    requires IsAck(f, f.serial) ==> Acks(s.log, f.serial) == 0 && f.serial in loose'
    ensures var t := s.(log := s.log + [f]); Inv(t, loose')
  {
    var t := s.(log := s.log + [f]);
    SameOwners(s, t);
    forall q | q in t.calls ensures CallOk(t, q, loose') {
      assert CallOk(s, q, loose);
      AcksAppend(s.log, f, t.calls[q].serial);
    }
    forall k: nat ensures Acks(t.log, k) <= if k < t.created then 1 else 0 { AcksAppend(s.log, f, k); }
  }

  lemma FrameHush(s: State, p: Ptr, f: Frame)
    requires p in s.calls && s.calls[p].session.Some? && f.serial == s.calls[p].serial
    ensures Hush(s, s.(log := s.log + [f]))
  {
    var t := s.(log := s.log + [f]);
    forall k: nat | Quiet(s, k) ensures Quiet(t, k) && Unheard(s.log, t.log, k) {}
  }

  /** A send is for a call that has a session; a DELIVERED is the first one of its call. */
  lemma EmitKeeps(env: Env, s: State, p: Ptr, body: Body, loose: set<nat>)
    requires Inv(s, loose) && p in s.calls
    requires body == Status(DELIVERED) ==> s.calls[p].isNew && s.calls[p].serial !in loose
    ensures var t := Emit(env, s, p, body);
            && t == s.(log := t.log)
            && Good(s, t, if body == Status(DELIVERED) && Sent(env, s, p) then loose + {s.calls[p].serial} else loose)
  {
    var c := s.calls[p];
    assert CallOk(s, p, loose);
    if c.session.Some? {
      var loose' := if body == Status(DELIVERED) && Sent(env, s, p) then loose + {c.serial} else loose;
      var f := Frame(c.session.value, c.serial, body, env.accepts(|s.log|));
      FrameKeeps(s, f, loose, loose');
      FrameHush(s, p, f);
      assert Emit(env, s, p, body) == s.(log := s.log + [f]);
    }
  }

  // ---- Freeing ----

  /** Freeing the data of a listed call, and clearing the pointer to it. */
  function Detach(s: State, p: Ptr): State
    requires p in s.calls
  {
    SetCall(FreeBlock(s, s.calls[p].data), p, s.calls[p].(data := None))
  }

  lemma DetachedHeld(s: State, t: State, p: Ptr, b: Ptr)
    requires ListedOnce(s) && p in s.calls
    requires t.active == s.active && t.waiting == s.waiting && t.calls == s.calls[p := s.calls[p].(data := None)]
    ensures Held(s.calls, s.active, b) + Held(s.calls, s.waiting, b)
            == Held(t.calls, t.active, b) + Held(t.calls, t.waiting, b) + OwnAt(s.calls, p, b)
  {
    UnlinkHeld(s, p, b);
    UnlinkLists(s, p);
    var u := Unlink(s, p);
    UnlinkHeld(t, p, b);
    HeldSame(s.calls, t.calls, u.active, b);
    HeldSame(s.calls, t.calls, u.waiting, b);
  }

  lemma DetachShape(s: State, p: Ptr)
    requires p in s.calls && (s.calls[p].data.Some? ==> s.calls[p].data.value in s.blocks)
    ensures var t := Detach(s, p);
            && t == s.(calls := s.calls[p := s.calls[p].(data := None)], blocks := t.blocks)
            && (forall b: Ptr :: b in t.blocks <==> b in s.blocks && s.calls[p].data != Some(b))
  {}

  lemma DetachMemory(s: State, p: Ptr)
    requires ListedOnce(s) && OwnedOnce(s) && p in s.calls
    ensures var t := Detach(s, p);
            && t == s.(calls := s.calls[p := s.calls[p].(data := None)], blocks := t.blocks)
            && ListedOnce(t) && OwnedOnce(t)
  {
    var t := Detach(s, p);
    if s.calls[p].data.Some? { HeldBlock(s, p); }
    DetachShape(s, p);
    forall b: Ptr ensures References(t, b) == if b in t.blocks then 1 else 0 {
      DetachedHeld(s, t, p, b);
      assert References(s, b) == if b in s.blocks then 1 else 0;
    }
  }

  /** Forgetting the data pointer of one call does not touch the rest of the invariant. */
  lemma DetachCalls(s: State, p: Ptr, t: State, loose: set<nat>)
    requires CallsOk(s, loose) && SerialsDiffer(s) && p in s.calls
    requires t.active == s.active && t.waiting == s.waiting && t.log == s.log && t.created == s.created
             && t.sessions == s.sessions
    requires t.calls == s.calls[p := s.calls[p].(data := None)]
    ensures CallsOk(t, loose) && SerialsDiffer(t) && Hush(s, t)
  {
    forall q | q in t.calls ensures CallOk(t, q, loose) { assert CallOk(s, q, loose); }
    forall k: nat | Quiet(s, k) ensures Quiet(t, k) && Unheard(s.log, t.log, k) {}
  }

  lemma DetachedKeeps(s: State, p: Ptr, t: State, loose: set<nat>)
    requires Inv(s, loose) && p in s.calls && ListedOnce(t) && OwnedOnce(t)
    requires t == s.(calls := s.calls[p := s.calls[p].(data := None)], blocks := t.blocks)
    ensures Good(s, t, loose)
  {
    DetachCalls(s, p, t, loose);
  }

  lemma DetachKeeps(s: State, p: Ptr, loose: set<nat>)
    requires Inv(s, loose) && p in s.calls
    ensures Good(s, Detach(s, p), loose)
  {
    DetachMemory(s, p);
    DetachedKeeps(s, p, Detach(s, p), loose);
  }

  lemma DropMemory(s: State, p: Ptr)
    requires ListedOnce(s) && OwnedOnce(s) && p in s.calls && s.calls[p].data.None?
    ensures ListedOnce(Drop(s, p)) && OwnedOnce(Drop(s, p))
  {
    var t := Drop(s, p);
    UnlinkLists(s, p);
    forall b: Ptr ensures References(t, b) == if b in t.blocks then 1 else 0 {
      UnlinkHeld(s, p, b);
      HeldSame(s.calls, t.calls, t.active, b);
      HeldSame(s.calls, t.calls, t.waiting, b);
      assert References(s, b) == if b in s.blocks then 1 else 0;
    }
  }

  lemma DropCalls(s: State, p: Ptr, loose: set<nat>)
    requires CallsOk(s, loose) && SerialsDiffer(s) && ListedOnce(s) && p in s.calls
    ensures var t := Drop(s, p);
            CallsOk(t, loose) && CallsOk(t, loose - {s.calls[p].serial}) && SerialsDiffer(t) && Hush(s, t)
  {
    var t := Drop(s, p);
    UnlinkLists(s, p);
    forall q | q in t.calls ensures CallOk(t, q, loose) && CallOk(t, q, loose - {s.calls[p].serial}) {
      assert CallOk(s, q, loose);
    }
    forall k: nat | Quiet(s, k) ensures Quiet(t, k) && Unheard(s.log, t.log, k) {}
  }

  /** Unlinking and freeing a record that holds no data. */
  lemma DropKeeps(s: State, p: Ptr, loose: set<nat>)
    requires Inv(s, loose) && p in s.calls && s.calls[p].data.None?
    ensures Good(s, Drop(s, p), loose) && Good(s, Drop(s, p), loose - {s.calls[p].serial})
  {
    DropMemory(s, p);
    DropCalls(s, p, loose);
  }

  lemma ReleaseIsDetachAndDrop(s: State, p: Ptr)
    requires p in s.calls
    ensures Release(s, p) == Drop(Detach(s, p), p)
  {
    assert Detach(s, p).calls - {p} == s.calls - {p};
  }

  lemma ReleaseKeeps(s: State, p: Ptr, loose: set<nat>)
    requires Inv(s, loose) && p in s.calls
    ensures Good(s, Release(s, p), loose) && Good(s, Release(s, p), loose - {s.calls[p].serial})
  {
    DetachKeeps(s, p, loose);
    ReleaseIsDetachAndDrop(s, p);
    DropKeeps(Detach(s, p), p, loose);
    HushTrans(s, Detach(s, p), Release(s, p));
  }
}
