// What every step of the server keeps: single ownership of every record and block, session
// pointers that never dangle, at most one acknowledgement per call, and silence once a call has
// lost its session.

module WsInvariant {
  import opened Lists
  import opened Bytes
  import opened WsModel

  // ---- Ownership ----

  function Own(o: Option<Ptr>, b: Ptr): nat { if o == Some(b) then 1 else 0 }

  function OwnAt(calls: map<Ptr, Call>, p: Ptr, b: Ptr): nat {
    if p in calls then Own(calls[p].data, b) else 0
  }

  /** How many calls on a list point to block `b`. */
  function {:tailrecursion false} Held(calls: map<Ptr, Call>, ps: seq<Ptr>, b: Ptr): nat {
    if ps == [] then 0 else OwnAt(calls, ps[0], b) + Held(calls, ps[1..], b)
  }

  /** How many messages of a queue point to block `b`. */
  function {:tailrecursion false} Carried(ms: seq<Msg>, b: Ptr): nat {
    if ms == [] then 0 else Own(ms[0].data, b) + Carried(ms[1..], b)
  }

  function CarriedInHand(o: Option<Msg>, b: Ptr): nat {
    if o.None? then 0 else Own(o.value.data, b)
  }

  /** How many pointers to block `b` there are anywhere in the server. */
  function References(s: State, b: Ptr): nat {
    Held(s.calls, s.active, b) + Held(s.calls, s.waiting, b) + Carried(s.posted, b) + Carried(s.replies, b)
      + CarriedInHand(s.inHand, b)
  }

  /** Each allocated call record sits on exactly one list, once; nothing else is on a list. */
  ghost predicate ListedOnce(s: State) {
    forall p: Ptr :: Count(s.active, p) + Count(s.waiting, p) == if p in s.calls then 1 else 0
  }

  /** Each allocated block has exactly one pointer to it, and no pointer dangles. */
  ghost predicate OwnedOnce(s: State) {
    forall b: Ptr :: References(s, b) == if b in s.blocks then 1 else 0
  }

  // ---- Acknowledgements ----

  predicate IsAck(f: Frame, serial: nat) { f.serial == serial && f.ok && f.body == Status(DELIVERED) }

  /** How many DELIVERED statuses of a call the transport has queued. */
  function {:tailrecursion false} Acks(log: seq<Frame>, serial: nat): nat {
    if log == [] then 0
    else Acks(log[..|log| - 1], serial) + if IsAck(log[|log| - 1], serial) then 1 else 0
  }

  // ---- The invariant ----

  /** `loose` holds the serials whose acknowledgement has been sent but not yet recorded. */
  ghost predicate CallOk(s: State, p: Ptr, loose: set<nat>)
    requires p in s.calls
  {
    var c := s.calls[p];
    && c.serial < s.created
    && (c.session.Some? ==> c.session.value in s.sessions)
    && c.pending <= 1 && (c.pending == 0 ==> c.session.None?)
    && (c.repliedAt.Some? ==> c.nextPoll == Wrap(c.repliedAt.value + c.interval))
    && (c.toDelete ==> c.isNew && p !in s.waiting)
    && (p in s.active && !c.isNew ==> c.repliedAt.Some?)
    && (p in s.waiting && !c.longTerm && c.session.Some? ==> c.data.None?)
    && (c.isNew && c.serial !in loose ==> Acks(s.log, c.serial) == 0)
  }

  ghost predicate SerialsDiffer(s: State) {
    forall p, q :: p in s.calls && q in s.calls && s.calls[p].serial == s.calls[q].serial ==> p == q
  }

  ghost predicate AcksOnce(s: State) {
    forall k: nat :: Acks(s.log, k) <= if k < s.created then 1 else 0
  }

  ghost predicate RepliesOk(s: State) {
    && (forall i :: 0 <= i < |s.replies| ==> (s.replies[i].len > 0 ==> s.replies[i].data.Some?))
    && (s.inHand.Some? && s.inHand.value.len > 0 ==> s.inHand.value.data.Some?)
  }

  ghost predicate CallsOk(s: State, loose: set<nat>) {
    forall p :: p in s.calls ==> CallOk(s, p, loose)
  }

  ghost predicate Inv(s: State, loose: set<nat>) {
    && !s.fault
    && ListedOnce(s)
    && OwnedOnce(s)
    && CallsOk(s, loose)
    && SerialsDiffer(s)
    && AcksOnce(s)
    && RepliesOk(s)
  }

  // ---- Silence ----

  /** Call `k` has been created, and if its record still exists it has no session. */
  ghost predicate Quiet(s: State, k: nat) {
    k < s.created && forall p :: p in s.calls && s.calls[p].serial == k ==> s.calls[p].session.None?
  }

  ghost predicate Unheard(before: seq<Frame>, after: seq<Frame>, k: nat) {
    forall i :: |before| <= i < |after| ==> after[i].serial != k
  }

  /** From `s` to `t` a quiet call stays quiet and no frame is sent for it. */
  ghost predicate Hush(s: State, t: State) {
    && s.log <= t.log
    && s.created <= t.created
    && forall k: nat :: Quiet(s, k) ==> Quiet(t, k) && Unheard(s.log, t.log, k)
  }

  ghost predicate Good(s: State, t: State, loose: set<nat>) { Inv(t, loose) && Hush(s, t) }

  lemma HushTrans(s: State, t: State, u: State)
    requires Hush(s, t) && Hush(t, u)
    ensures Hush(s, u)
  {
    forall k: nat | Quiet(s, k) ensures Quiet(u, k) && Unheard(s.log, u.log, k) {
      assert Quiet(t, k);
      forall i | |s.log| <= i < |u.log| ensures u.log[i].serial != k {
        if i < |t.log| { assert u.log[i] == t.log[i]; }
      }
    }
  }

  // ---- Queue lengths ----

  /** Where in the peripherals' queues the messages for one queue stand. */
  ghost function Places(ms: seq<Msg>, queue: nat): set<nat> { set i: nat | i < |ms| && ms[i].queue == queue }

  lemma {:induction false} QueueLenAppend(ms: seq<Msg>, m: Msg, queue: nat)
    ensures QueueLen(ms + [m], queue) == QueueLen(ms, queue) + if m.queue == queue then 1 else 0
  {
    if ms == [] {
      assert ms + [m] == [m] && [m][1..] == [];
    } else {
      assert (ms + [m])[1..] == ms[1..] + [m];
      QueueLenAppend(ms[1..], m, queue);
    }
  }

  /** The length that a send looks at is the number of messages waiting for that queue. */
  lemma {:induction false} QueueLenCounts(ms: seq<Msg>, queue: nat)
    ensures QueueLen(ms, queue) == |Places(ms, queue)|
    decreases |ms|
  {
    if ms == [] {
      assert Places(ms, queue) == {};
    } else {
      var n := |ms| - 1;
      var front := ms[..n];
      assert ms == front + [ms[n]];
      QueueLenCounts(front, queue);
      QueueLenAppend(front, ms[n], queue);
      PlacesAppend(front, ms[n], queue);
    }
  }

  lemma PlacesAppend(ms: seq<Msg>, m: Msg, queue: nat)
    ensures |Places(ms + [m], queue)| == |Places(ms, queue)| + if m.queue == queue then 1 else 0
  {
    var all := ms + [m];
    assert all[|ms|] == m;
    if m.queue == queue {
      assert Places(all, queue) == Places(ms, queue) + {|ms|};
    } else {
      assert Places(all, queue) == Places(ms, queue);
    }
  }

  // ---- Lemmas about ownership ----

  lemma {:induction false} HeldSame(c1: map<Ptr, Call>, c2: map<Ptr, Call>, ps: seq<Ptr>, b: Ptr)
    requires forall p :: p in ps ==> OwnAt(c1, p, b) == OwnAt(c2, p, b)
    ensures Held(c1, ps, b) == Held(c2, ps, b)
  {
    if ps != [] {
      assert ps[0] in ps;
      HeldSame(c1, c2, ps[1..], b);
    }
  }

  lemma {:induction false} HeldWithout(calls: map<Ptr, Call>, ps: seq<Ptr>, p: Ptr, b: Ptr)
    ensures Held(calls, ps, b) == Held(calls, Without(ps, p), b) + if p in ps then OwnAt(calls, p, b) else 0
  {
    if ps != [] && ps[0] != p {
      HeldWithout(calls, ps[1..], p, b);
      assert Without(ps, p)[1..] == Without(ps[1..], p);
    }
  }

  lemma {:induction false} HeldAppend(calls: map<Ptr, Call>, ps: seq<Ptr>, p: Ptr, b: Ptr)
    ensures Held(calls, ps + [p], b) == Held(calls, ps, b) + OwnAt(calls, p, b)
  {
    if ps == [] {
      assert ps + [p] == [p] && [p][1..] == [];
    } else {
      assert (ps + [p])[1..] == ps[1..] + [p];
      HeldAppend(calls, ps[1..], p, b);
    }
  }

  lemma {:induction false} CarriedAppend(ms: seq<Msg>, m: Msg, b: Ptr)
    ensures Carried(ms + [m], b) == Carried(ms, b) + Own(m.data, b)
  {
    if ms == [] {
      assert ms + [m] == [m] && [m][1..] == [];
    } else {
      assert (ms + [m])[1..] == ms[1..] + [m];
      CarriedAppend(ms[1..], m, b);
    }
  }

  lemma {:induction false} CarriedPop(ms: seq<Msg>, queue: nat, b: Ptr)
    ensures var (rest, m) := Pop(ms, queue);
            Carried(ms, b) == Carried(rest, b) + CarriedInHand(m, b)
  {
    if ms != [] && ms[0].queue != queue {
      CarriedPop(ms[1..], queue, b);
      var (rest, m) := Pop(ms[1..], queue);
      assert ([ms[0]] + rest)[1..] == rest;
    }
  }

  lemma ListFacts(s: State)
    requires ListedOnce(s)
    ensures Distinct(s.active) && Distinct(s.waiting)
    ensures forall p :: p in s.active ==> p !in s.waiting
    ensures forall p :: p in s.calls <==> p in s.active || p in s.waiting
  {
    forall p: Ptr
      ensures Count(s.active, p) <= 1 && Count(s.waiting, p) <= 1
      ensures p in s.active ==> p !in s.waiting
      ensures p in s.calls <==> p in s.active || p in s.waiting
    {
      CountIn(s.active, p);
      CountIn(s.waiting, p);
      assert Count(s.active, p) + Count(s.waiting, p) == if p in s.calls then 1 else 0;
    }
  }

  /** A pointer held by a listed call points to an allocated block. */
  lemma HeldBlock(s: State, p: Ptr)
    requires ListedOnce(s) && OwnedOnce(s) && p in s.calls && s.calls[p].data.Some?
    ensures s.calls[p].data.value in s.blocks
  {
    ListFacts(s);
    var b := s.calls[p].data.value;
    HeldWithout(s.calls, s.active, p, b);
    HeldWithout(s.calls, s.waiting, p, b);
    assert References(s, b) > 0;
  }

  /** What is left when one call is taken off its list. */
  lemma UnlinkLists(s: State, p: Ptr)
    requires ListedOnce(s) && p in s.calls
    ensures var t := Unlink(s, p);
            && (forall q: Ptr :: Count(t.active, q) + Count(t.waiting, q) == if q in s.calls && q != p then 1 else 0)
            && p !in t.active && p !in t.waiting
            && (forall q :: q != p ==> (q in t.active <==> q in s.active) && (q in t.waiting <==> q in s.waiting))
            && (p in s.active ==> t.waiting == s.waiting) && (p in s.waiting ==> t.active == s.active)
  {
    ListFacts(s);
    var t := Unlink(s, p);
    WithoutMembers(s.active, p);
    WithoutMembers(s.waiting, p);
    forall q: Ptr ensures Count(t.active, q) + Count(t.waiting, q) == if q in s.calls && q != p then 1 else 0 {
      CountWithout(s.active, p, q);
      CountWithout(s.waiting, p, q);
    }
    CountIn(t.active, p);
    CountIn(t.waiting, p);
  }

  lemma UnlinkHeld(s: State, p: Ptr, b: Ptr)
    requires ListedOnce(s) && p in s.calls
    ensures var t := Unlink(s, p);
            Held(s.calls, t.active, b) + Held(s.calls, t.waiting, b) + OwnAt(s.calls, p, b)
              == Held(s.calls, s.active, b) + Held(s.calls, s.waiting, b)
  {
    ListFacts(s);
    HeldWithout(s.calls, s.active, p, b);
    HeldWithout(s.calls, s.waiting, p, b);
  }
}
