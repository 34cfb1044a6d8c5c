// Reply delivery: which calls a reply reaches, what each of them is sent, and where they end up; and
// what a broadcast of the application sends.

module WsDelivery {
  import opened Lists
  import opened Bytes
  import opened WsModel
  import opened WsInvariant
  import opened WsForwarding
  import opened WsReplying

  // ---- Where the addressees end up ----

  ghost function LongTerm(s: State): set<Ptr> { set p | p in s.calls && s.calls[p].longTerm }

  /** The calls that a delivery to `ps` leaves on the waiting list. */
  ghost function Spared(s: State, ps: seq<Ptr>): set<Ptr> { set p | p in s.calls && p !in ps }

  /** `d` is `c` after a reply: due again one interval after a clock reading made from `first` on. */
  ghost predicate Rearmed(env: Env, c: Call, d: Call, first: nat, last: nat) {
    && d == c.(session := d.session, pending := d.pending, nextPoll := d.nextPoll, repliedAt := d.repliedAt)
    && exists i: nat ::
         first <= i < last && d.repliedAt == Some(env.clock(i)) && d.nextPoll == Wrap(env.Tick(i) + c.interval)
  }

  ghost predicate Delivered(env: Env, s: State, t: State, ps: seq<Ptr>) {
    && t.waiting == Select(s.waiting, Spared(s, ps))
    && t.active == s.active + Select(ps, LongTerm(s))
    && t.blocks == s.blocks && t.posted == s.posted && t.replies == s.replies && t.inHand == s.inHand
       && t.sessions == s.sessions
    && s.clockReads <= t.clockReads
    && (forall q :: q in t.calls <==> q in s.calls && (q in ps ==> s.calls[q].longTerm))
    && (forall q :: q in t.calls && q !in ps ==> t.calls[q] == s.calls[q])
    && (forall q :: q in t.calls && q in ps ==> Rearmed(env, s.calls[q], t.calls[q], s.clockReads, t.clockReads))
  }

  /** What delivering to one call does to the lists and records. */
  ghost predicate DeliveredOne(env: Env, s: State, t: State, p: Ptr)
    requires p in s.calls
  {
    && t.waiting == Without(s.waiting, p)
    && t.active == (if s.calls[p].longTerm then s.active + [p] else s.active)
    && t.blocks == s.blocks && t.posted == s.posted && t.replies == s.replies && t.inHand == s.inHand
       && t.sessions == s.sessions
    && s.clockReads <= t.clockReads
    && t.calls.Keys == (if s.calls[p].longTerm then s.calls.Keys else s.calls.Keys - {p})
    && (forall q :: q in t.calls && q != p ==> t.calls[q] == s.calls[q])
    && (p in t.calls ==> Rearmed(env, s.calls[p], t.calls[p], s.clockReads, t.clockReads))
  }

  lemma RearmFate(env: Env, s: State, s1: State, p: Ptr)
    requires p in s.calls && Softened(s, s1, p) && s.calls[p].longTerm && p !in s.active
    ensures DeliveredOne(env, s, Rearm(env, s1, p), p)
  {
    var i := s.clockReads;
    var t := Rearm(env, s1, p);
    WithoutMembers(s.active, p);
    assert s.clockReads <= i < t.clockReads && t.calls[p].repliedAt == Some(env.clock(i))
      && t.calls[p].nextPoll == Wrap(env.Tick(i) + s.calls[p].interval);
  }

  lemma DropFate(env: Env, s: State, s1: State, p: Ptr)
    requires p in s.calls && Softened(s, s1, p) && !s.calls[p].longTerm && p !in s.active
    ensures DeliveredOne(env, s, Drop(s1, p), p)
  {
    WithoutMembers(s.active, p);
  }

  lemma DeliverOneFate(env: Env, s: State, p: Ptr, payload: seq<byte>)
    requires Inv(s, {}) && Ready(s, p)
    ensures DeliveredOne(env, s, DeliverOne(env, s, p, payload), p)
  {
    NotifyKeeps(env, s, p, payload);
    ListFacts(s);
    var s1 := Notify(env, s, p, payload);
    if s.calls[p].longTerm {
      RearmFate(env, s, s1, p);
      var t := Rearm(env, s1, p);
      assert DeliverOne(env, s, p, payload) == t;
    } else {
      DropFate(env, s, s1, p);
      var t := Drop(s1, p);
      assert DeliverOne(env, s, p, payload) == t;
    }
  }

  lemma RearmedLater(env: Env, c: Call, d: Call, first: nat, last: nat, first': nat, last': nat)
    requires Rearmed(env, c, d, first, last) && first' <= first && last <= last'
    ensures Rearmed(env, c, d, first', last')
  {
    var i: nat :| first <= i < last && d.repliedAt == Some(env.clock(i))
      && d.nextPoll == Wrap(env.Tick(i) + c.interval);
    assert first' <= i < last';
  }

  lemma SparedStep(s: State, s1: State, ps: seq<Ptr>)
    requires ps != [] && Distinct(ps) && Distinct(s.waiting) && ps[0] in s.calls
             && s1.waiting == Without(s.waiting, ps[0])
    requires s1.calls.Keys == if s.calls[ps[0]].longTerm then s.calls.Keys else s.calls.Keys - {ps[0]}
    ensures Select(s1.waiting, Spared(s1, ps[1..])) == Select(s.waiting, Spared(s, ps))
  {
    var p := ps[0];
    var rest := Spared(s1, ps[1..]);
    SelectWithout(s.waiting, p, rest);
    forall q | q in s.waiting ensures q in rest - {p} <==> q in Spared(s, ps) {
      assert q in ps <==> q == p || q in ps[1..];
    }
    SelectAgree(s.waiting, rest - {p}, Spared(s, ps));
  }

  lemma LongTermStep(s: State, s1: State, ps: seq<Ptr>)
    requires ps != [] && ps[0] in s.calls
    requires forall q :: q in ps[1..] ==> q in s.calls && q in s1.calls && s1.calls[q] == s.calls[q]
    requires s1.active == s.active + Chosen(ps[0], LongTerm(s))
    ensures s1.active + Select(ps[1..], LongTerm(s1)) == s.active + Select(ps, LongTerm(s))
  {
    var keep := LongTerm(s);
    SameSelection(ps[1..], LongTerm(s1), keep);
    AppendSelected(s.active, ps, keep);
  }

  lemma SameSelection(ps: seq<Ptr>, a: set<Ptr>, b: set<Ptr>)
    requires forall q :: q in ps ==> (q in a <==> q in b)
    ensures Select(ps, a) == Select(ps, b)
  {
    SelectAgree(ps, a, b);
  }

  /** After one delivery the other addressees can still take theirs. */
  lemma NextDelivery(env: Env, s: State, ps: seq<Ptr>, payload: seq<byte>)
    requires Inv(s, {}) && ps != [] && ps[0] !in ps[1..] && forall p :: p in ps ==> Ready(s, p)
    ensures var s1 := DeliverOne(env, s, ps[0], payload);
            && Inv(s1, {}) && DeliveredOne(env, s, s1, ps[0])
            && forall q :: q in ps[1..] ==> Ready(s1, q) && q in s.calls && s1.calls[q] == s.calls[q]
  {
    var p := ps[0];
    var s1 := DeliverOne(env, s, p, payload);
    assert Ready(s, p);
    DeliverOneKeeps(env, s, p, payload);
    DeliverOneFrame(env, s, p, payload);
    DeliverOneFate(env, s, p, payload);
    forall q | q in ps[1..] ensures Ready(s1, q) && q in s.calls && s1.calls[q] == s.calls[q] {
      assert q != p && Ready(s, q);
    }
  }

  /** What one delivery and the deliveries after it come to. */
  lemma DeliveredMore(env: Env, s: State, s1: State, t: State, ps: seq<Ptr>)
    requires ps != [] && Distinct(ps) && Distinct(s.waiting) && ps[0] in s.calls
    requires forall q :: q in ps[1..] ==> q in s.calls && q in s1.calls && s1.calls[q] == s.calls[q]
    requires DeliveredOne(env, s, s1, ps[0]) && Delivered(env, s1, t, ps[1..])
    ensures Delivered(env, s, t, ps)
  {
    DistinctTail(ps);
    SparedStep(s, s1, ps);
    assert s.active + [] == s.active;
    LongTermStep(s, s1, ps);
    DeliveredCalls(env, s, s1, t, ps);
  }

  /** A delivery frees the one-shot addressees, moves the long-term ones to the tail of the active list
      in order, each due one interval later, and leaves every other call as it was. */
  lemma {:induction false} DeliverAllFate(env: Env, s: State, ps: seq<Ptr>, payload: seq<byte>)
    requires Inv(s, {}) && Distinct(ps) && forall p :: p in ps ==> Ready(s, p)
    ensures Delivered(env, s, DeliverAll(env, s, ps, payload), ps)
    decreases |ps|
  {
    ListFacts(s);
    if ps == [] {
      SelectAll(s.waiting, Spared(s, ps));
      assert s.active + Select(ps, LongTerm(s)) == s.active;
    } else {
      var s1 := DeliverOne(env, s, ps[0], payload);
      assert Ready(s, ps[0]);
      DistinctTail(ps);
      NextDelivery(env, s, ps, payload);
      DeliverAllFate(env, s1, ps[1..], payload);
      DeliveredMore(env, s, s1, DeliverAll(env, s1, ps[1..], payload), ps);
    }
  }

  lemma DeliveredCalls(env: Env, s: State, s1: State, t: State, ps: seq<Ptr>)
    requires ps != [] && ps[0] !in ps[1..] && ps[0] in s.calls && s.clockReads <= s1.clockReads
             && Delivered(env, s1, t, ps[1..])
    requires s1.calls.Keys == if s.calls[ps[0]].longTerm then s.calls.Keys else s.calls.Keys - {ps[0]}
    requires forall q :: q in s1.calls && q != ps[0] ==> s1.calls[q] == s.calls[q]
    requires ps[0] in s1.calls ==> Rearmed(env, s.calls[ps[0]], s1.calls[ps[0]], s.clockReads, s1.clockReads)
    ensures forall q :: q in t.calls <==> q in s.calls && (q in ps ==> s.calls[q].longTerm)
    ensures forall q :: q in t.calls && q !in ps ==> t.calls[q] == s.calls[q]
    ensures forall q :: q in t.calls && q in ps ==> Rearmed(env, s.calls[q], t.calls[q], s.clockReads, t.clockReads)
  {
    var p := ps[0];
    forall q | q in t.calls && q in ps ensures Rearmed(env, s.calls[q], t.calls[q], s.clockReads, t.clockReads) {
      if q == p {
        RearmedLater(env, s.calls[p], s1.calls[p], s.clockReads, s1.clockReads, s.clockReads, t.clockReads);
      } else {
        RearmedLater(env, s.calls[q], t.calls[q], s1.clockReads, t.clockReads, s.clockReads, t.clockReads);
      }
    }
  }

  // ---- What the addressees are sent ----

  /** The reply frames of a log: to which session, for which call, with which payload. */
  datatype Copy = Copy(session: Ptr, serial: nat, payload: seq<byte>)

  function {:tailrecursion false} Copies(log: seq<Frame>): seq<Copy> {
    if log == [] then []
    else
      var f := log[|log| - 1];
      Copies(log[..|log| - 1]) + if f.body.Reply? then [Copy(f.session, f.serial, f.body.reply)] else []
  }

  ghost predicate Reachable(s: State, p: Ptr) {
    Ready(s, p) && s.calls[p].session.Some? && s.calls[p].session.value in s.sessions
  }

  ghost function CopyFor(s: State, p: Ptr, payload: seq<byte>): Copy
    requires Reachable(s, p)
  {
    Copy(s.calls[p].session.value, s.calls[p].serial, payload)
  }

  /** The handler of the `i`-th addressee, run when the addressees before it have been served, does not
      complete its call. */
  ghost predicate KeepsCall(env: Env, s: State, ps: seq<Ptr>, payload: seq<byte>, i: nat)
    requires i < |ps| && ps[i] in s.calls
  {
    var c := s.calls[ps[i]];
    c.handled ==> Finish !in env.handler(c, payload, |DeliverAll(env, s, ps[..i], payload).log|)
  }

  /** One copy of the payload for each of the first `n` addressees whose handler does not complete its call. */
  ghost function CopiesFor(env: Env, s: State, ps: seq<Ptr>, payload: seq<byte>, n: nat): seq<Copy>
    requires n <= |ps| && forall p :: p in ps ==> Reachable(s, p)
    decreases n
  {
    if n == 0 then []
    else
      assert ps[n - 1] in ps;
      assert Reachable(s, ps[n - 1]);
      CopiesFor(env, s, ps, payload, n - 1)
      + if KeepsCall(env, s, ps, payload, n - 1) then [CopyFor(s, ps[n - 1], payload)] else []
  }

  lemma CopiesAppend(log: seq<Frame>, f: Frame)
    ensures Copies(log + [f]) == Copies(log) + if f.body.Reply? then [Copy(f.session, f.serial, f.body.reply)] else []
  {
    assert (log + [f])[..|log|] == log;
  }

  /** A handler that says something sends frames of its own; one that finishes its call, which has a single
      pending invocation, takes its session. */
  lemma {:induction false} RunHandlerCopies(env: Env, s: State, p: Ptr, ops: seq<HandlerOp>)
    requires p in s.calls && (p in s.active || p in s.waiting) && s.calls[p].pending <= 1
    requires s.calls[p].session.Some? ==> s.calls[p].session.value in s.sessions
    ensures var t := RunHandler(env, s, p, ops);
            && t.sessions == s.sessions && Copies(t.log) == Copies(s.log) && p in t.calls
            && t.calls[p].serial == s.calls[p].serial
            && t.calls[p].session == if Finish in ops then None else s.calls[p].session
    decreases |ops|
  {
    if ops != [] {
      var s1 := HandlerStep(env, s, p, ops[0]);
      HandlerStepCopies(env, s, p, ops[0]);
      RunHandlerCopies(env, s1, p, ops[1..]);
      assert Finish in ops <==> ops[0] == Finish || Finish in ops[1..];
    }
  }

  lemma HandlerStepCopies(env: Env, s: State, p: Ptr, op: HandlerOp)
    requires p in s.calls && (p in s.active || p in s.waiting) && s.calls[p].pending <= 1
    requires s.calls[p].session.Some? ==> s.calls[p].session.value in s.sessions
    ensures var t := HandlerStep(env, s, p, op);
            && t.sessions == s.sessions && Copies(t.log) == Copies(s.log) && p in t.calls
            && t.active == s.active && t.waiting == s.waiting && t.calls[p].pending <= 1
            && t.calls[p].serial == s.calls[p].serial
            && t.calls[p].session == if op == Finish then None else s.calls[p].session
  {
    if op.Say? && s.calls[p].session.Some? {
      var f := Frame(s.calls[p].session.value, s.calls[p].serial, Said(op.json), env.accepts(|s.log|));
      CopiesAppend(s.log, f);
    }
  }

  /** An addressee is sent the reply once, unless its handler completes its call. */
  lemma DeliverOneCopies(env: Env, s: State, p: Ptr, payload: seq<byte>)
    requires Inv(s, {}) && payload != [] && Reachable(s, p)
    ensures Copies(DeliverOne(env, s, p, payload).log)
            == Copies(s.log) + if KeepsCall(env, s, [p], payload, 0) then [CopyFor(s, p, payload)] else []
  {
    var ops := env.handler(s.calls[p], payload, |s.log|);
    var s1 := if s.calls[p].handled then RunHandler(env, s, p, ops) else s;
    assert CallOk(s, p, {});
    if s.calls[p].handled { RunHandlerCopies(env, s, p, ops); }
    assert DeliverAll(env, s, [p][..0], payload) == s;
    if s1.calls[p].session.Some? {
      var f := Frame(s.calls[p].session.value, s.calls[p].serial, Reply(payload), env.accepts(|s1.log|));
      CopiesAppend(s1.log, f);
    }
    assert DeliverOne(env, s, p, payload).log == Notify(env, s, p, payload).log;
  }

  lemma {:induction false} DeliverAllAppend(env: Env, s: State, ps: seq<Ptr>, p: Ptr, payload: seq<byte>)
    ensures DeliverAll(env, s, ps + [p], payload) == DeliverOne(env, DeliverAll(env, s, ps, payload), p, payload)
    decreases |ps|
  {
    if ps == [] {
      var s1 := DeliverOne(env, s, p, payload);
      assert [] + [p] == [p] && [p][1..] == [];
      assert DeliverAll(env, s, [p], payload) == DeliverAll(env, s1, [], payload);
    } else {
      assert (ps + [p])[1..] == ps[1..] + [p];
      DeliverAllAppend(env, DeliverOne(env, s, ps[0], payload), ps[1..], p, payload);
    }
  }

  /** An addressee that has not been served yet is as it was. */
  lemma NotYetServed(env: Env, s: State, ps: seq<Ptr>, payload: seq<byte>, i: nat)
    requires Inv(s, {}) && Distinct(ps) && i < |ps| && forall p :: p in ps ==> Reachable(s, p)
    ensures var mid := DeliverAll(env, s, ps[..i], payload);
            Inv(mid, {}) && Reachable(s, ps[i]) && Reachable(mid, ps[i]) && mid.calls[ps[i]] == s.calls[ps[i]]
  {
    var pre := ps[..i];
    var mid := DeliverAll(env, s, pre, payload);
    assert ps == pre + [ps[i]] + ps[i + 1..];
    assert ps[i] in ps && forall p :: p in pre ==> p in ps;
    DistinctParts(pre, ps[i], ps[i + 1..]);
    DeliverAllKeeps(env, s, pre, payload);
    DeliverAllFate(env, s, pre, payload);
    SelectMembers(s.waiting, Spared(s, pre));
    assert ps[i] in Spared(s, pre) && ps[i] in mid.waiting && ps[i] in mid.calls;
  }

  lemma DistinctParts(pre: seq<Ptr>, p: Ptr, post: seq<Ptr>)
    requires Distinct(pre + [p] + post)
    ensures Distinct(pre) && p !in pre
  {
    forall q: Ptr ensures Count(pre, q) + (if q == p then 1 else 0) <= 1 {
      CountAppend(pre + [p], post, q);
      CountAppend(pre, [p], q);
      assert Count(pre + [p] + post, q) <= 1;
    }
    CountIn(pre, p);
  }

  /** What serving the `i`-th addressee adds. */
  lemma NextCopies(env: Env, s: State, ps: seq<Ptr>, payload: seq<byte>, i: nat)
    requires Inv(s, {}) && payload != [] && Distinct(ps) && i < |ps| && forall p :: p in ps ==> Reachable(s, p)
    ensures Reachable(s, ps[i]) && AddsCopy(env, s, ps, payload, i)
  {
    hide Inv;
    var mid := DeliverAll(env, s, ps[..i], payload);
    NotYetServed(env, s, ps, payload, i);
    assert ps[..i + 1] == ps[..i] + [ps[i]];
    DeliverAllAppend(env, s, ps[..i], ps[i], payload);
    DeliverOneCopies(env, mid, ps[i], payload);
    SameHandler(env, s, mid, ps, payload, i);
    assert CopyFor(mid, ps[i], payload) == CopyFor(s, ps[i], payload);
  }

  ghost predicate AddsCopy(env: Env, s: State, ps: seq<Ptr>, payload: seq<byte>, i: nat)
    requires i < |ps| && Reachable(s, ps[i])
  {
    Copies(DeliverAll(env, s, ps[..i + 1], payload).log)
    == Copies(DeliverAll(env, s, ps[..i], payload).log)
       + if KeepsCall(env, s, ps, payload, i) then [CopyFor(s, ps[i], payload)] else []
  }

  lemma {:induction false} DeliverPrefixCopies(env: Env, s: State, ps: seq<Ptr>, payload: seq<byte>, n: nat)
    requires n <= |ps| && forall p :: p in ps ==> Reachable(s, p)
    requires forall i :: 0 <= i < |ps| ==> Reachable(s, ps[i]) && AddsCopy(env, s, ps, payload, i)
    ensures Copies(DeliverAll(env, s, ps[..n], payload).log) == Copies(s.log) + CopiesFor(env, s, ps, payload, n)
    decreases n
  {
    if n > 0 {
      hide DeliverAll, Copies, KeepsCall, CopyFor;
      DeliverPrefixCopies(env, s, ps, payload, n - 1);
      assert AddsCopy(env, s, ps, payload, n - 1);
    }
  }

  lemma SameHandler(env: Env, s: State, mid: State, ps: seq<Ptr>, payload: seq<byte>, i: nat)
    requires i < |ps| && ps[i] in s.calls && ps[i] in mid.calls && mid.calls[ps[i]] == s.calls[ps[i]]
    requires mid == DeliverAll(env, s, ps[..i], payload)
    ensures KeepsCall(env, mid, [ps[i]], payload, 0) <==> KeepsCall(env, s, ps, payload, i)
  {
    assert DeliverAll(env, mid, [ps[i]][..0], payload) == mid;
  }

  /** Each addressee is sent the payload once, in list order, unless its handler completes its call; and
      nobody else is sent it. */
  lemma DeliverAllCopies(env: Env, s: State, ps: seq<Ptr>, payload: seq<byte>)
    requires Inv(s, {}) && payload != [] && Distinct(ps) && forall p :: p in ps ==> Reachable(s, p)
    ensures Copies(DeliverAll(env, s, ps, payload).log) == Copies(s.log) + CopiesFor(env, s, ps, payload, |ps|)
  {
    forall i | 0 <= i < |ps| ensures Reachable(s, ps[i]) && AddsCopy(env, s, ps, payload, i) {
      NextCopies(env, s, ps, payload, i);
    }
    DeliverPrefixCopies(env, s, ps, payload, |ps|);
    assert ps[..|ps|] == ps;
  }

  // ---- A reply in the worker's hand ----

  /** A broadcast (id 0) goes to the live waiting calls of its FID, in list order. */
  lemma BroadcastReaches(s: State, r: Msg, p: Ptr)
    requires Inv(s, {}) && r.id == 0
    ensures p in Addressees(s, r) <==>
            p in s.waiting && p in s.calls && s.calls[p].session.Some? && s.calls[p].fid == r.fid
    ensures Addressees(s, r) == Select(s.waiting, set q | q in Addressees(s, r))
  {
    SelectMembers(s.waiting, LiveFid(s, r.fid));
    SelectAgree(s.waiting, LiveFid(s, r.fid), set q | q in Addressees(s, r));
  }

  /** A reply to one call reaches the first live waiting call that has the id, which is the one the id was
      given to if no two of them share it, and no call if there is none. */
  lemma SingleReplyReaches(s: State, r: Msg, pre: seq<Ptr>, p: Ptr, post: seq<Ptr>)
    requires Inv(s, {}) && r.id != 0
    requires s.waiting == pre + [p] + post && p in s.calls && s.calls[p].session.Some? && s.calls[p].id == r.id
    requires forall q :: q in pre && q in s.calls && s.calls[q].session.Some? ==> s.calls[q].id != r.id
    ensures Addressees(s, r) == [p]
  {
    var rest := [p] + post;
    assert s.waiting == pre + rest && rest[1..] == post;
    SelectAppend(s.waiting[..|pre|], rest, LiveId(s, r.id));
    SelectNone(pre, LiveId(s, r.id));
    FirstIsSelected(s.waiting, LiveId(s, r.id));
  }

  lemma NobodyReached(s: State, r: Msg)
    requires r.id != 0
    requires forall q :: q in s.waiting && q in s.calls && s.calls[q].session.Some? ==> s.calls[q].id != r.id
    ensures Addressees(s, r) == []
  {
    SelectNone(s.waiting, LiveId(s, r.id));
    FirstIsSelected(s.waiting, LiveId(s, r.id));
  }

  /** Handling a reply: delivery to its addressees, after which the reply's own block is freed. */
  lemma ReplyHandled(env: Env, s: State)
    requires Inv(s, {}) && env.Fair() && s.inHand.Some?
    ensures var r := s.inHand.value;
            var ps := Addressees(s, r);
            var t := DeliverReplyInHand(env, s);
            && (r.len > 0 ==> r.data.Some? && r.data.value in s.blocks)
            && t.inHand == None && t.blocks == (if r.data.Some? then s.blocks - {r.data.value} else s.blocks)
            && Delivered(env, s, t.(inHand := s.inHand, blocks := s.blocks), ps)
            && (forall p :: p in ps ==> Reachable(s, p))
            && (r.len > 0 && s.blocks[r.data.value] != [] ==>
                  Copies(t.log) == Copies(s.log) + CopiesFor(env, s, ps, s.blocks[r.data.value], |ps|))
  {
    var r := s.inHand.value;
    var ps := Addressees(s, r);
    if r.data.Some? { InHandBlock(s); }
    var payload := if r.len > 0 then s.blocks[r.data.value] else [];
    AddresseesReady(s, r);
    forall p | p in ps ensures Reachable(s, p) { CallFacts(s, p); }
    DeliverAllFate(env, s, ps, payload);
    if payload != [] { DeliverAllCopies(env, s, ps, payload); }
    var s1 := DeliverAll(env, s, ps, payload);
    assert DeliverReplyInHand(env, s) == FreeBlock(s1, r.data).(inHand := None);
    assert DeliverReplyInHand(env, s).(inHand := s.inHand, blocks := s.blocks)
      == s1.(fault := DeliverReplyInHand(env, s).fault);
  }

  // ---- Broadcasts of the application ----

  ghost predicate Sendable(s: State, p: Ptr) {
    p in s.calls && s.calls[p].session.Some? && s.calls[p].session.value in s.sessions
  }

  ghost function FrameTo(env: Env, s: State, p: Ptr, body: Body, i: nat): Frame
    requires Sendable(s, p)
  {
    Frame(s.calls[p].session.value, s.calls[p].serial, body, env.accepts(i))
  }

  /** One frame for each target, in order: so a buffer whose counter starts at the number of targets is
      attempted that many times. */
  lemma {:induction false} EmitAllFrames(env: Env, s: State, ps: seq<Ptr>, body: Body)
    requires forall p :: p in ps ==> Sendable(s, p)
    ensures var t := EmitAll(env, s, ps, body);
            && t == s.(log := t.log) && |t.log| == |s.log| + |ps| && s.log <= t.log
            && forall i :: 0 <= i < |ps| ==>
                 Sendable(s, ps[i]) && t.log[|s.log| + i] == FrameTo(env, s, ps[i], body, |s.log| + i)
    decreases |ps|
  {
    if ps != [] {
      assert Sendable(s, ps[0]);
      var s1 := Emit(env, s, ps[0], body);
      forall p | p in ps[1..] ensures Sendable(s1, p) { assert Sendable(s, p); }
      EmitAllFrames(env, s1, ps[1..], body);
      var t := EmitAll(env, s1, ps[1..], body);
      forall i | 0 <= i < |ps| ensures Sendable(s, ps[i])
        && t.log[|s.log| + i] == FrameTo(env, s, ps[i], body, |s.log| + i) {
        if i == 0 { assert s1.log[|s.log|] == t.log[|s.log|]; } else { assert ps[1..][i - 1] == ps[i]; }
      }
    }
  }

  /** From `s` to `t` one frame is sent for each target, in order, and nothing else happens. */
  ghost predicate OneFrameEach(s: State, t: State, targets: seq<Ptr>, body: Body) {
    && t == s.(log := t.log) && |t.log| == |s.log| + |targets| && s.log <= t.log
    && forall i :: 0 <= i < |targets| ==>
         targets[i] in s.calls && s.calls[targets[i]].session == Some(t.log[|s.log| + i].session)
         && t.log[|s.log| + i].serial == s.calls[targets[i]].serial && t.log[|s.log| + i].body == body
  }

  /** A broadcast sends its frame once to each live call of the FID: the waiting ones, then the active ones. */
  lemma BroadcastFrames(env: Env, s: State, fid: nat, json: seq<byte>, p: Ptr)
    requires Inv(s, {}) && fid != 0
    ensures var targets := Select(s.waiting, LiveFid(s, fid)) + Select(s.active, LiveFid(s, fid));
            && Distinct(targets)
               && (p in targets <==> p in s.calls && s.calls[p].session.Some? && s.calls[p].fid == fid)
            && OneFrameEach(s, SendToGroup(env, s, fid, json), targets, Group(fid, json))
  {
    var targets := Select(s.waiting, LiveFid(s, fid)) + Select(s.active, LiveFid(s, fid));
    TargetsOnce(s, fid);
    forall q | q in targets ensures Sendable(s, q) { CallFacts(s, q); }
    FramesEach(env, s, targets, Group(fid, json));
  }

  lemma FramesEach(env: Env, s: State, targets: seq<Ptr>, body: Body)
    requires forall q :: q in targets ==> Sendable(s, q)
    ensures OneFrameEach(s, EmitAll(env, s, targets, body), targets, body)
  {
    var t := EmitAll(env, s, targets, body);
    EmitAllFrames(env, s, targets, body);
    forall i | 0 <= i < |targets|
      ensures targets[i] in s.calls && s.calls[targets[i]].session == Some(t.log[|s.log| + i].session)
              && t.log[|s.log| + i].serial == s.calls[targets[i]].serial && t.log[|s.log| + i].body == body
    {
      assert Sendable(s, targets[i]) && t.log[|s.log| + i] == FrameTo(env, s, targets[i], body, |s.log| + i);
    }
  }

  lemma TargetsOnce(s: State, fid: nat)
    requires ListedOnce(s)
    ensures var targets := Select(s.waiting, LiveFid(s, fid)) + Select(s.active, LiveFid(s, fid));
            && Distinct(targets)
            && forall p :: p in targets <==> p in s.calls && s.calls[p].session.Some? && s.calls[p].fid == fid
  {
    var keep := LiveFid(s, fid);
    var targets := Select(s.waiting, keep) + Select(s.active, keep);
    ListFacts(s);
    SelectMembers(s.waiting, keep);
    SelectMembers(s.active, keep);
    forall q ensures Count(targets, q) <= 1 {
      CountAppend(Select(s.waiting, keep), Select(s.active, keep), q);
      SelectCount(s.waiting, keep, q);
      SelectCount(s.active, keep, q);
      assert Count(s.active, q) + Count(s.waiting, q) <= 1;
    }
  }
}
