// Walking the linked lists while nodes of theirs are unlinked and freed: the pointer walks of the
// firmware visit what the functions of `WsModel` say.

module WsWalks {
  import opened Lists
  import opened Bytes
  import opened WsModel
  import opened WsInvariant
  import opened WsSteps
  import opened WsForwarding
  import opened WsReplying
  import opened WsTheorems
  import opened WsPasses
  import opened WsDelivery

  ghost function AllOnFd(s: State, fd: int): set<Ptr> { set p | p in s.calls && OnFd(s, s.calls[p], fd) }

  ghost function AllOfFid(s: State, fid: nat): set<Ptr> { set p | p in s.calls && s.calls[p].fid == fid }

  /** How far clearing the sessions of the calls `hit` has come when the nodes `done` have been visited. */
  ghost predicate Broken(s: State, done: seq<Ptr>, hit: set<Ptr>, calls: map<Ptr, Call>) {
    && calls.Keys == s.calls.Keys
    && forall p :: p in s.calls ==>
         calls[p] == if p in done && p in hit then s.calls[p].(session := None) else s.calls[p]
  }

  lemma BrokenStep(s: State, nodes: seq<Ptr>, i: nat, hit: set<Ptr>, calls: map<Ptr, Call>)
    requires i < |nodes| && nodes[i] in s.calls && Broken(s, nodes[..i], hit, calls)
    requires s.calls[nodes[i]].session.Some? ==> s.calls[nodes[i]].session.value in s.sessions
    ensures var p := nodes[i];
            && p in calls && (calls[p].session.Some? ==> calls[p].session.value in s.sessions)
            && (calls[p] == s.calls[p] || (p in hit && calls[p] == s.calls[p].(session := None)))
            && Broken(s, nodes[..i + 1], hit, if p in hit then calls[p := calls[p].(session := None)] else calls)
  {
    assert nodes[..i + 1] == nodes[..i] + [nodes[i]];
  }

  lemma BrokenAll(s: State, nodes: seq<Ptr>, hit: set<Ptr>, calls: map<Ptr, Call>)
    requires Broken(s, nodes[..|nodes|], hit, calls) && forall p :: p in s.calls ==> p in nodes
    ensures forall p :: p in s.calls ==>
              p in calls && calls[p] == if p in hit then s.calls[p].(session := None) else s.calls[p]
  {
    assert nodes[..|nodes|] == nodes;
  }

  lemma BrokenStepFd(s: State, nodes: seq<Ptr>, i: nat, fd: int, calls: map<Ptr, Call>)
    requires i < |nodes| && nodes[i] in s.calls && Broken(s, nodes[..i], AllOnFd(s, fd), calls)
    requires s.calls[nodes[i]].session.Some? ==> s.calls[nodes[i]].session.value in s.sessions
    ensures var p := nodes[i];
            && p in calls && (calls[p].session.Some? ==> calls[p].session.value in s.sessions)
            && Broken(s, nodes[..i + 1], AllOnFd(s, fd),
                      if OnFd(s, calls[p], fd) then calls[p := calls[p].(session := None)] else calls)
  {
    BrokenStep(s, nodes, i, AllOnFd(s, fd), calls);
    assert calls == calls[nodes[i] := calls[nodes[i]]];
  }

  lemma BrokenStepFid(s: State, nodes: seq<Ptr>, i: nat, fid: nat, calls: map<Ptr, Call>)
    requires i < |nodes| && nodes[i] in s.calls && Broken(s, nodes[..i], AllOfFid(s, fid), calls)
    requires s.calls[nodes[i]].session.Some? ==> s.calls[nodes[i]].session.value in s.sessions
    ensures var p := nodes[i];
            p in calls && Broken(s, nodes[..i + 1], AllOfFid(s, fid),
                                 if calls[p].fid == fid then calls[p := calls[p].(session := None)] else calls)
  {
    BrokenStep(s, nodes, i, AllOfFid(s, fid), calls);
  }

  lemma BrokenAllFd(s: State, nodes: seq<Ptr>, fd: int, calls: map<Ptr, Call>)
    requires Broken(s, nodes[..|nodes|], AllOnFd(s, fd), calls) && forall p :: p in s.calls ==> p in nodes
    ensures s.(calls := calls) == BreakFd(s, fd)
  {
    BrokenAll(s, nodes, AllOnFd(s, fd), calls);
    assert calls == BreakFd(s, fd).calls;
  }

  lemma BrokenAllFid(s: State, nodes: seq<Ptr>, fid: nat, calls: map<Ptr, Call>)
    requires Broken(s, nodes[..|nodes|], AllOfFid(s, fid), calls) && forall p :: p in s.calls ==> p in nodes
    ensures s.(calls := calls) == BreakFid(s, fid)
  {
    BrokenAll(s, nodes, AllOfFid(s, fid), calls);
    assert calls == BreakFid(s, fid).calls;
  }

  lemma AllListed(s: State)
    requires Inv(s, {})
    ensures forall p :: p in s.active + s.waiting <==> p in s.calls
    ensures forall p :: p in s.calls && s.calls[p].session.Some? ==> s.calls[p].session.value in s.sessions
  {
    ListFacts(s);
    SessionsOk(s, {});
  }

  function ListOf(s: State, onActive: bool): seq<Ptr> { if onActive then s.active else s.waiting }

  /** One visit of a walk over a list: the node after `p` is found before `p` is visited, and the visit
      leaves the stretches before and after it alone. */
  lemma ServeVisit(env: Env, s: State, onActive: bool, kept: seq<Ptr>, p: Ptr, rest: seq<Ptr>)
    requires Inv(s, {}) && ListOf(s, onActive) == kept + [p] + rest
    ensures p in s.calls && Inv(ServeOne(env, s, p), {})
    ensures NextOf(ListOf(s, onActive), p) == if rest == [] then None else Some(rest[0])
    ensures ListOf(ServeOne(env, s, p), onActive) == (if s.calls[p].session.None? then kept else kept + [p]) + rest
  {
    ListFacts(s);
    assert p in kept + [p] + rest;
    NextAfterPrefix(kept, p, rest);
    WithoutMiddle(kept, p, rest);
    ServeOneKeeps(env, s, p);
    ServeOneFate(env, s, p);
  }

  // ---- The forwarding walk ----

  function Head(xs: seq<Ptr>): Option<Ptr> { if xs == [] then None else Some(xs[0]) }

  lemma ReadClockKeeps(s: State, c: Call)
    requires Inv(s, {})
    ensures Inv(ReadClock(s, c), {})
  {
    ClockKeeps(s);
  }

  lemma SplitHead(kept: seq<Ptr>, rest: seq<Ptr>)
    requires rest != []
    ensures kept + rest == kept + [rest[0]] + rest[1..]
  {}

  lemma InListed(s: State, kept: seq<Ptr>, rest: seq<Ptr>)
    requires ListedOnce(s) && s.active == kept + rest && rest != []
    ensures rest[0] in s.calls
  {
    ListFacts(s);
    assert rest[0] in s.active;
  }

  lemma ForwardedLists(env: Env, s: State, p: Ptr)
    requires Inv(s, {}) && env.Fair() && p in s.calls && !s.calls[p].toDelete
    ensures ForwardOne(env, s, p).active == if Throttled(env, s, s.calls[p]) then s.active else Without(s.active, p)
  {
    if !Throttled(env, s, s.calls[p]) {
      var s1 := ReadClock(s, s.calls[p]);
      ClockKeeps(s);
      assert s1 == s || s1 == s.(clockReads := s.clockReads + 1);
      DispatchLists(env, s1, p);
      var t := Dispatch(env, s1, p);
      assert ForwardOne(env, s, p) == t;
    }
  }

  /** A visit that frees no other call. */
  lemma ForwardVisit(env: Env, s: State, kept: seq<Ptr>, p: Ptr, rest: seq<Ptr>)
    requires Inv(s, {}) && env.Fair() && s.active == kept + [p] + rest
    ensures p in s.calls && Inv(ForwardOne(env, s, p), {}) && NextOf(s.active, p) == Head(rest)
    ensures !s.calls[p].toDelete ==>
              ForwardOne(env, s, p).active == (if Throttled(env, s, s.calls[p]) then kept + [p] else kept) + rest
  {
    ListFacts(s);
    assert p in kept + [p] + rest;
    NextAfterPrefix(kept, p, rest);
    WithoutMiddle(kept, p, rest);
    ForwardOneKeeps(env, s, p);
    if !s.calls[p].toDelete { ForwardedLists(env, s, p); }
  }

  ghost function AsSet(ps: seq<Ptr>): set<Ptr> { set p | p in ps }

  /** The calls that survive the victims of the delete request `p`, the request included. */
  ghost function Survivors(s: State, p: Ptr): set<Ptr>
    requires p in s.calls
  {
    if s.calls[p].session.Some? then s.calls.Keys - AsSet(Doomed(s, p)) else s.calls.Keys
  }

  ghost predicate Purged(s: State, m: State, p: Ptr, loose: set<nat>)
    requires p in s.calls
  {
    && Inv(m, loose)
    && m.calls.Keys == Survivors(s, p) && p in m.calls && m.calls[p].data == s.calls[p].data
    && m.active == Select(s.active, Survivors(s, p))
  }

  /** Freeing the victims, once the request itself has lost its session. */
  lemma VictimsFreed(s: State, s2: State, p: Ptr, loose: set<nat>)
    requires ListedOnce(s) && Inv(s2, loose) && p in s.calls && s.calls[p].session.Some?
    requires s2.calls == s.calls[p := s.calls[p].(session := None)] && s2.active == s.active
    ensures Purged(s, ReleaseAll(s2, Doomed(s, p)), p, loose)
  {
    DoomedFacts(s, p);
    ReleaseAllKeeps(s2, Doomed(s, p), loose);
    ReleaseAllCalls(s2, Doomed(s, p));
    SurvivorsListed(s, s2, p);
  }

  /** The active list of the survivors, in order. */
  lemma SurvivorsListed(s: State, s2: State, p: Ptr)
    requires ListedOnce(s2) && ListedOnce(ReleaseAll(s2, Doomed(s, p))) && p in s.calls && s.calls[p].session.Some?
    requires s2.active == s.active && ReleaseAll(s2, Doomed(s, p)).calls.Keys == Survivors(s, p)
    ensures ReleaseAll(s2, Doomed(s, p)).active == Select(s.active, Survivors(s, p))
  {
    var m := ReleaseAll(s2, Doomed(s, p));
    ListFacts(s2);
    ReleaseAllActive(s2, Doomed(s, p), s.calls.Keys);
    ListFacts(m);
    SelectAll(m.active, Survivors(s, p));
  }

  /** The acknowledgement of a delete request changes nothing but the log. */
  lemma DeleteAcked(env: Env, s: State, p: Ptr)
    requires Inv(s, {}) && p in s.calls && s.calls[p].toDelete
    ensures var s1 := Emit(env, s, p, Status(DELIVERED));
            && s1 == s.(log := s1.log)
            && Inv(s1, if Sent(env, s, p) then {s.calls[p].serial} else {})
  {
    CallFacts(s, p);
    EmitKeeps(env, s, p, Status(DELIVERED), {});
    assert {} + {s.calls[p].serial} == {s.calls[p].serial};
  }

  lemma SameDoomed(s: State, s1: State, p: Ptr)
    requires p in s.calls && s1 == s.(log := s1.log)
    ensures Doomed(s1, p) == Doomed(s, p)
  {
    if s.calls[p].session.Some? && s.calls[p].session.value in s.sessions {
      var fd := s.sessions[s.calls[p].session.value].fd;
      assert SameClientId(s1, fd, s.calls[p].fid, s.calls[p].id) == SameClientId(s, fd, s.calls[p].fid, s.calls[p].id);
    }
  }

  lemma PurgeFate(env: Env, s: State, p: Ptr)
    requires Inv(s, {}) && p in s.calls && s.calls[p].toDelete
    ensures Purged(s, Purge(env, s, p), p, if Sent(env, s, p) then {s.calls[p].serial} else {})
  {
    var loose := if Sent(env, s, p) then {s.calls[p].serial} else {};
    var s1 := Emit(env, s, p, Status(DELIVERED));
    DeleteAcked(env, s, p);
    if s.calls[p].session.Some? {
      SameDoomed(s, s1, p);
      CutKeeps(s1, p, loose);
      var s2 := Cut(s1, p);
      VictimsFreed(s, s2, p, loose);
      assert Purge(env, s, p) == ReleaseAll(s2, Doomed(s, p));
    } else {
      ListFacts(s);
      SelectAll(s.active, Survivors(s, p));
      assert Purge(env, s, p) == s1;
    }
  }

  /** A visit to a delete request: its victims are gone from both stretches of the list, the node after
      it is read again before it is unlinked, and the freed rest of the snapshot is skipped. */
  lemma PurgeVisit(env: Env, s: State, kept: seq<Ptr>, p: Ptr, rest: seq<Ptr>)
    requires Inv(s, {}) && env.Fair() && s.active == kept + [p] + rest && p in s.calls && s.calls[p].toDelete
    ensures var m := Purge(env, s, p);
            var t := Release(m, p);
            var kept', rest' := Select(kept, Survivors(s, p)), Select(rest, Survivors(s, p));
            && p in m.calls && (m.calls[p].data.Some? ==> m.calls[p].data.value in m.blocks)
            && NextOf(m.active, p) == Head(rest')
            && t.active == kept' + rest' && Inv(t, {})
            && ForwardAll(env, t, rest') == ForwardAll(env, t, rest)
            && (s.calls[p].session.None? ==> rest' == rest)
  {
    var keep := Survivors(s, p);
    var m := Purge(env, s, p);
    var t := Release(m, p);
    PurgeFate(env, s, p);
    if m.calls[p].data.Some? { HeldBlock(m, p); }
    SelectAppend(kept + [p], rest, keep);
    SelectAppend(kept, [p], keep);
    assert Select([p], keep) == [p];
    ListFacts(m);
    NextAfterPrefix(Select(kept, keep), p, Select(rest, keep));
    WithoutMiddle(Select(kept, keep), p, Select(rest, keep));
    ReleaseShape(m, p);
    DeleteKeeps(env, s, p);
    assert Delete(env, s, p) == t;
    PurgeSkips(env, s, kept, p, rest, t);
  }

  lemma PurgeSkips(env: Env, s: State, kept: seq<Ptr>, p: Ptr, rest: seq<Ptr>, t: State)
    requires Inv(s, {}) && env.Fair() && s.active == kept + [p] + rest && p in s.calls
    requires Inv(t, {}) && t.calls.Keys == Survivors(s, p) - {p}
    requires t.active == Select(kept, Survivors(s, p)) + Select(rest, Survivors(s, p))
    ensures ForwardAll(env, t, Select(rest, Survivors(s, p))) == ForwardAll(env, t, rest)
    ensures s.calls[p].session.None? ==> Select(rest, Survivors(s, p)) == rest
  {
    ListFacts(s);
    SplitDistinct(kept, p, rest);
    SelectMembers(rest, Survivors(s, p));
    ForwardAllSkips(env, t, rest, Survivors(s, p));
    forall q | q in rest ensures q in s.calls { assert q in kept + [p] + rest; }
    if s.calls[p].session.None? { SelectAll(rest, Survivors(s, p)); }
  }

  // ---- Freeing the victims of a delete request ----

  lemma {:induction false} ReleaseAllAppend(s: State, ps: seq<Ptr>, qs: seq<Ptr>)
    ensures ReleaseAll(s, ps + qs) == ReleaseAll(ReleaseAll(s, ps), qs)
    decreases |ps|
  {
    if ps == [] {
      assert ps + qs == qs;
    } else {
      assert (ps + qs)[1..] == ps[1..] + qs;
      ReleaseAllAppend(Release(s, ps[0]), ps[1..], qs);
    }
  }

  /** Unlinking the first match of a list leaves its other matches, in order. */
  lemma UnlinkFirstMatch(xs: seq<Ptr>, keep: set<Ptr>)
    requires Distinct(xs) && FirstOf(xs, keep).Some?
    ensures var p := FirstOf(xs, keep).value;
            && p in xs && p in keep && |Without(xs, p)| < |xs|
            && Select(xs, keep) == [p] + Select(Without(xs, p), keep - {p})
  {
    var pre, post := SplitAtFirst(xs, keep);
    var p := FirstOf(xs, keep).value;
    assert p in pre + [p] + post;
    WithoutMiddle(pre, p, post);
    SplitDistinct(pre, p, post);
    SelectAppend(pre, post, keep - {p});
    SelectAgree(post, keep - {p}, keep);
    EmptySelect(pre, keep, keep - {p});
  }

  /** Freeing the first match of a list leaves the other matches, in order, and the other list alone. */
  lemma FreeFirstMatch(s: State, onActive: bool, fd: int, fid: nat, id: nat, loose: set<nat>)
    requires Inv(s, loose) && FirstOf(ListOf(s, onActive), SameClientId(s, fd, fid, id)).Some?
    ensures var p := FirstOf(ListOf(s, onActive), SameClientId(s, fd, fid, id)).value;
            var t := Release(s, p);
            && p in s.calls && (s.calls[p].data.Some? ==> s.calls[p].data.value in s.blocks) && Inv(t, loose)
            && Select(ListOf(s, onActive), SameClientId(s, fd, fid, id))
               == [p] + Select(ListOf(t, onActive), SameClientId(t, fd, fid, id))
            && ListOf(t, !onActive) == ListOf(s, !onActive)
            && Select(ListOf(t, !onActive), SameClientId(t, fd, fid, id))
               == Select(ListOf(s, !onActive), SameClientId(s, fd, fid, id))
            && |ListOf(t, onActive)| < |ListOf(s, onActive)|
  {
    var keep := SameClientId(s, fd, fid, id);
    var p := FirstOf(ListOf(s, onActive), keep).value;
    ListFacts(s);
    UnlinkFirstMatch(ListOf(s, onActive), keep);
    if s.calls[p].data.Some? { HeldBlock(s, p); }
    ReleaseKeeps(s, p, loose);
    FreedMatch(s, onActive, fd, fid, id, p);
  }

  lemma FreedMatch(s: State, onActive: bool, fd: int, fid: nat, id: nat, p: Ptr)
    requires ListedOnce(s) && p in s.calls && p in ListOf(s, onActive)
    ensures var t := Release(s, p);
            && ListOf(t, onActive) == Without(ListOf(s, onActive), p) && ListOf(t, !onActive) == ListOf(s, !onActive)
            && SameClientId(t, fd, fid, id) == SameClientId(s, fd, fid, id) - {p}
            && Select(ListOf(t, !onActive), SameClientId(t, fd, fid, id))
               == Select(ListOf(s, !onActive), SameClientId(s, fd, fid, id))
  {
    var keep := SameClientId(s, fd, fid, id);
    ListFacts(s);
    ReleaseShape(s, p);
    WithoutMembers(ListOf(s, !onActive), p);
    assert SameClientId(Release(s, p), fd, fid, id) == keep - {p};
    SelectAgree(ListOf(s, !onActive), keep - {p}, keep);
  }

  lemma {:induction false} EmptySelect(xs: seq<Ptr>, a: set<Ptr>, b: set<Ptr>)
    requires Select(xs, a) == [] && b <= a
    ensures Select(xs, b) == []
  {
    if xs != [] {
      assert xs[0] !in a;
      EmptySelect(xs[1..], a, b);
    }
  }

  lemma ReleaseAllFirst(s: State, t: State, p: Ptr, ps: seq<Ptr>)
    requires t == Release(s, p)
    ensures ReleaseAll(s, [p] + ps) == ReleaseAll(t, ps)
  {
    assert ([p] + ps)[1..] == ps;
  }

  /** Once the delete request has lost its session it is not among the calls that match it. */
  lemma CutDoomed(s: State, p: Ptr)
    requires p in s.calls && s.calls[p].session.Some? && s.calls[p].session.value in s.sessions
    ensures var c := s.calls[p];
            var key := SameClientId(Cut(s, p), s.sessions[c.session.value].fd, c.fid, c.id);
            Doomed(s, p) == Select(s.waiting, key) + Select(s.active, key)
  {
    var c := s.calls[p];
    var fd := s.sessions[c.session.value].fd;
    assert SameClientId(Cut(s, p), fd, c.fid, c.id) == SameClientId(s, fd, c.fid, c.id) - {p};
  }

  lemma {:induction false} SelectShorter(xs: seq<Ptr>, keep: set<Ptr>)
    ensures |Select(xs, keep)| <= |xs|
  {
    if xs != [] { SelectShorter(xs[1..], keep); }
  }

  // ---- The delivery walk ----

  /** Where the next addressee is in the list. */
  lemma NextAddressee(s: State, keep: set<Ptr>, behind: seq<Ptr>, ahead: seq<Ptr>)
      returns (skip: seq<Ptr>, post: seq<Ptr>)
    requires ListedOnce(s) && s.waiting == behind + ahead && FirstOf(ahead, keep).Some?
    ensures var p := FirstOf(ahead, keep).value;
            && ahead == skip + [p] + post && s.waiting == (behind + skip) + [p] + post && p in s.waiting
               && p in s.calls && p in keep
            && Select(ahead, keep) == [p] + Select(post, keep)
            && NextIn(s.waiting, p, keep) == FirstOf(post, keep)
            && Without(s.waiting, p) == (behind + skip) + post && p !in post
  {
    var p := FirstOf(ahead, keep).value;
    skip, post := SplitAtFirst(ahead, keep);
    var pre := behind + skip;
    assert s.waiting == pre + [p] + post;
    ListFacts(s);
    assert p in pre + [p] + post;
    SplitDistinct(pre, p, post);
    NotBefore(pre, p, post);
    NextInAfterPrefix(pre, p, post, keep);
    WithoutMiddle(pre, p, post);
  }

  lemma SameAddressees(s: State, t: State, p: Ptr, post: seq<Ptr>, fid: nat)
    requires p !in post && forall q :: q in post ==> q in s.calls && q in t.calls && t.calls[q] == s.calls[q]
    ensures FirstOf(post, LiveFid(t, fid)) == FirstOf(post, LiveFid(s, fid))
    ensures Select(post, LiveFid(t, fid)) == Select(post, LiveFid(s, fid))
  {
    SelectAgree(post, LiveFid(t, fid), LiveFid(s, fid));
    FirstIsSelected(post, LiveFid(t, fid));
    FirstIsSelected(post, LiveFid(s, fid));
  }

  /** One visit of a broadcast: the next addressee is found before the present one is handled. */
  lemma DeliverVisit(env: Env, s: State, fid: nat, behind: seq<Ptr>, ahead: seq<Ptr>, payload: seq<byte>)
      returns (skip: seq<Ptr>, post: seq<Ptr>)
    requires Inv(s, {}) && s.waiting == behind + ahead && FirstOf(ahead, LiveFid(s, fid)).Some?
    ensures var p := FirstOf(ahead, LiveFid(s, fid)).value;
            var t := DeliverOne(env, s, p, payload);
            && Ready(s, p) && ahead == skip + [p] + post
            && Select(ahead, LiveFid(s, fid)) == [p] + Select(post, LiveFid(s, fid))
            && NextIn(s.waiting, p, LiveFid(s, fid)) == FirstOf(post, LiveFid(s, fid))
            && Inv(t, {}) && t.waiting == (behind + skip) + post
            && FirstOf(post, LiveFid(t, fid)) == FirstOf(post, LiveFid(s, fid))
            && Select(post, LiveFid(t, fid)) == Select(post, LiveFid(s, fid))
  {
    var p := FirstOf(ahead, LiveFid(s, fid)).value;
    skip, post := NextAddressee(s, LiveFid(s, fid), behind, ahead);
    var t := DeliverOne(env, s, p, payload);
    assert CallOk(s, p, {});
    DeliverOneKeeps(env, s, p, payload);
    DeliverOneFate(env, s, p, payload);
    StillThere(s, t, p, (behind + skip) + [p], post);
    SameAddressees(s, t, p, post, fid);
  }

  lemma StillThere(s: State, t: State, p: Ptr, pre: seq<Ptr>, post: seq<Ptr>)
    requires ListedOnce(s) && s.waiting == pre + post && p !in post && p in s.calls
    requires s.calls.Keys - {p} <= t.calls.Keys
             && forall q :: q in t.calls && q != p ==> q in s.calls && t.calls[q] == s.calls[q]
    ensures forall q :: q in post ==> q in s.calls && q in t.calls && t.calls[q] == s.calls[q]
  {
    ListFacts(s);
    forall q | q in post ensures q in s.calls { assert q in pre + post; }
  }

  lemma NotBefore(pre: seq<Ptr>, p: Ptr, post: seq<Ptr>)
    requires Distinct(pre + [p] + post)
    ensures p !in pre
  {
    CountAppend(pre + [p], post, p);
    CountAppend(pre, [p], p);
    CountIn(pre, p);
    assert Count(pre + [p] + post, p) <= 1;
  }

  lemma DeliverAllFirst(env: Env, s: State, p: Ptr, ps: seq<Ptr>, payload: seq<byte>)
    ensures DeliverAll(env, s, [p] + ps, payload) == DeliverAll(env, DeliverOne(env, s, p, payload), ps, payload)
  {
    assert ([p] + ps)[1..] == ps;
  }

  /** The reply in hand has its data, and the calls it goes to can take it. */
  lemma ReplyOk(env: Env, s: State)
    requires Inv(s, {}) && s.inHand.Some?
    ensures var r := s.inHand.value;
            && (r.len > 0 ==> r.data.Some?) && (r.data.Some? ==> r.data.value in s.blocks)
            && (forall p :: p in Addressees(s, r) ==> Ready(s, p))
  {
    var r := s.inHand.value;
    if r.data.Some? { InHandBlock(s); }
    AddresseesReady(s, r);
  }

  lemma DeliveredBlocks(env: Env, s: State, payload: seq<byte>)
    requires Inv(s, {}) && s.inHand.Some?
    ensures DeliverAll(env, s, Addressees(s, s.inHand.value), payload).blocks == s.blocks
  {
    AddresseesReady(s, s.inHand.value);
    DeliverAllKeeps(env, s, Addressees(s, s.inHand.value), payload);
  }

  // ---- The walk of a broadcast ----

  /** One visit of a group send: sending leaves both lists and all records alone. */
  lemma GroupVisit(env: Env, s: State, onActive: bool, keep: set<Ptr>, behind: seq<Ptr>, ahead: seq<Ptr>, body: Body)
      returns (skip: seq<Ptr>, post: seq<Ptr>)
    requires Inv(s, {}) && body.Group? && ListOf(s, onActive) == behind + ahead && FirstOf(ahead, keep).Some?
    ensures var p := FirstOf(ahead, keep).value;
            && p in s.calls && (s.calls[p].session.Some? ==> s.calls[p].session.value in s.sessions)
            && Inv(Emit(env, s, p, body), {}) && ahead == skip + [p] + post
            && NextIn(ListOf(s, onActive), p, keep) == FirstOf(post, keep)
            && EmitAll(env, s, Select(ahead, keep), body)
               == EmitAll(env, Emit(env, s, p, body), Select(post, keep), body)
  {
    var p := FirstOf(ahead, keep).value;
    skip, post := SplitAtFirst(ahead, keep);
    var pre := behind + skip;
    assert ListOf(s, onActive) == pre + [p] + post;
    ListFacts(s);
    assert p in pre + [p] + post;
    NotBefore(pre, p, post);
    NextInAfterPrefix(pre, p, post, keep);
    CallFacts(s, p);
    EmitKeeps(env, s, p, body, {});
    assert ([p] + Select(post, keep))[1..] == Select(post, keep);
  }

  lemma {:induction false} EmitAllAppend(env: Env, s: State, ps: seq<Ptr>, qs: seq<Ptr>, body: Body)
    ensures EmitAll(env, s, ps + qs, body) == EmitAll(env, EmitAll(env, s, ps, body), qs, body)
    decreases |ps|
  {
    if ps == [] {
      assert ps + qs == qs;
    } else {
      assert (ps + qs)[1..] == ps[1..] + qs;
      EmitAllAppend(env, Emit(env, s, ps[0], body), ps[1..], qs, body);
    }
  }

  // ---- One iteration of the worker ----

  lemma {:induction false} RunAppend(env: Env, s: State, es: seq<Event>, e: Event)
    ensures Run(env, s, es + [e]) == Step(env, Run(env, s, es), e)
    decreases |es|
  {
    if es == [] {
      assert es + [e] == [e] && [e][1..] == [];
      assert Run(env, s, [e]) == Run(env, Step(env, s, e), []);
    } else {
      assert (es + [e])[1..] == es[1..] + [e];
      RunAppend(env, Step(env, s, es[0]), es[1..], e);
    }
  }

  lemma RunAppendTwo(env: Env, s: State, es: seq<Event>, e: Event, f: Event)
    ensures Run(env, s, es + [e, f]) == Step(env, Step(env, Run(env, s, es), e), f)
  {
    assert es + [e, f] == es + [e] + [f];
    RunAppend(env, s, es + [e], f);
    RunAppend(env, s, es, e);
  }

  /** The state in which the worker has taken the next reply off its queue. */
  function Received(s: State): State
    requires s.replies != []
  {
    s.(inHand := Some(s.replies[0]), replies := s.replies[1..])
  }

  lemma RunReply(env: Env, from: State, es: seq<Event>, s: State)
    requires Run(env, from, es) == s && s.replies != [] && s.inHand.None?
    ensures Run(env, from, es + [Receive, DeliverReply]) == DeliverReplyInHand(env, Received(s))
  {
    RunAppendTwo(env, from, es, Receive, DeliverReply);
  }

  lemma RunPasses(env: Env, s: State)
    ensures Run(env, s, [CollectGarbage, Forward])
            == ForwardAll(env, WsModel.ServePass(env, s), WsModel.ServePass(env, s).active)
  {
    RunAppendTwo(env, s, [], CollectGarbage, Forward);
    assert [] + [CollectGarbage, Forward] == [CollectGarbage, Forward];
  }
}
