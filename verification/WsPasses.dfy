// What a whole forwarding pass does.

module WsPasses {
  import opened Lists
  import opened Bytes
  import opened WsModel
  import opened WsInvariant
  import opened WsForwarding
  import opened WsReplying
  import opened WsTheorems

  // ---- Forwarding one call ----

  /** A call that stays on the active list because its poll interval has not elapsed. */
  ghost predicate Resting(env: Env, s: State, p: Ptr) {
    p in s.calls && !s.calls[p].toDelete && Throttled(env, s, s.calls[p])
  }

  ghost predicate Forwarded(env: Env, s: State, t: State, p: Ptr) {
    && t.sessions == s.sessions && s.clockReads <= t.clockReads
    && OnlyCall(s, t, p)
    && (p in t.calls ==> p in s.calls && t.calls[p].fid == s.calls[p].fid && t.calls[p].id == s.calls[p].id
                         && t.calls[p].repliedAt == s.calls[p].repliedAt
                         && (t.calls[p].session == s.calls[p].session || t.calls[p].session.None?))
    && (p in t.active ==> Resting(env, s, p) && t.calls == s.calls && t.clockReads == s.clockReads + 1)
  }

  lemma {:induction false} ReleaseAllShape(s: State, ps: seq<Ptr>)
    requires forall p :: p in ps ==> p in s.calls
    requires Distinct(ps)
    ensures var t := ReleaseAll(s, ps);
            && t.sessions == s.sessions && t.clockReads == s.clockReads
            && (forall q :: q !in ps ==> (q in t.active <==> q in s.active) && (q in t.waiting <==> q in s.waiting))
    decreases |ps|
  {
    if ps != [] {
      ReleaseShape(s, ps[0]);
      WithoutMembers(s.active, ps[0]);
      WithoutMembers(s.waiting, ps[0]);
      DistinctTail(ps);
      ReleaseAllShape(Release(s, ps[0]), ps[1..]);
    }
  }

  /** A delete request removes itself and every call of the same client, FID and SID, and nothing else. */
  lemma DeleteFate(env: Env, s: State, p: Ptr)
    requires Inv(s, {}) && p in s.calls && s.calls[p].toDelete
    ensures var t := Delete(env, s, p);
            && t.calls == s.calls - (set q | q in Doomed(s, p)) - {p}
            && t.sessions == s.sessions && t.clockReads == s.clockReads && OnlyCall(s, t, p)
  {
    CallFacts(s, p);
    var s1 := Emit(env, s, p, Status(DELIVERED));
    DoomedFacts(s, p);
    if s.calls[p].session.Some? {
      var fd := s.sessions[s.calls[p].session.value].fd;
      assert SameClientId(s1, fd, s.calls[p].fid, s.calls[p].id) == SameClientId(s, fd, s.calls[p].fid, s.calls[p].id);
      assert Doomed(s1, p) == Doomed(s, p);
      var s2 := Cut(s1, p);
      var s3 := ReleaseAll(s2, Doomed(s, p));
      ReleaseAllCalls(s2, Doomed(s, p));
      ReleaseAllShape(s2, Doomed(s, p));
      DeleteEnd(s, s2, s3, p);
      assert Delete(env, s, p) == Release(s3, p);
    } else {
      DeleteEnd(s, s1, s1, p);
      assert Delete(env, s, p) == Release(s1, p);
    }
  }

  lemma DeleteEnd(s: State, s2: State, s3: State, p: Ptr)
    requires p in s.calls && p in s2.calls && s2.calls == s.calls[p := s2.calls[p]] && s2.sessions == s.sessions
             && s2.clockReads == s.clockReads
    requires s2.active == s.active && s2.waiting == s.waiting
    requires p !in Doomed(s, p) && s3.calls == s2.calls - (set q | q in Doomed(s, p)) && s3.sessions == s.sessions
             && s3.clockReads == s.clockReads
    requires forall q :: q !in Doomed(s, p) ==>
               (q in s3.active <==> q in s.active) && (q in s3.waiting <==> q in s.waiting)
    ensures var t := Release(s3, p);
            && t.calls == s.calls - (set q | q in Doomed(s, p)) - {p}
            && t.sessions == s.sessions && t.clockReads == s.clockReads && OnlyCall(s, t, p)
  {
    ReleaseShape(s3, p);
    WithoutMembers(s3.active, p);
    WithoutMembers(s3.waiting, p);
  }

  /** What dispatching call `p` does: it leaves the active list, or is freed. */
  ghost predicate Dispatched(s: State, t: State, p: Ptr)
    requires p in s.calls
  {
    && t.sessions == s.sessions && t.clockReads == s.clockReads && OnlyCall(s, t, p) && p !in t.active
    && (p in t.calls ==> t.calls[p].fid == s.calls[p].fid && t.calls[p].id == s.calls[p].id
                         && t.calls[p].repliedAt == s.calls[p].repliedAt
                         && (t.calls[p].session == s.calls[p].session || t.calls[p].session.None?))
  }

  lemma MovedToWaiting(s: State, s1: State, p: Ptr, t: State)
    requires ListedOnce(s) && ListedOnce(s1) && p in s.calls && Posted(s, s1, p)
    requires t == ToWaiting(s1, p).(calls := t.calls, log := t.log)
    requires p in t.calls && t.calls == s1.calls[p := t.calls[p]]
             && t.calls[p] == s1.calls[p].(isNew := t.calls[p].isNew)
    ensures Dispatched(s, t, p)
  {
    UnlinkLists(s1, p);
  }

  lemma DispatchLists(env: Env, s: State, p: Ptr)
    requires Inv(s, {}) && env.Fair() && p in s.calls
    ensures Dispatch(env, s, p).active == Without(s.active, p)
  {
    CallFacts(s, p);
    if s.calls[p].fid in s.routes {
      var s1 := Post(env, s, p, s.routes[s.calls[p].fid]);
      PostFrame(env, s, p, s.routes[s.calls[p].fid]);
      AcknowledgeFate(env, ToWaiting(s1, p), p);
    } else {
      ReleaseShape(Emit(env, s, p, Status(INVALID)), p);
    }
  }

  lemma RoutedFate(env: Env, s: State, p: Ptr)
    requires Inv(s, {}) && env.Fair() && p in s.calls && !s.calls[p].toDelete && s.calls[p].fid in s.routes
    ensures Dispatched(s, Dispatch(env, s, p), p)
  {
    var queue := s.routes[s.calls[p].fid];
    CallFacts(s, p);
    var s1 := Post(env, s, p, queue);
    PostFrame(env, s, p, queue);
    PostKeeps(env, s, p, queue, {});
    assert ListedOnce(s1);
    var s2 := ToWaiting(s1, p);
    AcknowledgeFate(env, s2, p);
    var t := Acknowledge(env, s2, p);
    MovedToWaiting(s, s1, p, t);
    assert Dispatch(env, s, p) == t;
  }

  lemma ReleasedFate(s: State, s1: State, p: Ptr)
    requires ListedOnce(s) && p in s.calls && s1 == s.(log := s1.log)
    ensures Dispatched(s, Release(s1, p), p)
  {
    ReleaseFate(s1, p);
    ReleaseShape(s1, p);
    UnlinkLists(s1, p);
  }

  lemma UnroutedFate(env: Env, s: State, p: Ptr)
    requires Inv(s, {}) && p in s.calls && s.calls[p].fid !in s.routes
    ensures Dispatched(s, Dispatch(env, s, p), p)
  {
    CallFacts(s, p);
    var s1 := Emit(env, s, p, Status(INVALID));
    var t := Release(s1, p);
    ReleasedFate(s, s1, p);
    assert Dispatch(env, s, p) == t;
  }

  lemma DispatchFate(env: Env, s: State, p: Ptr)
    requires Inv(s, {}) && env.Fair() && p in s.calls && !s.calls[p].toDelete
    ensures Dispatched(s, Dispatch(env, s, p), p)
  {
    if s.calls[p].fid in s.routes {
      RoutedFate(env, s, p);
    } else {
      UnroutedFate(env, s, p);
    }
  }

  lemma AcknowledgeFate(env: Env, s: State, p: Ptr)
    requires p in s.calls && (s.calls[p].session.Some? ==> s.calls[p].session.value in s.sessions)
    ensures var t := Acknowledge(env, s, p);
            && t == s.(calls := t.calls, log := t.log)
            && p in t.calls && t.calls == s.calls[p := t.calls[p]]
               && t.calls[p] == s.calls[p].(isNew := t.calls[p].isNew)
  {
    assert s.calls == s.calls[p := s.calls[p]];
  }

  lemma ForwardOneFate(env: Env, s: State, p: Ptr)
    requires Inv(s, {}) && env.Fair() && p in s.calls && p in s.active
    ensures Forwarded(env, s, ForwardOne(env, s, p), p)
  {
    var c := s.calls[p];
    if c.toDelete {
      ForwardOneKeeps(env, s, p);
      DeleteFate(env, s, p);
      var t := Delete(env, s, p);
      assert ForwardOne(env, s, p) == t;
      ListFacts(t);
    } else if Throttled(env, s, c) {
      assert ForwardOne(env, s, p) == s.(clockReads := s.clockReads + 1);
    } else {
      var s1 := ReadClock(s, c);
      assert s1 == s || s1 == s.(clockReads := s.clockReads + 1);
      ClockKeeps(s);
      DispatchFate(env, s1, p);
      assert ForwardOne(env, s, p) == Dispatch(env, s1, p);
    }
  }

  // ---- The whole pass ----

  /** Call `p` was found acknowledged and not yet due by a clock reading of this pass. */
  ghost predicate RestedSince(env: Env, s: State, p: Ptr, first: nat) {
    && p in s.calls && s.calls[p].longTerm && !s.calls[p].isNew && !s.calls[p].toDelete
    && exists i: nat :: first <= i < s.clockReads && Before(env.Tick(i), s.calls[p].nextPoll)
  }

  lemma {:induction false} ForwardAllRests(env: Env, s: State, ps: seq<Ptr>, first: nat)
    requires Inv(s, {}) && env.Fair() && Distinct(ps) && first <= s.clockReads
    requires forall p :: p in ps && p in s.calls ==> p in s.active
    requires forall p :: p in s.active && p !in ps ==> RestedSince(env, s, p, first)
    ensures var t := ForwardAll(env, s, ps);
            forall p :: p in t.active ==>
              p in s.active && p in s.calls && p in t.calls && t.calls[p] == s.calls[p]
              && RestedSince(env, t, p, first)
    decreases |ps|
  {
    if ps == [] {
      ListFacts(s);
    } else {
      var p := ps[0];
      var s1 := if p in s.calls then ForwardOne(env, s, p) else s;
      ListFacts(s);
      if p in s.calls {
        ForwardOneKeeps(env, s, p);
        ForwardOneFate(env, s, p);
      }
      ListFacts(s1);
      DistinctTail(ps);
      forall q | q in s1.active && q !in ps[1..] ensures RestedSince(env, s1, q, first) {
        if q == p {
          assert Before(env.Tick(s.clockReads), s1.calls[q].nextPoll);
        } else {
          assert RestedSince(env, s, q, first);
          var i: nat :| first <= i < s.clockReads && Before(env.Tick(i), s.calls[q].nextPoll);
          assert first <= i < s1.clockReads && Before(env.Tick(i), s1.calls[q].nextPoll);
        }
      }
      ForwardAllRests(env, s1, ps[1..], first);
    }
  }

  /** After a forwarding pass the active list holds only calls it held before, unchanged: acknowledged
      long-term calls whose next poll had not come when the pass looked at them. */
  lemma ForwardLeavesOnlyResting(env: Env, s: State, p: Ptr)
    requires Inv(s, {}) && env.Fair() && p in ForwardAll(env, s, s.active).active
    ensures var t := ForwardAll(env, s, s.active);
            && p in s.active && p in s.calls && p in t.calls && t.calls[p] == s.calls[p]
            && RestedSince(env, t, p, s.clockReads)
  {
    ListFacts(s);
    ForwardAllRests(env, s, s.active, s.clockReads);
  }

  // ---- Delete requests ----

  lemma {:induction false} ForwardAllAppend(env: Env, s: State, ps: seq<Ptr>, qs: seq<Ptr>)
    ensures ForwardAll(env, s, ps + qs) == ForwardAll(env, ForwardAll(env, s, ps), qs)
    decreases |ps|
  {
    if ps == [] {
      assert ps + qs == qs;
    } else {
      assert (ps + qs)[1..] == ps[1..] + qs;
      ForwardAllAppend(env, if ps[0] in s.calls then ForwardOne(env, s, ps[0]) else s, ps[1..], qs);
    }
  }

  /** Processing a delete request of a live client leaves no live call with its fd, FID and SID. */
  lemma DeletePurgesOnce(env: Env, s: State, p: Ptr)
    requires Inv(s, {}) && p in s.calls && s.calls[p].toDelete && s.calls[p].session.Some?
             && s.calls[p].session.value in s.sessions
    ensures SameClientId(Delete(env, s, p), s.sessions[s.calls[p].session.value].fd, s.calls[p].fid, s.calls[p].id)
            == {}
  {
    var fd := s.sessions[s.calls[p].session.value].fd;
    var key := SameClientId(s, fd, s.calls[p].fid, s.calls[p].id) - {p};
    var t := Delete(env, s, p);
    DeleteFate(env, s, p);
    ListFacts(s);
    SelectMembers(s.waiting, key);
    SelectMembers(s.active, key);
    forall q | q in t.calls ensures q !in SameClientId(t, fd, s.calls[p].fid, s.calls[p].id) {
      assert t.calls[q] == s.calls[q] && q !in Doomed(s, p);
    }
  }

  lemma {:induction false} ForwardAllNoNewMatch(env: Env, s: State, ps: seq<Ptr>, fd: int, fid: nat, id: nat)
    requires Inv(s, {}) && env.Fair() && Distinct(ps) && SameClientId(s, fd, fid, id) == {}
    requires forall p :: p in ps && p in s.calls ==> p in s.active
    ensures SameClientId(ForwardAll(env, s, ps), fd, fid, id) == {}
    decreases |ps|
  {
    if ps != [] {
      var p := ps[0];
      var s1 := if p in s.calls then ForwardOne(env, s, p) else s;
      ListFacts(s);
      DistinctTail(ps);
      if p in s.calls {
        ForwardOneKeeps(env, s, p);
        ForwardOneFate(env, s, p);
        forall q | q in s1.calls ensures q !in SameClientId(s1, fd, fid, id) {
          assert q !in SameClientId(s, fd, fid, id);
        }
      }
      ForwardAllNoNewMatch(env, s1, ps[1..], fd, fid, id);
    }
  }

  lemma {:induction false} ForwardAllLists(env: Env, s: State, ps: seq<Ptr>, qs: seq<Ptr>)
    requires Inv(s, {}) && env.Fair() && Distinct(ps + qs)
    requires forall p :: p in ps + qs && p in s.calls ==> p in s.active
    ensures forall q :: q in qs && q in ForwardAll(env, s, ps).calls ==> q in ForwardAll(env, s, ps).active
    ensures ForwardAll(env, s, ps).sessions == s.sessions
    decreases |ps|
  {
    if ps != [] {
      var p := ps[0];
      var s1 := if p in s.calls then ForwardOne(env, s, p) else s;
      assert (ps + qs)[1..] == ps[1..] + qs;
      DistinctTail(ps + qs);
      if p in s.calls {
        ForwardOneKeeps(env, s, p);
        ForwardOneFate(env, s, p);
      }
      ForwardAllLists(env, s1, ps[1..], qs);
    }
  }

  lemma SplitDistinct(pre: seq<Ptr>, p: Ptr, post: seq<Ptr>)
    requires Distinct(pre + [p] + post)
    ensures Distinct(post) && p !in post
  {
    forall q: Ptr ensures Count(post, q) + (if q == p then 1 else 0) <= 1 {
      CountAppend(pre + [p], post, q);
      CountAppend(pre, [p], q);
      assert Count(pre + [p] + post, q) <= 1;
    }
    CountIn(post, p);
  }

  /** The state in which the pass looks at the node `p` of the active list. */
  lemma ForwardMid(env: Env, s: State, pre: seq<Ptr>, p: Ptr, post: seq<Ptr>)
    requires Inv(s, {}) && env.Fair() && s.active == pre + [p] + post
    ensures var mid := ForwardAll(env, s, pre);
            && Inv(mid, {}) && mid.sessions == s.sessions
            && Distinct(post) && p !in post
            && (forall q :: q in [p] + post && q in mid.calls ==> q in mid.active)
            && ForwardAll(env, s, s.active) == ForwardAll(env, mid, [p] + post)
  {
    hide ForwardAll;
    assert s.active == pre + ([p] + post);
    ForwardAllAppend(env, s, pre, [p] + post);
    ListFacts(s);
    ForwardAllKeeps(env, s, pre);
    SplitDistinct(pre, p, post);
    ForwardAllLists(env, s, pre, [p] + post);
  }

  /** After the pass no live call on either list has the fd, FID and SID of a delete request that the
      pass reached while the request's client was still connected. */
  lemma DeletePurges(env: Env, s: State, pre: seq<Ptr>, p: Ptr, post: seq<Ptr>)
    requires Inv(s, {}) && env.Fair() && s.active == pre + [p] + post
    requires var mid := ForwardAll(env, s, pre);
             && p in mid.calls && mid.calls[p].toDelete
             && mid.calls[p].session.Some? && mid.calls[p].session.value in mid.sessions
    ensures var mid := ForwardAll(env, s, pre);
            var c := mid.calls[p];
            var t := ForwardAll(env, s, s.active);
            forall q :: q in t.calls && t.calls[q].session.Some? && t.calls[q].session.value in t.sessions
                        && t.calls[q].fid == c.fid && t.calls[q].id == c.id ==>
              t.sessions[t.calls[q].session.value].fd != mid.sessions[c.session.value].fd
  {
    var mid := ForwardAll(env, s, pre);
    ForwardMid(env, s, pre, p, post);
    assert p in [p] + post && ([p] + post)[1..] == post;
    DeletePurgesFrom(env, mid, p, post);
    NoMatch(ForwardAll(env, s, s.active), mid.sessions[mid.calls[p].session.value].fd, mid.calls[p].fid,
      mid.calls[p].id);
  }

  lemma NoMatch(t: State, fd: int, fid: nat, id: nat)
    requires SameClientId(t, fd, fid, id) == {}
    ensures forall q :: q in t.calls && t.calls[q].session.Some? && t.calls[q].session.value in t.sessions
                        && t.calls[q].fid == fid && t.calls[q].id == id ==>
              t.sessions[t.calls[q].session.value].fd != fd
  {
    forall q | q in t.calls && t.calls[q].session.Some? && t.calls[q].session.value in t.sessions
               && t.calls[q].fid == fid && t.calls[q].id == id
      ensures t.sessions[t.calls[q].session.value].fd != fd
    {
      assert q !in SameClientId(t, fd, fid, id);
    }
  }

  lemma DeletePurgesFrom(env: Env, s: State, p: Ptr, post: seq<Ptr>)
    requires Inv(s, {}) && env.Fair() && p in s.calls && p in s.active && s.calls[p].toDelete
    requires s.calls[p].session.Some? && s.calls[p].session.value in s.sessions
    requires Distinct(post) && p !in post && forall q :: q in post && q in s.calls ==> q in s.active
    ensures var c := s.calls[p];
            SameClientId(ForwardAll(env, ForwardOne(env, s, p), post), s.sessions[c.session.value].fd, c.fid, c.id)
              == {}
  {
    var c := s.calls[p];
    ForwardOneKeeps(env, s, p);
    ForwardOneFate(env, s, p);
    DeletePurgesOnce(env, s, p);
    ForwardAllNoNewMatch(env, ForwardOne(env, s, p), post, s.sessions[c.session.value].fd, c.fid, c.id);
  }

  // ---- Calls freed ahead of the walk ----

  /** A snapshot may name freed calls: skipping them is the same as not having them in the snapshot. */
  lemma {:induction false} ForwardAllSkips(env: Env, s: State, ps: seq<Ptr>, keep: set<Ptr>)
    requires Inv(s, {}) && env.Fair() && Distinct(ps)
    requires forall p :: p in ps && p !in keep ==> p !in s.calls
    requires forall p :: p in ps && p in s.calls ==> p in s.active
    ensures ForwardAll(env, s, ps) == ForwardAll(env, s, Select(ps, keep))
    decreases |ps|
  {
    if ps != [] {
      var p := ps[0];
      var s1 := if p in s.calls then ForwardOne(env, s, p) else s;
      DistinctTail(ps);
      if p in s.calls {
        ForwardOneKeeps(env, s, p);
        ForwardOneFate(env, s, p);
      }
      ForwardAllSkips(env, s1, ps[1..], keep);
      if p in keep { assert ([p] + Select(ps[1..], keep))[1..] == Select(ps[1..], keep); }
    }
  }

  lemma {:induction false} ReleaseAllActive(s: State, ps: seq<Ptr>, keep: set<Ptr>)
    requires Distinct(s.active)
    ensures Select(ReleaseAll(s, ps).active, keep - (set p | p in ps)) == Select(s.active, keep - (set p | p in ps))
    decreases |ps|
  {
    if ps != [] {
      var p := ps[0];
      var s1 := Release(s, p);
      if p in s.calls {
        ReleaseShape(s, p);
        forall q ensures Count(s1.active, q) <= 1 { CountWithout(s.active, p, q); }
        SelectWithout(s.active, p, keep - (set q | q in ps));
        assert keep - (set q | q in ps) - {p} == keep - (set q | q in ps);
      }
      ReleaseAllActive(s1, ps[1..], keep - {p});
      assert keep - {p} - (set q | q in ps[1..]) == keep - (set q | q in ps);
    }
  }
}
