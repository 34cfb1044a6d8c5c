// The links of the Wi-Fi access point: a fixed pool whose nodes move between a free and an active list.

module LinkPool {
  import opened Lists

  const LINKS := 4

  type Mac = nat
  type Ip = nat

  datatype Link = Link(mac: Mac, ip: Ip)

  /** `dropped` records the links whose connections have been dropped, `kicked` the stations that were
      told to leave because there was no link for them. */
  datatype State = State(free: seq<Ptr>, active: seq<Ptr>, links: map<Ptr, Link>, dropped: seq<Ptr>, kicked: seq<Mac>)

  datatype Event = Connected(mac: Mac) | Disconnected(mac: Mac) | IpAssigned(mac: Mac, ip: Ip)

  const Initial :=
    State([0, 1, 2, 3], [], map[0 := Link(0, 0), 1 := Link(0, 0), 2 := Link(0, 0), 3 := Link(0, 0)], [], [])

  function WithMac(s: State, mac: Mac): set<Ptr> { set p | p in s.links && s.links[p].mac == mac }

  /** The active link of a station. */
  function FindLink(s: State, mac: Mac): Option<Ptr> { FirstOf(s.active, WithMac(s, mac)) }

  function Take(s: State, mac: Mac, ip: Ip): State
    requires s.free != []
  {
    var p := s.free[0];
    s.(free := s.free[1..], active := s.active + [p], links := s.links[p := Link(mac, ip)])
  }

  function Step(s: State, e: Event): State {
    match e
    case Connected(mac) => if s.free == [] || FindLink(s, mac).Some? then s.(kicked := s.kicked + [mac]) else s
    case Disconnected(mac) =>
      (match FindLink(s, mac)
       case None => s
       case Some(p) => s.(active := Without(s.active, p), free := s.free + [p], dropped := s.dropped + [p]))
    case IpAssigned(mac, ip) =>
      (match FindLink(s, mac)
       case None => if s.free == [] then s.(kicked := s.kicked + [mac]) else Take(s, mac, ip)
       case Some(p) =>
         if p in s.links && s.links[p].ip != ip
         then s.(links := s.links[p := s.links[p].(ip := ip)], dropped := s.dropped + [p])
         else s)
  }

  function Run(s: State, es: seq<Event>): State
    decreases |es|
  {
    if es == [] then s else Run(Step(s, es[0]), es[1..])
  }

  /** Every link of the pool is on one of the two lists, once, and no two active links share a MAC. */
  ghost predicate Inv(s: State) {
    && (forall p: Ptr :: Count(s.free, p) + Count(s.active, p) == if p < LINKS then 1 else 0)
    && (forall p: Ptr :: p in s.links <==> p < LINKS)
    && |s.free| + |s.active| == LINKS
    && (forall p, q ::
          p in s.active && q in s.active && p in s.links && q in s.links && s.links[p].mac == s.links[q].mac ==> p == q)
  }

  lemma FindLinkFound(s: State, mac: Mac)
    requires Inv(s)
    ensures FindLink(s, mac).Some? ==> var p := FindLink(s, mac).value;
            p in s.active && p in s.links && s.links[p].mac == mac
    ensures FindLink(s, mac).None? ==> forall p :: p in s.active ==> p in s.links && s.links[p].mac != mac
  {
    FirstIsSelected(s.active, WithMac(s, mac));
    SelectMembers(s.active, WithMac(s, mac));
    forall p | p in s.active ensures p in s.links { CountIn(s.active, p); }
    if FindLink(s, mac).None? {
      forall p | p in s.active ensures s.links[p].mac != mac { assert p !in Select(s.active, WithMac(s, mac)); }
    }
  }

  lemma {:induction false} WithoutLength(xs: seq<Ptr>, p: Ptr)
    requires p in xs
    ensures |Without(xs, p)| == |xs| - 1
  {
    if xs[0] != p { WithoutLength(xs[1..], p); }
  }

  lemma StepKeeps(s: State, e: Event)
    requires Inv(s)
    ensures Inv(Step(s, e))
  {
    match e {
      case Connected(mac) =>
      case Disconnected(mac) =>
        FindLinkFound(s, mac);
        if FindLink(s, mac).Some? { ReturnKeeps(s, FindLink(s, mac).value); }
      case IpAssigned(mac, ip) =>
        FindLinkFound(s, mac);
        if FindLink(s, mac).None? && s.free != [] { TakeKeeps(s, mac, ip); }
    }
  }

  lemma ReturnKeeps(s: State, p: Ptr)
    requires Inv(s) && p in s.active
    ensures Inv(s.(active := Without(s.active, p), free := s.free + [p], dropped := s.dropped + [p]))
  {
    var t := s.(active := Without(s.active, p), free := s.free + [p], dropped := s.dropped + [p]);
    WithoutLength(s.active, p);
    WithoutMembers(s.active, p);
    forall q: Ptr ensures Count(t.free, q) + Count(t.active, q) == if q < LINKS then 1 else 0 {
      CountAppend(s.free, [p], q);
      CountWithout(s.active, p, q);
      assert Count(s.free, q) + Count(s.active, q) == if q < LINKS then 1 else 0;
    }
  }

  lemma TakeKeeps(s: State, mac: Mac, ip: Ip)
    requires Inv(s) && s.free != [] && forall p :: p in s.active ==> p in s.links && s.links[p].mac != mac
    ensures Inv(Take(s, mac, ip))
  {
    var t := Take(s, mac, ip);
    var p := s.free[0];
    assert Count(s.free, p) + Count(s.active, p) == if p < LINKS then 1 else 0;
    CountIn(s.active, p);
    forall q: Ptr ensures Count(t.free, q) + Count(t.active, q) == if q < LINKS then 1 else 0 {
      CountAppend(s.active, [p], q);
      assert Count(s.free, q) + Count(s.active, q) == if q < LINKS then 1 else 0;
    }
  }

  lemma {:induction false} RunKeeps(s: State, es: seq<Event>)
    requires Inv(s)
    ensures Inv(Run(s, es))
    decreases |es|
  {
    if es != [] {
      StepKeeps(s, es[0]);
      RunKeeps(Step(s, es[0]), es[1..]);
    }
  }

  lemma InitialOk()
    ensures Inv(Initial)
  {
    assert Initial.free[1..] == [1, 2, 3] && [1, 2, 3][1..] == [2, 3] && [2, 3][1..] == [3] && [3][1..] == [];
    forall p: Ptr ensures Count(Initial.free, p) + Count(Initial.active, p) == if p < LINKS then 1 else 0 {
      assert Count([3], p) == if p == 3 then 1 else 0;
      assert Count([2, 3], p) == (if p == 2 then 1 else 0) + Count([3], p);
      assert Count([1, 2, 3], p) == (if p == 1 then 1 else 0) + Count([2, 3], p);
    }
  }

  /** Whatever events come: the two lists partition the pool and the active links have distinct MACs. */
  lemma PoolIsPartitioned(es: seq<Event>, p: Ptr, q: Ptr)
    ensures var s := Run(Initial, es);
            && Count(s.free, p) + Count(s.active, p) == (if p < LINKS then 1 else 0)
            && |s.free| + |s.active| == LINKS
            && (p in s.active && q in s.active ==>
                  p in s.links && q in s.links && (s.links[p].mac == s.links[q].mac ==> p == q))
  {
    InitialOk();
    RunKeeps(Initial, es);
    var s := Run(Initial, es);
    CountIn(s.active, p);
    CountIn(s.active, q);
  }

  // ---- The driver ----

  /** What the driver promises about the next event, when `stations` are connected: at most four stations,
      each connects once, and only a connected one is given an address. */
  ghost predicate Promised(stations: set<Mac>, e: Event) {
    match e
    case Connected(mac) => mac !in stations && |stations| < LINKS
    case Disconnected(mac) => true
    case IpAssigned(mac, _) => mac in stations
  }

  function Stations(stations: set<Mac>, e: Event): set<Mac> {
    match e
    case Connected(mac) => stations + {mac}
    case Disconnected(mac) => stations - {mac}
    case IpAssigned(_, _) => stations
  }

  ghost predicate AllPromised(stations: set<Mac>, es: seq<Event>)
    decreases |es|
  {
    es == [] || (Promised(stations, es[0]) && AllPromised(Stations(stations, es[0]), es[1..]))
  }

  /** Each active link belongs to a connected station. */
  ghost predicate Linked(s: State, stations: set<Mac>) {
    && |stations| <= LINKS
    && forall p :: p in s.active && p in s.links ==> s.links[p].mac in stations
  }

  /** Distinct keys in a list do not outnumber the set they come from. */
  lemma {:induction false} NotMoreLinks(links: map<Ptr, Link>, ps: seq<Ptr>, macs: set<Mac>)
    requires forall p :: p in ps ==> p in links && links[p].mac in macs
    requires Distinct(ps) && forall p, q :: p in ps && q in ps && links[p].mac == links[q].mac ==> p == q
    ensures |ps| <= |macs|
    decreases |ps|
  {
    if ps != [] {
      DistinctTail(ps);
      NotMoreLinks(links, ps[1..], macs - {links[ps[0]].mac});
    }
  }

  lemma ActiveFits(s: State, stations: set<Mac>)
    requires Inv(s) && Linked(s, stations)
    ensures |s.active| <= |stations|
    ensures forall mac :: mac in stations && FindLink(s, mac).None? ==> |s.active| < |stations|
  {
    forall p: Ptr ensures Count(s.active, p) <= 1 {
      assert Count(s.free, p) + Count(s.active, p) == if p < LINKS then 1 else 0;
    }
    forall p | p in s.active ensures p in s.links { CountIn(s.active, p); }
    NotMoreLinks(s.links, s.active, stations);
    forall mac | mac in stations && FindLink(s, mac).None? ensures |s.active| < |stations| {
      FindLinkFound(s, mac);
      NotMoreLinks(s.links, s.active, stations - {mac});
    }
  }

  lemma StepKicksNobody(s: State, stations: set<Mac>, e: Event)
    requires Inv(s) && Linked(s, stations) && Promised(stations, e)
    ensures Step(s, e).kicked == s.kicked && Linked(Step(s, e), Stations(stations, e))
  {
    ActiveFits(s, stations);
    match e {
      case Connected(mac) => FindLinkFound(s, mac);
      case Disconnected(mac) =>
        FindLinkFound(s, mac);
        if FindLink(s, mac).Some? {
          var p := FindLink(s, mac).value;
          WithoutMembers(s.active, p);
          LinkGone(s, p);
        }
      case IpAssigned(mac, ip) => FindLinkFound(s, mac);
    }
  }

  lemma LinkGone(s: State, p: Ptr)
    requires Inv(s) && p in s.active
    ensures p !in Without(s.active, p)
  {
    CountWithout(s.active, p, p);
    CountIn(s.active, p);
    CountIn(Without(s.active, p), p);
    assert Count(s.free, p) + Count(s.active, p) == if p < LINKS then 1 else 0;
  }

  /** With such a driver no station is ever turned away: neither when it connects, nor in the branch that
      must never be reached. */
  lemma {:induction false} NobodyIsKicked(s: State, stations: set<Mac>, es: seq<Event>)
    requires Inv(s) && Linked(s, stations) && AllPromised(stations, es)
    ensures Run(s, es).kicked == s.kicked
    decreases |es|
  {
    if es != [] {
      StepKeeps(s, es[0]);
      StepKicksNobody(s, stations, es[0]);
      NobodyIsKicked(Step(s, es[0]), Stations(stations, es[0]), es[1..]);
    }
  }

  lemma DropBranchUnreachable(es: seq<Event>)
    requires AllPromised({}, es)
    ensures Run(Initial, es).kicked == []
  {
    InitialOk();
    NobodyIsKicked(Initial, {}, es);
  }

  /** Without the driver's promise: an address is refused exactly to a station without a link when all four
      links are taken. */
  lemma DropsExactlyWhenFull(s: State, mac: Mac, ip: Ip)
    requires Inv(s)
    ensures Step(s, IpAssigned(mac, ip)).kicked != s.kicked
            <==> |s.active| == LINKS && forall p :: p in s.active ==> p in s.links && s.links[p].mac != mac
  {
    FindLinkFound(s, mac);
  }

  // ---- Addresses ----

  /** What an address does, in every state of the pool: a station with a link keeps it, with the new address,
      and its connections are dropped exactly if the address changed; one without takes the first free link. */
  lemma AddressTaken(s: State, mac: Mac, ip: Ip)
    requires Inv(s)
    ensures var t := Step(s, IpAssigned(mac, ip));
            && (forall p :: p in s.active && p in s.links && s.links[p].mac == mac ==>
                  t == s.(links := s.links[p := Link(mac, ip)],
                          dropped := s.dropped + if s.links[p].ip != ip then [p] else []))
            && ((forall p :: p in s.active ==> p in s.links && s.links[p].mac != mac) && s.free != [] ==>
                  t == s.(free := s.free[1..], active := s.active + [s.free[0]],
                          links := s.links[s.free[0] := Link(mac, ip)]))
  {
    FindLinkFound(s, mac);
    forall p | p in s.active && p in s.links && s.links[p].mac == mac
      ensures FindLink(s, mac) == Some(p) && s.links[p := Link(mac, s.links[p].ip)] == s.links
    {}
  }

  /** A station that comes is turned away exactly if it has a link already or no link is free; one that goes
      gives its link to the tail of the free list, and the link's connections are dropped. */
  lemma StationComesAndGoes(s: State, mac: Mac)
    requires Inv(s)
    ensures var linked := exists p :: p in s.active && p in s.links && s.links[p].mac == mac;
            Step(s, Connected(mac)) == s.(kicked := s.kicked + if s.free == [] || linked then [mac] else [])
    ensures var t := Step(s, Disconnected(mac));
            && (forall p :: p in s.active && p in s.links && s.links[p].mac == mac ==>
                  t == s.(active := Without(s.active, p), free := s.free + [p], dropped := s.dropped + [p]))
            && ((forall p :: p in s.active ==> p in s.links && s.links[p].mac != mac) ==> t == s)
  {
    FindLinkFound(s, mac);
    forall p | p in s.active && p in s.links && s.links[p].mac == mac ensures FindLink(s, mac) == Some(p) {}
    assert s.kicked + [] == s.kicked;
  }

  /** The station was last given this address, and has not disconnected since. */
  ghost predicate Holds(es: seq<Event>, mac: Mac, ip: Ip) {
    exists i :: 0 <= i < |es| && es[i] == IpAssigned(mac, ip)
      && forall j :: i < j < |es| ==> es[j] != Disconnected(mac) && !(es[j].IpAssigned? && es[j].mac == mac)
  }

  lemma HoldsOneMore(es: seq<Event>, e: Event, mac: Mac, ip: Ip)
    ensures e == IpAssigned(mac, ip) ==> Holds(es + [e], mac, ip)
    ensures Holds(es, mac, ip) && e != Disconnected(mac) && !(e.IpAssigned? && e.mac == mac) ==>
              Holds(es + [e], mac, ip)
  {
    var all := es + [e];
    assert all[|es|] == e;
    if Holds(es, mac, ip) {
      var i :| 0 <= i < |es| && es[i] == IpAssigned(mac, ip)
        && forall j :: i < j < |es| ==> es[j] != Disconnected(mac) && !(es[j].IpAssigned? && es[j].mac == mac);
      assert all[i] == IpAssigned(mac, ip);
    }
  }

  lemma {:induction false} RunAppend(s: State, es: seq<Event>, e: Event)
    ensures Run(s, es + [e]) == Step(Run(s, es), e)
    decreases |es|
  {
    if es == [] {
      assert es + [e] == [e] && [e][1..] == [];
      assert Run(s, [e]) == Run(Step(s, e), []);
    } else {
      assert (es + [e])[1..] == es[1..] + [e];
      RunAppend(Step(s, es[0]), es[1..], e);
    }
  }

  /** An active link after an event is a new one, or it was active before and its station has not disconnected. */
  lemma ActiveAfter(s: State, e: Event, p: Ptr)
    requires Inv(s) && p in Step(s, e).active && p in Step(s, e).links
    ensures var link := Step(s, e).links[p];
            || e == IpAssigned(link.mac, link.ip)
            || (p in s.active && p in s.links && s.links[p] == link && e != Disconnected(link.mac)
                && !(e.IpAssigned? && e.mac == link.mac))
  {
    match e {
      case Connected(mac) =>
      case Disconnected(mac) =>
        FindLinkFound(s, mac);
        if FindLink(s, mac).Some? {
          var q := FindLink(s, mac).value;
          LinkGone(s, q);
          WithoutMembers(s.active, q);
        }
      case IpAssigned(mac, ip) =>
        FindLinkFound(s, mac);
    }
  }

  /** In every run an active link has the address that its station was last given, and its station has not
      disconnected since. */
  lemma {:induction false} ActiveHoldsAddress(es: seq<Event>, p: Ptr)
    requires p in Run(Initial, es).active && p in Run(Initial, es).links
    ensures var link := Run(Initial, es).links[p]; Holds(es, link.mac, link.ip)
    decreases |es|
  {
    if es != [] {
      var front, e := es[..|es| - 1], es[|es| - 1];
      assert es == front + [e];
      RunAppend(Initial, front, e);
      InitialOk();
      RunKeeps(Initial, front);
      var s := Run(Initial, front);
      var link := Run(Initial, es).links[p];
      ActiveAfter(s, e, p);
      if e != IpAssigned(link.mac, link.ip) { ActiveHoldsAddress(front, p); }
      HoldsOneMore(front, e, link.mac, link.ip);
    }
  }

  /** The handlers, which move nodes between the lists and overwrite them. */
  class Pool {
    var free: seq<Ptr>
    var active: seq<Ptr>
    var links: map<Ptr, Link>
    ghost var dropped: seq<Ptr>
    ghost var kicked: seq<Mac>

    ghost function Abs(): State
      reads this
    {
      State(free, active, links, dropped, kicked)
    }

    ghost predicate Valid()
      reads this
    {
      Inv(Abs())
    }

    constructor ()
      ensures Valid() && Abs() == Initial
    {
      free, active, dropped, kicked := [], [], [], [];
      links := map[0 := Link(0, 0), 1 := Link(0, 0), 2 := Link(0, 0), 3 := Link(0, 0)];
      new;
      for i := 0 to LINKS
        invariant free == [0, 1, 2, 3][..i] && active == [] && dropped == [] && kicked == [] && links == Initial.links
      {
        free := free + [i];
      }
      InitialOk();
      assert free == [0, 1, 2, 3];
      assert Abs() == Initial;
    }

    method Find(mac: Mac) returns (found: Option<Ptr>)
      requires Valid()
      ensures found == FindLink(Abs(), mac)
    {
      found := FirstOf(active, set p | p in links && links[p].mac == mac);
    }

    method OnIpAssigned(mac: Mac, ip: Ip)
      requires Valid()
      modifies this
      ensures Valid() && Abs() == Step(old(Abs()), IpAssigned(mac, ip))
    {
      StepKeeps(Abs(), IpAssigned(mac, ip));
      FindLinkFound(Abs(), mac);
      var item := Find(mac);
      if item.None? {
        if free != [] {
          var p := free[0];
          links := links[p := Link(mac, ip)];
          free, active := free[1..], active + [p];
        } else {
          kicked := kicked + [mac];
        }
      } else if links[item.value].ip != ip {
        links := links[item.value := links[item.value].(ip := ip)];
        dropped := dropped + [item.value];
      }
    }

    method OnDisconnected(mac: Mac)
      requires Valid()
      modifies this
      ensures Valid() && Abs() == Step(old(Abs()), Disconnected(mac))
    {
      StepKeeps(Abs(), Disconnected(mac));
      var item := Find(mac);
      if item.Some? {
        dropped := dropped + [item.value];
        active := Without(active, item.value);
        free := free + [item.value];
      }
    }

    method OnConnected(mac: Mac)
      requires Valid()
      modifies this
      ensures Valid() && Abs() == Step(old(Abs()), Connected(mac))
    {
      var item := Find(mac);
      if free == [] || item.Some? { kicked := kicked + [mac]; }
    }
  }
}
