// The frame buffers shared by the sends of one broadcast: a counter, the sends in flight, and the
// callbacks that free the buffer.  Many broadcasts may be in flight at once, and the addresses of
// freed buffers are used again.

module WsBroadcast {
  import opened Lists

  /** A broadcast whose sends are still being queued: `left` targets have not been attempted. */
  datatype Job = Job(buffer: Ptr, left: nat)

  /** `counters` holds the counter of each allocated buffer; `flight` holds one entry for each queued
      send whose callback has not run yet.  `fault` is set by any access to a freed buffer. */
  datatype State = State(counters: map<Ptr, nat>, flight: seq<Ptr>, job: Option<Job>, made: nat, freed: nat,
    fault: bool)

  const Initial := State(map[], [], None, 0, 0, false)

  datatype Event = Begin(targets: nat) | Attempt(accepted: bool) | TransferComplete(i: nat)

  /** One target of a buffer is done with: the last one frees it. */
  function Resolve(s: State, b: Ptr): State {
    if b !in s.counters then s.(fault := true)
    else if s.counters[b] <= 1 then s.(counters := s.counters - {b}, freed := s.freed + 1)
    else s.(counters := s.counters[b := s.counters[b] - 1])
  }

  function BeginSend(s: State, b: Ptr, targets: nat): State {
    if s.job.Some? || targets == 0 then s
    else s.(counters := s.counters[b := targets], job := Some(Job(b, targets)), made := s.made + 1)
  }

  /** The transport either queues the frame, and calls back later, or refuses it at once. */
  function AttemptSend(s: State, accepted: bool): State {
    match s.job
    case None => s
    case Some(j) =>
      if j.buffer !in s.counters then s.(fault := true)
      else
        var s1 := if accepted then s.(flight := s.flight + [j.buffer]) else Resolve(s, j.buffer);
        s1.(job := if j.left <= 1 then None else Some(Job(j.buffer, j.left - 1)))
  }

  function CompleteTransfer(s: State, i: nat): State {
    if i >= |s.flight| then s
    else Resolve(s.(flight := s.flight[..i] + s.flight[i + 1..]), s.flight[i])
  }

  function Step(malloc: set<Ptr> -> Ptr, s: State, e: Event): State {
    match e
    case Begin(targets) => BeginSend(s, malloc(s.counters.Keys), targets)
    case Attempt(accepted) => AttemptSend(s, accepted)
    case TransferComplete(i) => CompleteTransfer(s, i)
  }

  function Run(malloc: set<Ptr> -> Ptr, s: State, es: seq<Event>): State
    decreases |es|
  {
    if es == [] then s else Run(malloc, Step(malloc, s, es[0]), es[1..])
  }

  /** `malloc` returns an address that is not in use. */
  ghost predicate Fair(malloc: set<Ptr> -> Ptr) { forall used: set<Ptr> :: malloc(used) !in used }

  function Unattempted(s: State, b: Ptr): nat {
    if s.job.Some? && s.job.value.buffer == b then s.job.value.left else 0
  }

  function Outstanding(s: State, b: Ptr): nat { Count(s.flight, b) + Unattempted(s, b) }

  /** Each counter is the number of its targets not yet attempted plus those in flight, which is not
      zero while the buffer exists; nothing refers to a freed buffer. */
  ghost predicate Exact(s: State) {
    && !s.fault
    && (forall b: Ptr :: Outstanding(s, b) == if b in s.counters then s.counters[b] else 0)
    && (forall b :: b in s.counters ==> s.counters[b] > 0)
    && (s.job.Some? ==> s.job.value.left > 0)
    && s.made == s.freed + |s.counters|
  }

  /** Resolving one reference to a buffer that is counted once more than it is referred to. */
  lemma ResolveKeeps(s: State, t: State, b: Ptr)
    requires Exact(s) && b in s.counters
    requires t == s.(flight := t.flight, job := t.job)
    requires forall c: Ptr :: Outstanding(t, c) == Outstanding(s, c) - if c == b then 1 else 0
    requires t.job.Some? ==> t.job.value.left > 0
    ensures Exact(Resolve(t, b))
  {
    var u := Resolve(t, b);
    assert Outstanding(s, b) == s.counters[b];
    forall c: Ptr ensures Outstanding(u, c) == if c in u.counters then u.counters[c] else 0 {
      assert Outstanding(t, c) == Outstanding(u, c);
      assert Outstanding(s, c) == if c in s.counters then s.counters[c] else 0;
    }
    if t.counters[b] <= 1 {
      assert u.counters.Keys == t.counters.Keys - {b};
    } else {
      assert u.counters.Keys == t.counters.Keys;
    }
  }

  lemma FlightWithout(flight: seq<Ptr>, i: nat, b: Ptr)
    requires i < |flight|
    ensures Count(flight[..i] + flight[i + 1..], b) == Count(flight, b) - if flight[i] == b then 1 else 0
  {
    assert flight == flight[..i] + ([flight[i]] + flight[i + 1..]);
    CountAppend(flight[..i], [flight[i]] + flight[i + 1..], b);
    CountAppend([flight[i]], flight[i + 1..], b);
    CountAppend(flight[..i], flight[i + 1..], b);
  }

  lemma BeginKeeps(s: State, b: Ptr, targets: nat)
    requires Exact(s) && b !in s.counters
    ensures Exact(BeginSend(s, b, targets))
  {
    var t := BeginSend(s, b, targets);
    if t != s {
      assert t.counters.Keys == s.counters.Keys + {b};
      forall c: Ptr ensures Outstanding(t, c) == if c in t.counters then t.counters[c] else 0 {
        assert Outstanding(s, c) == if c in s.counters then s.counters[c] else 0;
      }
    }
  }

  lemma AttemptKeeps(s: State, accepted: bool)
    requires Exact(s)
    ensures Exact(AttemptSend(s, accepted))
  {
    if s.job.Some? {
      var b := s.job.value.buffer;
      var job := if s.job.value.left <= 1 then None else Some(Job(b, s.job.value.left - 1));
      assert Outstanding(s, b) > 0 && b in s.counters;
      if accepted {
        var t := s.(flight := s.flight + [b], job := job);
        forall c: Ptr ensures Outstanding(t, c) == if c in t.counters then t.counters[c] else 0 {
          CountAppend(s.flight, [b], c);
          assert Outstanding(s, c) == if c in s.counters then s.counters[c] else 0;
        }
        assert AttemptSend(s, accepted) == t;
      } else {
        ResolveKeeps(s, s.(job := job), b);
        assert AttemptSend(s, accepted) == Resolve(s.(job := job), b);
      }
    }
  }

  lemma CompleteKeeps(s: State, i: nat)
    requires Exact(s)
    ensures Exact(CompleteTransfer(s, i))
  {
    if i < |s.flight| {
      var b := s.flight[i];
      var t := s.(flight := s.flight[..i] + s.flight[i + 1..]);
      forall c: Ptr ensures Outstanding(t, c) == Outstanding(s, c) - if c == b then 1 else 0 {
        FlightWithout(s.flight, i, c);
      }
      CountIn(s.flight, b);
      assert Outstanding(s, b) > 0;
      ResolveKeeps(s, t, b);
    }
  }

  lemma {:induction false} RunExact(malloc: set<Ptr> -> Ptr, s: State, es: seq<Event>)
    requires Exact(s) && Fair(malloc)
    ensures Exact(Run(malloc, s, es))
    decreases |es|
  {
    if es != [] {
      match es[0] {
        case Begin(targets) => BeginKeeps(s, malloc(s.counters.Keys), targets);
        case Attempt(accepted) => AttemptKeeps(s, accepted);
        case TransferComplete(i) => CompleteKeeps(s, i);
      }
      RunExact(malloc, Step(malloc, s, es[0]), es[1..]);
    }
  }

  /** In every interleaving of broadcasts, refused sends and callbacks: no freed buffer is touched, and
      each counter is its unattempted targets plus its sends in flight. */
  lemma CounterIsExact(malloc: set<Ptr> -> Ptr, es: seq<Event>, b: Ptr)
    requires Fair(malloc)
    ensures var s := Run(malloc, Initial, es);
            && !s.fault
            && Count(s.flight, b) + Unattempted(s, b) == (if b in s.counters then s.counters[b] else 0)
            && (b in s.counters ==> s.counters[b] > 0)
  {
    RunExact(malloc, Initial, es);
    var s := Run(malloc, Initial, es);
    assert Outstanding(s, b) == if b in s.counters then s.counters[b] else 0;
  }

  /** Once every target of every broadcast has been resolved, each buffer made has been freed, once. */
  lemma NothingLeaks(malloc: set<Ptr> -> Ptr, es: seq<Event>)
    requires Fair(malloc)
    requires var s := Run(malloc, Initial, es); s.flight == [] && s.job == None
    ensures var s := Run(malloc, Initial, es); s.counters == map[] && s.freed == s.made
  {
    RunExact(malloc, Initial, es);
    var s := Run(malloc, Initial, es);
    forall b ensures b !in s.counters { assert Outstanding(s, b) == 0; }
  }

  /** A callback frees its buffer exactly when it is the last target of it to be resolved. */
  lemma LastTargetFrees(malloc: set<Ptr> -> Ptr, es: seq<Event>, i: nat)
    requires Fair(malloc)
    requires i < |Run(malloc, Initial, es).flight|
    ensures var s := Run(malloc, Initial, es);
            var t := CompleteTransfer(s, i);
            && (s.flight[i] in t.counters <==> Outstanding(s, s.flight[i]) > 1)
            && t.freed == s.freed + (if Outstanding(s, s.flight[i]) == 1 then 1 else 0)
  {
    RunExact(malloc, Initial, es);
    var s := Run(malloc, Initial, es);
    CountIn(s.flight, s.flight[i]);
    assert Outstanding(s, s.flight[i]) == if s.flight[i] in s.counters then s.counters[s.flight[i]] else 0;
  }

  /** What each event does to the buffers, from any reachable state: a broadcast begins with a counter of all its
      targets; of each target's send either the transport is told, and a callback will come, or the target is
      resolved at once; and a callback resolves its own send and no other. */
  lemma EventFates(malloc: set<Ptr> -> Ptr, s: State, targets: nat, accepted: bool, i: nat)
    requires Exact(s) && Fair(malloc)
    ensures s.job.None? && targets > 0 ==>
              var t := Step(malloc, s, Begin(targets));
              && t.job.Some? && t.job.value.left == targets && t.job.value.buffer !in s.counters
              && t.counters == s.counters[t.job.value.buffer := targets] && t.flight == s.flight && t.made == s.made + 1
    ensures s.job.Some? ==>
              var t := Step(malloc, s, Attempt(accepted));
              var b := s.job.value.buffer;
              && t.flight == (if accepted then s.flight + [b] else s.flight)
              && Unattempted(t, b) == Unattempted(s, b) - 1 && (t.job.Some? ==> t.job.value.buffer == b)
              && b in s.counters
              && (if b in t.counters then t.counters[b] else 0) == s.counters[b] - (if accepted then 0 else 1)
              && t.counters - {b} == s.counters - {b}
    ensures i < |s.flight| ==>
              var t := Step(malloc, s, TransferComplete(i));
              var b := s.flight[i];
              && t.flight == s.flight[..i] + s.flight[i + 1..] && t.job == s.job && b in s.counters
              && (if b in t.counters then t.counters[b] else 0) == s.counters[b] - 1
              && t.counters - {b} == s.counters - {b}
  {
    if s.job.Some? { assert Outstanding(s, s.job.value.buffer) > 0; }
    if i < |s.flight| {
      CountIn(s.flight, s.flight[i]);
      assert Outstanding(s, s.flight[i]) > 0;
    }
  }

  /** The buffers as the firmware changes them, one atomic section a method. */
  class Transport {
    const malloc: set<Ptr> -> Ptr
    var counters: map<Ptr, nat>
    var flight: seq<Ptr>
    var job: Option<Job>
    ghost var made: nat
    ghost var freed: nat

    ghost function Abs(): State
      reads this
    {
      State(counters, flight, job, made, freed, false)
    }

    ghost predicate Valid()
      reads this
    {
      Exact(Abs()) && Fair(malloc)
    }

    constructor (malloc: set<Ptr> -> Ptr)
      requires Fair(malloc)
      ensures Valid() && Abs() == Initial && this.malloc == malloc
    {
      this.malloc := malloc;
      counters, flight, job, made, freed := map[], [], None, 0, 0;
    }

    /** Gives up one reference to an allocated buffer. */
    method Release(b: Ptr)
      requires b in counters
      modifies this`counters, this`freed
      ensures Abs() == Resolve(old(Abs()), b)
    {
      var counter := counters[b];
      if counter > 0 { counter := counter - 1; }
      if counter == 0 {
        counters := counters - {b};
        freed := freed + 1;
      } else {
        counters := counters[b := counter];
      }
    }

    method Begin(targets: nat)
      requires Valid() && job.None?
      modifies this
      ensures Valid() && Abs() == Step(malloc, old(Abs()), Event.Begin(targets))
    {
      BeginKeeps(Abs(), malloc(counters.Keys), targets);
      if targets > 0 {
        var b := malloc(counters.Keys);
        counters := counters[b := targets];
        job := Some(Job(b, targets));
        made := made + 1;
      }
    }

    /** The next target of the broadcast in progress; the transport decides whether it is queued. */
    method Attempt(accepted: bool)
      requires Valid() && job.Some?
      modifies this
      ensures Valid() && Abs() == Step(malloc, old(Abs()), Event.Attempt(accepted))
    {
      AttemptKeeps(Abs(), accepted);
      var b, left := job.value.buffer, job.value.left;
      assert Outstanding(Abs(), b) > 0;
      if accepted { flight := flight + [b]; } else { Release(b); }
      job := if left <= 1 then None else Some(Job(b, left - 1));
    }

    method TransferComplete(i: nat)
      requires Valid() && i < |flight|
      modifies this
      ensures Valid() && Abs() == Step(malloc, old(Abs()), Event.TransferComplete(i))
    {
      CompleteKeeps(Abs(), i);
      var b := flight[i];
      CountIn(flight, b);
      assert Outstanding(Abs(), b) > 0;
      flight := flight[..i] + flight[i + 1..];
      Release(b);
    }
  }
}
