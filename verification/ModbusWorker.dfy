// How the Modbus worker answers a request: parse, lock the receiver, ask the bus, wait, answer, unlock.

module ModbusWorker {
  import opened Lists
  import opened Bytes
  import opened ModbusReply

  /** The fields of a request after JSON parsing; absent or non-numeric ones are `None`. */
  datatype Fields = Fields(adr: Option<nat>, func: Option<nat>, ra: Option<nat>, rvc: Option<nat>, awt: Option<nat>,
    rd: Option<seq<int>>)

  datatype Order = Order(addr: nat, func: nat, regAddr: nat, count: nat, waitMs: nat, payload: seq<byte>)

  /** Registers take two bytes of the payload each, coils one. */
  predicate Wide(func: nat) { func != WRITE_COILS }

  predicate Acceptable(f: Fields) {
    && f.adr.Some? && f.adr.value <= 255 && f.func.Some? && f.func.value <= 127
    && (f.rd.Some? ==> Width(|f.rd.value|, Wide(f.func.value)) <= PAYLOAD_SIZE)
  }

  function U16(o: Option<nat>): nat { if o.Some? then o.value % 0x1_0000 else 0 }

  /** How many milliseconds a request asks to wait. */
  function WaitAsked(f: Fields): nat { if f.awt.Some? && f.awt.value > 0 then f.awt.value else 500 }

  /** The order a request stands for; its payload is given by what it says, not by how it is laid out. */
  ghost predicate StandsFor(f: Fields, o: Order)
    requires Acceptable(f)
  {
    var rd := if f.rd.Some? then f.rd.value else [];
    && o.addr == f.adr.value && o.func == f.func.value && o.regAddr == U16(f.ra) && o.count == U16(f.rvc)
    && o.waitMs == WaitAsked(f)
    && |o.payload| <= PAYLOAD_SIZE && Carries(o.payload, rd, Wide(f.func.value))
  }

  /** The `i`-th value of a payload: a coil byte, or a register with its high byte first. */
  function CarriedAt(payload: seq<byte>, i: nat, wide: bool): int
    requires if wide then 2 * i + 1 < |payload| else i < |payload|
  {
    if wide then 256 * (payload[2 * i] as int) + payload[2 * i + 1] as int else payload[i] as int
  }

  function Width(n: nat, wide: bool): nat { if wide then 2 * n else n }

  ghost predicate Carries(payload: seq<byte>, rd: seq<int>, wide: bool) {
    && |payload| == Width(|rd|, wide)
    && forall i :: 0 <= i < |rd| ==> CarriedAt(payload, i, wide) == rd[i] % if wide then 0x1_0000 else 0x100
  }

  lemma CarriesOneMore(payload: seq<byte>, rd: seq<int>, v: int, wide: bool)
    requires Carries(payload, rd, wide)
    ensures Carries(payload + (if wide then [v / 256 % 256, v % 256] else [v % 256]), rd + [v], wide)
  {
    var p := payload + if wide then [v / 256 % 256, v % 256] else [v % 256];
    WordParts(v);
    forall i | 0 <= i < |rd + [v]| ensures CarriedAt(p, i, wide) == (rd + [v])[i] % if wide then 0x1_0000 else 0x100 {
      if i < |rd| { assert CarriedAt(p, i, wide) == CarriedAt(payload, i, wide); }
    }
  }

  lemma WordParts(v: int)
    ensures 256 * (v / 256 % 256) + v % 256 == v % 0x1_0000
  {}

  method PackRegisters(rd: seq<int>, wide: bool) returns (payload: seq<byte>)
    ensures Carries(payload, rd, wide)
  {
    payload := [];
    for i := 0 to |rd|
      invariant Carries(payload, rd[..i], wide)
    {
      CarriesOneMore(payload, rd[..i], rd[i], wide);
      assert rd[..i + 1] == rd[..i] + [rd[i]];
      payload := payload + if wide then [rd[i] / 256 % 256, rd[i] % 256] else [rd[i] % 256];
    }
    assert rd[..|rd|] == rd;
  }

  /** Parses a request; the first field that is missing or out of range makes it a bad one. */
  method Parse(f: Fields) returns (o: Option<Order>)
    ensures o.Some? <==> Acceptable(f)
    ensures o.Some? ==> StandsFor(f, o.value)
  {
    if f.adr.None? || f.adr.value > 255 { return None; }
    if f.func.None? || f.func.value > 127 { return None; }
    var waitMs := if f.awt.Some? && f.awt.value > 0 then f.awt.value else DEFAULT_AWT_MS;
    var payload := [];
    if f.rd.Some? && |f.rd.value| > 0 {
      if Width(|f.rd.value|, Wide(f.func.value)) > PAYLOAD_SIZE { return None; }
      payload := PackRegisters(f.rd.value, Wide(f.func.value));
    }
    o := Some(Order(f.adr.value, f.func.value, U16(f.ra), U16(f.rvc), waitMs, payload));
  }

  // ---- Waiting ----

  /** The tick count, unwrapped, at each reading.  It never runs backwards, advances within any `k`
      readings, and never jumps by 2^31 between two of them. */
  ghost predicate Ticking(clock: nat -> nat, k: nat) {
    && k >= 1
    && (forall i: nat :: clock(i) <= clock(i + 1) < clock(i) + 0x8000_0000)
    && (forall i: nat :: clock(i) < clock(i + k))
  }

  lemma {:induction false} ClockAdvances(clock: nat -> nat, k: nat, from: nat, n: nat)
    requires Ticking(clock, k)
    ensures clock(from) + n <= clock(from + k * n)
    decreases n
  {
    if n > 0 {
      ClockAdvances(clock, k, from, n - 1);
      assert from + k * n == from + k * (n - 1) + k;
      assert clock(from + k * (n - 1)) < clock(from + k * (n - 1) + k);
    }
  }

  lemma {:induction false} ClockGrows(clock: nat -> nat, k: nat, i: nat, j: nat)
    requires Ticking(clock, k) && i <= j
    ensures clock(i) <= clock(j)
    decreases j - i
  {
    if i < j { ClockGrows(clock, k, i, j - 1); }
  }

  /** What `(int32_t)(now - deadline) < 0` asks, while the deadline is less than 2^31 ticks past: that the
      deadline is still to come, and no more than 2^31 ticks away. */
  lemma DeadlineTest(now: nat, start: nat, ticks: nat)
    requires ticks < TWO32 && start <= now < start + ticks + 0x8000_0000
    ensures Before(Wrap(now), Wrap(start + ticks)) <==> now < start + ticks <= now + 0x8000_0000
  {
    assert Wrap(Wrap(now) - Wrap(start + ticks)) == Wrap(now - (start + ticks));
    if now < start + ticks {
      assert Wrap(now - (start + ticks)) == now - (start + ticks) + TWO32;
    }
  }

  lemma PollBound(clock: nat -> nat, k: nat, start: nat, i: nat, ticks: nat)
    requires Ticking(clock, k) && clock(start + 1 + i) < clock(start) + ticks
    ensures i < k * ticks
  {
    if i >= k * ticks {
      ClockAdvances(clock, k, start, ticks);
      ClockGrows(clock, k, start + k * ticks, start + 1 + i);
    }
  }

  /** The n-th poll of the bus completes the request. */
  ghost predicate CompletedBy(completes: nat -> bool, polls: nat) { exists i: nat :: i < polls && completes(i) }

  /** The look at the clock after `polls` polls finds the time passed; or the wait is so long, above 2^31
      ticks, that the wrapped comparison takes it for passed. */
  predicate TimeIsUp(clock: nat -> nat, start: nat, polls: nat, ticks: nat) {
    clock(start + 1 + polls) >= clock(start) + ticks || clock(start + 1 + polls) + 0x8000_0000 < clock(start) + ticks
  }

  lemma ShortWaitsInFull(clock: nat -> nat, k: nat, start: nat, polls: nat, ticks: nat)
    requires Ticking(clock, k) && ticks <= 0x8000_0000 && TimeIsUp(clock, start, polls, ticks)
    ensures clock(start + 1 + polls) >= clock(start) + ticks
  {
    ClockGrows(clock, k, start, start + 1 + polls);
  }

  /** Polls the bus until the request completes or the time is up; reading `start` set the deadline. */
  method Wait(clock: nat -> nat, start: nat, ticks: nat, completes: nat -> bool, ghost k: nat)
      returns (done: bool, polls: nat)
    requires Ticking(clock, k) && ticks < TWO32
    ensures done <==> CompletedBy(completes, polls)
    ensures !done ==> TimeIsUp(clock, start, polls, ticks)
    ensures polls <= k * ticks
  {
    done, polls := false, 0;
    var deadline := Wrap(clock(start) + ticks);
    while true
      invariant done <==> CompletedBy(completes, polls)
      invariant polls <= k * ticks
      invariant clock(start) <= clock(start + polls)
      invariant polls > 0 ==> clock(start + polls) < clock(start) + ticks
      decreases k * ticks - polls, if done then 0 else 1
    {
      if done { break; }
      assert clock(start + polls) <= clock(start + polls + 1) < clock(start + polls) + 0x8000_0000;
      assert start + polls + 1 == start + 1 + polls;
      DeadlineTest(clock(start + 1 + polls), clock(start), ticks);
      if !Before(Wrap(clock(start + 1 + polls)), deadline) { break; }
      PollBound(clock, k, start, polls, ticks);
      done := completes(polls);
      assert done ==> CompletedBy(completes, polls + 1);
      polls := polls + 1;
    }
  }

  // ---- One request, one reply ----

  /** What is sent to the server's queue. */
  datatype Reply = Failed(id: nat, fid: nat, code: nat) | Data(id: nat, fid: nat, text: seq<char>)

  /** How the bus library behaves: whether it takes the order, at which poll it completes it, and with what. */
  datatype Bus = Bus(takes: bool, completes: nat -> bool, frame: Frame)

  /** A message's payload: nothing, text that is not JSON, or a request. */
  datatype Payload = Empty | Unreadable | Request(fields: Fields)

  /** What the worker does, in the order it does it. */
  datatype Act = Lock | Ask(order: Order) | Cancel | Unlock | Send(reply: Reply)

  /** One order from the lock to the reply: the receiver is locked before the bus is asked, and unlocked when
      the order has ended, one way or another, and before the reply is sent. */
  function Acts(o: Order, taken: bool, reply: Reply): seq<Act> {
    if taken && reply.Failed? then [Lock, Ask(o), Cancel, Unlock, Send(reply)] else [Lock, Ask(o), Unlock, Send(reply)]
  }

  class Worker {
    var rxLocked: bool
    var replies: seq<Reply>
    ghost var acts: seq<Act>

    constructor ()
      ensures !rxLocked && replies == [] && acts == []
    {
      rxLocked, replies, acts := false, [], [];
    }

    method LockRx()
      modifies this`rxLocked, this`acts
      ensures rxLocked && acts == old(acts) + [Lock]
    {
      rxLocked := true;
      acts := acts + [Lock];
    }

    method UnlockRx()
      modifies this`rxLocked, this`acts
      ensures !rxLocked && acts == old(acts) + [Unlock]
    {
      rxLocked := false;
      acts := acts + [Unlock];
    }

    method Answer(r: Reply)
      modifies this`replies, this`acts
      ensures replies == old(replies) + [r] && acts == old(acts) + [Send(r)]
    {
      replies := replies + [r];
      acts := acts + [Send(r)];
    }

    /** An order that has been parsed: the receiver is locked while the bus works on it. */
    method Execute(id: nat, fid: nat, o: Order, bus: Bus, clock: nat -> nat, start: nat, ticks: nat, ghost k: nat)
        returns (ghost polls: nat)
      requires !rxLocked && Proper(bus.frame) && Ticking(clock, k) && ticks < TWO32
      modifies this
      ensures !rxLocked && polls <= k * ticks
      ensures var r := if !bus.takes then Failed(id, fid, NOT_SENT)
                       else if CompletedBy(bus.completes, polls) then Data(id, fid, Text(bus.frame))
                       else Failed(id, fid, TIMED_OUT);
              replies == old(replies) + [r] && acts == old(acts) + Acts(o, bus.takes, r)
      ensures bus.takes && !CompletedBy(bus.completes, polls) ==> TimeIsUp(clock, start, polls, ticks)
    {
      LockRx();
      acts := acts + [Ask(o)];
      polls := 0;
      if !bus.takes {
        UnlockRx();
        Answer(Failed(id, fid, NOT_SENT));
        return;
      }
      var done, n := Wait(clock, start, ticks, bus.completes, k);
      polls := n;
      if !done {
        acts := acts + [Cancel];
        UnlockRx();
        Answer(Failed(id, fid, TIMED_OUT));
        return;
      }
      UnlockRx();
      var text := Format(bus.frame);
      Answer(Data(id, fid, text));
    }

    /** Every message gets one reply with its own id, and the receiver is unlocked again whatever happens.  A
        request that the bus takes is waited for half a second longer than it asked for. */
    method HandleMessage(id: nat, fid: nat, payload: Payload, bus: Bus, clock: nat -> nat, start: nat,
        toTicks: nat -> nat, ghost k: nat)
        returns (ghost polls: nat)
      requires !rxLocked && Proper(bus.frame) && Ticking(clock, k)
      requires forall ms: nat :: toTicks(ms) < TWO32
      modifies this
      ensures !rxLocked
      ensures |replies| == |old(replies)| + 1 && old(replies) <= replies
      ensures var r := replies[|old(replies)|];
              var good := payload.Request? && Acceptable(payload.fields);
              && r == (if !good then Failed(id, fid, BAD_REQUEST)
                       else if !bus.takes then Failed(id, fid, NOT_SENT)
                       else if CompletedBy(bus.completes, polls) then Data(id, fid, Text(bus.frame))
                       else Failed(id, fid, TIMED_OUT))
              && (r == Failed(id, fid, TIMED_OUT) ==>
                    TimeIsUp(clock, start, polls, toTicks(Wrap(WaitAsked(payload.fields) + 500))))
              && (!good ==> acts == old(acts) + [Send(r)])
              && (good ==>
                    && |acts| > |old(acts)| + 1 && acts[|old(acts)| + 1].Ask?
                    && var o := acts[|old(acts)| + 1].order;
                    StandsFor(payload.fields, o) && acts == old(acts) + Acts(o, bus.takes, r))
    {
      polls := 0;
      if !payload.Request? {
        Answer(Failed(id, fid, BAD_REQUEST));
        return;
      }
      var order := Parse(payload.fields);
      if order.None? {
        Answer(Failed(id, fid, BAD_REQUEST));
        return;
      }
      var ms := Wrap(order.value.waitMs + 500);
      polls := Execute(id, fid, order.value, bus, clock, start, toTicks(ms), k);
    }
  }
}
