// What every packet and every tick keeps: the shape of an open transfer, a timer to end it, and the
// isolation of its peer from everybody else.

module TftpRuns {
  import opened Lists
  import opened Bytes
  import opened TftpModel

  /** The `k`-th block of a file, counting from one. */
  function BlockOf(content: seq<byte>, k: nat): seq<byte>
    requires k >= 1
  {
    Chunk(content, BLOCK * (k - 1))
  }

  /** The number of the block that a reading transfer has sent last. */
  function Number(h: Handle): nat { (h.pos + BLOCK - 1) / BLOCK }

  /** A reading transfer holds its last block, which is the file's block of its number. */
  ghost predicate ReadingOk(s: State)
    requires s.handle.Some? && s.handle.value.name in s.files
  {
    var h := s.handle.value;
    var k := Number(h);
    && k >= 1 && s.blknum == k % 0x1_0000
    && s.last == Some(Block(s.blknum, BlockOf(s.files[h.name], k)))
    && BlockOf(s.files[h.name], k) != []
    && h.pos == BLOCK * (k - 1) + |BlockOf(s.files[h.name], k)|
  }

  ghost predicate OpenOk(s: State)
    requires s.handle.Some?
  {
    && s.pending >= 1 && s.peer.addr > 0 && s.handle.value.name in s.files
    && (s.modeWrite ==> s.last.None?)
    && (!s.modeWrite ==> ReadingOk(s))
  }

  ghost predicate Inv(s: State) {
    && s.retries <= MAX_RETRIES
    && (s.handle.None? ==> s.last.None? && s.peer == Nobody)
    && (s.handle.Some? ==> OpenOk(s))
  }

  lemma ChunkLength(content: seq<byte>, pos: nat)
    ensures |Chunk(content, pos)| <= BLOCK
    ensures |Chunk(content, pos)| == BLOCK ==> pos + BLOCK <= |content|
    ensures |Chunk(content, pos)| < BLOCK && pos <= |content| ==> pos + |Chunk(content, pos)| == |content|
  {}

  /** Sending the block after `k` whole ones leaves the transfer in order, or ends it. */
  lemma SendDataKeeps(s: State, to: Endpoint, k: nat)
    requires s.handle.Some? && s.pending >= 1 && s.peer.addr > 0 && s.handle.value.name in s.files && !s.modeWrite
    requires s.handle.value.pos == BLOCK * k && s.blknum == (k + 1) % 0x1_0000 && s.retries <= MAX_RETRIES
    ensures Inv(SendData(s, to))
  {
    var t := SendData(s, to);
    var chunk := BlockOf(s.files[s.handle.value.name], k + 1);
    ChunkLength(s.files[s.handle.value.name], BLOCK * k);
    if chunk != [] {
      assert Number(t.handle.value) == k + 1;
    }
  }

  /** A block that is not short ends on a block boundary. */
  lemma WholeBlock(s: State)
    requires s.handle.Some? && OpenOk(s) && !s.modeWrite && |s.last.value.bytes| == BLOCK
    ensures s.handle.value.pos == BLOCK * Number(s.handle.value)
    ensures (s.blknum + 1) % 0x1_0000 == (Number(s.handle.value) + 1) % 0x1_0000
  {}

  lemma OnRequestKeeps(env: Env, s: State, from: Host, write: bool, body: seq<byte>)
    requires Inv(s)
    ensures Inv(OnRequest(env, s, from, write, body))
  {
    if s.handle.None? && ParseRequest(body).Some? && !write {
      var name := ParseRequest(body).value;
      if name in s.files {
        var s1 := s.(pending := s.pending + 1, blknum := 1);
        SendDataKeeps(s1.(handle := Some(Handle(name, 0)), peer := from, modeWrite := false), from, 0);
      }
    }
  }

  lemma OnDataKeeps(env: Env, s: State, from: Host, block: u16, chain: seq<seq<byte>>)
    requires Inv(s)
    ensures Inv(OnData(env, s, from, block, chain))
  {}

  lemma OnAckKeeps(s: State, from: Host, block: u16)
    requires Inv(s)
    ensures Inv(OnAck(s, from, block))
  {
    if s.handle.Some? && !s.modeWrite && block == s.blknum && |s.last.value.bytes| == BLOCK {
      WholeBlock(s);
      SendDataKeeps(s.(blknum := (s.blknum + 1) % 0x1_0000), from, Number(s.handle.value));
    }
  }

  lemma StepKeeps(env: Env, s: State, e: Event)
    requires Inv(s)
    ensures Inv(Step(env, s, e))
  {
    if e.Receive? && !Foreign(s, e.from) {
      var s1 := s.(lastPkt := s.timer, retries := 0);
      match e.packet {
        case Request(write, body) => OnRequestKeeps(env, s1, e.from, write, body);
        case Data(block, chain) => OnDataKeeps(env, s1, e.from, block, chain);
        case Ack(block) => OnAckKeeps(s1, e.from, block);
        case Error =>
        case Unknown =>
      }
    }
  }

  lemma {:induction false} RunKeeps(env: Env, s: State, es: seq<Event>)
    requires Inv(s)
    ensures Inv(Run(env, s, es))
    decreases |es|
  {
    if es != [] {
      StepKeeps(env, s, es[0]);
      RunKeeps(env, Step(env, s, es[0]), es[1..]);
    }
  }

  /** In every run an open transfer has a timer running, so it cannot stay open for ever by itself. */
  lemma OpenHasTimer(env: Env, files: map<seq<byte>, seq<byte>>, es: seq<Event>)
    ensures var s := Run(env, Initial(files), es);
            && (s.handle.Some? ==> s.pending >= 1)
            && (s.handle.None? ==> s.last.None? && s.peer == Nobody)
  {
    RunKeeps(env, Initial(files), es);
  }

  // ---- Isolation ----

  /** What the transfer of `peer` hears: its endpoint, and every port of its address if its port is zero. */
  predicate Covers(peer: Endpoint, from: Endpoint) {
    from.addr == peer.addr && (peer.port == 0 || from.port == peer.port)
  }

  ghost predicate Uncovered(es: seq<Event>, peer: Endpoint) {
    forall i :: 0 <= i < |es| ==> es[i].Receive? && !Covers(peer, es[i].from)
  }

  /** Whatever is sent from where the transfer does not listen, it does not notice; each such packet is told off. */
  lemma {:induction false} PeerIsIsolated(env: Env, s: State, es: seq<Event>)
    requires Inv(s) && s.handle.Some? && Uncovered(es, s.peer)
    ensures var t := Run(env, s, es);
            && t == s.(sent := t.sent) && |t.sent| == |s.sent| + |es| && s.sent <= t.sent
            && forall i :: 0 <= i < |es| ==> t.sent[|s.sent| + i] == Sent(es[i].from, ErrorOut(ACCESS_VIOLATION))
    decreases |es|
  {
    if es != [] {
      var s1 := Step(env, s, es[0]);
      assert es[0].Receive? && Foreign(s, es[0].from);
      assert s1 == s.(sent := s.sent + [Sent(es[0].from, ErrorOut(ACCESS_VIOLATION))]);
      assert Uncovered(es[1..], s1.peer) by {
        forall i | 0 <= i < |es[1..]| ensures es[1..][i].Receive? && !Covers(s.peer, es[1..][i].from) {
          assert es[1..][i] == es[i + 1];
        }
      }
      PeerIsIsolated(env, s1, es[1..]);
      var t := Run(env, s, es);
      forall i | 0 <= i < |es| ensures t.sent[|s.sent| + i] == Sent(es[i].from, ErrorOut(ACCESS_VIOLATION)) {
        if i == 0 { assert s1.sent[|s.sent|] == t.sent[|s.sent|]; } else { assert es[1..][i - 1] == es[i]; }
      }
    }
  }

  ghost predicate FromOthers(es: seq<Event>, peer: Endpoint) {
    forall i :: 0 <= i < |es| ==> es[i].Receive? && es[i].from != peer
  }

  /** The transfer in progress is isolated from all other endpoints, whatever they send, exactly if it was
      not requested from port zero. */
  lemma IsolatedExactly(env: Env, s: State)
    requires Inv(s) && s.handle.Some?
    ensures (forall es :: FromOthers(es, s.peer) ==> Run(env, s, es) == s.(sent := Run(env, s, es).sent))
            <==> s.peer.port != 0
  {
    if s.peer.port != 0 {
      forall es | FromOthers(es, s.peer) ensures Run(env, s, es) == s.(sent := Run(env, s, es).sent) {
        PeerIsIsolated(env, s, es);
      }
    } else {
      var es := [Receive(Endpoint(s.peer.addr, 1), Error)];
      assert FromOthers(es, s.peer) && es[1..] == [];
      assert Run(env, s, es) == Step(env, s, es[0]);
      assert Run(env, s, es).handle.None?;
    }
  }

  /** A transfer requested from port zero is ended by an error packet from any port of the same address. */
  lemma PortZeroIsEndedByOthers(env: Env, files: map<seq<byte>, seq<byte>>, addr: nat, port: nat, write: bool,
      body: seq<byte>)
    requires addr > 0 && Opens(env, Initial(files), write, body)
    ensures var request := Receive(Endpoint(addr, 0), Request(write, body));
            var error := Receive(Endpoint(addr, port), Error);
            && Run(env, Initial(files), [request]).handle.Some?
            && Run(env, Initial(files), [request, error]).handle.None?
  {
    var request, error := Receive(Endpoint(addr, 0), Request(write, body)), Receive(Endpoint(addr, port), Error);
    var s := Step(env, Initial(files), request);
    EachRequestStartsTimer(env, Initial(files), Endpoint(addr, 0), write, body);
    assert [request, error][1..] == [error] && [error][1..] == [] && [request][1..] == [];
    assert Run(env, Initial(files), [request]) == s;
    assert Run(env, Initial(files), [request, error]) == Run(env, s, [error]) == Step(env, s, error);
  }

  // ---- Acknowledgements ----

  /** No data packet is sent from `s` to `t`. */
  ghost predicate NoData(s: State, t: State) {
    s.sent <= t.sent && forall i :: |s.sent| <= i < |t.sent| ==> !t.sent[i].out.DataOut?
  }

  /** The block after the one a reading transfer has sent last. */
  function NextBlock(s: State): seq<byte>
    requires s.handle.Some? && s.handle.value.name in s.files
  {
    BlockOf(s.files[s.handle.value.name], Number(s.handle.value) + 1)
  }

  /** An acknowledgement makes the server send data exactly when it comes from the peer and is for the last block,
      that block is not short, and the file goes on; the data is then the next block. */
  lemma AckSendsNextBlock(env: Env, s: State, from: Host, block: u16)
    requires Inv(s)
    ensures var t := OnReceive(env, s, from, Ack(block));
            && s.sent <= t.sent && |t.sent| <= |s.sent| + 1
            && (!NoData(s, t) <==> s.handle.Some? && !s.modeWrite && Covers(s.peer, from) && block == s.blknum
                                   && |s.last.value.bytes| == BLOCK && NextBlock(s) != [])
            && (!NoData(s, t) ==>
                  t == s.(handle := t.handle, last := t.last, blknum := t.blknum, lastPkt := s.timer, retries := 0,
                    sent := t.sent)
                  && t.sent == s.sent + [Sent(from, DataOut((block + 1) % 0x1_0000, NextBlock(s)))])
  {
    var t := OnReceive(env, s, from, Ack(block));
    if s.handle.Some? && !s.modeWrite && Covers(s.peer, from) && block == s.blknum && |s.last.value.bytes| == BLOCK {
      WholeBlock(s);
      var chunk := BlockOf(s.files[s.handle.value.name], Number(s.handle.value) + 1);
      if chunk != [] {
        assert t.sent[|s.sent|] == Sent(from, DataOut((block + 1) % 0x1_0000, chunk));
      }
    }
  }

  /** Repeating an acknowledgement never repeats data. */
  lemma DuplicateAckSendsNoData(env: Env, s: State, from: Host, block: u16)
    requires Inv(s)
    ensures var t := OnReceive(env, s, from, Ack(block));
            NoData(t, OnReceive(env, t, from, Ack(block)))
  {
    var e := Receive(from, Ack(block));
    StepKeeps(env, s, e);
    AckSendsNextBlock(env, s, from, block);
    AckSendsNextBlock(env, Step(env, s, e), from, block);
  }

  // ---- The timer ----

  function AfterTicks(s: State, n: nat): State
    decreases n
  {
    if n == 0 then s else AfterTicks(OnTick(s), n - 1)
  }

  /** The ticks before the server stops waiting quietly. */
  function QuietTicks(s: State): nat {
    if s.timer - s.lastPkt < TIMEOUT_TICKS then TIMEOUT_TICKS - (s.timer - s.lastPkt) else 0
  }

  function ResendsLeft(s: State): nat {
    if s.last.Some? && s.retries <= MAX_RETRIES then MAX_RETRIES - s.retries else 0
  }

  function Copies(x: Sent, n: nat): seq<Sent> { seq(n, _ => x) }

  lemma {:induction false} ClosedStaysClosed(s: State, n: nat)
    requires s.handle.None?
    ensures AfterTicks(s, n).handle.None? && AfterTicks(s, n).sent == s.sent
    decreases n
  {
    if n > 0 { ClosedStaysClosed(OnTick(s), n - 1); }
  }

  lemma TickFate(s: State)
    requires Inv(s) && s.handle.Some?
    ensures var t := OnTick(s);
            && t.peer == (if t.handle.Some? then s.peer else Nobody) && (t.handle.Some? ==> t.last == s.last)
            && (QuietTicks(s) > 0 ==>
                  t.handle.Some? && t.sent == s.sent && QuietTicks(t) == QuietTicks(s) - 1
                  && ResendsLeft(t) == ResendsLeft(s))
            && (QuietTicks(s) == 0 && ResendsLeft(s) > 0 ==>
                  t.handle.Some? && QuietTicks(t) == 0 && ResendsLeft(t) == ResendsLeft(s) - 1
                  && t.sent == s.sent + [Sent(s.peer, DataOut(s.last.value.block, s.last.value.bytes))])
            && (QuietTicks(s) == 0 && ResendsLeft(s) == 0 ==> t.handle.None? && t.sent == s.sent)
  {}

  /** A silent peer: the transfer waits, sends its last block once a tick while it has resends left, and
      closes on the tick after that. */
  lemma {:induction false} SilentPeer(env: Env, s: State, n: nat)
    requires Inv(s) && s.handle.Some?
    ensures var t := AfterTicks(s, n);
            && (t.handle.Some? <==> n < QuietTicks(s) + ResendsLeft(s) + 1)
            && (s.last.None? ==> t.sent == s.sent)
            && (s.last.Some? ==>
               t.sent == s.sent
                 + Copies(Sent(s.peer, DataOut(s.last.value.block, s.last.value.bytes)),
                   Least(ResendsLeft(s), Clamp(n - QuietTicks(s)))))
    decreases n
  {
    if n > 0 {
      var s1 := OnTick(s);
      TickFate(s);
      StepKeeps(env, s, Tick);
      assert AfterTicks(s, n) == AfterTicks(s1, n - 1);
      if s1.handle.None? {
        ClosedStaysClosed(s1, n - 1);
      } else {
        SilentPeer(env, s1, n - 1);
        if s.last.Some? && QuietTicks(s) == 0 { OneMoreCopy(s, s1, n); }
      }
    }
  }

  lemma OneMoreCopy(s: State, s1: State, n: nat)
    requires n > 0 && s.last.Some? && ResendsLeft(s) > 0 && ResendsLeft(s1) == ResendsLeft(s) - 1
    ensures var x := Sent(s.peer, DataOut(s.last.value.block, s.last.value.bytes));
            [x] + Copies(x, Least(ResendsLeft(s1), n - 1)) == Copies(x, Least(ResendsLeft(s), n))
  {}

  /** After a packet from its peer a reading transfer survives 15 ticks of silence, in the last five of
      which it repeats its last block, and closes on the sixteenth; a writing transfer closes on the
      eleventh and repeats nothing. */
  lemma SilentPeerCloses(env: Env, s: State, n: nat)
    requires Inv(s) && s.handle.Some? && s.lastPkt == s.timer && s.retries == 0
    ensures var t := AfterTicks(s, n);
            && (t.handle.Some? <==> n < if s.modeWrite then 11 else 16)
            && t.sent == s.sent + (if s.modeWrite then [] else
                 Copies(Sent(s.peer, DataOut(s.last.value.block, s.last.value.bytes)), Least(5, Clamp(n - 10))))
  {
    SilentPeer(env, s, n);
  }

  // ---- Timer entries ----

  /** The transfer that is open in `s` stays open during the whole run. */
  ghost predicate StaysOpen(env: Env, s: State, es: seq<Event>)
    decreases |es|
  {
    s.handle.Some? && (es == [] || StaysOpen(env, Step(env, s, es[0]), es[1..]))
  }

  /** The content of the file that a read request asks for. */
  function FileAsked(s: State, body: seq<byte>): Option<seq<byte>> {
    match ParseRequest(body)
    case None => None
    case Some(name) => if name in s.files then Some(s.files[name]) else None
  }

  /** A request that an idle server opens: a file that can be written, or one that exists and is not empty. */
  predicate Opens(env: Env, s: State, write: bool, body: seq<byte>) {
    if write then ParseRequest(body).Some? && env.writable(ParseRequest(body).value)
    else FileAsked(s, body).Some? && FileAsked(s, body) != Some([])
  }

  /** Each request to an idle server starts a timer entry before the file is opened.  The entry stays
      whether or not the transfer opens, but for a read of an empty file, which ends as it begins. */
  lemma EachRequestStartsTimer(env: Env, s: State, from: Host, write: bool, body: seq<byte>)
    requires Inv(s) && s.handle.None?
    ensures var t := OnReceive(env, s, from, Request(write, body));
            && (t.handle.Some? <==> Opens(env, s, write, body))
            && (t.handle.Some? ==>
                  t.pending == s.pending + 1 && t.lastPkt == t.timer && t.retries == 0 && t.modeWrite == write)
            && (t.handle.None? ==> t.pending == s.pending + if !write && FileAsked(s, body) == Some([]) then 0 else 1)
  {}

  /** A step that leaves a transfer open leaves its timer entries. */
  lemma OpenKeepsEntries(env: Env, s: State, e: Event)
    requires Inv(s) && s.handle.Some? && Step(env, s, e).handle.Some?
    ensures Step(env, s, e).pending == s.pending
  {}

  lemma {:induction false} StaysOpenKeepsEntries(env: Env, s: State, es: seq<Event>)
    requires Inv(s) && StaysOpen(env, s, es)
    ensures Run(env, s, es).pending == s.pending && Run(env, s, es).handle.Some?
    decreases |es|
  {
    if es != [] {
      StepKeeps(env, s, es[0]);
      OpenKeepsEntries(env, s, es[0]);
      StaysOpenKeepsEntries(env, Step(env, s, es[0]), es[1..]);
    }
  }

  /** A transfer is timed, as long as it is open, by one entry more than were pending at its request: so by
      one exactly when none was. */
  lemma TimedByOneEntry(env: Env, s: State, from: Host, write: bool, body: seq<byte>, es: seq<Event>)
    requires Inv(s) && s.handle.None? && Opens(env, s, write, body)
    requires StaysOpen(env, Step(env, s, Receive(from, Request(write, body))), es)
    ensures var t := Run(env, Step(env, s, Receive(from, Request(write, body))), es);
            t.pending == s.pending + 1 && (t.pending == 1 <==> s.pending == 0)
  {
    EachRequestStartsTimer(env, s, from, write, body);
    StepKeeps(env, s, Receive(from, Request(write, body)));
    StaysOpenKeepsEntries(env, Step(env, s, Receive(from, Request(write, body))), es);
  }

  /** The entries of a server that has nothing open expire one by one and do nothing else. */
  lemma {:induction false} IdleEntriesExpire(s: State, n: nat)
    requires s.handle.None?
    ensures var gone := Least(n, s.pending);
            AfterTicks(s, n) == s.(timer := s.timer + gone, pending := s.pending - gone)
    decreases n
  {
    if n > 0 { IdleEntriesExpire(OnTick(s), n - 1); }
  }

  /** A failed request followed by a good one, before the first second is over: the transfer has two entries. */
  lemma StaleEntryTimesNextTransfer(env: Env, files: map<seq<byte>, seq<byte>>, from: Host, bad: seq<byte>,
      write: bool, good: seq<byte>)
    requires ParseRequest(bad).None? && Opens(env, Initial(files), write, good)
    ensures var es := [Receive(from, Request(write, bad)), Receive(from, Request(write, good))];
            var t := Run(env, Initial(files), es);
            t.handle.Some? && t.pending == 2 && t.lastPkt == t.timer && t.retries == 0 && t.modeWrite == write
  {
    var first, second := Receive(from, Request(write, bad)), Receive(from, Request(write, good));
    var s := Initial(files);
    var s1 := Step(env, s, first);
    assert [first, second][1..] == [second] && [second][1..] == [];
    EachRequestStartsTimer(env, s, from, write, bad);
    StepKeeps(env, s, first);
    EachRequestStartsTimer(env, s1, from, write, good);
    assert Run(env, s, [first, second]) == Run(env, s1, [second]) == Run(env, Step(env, s1, second), []);
  }

  // ---- Seconds ----

  /** In one second each entry of the timer list expires once. */
  function AfterSeconds(s: State, n: nat): State
    decreases n
  {
    if n == 0 then s
    else
      var m := AfterSeconds(s, n - 1);
      AfterTicks(m, m.pending)
  }

  lemma {:induction false} AfterTicksAdd(s: State, m: nat, n: nat)
    ensures AfterTicks(s, m + n) == AfterTicks(AfterTicks(s, m), n)
    decreases m
  {
    if m > 0 { AfterTicksAdd(OnTick(s), m - 1, n); }
  }

  lemma {:induction false} TicksKeepEntries(env: Env, s: State, n: nat)
    requires Inv(s) && s.handle.Some?
    ensures AfterTicks(s, n).handle.Some? ==> AfterTicks(s, n).pending == s.pending
    decreases n
  {
    if n > 0 {
      StepKeeps(env, s, Tick);
      if OnTick(s).handle.Some? {
        OpenKeepsEntries(env, s, Tick);
        TicksKeepEntries(env, OnTick(s), n - 1);
      } else {
        ClosedStaysClosed(OnTick(s), n - 1);
      }
    }
  }

  /** One more second after `k` ticks. */
  lemma OneMoreSecond(env: Env, s: State, m: State, k: nat)
    requires Inv(s) && s.handle.Some?
    requires AfterTicks(s, k).handle.Some? ==> m == AfterTicks(s, k)
    requires AfterTicks(s, k).handle.None? ==> m.handle.None?
    ensures AfterTicks(s, k + s.pending).handle.Some? ==> AfterTicks(m, m.pending) == AfterTicks(s, k + s.pending)
    ensures AfterTicks(s, k + s.pending).handle.None? ==> AfterTicks(m, m.pending).handle.None?
  {
    var u := AfterTicks(s, k);
    AfterTicksAdd(s, k, s.pending);
    TicksKeepEntries(env, s, k);
    if u.handle.None? {
      ClosedStaysClosed(u, s.pending);
      ClosedStaysClosed(m, m.pending);
    }
  }

  lemma OneMoreTime(n: nat, p: nat)
    requires n > 0
    ensures n * p == (n - 1) * p + p
  {}

  lemma {:induction false} SecondsAreTicks(env: Env, s: State, n: nat)
    requires Inv(s) && s.handle.Some?
    ensures AfterTicks(s, n * s.pending).handle.Some? ==> AfterSeconds(s, n) == AfterTicks(s, n * s.pending)
    ensures AfterTicks(s, n * s.pending).handle.None? ==> AfterSeconds(s, n).handle.None?
    decreases n
  {
    if n > 0 {
      var k := (n - 1) * s.pending;
      var m := AfterSeconds(s, n - 1);
      SecondsAreTicks(env, s, n - 1);
      OneMoreTime(n, s.pending);
      OneMoreSecond(env, s, m, k);
      assert AfterSeconds(s, n) == AfterTicks(m, m.pending);
    }
  }

  /** A silent peer in seconds: with `p` timer entries a reading transfer is open after `n` seconds exactly
      while n p is below 16, a writing one while it is below 11; so for 16 and 11 seconds with one entry. */
  lemma SilentPeerSeconds(env: Env, s: State, n: nat)
    requires Inv(s) && s.handle.Some? && s.lastPkt == s.timer && s.retries == 0
    ensures AfterSeconds(s, n).handle.Some? <==> n * s.pending < if s.modeWrite then 11 else 16
  {
    SecondsAreTicks(env, s, n);
    SilentPeerCloses(env, s, n * s.pending);
  }
}
