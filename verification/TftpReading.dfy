// A file read over a network that loses, duplicates and reorders packets: a lock-step peer only ever
// holds a prefix of the file, and holds all of it once it has accepted a short block.

module TftpReading {
  import opened Lists
  import opened Bytes
  import opened TftpModel
  import opened TftpRuns

  /** How many blocks that are not empty a file has. */
  function Blocks(content: seq<byte>): nat { (|content| + BLOCK - 1) / BLOCK }

  /** A data packet that carries the file's block of its number, counted modulo 2^16. */
  ghost predicate IsBlock(content: seq<byte>, out: Out) {
    out.DataOut? && exists k: nat ::
      1 <= k <= Blocks(content) && out.block == k % 0x1_0000 && out.bytes == BlockOf(content, k)
  }

  /** Nobody asks to write the file `name`, and no other file is asked for by `peer`, nor from port zero of
      its address. */
  ghost predicate OnlyReads(e: Event, peer: Host, name: seq<byte>) {
    e.Receive? && e.packet.Request? && ParseRequest(e.packet.body).Some? ==>
      if ParseRequest(e.packet.body).value == name then !e.packet.write else !Covers(e.from, peer)
  }

  /** Every data packet that has been sent to `peer` is a block of the file. */
  ghost predicate Faithful(s: State, peer: Endpoint, content: seq<byte>) {
    forall i :: 0 <= i < |s.sent| ==> s.sent[i].to == peer && s.sent[i].out.DataOut? ==> IsBlock(content, s.sent[i].out)
  }

  ghost predicate FileServed(s: State, peer: Host, name: seq<byte>, content: seq<byte>) {
    && Inv(s) && name in s.files && s.files[name] == content
    && (s.handle.Some? ==> if s.handle.value.name == name then !s.modeWrite else !Covers(s.peer, peer))
    && Faithful(s, peer, content)
  }

  lemma BlockNumber(content: seq<byte>, k: nat)
    requires k >= 1
    ensures BlockOf(content, k) != [] <==> k <= Blocks(content)
    ensures |BlockOf(content, k)| < BLOCK && k <= Blocks(content) ==> k == Blocks(content)
    ensures k < Blocks(content) ==> |BlockOf(content, k)| == BLOCK
  {}

  /** The block that an open reading transfer holds is a block of its file. */
  lemma HeldIsBlock(s: State)
    requires Inv(s) && s.handle.Some? && !s.modeWrite
    ensures IsBlock(s.files[s.handle.value.name], DataOut(s.last.value.block, s.last.value.bytes))
  {
    BlockNumber(s.files[s.handle.value.name], Number(s.handle.value));
  }

  /** A packet leaves the files that are not open for writing alone, and adds at most two packets, of which
      only data from the open file are data. */
  ghost predicate Quiet(s: State, t: State, peer: Host, name: seq<byte>, content: seq<byte>) {
    && name in t.files && t.files[name] == content
    && (t.handle.Some? ==> if t.handle.value.name == name then !t.modeWrite else !Covers(t.peer, peer))
    && s.sent <= t.sent
    && forall i :: |s.sent| <= i < |t.sent| ==>
         (t.sent[i].to == peer && t.sent[i].out.DataOut? ==> IsBlock(content, t.sent[i].out))
  }

  lemma QuietFaithful(s: State, t: State, peer: Host, name: seq<byte>, content: seq<byte>)
    requires Faithful(s, peer, content) && Quiet(s, t, peer, name, content)
    ensures Faithful(t, peer, content)
  {
    forall i | 0 <= i < |t.sent| && t.sent[i].to == peer && t.sent[i].out.DataOut?
      ensures IsBlock(content, t.sent[i].out)
    {
      if i < |s.sent| { assert s.sent[i] == t.sent[i]; }
    }
  }

  lemma SendDataQuiet(s: State, to: Endpoint, k: nat, peer: Host, name: seq<byte>, content: seq<byte>)
    requires s.handle.Some? && s.handle.value.name in s.files && s.handle.value.pos == BLOCK * k
             && s.blknum == (k + 1) % 0x1_0000
    requires name in s.files && s.files[name] == content && !s.modeWrite && Covers(s.peer, to)
    requires s.handle.value.name != name ==> !Covers(s.peer, peer)
    ensures Quiet(s, SendData(s, to), peer, name, content)
  {
    if s.handle.value.name == name {
      BlockNumber(content, k + 1);
    }
  }

  lemma OnRequestQuiet(env: Env, s: State, from: Host, write: bool, body: seq<byte>, peer: Host, name: seq<byte>,
      content: seq<byte>)
    requires FileServed(s, peer, name, content) && OnlyReads(Receive(from, Request(write, body)), peer, name)
    ensures Quiet(s, OnRequest(env, s, from, write, body), peer, name, content)
  {
    if s.handle.None? && ParseRequest(body).Some? && !write {
      var asked := ParseRequest(body).value;
      if asked in s.files {
        var s1 := s.(pending := s.pending + 1, blknum := 1);
        var s2 := s1.(handle := Some(Handle(asked, 0)), peer := from, modeWrite := false);
        SendDataQuiet(s2, from, 0, peer, name, content);
      }
    }
  }

  lemma OnDataQuiet(env: Env, s: State, from: Host, block: u16, chain: seq<seq<byte>>, peer: Host, name: seq<byte>,
      content: seq<byte>)
    requires FileServed(s, peer, name, content)
    ensures Quiet(s, OnData(env, s, from, block, chain), peer, name, content)
  {}

  lemma OnAckQuiet(s: State, from: Host, block: u16, peer: Host, name: seq<byte>, content: seq<byte>)
    requires FileServed(s, peer, name, content) && !Foreign(s, from)
    ensures Quiet(s, OnAck(s, from, block), peer, name, content)
  {
    if s.handle.Some? && !s.modeWrite && block == s.blknum && |s.last.value.bytes| == BLOCK {
      WholeBlock(s);
      SendDataQuiet(s.(blknum := (s.blknum + 1) % 0x1_0000), from, Number(s.handle.value), peer, name, content);
    }
  }

  lemma OnReceiveQuiet(env: Env, s: State, from: Host, p: Packet, peer: Host, name: seq<byte>, content: seq<byte>)
    requires FileServed(s, peer, name, content) && OnlyReads(Receive(from, p), peer, name) && !Foreign(s, from)
    ensures Quiet(s, OnReceive(env, s, from, p), peer, name, content)
  {
    var s1 := s.(lastPkt := s.timer, retries := 0);
    match p {
      case Request(write, body) => OnRequestQuiet(env, s1, from, write, body, peer, name, content);
      case Data(block, chain) => OnDataQuiet(env, s1, from, block, chain, peer, name, content);
      case Ack(block) => OnAckQuiet(s1, from, block, peer, name, content);
      case Error =>
      case Unknown =>
    }
  }

  lemma OnTickQuiet(s: State, peer: Host, name: seq<byte>, content: seq<byte>)
    requires FileServed(s, peer, name, content)
    ensures Quiet(s, OnTick(s), peer, name, content)
  {
    if s.handle.Some? && !s.modeWrite { HeldIsBlock(s); }
  }

  lemma StepServes(env: Env, s: State, e: Event, peer: Host, name: seq<byte>, content: seq<byte>)
    requires FileServed(s, peer, name, content) && OnlyReads(e, peer, name)
    ensures FileServed(Step(env, s, e), peer, name, content)
  {
    var t := Step(env, s, e);
    StepKeeps(env, s, e);
    if e.Receive? {
      if !Foreign(s, e.from) { OnReceiveQuiet(env, s, e.from, e.packet, peer, name, content); }
    } else {
      OnTickQuiet(s, peer, name, content);
    }
    assert Quiet(s, t, peer, name, content);
    QuietFaithful(s, t, peer, name, content);
  }

  // ---- The client ----

  /** A lock-step client (RFC 1350, sections 2 and 6): it accepts the block it waits for, and is done with
      the first short one. */
  datatype Client = Client(got: seq<byte>, next: nat, done: bool)

  const FreshClient := Client([], 1, false)

  function Hear(c: Client, out: Out): Client {
    if out.DataOut? && !c.done && out.block == c.next % 0x1_0000
    then Client(c.got + out.bytes, c.next + 1, |out.bytes| < BLOCK)
    else c
  }

  /** The network may deliver any packet sent to the client so far, at any time, any number of times, or
      never; and it may bring the server any packet at all. */
  datatype Action = Server(e: Event) | Deliver(i: nat)

  datatype World = World(server: State, client: Client)

  function Act(env: Env, w: World, peer: Host, a: Action): World {
    match a
    case Server(e) => w.(server := Step(env, w.server, e))
    case Deliver(i) =>
      if i < |w.server.sent| && w.server.sent[i].to == peer
      then w.(client := Hear(w.client, w.server.sent[i].out))
      else w
  }

  function Play(env: Env, w: World, peer: Host, actions: seq<Action>): World
    decreases |actions|
  {
    if actions == [] then w else Play(env, Act(env, w, peer, actions[0]), peer, actions[1..])
  }

  ghost predicate OnlyReadsAll(actions: seq<Action>, peer: Host, name: seq<byte>) {
    forall i :: 0 <= i < |actions| ==> actions[i].Server? ==> OnlyReads(actions[i].e, peer, name)
  }

  /** The client holds the blocks before the one it waits for, and is done when it has had a short one. */
  ghost predicate HoldsBlocks(c: Client, content: seq<byte>) {
    && c.next >= 1
    && BLOCK * (c.next - 1) <= |content| + BLOCK - 1
    && c.got == content[..Least(BLOCK * (c.next - 1), |content|)]
    && (c.done <==> BLOCK * (c.next - 1) > |content|)
  }

  lemma PrefixGrows(content: seq<byte>, k: nat)
    requires 1 <= k <= Blocks(content)
    ensures content[..Least(BLOCK * (k - 1), |content|)] + BlockOf(content, k) == content[..Least(BLOCK * k, |content|)]
    ensures |BlockOf(content, k)| < BLOCK <==> BLOCK * k > |content|
  {
    var from := BLOCK * (k - 1);
    assert from <= |content|;
    var upto := Least(BLOCK * k, |content|);
    assert BlockOf(content, k) == content[from..upto];
    assert content[..from] + content[from..upto] == content[..upto];
  }

  /** Below 2^16 blocks a block's number names it. */
  lemma NumberNamesBlock(content: seq<byte>, k: nat, next: nat)
    requires Blocks(content) < 0x1_0000 && 1 <= k <= Blocks(content) && next >= 1
    requires BLOCK * (next - 1) <= |content| + BLOCK - 1 && k % 0x1_0000 == next % 0x1_0000
    ensures k == next
  {
    assert next - 1 <= Blocks(content);
  }

  lemma AcceptsBlock(c: Client, out: Out, k: nat, content: seq<byte>)
    requires HoldsBlocks(c, content) && !c.done && c.next == k && 1 <= k <= Blocks(content)
    requires out == DataOut(k % 0x1_0000, BlockOf(content, k))
    ensures HoldsBlocks(Hear(c, out), content)
  {
    PrefixGrows(content, k);
  }

  lemma HearKeeps(c: Client, out: Out, content: seq<byte>)
    requires HoldsBlocks(c, content) && Blocks(content) < 0x1_0000
    requires out.DataOut? ==> IsBlock(content, out)
    ensures HoldsBlocks(Hear(c, out), content)
  {
    if out.DataOut? && !c.done && out.block == c.next % 0x1_0000 {
      var k: nat :| 1 <= k <= Blocks(content) && out.block == k % 0x1_0000 && out.bytes == BlockOf(content, k);
      NumberNamesBlock(content, k, c.next);
      AcceptsBlock(c, out, k, content);
    }
  }

  lemma {:induction false} PlayHolds(env: Env, w: World, peer: Host, actions: seq<Action>, name: seq<byte>,
      content: seq<byte>)
    requires FileServed(w.server, peer, name, content) && HoldsBlocks(w.client, content) && Blocks(content) < 0x1_0000
    requires OnlyReadsAll(actions, peer, name)
    ensures FileServed(Play(env, w, peer, actions).server, peer, name, content)
            && HoldsBlocks(Play(env, w, peer, actions).client, content)
    decreases |actions|
  {
    if actions != [] {
      match actions[0] {
        case Server(e) => StepServes(env, w.server, e, peer, name, content);
        case Deliver(i) =>
          if i < |w.server.sent| && w.server.sent[i].to == peer { HearKeeps(w.client, w.server.sent[i].out, content); }
      }
      assert OnlyReadsAll(actions[1..], peer, name) by {
        forall i | 0 <= i < |actions[1..]| && actions[1..][i].Server? ensures OnlyReads(actions[1..][i].e, peer, name) {
          assert actions[1..][i] == actions[i + 1];
        }
      }
      PlayHolds(env, Act(env, w, peer, actions[0]), peer, actions[1..], name, content);
    }
  }

  /** Whatever the network does, the client holds a prefix of the file; it is done only when it holds the
      whole file, and never if the file's length is a multiple of the block length. */
  lemma ClientHoldsPrefix(env: Env, files: map<seq<byte>, seq<byte>>, peer: Host, name: seq<byte>, actions: seq<Action>)
    requires name in files && Blocks(files[name]) < 0x1_0000 && OnlyReadsAll(actions, peer, name)
    ensures var c := Play(env, World(Initial(files), FreshClient), peer, actions).client;
            && c.got <= files[name] && (c.done ==> c.got == files[name])
            && (|files[name]| % BLOCK == 0 ==> !c.done)
  {
    PlayHolds(env, World(Initial(files), FreshClient), peer, actions, name, files[name]);
  }

  lemma PlayFrom(env: Env, w: World, peer: Host, actions: seq<Action>, k: nat)
    requires k < |actions|
    ensures Play(env, w, peer, actions[k..]) == Play(env, Act(env, w, peer, actions[k]), peer, actions[k + 1..])
  {
    assert actions[k..][1..] == actions[k + 1..];
  }

  function ThreeActs(env: Env, w: World, peer: Host, a: Action, b: Action, c: Action): World {
    Act(env, Act(env, Act(env, w, peer, a), peer, b), peer, c)
  }

  lemma ThreeMore(env: Env, w: World, peer: Host, actions: seq<Action>, k: nat)
    requires k + 3 <= |actions|
    ensures Play(env, w, peer, actions[k..])
            == Play(env, ThreeActs(env, w, peer, actions[k], actions[k + 1], actions[k + 2]), peer, actions[k + 3..])
  {
    var w1 := Act(env, w, peer, actions[k]);
    PlayFrom(env, w, peer, actions, k);
    PlayFrom(env, w1, peer, actions, k + 1);
    PlayFrom(env, Act(env, w1, peer, actions[k + 1]), peer, actions, k + 2);
  }

  /** A block that is read, and then an error packet that ends the transfer. */
  lemma OneBlockRead(env: Env, files: map<seq<byte>, seq<byte>>, peer: Host, body: seq<byte>)
    requires ParseRequest(body).Some? && ParseRequest(body).value in files
    requires |files[ParseRequest(body).value]| >= BLOCK
    ensures var w := World(Initial(files), FreshClient);
            var w3 := ThreeActs(env, w, peer, Server(Receive(peer, Request(false, body))),
                        Deliver(0), Server(Receive(peer, Error)));
            && Inv(w3.server) && w3.server.handle.None? && w3.server.files == files && |w3.server.sent| == 1
            && w3.client == Client(BlockOf(files[ParseRequest(body).value], 1), 2, false)
  {
    var s := Initial(files);
    OpensWithFirstBlock(env, s, peer, body);
    StepKeeps(env, s, Receive(peer, Request(false, body)));
    StepKeeps(env, Step(env, s, Receive(peer, Request(false, body))), Receive(peer, Error));
  }

  /** The transfer of a host at port zero answers `peer` at the same address. */
  lemma OtherBlockHeard(env: Env, w: World, peer: Host, body: seq<byte>)
    requires Inv(w.server) && w.server.handle.None? && |w.server.sent| == 1 && w.client.next == 2 && !w.client.done
    requires ParseRequest(body).Some? && ParseRequest(body).value in w.server.files
    requires |w.server.files[ParseRequest(body).value]| > BLOCK
    ensures var w3 := ThreeActs(env, w, peer, Server(Receive(Endpoint(peer.addr, 0), Request(false, body))),
                        Server(Receive(peer, Ack(1))), Deliver(2));
            w3.client.got == w.client.got + BlockOf(w.server.files[ParseRequest(body).value], 2)
  {
    var e := Receive(Endpoint(peer.addr, 0), Request(false, body));
    OpensWithFirstBlock(env, w.server, Endpoint(peer.addr, 0), body);
    StepKeeps(env, w.server, e);
    LastBlockNext(env, Step(env, w.server, e), peer, 1);
  }

  /** Why nobody may ask for another file from port zero of the peer's address: the transfer of that file
      answers the peer's acknowledgements too, and the client takes a block of it for its own. */
  lemma PortZeroMixesFiles(env: Env, files: map<seq<byte>, seq<byte>>, peer: Host, mine: seq<byte>, other: seq<byte>)
    requires ParseRequest(mine).Some? && ParseRequest(mine).value in files
    requires ParseRequest(other).Some? && ParseRequest(other).value in files
    requires |files[ParseRequest(mine).value]| >= BLOCK && |files[ParseRequest(other).value]| > BLOCK
    ensures var actions := [
              Server(Receive(peer, Request(false, mine))), Deliver(0), Server(Receive(peer, Error)),
              Server(Receive(Endpoint(peer.addr, 0), Request(false, other))), Server(Receive(peer, Ack(1))),
              Deliver(2)];
            Play(env, World(Initial(files), FreshClient), peer, actions).client.got
            == BlockOf(files[ParseRequest(mine).value], 1) + BlockOf(files[ParseRequest(other).value], 2)
  {
    var a := [Server(Receive(peer, Request(false, mine))), Deliver(0), Server(Receive(peer, Error)),
              Server(Receive(Endpoint(peer.addr, 0), Request(false, other))), Server(Receive(peer, Ack(1))),
              Deliver(2)];
    var w := World(Initial(files), FreshClient);
    OneBlockRead(env, files, peer, mine);
    OtherBlockHeard(env, ThreeActs(env, w, peer, a[0], a[1], a[2]), peer, other);
    ThreeMore(env, w, peer, a, 0);
    ThreeMore(env, ThreeActs(env, w, peer, a[0], a[1], a[2]), peer, a, 3);
    assert a[0..] == a && a[6..] == [];
  }

  // ---- A whole exchange ----

  function Acks(peer: Host, k: nat, n: nat): seq<Event>
    decreases n - k
  {
    if k > n then [] else [Receive(peer, Ack(k % 0x1_0000))] + Acks(peer, k + 1, n)
  }

  /** The data packets of the blocks `k` to `n`. */
  function DataPackets(content: seq<byte>, peer: Host, k: nat, n: nat): seq<Sent>
    requires k >= 1
    decreases n - k
  {
    if k > n then []
    else [Sent(peer, DataOut(k % 0x1_0000, BlockOf(content, k)))] + DataPackets(content, peer, k + 1, n)
  }

  /** How the server ends a transfer: it just closes after a short block, and complains after a whole one. */
  function Ending(content: seq<byte>, peer: Host): seq<Sent> {
    if |content| % BLOCK == 0 then [Sent(peer, ErrorOut(ACCESS_VIOLATION))] else []
  }

  /** Once block `k` is out, acknowledging it and each later block brings the rest of the file. */
  lemma {:induction false} AcksBringTheRest(env: Env, s: State, peer: Host, k: nat)
    requires Inv(s) && s.handle.Some? && !s.modeWrite && s.peer == peer && Number(s.handle.value) == k
    requires k <= Blocks(s.files[s.handle.value.name])
    ensures var content := s.files[s.handle.value.name];
            var n := Blocks(content);
            var t := Run(env, s, Acks(peer, k, n));
            t.handle.None? && t.sent == s.sent + DataPackets(content, peer, k + 1, n) + Ending(content, peer)
    decreases Blocks(s.files[s.handle.value.name]) - k
  {
    assert s.handle.value.name in s.files && s.blknum == k % 0x1_0000;
    hide Step, Run, Acks, DataPackets, Inv, BlockOf, Ending;
    var content := s.files[s.handle.value.name];
    var n := Blocks(content);
    var e := Receive(peer, Ack(k % 0x1_0000));
    var s1 := Step(env, s, e);
    StepKeeps(env, s, e);
    RunAcks(env, s, peer, k, n);
    if k < n {
      LastBlockNext(env, s, peer, k);
      AcksBringTheRest(env, s1, peer, k + 1);
      FirstOfTheRest(s.sent, content, peer, k, n);
    } else {
      EndOfFile(env, s, peer);
      NothingLeft(env, s1, content, peer, n);
    }
  }

  lemma RunAcks(env: Env, s: State, peer: Host, k: nat, n: nat)
    requires k <= n
    ensures Run(env, s, Acks(peer, k, n))
            == Run(env, Step(env, s, Receive(peer, Ack(k % 0x1_0000))), Acks(peer, k + 1, n))
  {
    hide Step;
    var e := Receive(peer, Ack(k % 0x1_0000));
    assert Acks(peer, k, n)[0] == e && Acks(peer, k, n)[1..] == Acks(peer, k + 1, n);
  }

  lemma FirstOfTheRest(sent: seq<Sent>, content: seq<byte>, peer: Host, k: nat, n: nat)
    requires k < n
    ensures sent + [Sent(peer, DataOut((k + 1) % 0x1_0000, BlockOf(content, k + 1)))]
              + DataPackets(content, peer, k + 2, n)
            == sent + DataPackets(content, peer, k + 1, n)
  {
    assert DataPackets(content, peer, k + 1, n)
      == [Sent(peer, DataOut((k + 1) % 0x1_0000, BlockOf(content, k + 1)))] + DataPackets(content, peer, k + 2, n);
  }

  lemma NothingLeft(env: Env, t: State, content: seq<byte>, peer: Host, n: nat)
    ensures Run(env, t, Acks(peer, n + 1, n)) == t && DataPackets(content, peer, n + 1, n) == []
  {}

  lemma LastBlockNext(env: Env, s: State, peer: Host, k: nat)
    requires Inv(s) && s.handle.Some? && !s.modeWrite && Covers(s.peer, peer) && Number(s.handle.value) == k
    requires k < Blocks(s.files[s.handle.value.name])
    ensures var content := s.files[s.handle.value.name];
            var t := Step(env, s, Receive(peer, Ack(k % 0x1_0000)));
            && t.handle.Some? && !t.modeWrite && t.peer == s.peer && Number(t.handle.value) == k + 1
               && t.handle.value.name == s.handle.value.name
            && t.files == s.files
               && t.sent == s.sent + [Sent(peer, DataOut((k + 1) % 0x1_0000, BlockOf(content, k + 1)))]
  {
    BlockNumber(s.files[s.handle.value.name], k);
    BlockNumber(s.files[s.handle.value.name], k + 1);
    WholeBlock(s);
  }

  /** The acknowledgement of the last block ends the transfer, with an error if that block was whole. */
  lemma EndOfFile(env: Env, s: State, peer: Host)
    requires Inv(s) && s.handle.Some? && !s.modeWrite && s.peer == peer
    requires Number(s.handle.value) == Blocks(s.files[s.handle.value.name])
    ensures var t := Step(env, s, Receive(peer, Ack(s.blknum)));
            t.handle.None? && t.sent == s.sent + Ending(s.files[s.handle.value.name], peer)
  {
    var content := s.files[s.handle.value.name];
    var k := Number(s.handle.value);
    BlockNumber(content, k + 1);
    ChunkLength(content, BLOCK * (k - 1));
    LastBlockWhole(content, k);
    if |s.last.value.bytes| == BLOCK { WholeBlock(s); }
  }

  lemma LastBlockWhole(content: seq<byte>, k: nat)
    requires k >= 1 && k == Blocks(content)
    ensures |BlockOf(content, k)| == BLOCK <==> |content| % BLOCK == 0
  {}

  // ---- What a client makes of a loss-free exchange ----

  function HearAll(c: Client, outs: seq<Sent>): Client
    decreases |outs|
  {
    if outs == [] then c else HearAll(Hear(c, outs[0].out), outs[1..])
  }

  lemma {:induction false} HearsTheRest(content: seq<byte>, peer: Host, k: nat, c: Client)
    requires k >= 1 && HoldsBlocks(c, content) && c.next == k && !c.done && Blocks(content) < 0x1_0000
    ensures HearAll(c, DataPackets(content, peer, k, Blocks(content)) + Ending(content, peer))
            == Client(content, Blocks(content) + 1, |content| % BLOCK != 0)
    decreases Blocks(content) - k
  {
    var n := Blocks(content);
    var outs := DataPackets(content, peer, k, n) + Ending(content, peer);
    if k > n {
      assert c == Client(content, n + 1, false) by { assert content[..|content|] == content; }
      assert |content| % BLOCK == 0 && outs == [Sent(peer, ErrorOut(ACCESS_VIOLATION))];
      assert HearAll(c, outs) == HearAll(c, outs[1..]);
    } else {
      var c1 := Hear(c, outs[0].out);
      PrefixGrows(content, k);
      assert IsBlock(content, outs[0].out);
      HearKeeps(c, outs[0].out, content);
      assert outs[1..] == DataPackets(content, peer, k + 1, n) + Ending(content, peer);
      if c1.done {
        assert k == n && |content| % BLOCK != 0 && outs[1..] == [];
        assert content[..|content|] == content;
      } else {
        HearsTheRest(content, peer, k + 1, c1);
      }
    }
  }

  /** Opening a file that is not empty sends its first block. */
  lemma OpensWithFirstBlock(env: Env, s: State, peer: Host, body: seq<byte>)
    requires Inv(s) && s.handle.None? && ParseRequest(body).Some? && ParseRequest(body).value in s.files
    ensures var name := ParseRequest(body).value;
            var t := Step(env, s, Receive(peer, Request(false, body)));
            && t.files == s.files
            && (s.files[name] != [] ==>
                  t.handle.Some? && !t.modeWrite && t.peer == peer && t.handle.value.name == name
                    && Number(t.handle.value) == 1
                  && t.sent == s.sent + [Sent(peer, DataOut(1, BlockOf(s.files[name], 1)))])
            && (s.files[name] == [] ==> t.handle.None? && t.sent == s.sent + [Sent(peer, ErrorOut(ACCESS_VIOLATION))])
  {
    ChunkLength(s.files[ParseRequest(body).value], 0);
  }

  lemma WholeExchange(env: Env, s: State, peer: Host, body: seq<byte>)
    requires Inv(s) && s.handle.None? && ParseRequest(body).Some? && ParseRequest(body).value in s.files
    ensures var content := s.files[ParseRequest(body).value];
            var n := Blocks(content);
            var t := Run(env, Step(env, s, Receive(peer, Request(false, body))), Acks(peer, 1, n));
            t.handle.None? && t.sent == s.sent + (DataPackets(content, peer, 1, n) + Ending(content, peer))
  {
    var content := s.files[ParseRequest(body).value];
    var n := Blocks(content);
    var e := Receive(peer, Request(false, body));
    var s1 := Step(env, s, e);
    OpensWithFirstBlock(env, s, peer, body);
    StepKeeps(env, s, e);
    if content == [] {
      assert Acks(peer, 1, n) == [];
    } else {
      AcksBringTheRest(env, s1, peer, 1);
      FirstPacketFirst(s.sent, content, peer);
    }
  }

  lemma FirstPacketFirst(sent: seq<Sent>, content: seq<byte>, peer: Host)
    requires content != []
    ensures var n := Blocks(content);
            sent + [Sent(peer, DataOut(1, BlockOf(content, 1)))] + DataPackets(content, peer, 2, n)
              + Ending(content, peer)
            == sent + (DataPackets(content, peer, 1, n) + Ending(content, peer))
  {}

  /** Without losses an idle server sends the whole file block by block, and a lock-step client then holds
      it; the client knows that it is done exactly when the length is not a multiple of the block length,
      otherwise the last packet is an error. */
  lemma LossFreeTransfer(env: Env, s: State, peer: Host, body: seq<byte>)
    requires Inv(s) && s.handle.None? && ParseRequest(body).Some? && ParseRequest(body).value in s.files
    requires Blocks(s.files[ParseRequest(body).value]) < 0x1_0000
    ensures var content := s.files[ParseRequest(body).value];
            var n := Blocks(content);
            var t := Run(env, s, [Receive(peer, Request(false, body))] + Acks(peer, 1, n));
            && t.handle.None?
            && t.sent == s.sent + (DataPackets(content, peer, 1, n) + Ending(content, peer))
            && HearAll(FreshClient, t.sent[|s.sent|..]) == Client(content, n + 1, |content| % BLOCK != 0)
  {
    var content := s.files[ParseRequest(body).value];
    var n := Blocks(content);
    var e := Receive(peer, Request(false, body));
    var es := [e] + Acks(peer, 1, n);
    assert es[1..] == Acks(peer, 1, n);
    WholeExchange(env, s, peer, body);
    var t := Run(env, s, es);
    assert t == Run(env, Step(env, s, e), Acks(peer, 1, n));
    assert t.sent[|s.sent|..] == DataPackets(content, peer, 1, n) + Ending(content, peer);
    HearsTheRest(content, peer, 1, FreshClient);
  }
}
