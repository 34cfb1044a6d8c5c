// Uploads from the first packet to the last: what the server answers to each packet, and a whole file sent
// without losses.

module TftpUploads {
  import opened Lists
  import opened Bytes
  import opened TftpModel
  import opened TftpRuns
  import opened TftpWriting

  // ---- The answer to each data packet ----

  /** Every buffer of a chain can be written in full. */
  ghost predicate RoomFor(env: Env, writes: nat, chain: seq<seq<byte>>) {
    forall i :: 0 <= i < |chain| ==> env.room(writes + i) >= |chain[i]|
  }

  lemma {:induction false} WriteChainExactly(env: Env, content: seq<byte>, writes: nat, chain: seq<seq<byte>>)
    ensures var w := WriteChain(env, content, writes, chain);
            && (w.ok <==> RoomFor(env, writes, chain))
            && (w.ok ==> w.content == content + Flat(chain) && w.writes == writes + |chain|)
    decreases |chain|
  {
    if chain != [] {
      if env.room(writes) >= |chain[0]| {
        var rest := chain[1..];
        WriteChainExactly(env, content + chain[0], writes + 1, rest);
        if RoomFor(env, writes + 1, rest) {
          forall i | 0 <= i < |chain| ensures env.room(writes + i) >= |chain[i]| {
            if i > 0 { assert env.room(writes + 1 + (i - 1)) >= |rest[i - 1]|; }
          }
        } else {
          var i :| 0 <= i < |rest| && env.room(writes + 1 + i) < |rest[i]|;
          assert env.room(writes + (i + 1)) < |chain[i + 1]|;
        }
      } else {
        assert env.room(writes + 0) < |chain[0]|;
      }
    }
  }

  /** The state after a packet from the peer has been noted. */
  function Noted(s: State): State { s.(lastPkt := s.timer, retries := 0) }

  /** An open upload answers each data packet that it hears with exactly one packet.  The block it waits for
      is appended and acknowledged, and a short one ends the transfer; if it cannot be written the transfer
      ends with an error.  The block before it is acknowledged again.  Any other number is an error that
      changes nothing. */
  lemma DataAnswered(env: Env, s: State, from: Host, block: u16, chain: seq<seq<byte>>)
    requires Writing(s) && Covers(s.peer, from)
    ensures var t := OnReceive(env, s, from, Data(block, chain));
            var name := s.handle.value.name;
            && (block == s.blknum && RoomFor(env, s.writes, chain) ==>
                  && t.files == s.files[name := s.files[name] + Flat(chain)]
                  && t.sent == s.sent + [Sent(from, AckOut(block))] && t.writes == s.writes + |chain|
                  && (t.handle.Some? <==> |Flat(chain)| >= 512)
                  && (t.handle.Some? ==>
                        Writing(t) && t.handle == s.handle && t.peer == s.peer && t.blknum == (block + 1) % 0x1_0000))
            && (block == s.blknum && !RoomFor(env, s.writes, chain) ==>
                  t.handle.None? && t.sent == s.sent + [Sent(from, ErrorOut(2))])
            && (block != s.blknum ==>
                  t == Noted(s).(sent := s.sent + [Sent(from,
                    if (block + 1) % 0x1_0000 == s.blknum then AckOut(block) else ErrorOut(5))]))
  {
    WriteChainExactly(env, s.files[s.handle.value.name], s.writes, chain);
  }

  // ---- What an acknowledgement means ----

  lemma {:induction false} AcceptedAppend(env: Env, s: State, es: seq<Event>, e: Event)
    ensures Accepted(env, s, es + [e])
            == Accepted(env, s, es) + if IsNext(Run(env, s, es), e) then [e.packet] else []
    decreases |es|
  {
    if es == [] {
      assert [] + [e] == [e] && [e][1..] == [];
    } else {
      assert (es + [e])[1..] == es[1..] + [e];
      AcceptedAppend(env, Step(env, s, es[0]), es[1..], e);
    }
  }

  lemma {:induction false} PayloadsAppend(ps: seq<Packet>, p: Packet)
    requires p.Data?
    ensures Payloads(ps + [p]) == Payloads(ps) + Flat(p.chain)
  {
    if ps == [] {
      assert [] + [p] == [p] && [p][1..] == [];
    } else {
      assert (ps + [p])[1..] == ps[1..] + [p];
      PayloadsAppend(ps[1..], p);
    }
  }

  /** The `k`-th acknowledgement counts the blocks that have been written.  In every run of an upload: when a
      step sends ACK k, the file holds, in order, blocks 1, 2, 3, ... whose number is k, modulo 2^16. */
  lemma AckMeansWritten(env: Env, s: State, from: Host, body: seq<byte>, es: seq<Event>, e: Event, k: u16)
    requires Inv(s) && s.handle.None? && ParseRequest(body).Some? && env.writable(ParseRequest(body).value)
    requires StaysOpen(env, Step(env, s, Receive(from, Request(true, body))), es)
    requires var s1 := Run(env, Step(env, s, Receive(from, Request(true, body))), es);
             var t := Step(env, s1, e);
             |t.sent| > |s1.sent| && t.sent[|s1.sent|].out == AckOut(k)
    ensures var s0 := Step(env, s, Receive(from, Request(true, body)));
            var t := Step(env, Run(env, s0, es), e);
            var name := ParseRequest(body).value;
            var ps := Accepted(env, s0, es + [e]);
            && name in t.files && t.files[name] == Payloads(ps) && CountUp(ps, 1) && k == |ps| % 0x1_0000
  {
    hide Step, Inv;
    var s0 := Step(env, s, Receive(from, Request(true, body)));
    var s1 := Run(env, s0, es);
    var ps := Accepted(env, s0, es);
    WriteRequestOpens(env, s, from, body);
    WrittenOnceInOrder(env, s0, es);
    AcceptedCountUp(env, s0, es);
    assert [] + Payloads(ps) == Payloads(ps);
    AcceptedAppend(env, s0, es, e);
    AckWritten(env, s1, e, k);
    if IsNext(s1, e) {
      PayloadsAppend(ps, e.packet);
      CountUpAppend(ps, e.packet, 1);
    } else {
      assert ps + [] == ps;
    }
  }

  lemma CountUpAppend(ps: seq<Packet>, p: Packet, first: nat)
    requires CountUp(ps, first) && p.Data? && p.block == (first + |ps|) % 0x1_0000
    ensures CountUp(ps + [p], first)
  {}

  /** A step that sends an acknowledgement has written its block, or repeats the last one. */
  lemma AckWritten(env: Env, s: State, e: Event, k: u16)
    requires Writing(s) && |Step(env, s, e).sent| > |s.sent| && Step(env, s, e).sent[|s.sent|].out == AckOut(k)
    ensures var t := Step(env, s, e);
            var name := s.handle.value.name;
            && name in t.files
            && (IsNext(s, e) ==> k == s.blknum && t.files[name] == s.files[name] + Flat(e.packet.chain))
            && (!IsNext(s, e) ==> (k + 1) % 0x1_0000 == s.blknum && t.files == s.files)
  {
    if IsNext(s, e) { WriteChainExactly(env, s.files[s.handle.value.name], s.writes, e.packet.chain); }
  }

  // ---- A whole upload ----

  /** The data packets of a peer that sends the blocks from `k` on, each as a chain of buffers. */
  function DataEvents(from: Host, chains: seq<seq<seq<byte>>>, k: nat): seq<Event>
    requires k >= 1
    decreases |chains| - k
  {
    if k > |chains| then []
    else [Receive(from, Data(k % 0x1_0000, chains[k - 1]))] + DataEvents(from, chains, k + 1)
  }

  /** The chains are the blocks of a file: whole ones, and then a short one, which may be empty. */
  ghost predicate Cuts(chains: seq<seq<seq<byte>>>, content: seq<byte>) {
    && |chains| == |content| / 512 + 1
    && forall i :: 0 <= i < |chains| ==> Flat(chains[i]) == content[512 * i..Least(512 * (i + 1), |content|)]
  }

  ghost predicate Roomy(env: Env) { forall i: nat :: env.room(i) >= 512 }

  lemma {:induction false} BufferWithin(chain: seq<seq<byte>>, i: nat)
    requires i < |chain|
    ensures |chain[i]| <= |Flat(chain)|
  {
    if i > 0 { BufferWithin(chain[1..], i - 1); }
  }

  lemma RoomForBlock(env: Env, writes: nat, chain: seq<seq<byte>>)
    requires Roomy(env) && |Flat(chain)| <= 512
    ensures RoomFor(env, writes, chain)
  {
    forall i | 0 <= i < |chain| ensures env.room(writes + i) >= |chain[i]| { BufferWithin(chain, i); }
  }

  /** ACKs `k` to `n`. */
  function AcksTo(to: Host, k: nat, n: nat): seq<Sent>
    decreases n - k
  {
    if k > n then [] else [Sent(to, AckOut(k % 0x1_0000))] + AcksTo(to, k + 1, n)
  }

  lemma {:induction false} UploadFrom(env: Env, s: State, from: Host, content: seq<byte>, chains: seq<seq<seq<byte>>>,
      k: nat)
    requires Writing(s) && s.peer == from && 1 <= k <= |chains| && s.blknum == k % 0x1_0000
    requires Cuts(chains, content) && Roomy(env)
    requires s.files[s.handle.value.name] == content[..512 * (k - 1)]
    ensures var t := Run(env, s, DataEvents(from, chains, k));
            && t.handle.None? && t.files == s.files[s.handle.value.name := content]
            && t.sent == s.sent + AcksTo(from, k, |chains|)
    decreases |chains| - k
  {
    assert s.handle.Some? && (k < |chains| ==> 512 * k <= |content|);
    hide Step, Run, DataEvents, AcksTo, Writing, Cuts;
    var name, s1 := s.handle.value.name, Step(env, s, Receive(from, Data(k % 0x1_0000, chains[k - 1])));
    BlockStored(env, s, from, content, chains, k);
    RunData(env, s, from, chains, k);
    NextAck(s.sent, from, k, |chains|);
    if k < |chains| {
      UploadFrom(env, s1, from, content, chains, k + 1);
      assert s.files[name := content[..512 * k]][name := content] == s.files[name := content];
    } else {
      NothingToSend(env, s1, from, chains);
    }
  }

  /** Block `k` is stored and acknowledged, and the last one ends the transfer. */
  lemma BlockStored(env: Env, s: State, from: Host, content: seq<byte>, chains: seq<seq<seq<byte>>>, k: nat)
    requires Writing(s) && s.peer == from && 1 <= k <= |chains| && s.blknum == k % 0x1_0000
    requires Cuts(chains, content) && Roomy(env)
    requires s.files[s.handle.value.name] == content[..512 * (k - 1)]
    ensures var t := Step(env, s, Receive(from, Data(k % 0x1_0000, chains[k - 1])));
            && t.files == s.files[s.handle.value.name := if k < |chains| then content[..512 * k] else content]
            && t.sent == s.sent + [Sent(from, AckOut(k % 0x1_0000))]
            && (k < |chains| ==>
                  Writing(t) && t.handle == s.handle && t.peer == from && t.blknum == (k + 1) % 0x1_0000)
            && (k == |chains| ==> t.handle.None?)
  {
    hide OnReceive, Inv;
    RoomForBlock(env, s.writes, chains[k - 1]);
    DataAnswered(env, s, from, k % 0x1_0000, chains[k - 1]);
    BlockAppended(chains, content, k);
  }

  /** The blocks before `k` and block `k`. */
  lemma BlockAppended(chains: seq<seq<seq<byte>>>, content: seq<byte>, k: nat)
    requires Cuts(chains, content) && 1 <= k <= |chains|
    ensures content[..512 * (k - 1)] + Flat(chains[k - 1]) == if k < |chains| then content[..512 * k] else content
    ensures |Flat(chains[k - 1])| >= 512 <==> k < |chains|
  {
    assert content[..512 * (k - 1)] + Flat(chains[k - 1]) == content[..Least(512 * k, |content|)];
    assert content[..|content|] == content;
  }

  lemma RunData(env: Env, s: State, from: Host, chains: seq<seq<seq<byte>>>, k: nat)
    requires 1 <= k <= |chains|
    ensures Run(env, s, DataEvents(from, chains, k))
            == Run(env, Step(env, s, Receive(from, Data(k % 0x1_0000, chains[k - 1]))), DataEvents(from, chains, k + 1))
  {
    hide Step;
    RunFirst(env, s, Receive(from, Data(k % 0x1_0000, chains[k - 1])), DataEvents(from, chains, k + 1));
  }

  lemma NextAck(sent: seq<Sent>, to: Host, k: nat, n: nat)
    requires k <= n
    ensures sent + AcksTo(to, k, n) == sent + [Sent(to, AckOut(k % 0x1_0000))] + AcksTo(to, k + 1, n)
  {
    assert AcksTo(to, k, n) == [Sent(to, AckOut(k % 0x1_0000))] + AcksTo(to, k + 1, n);
  }

  lemma NothingToSend(env: Env, t: State, from: Host, chains: seq<seq<seq<byte>>>)
    ensures Run(env, t, DataEvents(from, chains, |chains| + 1)) == t && AcksTo(from, |chains| + 1, |chains|) == []
  {}

  /** Without losses, and with room for it, a file is uploaded whole: an idle server that accepts the request
      and then gets its blocks in order ends with the file stored and the transfer closed, having sent
      exactly ACK 0, 1, ..., n. */
  lemma LossFreeUpload(env: Env, s: State, from: Host, body: seq<byte>, content: seq<byte>,
      chains: seq<seq<seq<byte>>>)
    requires Inv(s) && s.handle.None? && ParseRequest(body).Some? && env.writable(ParseRequest(body).value)
    requires Cuts(chains, content) && Roomy(env)
    ensures var t := Run(env, s, [Receive(from, Request(true, body))] + DataEvents(from, chains, 1));
            && t.handle.None? && t.files == s.files[ParseRequest(body).value := content]
            && t.sent == s.sent + AcksTo(from, 0, |content| / 512 + 1)
  {
    hide Step, Run, DataEvents, AcksTo;
    var e := Receive(from, Request(true, body));
    var s1 := Step(env, s, e);
    var rest := DataEvents(from, chains, 1);
    var name := ParseRequest(body).value;
    WriteRequestOpens(env, s, from, body);
    assert content[..512 * 0] == [];
    UploadFrom(env, s1, from, content, chains, 1);
    RunFirst(env, s, e, rest);
    UploadEnds(s, s1, Run(env, s1, rest), from, name, content, |chains|);
  }

  lemma UploadEnds(s: State, s1: State, t: State, from: Host, name: seq<byte>, content: seq<byte>, n: nat)
    requires s1.files == s.files[name := []] && s1.sent == s.sent + [Sent(from, AckOut(0))]
    requires t.files == s1.files[name := content] && t.sent == s1.sent + AcksTo(from, 1, n)
    ensures t.files == s.files[name := content] && t.sent == s.sent + AcksTo(from, 0, n)
  {
    hide AcksTo;
    NextAck(s.sent, from, 0, n);
    assert s.files[name := []][name := content] == s.files[name := content];
  }

  lemma RunFirst(env: Env, s: State, e: Event, es: seq<Event>)
    ensures Run(env, s, [e] + es) == Run(env, Step(env, s, e), es)
  {
    assert ([e] + es)[1..] == es;
  }

  // ---- Every other packet ----

  /** A wrong-numbered acknowledgement is an error that leaves a download open at its block. */
  lemma WrongAckChangesNothing(env: Env, s: State, from: Host, block: u16)
    requires Inv(s) && s.handle.Some? && !s.modeWrite && Covers(s.peer, from) && block != s.blknum
    ensures OnReceive(env, s, from, Ack(block)) == Noted(s).(sent := s.sent + [Sent(from, ErrorOut(5))])
  {}

  predicate Misplaced(s: State, p: Packet) {
    match p
    case Request(_, _) => s.handle.Some?
    case Data(_, _) => s.handle.None? || !s.modeWrite
    case Ack(_) => s.handle.None? || s.modeWrite
    case Error => false
    case Unknown => true
  }

  /** A packet of the wrong kind is told off with the code of its mistake and changes nothing else; only an
      error packet ends a transfer. */
  lemma MisplacedPackets(env: Env, s: State, from: Host, p: Packet)
    requires Inv(s) && (s.handle.Some? ==> Covers(s.peer, from))
    ensures var t := OnReceive(env, s, from, p);
            var told := Noted(s).(sent := s.sent + [Sent(from, ErrorOut(if p.Unknown? then 4 else 2))]);
            && (Misplaced(s, p) ==> t == told)
            && (p.Error? && s.handle.None? ==> t == Noted(s))
            && (p.Error? && s.handle.Some? ==>
                  t == Noted(s).(handle := None, last := None, peer := Endpoint(0, 0), pending := s.pending - 1))
  {}

  /** A request that an idle server does not open is answered with one error: 2 for a name or mode that does
      not parse, 1 for a file that cannot be opened, 2 for an empty file. */
  lemma RequestRefused(env: Env, s: State, from: Host, write: bool, body: seq<byte>)
    requires Inv(s) && s.handle.None? && !Opens(env, s, write, body)
    ensures var t := OnReceive(env, s, from, Request(write, body));
            && t.handle.None? && t.files == s.files
            && t.sent == s.sent + [Sent(from, ErrorOut(
                 if ParseRequest(body).Some? && (write || FileAsked(s, body).None?) then 1 else 2))]
  {}

  /** The file name and the mode that a request's body starts with, each ended by a zero. */
  ghost predicate Names(body: seq<byte>, name: seq<byte>, mode: seq<byte>) {
    && name + [0] + mode + [0] <= body
    && 0 !in name && 0 !in mode && |name| <= 20 && |mode| <= 10
  }

  /** A request names a file exactly if its body starts with a name of at most 20 bytes and a mode of at most
      10, each followed by a zero; the file is that name. */
  lemma RequestNames(body: seq<byte>, name: seq<byte>)
    ensures ParseRequest(body) == Some(name) <==> exists mode :: Names(body, name, mode)
  {
    if ParseRequest(body) == Some(name) {
      var n := FindZero(body, 0).value;
      var m := FindZero(body, n + 1).value;
      var mode := body[n + 1..m];
      assert name + [0] + mode + [0] == body[..m + 1];
      assert Names(body, name, mode);
    }
    if exists mode :: Names(body, name, mode) {
      var mode :| Names(body, name, mode);
      NamesParsed(body, name, mode);
    }
  }

  lemma NamesParsed(body: seq<byte>, name: seq<byte>, mode: seq<byte>)
    requires Names(body, name, mode)
    ensures ParseRequest(body) == Some(name)
  {
    var all := name + [0] + mode + [0];
    forall i | 0 <= i < |all| ensures body[i] == all[i] {}
    FirstZero(body, 0, |name|);
    FirstZero(body, |name| + 1, |name| + 1 + |mode|);
    assert body[..|name|] == name;
  }

  lemma FirstZero(body: seq<byte>, from: nat, at: nat)
    requires from <= at < |body| && body[at] == 0 && forall i :: from <= i < at ==> body[i] != 0
    ensures FindZero(body, from) == Some(at)
  {}
}
