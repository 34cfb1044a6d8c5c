// A file written over the same network: each block is written once, in order, and a repeat of the
// previous one is acknowledged again but not written.

module TftpWriting {
  import opened Lists
  import opened Bytes
  import opened TftpModel
  import opened TftpRuns

  ghost predicate Writing(s: State) { Inv(s) && s.handle.Some? && s.modeWrite }

  /** The event is the data block that an open writing transfer waits for. */
  predicate IsNext(s: State, e: Event) {
    e.Receive? && !Foreign(s, e.from) && e.packet.Data? && s.handle.Some? && s.modeWrite && e.packet.block == s.blknum
  }

  /** The data packets that a run accepts. */
  function Accepted(env: Env, s: State, es: seq<Event>): seq<Packet>
    decreases |es|
  {
    if es == [] then []
    else (if IsNext(s, es[0]) then [es[0].packet] else []) + Accepted(env, Step(env, s, es[0]), es[1..])
  }

  function Payloads(ps: seq<Packet>): seq<byte> {
    if ps == [] then [] else (if ps[0].Data? then Flat(ps[0].chain) else []) + Payloads(ps[1..])
  }

  lemma {:induction false} WriteChainFate(env: Env, content: seq<byte>, writes: nat, chain: seq<seq<byte>>)
    ensures var w := WriteChain(env, content, writes, chain);
            && (w.ok ==> w.content == content + Flat(chain))
            && content <= w.content && w.content[|content|..] <= Flat(chain)
    decreases |chain|
  {
    if chain != [] && env.room(writes) >= |chain[0]| {
      WriteChainFate(env, content + chain[0], writes + 1, chain[1..]);
      var w := WriteChain(env, content, writes, chain);
      assert w.content[|content|..] == chain[0] + w.content[|content + chain[0]|..];
    }
  }

  /** A step that does not end a writing transfer: it writes the payload of an expected block, and nothing else. */
  lemma WritingStep(env: Env, s: State, e: Event)
    requires Writing(s) && Step(env, s, e).handle.Some?
    ensures var t := Step(env, s, e);
            && Writing(t) && t.handle == s.handle && t.peer == s.peer
            && t.blknum == (if IsNext(s, e) then (s.blknum + 1) % 0x1_0000 else s.blknum)
            && t.files == (if IsNext(s, e)
               then s.files[s.handle.value.name := s.files[s.handle.value.name] + Flat(e.packet.chain)] else s.files)
  {
    StepKeeps(env, s, e);
    if IsNext(s, e) { WriteChainFate(env, s.files[s.handle.value.name], s.writes, e.packet.chain); }
  }

  /** Data packets whose numbers count up from `first`, modulo 2^16. */
  ghost predicate CountUp(ps: seq<Packet>, first: nat) {
    forall i :: 0 <= i < |ps| ==> ps[i].Data? && ps[i].block == (first + i) % 0x1_0000
  }

  lemma CountUpOneMore(p: Packet, rest: seq<Packet>, first: u16)
    requires p.Data? && p.block == first && CountUp(rest, (first + 1) % 0x1_0000)
    ensures CountUp([p] + rest, first)
  {
    var ps := [p] + rest;
    forall i | 0 <= i < |ps| ensures ps[i].Data? && ps[i].block == (first + i) % 0x1_0000 {
      if i > 0 { assert ps[i] == rest[i - 1]; }
    }
  }

  lemma {:induction false} AcceptedCountUp(env: Env, s: State, es: seq<Event>)
    requires Writing(s) && StaysOpen(env, s, es)
    ensures CountUp(Accepted(env, s, es), s.blknum)
    ensures Run(env, s, es).blknum == (s.blknum + |Accepted(env, s, es)|) % 0x1_0000
    decreases |es|
  {
    if es != [] {
      var s1 := Step(env, s, es[0]);
      var rest := Accepted(env, s1, es[1..]);
      WritingStep(env, s, es[0]);
      AcceptedCountUp(env, s1, es[1..]);
      if IsNext(s, es[0]) {
        assert Accepted(env, s, es) == [es[0].packet] + rest;
        CountUpOneMore(es[0].packet, rest, s.blknum);
      } else {
        assert Accepted(env, s, es) == rest;
      }
    }
  }

  /** While a writing transfer is open, what its file has gained is the payloads of the accepted packets. */
  lemma {:induction false} WrittenOnceInOrder(env: Env, s: State, es: seq<Event>)
    requires Writing(s) && StaysOpen(env, s, es)
    ensures var t := Run(env, s, es);
            var name := s.handle.value.name;
            && Writing(t) && t.handle == s.handle && t.peer == s.peer
            && name in t.files && t.files[name] == s.files[name] + Payloads(Accepted(env, s, es))
    decreases |es|
  {
    if es != [] {
      var s1 := Step(env, s, es[0]);
      var name := s.handle.value.name;
      WritingStep(env, s, es[0]);
      WrittenOnceInOrder(env, s1, es[1..]);
      var rest := Accepted(env, s1, es[1..]);
      if IsNext(s, es[0]) {
        assert Accepted(env, s, es)[1..] == rest;
        assert s.files[name] + (Flat(es[0].packet.chain) + Payloads(rest)) == s1.files[name] + Payloads(rest);
      } else {
        assert Accepted(env, s, es) == rest;
      }
    }
  }

  /** A write request opens an empty file and waits for block 1. */
  lemma WriteRequestOpens(env: Env, s: State, from: Host, body: seq<byte>)
    requires Inv(s) && s.handle.None? && ParseRequest(body).Some? && env.writable(ParseRequest(body).value)
    ensures var t := Step(env, s, Receive(from, Request(true, body)));
            var name := ParseRequest(body).value;
            && Writing(t) && t.handle.value.name == name && t.peer == from && t.blknum == 1
               && t.files == s.files[name := []]
            && t.sent == s.sent + [Sent(from, AckOut(0))]
  {
    StepKeeps(env, s, Receive(from, Request(true, body)));
  }

  /** From the request on: the file holds the payloads of the accepted blocks 1, 2, 3, ..., each once. */
  lemma FileIsAcceptedPayloads(env: Env, s: State, from: Host, body: seq<byte>, es: seq<Event>)
    requires Inv(s) && s.handle.None? && ParseRequest(body).Some? && env.writable(ParseRequest(body).value)
    requires StaysOpen(env, Step(env, s, Receive(from, Request(true, body))), es)
    ensures var s1 := Step(env, s, Receive(from, Request(true, body)));
            var t := Run(env, s1, es);
            var name := ParseRequest(body).value;
            var ps := Accepted(env, s1, es);
            && name in t.files && t.files[name] == Payloads(ps)
            && CountUp(ps, 1)
  {
    WriteRequestOpens(env, s, from, body);
    var s1 := Step(env, s, Receive(from, Request(true, body)));
    WrittenOnceInOrder(env, s1, es);
    AcceptedCountUp(env, s1, es);
    assert [] + Payloads(Accepted(env, s1, es)) == Payloads(Accepted(env, s1, es));
  }

  /** A repeat of the previous block is acknowledged again and changes nothing else. */
  lemma RepeatOnlyAcknowledged(env: Env, s: State, from: Host, block: u16, chain: seq<seq<byte>>)
    requires Writing(s) && Covers(s.peer, from) && (block + 1) % 0x1_0000 == s.blknum
    ensures OnReceive(env, s, from, Data(block, chain))
            == s.(lastPkt := s.timer, retries := 0, sent := s.sent + [Sent(from, AckOut(block))])
  {}

  // ---- A file sent by a peer that numbers its blocks ----

  /** How many data packets a file of this length takes: the last one is short, or empty. */
  function PacketsOf(content: seq<byte>): nat { |content| / BLOCK + 1 }

  /** Any data packet that the transfer of `peer` hears carries the block of its number; anything else may
      come from anyone. */
  ghost predicate Honest(e: Event, peer: Endpoint, content: seq<byte>) {
    e.Receive? && Covers(peer, e.from) && e.packet.Data? ==>
      1 <= e.packet.block <= PacketsOf(content) && Flat(e.packet.chain) == BlockOf(content, e.packet.block)
  }

  ghost predicate AllHonest(es: seq<Event>, peer: Endpoint, content: seq<byte>) {
    forall i :: 0 <= i < |es| ==> Honest(es[i], peer, content)
  }

  /** The file holds the blocks before the one the server waits for. */
  ghost predicate HoldsBlocks(s: State, content: seq<byte>) {
    && Writing(s) && 1 <= s.blknum <= PacketsOf(content)
    && s.files[s.handle.value.name] == content[..BLOCK * (s.blknum - 1)]
  }

  lemma BlockExtends(content: seq<byte>, k: nat)
    requires 1 <= k <= PacketsOf(content)
    ensures BLOCK * (k - 1) <= |content|
    ensures |BlockOf(content, k)| < BLOCK <==> k == PacketsOf(content)
    ensures content[..BLOCK * (k - 1)] + BlockOf(content, k)
            == if k == PacketsOf(content) then content else content[..BLOCK * k]
  {
    var from := BLOCK * (k - 1);
    if k == PacketsOf(content) {
      assert content[..from] + content[from..] == content;
    } else {
      assert content[..from] + content[from..from + BLOCK] == content[..from + BLOCK];
    }
  }

  lemma StepHolds(env: Env, s: State, e: Event, content: seq<byte>)
    requires HoldsBlocks(s, content) && Honest(e, s.peer, content) && PacketsOf(content) < 0x1_0000
    requires Step(env, s, e).handle.Some?
    ensures HoldsBlocks(Step(env, s, e), content) && Step(env, s, e).peer == s.peer
            && Step(env, s, e).handle == s.handle
  {
    WritingStep(env, s, e);
    if IsNext(s, e) {
      assert Covers(s.peer, e.from);
      BlockExtends(content, s.blknum);
      NotShort(env, s, e);
    }
  }

  /** A short block ends the transfer. */
  lemma NotShort(env: Env, s: State, e: Event)
    requires Writing(s) && IsNext(s, e) && Step(env, s, e).handle.Some?
    ensures |Flat(e.packet.chain)| >= BLOCK
  {}

  lemma {:induction false} RunHolds(env: Env, s: State, es: seq<Event>, content: seq<byte>)
    requires HoldsBlocks(s, content) && AllHonest(es, s.peer, content) && PacketsOf(content) < 0x1_0000
             && StaysOpen(env, s, es)
    ensures var t := Run(env, s, es); HoldsBlocks(t, content) && t.peer == s.peer && t.handle == s.handle
    decreases |es|
  {
    if es != [] {
      assert Honest(es[0], s.peer, content);
      StepHolds(env, s, es[0], content);
      assert AllHonest(es[1..], s.peer, content) by {
        forall i | 0 <= i < |es[1..]| ensures Honest(es[1..][i], s.peer, content) { assert es[1..][i] == es[i + 1]; }
      }
      RunHolds(env, Step(env, s, es[0]), es[1..], content);
    }
  }

  /** The step that ends the transfer leaves a prefix of the file, and the whole file exactly if it is the
      last block and every byte of it could be written. */
  lemma ClosingStep(env: Env, s: State, e: Event, content: seq<byte>)
    requires HoldsBlocks(s, content) && Honest(e, s.peer, content) && PacketsOf(content) < 0x1_0000
    requires Step(env, s, e).handle.None?
    ensures var t := Step(env, s, e);
            var name := s.handle.value.name;
            && name in t.files && t.files[name] <= content
            && (|t.sent| > |s.sent| && t.sent[|t.sent| - 1].out.AckOut? ==> t.files[name] == content)
            && (IsNext(s, e) && WriteChain(env, s.files[name], s.writes, e.packet.chain).ok ==>
                  t.files[name] == content && t.sent == s.sent + [Sent(e.from, AckOut(s.blknum))])
  {
    var name := s.handle.value.name;
    BlockExtends(content, s.blknum);
    if IsNext(s, e) {
      assert Covers(s.peer, e.from);
      WriteChainFate(env, s.files[name], s.writes, e.packet.chain);
      PrefixOfFile(s.files[name], Flat(e.packet.chain),
        WriteChain(env, s.files[name], s.writes, e.packet.chain).content, content);
    }
  }

  lemma PrefixOfFile(before: seq<byte>, payload: seq<byte>, after: seq<byte>, content: seq<byte>)
    requires before <= after && after[|before|..] <= payload && before + payload <= content
    ensures after <= content
  {
    assert after == before + after[|before|..];
  }

  /** From a write request to the end of the transfer, over any network: the file on the server is a
      prefix of the peer's at every moment, and when the last packet sent is the acknowledgement that ended
      the transfer it is the whole file. */
  lemma AcknowledgedFileIsWhole(env: Env, s: State, from: Host, body: seq<byte>, es: seq<Event>, e: Event,
      content: seq<byte>)
    requires Inv(s) && s.handle.None? && ParseRequest(body).Some? && env.writable(ParseRequest(body).value)
    requires PacketsOf(content) < 0x1_0000 && AllHonest(es + [e], from, content)
    requires StaysOpen(env, Step(env, s, Receive(from, Request(true, body))), es)
    ensures var s1 := Run(env, Step(env, s, Receive(from, Request(true, body))), es);
            var t := Step(env, s1, e);
            var name := ParseRequest(body).value;
            && name in s1.files && s1.files[name] <= content
            && name in t.files && t.files[name] <= content
            && (t.handle.None? && |t.sent| > |s1.sent| && t.sent[|t.sent| - 1].out.AckOut? ==> t.files[name] == content)
  {
    WriteRequestOpens(env, s, from, body);
    var s0 := Step(env, s, Receive(from, Request(true, body)));
    assert Honest((es + [e])[|es|], from, content);
    assert AllHonest(es, from, content) by {
      forall i | 0 <= i < |es| ensures Honest(es[i], from, content) { assert es[i] == (es + [e])[i]; }
    }
    RunHolds(env, s0, es, content);
    var s1 := Run(env, s0, es);
    if Step(env, s1, e).handle.None? { ClosingStep(env, s1, e, content); } else { StepHolds(env, s1, e, content); }
  }

  /** A late write request, such as a duplicate of the first that the network held back, empties the file
      again; no other packet that finds the server idle touches a file. */
  lemma LateRequestEmptiesFile(env: Env, s: State, from: Host, p: Packet, name: seq<byte>)
    requires Inv(s) && s.handle.None? && name in s.files
    ensures var t := OnReceive(env, s, from, p);
            && name in t.files
            && (t.files[name] != s.files[name] <==>
                  p.Request? && p.write && ParseRequest(p.body) == Some(name) && env.writable(name)
                    && s.files[name] != [])
            && (t.files[name] != s.files[name] ==> t.files[name] == [])
  {}
}
