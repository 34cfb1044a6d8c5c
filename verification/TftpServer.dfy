// The TFTP server as it is: one static record that every packet and every tick updates in place.

module TftpServer {
  import opened Lists
  import opened Bytes
  import opened TftpModel
  import opened TftpRuns

  class Tftp {
    const env: Env
    var handle: Option<Handle>
    var last: Option<Block>
    var peer: Endpoint
    var timer: int
    var lastPkt: int
    var blknum: u16
    var retries: nat
    var modeWrite: bool
    var pending: nat
    var files: map<seq<byte>, seq<byte>>
    var writes: nat
    var sent: seq<Sent>

    ghost function Abs(): State
      reads this
    {
      State(handle, last, peer, timer, lastPkt, blknum, retries, modeWrite, pending, files, writes, sent)
    }

    ghost predicate Valid()
      reads this
    {
      Inv(Abs())
    }

    constructor (env: Env, files: map<seq<byte>, seq<byte>>)
      ensures Valid() && Abs() == Initial(files) && this.env == env
    {
      this.env, this.files := env, files;
      handle, last, peer, timer, lastPkt, blknum := None, None, Nobody, 0, 0, 0;
      retries, modeWrite, pending, writes, sent := 0, false, 0, 0, [];
    }

    method Send(to: Endpoint, out: Out)
      modifies this`sent
      ensures Abs() == TftpModel.Send(old(Abs()), to, out)
    {
      sent := sent + [Sent(to, out)];
    }

    method CloseHandle()
      modifies this`peer, this`last, this`pending, this`handle
      ensures Abs() == Close(old(Abs()))
    {
      peer := Nobody;
      last := None;
      if pending > 0 { pending := pending - 1; }
      handle := None;
    }

    method ResendData(to: Endpoint)
      requires last.Some?
      modifies this`sent
      ensures Abs() == TftpModel.Send(old(Abs()), to, DataOut(last.value.block, last.value.bytes))
    {
      Send(to, DataOut(last.value.block, last.value.bytes));
    }

    /** Reads up to a block from the open file and moves its position on; reading nothing is an error. */
    method Read() returns (bytes: seq<byte>)
      requires handle.Some? && handle.value.name in files
      modifies this`handle
      ensures handle.Some? && bytes == Chunk(files[old(handle).value.name], old(handle).value.pos)
      ensures handle.value == old(handle).value.(pos := old(handle).value.pos + |bytes|)
    {
      bytes := Chunk(files[handle.value.name], handle.value.pos);
      handle := Some(handle.value.(pos := handle.value.pos + |bytes|));
    }

    method SendData(to: Endpoint)
      requires handle.Some? && handle.value.name in files
      modifies this`last, this`handle, this`sent, this`peer, this`pending
      ensures Abs() == TftpModel.SendData(old(Abs()), to)
    {
      var bytes := Read();
      last := Some(Block(blknum, bytes));
      if bytes == [] {
        Send(to, ErrorOut(ACCESS_VIOLATION));
        CloseHandle();
      } else {
        ResendData(to);
      }
    }

    /** Writes the buffers of a chain one after the other, until one does not fit. */
    method Write(chain: seq<seq<byte>>) returns (ok: bool)
      requires handle.Some? && handle.value.name in files
      modifies this`files, this`writes
      ensures var w := WriteChain(env, old(files)[handle.value.name], old(writes), chain);
              files == old(files)[handle.value.name := w.content] && writes == w.writes && ok == w.ok
    {
      var name := handle.value.name;
      var content := files[name];
      var i := 0;
      ok := true;
      assert chain[i..] == chain;
      while ok && i < |chain|
        invariant 0 <= i <= |chain| && files == old(files)
        invariant var w := WriteChain(env, old(files)[name], old(writes), chain);
                  if ok then WriteChain(env, content, writes, chain[i..]) == w else w == Written(content, writes, false)
      {
        var taken := env.room(writes);
        writes := writes + 1;
        if taken < |chain[i]| {
          content := content + chain[i][..taken];
          ok := false;
        } else {
          content := content + chain[i];
          assert chain[i..][1..] == chain[i + 1..];
          i := i + 1;
        }
      }
      assert ok ==> chain[i..] == [];
      files := files[name := content];
    }

    method OpenFile(from: Host, write: bool, name: seq<byte>)
      modifies this
      ensures Abs() == Open(env, old(Abs()), from, write, name)
    {
      blknum := 1;
      if write && env.writable(name) {
        handle, files := Some(Handle(name, 0)), files[name := []];
        peer, modeWrite := from, true;
        Send(from, AckOut(0));
      } else if !write && name in files {
        handle := Some(Handle(name, 0));
        peer, modeWrite := from, false;
        SendData(from);
      } else {
        Send(from, ErrorOut(NOT_FOUND));
      }
    }

    method OnRequest(from: Host, write: bool, body: seq<byte>)
      modifies this
      ensures Abs() == TftpModel.OnRequest(env, old(Abs()), from, write, body)
    {
      if handle.Some? {
        Send(from, ErrorOut(ACCESS_VIOLATION));
        return;
      }
      pending := pending + 1;
      var name := ParseRequest(body);
      if name.None? {
        Send(from, ErrorOut(ACCESS_VIOLATION));
      } else {
        OpenFile(from, write, name.value);
      }
    }

    method Accept(from: Host, chain: seq<seq<byte>>)
      requires handle.Some? && handle.value.name in files
      modifies this
      ensures Abs() == TftpModel.Accept(env, old(Abs()), from, chain)
    {
      var ok := Write(chain);
      if ok {
        Send(from, AckOut(blknum));
      } else {
        Send(from, ErrorOut(ACCESS_VIOLATION));
        CloseHandle();
      }
      if |Flat(chain)| < BLOCK { CloseHandle(); } else { blknum := (blknum + 1) % 0x1_0000; }
    }

    method OnData(from: Host, block: u16, chain: seq<seq<byte>>)
      requires handle.Some? ==> handle.value.name in files
      modifies this
      ensures Abs() == TftpModel.OnData(env, old(Abs()), from, block, chain)
    {
      if handle.None? || !modeWrite {
        Send(from, ErrorOut(ACCESS_VIOLATION));
      } else if block == blknum {
        Accept(from, chain);
      } else if (block + 1) % 0x1_0000 == blknum {
        Send(from, AckOut(block));
      } else {
        Send(from, ErrorOut(UNKNOWN_ID));
      }
    }

    method OnAck(from: Host, block: u16)
      requires handle.Some? ==> handle.value.name in files
      modifies this
      ensures Abs() == TftpModel.OnAck(old(Abs()), from, block)
    {
      if handle.None? || modeWrite {
        Send(from, ErrorOut(ACCESS_VIOLATION));
      } else if block != blknum {
        Send(from, ErrorOut(UNKNOWN_ID));
      } else if last.Some? && |last.value.bytes| != BLOCK {
        CloseHandle();
      } else {
        blknum := (blknum + 1) % 0x1_0000;
        SendData(from);
      }
    }

    method Receive(from: Host, p: Packet)
      requires Valid()
      modifies this
      ensures Valid() && Abs() == Step(env, old(Abs()), Event.Receive(from, p))
    {
      StepKeeps(env, Abs(), Event.Receive(from, p));
      if (peer.port != 0 && from.port != peer.port) || (peer.addr != 0 && peer.addr != from.addr) {
        Send(from, ErrorOut(ACCESS_VIOLATION));
        return;
      }
      lastPkt, retries := timer, 0;
      match p {
        case Request(write, body) => OnRequest(from, write, body);
        case Data(block, chain) => OnData(from, block, chain);
        case Ack(block) => OnAck(from, block);
        case Error => if handle.Some? { CloseHandle(); }
        case Unknown => Send(from, ErrorOut(ILLEGAL_OPERATION));
      }
    }

    /** An entry of the timer list has expired. */
    method Tick()
      requires Valid() && pending > 0
      modifies this
      ensures Valid() && Abs() == Step(env, old(Abs()), Event.Tick)
    {
      StepKeeps(env, Abs(), Event.Tick);
      pending := pending - 1;
      timer := timer + 1;
      if handle.None? { return; }
      pending := pending + 1;
      if timer - lastPkt > TIMEOUT_TICKS {
        if last.Some? && retries < MAX_RETRIES {
          ResendData(peer);
          retries := retries + 1;
        } else {
          CloseHandle();
        }
      }
    }
  }
}
