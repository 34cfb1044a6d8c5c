// The TFTP server: what each packet and each timer tick does to its state.

module TftpModel {
  import opened Lists
  import opened Bytes

  const BLOCK := 512
  const MAX_NAME := 20
  const MAX_MODE := 10
  const MAX_RETRIES := 5
  const TIMEOUT_TICKS := 10

  const NOT_FOUND := 1
  const ACCESS_VIOLATION := 2
  const ILLEGAL_OPERATION := 4
  const UNKNOWN_ID := 5

  type u16 = x: int | 0 <= x < 0x1_0000

  /** An address and a port; zero stands for "any". */
  datatype Endpoint = Endpoint(addr: nat, port: nat)

  const Nobody := Endpoint(0, 0)

  /** Where a packet can come from; a source port of zero is legal in UDP. */
  type Host = e: Endpoint | e.addr > 0 witness Endpoint(1, 1)

  /** A received packet; the body of a request starts after the opcode, and the payload of a data packet
      is a chain of buffers. */
  datatype Packet = Request(write: bool, body: seq<byte>) | Data(block: u16, chain: seq<seq<byte>>) | Ack(block: u16)
    | Error | Unknown

  datatype Out = DataOut(block: u16, bytes: seq<byte>) | AckOut(block: u16) | ErrorOut(code: nat)

  datatype Sent = Sent(to: Endpoint, out: Out)

  datatype Block = Block(block: u16, bytes: seq<byte>)

  datatype Handle = Handle(name: seq<byte>, pos: nat)

  datatype Event = Receive(from: Host, packet: Packet) | Tick

  /** What the file system decides: which names can be opened for writing, and how many bytes the i-th
      `fwrite` can take. */
  datatype Env = Env(writable: seq<byte> -> bool, room: nat -> nat)

  /** `pending` counts the entries for the server's timer in the stack's timer list. */
  datatype State = State(
    handle: Option<Handle>, last: Option<Block>, peer: Endpoint, timer: int, lastPkt: int, blknum: u16,
    retries: nat, modeWrite: bool, pending: nat,
    files: map<seq<byte>, seq<byte>>, writes: nat, sent: seq<Sent>)

  function Initial(files: map<seq<byte>, seq<byte>>): State {
    State(None, None, Nobody, 0, 0, 0, 0, false, 0, files, 0, [])
  }

  // ---- Requests ----

  /** The offset of the first zero byte at or after `from`. */
  function FindZero(body: seq<byte>, from: nat): (r: Option<nat>)
    ensures r.Some? ==>
              from <= r.value < |body| && body[r.value] == 0 && forall i :: from <= i < r.value ==> body[i] != 0
    ensures r.None? ==> forall i :: from <= i < |body| ==> body[i] != 0
    decreases |body| - from
  {
    if from >= |body| then None else if body[from] == 0 then Some(from) else FindZero(body, from + 1)
  }

  /** The file name of a request, if both its name and its mode end in time. */
  function ParseRequest(body: seq<byte>): Option<seq<byte>> {
    match FindZero(body, 0)
    case None => None
    case Some(n) =>
      if n > MAX_NAME then None
      else match FindZero(body, n + 1)
        case None => None
        case Some(m) => if m - n - 1 > MAX_MODE then None else Some(body[..n])
  }

  // ---- Sending ----

  function Send(s: State, to: Endpoint, out: Out): State { s.(sent := s.sent + [Sent(to, out)]) }

  function Close(s: State): State {
    s.(handle := None, last := None, peer := Nobody, pending := if s.pending > 0 then s.pending - 1 else 0)
  }

  /** At most one block from position `pos` on. */
  function Chunk(content: seq<byte>, pos: nat): seq<byte> {
    if pos >= |content| then [] else if pos + BLOCK <= |content| then content[pos..pos + BLOCK] else content[pos..]
  }

  function Content(s: State, name: seq<byte>): seq<byte> { if name in s.files then s.files[name] else [] }

  /** Reads the next block and sends it; reading no bytes is an error. */
  function SendData(s: State, to: Endpoint): State
    requires s.handle.Some?
  {
    var h := s.handle.value;
    var chunk := Chunk(Content(s, h.name), h.pos);
    if chunk == [] then Close(Send(s, to, ErrorOut(ACCESS_VIOLATION)))
    else Send(s.(last := Some(Block(s.blknum, chunk)), handle := Some(h.(pos := h.pos + |chunk|))), to,
      DataOut(s.blknum, chunk))
  }

  // ---- Writing ----

  function Flat(chain: seq<seq<byte>>): seq<byte> {
    if chain == [] then [] else chain[0] + Flat(chain[1..])
  }

  datatype Written = Written(content: seq<byte>, writes: nat, ok: bool)

  /** Writes a chain of buffers one by one, up to the first that does not fit. */
  function WriteChain(env: Env, content: seq<byte>, writes: nat, chain: seq<seq<byte>>): Written
    decreases |chain|
  {
    if chain == [] then Written(content, writes, true)
    else if env.room(writes) < |chain[0]| then Written(content + chain[0][..env.room(writes)], writes + 1, false)
    else WriteChain(env, content + chain[0], writes + 1, chain[1..])
  }

  // ---- Packets ----

  /** A packet that is not from the peer of the transfer in progress. */
  predicate Foreign(s: State, from: Endpoint) {
    (s.peer.port != 0 && from.port != s.peer.port) || (s.peer.addr != 0 && s.peer.addr != from.addr)
  }

  /** Opens the file and answers the request. */
  function Open(env: Env, s: State, from: Host, write: bool, name: seq<byte>): State {
    var s1 := s.(blknum := 1);
    if write then
      if env.writable(name)
      then Send(s1.(handle := Some(Handle(name, 0)), files := s.files[name := []], peer := from, modeWrite := true),
        from, AckOut(0))
      else Send(s1, from, ErrorOut(NOT_FOUND))
    else
      if name in s.files
      then SendData(s1.(handle := Some(Handle(name, 0)), peer := from, modeWrite := false), from)
      else Send(s1, from, ErrorOut(NOT_FOUND))
  }

  /** The timer is started before the request is looked at. */
  function OnRequest(env: Env, s: State, from: Host, write: bool, body: seq<byte>): State {
    if s.handle.Some? then Send(s, from, ErrorOut(ACCESS_VIOLATION))
    else
      var s1 := s.(pending := s.pending + 1);
      match ParseRequest(body)
      case None => Send(s1, from, ErrorOut(ACCESS_VIOLATION))
      case Some(name) => Open(env, s1, from, write, name)
  }

  /** The expected block: it is written, and acknowledged unless writing fails; a short one ends the transfer. */
  function Accept(env: Env, s: State, from: Host, chain: seq<seq<byte>>): State
    requires s.handle.Some?
  {
    var name := s.handle.value.name;
    var w := WriteChain(env, Content(s, name), s.writes, chain);
    var s1 := s.(files := s.files[name := w.content], writes := w.writes);
    var s2 := if w.ok then Send(s1, from, AckOut(s.blknum)) else Close(Send(s1, from, ErrorOut(ACCESS_VIOLATION)));
    if |Flat(chain)| < BLOCK then Close(s2) else s2.(blknum := (s.blknum + 1) % 0x1_0000)
  }

  function OnData(env: Env, s: State, from: Host, block: u16, chain: seq<seq<byte>>): State {
    if s.handle.None? || !s.modeWrite then Send(s, from, ErrorOut(ACCESS_VIOLATION))
    else if block == s.blknum then Accept(env, s, from, chain)
    else if (block + 1) % 0x1_0000 == s.blknum then Send(s, from, AckOut(block))
    else Send(s, from, ErrorOut(UNKNOWN_ID))
  }

  function OnAck(s: State, from: Host, block: u16): State {
    if s.handle.None? || s.modeWrite then Send(s, from, ErrorOut(ACCESS_VIOLATION))
    else if block != s.blknum then Send(s, from, ErrorOut(UNKNOWN_ID))
    else if s.last.Some? && |s.last.value.bytes| != BLOCK then Close(s)
    else SendData(s.(blknum := (s.blknum + 1) % 0x1_0000), from)
  }

  function OnReceive(env: Env, s: State, from: Host, p: Packet): State {
    if Foreign(s, from) then Send(s, from, ErrorOut(ACCESS_VIOLATION))
    else
      var s1 := s.(lastPkt := s.timer, retries := 0);
      match p
      case Request(write, body) => OnRequest(env, s1, from, write, body)
      case Data(block, chain) => OnData(env, s1, from, block, chain)
      case Ack(block) => OnAck(s1, from, block)
      case Error => if s.handle.Some? then Close(s1) else s1
      case Unknown => Send(s1, from, ErrorOut(ILLEGAL_OPERATION))
  }

  // ---- The timer ----

  /** One entry of the timer list expires. */
  function OnTick(s: State): State {
    if s.pending == 0 then s
    else if s.handle.None? then s.(timer := s.timer + 1, pending := s.pending - 1)
    else
      var s1 := s.(timer := s.timer + 1);
      if s1.timer - s.lastPkt <= TIMEOUT_TICKS then s1
      else if s.last.Some? && s.retries < MAX_RETRIES
      then Send(s1.(retries := s.retries + 1), s.peer, DataOut(s.last.value.block, s.last.value.bytes))
      else Close(s1)
  }

  function Step(env: Env, s: State, e: Event): State {
    match e
    case Receive(from, p) => OnReceive(env, s, from, p)
    case Tick => OnTick(s)
  }

  function Run(env: Env, s: State, es: seq<Event>): State
    decreases |es|
  {
    if es == [] then s else Run(env, Step(env, s, es[0]), es[1..])
  }
}
