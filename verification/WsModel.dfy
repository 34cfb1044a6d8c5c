// The WebSocket API server: its records, its lists and what each mutex-held section does to them.
//
// An address is a key of one of the maps below, and `free` removes the key, so a stale pointer is
// an address that is no longer a key.  Reading or freeing such an address sets `fault`.

module WsModel {
  import opened Lists
  import opened Bytes

  const PING_DELAY := 1000
  const REPLY_DEPTH := 10

  const BUSY := 0x3
  const INVALID := 0x4
  const DELIVERED := 0x5
  const BAD_REQ := 0x8000_0000
  const NO_HANDLER := 0x8000_000E

  /** One client.  `heardAt` and `pingedAt` are not in the firmware: they keep the unwrapped times behind
      `aliveAt` and `pingAt`. */
  datatype Session = Session(fd: int, aliveAt: int, pingAt: int, heardAt: nat, pingedAt: nat)

  function NewSession(env: Env, fd: int, reading: nat): Session {
    Session(fd, env.Tick(reading), env.Tick(reading), env.clock(reading), env.clock(reading))
  }

  function Pinged(env: Env, sess: Session, reading: nat): Session {
    sess.(pingAt := env.Tick(reading), pingedAt := env.clock(reading))
  }

  function Heard(env: Env, sess: Session, reading: nat): Session {
    sess.(aliveAt := env.Tick(reading), heardAt := env.clock(reading))
  }

  /** One API call.  `serial` and `repliedAt` are not in the firmware: they name the call across
      reuse of its address, and keep the unwrapped time of its last reply. */
  datatype Call = Call(
    serial: nat, session: Option<Ptr>, data: Option<Ptr>, len: nat, id: nat, fid: nat, pending: nat,
    isNew: bool, longTerm: bool, toDelete: bool, handled: bool,
    interval: nat, nextPoll: int, repliedAt: Option<nat>)

  /** A message to a peripheral (`queue` is its destination) or from one. */
  datatype Msg = Msg(queue: nat, fid: nat, id: nat, data: Option<Ptr>, len: nat)

  datatype Body = Ping | Status(code: nat) | Said(said: seq<byte>) | Reply(reply: seq<byte>)
    | Group(fid: nat, json: seq<byte>)

  /** One attempt to send; `ok` tells whether the transport queued it. */
  datatype Frame = Frame(session: Ptr, serial: nat, body: Body, ok: bool)

  datatype State = State(
    calls: map<Ptr, Call>, blocks: map<Ptr, seq<byte>>, sessions: map<Ptr, Session>,
    active: seq<Ptr>, waiting: seq<Ptr>,
    handlers: set<nat>, routes: map<nat, nat>,
    posted: seq<Msg>, replies: seq<Msg>, inHand: Option<Msg>,
    log: seq<Frame>, clockReads: nat, created: nat, fault: bool)

  const Initial := State(map[], map[], map[], [], [], {}, map[], [], [], None, [], 0, 0, false)

  datatype HandlerOp = Say(json: seq<byte>) | Finish

  /** What the firmware does not decide: whether the i-th send is queued, what the i-th clock
      reading is (unwrapped), where `malloc` puts a record, how deep each queue is, the tick rate,
      and what a registered handler does with its own call. */
  datatype Env = Env(
    accepts: nat -> bool, clock: nat -> nat, malloc: set<Ptr> -> Ptr, depth: nat -> nat,
    toTicks: nat -> nat, handler: (Call, seq<byte>, nat) -> seq<HandlerOp>)
  {
    function Tick(i: nat): int { Wrap(clock(i)) }

    /** `malloc` returns an address that is not in use, and the clock does not run backwards. */
    ghost predicate Fair() {
      && (forall used: set<Ptr> :: malloc(used) !in used)
      && (forall i: nat, j: nat :: i <= j ==> clock(i) <= clock(j))
    }
  }

  /** The fields of a text frame after JSON parsing; absent properties are `None`. */
  datatype Request = Malformed
    | Parsed(fid: int, arg: Option<seq<byte>>, rdl: Option<int>, flags: Option<int>, sid: Option<int>)

  datatype Event =
    | Connect(fd: int)
    | Alive(x: Ptr)
    | Text(x: Ptr, req: Request)
    | Disconnect(x: Ptr)
    | SendDone(failed: bool, fd: int, locked: bool)
    | Register(fid: nat, locked: bool)
    | Unregister(fid: nat, locked: bool)
    | Route(fid: nat, queue: nat, locked: bool)
    | Complete(p: Ptr)
    | GroupSend(fid: nat, json: seq<byte>)
    | CollectGarbage
    | Forward
    | Receive
    | DeliverReply
    | Take(queue: nat)
    | Answer(fid: nat, id: nat, payload: seq<byte>)

  // ---- Memory and lists ----

  function Fault(s: State): State { s.(fault := true) }

  function SetCall(s: State, p: Ptr, c: Call): State { s.(calls := s.calls[p := c]) }

  function FreeBlock(s: State, o: Option<Ptr>): State {
    match o
    case None => s
    case Some(b) => if b in s.blocks then s.(blocks := s.blocks - {b}) else Fault(s)
  }

  function Unlink(s: State, p: Ptr): State {
    s.(active := Without(s.active, p), waiting := Without(s.waiting, p))
  }

  /** Unlinks a call and frees its record only. */
  function Drop(s: State, p: Ptr): State {
    if p !in s.calls then Fault(s) else Unlink(s, p).(calls := s.calls - {p})
  }

  /** Unlinks a call and frees its request data and its record. */
  function Release(s: State, p: Ptr): State {
    if p !in s.calls then Fault(s)
    else Unlink(FreeBlock(s, s.calls[p].data), p).(calls := s.calls - {p})
  }

  function ReleaseAll(s: State, ps: seq<Ptr>): State
    decreases |ps|
  {
    if ps == [] then s else ReleaseAll(Release(s, ps[0]), ps[1..])
  }

  function Cut(s: State, p: Ptr): State {
    if p !in s.calls then Fault(s) else SetCall(s, p, s.calls[p].(session := None))
  }

  // ---- Which calls a search matches ----

  function Live(s: State): set<Ptr> { set p | p in s.calls && s.calls[p].session.Some? }

  function LiveFid(s: State, fid: nat): set<Ptr> {
    set p | p in s.calls && s.calls[p].session.Some? && s.calls[p].fid == fid
  }

  function LiveId(s: State, id: nat): set<Ptr> {
    set p | p in s.calls && s.calls[p].session.Some? && s.calls[p].id == id
  }

  predicate OnFd(s: State, c: Call, fd: int) {
    c.session.Some? && c.session.value in s.sessions && s.sessions[c.session.value].fd == fd
  }

  function SameClientId(s: State, fd: int, fid: nat, id: nat): set<Ptr> {
    set p | p in s.calls && OnFd(s, s.calls[p], fd) && s.calls[p].fid == fid && s.calls[p].id == id
  }

  function BreakFd(s: State, fd: int): State {
    s.(calls := map p | p in s.calls :: if OnFd(s, s.calls[p], fd) then s.calls[p].(session := None) else s.calls[p])
  }

  function BreakFid(s: State, fid: nat): State {
    s.(calls := map p | p in s.calls :: if s.calls[p].fid == fid then s.calls[p].(session := None) else s.calls[p])
  }

  // ---- Sending ----

  /** One send to the session of call `p`, if it still has one. */
  function Emit(env: Env, s: State, p: Ptr, body: Body): State {
    if p !in s.calls then Fault(s)
    else match s.calls[p].session
      case None => s
      case Some(x) =>
        if x !in s.sessions then Fault(s)
        else s.(log := s.log + [Frame(x, s.calls[p].serial, body, env.accepts(|s.log|))])
  }

  predicate Sent(env: Env, s: State, p: Ptr) {
    p in s.calls && s.calls[p].session.Some? && env.accepts(|s.log|)
  }

  function EmitAll(env: Env, s: State, ps: seq<Ptr>, body: Body): State
    decreases |ps|
  {
    if ps == [] then s else EmitAll(env, Emit(env, s, ps[0], body), ps[1..], body)
  }

  function SendToGroup(env: Env, s: State, fid: nat, json: seq<byte>): State {
    if fid == 0 then s
    else EmitAll(env, s, Select(s.waiting, LiveFid(s, fid)) + Select(s.active, LiveFid(s, fid)), Group(fid, json))
  }

  function CompleteCall(s: State, p: Ptr): State {
    if p !in s.active && p !in s.waiting then s
    else if p !in s.calls then Fault(s)
    else
      var c := s.calls[p];
      var left := if c.pending > 0 then c.pending - 1 else 0;
      SetCall(s, p, c.(pending := left, session := if left == 0 then None else c.session))
  }

  // ---- Worker pass 1: keep-alive and clean-up ----

  /** Nothing to do for a client heard from, or pinged, within the ping delay. */
  predicate RecentlySeen(env: Env, s: State, sess: Session) {
    var now := env.Tick(s.clockReads);
    Since(now, sess.aliveAt) < PING_DELAY || Since(now, sess.pingAt) < PING_DELAY
  }

  /** A ping goes to the session directly, and not through the call. */
  function SendPing(env: Env, s: State, p: Ptr, x: Ptr): State
    requires p in s.calls
  {
    s.(log := s.log + [Frame(x, s.calls[p].serial, Ping, env.accepts(|s.log|))])
  }

  function PingCall(env: Env, s: State, p: Ptr, x: Ptr): State
    requires x in s.sessions && p in s.calls
  {
    var s1 := SendPing(env, s, p, x);
    if env.accepts(|s.log|)
    then s1.(sessions := s.sessions[x := Pinged(env, s.sessions[x], s.clockReads)], clockReads := s.clockReads + 1)
    else CompleteCall(s1, p)
  }

  function PingUnless(env: Env, s: State, p: Ptr, x: Ptr, seen: bool): State
    requires x in s.sessions && p in s.calls
  {
    if seen then s else PingCall(env, s, p, x)
  }

  function ServeLive(env: Env, s: State, p: Ptr, x: Ptr): State
    requires x in s.sessions && p in s.calls
  {
    PingUnless(env, s.(clockReads := s.clockReads + 1), p, x, RecentlySeen(env, s, s.sessions[x]))
  }

  function ServeOne(env: Env, s: State, p: Ptr): State {
    if p !in s.calls then Fault(s)
    else match s.calls[p].session
      case None => Release(s, p)
      case Some(x) =>
        if x !in s.sessions then Fault(s) else ServeLive(env, s, p, x)
  }

  function ServeAll(env: Env, s: State, ps: seq<Ptr>): State
    decreases |ps|
  {
    if ps == [] then s else ServeAll(env, ServeOne(env, s, ps[0]), ps[1..])
  }

  function ServePass(env: Env, s: State): State {
    var s1 := ServeAll(env, s, s.active);
    ServeAll(env, s1, s1.waiting)
  }

  // ---- Worker pass 2: forward active calls to peripherals ----

  function {:tailrecursion false} QueueLen(ms: seq<Msg>, queue: nat): nat {
    if ms == [] then 0 else (if ms[0].queue == queue then 1 else 0) + QueueLen(ms[1..], queue)
  }

  /** A call whose message the peripheral queue has no room for. */
  function Refuse(env: Env, s: State, p: Ptr): State { Cut(Emit(env, s, p, Status(BUSY)), p) }

  predicate HasRoom(env: Env, s: State, queue: nat) { QueueLen(s.posted, queue) < env.depth(queue) }

  /** A long-term call sends a copy of its data and keeps its own. */
  function PostCopy(env: Env, s: State, p: Ptr, queue: nat): State {
    if p !in s.calls then Fault(s)
    else
      var c := s.calls[p];
      if c.data.Some? && c.len > 0 then
        if c.data.value !in s.blocks then Fault(s)
        else
          var b := env.malloc(s.blocks.Keys);
          var s1 := s.(blocks := s.blocks[b := s.blocks[c.data.value]]);
          if HasRoom(env, s, queue)
          then s1.(posted := s1.posted + [Msg(queue, c.fid, c.id, Some(b), c.len)])
          else Refuse(env, FreeBlock(s1, Some(b)), p)
      else if HasRoom(env, s, queue)
      then s.(posted := s.posted + [Msg(queue, c.fid, c.id, None, c.len)])
      else Refuse(env, s, p)
  }

  /** Any other call hands its data over. */
  function PostOwn(env: Env, s: State, p: Ptr, queue: nat): State {
    if p !in s.calls then Fault(s)
    else
      var c := s.calls[p];
      if HasRoom(env, s, queue)
      then SetCall(s, p, c.(data := None)).(posted := s.posted + [Msg(queue, c.fid, c.id, c.data, c.len)])
      else Refuse(env, s, p)
  }

  function Post(env: Env, s: State, p: Ptr, queue: nat): State {
    if p !in s.calls then Fault(s)
    else if s.calls[p].longTerm then PostCopy(env, s, p, queue) else PostOwn(env, s, p, queue)
  }

  function ToWaiting(s: State, p: Ptr): State {
    var s1 := Unlink(s, p);
    s1.(waiting := s1.waiting + [p])
  }

  function ToActive(s: State, p: Ptr): State {
    var s1 := Unlink(s, p);
    s1.(active := s1.active + [p])
  }

  /** The DELIVERED status of a call that has not been acknowledged yet. */
  function Acknowledge(env: Env, s: State, p: Ptr): State {
    if p !in s.calls then Fault(s)
    else if !s.calls[p].isNew then s
    else
      var s1 := Emit(env, s, p, Status(DELIVERED));
      if Sent(env, s, p) then SetCall(s1, p, s.calls[p].(isNew := false)) else s1
  }

  /** The calls of the same client, FID and SID as the delete request `p`, waiting ones first. */
  function Doomed(s: State, p: Ptr): seq<Ptr> {
    if p !in s.calls || s.calls[p].session.None? || s.calls[p].session.value !in s.sessions then []
    else
      var key := SameClientId(s, s.sessions[s.calls[p].session.value].fd, s.calls[p].fid, s.calls[p].id) - {p};
      Select(s.waiting, key) + Select(s.active, key)
  }

  /** The first half of a delete request: it is acknowledged, and its victims are freed. */
  function Purge(env: Env, s: State, p: Ptr): State {
    if p !in s.calls then Fault(s)
    else
      var s1 := Emit(env, s, p, Status(DELIVERED));
      if s.calls[p].session.Some? then ReleaseAll(Cut(s1, p), Doomed(s1, p)) else s1
  }

  function Delete(env: Env, s: State, p: Ptr): State {
    Release(Purge(env, s, p), p)
  }

  predicate Acknowledged(c: Call) { c.longTerm && !c.isNew }

  predicate Throttled(env: Env, s: State, c: Call) {
    Acknowledged(c) && Before(env.Tick(s.clockReads), c.nextPoll)
  }

  /** The clock is read only for acknowledged long-term calls. */
  function ReadClock(s: State, c: Call): State {
    if Acknowledged(c) then s.(clockReads := s.clockReads + 1) else s
  }

  function Dispatch(env: Env, s: State, p: Ptr): State {
    if p !in s.calls then Fault(s)
    else if s.calls[p].fid in s.routes
    then Acknowledge(env, ToWaiting(Post(env, s, p, s.routes[s.calls[p].fid]), p), p)
    else Release(Emit(env, s, p, Status(INVALID)), p)
  }

  function ForwardOne(env: Env, s: State, p: Ptr): State {
    if p !in s.calls then Fault(s)
    else if s.calls[p].toDelete then Delete(env, s, p)
    else if Throttled(env, s, s.calls[p]) then ReadClock(s, s.calls[p])
    else Dispatch(env, ReadClock(s, s.calls[p]), p)
  }

  /** The pass over a snapshot of the list: a call that a delete request has freed is skipped. */
  function ForwardAll(env: Env, s: State, ps: seq<Ptr>): State
    decreases |ps|
  {
    if ps == [] then s
    else ForwardAll(env, if ps[0] in s.calls then ForwardOne(env, s, ps[0]) else s, ps[1..])
  }

  // ---- Worker pass 3: replies of the peripherals ----

  function HandlerStep(env: Env, s: State, p: Ptr, op: HandlerOp): State {
    match op
    case Say(json) => Emit(env, s, p, Said(json))
    case Finish => CompleteCall(s, p)
  }

  function RunHandler(env: Env, s: State, p: Ptr, ops: seq<HandlerOp>): State
    decreases |ops|
  {
    if ops == [] then s else RunHandler(env, HandlerStep(env, s, p, ops[0]), p, ops[1..])
  }

  function Rearm(env: Env, s: State, p: Ptr): State {
    if p !in s.calls then Fault(s)
    else
      var c := s.calls[p];
      var due := Wrap(env.Tick(s.clockReads) + c.interval);
      ToActive(SetCall(s, p, c.(nextPoll := due, repliedAt := Some(env.clock(s.clockReads)))), p)
        .(clockReads := s.clockReads + 1)
  }

  function Notify(env: Env, s: State, p: Ptr, payload: seq<byte>): State {
    if p !in s.calls then Fault(s)
    else
      var s1 := if s.calls[p].handled then RunHandler(env, s, p, env.handler(s.calls[p], payload, |s.log|)) else s;
      if payload != [] then Emit(env, s1, p, Reply(payload)) else s1
  }

  function DeliverOne(env: Env, s: State, p: Ptr, payload: seq<byte>): State {
    if p !in s.calls then Fault(s)
    else
      var s1 := Notify(env, s, p, payload);
      if s.calls[p].longTerm then Rearm(env, s1, p) else Drop(s1, p)
  }

  function DeliverAll(env: Env, s: State, ps: seq<Ptr>, payload: seq<byte>): State
    decreases |ps|
  {
    if ps == [] then s else DeliverAll(env, DeliverOne(env, s, ps[0], payload), ps[1..], payload)
  }

  /** The waiting calls a reply goes to. */
  function Addressees(s: State, r: Msg): seq<Ptr> {
    if r.id == 0 then Select(s.waiting, LiveFid(s, r.fid))
    else match FirstOf(s.waiting, LiveId(s, r.id))
      case None => []
      case Some(p) => [p]
  }

  function DeliverReplyInHand(env: Env, s: State): State {
    match s.inHand
    case None => s
    case Some(r) =>
      if r.len > 0 && (r.data.None? || r.data.value !in s.blocks) then Fault(s)
      else
        var payload := if r.len > 0 then s.blocks[r.data.value] else [];
        FreeBlock(DeliverAll(env, s, Addressees(s, r), payload), r.data).(inHand := None)
  }

  // ---- Requests and connections ----

  function NewCall(env: Env, s: State, x: Ptr, req: Request, data: Option<Ptr>): Call
    requires req.Parsed?
  {
    var flags := if req.flags.Some? then Wrap(req.flags.value) else 0;
    Call(s.created, Some(x), data, if req.arg.Some? then |req.arg.value| else 0,
         if req.sid.Some? then req.sid.value % 0x1_0000 else 0, Wrap(req.fid), 1,
         true, flags / 4 % 2 == 1, flags / 8 % 2 == 1, Wrap(req.fid) in s.handlers,
         if req.arg.Some? && req.rdl.Some? && req.rdl.value > 0 then env.toTicks(req.rdl.value) else 0, 0, None)
  }

  /** The request's argument is copied into a block of its own. */
  function Store(env: Env, s: State, arg: Option<seq<byte>>): (State, Option<Ptr>) {
    match arg
    case None => (s, None)
    case Some(bytes) =>
      var b := env.malloc(s.blocks.Keys);
      (s.(blocks := s.blocks[b := bytes]), Some(b))
  }

  /** A request that is turned away: its status is sent while its record still exists. */
  function Reject(env: Env, s: State, p: Ptr, c: Call, code: nat): State {
    var listed := s.calls[p := c];
    FreeBlock(Emit(env, s.(calls := listed), p, Status(code)), c.data).(calls := listed - {p})
  }

  /** A request without FLAGS or SID, or without a handler and a queue, is turned away; any other is listed. */
  function Place(env: Env, s: State, p: Ptr, c: Call, req: Request): State
    requires req.Parsed?
  {
    if req.flags.None? || req.sid.None? then Reject(env, s, p, c.(id := 0), BAD_REQ)
    else if c.fid !in s.handlers && c.fid !in s.routes then Reject(env, s, p, c, NO_HANDLER)
    else SetCall(s, p, c).(active := s.active + [p])
  }

  function OnText(env: Env, s: State, x: Ptr, req: Request): State {
    if x !in s.sessions || req.Malformed? || Wrap(req.fid) == 0 then s
    else
      var (s1, data) := Store(env, s, req.arg);
      Place(env, s1.(created := s.created + 1), env.malloc(s.calls.Keys), NewCall(env, s, x, req, data), req)
  }

  function OnDisconnect(s: State, x: Ptr): State {
    if x !in s.sessions then s
    else
      var s1 := BreakFd(s, s.sessions[x].fd);
      s1.(sessions := s1.sessions - {x})
  }

  // ---- The peripherals' side ----

  function {:tailrecursion false} Pop(ms: seq<Msg>, queue: nat): (seq<Msg>, Option<Msg>) {
    if ms == [] then (ms, None)
    else if ms[0].queue == queue then (ms[1..], Some(ms[0]))
    else var (rest, m) := Pop(ms[1..], queue); ([ms[0]] + rest, m)
  }

  /** A peripheral takes its next message and frees the message's data. */
  function TakeMsg(s: State, queue: nat): State {
    var (rest, m) := Pop(s.posted, queue);
    match m
    case None => s
    case Some(msg) => FreeBlock(s.(posted := rest), msg.data)
  }

  /** A peripheral answers; an answer that finds the worker's queue full is freed. */
  function PutAnswer(env: Env, s: State, fid: nat, id: nat, payload: seq<byte>): State {
    var (s1, data) := Store(env, s, if payload == [] then None else Some(payload));
    if |s.replies| < REPLY_DEPTH
    then s1.(replies := s1.replies + [Msg(0, fid, id, data, |payload|)])
    else FreeBlock(s1, data)
  }

  // ---- One step, and whole runs ----

  function Step(env: Env, s: State, e: Event): State {
    match e
    case Connect(fd) =>
      s.(sessions := s.sessions[env.malloc(s.sessions.Keys) := NewSession(env, fd, s.clockReads)],
        clockReads := s.clockReads + 1)
    case Alive(x) =>
      if x in s.sessions
      then s.(sessions := s.sessions[x := Heard(env, s.sessions[x], s.clockReads)], clockReads := s.clockReads + 1)
      else s
    case Text(x, req) => OnText(env, s, x, req)
    case Disconnect(x) => OnDisconnect(s, x)
    case SendDone(failed, fd, locked) => if failed && locked then BreakFd(s, fd) else s
    case Register(fid, locked) => if fid != 0 && locked then s.(handlers := s.handlers + {fid}) else s
    case Unregister(fid, locked) =>
      if fid != 0 && locked && fid in s.handlers then BreakFid(s, fid).(handlers := s.handlers - {fid}) else s
    case Route(fid, queue, locked) => if locked && fid !in s.routes then s.(routes := s.routes[fid := queue]) else s
    case Complete(p) => CompleteCall(s, p)
    case GroupSend(fid, json) => SendToGroup(env, s, fid, json)
    case CollectGarbage => ServePass(env, s)
    case Forward => ForwardAll(env, s, s.active)
    case Receive =>
      if s.inHand.None? && s.replies != [] then s.(inHand := Some(s.replies[0]), replies := s.replies[1..]) else s
    case DeliverReply => DeliverReplyInHand(env, s)
    case Take(queue) => TakeMsg(s, queue)
    case Answer(fid, id, payload) => PutAnswer(env, s, fid, id, payload)
  }

  function Run(env: Env, s: State, es: seq<Event>): State
    decreases |es|
  {
    if es == [] then s else Run(env, Step(env, s, es[0]), es[1..])
  }
}
