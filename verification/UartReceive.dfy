// Bytes from a serial port: the event task reads them in small chunks, a subscription collects them in
// a buffer, and each poll drains the buffer.

module UartReceive {
  import opened Bytes

  const CHUNK := 128
  const BUFFER_SIZE := 1000

  function Prefix(s: seq<byte>, n: nat): seq<byte> { s[..Least(|s|, n)] }

  function Join(ss: seq<seq<byte>>): seq<byte> {
    if ss == [] then [] else ss[0] + Join(ss[1..])
  }

  lemma {:induction false} JoinAppend(ss: seq<seq<byte>>, s: seq<byte>)
    ensures Join(ss + [s]) == Join(ss) + s
  {
    if ss == [] {
      assert ss + [s] == [s] && [s][1..] == [];
    } else {
      assert (ss + [s])[1..] == ss[1..] + [s];
      JoinAppend(ss[1..], s);
    }
  }

  // ---- The subscription ----

  datatype Event = Receive(data: seq<byte>) | Poll

  /** What has been received since the last poll, as far as there is room, and the chunks drained so far. */
  datatype State = State(held: seq<byte>, drained: seq<seq<byte>>)

  function Step(s: State, e: Event): State {
    match e
    case Receive(data) => s.(held := s.held + data[..Least(|data|, Clamp(BUFFER_SIZE - |s.held|))])
    case Poll => State([], s.drained + [s.held])
  }

  function Run(s: State, es: seq<Event>): State
    decreases |es|
  {
    if es == [] then s else Run(Step(s, es[0]), es[1..])
  }

  /** The bytes of a history, cut at its polls; the last piece is what came after the last poll. */
  function Pieces(es: seq<Event>): (r: seq<seq<byte>>)
    ensures |r| >= 1
  {
    if es == [] then [[]]
    else
      var rest := Pieces(es[1..]);
      match es[0]
      case Receive(data) => [data + rest[0]] + rest[1..]
      case Poll => [[]] + rest
  }

  lemma {:induction false} RunPieces(s: State, es: seq<Event>, came: seq<byte>)
    requires s.held == Prefix(came, BUFFER_SIZE)
    ensures var t := Run(s, es);
            var ps := [came + Pieces(es)[0]] + Pieces(es)[1..];
            && |t.drained| == |s.drained| + |ps| - 1 && s.drained <= t.drained
            && (forall i :: 0 <= i < |ps| - 1 ==> t.drained[|s.drained| + i] == Prefix(ps[i], BUFFER_SIZE))
            && t.held == Prefix(ps[|ps| - 1], BUFFER_SIZE)
    decreases |es|
  {
    if es == [] {
      assert came + [] == came;
    } else {
      var s1 := Step(s, es[0]);
      match es[0] {
        case Receive(data) =>
          HeldGrows(came, data);
          RunPieces(s1, es[1..], came + data);
          assert came + data + Pieces(es[1..])[0] == came + (data + Pieces(es[1..])[0]);
        case Poll =>
          RunPieces(s1, es[1..], []);
          AfterPoll(s, Run(s, es), es[1..], came);
          assert came + [] == came;
          assert [came + Pieces(es)[0]] + Pieces(es)[1..] == [came] + Pieces(es[1..]);
      }
    }
  }

  lemma HeldGrows(came: seq<byte>, data: seq<byte>)
    ensures var held := Prefix(came, BUFFER_SIZE);
            held + data[..Least(|data|, Clamp(BUFFER_SIZE - |held|))] == Prefix(came + data, BUFFER_SIZE)
  {}

  lemma AfterPoll(s: State, t: State, es: seq<Event>, came: seq<byte>)
    requires s.held == Prefix(came, BUFFER_SIZE)
    requires var ps := [[] + Pieces(es)[0]] + Pieces(es)[1..];
             && |t.drained| == |s.drained| + 1 + |ps| - 1 && s.drained + [s.held] <= t.drained
             && (forall i :: 0 <= i < |ps| - 1 ==> t.drained[|s.drained| + 1 + i] == Prefix(ps[i], BUFFER_SIZE))
             && t.held == Prefix(ps[|ps| - 1], BUFFER_SIZE)
    ensures var ps := [came] + Pieces(es);
            && |t.drained| == |s.drained| + |ps| - 1 && s.drained <= t.drained
            && (forall i :: 0 <= i < |ps| - 1 ==> t.drained[|s.drained| + i] == Prefix(ps[i], BUFFER_SIZE))
            && t.held == Prefix(ps[|ps| - 1], BUFFER_SIZE)
  {
    var rest := [[] + Pieces(es)[0]] + Pieces(es)[1..];
    var ps := [came] + Pieces(es);
    assert rest == Pieces(es) by { assert [] + Pieces(es)[0] == Pieces(es)[0]; }
    assert t.drained[|s.drained|] == (s.drained + [s.held])[|s.drained|];
    forall i | 0 <= i < |ps| - 1 ensures t.drained[|s.drained| + i] == Prefix(ps[i], BUFFER_SIZE) {
      if i > 0 { assert ps[i] == rest[i - 1]; }
    }
  }

  /** Each poll drains the first bytes that came since the poll before it, in order and once, as many as
      the buffer holds. */
  lemma DrainsWhatCame(es: seq<Event>)
    ensures var t := Run(State([], []), es);
            var ps := Pieces(es);
            && |t.drained| == |ps| - 1
            && (forall i :: 0 <= i < |t.drained| ==> t.drained[i] == Prefix(ps[i], BUFFER_SIZE))
            && t.held == Prefix(ps[|ps| - 1], BUFFER_SIZE)
  {
    RunPieces(State([], []), es, []);
    assert [[] + Pieces(es)[0]] + Pieces(es)[1..] == Pieces(es) by { assert [] + Pieces(es)[0] == Pieces(es)[0]; }
  }

  function Received(es: seq<Event>): seq<byte> {
    if es == [] then [] else (match es[0] case Receive(data) => data case Poll => []) + Received(es[1..])
  }

  lemma {:induction false} PiecesAreAll(es: seq<Event>)
    ensures Join(Pieces(es)) == Received(es)
  {
    if es != [] {
      PiecesAreAll(es[1..]);
      var rest := Pieces(es[1..]);
      match es[0] {
        case Receive(data) =>
          assert data + Join(rest) == (data + rest[0]) + Join(rest[1..]);
          assert ([data + rest[0]] + rest[1..])[1..] == rest[1..];
        case Poll => assert ([[]] + rest)[1..] == rest;
      }
    }
  }

  /** The stream is conserved exactly when no more came between two polls than the buffer holds. */
  lemma StreamConserved(es: seq<Event>)
    ensures var t := Run(State([], []), es);
            Join(t.drained + [t.held]) == Received(es) <==>
            forall i :: 0 <= i < |Pieces(es)| ==> |Pieces(es)[i]| <= BUFFER_SIZE
  {
    var t := Run(State([], []), es);
    var ps := Pieces(es);
    DrainsWhatCame(es);
    PiecesAreAll(es);
    CutJoin(t.drained + [t.held], ps);
  }

  /** Cutting each piece changes what they join to exactly when some piece is cut short. */
  lemma {:induction false} CutJoin(cs: seq<seq<byte>>, ps: seq<seq<byte>>)
    requires |cs| == |ps| && forall i :: 0 <= i < |ps| ==> cs[i] == Prefix(ps[i], BUFFER_SIZE)
    ensures |Join(cs)| <= |Join(ps)|
    ensures Join(cs) == Join(ps) <==> forall i :: 0 <= i < |ps| ==> |ps[i]| <= BUFFER_SIZE
    ensures |Join(cs)| == |Join(ps)| ==> Join(cs) == Join(ps)
  {
    if ps != [] {
      CutJoin(cs[1..], ps[1..]);
      assert forall i :: 0 < i < |ps| ==> ps[i] == ps[1..][i - 1];
      if |ps[0]| <= BUFFER_SIZE { assert cs[0] == ps[0]; }
    }
  }

  /** The subscription's context: a buffer and how much of it is filled. */
  class Subscription {
    const buf: array<byte>
    var amount: nat
    ghost var drained: seq<seq<byte>>

    ghost predicate Valid()
      reads this, buf
    {
      buf.Length == BUFFER_SIZE && amount <= BUFFER_SIZE
    }

    ghost function Abs(): State
      reads this, buf
      requires Valid()
    {
      State(buf[..amount], drained)
    }

    constructor ()
      ensures Valid() && fresh(buf) && Abs() == State([], [])
    {
      buf := new byte[BUFFER_SIZE];
      amount, drained := 0, [];
    }

    /** Copies as much as there is room for. */
    method OnRx(data: seq<byte>)
      requires Valid()
      modifies this`amount, buf
      ensures Valid() && Abs() == Step(old(Abs()), Receive(data))
    {
      var sz := BUFFER_SIZE - amount;
      if sz > |data| { sz := |data|; }
      ghost var before := buf[..amount];
      forall i | 0 <= i < sz { buf[amount + i] := data[i]; }
      assert buf[..amount + sz] == before + data[..sz];
      amount := amount + sz;
    }

    method Drain() returns (chunk: seq<byte>)
      requires Valid()
      modifies this
      ensures Valid() && chunk == old(Abs()).held && Abs() == Step(old(Abs()), Poll)
    {
      chunk := buf[..amount];
      drained := drained + [chunk];
      amount := 0;
    }
  }

  // ---- The event task ----

  /** A driver with bytes waiting: the i-th read of at most `n` bytes gets `give(i)` of them, or an error. */
  function Got(give: nat -> int, i: nat, n: nat, waiting: seq<byte>): int {
    var k := give(i);
    if k <= 0 then k else Least(k, Least(n, |waiting|))
  }

  ghost predicate SmallChunks(cs: seq<seq<byte>>) { forall i :: 0 <= i < |cs| ==> 0 < |cs[i]| <= CHUNK }

  /** Chunks that come without a poll are held up to the size of the buffer, `came` being what came before. */
  lemma {:induction false} ChunksCollected(s: State, cs: seq<seq<byte>>, came: seq<byte>)
    requires s.held == Prefix(came, BUFFER_SIZE)
    ensures Run(s, Receives(cs)).drained == s.drained
    ensures Run(s, Receives(cs)).held == Prefix(came + Join(cs), BUFFER_SIZE)
    decreases |cs|
  {
    if cs == [] {
      assert came + [] == came;
    } else {
      HeldGrows(came, cs[0]);
      assert Receives(cs)[0] == Receive(cs[0]) && Receives(cs)[1..] == Receives(cs[1..]);
      ChunksCollected(Step(s, Receive(cs[0])), cs[1..], came + cs[0]);
      assert came + cs[0] + Join(cs[1..]) == came + (cs[0] + Join(cs[1..]));
    }
  }

  function Receives(cs: seq<seq<byte>>): seq<Event> {
    if cs == [] then [] else [Receive(cs[0])] + Receives(cs[1..])
  }

  lemma {:induction false} ReceivesAppend(s: State, cs: seq<seq<byte>>, c: seq<byte>)
    ensures Run(s, Receives(cs + [c])) == Step(Run(s, Receives(cs)), Receive(c))
    decreases |cs|
  {
    if cs == [] {
      assert cs + [c] == [c] && [c][1..] == [];
      assert Receives([c]) == [Receive(c)] && [Receive(c)][1..] == [];
      assert Run(s, [Receive(c)]) == Run(Step(s, Receive(c)), []);
    } else {
      assert (cs + [c])[0] == cs[0] && (cs + [c])[1..] == cs[1..] + [c];
      assert Receives(cs + [c])[1..] == Receives(cs[1..] + [c]) && Receives(cs)[1..] == Receives(cs[1..]);
      ReceivesAppend(Step(s, Receive(cs[0])), cs[1..], c);
    }
  }

  /** Reads one chunk, echoes it if asked to, and raises it. */
  method HandleChunk(rest: seq<byte>, sz: nat, echo: bool, echoed: seq<byte>, sub: Subscription)
      returns (chunk: seq<byte>, rest': seq<byte>, echoed': seq<byte>)
    requires sub.Valid() && sz <= |rest|
    modifies sub, sub.buf
    ensures sub.Valid() && sub.Abs() == Step(old(sub.Abs()), Receive(chunk))
    ensures chunk + rest' == rest && |chunk| == sz && echoed' == if echo then echoed + chunk else echoed
  {
    chunk, rest' := rest[..sz], rest[sz..];
    echoed' := if echo then echoed + chunk else echoed;
    sub.OnRx(chunk);
  }

  lemma JoinNext(chunks: seq<seq<byte>>, chunk: seq<byte>, rest: seq<byte>)
    ensures Join(chunks + [chunk]) == Join(chunks) + chunk
            && Join(chunks + [chunk]) + rest == Join(chunks) + (chunk + rest)
  {
    JoinAppend(chunks, chunk);
  }

  /** Handles one data event of `size` bytes: reads them in chunks until they are all there or a read
      fails.  While somebody else has locked the receiver the event is skipped and the bytes stay. */
  method HandleData(locked: bool, size: nat, waiting: seq<byte>, give: nat -> int, echo: bool, sub: Subscription)
      returns (rest: seq<byte>, echoed: seq<byte>, ghost chunks: seq<seq<byte>>)
    requires sub.Valid()
    modifies sub, sub.buf
    ensures sub.Valid() && SmallChunks(chunks)
    ensures Join(chunks) + rest == waiting && |Join(chunks)| <= size
    ensures echoed == if echo then Join(chunks) else []
    ensures sub.Abs() == Run(old(sub.Abs()), Receives(chunks))
    ensures locked ==> rest == waiting && sub.Abs() == old(sub.Abs())
    ensures !locked && |Join(chunks)| < size ==> give(|chunks|) <= 0 || rest == []
  {
    rest, echoed, chunks := waiting, [], [];
    if locked { return; }
    ghost var s := sub.Abs();
    var left, i := size, 0;
    while left > 0
      invariant 0 <= left && sub.Valid() && SmallChunks(chunks) && i == |chunks|
      invariant Join(chunks) + rest == waiting && |Join(chunks)| + left == size
      invariant echoed == if echo then Join(chunks) else []
      invariant sub.Abs() == Run(s, Receives(chunks))
      decreases left
    {
      var sz := Got(give, i, Least(left, CHUNK), rest);
      if sz <= 0 { break; }
      var chunk, rest', echoed' := HandleChunk(rest, sz, echo, echoed, sub);
      JoinNext(chunks, chunk, rest');
      ReceivesAppend(s, chunks, chunk);
      rest, echoed, chunks := rest', echoed', chunks + [chunk];
      left, i := left - sz, i + 1;
    }
  }
}
