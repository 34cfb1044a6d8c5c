// The slave refines a register map: requests that are well formed read and write it, everything else
// leaves it alone.

module InnovertTheorems {
  import opened Lists
  import opened Bytes
  import opened Crc16
  import opened InnovertModel

  // ---- Words and bytes ----

  lemma FirstWord(prefix: seq<byte>, word: int, rest: seq<byte>)
    requires Fits(word)
    ensures var raw := prefix + ([word / 256, word % 256] + rest);
            WordAt(raw, |prefix|) == word && raw == (prefix + [word / 256, word % 256]) + rest
  {}

  lemma {:induction false} WordsInBytes(prefix: seq<byte>, words: seq<int>, suffix: seq<byte>)
    requires AllFit(words)
    ensures WordsFrom(prefix + (BytesOf(words) + suffix), |prefix|, |words|) == words
    decreases |words|
  {
    if words != [] {
      var rest := BytesOf(words[1..]) + suffix;
      FirstWord(prefix, words[0], rest);
      assert BytesOf(words) + suffix == [words[0] / 256, words[0] % 256] + rest;
      WordsInBytes(prefix + [words[0] / 256, words[0] % 256], words[1..], suffix);
    }
  }

  lemma {:induction false} BytesOfLast(words: seq<int>, v: int)
    requires AllFit(words) && Fits(v)
    ensures AllFit(words + [v]) && BytesOf(words + [v]) == BytesOf(words) + [v / 256, v % 256]
  {
    if words == [] {
      assert [v][1..] == [] && words + [v] == [v];
    } else {
      assert (words + [v])[1..] == words[1..] + [v];
      BytesOfLast(words[1..], v);
    }
  }

  lemma SpliceAt(regs: seq<int>, start: nat, words: seq<int>, r: nat)
    requires start + |words| <= |regs| && r < |regs|
    ensures |Splice(regs, start, words)| == |regs|
    ensures Splice(regs, start, words)[r] == match ValueFor(start, words, r) case Some(v) => v case None => regs[r]
  {}

  // ---- Any frame at all ----

  /** A frame from the slave: valid, short enough, and from the address that it now answers to. */
  ghost predicate GoodResponse(d: Device, frame: seq<byte>) {
    Check(frame) && 5 <= |frame| <= 255 && frame[0] as int == d.address
  }

  predicate IsFailure(frame: seq<byte>) { |frame| >= 2 && frame[1] >= 128 }

  /** Whatever the frame: the device stays sound, every response is valid, no longer than 255 bytes and
      carries the current address, and unless the response confirms a write nothing has changed. */
  lemma AnyFrame(d: Device, raw: seq<byte>)
    requires Sound(d)
    ensures var (t, o) := Handle(d, raw);
            && Sound(t)
            && (o.Response? ==> GoodResponse(t, o.frame))
            && (!o.Response? || IsFailure(o.frame) || raw[1] == 3 ==> t == d)
  {
    if Check(raw) && raw[0] as int == d.address {
      if raw[1] == 6 && |raw| >= 8 {
        WriteKeeps(d, WordAt(raw, 2), [WordAt(raw, 4)], raw);
      } else if raw[1] == 16 && |raw| >= 9 && |raw| >= 9 + raw[6] as int && |raw| >= 7 + 2 * WordAt(raw, 4) {
        WriteKeeps(d, WordAt(raw, 2), WordsFrom(raw, 7, WordAt(raw, 4)), raw);
      }
    }
  }

  lemma WriteKeeps(d: Device, start: nat, words: seq<int>, raw: seq<byte>)
    requires Sound(d) && d.address < 256 && AllFit(words) && |raw| >= 6 && raw[1] < 128
    ensures var (t, o) := AnswerWrite(WriteRegs(d, start, words), raw);
            && Sound(t) && o.Response? && GoodResponse(t, o.frame) && (IsFailure(o.frame) ==> t == d)
  {
    var w := WriteRegs(d, start, words);
    if w.1.None? {
      forall r: nat | r < REG_SIZE && r !in Owned ensures Fits(w.0.regs[r]) { SpliceAt(d.regs, start, words, r); }
      var body := [w.0.address, raw[1], raw[2], raw[3], raw[4], raw[5]];
      assert Append(body)[0] == body[0] && Append(body)[1] == body[1];
    } else {
      var body := [w.0.address, Flagged(raw[1]), w.1.value];
      assert Append(body)[0] == body[0];
    }
  }

  // ---- Well-formed requests on a register map ----

  datatype Request = Read(start: nat, count: nat) | WriteOne(start: nat, value: int)
    | WriteMany(start: nat, values: seq<int>)

  /** Every field fits the place it has in a frame. */
  predicate WellFormed(q: Request) {
    && q.start < 0x1_0000
    && match q
       case Read(_, count) => count < 0x1_0000
       case WriteOne(_, value) => Fits(value)
       case WriteMany(_, values) => |values| <= 127 && AllFit(values)
  }

  function Pair(v: nat): (r: seq<byte>)
    requires v < 0x1_0000
    ensures |r| == 2
  {
    [v / 256, v % 256]
  }

  /** The frame a master sends (Modbus Application Protocol V1.1b3, sections 6.3, 6.6 and 6.12). */
  function Encode(address: byte, q: Request): seq<byte>
    requires WellFormed(q)
  {
    Append(match q
           case Read(start, count) => [address, 3] + Pair(start) + Pair(count)
           case WriteOne(start, value) => [address, 6] + Pair(start) + Pair(value)
           case WriteMany(start, values) =>
             [address, 16] + Pair(start) + Pair(|values|) + [2 * |values|] + BytesOf(values))
  }

  /** The words a request writes. */
  function WordsOf(q: Request): seq<int> {
    match q
    case Read(_, _) => []
    case WriteOne(_, value) => [value]
    case WriteMany(_, values) => values
  }

  predicate Granted(q: Request) {
    match q
    case Read(start, count) => 1 <= count <= MAX_READ && start + count <= REG_SIZE
    case WriteOne(start, _) => start < REG_SIZE
    case WriteMany(start, values) => start + |values| <= REG_SIZE
  }

  /** The register map's view of a request. */
  function Serve(d: Device, q: Request): Device
    requires |d.regs| == REG_SIZE
  {
    if q.Read? || !Granted(q) then d
    else
      d.(address := AddressAfter(d.address, q.start, WordsOf(q)), regs := Splice(d.regs, q.start, WordsOf(q)),
         state := StateAfter(d.state, q.start, WordsOf(q)))
  }

  function Answer(d: Device, q: Request): Outcome
    requires |d.regs| == REG_SIZE && WellFormed(q) && d.address < 256
  {
    var address: byte := Serve(d, q).address;
    match q
    case Read(start, count) =>
      if count < 1 || count > MAX_READ then Response(Failure(address, 3, ILLEGAL_VALUE))
      else if start + count > REG_SIZE then Response(Failure(address, 3, ILLEGAL_ADDRESS))
      else if AllFit(d.regs[start..start + count]) then
        Response(Append([address, 3, 2 * count] + BytesOf(d.regs[start..start + count])))
      else Raised
    case WriteOne(start, value) =>
      if Granted(q) then Response(Append([address, 6] + Pair(start) + Pair(value)))
      else Response(Failure(address, 6, ILLEGAL_ADDRESS))
    case WriteMany(start, values) =>
      if Granted(q) then Response(Append([address, 16] + Pair(start) + Pair(|values|)))
      else Response(Failure(address, 16, ILLEGAL_ADDRESS))
  }

  lemma PairRead(raw: seq<byte>, i: nat, v: nat)
    requires v < 0x1_0000 && i + 1 < |raw| && raw[i] == v / 256 && raw[i + 1] == v % 256
    ensures WordAt(raw, i) == v
  {}

  lemma ReadServed(d: Device, q: Request)
    requires |d.regs| == REG_SIZE && d.address < 256 && WellFormed(q) && q.Read?
    ensures Handle(d, Encode(d.address, q)) == (Serve(d, q), Answer(d, q))
  {
    var raw := Encode(d.address, q);
    assert raw[0] == d.address && raw[1] == 3 && |raw| == 8;
    PairRead(raw, 2, q.start);
    PairRead(raw, 4, q.count);
  }

  lemma WriteOneServed(d: Device, q: Request)
    requires |d.regs| == REG_SIZE && d.address < 256 && WellFormed(q) && q.WriteOne?
    ensures Handle(d, Encode(d.address, q)) == (Serve(d, q), Answer(d, q))
  {
    var raw := Encode(d.address, q);
    assert raw[0] == d.address && raw[1] == 6 && |raw| == 8;
    PairRead(raw, 2, q.start);
    PairRead(raw, 4, q.value);
    var t := Serve(d, q);
    assert [t.address, raw[1], raw[2], raw[3], raw[4], raw[5]] == [t.address, 6] + Pair(q.start) + Pair(q.value);
  }

  lemma WriteManyServed(d: Device, q: Request)
    requires |d.regs| == REG_SIZE && d.address < 256 && WellFormed(q) && q.WriteMany?
    ensures Handle(d, Encode(d.address, q)) == (Serve(d, q), Answer(d, q))
  {
    var n := |q.values|;
    var head: seq<byte> := [d.address, 16] + Pair(q.start) + Pair(n) + [2 * n];
    var raw := Encode(d.address, q);
    var crc := Crc(head + BytesOf(q.values));
    RegisterFits(0xFFFF, head + BytesOf(q.values));
    assert raw == head + (BytesOf(q.values) + [crc % 256, crc / 256]);
    assert raw[0] == d.address && raw[1] == 16 && raw[6] == 2 * n && |raw| == 9 + 2 * n;
    PairRead(raw, 2, q.start);
    PairRead(raw, 4, n);
    WordsInBytes(head, q.values, [crc % 256, crc / 256]);
    var t := Serve(d, q);
    assert [t.address, raw[1], raw[2], raw[3], raw[4], raw[5]] == [t.address, 16] + Pair(q.start) + Pair(n);
  }

  /** The slave's parser and handlers do to every well-formed request what the register map says. */
  lemma RequestServed(d: Device, q: Request)
    requires |d.regs| == REG_SIZE && d.address < 256 && WellFormed(q)
    ensures Handle(d, Encode(d.address, q)) == (Serve(d, q), Answer(d, q))
  {
    match q {
      case Read(_, _) => ReadServed(d, q);
      case WriteOne(_, _) => WriteOneServed(d, q);
      case WriteMany(_, _) => WriteManyServed(d, q);
    }
  }

  // ---- Histories ----

  datatype Event = Ask(q: Request) | Measure(dt: real, noise: Noise)

  ghost predicate AllWellFormed(es: seq<Event>) {
    forall i :: 0 <= i < |es| && es[i].Ask? ==> WellFormed(es[i].q)
  }

  /** Each request is sent to the address the device has at that moment. */
  function Happen(d: Device, e: Event): Device
    requires |d.regs| == REG_SIZE && d.address < 256 && (e.Ask? ==> WellFormed(e.q))
  {
    match e
    case Ask(q) => Handle(d, Encode(d.address, q)).0
    case Measure(dt, noise) => Tick(d, dt, noise)
  }

  lemma TickSpares(d: Device, dt: real, noise: Noise, r: nat)
    requires |d.regs| == REG_SIZE && r < REG_SIZE && r !in Owned
    ensures Tick(d, dt, noise).regs[r] == d.regs[r]
  {}

  lemma AskSound(d: Device, q: Request)
    requires Sound(d) && d.address < 256 && WellFormed(q)
    ensures var t := Handle(d, Encode(d.address, q)).0; Sound(t) && t.address < 256 && t == Serve(d, q)
  {
    RequestServed(d, q);
    AnyFrame(d, Encode(d.address, q));
  }

  lemma TickSound(d: Device, dt: real, noise: Noise)
    requires Sound(d)
    ensures var t := Tick(d, dt, noise);
            Sound(t) && t.address == d.address && t.state == d.state && t.freq == NextFreq(d, dt)
  {
    var t := Tick(d, dt, noise);
    forall r: nat | r < REG_SIZE && r !in Owned ensures Fits(t.regs[r]) { TickSpares(d, dt, noise, r); }
  }

  lemma HappenSound(d: Device, e: Event)
    requires Sound(d) && d.address < 256 && (e.Ask? ==> WellFormed(e.q))
    ensures Sound(Happen(d, e)) && Happen(d, e).address < 256
    ensures e.Ask? ==> Happen(d, e) == Serve(d, e.q)
  {
    match e {
      case Ask(q) => AskSound(d, q);
      case Measure(dt, noise) => TickSound(d, dt, noise);
    }
  }

  function Live(d: Device, es: seq<Event>): (t: Device)
    requires Sound(d) && d.address < 256 && AllWellFormed(es)
    ensures Sound(t) && t.address < 256
    decreases |es|
  {
    if es == [] then d
    else
      HappenSound(d, es[0]);
      assert AllWellFormed(es[1..]) by {
        forall i | 0 <= i < |es[1..]| && es[1..][i].Ask? ensures WellFormed(es[1..][i].q) {
          assert es[1..][i] == es[i + 1];
        }
      }
      Live(Happen(d, es[0]), es[1..])
  }

  /** The value last written to register `r` by a granted write, or `v` if there was none. */
  function LastWritten(es: seq<Event>, r: nat, v: int): int
    decreases |es|
  {
    if es == [] then v
    else
      var w := if es[0].Ask? && Granted(es[0].q) then ValueFor(es[0].q.start, WordsOf(es[0].q), r) else None;
      LastWritten(es[1..], r, if w.Some? then w.value else v)
  }

  lemma {:induction false} RegisterHoldsLast(d: Device, es: seq<Event>, r: nat)
    requires Sound(d) && d.address < 256 && AllWellFormed(es) && r < REG_SIZE && r !in Owned
    ensures Live(d, es).regs[r] == LastWritten(es, r, d.regs[r])
    decreases |es|
  {
    if es != [] {
      var e := es[0];
      HappenSound(d, e);
      match e {
        case Ask(q) => if !q.Read? && Granted(q) { SpliceAt(d.regs, q.start, WordsOf(q), r); }
        case Measure(dt, noise) => TickSpares(d, dt, noise, r);
      }
      assert AllWellFormed(es[1..]) by {
        forall i | 0 <= i < |es[1..]| && es[1..][i].Ask? ensures WellFormed(es[1..][i].q) {
          assert es[1..][i] == es[i + 1];
        }
      }
      RegisterHoldsLast(Happen(d, e), es[1..], r);
    }
  }

  /** The words that a read is answered with after a history: what was last written, but for the registers
      that measurements own. */
  function WordsAfter(d: Device, es: seq<Event>, start: nat, count: nat): seq<int>
    requires Sound(d) && d.address < 256 && AllWellFormed(es) && start + count <= REG_SIZE
  {
    var t := Live(d, es);
    seq(count, i requires 0 <= i < count =>
      if start + i in Owned then t.regs[start + i] else LastWritten(es, start + i, d.regs[start + i]))
  }

  lemma WordsStand(d: Device, es: seq<Event>, start: nat, count: nat)
    requires Sound(d) && d.address < 256 && AllWellFormed(es) && start + count <= REG_SIZE
    ensures Live(d, es).regs[start..start + count] == WordsAfter(d, es, start, count)
  {
    var got, words := Live(d, es).regs[start..start + count], WordsAfter(d, es, start, count);
    forall i | 0 <= i < count ensures got[i] == words[i] {
      if start + i !in Owned { RegisterHoldsLast(d, es, start + i); }
    }
  }

  /** After any history a granted read of any length is answered with the values last written, in order; at
      the positions that measurements own stands the last measurement, and the read raises exactly if one of
      those does not fit. */
  lemma ReadsAnswered(d: Device, es: seq<Event>, start: nat, count: nat)
    requires Sound(d) && d.address < 256 && AllWellFormed(es) && Granted(Read(start, count))
    ensures var t := Live(d, es);
            var words := WordsAfter(d, es, start, count);
            Handle(t, Encode(t.address, Read(start, count)))
            == (t, if AllFit(words) then Response(Append([t.address, 3, 2 * count] + BytesOf(words))) else Raised)
  {
    var t := Live(d, es);
    hide Handle;
    WordsStand(d, es, start, count);
    ReadServed(t, Read(start, count));
  }

  /** The words last written, or those of the start where nothing was written. */
  function LastWords(d: Device, es: seq<Event>, start: nat, count: nat): (r: seq<int>)
    requires |d.regs| == REG_SIZE && start + count <= REG_SIZE
    ensures |r| == count
  {
    seq(count, i requires 0 <= i < count => LastWritten(es, start + i, d.regs[start + i]))
  }

  /** So a read of registers that no measurement owns is always answered, with the values last written. */
  lemma ReadsLastWritten(d: Device, es: seq<Event>, start: nat, count: nat)
    requires Sound(d) && d.address < 256 && AllWellFormed(es) && Granted(Read(start, count))
    requires forall r: nat :: start <= r < start + count ==> r !in Owned
    ensures var t := Live(d, es);
            var words := LastWords(d, es, start, count);
            && AllFit(words)
            && Handle(t, Encode(t.address, Read(start, count)))
               == (t, Response(Append([t.address, 3, 2 * count] + BytesOf(words))))
  {
    var words := LastWords(d, es, start, count);
    assert words == WordsAfter(d, es, start, count);
    forall i | 0 <= i < count ensures Fits(words[i]) { RegisterHoldsLast(d, es, start + i); }
    ReadsAnswered(d, es, start, count);
  }

  /** A register that a measurement overwrites can make a read of it raise instead of answering: exactly
      when its value does not fit 16 bits. */
  lemma ReadRaisesOnlyForMeasured(d: Device, start: nat, count: nat)
    requires Sound(d) && d.address < 256 && Granted(Read(start, count))
    ensures Handle(d, Encode(d.address, Read(start, count))).1.Raised?
            <==> exists r: nat :: start <= r < start + count && r in Owned && !Fits(d.regs[r])
  {
    ReadServed(d, Read(start, count));
    var words := d.regs[start..start + count];
    if AllFit(words) {
      forall r: nat | start <= r < start + count ensures Fits(d.regs[r]) { assert d.regs[r] == words[r - start]; }
    } else {
      var i :| 0 <= i < |words| && !Fits(words[i]);
      assert d.regs[start + i] == words[i];
    }
  }
}
