// The control registers: which address the device answers to, what its motor is told to do, and how frames
// that are no well-formed request are treated.

module InnovertControl {
  import opened Lists
  import opened Bytes
  import opened Crc16
  import opened InnovertModel
  import opened InnovertTheorems

  /** The value that a request, if it is granted, writes to register `r`. */
  function Written(q: Request, r: nat): Option<int> {
    match q
    case Read(_, _) => None
    case WriteOne(start, value) => if start == r && r < 820 then Some(value) else None
    case WriteMany(start, values) =>
      if start <= r < start + |values| && start + |values| <= 820 then Some(values[r - start]) else None
  }

  // ---- The address ----

  /** The last value from 1 to 247 that a request wrote to register 702, or `a`. */
  function LastAddress(es: seq<Event>, a: nat): nat
    decreases |es|
  {
    if es == [] then a
    else
      var w := if es[0].Ask? then Written(es[0].q, 702) else None;
      LastAddress(es[1..], if w.Some? && 1 <= w.value <= 247 then w.value else a)
  }

  lemma ServedAddress(d: Device, q: Request)
    requires |d.regs| == REG_SIZE && WellFormed(q)
    ensures var w := Written(q, 702);
            Serve(d, q).address == if w.Some? && 1 <= w.value <= 247 then w.value else d.address
  {}

  lemma WellFormedTail(es: seq<Event>)
    requires es != [] && AllWellFormed(es)
    ensures (es[0].Ask? ==> WellFormed(es[0].q)) && AllWellFormed(es[1..])
  {
    forall i | 0 <= i < |es[1..]| && es[1..][i].Ask? ensures WellFormed(es[1..][i].q) {
      assert es[1..][i] == es[i + 1];
    }
  }

  /** After any history the device has the last address that it was given, or its first. */
  lemma {:induction false} AddressFollows(d: Device, es: seq<Event>)
    requires Sound(d) && d.address < 256 && AllWellFormed(es)
    ensures Live(d, es).address == LastAddress(es, d.address)
    decreases |es|
  {
    if es != [] {
      hide Sound;
      WellFormedTail(es);
      HappenSound(d, es[0]);
      HappensTo(d, es[0]);
      AddressFollows(Happen(d, es[0]), es[1..]);
    }
  }

  lemma HappensTo(d: Device, e: Event)
    requires Sound(d) && d.address < 256 && (e.Ask? ==> WellFormed(e.q))
    ensures var t := Happen(d, e);
            var w := if e.Ask? then Written(e.q, 702) else None;
            t.address == if w.Some? && 1 <= w.value <= 247 then w.value else d.address
  {
    HappenSound(d, e);
    match e {
      case Ask(q) => ServedAddress(d, q);
      case Measure(dt, noise) => TickSound(d, dt, noise);
    }
  }

  lemma EncodedFirst(a: byte, q: Request)
    requires WellFormed(q)
    ensures |Encode(a, q)| >= 4 && Encode(a, q)[0] == a
  {}

  /** After any history: a request to the device's last address is served, and one to any other, such as the
      one it had before, is met with silence and changes nothing. */
  lemma OnlyItsAddress(d: Device, es: seq<Event>, a: byte, q: Request)
    requires Sound(d) && d.address < 256 && AllWellFormed(es) && WellFormed(q)
    ensures var t := Live(d, es);
            var (u, o) := Handle(t, Encode(a, q));
            && (a as int != LastAddress(es, d.address) ==> u == t && o == Silent)
            && (a as int == LastAddress(es, d.address) ==> u == Serve(t, q) && o == Answer(t, q) && o != Silent)
  {
    var t := Live(d, es);
    AddressFollows(d, es);
    EncodedFirst(a, q);
    if a as int == t.address { RequestServed(t, q); }
  }

  // ---- The motor's command ----

  /** What a request tells the motor: register 28 decides over register 102; only 0, 1 and 2 are commands. */
  function CommandIn(q: Request): Option<nat> {
    var direct, run := Written(q, 28), Written(q, 102);
    if direct.Some? && 0 <= direct.value <= 2 then Some(direct.value)
    else if run.Some? && 0 <= run.value <= 2 then Some(run.value)
    else None
  }

  function LastCommand(es: seq<Event>, state: nat): nat
    decreases |es|
  {
    if es == [] then state
    else
      var c := if es[0].Ask? then CommandIn(es[0].q) else None;
      LastCommand(es[1..], if c.Some? then c.value else state)
  }

  lemma ServedCommand(d: Device, q: Request)
    requires |d.regs| == REG_SIZE && WellFormed(q)
    ensures var c := CommandIn(q);
            Serve(d, q).state == if c.Some? then c.value else d.state
  {}

  lemma CommandServed(d: Device, e: Event)
    requires Sound(d) && d.address < 256 && (e.Ask? ==> WellFormed(e.q))
    ensures var c := if e.Ask? then CommandIn(e.q) else None;
            Happen(d, e).state == if c.Some? then c.value else d.state
  {
    if e.Ask? {
      hide Sound, CommandIn, Serve, Happen;
      HappenSound(d, e);
      ServedCommand(d, e.q);
    } else {
      hide Tick, Handle;
      TickSound(d, e.dt, e.noise);
    }
  }

  /** After any history the motor does what it was last told, by whichever of the two registers. */
  lemma {:induction false} StateFollows(d: Device, es: seq<Event>)
    requires Sound(d) && d.address < 256 && AllWellFormed(es)
    ensures Live(d, es).state == LastCommand(es, d.state)
    decreases |es|
  {
    if es != [] {
      hide Sound;
      WellFormedTail(es);
      HappenSound(d, es[0]);
      CommandServed(d, es[0]);
      StateFollows(Happen(d, es[0]), es[1..]);
    }
  }

  // ---- Frames that are no well-formed request ----

  /** A frame that the device does not even look into. */
  predicate Passed(d: Device, raw: seq<byte>) {
    || !Check(raw) || raw[0] as int != d.address
    || ((raw[1] == 3 || raw[1] == 6) && |raw| < 8)
    || (raw[1] == 16 && (|raw| < 9 || |raw| < 9 + raw[6] as int))
  }

  /** Damaged, foreign and truncated frames are met with silence; an unknown function with exception 1; a
      write of more words than the frame has raises.  None of them changes anything. */
  lemma OtherFrames(d: Device, raw: seq<byte>)
    requires Sound(d)
    ensures var (t, o) := Handle(d, raw);
            && (Passed(d, raw) ==> (t, o) == (d, Silent))
            && (!Passed(d, raw) && raw[1] !in {3, 6, 16} ==>
                  d.address < 256
                  && (t, o) == (d, Response(Append([d.address, if raw[1] < 128 then raw[1] + 128 else raw[1], 1]))))
            && (!Passed(d, raw) && raw[1] == 16 && |raw| < 7 + 2 * WordAt(raw, 4) ==> (t, o) == (d, Raised))
  {}

  /** A write of several registers goes by its register count, whatever its byte count says. */
  lemma CountDecides(d: Device, raw: seq<byte>)
    requires Sound(d) && !Passed(d, raw) && raw[1] == 16 && |raw| >= 7 + 2 * WordAt(raw, 4)
    ensures Handle(d, raw).0 == Serve(d, WriteMany(WordAt(raw, 2), WordsFrom(raw, 7, WordAt(raw, 4))))
  {}
}
