// The Modbus worker: one reply for each request, made in a buffer that is sized from the register count.

module ModbusReply {
  import opened Lists
  import opened Bytes

  const PAYLOAD_SIZE := 255
  const DEFAULT_AWT_MS := 500
  const WRITE_COILS := 15

  const BAD_REQUEST := 2
  const NOT_SENT := 3
  const TIMED_OUT := 4

  // ---- The text of a reply ----

  function DecDigit(d: nat): char
    requires d < 10
  {
    "0123456789"[d]
  }

  /** `%u`. */
  function Dec(v: nat): seq<char> { if v < 10 then [DecDigit(v)] else Dec(v / 10) + [DecDigit(v % 10)] }

  function Pow10(n: nat): nat { if n == 0 then 1 else 10 * Pow10(n - 1) }

  lemma {:induction false} DecLength(v: nat, n: nat)
    requires n >= 1 && v < Pow10(n)
    ensures 1 <= |Dec(v)| <= n
    decreases n
  {
    if v >= 10 { DecLength(v / 10, n - 1); }
  }

  /** Numbers with commas between them. */
  function Listed(vs: seq<nat>): seq<char> {
    if vs == [] then [] else if |vs| == 1 then Dec(vs[0]) else Listed(vs[..|vs| - 1]) + "," + Dec(vs[|vs| - 1])
  }

  datatype Frame = Frame(addr: byte, func: byte, code: byte, regAddr: nat, amount: byte, size: byte,
    regs: Option<seq<byte>>, isError: bool)

  /** The library hands out a 16-bit register address and as many bytes as the registers take. */
  ghost predicate Proper(f: Frame) {
    && f.regAddr < 0x1_0000
    && (f.regs.Some? ==> |f.regs.value| >= (f.amount as int) * if f.size == 2 then 2 else 1)
  }

  function ValueAt(f: Frame, i: nat): (v: nat)
    requires Proper(f) && f.regs.Some? && i < f.amount as int
    ensures v < 0x1_0000
  {
    if f.size == 2 then (f.regs.value[2 * i] as int) + 256 * (f.regs.value[2 * i + 1] as int)
    else f.regs.value[i] as int
  }

  function Values(f: Frame): seq<nat>
    requires Proper(f)
  {
    if f.isError || f.regs.None? then [] else seq(f.amount as int, i requires 0 <= i < f.amount as int => ValueAt(f, i))
  }

  /** A key and its number. */
  function Field(key: seq<char>, v: nat): (r: seq<char>)
    ensures |r| >= |key| && forall i :: 0 <= i < |key| ==> r[i] == key[i]
  {
    key + Dec(v)
  }

  /** `%d` of a truth value. */
  function Flag(b: bool): nat { if b then 1 else 0 }

  function Head(f: Frame): seq<char> {
    Field("{\"ADR\":", f.addr as int)
    + (Field(",\"FN\":", f.func as int % 128)
    + (Field(",\"CV\":", f.code as int)
    + (Field(",\"RA\":", f.regAddr)
    + (Field(",\"RC\":", f.amount as int)
    + (Field(",\"ERR\":", Flag(f.isError)) + ",\"RD\":[")))))
  }

  function Text(f: Frame): seq<char>
    requires Proper(f)
  {
    Head(f) + Listed(Values(f)) + "]}"
  }

  function BufferSize(f: Frame): nat { 96 + 9 * (f.amount as int) }

  lemma HeadLength(f: Frame)
    requires Proper(f)
    ensures |Head(f)| <= 63
  {
    assert Pow10(3) == 1000 && Pow10(5) == 100000 && Pow10(1) == 10;
    DecLength(f.addr as int, 3);
    DecLength(f.func as int % 128, 3);
    DecLength(f.code as int, 3);
    DecLength(f.regAddr, 5);
    DecLength(f.amount as int, 3);
    DecLength(Flag(f.isError), 1);
  }

  lemma {:induction false} ListedLength(vs: seq<nat>)
    requires forall i :: 0 <= i < |vs| ==> vs[i] < 0x1_0000
    ensures |Listed(vs)| <= 6 * |vs| && (vs != [] ==> |Listed(vs)| <= 6 * |vs| - 1)
  {
    assert Pow10(5) == 100000;
    if vs != [] {
      DecLength(vs[|vs| - 1], 5);
      ListedLength(vs[..|vs| - 1]);
      if |vs| == 1 { assert vs[0] == vs[|vs| - 1]; }
    }
  }

  /** The text is far shorter than the buffer. */
  lemma TextFits(f: Frame)
    requires Proper(f)
    ensures |Text(f)| <= 63 + 6 * (f.amount as int) + 2 < BufferSize(f) - 2
  {
    HeadLength(f);
    ListedLength(Values(f));
  }

  // ---- Reading a reply ----

  function DigitOf(c: char): int { if '0' <= c <= '9' then c as int - '0' as int else -1 }

  /** A comma-separated list of decimal numbers, of which `from` has been read. */
  function ReadList(s: seq<char>, from: nat): seq<nat>
    decreases |s|
  {
    if s == [] then [from]
    else if DigitOf(s[0]) >= 0 then ReadList(s[1..], 10 * from + DigitOf(s[0]))
    else [from] + ReadList(s[1..], 0)
  }

  lemma ReadDigit(d: nat, rest: seq<char>, from: nat)
    requires d < 10
    ensures ReadList([DecDigit(d)] + rest, from) == ReadList(rest, 10 * from + d)
  {
    assert ([DecDigit(d)] + rest)[1..] == rest;
  }

  lemma {:induction false} ReadDec(v: nat, rest: seq<char>)
    ensures ReadList(Dec(v) + rest, 0) == ReadList(rest, v)
  {
    var last := [DecDigit(v % 10)];
    if v < 10 {
      ReadDigit(v, rest, 0);
    } else {
      ReadDec(v / 10, last + rest);
      ReadDigit(v % 10, rest, v / 10);
      assert Dec(v) + rest == Dec(v / 10) + (last + rest);
    }
  }

  /** What reading `rest`, which is empty or starts with a comma, gives after a number. */
  function ReadRest(rest: seq<char>): seq<nat> { if rest == [] then [] else ReadList(rest[1..], 0) }

  lemma ReadLast(v: nat, rest: seq<char>)
    requires rest == [] || rest[0] == ','
    ensures ReadList(Dec(v) + rest, 0) == [v] + ReadRest(rest)
    ensures ReadRest([','] + (Dec(v) + rest)) == [v] + ReadRest(rest)
  {
    ReadDec(v, rest);
    ReadNumberEnd(v, rest);
    assert ([','] + (Dec(v) + rest))[1..] == Dec(v) + rest;
  }

  lemma ListedSplit(vs: seq<nat>, rest: seq<char>)
    requires |vs| > 1
    ensures Listed(vs) + rest == Listed(vs[..|vs| - 1]) + ([','] + (Dec(vs[|vs| - 1]) + rest))
  {
    hide Dec;
  }

  lemma {:induction false} ReadListed(vs: seq<nat>, rest: seq<char>)
    requires vs != [] && (rest == [] || rest[0] == ',')
    ensures ReadList(Listed(vs) + rest, 0) == vs + ReadRest(rest)
    decreases |vs|
  {
    hide Dec;
    var front, v := vs[..|vs| - 1], vs[|vs| - 1];
    ReadLast(v, rest);
    assert vs == front + [v];
    if |vs| == 1 {
      assert Listed(vs) == Dec(v);
    } else {
      ListedSplit(vs, rest);
      ReadListed(front, [','] + (Dec(v) + rest));
    }
  }

  lemma ReadNumberEnd(v: nat, rest: seq<char>)
    requires rest == [] || rest[0] == ','
    ensures ReadList(rest, v) == [v] + ReadRest(rest)
  {}

  /** The register list of a reply reads back as the registers. */
  lemma ListReadsBack(vs: seq<nat>)
    requires vs != []
    ensures ReadList(Listed(vs), 0) == vs
  {
    ReadListed(vs, []);
    assert Listed(vs) + [] == Listed(vs);
  }

  // ---- Reading the whole text ----

  /** What a client reads out of a reply. */
  datatype Reading = Reading(adr: nat, fn: nat, cv: nat, ra: nat, rc: nat, err: nat, rd: seq<nat>)

  /** The number that `s` starts with, added to what has been read of it, and the rest. */
  function ReadNumber(s: seq<char>, from: nat): (nat, seq<char>)
    decreases |s|
  {
    if s == [] || DigitOf(s[0]) < 0 then (from, s) else ReadNumber(s[1..], 10 * from + DigitOf(s[0]))
  }

  /** A key and the number after it. */
  function ReadField(s: seq<char>, key: seq<char>): Option<(nat, seq<char>)> {
    if key <= s && |key| < |s| && DigitOf(s[|key|]) >= 0 then Some(ReadNumber(s[|key|..], 0)) else None
  }

  /** The labels in order, then the registers in brackets. */
  function ReadReply(s: seq<char>): Option<Reading> {
    match ReadField(s, "{\"ADR\":")
    case None => None
    case Some((adr, s1)) => match ReadField(s1, ",\"FN\":")
      case None => None
      case Some((fn, s2)) => match ReadField(s2, ",\"CV\":")
        case None => None
        case Some((cv, s3)) => match ReadField(s3, ",\"RA\":")
          case None => None
          case Some((ra, s4)) => match ReadField(s4, ",\"RC\":")
            case None => None
            case Some((rc, s5)) => match ReadField(s5, ",\"ERR\":")
              case None => None
              case Some((err, s6)) => match ReadRegisters(s6)
                case None => None
                case Some(rd) => Some(Reading(adr, fn, cv, ra, rc, err, rd))
  }

  function ReadRegisters(s: seq<char>): Option<seq<nat>> {
    var mark := ",\"RD\":[";
    if mark <= s && |s| >= |mark| + 2 && s[|s| - 2..] == "]}" then
      var list := s[|mark|..|s| - 2];
      Some(if list == [] then [] else ReadList(list, 0))
    else None
  }

  lemma NumberDigit(d: nat, rest: seq<char>, from: nat)
    requires d < 10
    ensures ReadNumber([DecDigit(d)] + rest, from) == ReadNumber(rest, 10 * from + d)
  {
    assert ([DecDigit(d)] + rest)[1..] == rest;
  }

  lemma {:induction false} NumberRead(v: nat, rest: seq<char>)
    ensures ReadNumber(Dec(v) + rest, 0) == ReadNumber(rest, v)
    ensures Dec(v) != [] && DigitOf(Dec(v)[0]) >= 0
  {
    var last := [DecDigit(v % 10)];
    if v < 10 {
      NumberDigit(v, rest, 0);
    } else {
      NumberRead(v / 10, last + rest);
      NumberDigit(v % 10, rest, v / 10);
      assert Dec(v) + rest == Dec(v / 10) + (last + rest);
    }
  }

  lemma FieldRead(key: seq<char>, v: nat, rest: seq<char>)
    requires rest != [] && DigitOf(rest[0]) < 0
    ensures ReadField(Field(key, v) + rest, key) == Some((v, rest))
  {
    var s := key + Dec(v) + rest;
    NumberRead(v, rest);
    assert s[|key|..] == Dec(v) + rest && s[|key|] == Dec(v)[0];
  }

  lemma RegistersRead(vs: seq<nat>)
    ensures ReadRegisters(",\"RD\":[" + Listed(vs) + "]}") == Some(vs)
  {
    var mark := ",\"RD\":[";
    var s := mark + Listed(vs) + "]}";
    assert s[|mark|..|s| - 2] == Listed(vs) && s[|s| - 2..] == "]}";
    if vs != [] {
      ListReadsBack(vs);
      ListedNotEmpty(vs);
    }
  }

  lemma ListedNotEmpty(vs: seq<nat>)
    requires vs != []
    ensures Listed(vs) != []
  {
    NumberRead(vs[|vs| - 1], []);
  }

  /** The text from the registers on, and from each field on. */
  function FromRegisters(f: Frame): seq<char>
    requires Proper(f)
  {
    ",\"RD\":[" + Listed(Values(f)) + "]}"
  }

  function FromErr(f: Frame): seq<char>
    requires Proper(f)
  {
    Field(",\"ERR\":", Flag(f.isError)) + FromRegisters(f)
  }

  function FromCount(f: Frame): seq<char>
    requires Proper(f)
  {
    Field(",\"RC\":", f.amount as int) + FromErr(f)
  }

  function FromAddress(f: Frame): seq<char>
    requires Proper(f)
  {
    Field(",\"RA\":", f.regAddr) + FromCount(f)
  }

  function FromCode(f: Frame): seq<char>
    requires Proper(f)
  {
    Field(",\"CV\":", f.code as int) + FromAddress(f)
  }

  function FromFunction(f: Frame): seq<char>
    requires Proper(f)
  {
    Field(",\"FN\":", f.func as int % 128) + FromCode(f)
  }

  lemma MoveOut(field: seq<char>, head: seq<char>, list: seq<char>, end: seq<char>)
    ensures field + head + list + end == field + (head + list + end)
  {}

  lemma TextInParts(f: Frame)
    requires Proper(f)
    ensures Text(f) == Field("{\"ADR\":", f.addr as int) + FromFunction(f)
  {
    hide Field, Listed, Values;
    var list := Listed(Values(f));
    var f5, f4 := Field(",\"ERR\":", Flag(f.isError)), Field(",\"RC\":", f.amount as int);
    var f3, f2 := Field(",\"RA\":", f.regAddr), Field(",\"CV\":", f.code as int);
    var f1, f0 := Field(",\"FN\":", f.func as int % 128), Field("{\"ADR\":", f.addr as int);
    var h5 := f5 + ",\"RD\":[";
    var h4 := f4 + h5;
    var h3 := f3 + h4;
    var h2 := f2 + h3;
    var h1 := f1 + h2;
    assert Text(f) == f0 + h1 + list + "]}";
    MoveOut(f5, ",\"RD\":[", list, "]}");
    MoveOut(f4, h5, list, "]}");
    MoveOut(f3, h4, list, "]}");
    MoveOut(f2, h3, list, "]}");
    MoveOut(f1, h2, list, "]}");
    MoveOut(f0, h1, list, "]}");
  }

  /** The registers of a frame as a client should see them: none for an error or a frame without any, else
      `amount` of them, two bytes each with the low byte first, or one byte each. */
  ghost predicate Carried(f: Frame, rd: seq<nat>)
    requires Proper(f)
  {
    if f.isError || f.regs.None? then rd == []
    else
      && |rd| == f.amount as int
      && forall i :: 0 <= i < |rd| ==>
           if f.size == 2
           then f.regs.value[2 * i] as int == rd[i] % 256 && f.regs.value[2 * i + 1] as int == rd[i] / 256
           else f.regs.value[i] as int == rd[i]
  }

  lemma ValuesCarried(f: Frame)
    requires Proper(f)
    ensures Carried(f, Values(f))
  {}

  /** A client that reads a reply field by field finds the frame's fields under their labels, and its registers. */
  lemma ReplyReadsBack(f: Frame)
    requires Proper(f)
    ensures ReadReply(Text(f)).Some?
    ensures var r := ReadReply(Text(f)).value;
            && r.adr == f.addr as int && r.fn == f.func as int % 128 && r.cv == f.code as int && r.ra == f.regAddr
            && r.rc == f.amount as int && r.err == (if f.isError then 1 else 0) && Carried(f, r.rd)
  {
    hide Field, Listed, Values, Text, ReadField, ReadRegisters, Carried;
    TextInParts(f);
    FieldRead("{\"ADR\":", f.addr as int, FromFunction(f));
    FieldRead(",\"FN\":", f.func as int % 128, FromCode(f));
    FieldRead(",\"CV\":", f.code as int, FromAddress(f));
    FieldRead(",\"RA\":", f.regAddr, FromCount(f));
    FieldRead(",\"RC\":", f.amount as int, FromErr(f));
    FieldRead(",\"ERR\":", Flag(f.isError), FromRegisters(f));
    RegistersRead(Values(f));
    ValuesCarried(f);
  }

  // ---- Formatting in the buffer ----

  /** `snprintf` at an offset: writes what fits, ends it with a zero, and returns the length of the whole. */
  method Print(buf: array<char>, off: nat, text: seq<char>) returns (n: nat)
    requires off < buf.Length
    modifies buf
    ensures n == |text| && buf[..off] == old(buf[..off])
    ensures off + |text| < buf.Length ==> buf[..off + |text|] == old(buf[..off]) + text
  {
    n := |text|;
    var k := if off + n < buf.Length then n else buf.Length - off - 1;
    forall i | 0 <= i < k { buf[off + i] := text[i]; }
    buf[off + k] := 0 as char;
  }

  /** Prints the next number of a list, after a comma unless it is the first. */
  method PrintNext(buf: array<char>, start: nat, first: bool, v: nat) returns (off: nat)
    requires v < 0x1_0000 && start + 6 < buf.Length
    modifies buf
    ensures start < off <= start + (if first then 5 else 6)
    ensures buf[..off] == old(buf[..start]) + (if first then [] else [',']) + Dec(v)
  {
    assert Pow10(5) == 100000;
    DecLength(v, 5);
    off := start;
    if !first {
      buf[off] := ',';
      off := off + 1;
      assert buf[..off] == old(buf[..start]) + [','];
    }
    var n := Print(buf, off, Dec(v));
    off := off + n;
  }

  lemma ListedNext(vs: seq<nat>, i: nat)
    requires i < |vs|
    ensures Listed(vs[..i + 1]) == Listed(vs[..i]) + (if i == 0 then [] else [',']) + Dec(vs[i])
  {
    assert vs[..i + 1][..i] == vs[..i];
    if i == 0 { assert Listed(vs[..1]) == [] + [] + Dec(vs[0]); }
  }

  lemma PrintedNext(before: seq<char>, vs: seq<nat>, i: nat, v: nat)
    requires i < |vs| && vs[i] == v
    ensures before + Listed(vs[..i]) + (if i == 0 then [] else [',']) + Dec(v) == before + Listed(vs[..i + 1])
  {
    ListedNext(vs, i);
    var comma: seq<char> := if i == 0 then [] else [','];
    assert before + Listed(vs[..i]) + comma + Dec(v) == before + (Listed(vs[..i]) + comma + Dec(v));
  }

  /** The registers, printed one by one with commas between them. */
  method PrintValues(buf: array<char>, start: nat, f: Frame) returns (off: nat)
    requires Proper(f) && !f.isError && f.regs.Some? && start + 6 * (f.amount as int) < buf.Length
    modifies buf
    ensures start <= off < buf.Length && buf[..off] == old(buf[..start]) + Listed(Values(f))
  {
    off := start;
    ghost var vs := Values(f);
    ghost var before := buf[..start];
    assert before + Listed(vs[..0]) == before;
    for i := 0 to f.amount as int
      invariant start <= off <= start + 6 * i
      invariant buf[..off] == before + Listed(vs[..i])
    {
      PrintedNext(before, vs, i, ValueAt(f, i));
      off := PrintNext(buf, off, i == 0, ValueAt(f, i));
    }
    assert vs[..f.amount as int] == vs;
  }

  method PrintBody(buf: array<char>, head: seq<char>, f: Frame) returns (off: nat)
    requires Proper(f) && buf.Length == BufferSize(f) && |head| <= 63
    modifies buf
    ensures off < buf.Length && buf[..off] == head + Listed(Values(f))
  {
    off := Print(buf, 0, head);
    assert buf[..off] == head;
    if !f.isError && f.regs.Some? && f.amount > 0 {
      off := PrintValues(buf, off, f);
    } else {
      assert Values(f) == [];
    }
  }

  /** The reply's text: nothing of it is cut off, and it is never closed in the wrong place. */
  method Format(f: Frame) returns (text: seq<char>)
    requires Proper(f)
    ensures text == Text(f)
  {
    TextFits(f);
    var size := BufferSize(f);
    var buf := new char[size];
    HeadLength(f);
    var off := PrintBody(buf, Head(f), f);
    ghost var body := buf[..off];
    if off < size - 2 {
      buf[off], buf[off + 1], buf[off + 2] := ']', '}', 0 as char;
      off := off + 2;
    }
    text := buf[..off];
    assert text == body + "]}";
  }
}
