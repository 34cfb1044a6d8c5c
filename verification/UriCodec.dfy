// Percent-encoding by table, and the three-state decoder that undoes it (RFC 3986, section 2.1).

module UriCodec {
  import opened Bytes

  const PERCENT: byte := 0x25
  const QUESTION: byte := 0x3F

  const URI_COMPONENT := 2
  const REFRESH := 4
  const TYPES := 7

  const UNESCAPE_URI := 1

  const ALL: nat := 0xffff_ffff

  /** The words of a table: bit `b` of word `w` tells whether the byte 32 w + b is escaped. */
  function Table(t: nat): (r: seq<nat>)
    requires t < TYPES
    ensures |r| == 8
  {
    if t == 0 then [ALL, 0xd000_002d, 0x5000_0000, 0xb800_0001, ALL, ALL, ALL, ALL]
    else if t == 1 then [ALL, 0xd800_086d, 0x5000_0000, 0xb800_0001, ALL, ALL, ALL, ALL]
    else if t == 2 then [ALL, 0xfc00_9fff, 0x7800_0001, 0xb800_0001, ALL, ALL, ALL, ALL]
    else if t == 3 then [ALL, 0x5000_00ad, 0x5000_0000, 0xb800_0001, ALL, ALL, ALL, ALL]
    else if t == 4 then [ALL, 0x5000_0085, 0x5000_0000, 0xd800_0001, ALL, ALL, ALL, ALL]
    else [ALL, 0x21, 0, 0, 0, 0, 0, 0]
  }

  predicate BitSet(w: nat, b: nat)
    decreases b
  {
    if b == 0 then w % 2 == 1 else BitSet(w / 2, b - 1)
  }

  predicate Escapes(t: nat, ch: byte)
    requires t < TYPES
  {
    BitSet(Table(t)[ch / 32], ch % 32)
  }

  /** The bytes that a table escapes. */
  function EscapedBy(t: nat): set<byte>
    requires t < TYPES
  {
    set ch: byte | Escapes(t, ch)
  }

  function HexDigit(v: nat): byte
    requires v < 16
  {
    if v < 10 then 0x30 + v else 0x41 + v - 10
  }

  /** What one byte is encoded as, when the bytes `esc` are escaped. */
  function EscapeByte(esc: set<byte>, ch: byte): seq<byte> {
    if ch in esc then [PERCENT, HexDigit(ch / 16), HexDigit(ch % 16)] else [ch]
  }

  function Escape(esc: set<byte>, src: seq<byte>): seq<byte> {
    if src == [] then [] else EscapeByte(esc, src[0]) + Escape(esc, src[1..])
  }

  /** The counting pass. */
  function CountEscaped(esc: set<byte>, src: seq<byte>): nat {
    if src == [] then 0 else (if src[0] in esc then 1 else 0) + CountEscaped(esc, src[1..])
  }

  lemma {:induction false} EncodedLength(esc: set<byte>, src: seq<byte>)
    ensures |Escape(esc, src)| == |src| + 2 * CountEscaped(esc, src)
  {
    if src != [] { EncodedLength(esc, src[1..]); }
  }

  // ---- Decoding ----

  /** What the decoder is in the middle of; after one hexadecimal digit it knows its value and its text. */
  datatype Mode = Usual | Quoted | Second(decoded: nat, text: byte)

  /** What one byte makes the decoder write, and the mode it is in then. */
  datatype Move = Move(out: seq<byte>, mode: Mode, stop: bool)

  /** `ch | 0x20`. */
  function LowerCase(ch: byte): byte { if ch / 32 % 2 == 0 then ch + 32 else ch }

  function DigitOf(ch: byte): int {
    if 0x30 <= ch <= 0x39 then ch - 0x30
    else if 0x61 <= LowerCase(ch) <= 0x66 then LowerCase(ch) as int - 0x61 + 10
    else -1
  }

  predicate IsUri(kind: nat) { kind % 2 == 1 }

  predicate IsRedirect(kind: nat) { kind / 2 % 2 == 1 }

  /** A decoded byte: a redirect keeps those escaped that are not printable or come before `&`. */
  function Decoded(kind: nat, ch: byte, first: byte, second: byte): Move {
    if 0x30 <= second <= 0x39 then
      if IsRedirect(kind) && !(PERCENT < ch < 0x7f)
      then Move([PERCENT, first, second], Usual, false)
      else Move([ch], Usual, false)
    else if IsUri(kind) then Move([ch], Usual, ch == QUESTION)
    else if IsRedirect(kind) then
      if ch == QUESTION then Move([ch], Usual, true)
      else if PERCENT < ch < 0x7f then Move([ch], Usual, false)
      else Move([PERCENT, first, second], Usual, false)
    else Move([ch], Usual, false)
  }

  function Feed(kind: nat, mode: Mode, ch: byte): Move
    requires mode.Second? ==> mode.decoded < 16
  {
    match mode
    case Usual =>
      if ch == QUESTION && (IsUri(kind) || IsRedirect(kind)) then Move([ch], Usual, true)
      else if ch == PERCENT then Move([], Quoted, false)
      else Move([ch], Usual, false)
    case Quoted => if DigitOf(ch) >= 0 then Move([], Second(DigitOf(ch), ch), false) else Move([ch], Usual, false)
    case Second(decoded, text) =>
      if DigitOf(ch) >= 0 then Decoded(kind, 16 * decoded + DigitOf(ch), text, ch) else Move([], Usual, false)
  }

  predicate Fine(mode: Mode) { mode.Second? ==> mode.decoded < 16 }

  /** What the decoder writes for `src` from a given mode on. */
  function Unescape(kind: nat, mode: Mode, src: seq<byte>): seq<byte>
    requires Fine(mode)
    decreases |src|
  {
    if src == [] then []
    else
      var m := Feed(kind, mode, src[0]);
      m.out + if m.stop then [] else Unescape(kind, m.mode, src[1..])
  }

  /** How much of `src` the decoder reads. */
  function Consumed(kind: nat, mode: Mode, src: seq<byte>): nat
    requires Fine(mode)
    decreases |src|
  {
    if src == [] then 0
    else
      var m := Feed(kind, mode, src[0]);
      1 + if m.stop then 0 else Consumed(kind, m.mode, src[1..])
  }

  // ---- Round trips ----

  lemma DigitRoundTrip(v: nat)
    requires v < 16
    ensures DigitOf(HexDigit(v)) == v && HexDigit(v) != PERCENT && HexDigit(v) != QUESTION
  {}

  /** The three bytes of an escape bring back the byte; for a URI an escaped question mark ends it. */
  lemma EscapeUndone(kind: nat, ch: byte, rest: seq<byte>)
    requires kind <= 1
    ensures Unescape(kind, Usual, [PERCENT, HexDigit(ch / 16), HexDigit(ch % 16)] + rest)
            == [ch] + if kind == 1 && ch == QUESTION then [] else Unescape(kind, Usual, rest)
  {
    var high, low := HexDigit(ch / 16), HexDigit(ch % 16);
    DigitRoundTrip(ch / 16);
    DigitRoundTrip(ch % 16);
    var src := [PERCENT, high, low] + rest;
    assert src[1..] == [high, low] + rest && src[1..][1..] == [low] + rest && src[1..][1..][1..] == rest;
    assert Feed(kind, Usual, PERCENT) == Move([], Quoted, false);
    assert Feed(kind, Quoted, high) == Move([], Second(ch / 16, high), false);
    var m := Feed(kind, Second(ch / 16, high), low);
    assert m == Move([ch], Usual, kind == 1 && ch == QUESTION);
    assert Unescape(kind, Second(ch / 16, high), [low] + rest)
      == [ch] + if m.stop then [] else Unescape(kind, Usual, rest);
    assert Unescape(kind, Quoted, [high, low] + rest) == [] + Unescape(kind, Second(ch / 16, high), [low] + rest);
    assert Unescape(kind, Usual, src) == [] + Unescape(kind, Quoted, [high, low] + rest);
  }

  /** One encoded byte, when the table does not leave it to be taken for an escape. */
  lemma ByteUndone(kind: nat, esc: set<byte>, ch: byte, rest: seq<byte>)
    requires kind <= 1 && (ch == PERCENT ==> PERCENT in esc)
    ensures Unescape(kind, Usual, EscapeByte(esc, ch) + rest)
            == [ch] + if kind == 1 && ch == QUESTION then [] else Unescape(kind, Usual, rest)
  {
    if ch in esc {
      EscapeUndone(kind, ch, rest);
    } else {
      assert ([ch] + rest)[1..] == rest;
    }
  }

  /** A text up to and including its first question mark. */
  function UpToQuestion(src: seq<byte>): seq<byte> {
    if src == [] then [] else if src[0] == QUESTION then [QUESTION] else [src[0]] + UpToQuestion(src[1..])
  }

  lemma {:induction false} DecodeEncode(kind: nat, esc: set<byte>, src: seq<byte>)
    requires kind <= 1 && (PERCENT in esc || PERCENT !in src)
    ensures Unescape(kind, Usual, Escape(esc, src)) == if kind == 1 then UpToQuestion(src) else src
  {
    if src != [] {
      ByteUndone(kind, esc, src[0], Escape(esc, src[1..]));
      DecodeEncode(kind, esc, src[1..]);
    }
  }

  // ---- When a table leaves the percent sign alone ----

  function Percents(s: seq<byte>): nat {
    if s == [] then 0 else (if s[0] == PERCENT then 1 else 0) + Percents(s[1..])
  }

  lemma {:induction false} PercentsAppend(s: seq<byte>, t: seq<byte>)
    ensures Percents(s + t) == Percents(s) + Percents(t)
  {
    if s == [] {
      assert s + t == t;
    } else {
      assert (s + t)[1..] == s[1..] + t;
      PercentsAppend(s[1..], t);
    }
  }

  /** Neither the percent sign nor any hexadecimal digit that encoding writes is escaped. */
  ghost predicate LeavesPercent(esc: set<byte>) {
    PERCENT !in esc && forall v: nat :: v < 16 ==> HexDigit(v) !in esc
  }

  /** What the decoder makes of an encoded text, at type 0. */
  function Back(esc: set<byte>, src: seq<byte>): seq<byte>
  {
    Unescape(0, Usual, Escape(esc, src))
  }

  /** ... and of one that follows a percent sign. */
  function AfterPercent(esc: set<byte>, src: seq<byte>): seq<byte>
  {
    Unescape(0, Quoted, Escape(esc, src))
  }

  lemma BackStep(esc: set<byte>, src: seq<byte>)
    requires src != [] && PERCENT !in esc
    ensures Back(esc, src) == if src[0] == PERCENT then AfterPercent(esc, src[1..]) else [src[0]] + Back(esc, src[1..])
  {
    if src[0] == PERCENT {
      assert Escape(esc, src) == [PERCENT] + Escape(esc, src[1..]);
      assert ([PERCENT] + Escape(esc, src[1..]))[1..] == Escape(esc, src[1..]);
      assert Feed(0, Usual, PERCENT) == Move([], Quoted, false);
    } else {
      ByteUndone(0, esc, src[0], Escape(esc, src[1..]));
    }
  }

  /** The decoder's first step, at type 0. */
  lemma FirstStep(mode: Mode, ch: byte, rest: seq<byte>, m: Move)
    requires Fine(mode) && m == Feed(0, mode, ch) && !m.stop && Fine(m.mode)
    ensures Unescape(0, mode, [ch] + rest) == m.out + Unescape(0, m.mode, rest)
  {
    assert ([ch] + rest)[1..] == rest;
  }

  lemma PlainTail(high: byte, low: byte, rest: seq<byte>)
    requires high != PERCENT && low != PERCENT
    ensures Unescape(0, Usual, [high] + ([low] + rest)) == [high, low] + Unescape(0, Usual, rest)
  {
    FirstStep(Usual, low, rest, Move([low], Usual, false));
    FirstStep(Usual, high, [low] + rest, Move([high], Usual, false));
  }

  /** After a percent sign an escape is taken for a stray character and two plain ones. */
  lemma EscapeSpoilt(mode: Mode, high: byte, low: byte, rest: seq<byte>)
    requires Fine(mode) && !mode.Usual? && high != PERCENT && low != PERCENT
    ensures Unescape(0, mode, [PERCENT, high, low] + rest)
            == (if mode.Quoted? then [PERCENT] else []) + ([high, low] + Unescape(0, Usual, rest))
  {
    var tail := [high] + ([low] + rest);
    PlainTail(high, low, rest);
    FirstStep(mode, PERCENT, tail, Move(if mode.Quoted? then [PERCENT] else [], Usual, false));
    assert [PERCENT, high, low] + rest == [PERCENT] + tail;
  }

  /** A percent sign of the text is lost on what follows it. */
  lemma AfterPercentStep(esc: set<byte>, src: seq<byte>)
    requires LeavesPercent(esc)
    ensures var r := AfterPercent(esc, src);
            if src == [] then r == []
            else if src[0] in esc then
              r == [PERCENT, HexDigit(src[0] / 16), HexDigit(src[0] % 16)] + Back(esc, src[1..])
            else if DigitOf(src[0]) < 0 then r == [src[0]] + Back(esc, src[1..])
            else r == AfterDigit(esc, DigitOf(src[0]), src[0], src[1..])
  {
    if src != [] {
      var rest := Escape(esc, src[1..]);
      if src[0] in esc {
        DigitRoundTrip(src[0] / 16);
        DigitRoundTrip(src[0] % 16);
        EscapeSpoilt(Quoted, HexDigit(src[0] / 16), HexDigit(src[0] % 16), rest);
      } else {
        assert ([src[0]] + rest)[1..] == rest;
      }
    }
  }

  function AfterDigit(esc: set<byte>, v: nat, text: byte, src: seq<byte>): seq<byte>
    requires v < 16
  {
    Unescape(0, Second(v, text), Escape(esc, src))
  }

  lemma AfterDigitEscape(esc: set<byte>, v: nat, text: byte, ch: byte, rest: seq<byte>)
    requires v < 16 && ch in esc
    ensures Unescape(0, Second(v, text), EscapeByte(esc, ch) + rest)
            == [HexDigit(ch / 16), HexDigit(ch % 16)] + Unescape(0, Usual, rest)
  {
    DigitRoundTrip(ch / 16);
    DigitRoundTrip(ch % 16);
    EscapeSpoilt(Second(v, text), HexDigit(ch / 16), HexDigit(ch % 16), rest);
  }

  lemma AfterDigitStep(esc: set<byte>, v: nat, text: byte, src: seq<byte>)
    requires v < 16 && LeavesPercent(esc)
    ensures var r := AfterDigit(esc, v, text, src);
            if src == [] then r == []
            else if src[0] in esc then r == [HexDigit(src[0] / 16), HexDigit(src[0] % 16)] + Back(esc, src[1..])
            else if DigitOf(src[0]) < 0 then r == Back(esc, src[1..])
            else r == [16 * v + DigitOf(src[0])] + Back(esc, src[1..])
  {
    if src != [] {
      var rest := Escape(esc, src[1..]);
      if src[0] in esc { AfterDigitEscape(esc, v, text, src[0], rest); } else { SecondStep(v, text, src[0], rest); }
    }
  }

  lemma SecondStep(v: nat, text: byte, ch: byte, rest: seq<byte>)
    requires v < 16
    ensures Unescape(0, Second(v, text), [ch] + rest)
            == (if DigitOf(ch) < 0 then [] else [16 * v + DigitOf(ch)]) + Unescape(0, Usual, rest)
  {
    assert ([ch] + rest)[1..] == rest;
    assert Feed(0, Second(v, text), ch) == Move(if DigitOf(ch) < 0 then [] else [16 * v + DigitOf(ch)], Usual, false);
  }

  lemma PercentsOfThree(high: byte, low: byte, rest: seq<byte>)
    requires high != PERCENT && low != PERCENT
    ensures Percents([PERCENT, high, low] + rest) == 1 + Percents(rest)
            && Percents([high, low] + rest) == Percents(rest)
  {
    PercentsAppend([PERCENT, high, low], rest);
    PercentsAppend([high, low], rest);
    assert [PERCENT, high, low][1..] == [high, low] && [high, low][1..] == [low] && [low][1..] == [];
  }

  lemma PercentsOfOne(ch: byte, rest: seq<byte>)
    ensures Percents([ch] + rest) == (if ch == PERCENT then 1 else 0) + Percents(rest)
  {
    assert ([ch] + rest)[1..] == rest;
  }

  /** Decoding never gains a percent sign. */
  lemma {:induction false} BackPercents(esc: set<byte>, src: seq<byte>)
    requires LeavesPercent(esc)
    ensures Percents(Back(esc, src)) <= Percents(src)
    decreases |src|
  {
    if src != [] {
      BackStep(esc, src);
      if src[0] == PERCENT {
        AfterPercents(esc, src[1..]);
      } else {
        PercentsOfOne(src[0], Back(esc, src[1..]));
        BackPercents(esc, src[1..]);
      }
    }
  }

  /** What comes of a text after a percent sign: the sign is kept in front of it, or lost altogether. */
  lemma {:induction false} AfterPercents(esc: set<byte>, src: seq<byte>)
    requires LeavesPercent(esc)
    ensures var r := AfterPercent(esc, src);
            Percents(r) <= 1 + Percents(src) && (r == [] || r[0] == PERCENT || Percents(r) <= Percents(src))
    decreases |src|
  {
    AfterPercentStep(esc, src);
    if src != [] {
      BackPercents(esc, src[1..]);
      if src[0] in esc {
        DigitRoundTrip(src[0] / 16);
        DigitRoundTrip(src[0] % 16);
        PercentsOfThree(HexDigit(src[0] / 16), HexDigit(src[0] % 16), Back(esc, src[1..]));
      } else if DigitOf(src[0]) < 0 {
        PercentsOfOne(src[0], Back(esc, src[1..]));
      } else {
        AfterDigitPercents(esc, DigitOf(src[0]), src[0], src[1..]);
      }
    }
  }

  lemma {:induction false} AfterDigitPercents(esc: set<byte>, v: nat, text: byte, src: seq<byte>)
    requires v < 16 && LeavesPercent(esc)
    ensures var r := AfterDigit(esc, v, text, src);
            Percents(r) <= 1 + Percents(src) && (r == [] || r[0] == PERCENT || Percents(r) <= Percents(src))
    decreases |src|
  {
    AfterDigitStep(esc, v, text, src);
    if src != [] {
      BackPercents(esc, src[1..]);
      if src[0] in esc {
        DigitRoundTrip(src[0] / 16);
        DigitRoundTrip(src[0] % 16);
        PercentsOfThree(HexDigit(src[0] / 16), HexDigit(src[0] % 16), Back(esc, src[1..]));
      } else if DigitOf(src[0]) >= 0 {
        PercentsOfOne(16 * v + DigitOf(src[0]), Back(esc, src[1..]));
      }
    }
  }

  /** Bytes that are not escaped and not percent signs. */
  ghost predicate Plain(esc: set<byte>, w: seq<byte>)
  {
    forall i :: 0 <= i < |w| ==> w[i] != PERCENT && w[i] !in esc
  }

  lemma {:induction false} PlainPercents(esc: set<byte>, w: seq<byte>, s: seq<byte>)
    requires Plain(esc, w)
    ensures Percents(w + s) == Percents(s)
  {
    PercentsAppend(w, s);
    if w != [] {
      PlainPercents(esc, w[1..], []);
      assert w[1..] + [] == w[1..];
    }
  }

  /** Decoding never puts plain bytes in front of the text. */
  lemma {:induction false} NeverShifted(esc: set<byte>, w: seq<byte>, src: seq<byte>)
    requires LeavesPercent(esc) && w != [] && Plain(esc, w)
    ensures Back(esc, src) != w + src
    decreases |src|
  {
    if src == [] {
      assert Back(esc, src) == [];
    } else {
      BackStep(esc, src);
      if src[0] == PERCENT {
        AfterPercents(esc, src[1..]);
        PercentsOfOne(PERCENT, src[1..]);
        assert src == [PERCENT] + src[1..];
        PlainPercents(esc, w, src);
        DifferAtStart(AfterPercent(esc, src[1..]), w, src);
      } else {
        ShiftOn(esc, w, src);
      }
    }
  }

  lemma DifferAtStart(r: seq<byte>, w: seq<byte>, src: seq<byte>)
    requires w != [] && w[0] != PERCENT && (r == [] || r[0] == PERCENT || Percents(r) < Percents(w + src))
    ensures r != w + src
  {
    assert (w + src)[0] == w[0];
  }

  lemma {:induction false} ShiftOn(esc: set<byte>, w: seq<byte>, src: seq<byte>)
    requires LeavesPercent(esc) && w != [] && Plain(esc, w) && src != [] && src[0] != PERCENT
    ensures [src[0]] + Back(esc, src[1..]) != w + src
    decreases |src|, 0
  {
    if src[0] in esc {
      assert ([src[0]] + Back(esc, src[1..]))[0] != (w + src)[0];
    } else {
      var w' := w[1..] + [src[0]];
      NeverShifted(esc, w', src[1..]);
      assert (w + src)[1..] == w' + src[1..];
      assert ([src[0]] + Back(esc, src[1..]))[1..] == Back(esc, src[1..]);
    }
  }

  lemma DifferAtSecond(x: seq<byte>, y: seq<byte>)
    requires |x| >= 2 && |y| >= 2 && x[1] != y[1]
    ensures x != y
  {}

  /** After a percent sign in the text the text does not come back. */
  lemma PercentNotUndone(esc: set<byte>, src: seq<byte>)
    requires LeavesPercent(esc)
    ensures AfterPercent(esc, src) != [PERCENT] + src
  {
    var r := AfterPercent(esc, src);
    AfterPercentStep(esc, src);
    if src != [] {
      if src[0] in esc {
        assert HexDigit(src[0] / 16) !in esc;
        DifferAtSecond(r, [PERCENT] + src);
      } else if DigitOf(src[0]) < 0 {
        BackPercents(esc, src[1..]);
        PercentsOfOne(src[0], Back(esc, src[1..]));
        PercentsOfOne(PERCENT, src);
        if src[0] != PERCENT { assert r[0] != ([PERCENT] + src)[0]; }
      } else {
        DigitNotUndone(esc, src[0], src[1..]);
        assert [PERCENT] + src == [PERCENT, src[0]] + src[1..];
      }
    }
  }

  lemma DigitNotUndone(esc: set<byte>, first: byte, src: seq<byte>)
    requires LeavesPercent(esc) && first !in esc && DigitOf(first) >= 0
    ensures AfterDigit(esc, DigitOf(first), first, src) != [PERCENT, first] + src
  {
    var r := AfterDigit(esc, DigitOf(first), first, src);
    var whole := [PERCENT, first] + src;
    AfterDigitStep(esc, DigitOf(first), first, src);
    if src != [] {
      assert whole == [PERCENT] + ([first] + src) && first != PERCENT;
      PercentsOfOne(PERCENT, [first] + src);
      PercentsOfOne(first, src);
      if src[0] in esc {
        DigitRoundTrip(src[0] / 16);
        assert r[0] != whole[0];
      } else if DigitOf(src[0]) < 0 {
        BackPercents(esc, src[1..]);
        PercentsOfOne(src[0], src[1..]);
        assert src == [src[0]] + src[1..];
      } else {
        NeverShifted(esc, [first, src[0]], src[1..]);
        assert whole[1..] == [first, src[0]] + src[1..];
        assert r[1..] == Back(esc, src[1..]);
      }
    }
  }

  lemma {:induction false} PercentBreaks(esc: set<byte>, src: seq<byte>)
    requires LeavesPercent(esc) && PERCENT in src
    ensures Back(esc, src) != src
    decreases |src|
  {
    BackStep(esc, src);
    assert src == [src[0]] + src[1..];
    if src[0] == PERCENT {
      PercentNotUndone(esc, src[1..]);
    } else {
      assert PERCENT in src[1..];
      PercentBreaks(esc, src[1..]);
      assert Back(esc, src)[1..] == Back(esc, src[1..]);
    }
  }

  /** Decoding at type 0 undoes encoding exactly when the percent sign is escaped or the text has none. */
  lemma RoundTripExactly(esc: set<byte>, src: seq<byte>)
    requires forall v: nat :: v < 16 ==> HexDigit(v) !in esc
    ensures Unescape(0, Usual, Escape(esc, src)) == src <==> PERCENT in esc || PERCENT !in src
  {
    if PERCENT in esc || PERCENT !in src { DecodeEncode(0, esc, src); } else { PercentBreaks(esc, src); }
  }

  // ---- The tables ----

  lemma DropFour(w: nat, b: nat)
    requires b >= 4
    ensures BitSet(w, b) == BitSet(w / 16, b - 4)
  {
    assert BitSet(w, b) == BitSet(w / 2, b - 1) == BitSet(w / 2 / 2, b - 2);
    assert BitSet(w / 4, b - 2) == BitSet(w / 4 / 2, b - 3) == BitSet(w / 4 / 2 / 2, b - 4);
  }

  lemma DropSixteen(w: nat, b: nat)
    requires b >= 16
    ensures BitSet(w, b) == BitSet(w / 0x1_0000, b - 16)
  {
    DropFour(w, b);
    DropFour(w / 16, b - 4);
    DropFour(w / 16 / 16, b - 8);
    DropFour(w / 16 / 16 / 16, b - 12);
    FourNibbles(w);
  }

  lemma FourNibbles(w: nat)
    ensures w / 16 / 16 / 16 / 16 == w / 0x1_0000
  {}

  /** A number with `k` zeros below. */
  lemma {:induction false} ZeroBelow(m: nat, k: nat, b: nat)
    requires b < k
    ensures !BitSet(m * Pow2(k), b)
    decreases b
  {
    assert m * Pow2(k) == 2 * (m * Pow2(k - 1));
    if b > 0 { ZeroBelow(m, k - 1, b - 1); }
  }

  /** Every table but the one for refresh headers escapes the percent sign. */
  lemma WhoEscapesPercent(t: nat)
    requires t < TYPES
    ensures Escapes(t, PERCENT) <==> t != REFRESH
  {
    var w := Table(t)[1];
    DropFour(w, 5);
    assert BitSet(w, 5) == BitSet(w / 16, 1) == BitSet(w / 16 / 2, 0);
  }

  /** Hexadecimal digits stand for themselves in every table. */
  lemma DigitsPlain(t: nat, v: nat)
    requires t < TYPES && v < 16
    ensures !Escapes(t, HexDigit(v))
  {
    assert Pow2(10) == 1024;
    if v < 10 {
      var w := Table(t)[1];
      DropSixteen(w, 16 + v);
      ZeroBelow(w / 0x1_0000 / 1024, 10, v);
    } else {
      var w := Table(t)[2];
      var b := v - 9;
      assert BitSet(w, b) == BitSet(w / 2, b - 1);
      ZeroBelow(w / 2 / 1024, 10, b - 1);
    }
  }

  /** So decoding at type 0 undoes encoding for every text and every table but the one for refresh headers,
      and there for the texts without a percent sign. */
  lemma RoundTrip(t: nat, src: seq<byte>)
    requires t < TYPES
    ensures Unescape(0, Usual, Escape(EscapedBy(t), src)) == src <==> t != REFRESH || PERCENT !in src
  {
    WhoEscapesPercent(t);
    forall v: nat | v < 16 ensures HexDigit(v) !in EscapedBy(t) { DigitsPlain(t, v); }
    RoundTripExactly(EscapedBy(t), src);
  }

  // ---- What the URI functions of the examples do ----

  /** RFC 3986, section 2.3. */
  predicate Unreserved(ch: byte) {
    || 0x41 <= ch <= 0x5A || 0x61 <= ch <= 0x7A || 0x30 <= ch <= 0x39
    || ch == 0x2D || ch == 0x2E || ch == 0x5F || ch == 0x7E
  }

  /** The hexadecimal digits of the words of the table for URI components, lowest first. */
  function ComponentDigits(k: nat): (r: seq<nat>)
    requires k < 8
    ensures |r| == 8
  {
    if k == 1 then [15, 15, 15, 9, 0, 0, 12, 15]
    else if k == 2 then [1, 0, 0, 0, 0, 0, 8, 7]
    else if k == 3 then [1, 0, 0, 0, 0, 0, 8, 11]
    else [15, 15, 15, 15, 15, 15, 15, 15]
  }

  predicate AreDigits(ds: seq<nat>) { forall i :: 0 <= i < |ds| ==> ds[i] < 16 }

  function WordOf(ds: seq<nat>): nat { if ds == [] then 0 else ds[0] + 16 * WordOf(ds[1..]) }

  lemma WordOfEight(d0: nat, d1: nat, d2: nat, d3: nat, d4: nat, d5: nat, d6: nat, d7: nat)
    ensures WordOf([d0, d1, d2, d3, d4, d5, d6, d7])
            == d0 + 16 * d1 + 0x100 * d2 + 0x1000 * d3 + 0x1_0000 * d4 + 0x10_0000 * d5 + 0x100_0000 * d6
              + 0x1000_0000 * d7
  {
    var ds := [d0, d1, d2, d3, d4, d5, d6, d7];
    assert ds[1..] == [d1, d2, d3, d4, d5, d6, d7] && ds[1..][1..] == [d2, d3, d4, d5, d6, d7];
    assert WordOf(ds) == d0 + 16 * (d1 + 16 * WordOf([d2, d3, d4, d5, d6, d7]));
    assert [d2, d3, d4, d5, d6, d7][1..] == [d3, d4, d5, d6, d7] && [d3, d4, d5, d6, d7][1..] == [d4, d5, d6, d7];
    assert WordOf([d2, d3, d4, d5, d6, d7]) == d2 + 16 * (d3 + 16 * WordOf([d4, d5, d6, d7]));
    assert [d4, d5, d6, d7][1..] == [d5, d6, d7] && [d5, d6, d7][1..] == [d6, d7];
    assert WordOf([d4, d5, d6, d7]) == d4 + 16 * (d5 + 16 * WordOf([d6, d7]));
    assert [d6, d7][1..] == [d7] && [d7][1..] == [];
    assert WordOf([d6, d7]) == d6 + 16 * WordOf([d7]) && WordOf([d7]) == d7 + 16 * WordOf([]);
  }

  lemma ComponentWords(k: nat)
    requires k < 8
    ensures WordOf(ComponentDigits(k)) == Table(URI_COMPONENT)[k]
  {
    WordOfEight(15, 15, 15, 9, 0, 0, 12, 15);
    WordOfEight(1, 0, 0, 0, 0, 0, 8, 7);
    WordOfEight(1, 0, 0, 0, 0, 0, 8, 11);
    WordOfEight(15, 15, 15, 15, 15, 15, 15, 15);
  }

  /** Bit `r` of a hexadecimal digit. */
  predicate DigitBit(d: nat, r: nat) {
    if r == 0 then d % 2 == 1 else if r == 1 then d / 2 % 2 == 1 else if r == 2 then d / 4 % 2 == 1 else d / 8 % 2 == 1
  }

  lemma Halves(d: nat, m: nat)
    requires d < 16
    ensures (d + 16 * m) / 2 == d / 2 + 8 * m && (d / 2 + 8 * m) / 2 == d / 4 + 4 * m
            && (d / 4 + 4 * m) / 2 == d / 8 + 2 * m
    ensures (d + 16 * m) % 2 == d % 2 && (d / 2 + 8 * m) % 2 == d / 2 % 2 && (d / 4 + 4 * m) % 2 == d / 4 % 2
            && (d / 8 + 2 * m) % 2 == d / 8 % 2
  {}

  lemma NextBit(w: nat, b: nat)
    ensures BitSet(w, b) == if b == 0 then w % 2 == 1 else BitSet(w / 2, b - 1)
  {}

  lemma LowDigit(d: nat, m: nat, r: nat)
    requires d < 16 && r < 4
    ensures BitSet(d + 16 * m, r) == DigitBit(d, r)
  {
    Halves(d, m);
    NextBit(d + 16 * m, r);
    if r > 0 { NextBit(d / 2 + 8 * m, r - 1); }
    if r > 1 { NextBit(d / 4 + 4 * m, r - 2); }
    if r > 2 { NextBit(d / 8 + 2 * m, r - 3); }
  }

  lemma {:induction false} WordBits(ds: seq<nat>, q: nat, r: nat)
    requires AreDigits(ds) && q < |ds| && r < 4
    ensures BitSet(WordOf(ds), 4 * q + r) == DigitBit(ds[q], r)
    decreases q
  {
    if q == 0 {
      LowDigit(ds[0], WordOf(ds[1..]), r);
    } else {
      DropFour(WordOf(ds), 4 * q + r);
      assert WordOf(ds) / 16 == WordOf(ds[1..]);
      WordBits(ds[1..], q - 1, r);
    }
  }

  lemma DigitsDecide(k: nat, q: nat, r: nat)
    requires k < 8 && q < 8 && r < 4
    ensures DigitBit(ComponentDigits(k)[q], r) <==> !Unreserved(32 * k + 4 * q + r)
  {}

  /** The table for URI components escapes exactly the bytes that are not unreserved. */
  lemma ComponentEscapes(ch: byte)
    ensures Escapes(URI_COMPONENT, ch) <==> !Unreserved(ch)
  {
    hide BitSet, Table, Unreserved;
    BitDecides(ch / 32, ch % 32 / 4, ch % 4);
    assert ch % 32 == 4 * (ch % 32 / 4) + ch % 4;
  }

  lemma BitDecides(k: nat, q: nat, r: nat)
    requires k < 8 && q < 8 && r < 4
    ensures BitSet(Table(URI_COMPONENT)[k], 4 * q + r) <==> !Unreserved(32 * k + 4 * q + r)
  {
    ComponentWords(k);
    WordBits(ComponentDigits(k), q, r);
    DigitsDecide(k, q, r);
  }

  function ExampleEncode(src: seq<byte>): seq<byte> { Escape(EscapedBy(URI_COMPONENT), src) }

  function ExampleDecode(src: seq<byte>): seq<byte> { Unescape(UNESCAPE_URI, Usual, src) }

  /** Decoding what `example_uri_encode` has made gives the text up to its first question mark. */
  lemma ExampleRoundTrip(src: seq<byte>)
    ensures ExampleDecode(ExampleEncode(src)) == UpToQuestion(src)
    ensures ExampleDecode(ExampleEncode(src)) == src
            <==> QUESTION !in src || (src != [] && QUESTION !in src[..|src| - 1])
  {
    WhoEscapesPercent(URI_COMPONENT);
    DecodeEncode(1, EscapedBy(URI_COMPONENT), src);
    UpToQuestionWhole(src);
  }

  lemma {:induction false} UpToQuestionWhole(src: seq<byte>)
    ensures UpToQuestion(src) <= src
    ensures UpToQuestion(src) == src <==> src == [] || QUESTION !in src[..|src| - 1]
  {
    if src != [] && src[0] != QUESTION {
      UpToQuestionWhole(src[1..]);
      if |src| > 1 { assert src[..|src| - 1] == [src[0]] + src[1..][..|src| - 2]; }
      assert UpToQuestion(src)[1..] == UpToQuestion(src[1..]);
    } else if |src| > 1 {
      assert src[..|src| - 1][0] == QUESTION;
    }
  }
}
