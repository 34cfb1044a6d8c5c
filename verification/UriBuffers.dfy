// The encoder and the decoder on buffers: one pass each, the decoder over its own input.

module UriBuffers {
  import opened Bytes
  import opened UriCodec

  /** Counts the bytes that will be escaped, which sizes the buffer. */
  method CountPass(src: seq<byte>, t: nat) returns (n: nat)
    requires t < TYPES
    ensures n == CountEscaped(EscapedBy(t), src)
    ensures |Escape(EscapedBy(t), src)| == |src| + 2 * n
  {
    n := 0;
    EncodedLength(EscapedBy(t), src);
    assert src[0..] == src;
    for i := 0 to |src|
      invariant n + CountEscaped(EscapedBy(t), src[i..]) == CountEscaped(EscapedBy(t), src)
    {
      assert src[i..][1..] == src[i + 1..];
      if Escapes(t, src[i]) { n := n + 1; }
    }
  }

  /** Writes the encoding of one byte at offset `d`. */
  method PutEscaped(dst: array<byte>, d: nat, ch: byte, t: nat) returns (end: nat)
    requires t < TYPES && d + |EscapeByte(EscapedBy(t), ch)| <= dst.Length
    modifies dst
    ensures end == d + |EscapeByte(EscapedBy(t), ch)| && dst[..end] == old(dst[..d]) + EscapeByte(EscapedBy(t), ch)
    ensures forall j :: end <= j < dst.Length ==> dst[j] == old(dst[j])
  {
    if Escapes(t, ch) {
      dst[d], dst[d + 1], dst[d + 2] := PERCENT, HexDigit(ch / 16), HexDigit(ch % 16);
      end := d + 3;
    } else {
      dst[d] := ch;
      end := d + 1;
    }
  }

  /** Writes the encoded text to the start of a buffer that is large enough, and returns where it ends. */
  method EscapeUri(dst: array<byte>, src: seq<byte>, t: nat) returns (d: nat)
    requires t < TYPES && dst.Length >= |src| + 2 * CountEscaped(EscapedBy(t), src)
    modifies dst
    ensures d == |src| + 2 * CountEscaped(EscapedBy(t), src)
    ensures dst[..d] == Escape(EscapedBy(t), src)
    ensures forall j :: d <= j < dst.Length ==> dst[j] == old(dst[j])
  {
    ghost var esc := EscapedBy(t);
    EncodedLength(esc, src);
    d := 0;
    var i := 0;
    assert src[0..] == src;
    while i < |src|
      invariant i <= |src| && d <= dst.Length
      invariant dst[..d] + Escape(esc, src[i..]) == Escape(esc, src)
      invariant forall j :: d <= j < dst.Length ==> dst[j] == old(dst[j])
    {
      EscapeSplit(esc, src, i, dst[..d]);
      d := PutEscaped(dst, d, src[i], t);
      i := i + 1;
    }
  }

  lemma EscapeSplit(esc: set<byte>, src: seq<byte>, i: nat, before: seq<byte>)
    requires i < |src| && before + Escape(esc, src[i..]) == Escape(esc, src)
    ensures before + EscapeByte(esc, src[i]) + Escape(esc, src[i + 1..]) == Escape(esc, src)
    ensures |before| + |EscapeByte(esc, src[i])| <= |Escape(esc, src)|
  {
    assert src[i..][1..] == src[i + 1..];
    assert Escape(esc, src[i..]) == EscapeByte(esc, src[i]) + Escape(esc, src[i + 1..]);
  }

  /** How many bytes the decoder has read and not yet written. */
  function Lag(mode: Mode): nat { match mode case Usual => 0 case Quoted => 1 case Second(_, _) => 2 }

  /** Writing never overtakes reading. */
  lemma WritesBehindReads(kind: nat, mode: Mode, ch: byte)
    requires Fine(mode)
    ensures var m := Feed(kind, mode, ch);
            && |m.out| + Lag(m.mode) <= 1 + Lag(mode) && Fine(m.mode)
            && (|m.out| <= 1 || (mode.Second? && m.out == [PERCENT, mode.text, ch]))
            && (m.mode.Second? ==> m.mode.text == ch)
  {}

  /** Writes what a move of the decoder says: the text of a kept escape is copied from where it was read. */
  method PutMove(a: array<byte>, d: nat, s: nat, m: Move) returns (end: nat)
    requires s < a.Length && d + |m.out| <= s + 1
    requires |m.out| <= 1 || (s >= 1 && m.out == [PERCENT, a[s - 1], a[s]])
    modifies a
    ensures end == d + |m.out| && a[..end] == old(a[..d]) + m.out
    ensures forall j :: end <= j < a.Length ==> a[j] == old(a[j])
  {
    if |m.out| == 3 {
      a[d] := PERCENT;
      a[d + 1] := a[s - 1];
      a[d + 2] := a[s];
    } else if |m.out| == 1 {
      a[d] := m.out[0];
    }
    end := d + |m.out|;
  }

  /** What the decoder makes of an input, and how far it reads. */
  datatype Outcome = Outcome(text: seq<byte>, consumed: nat)

  function Rest(kind: nat, mode: Mode, stop: bool, src: seq<byte>): Outcome
    requires Fine(mode)
  {
    if stop then Outcome([], 0) else Outcome(Unescape(kind, mode, src), Consumed(kind, mode, src))
  }

  lemma RestStep(kind: nat, mode: Mode, src: seq<byte>, m: Move)
    requires Fine(mode) && src != [] && m == Feed(kind, mode, src[0]) && Fine(m.mode)
    ensures var rest := Rest(kind, m.mode, m.stop, src[1..]);
            Rest(kind, mode, false, src) == Outcome(m.out + rest.text, 1 + rest.consumed)
  {}

  /** What `n` bytes written, `s` read and the rest come to. */
  ghost predicate Adds(out: seq<byte>, s: nat, rest: Outcome, end: Outcome) {
    out + rest.text == end.text && s + rest.consumed == end.consumed
  }

  lemma AddsStep(out: seq<byte>, s: nat, more: seq<byte>, rest: Outcome, end: Outcome)
    requires Adds(out, s, Outcome(more + rest.text, 1 + rest.consumed), end)
    ensures Adds(out + more, s + 1, rest, end)
  {
    assert out + (more + rest.text) == out + more + rest.text;
  }

  /** The decoder has read `s` bytes and written `n`, all of them behind its reading position. */
  ghost predicate Behind(src: seq<byte>, s: nat, mode: Mode, n: nat) {
    s <= |src| && Fine(mode) && n + Lag(mode) <= s && (mode.Second? ==> src[s - 1] == mode.text)
  }

  /** What is left to do for the outcome `end`. */
  ghost predicate Underway(kind: nat, src: seq<byte>, s: nat, mode: Mode, stop: bool, out: seq<byte>, end: Outcome) {
    Behind(src, s, mode, |out|) && Adds(out, s, Rest(kind, mode, stop, src[s..]), end)
  }

  lemma UnderwayStep(kind: nat, src: seq<byte>, s: nat, mode: Mode, out: seq<byte>, end: Outcome)
    requires Underway(kind, src, s, mode, false, out, end) && s < |src|
    ensures var m := Feed(kind, mode, src[s]);
            && Underway(kind, src, s + 1, m.mode, m.stop, out + m.out, end) && |out| + |m.out| <= s + 1
            && (|m.out| <= 1 || (s >= 1 && m.out == [PERCENT, src[s - 1], src[s]]))
  {
    var m := Feed(kind, mode, src[s]);
    WritesBehindReads(kind, mode, src[s]);
    assert src[s..][1..] == src[s + 1..];
    RestStep(kind, mode, src[s..], m);
    AddsStep(out, s, m.out, Rest(kind, m.mode, m.stop, src[s + 1..]), end);
  }

  lemma Started(kind: nat, src: seq<byte>)
    ensures Underway(kind, src, 0, Usual, false, [], Rest(kind, Usual, false, src))
  {
    assert src[0..] == src;
  }

  lemma Finished(kind: nat, src: seq<byte>, s: nat, mode: Mode, stop: bool, out: seq<byte>, end: Outcome)
    requires Underway(kind, src, s, mode, stop, out, end) && (stop || s == |src|)
    ensures out == end.text && s == end.consumed
  {
    assert src[|src|..] == [];
  }

  /** One step of the decoder on the buffer it decodes. */
  method DecodeByte(a: array<byte>, d: nat, s: nat, kind: nat, mode: Mode, ghost src: seq<byte>, ghost end: Outcome)
      returns (d': nat, m: Move)
    requires d <= s < |src| <= a.Length && Underway(kind, src, s, mode, false, a[..d], end)
    requires forall j :: d <= j < |src| ==> a[j] == src[j]
    modifies a
    ensures d <= d' <= s + 1 && Underway(kind, src, s + 1, m.mode, m.stop, a[..d'], end)
    ensures forall j :: d' <= j < a.Length ==> a[j] == old(a[j])
  {
    UnderwayStep(kind, src, s, mode, a[..d], end);
    m := Feed(kind, mode, a[s]);
    d' := PutMove(a, d, s, m);
  }

  /** Decodes the first `n` bytes of a buffer into the same buffer: returns where the decoded text ends and
      how far the input was read.  No byte is overwritten before it has been read. */
  method UnescapeInPlace(a: array<byte>, n: nat, kind: nat) returns (d: nat, s: nat)
    requires n <= a.Length
    modifies a
    ensures d <= s <= n && s == Consumed(kind, Usual, old(a[..n]))
    ensures a[..d] == Unescape(kind, Usual, old(a[..n]))
    ensures forall j :: d <= j < a.Length ==> a[j] == old(a[j])
  {
    ghost var src := a[..n];
    ghost var end := Rest(kind, Usual, false, src);
    var mode, stop := Usual, false;
    d, s := 0, 0;
    Started(kind, src);
    assert a[..0] == [];
    while s < n && !stop
      invariant d <= s <= n && Underway(kind, src, s, mode, stop, a[..d], end)
      invariant forall j :: d <= j < a.Length ==> a[j] == old(a[j])
      decreases n - s
    {
      var d', m := DecodeByte(a, d, s, kind, mode, src, end);
      d, mode, stop, s := d', m.mode, m.stop, s + 1;
    }
    Finished(kind, src, s, mode, stop, a[..d], end);
  }
}
