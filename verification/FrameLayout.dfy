// The text of an outgoing frame, and what the server reads back from the FID it printed.

module FrameLayout {
  import opened Bytes

  const HEAD: seq<char> := "{\"FID\":\"0x"
  const MIDDLE: seq<char> := "\",\"SID\":\"0x"
  const TAIL: seq<char> := "\",\"ARG\":"
  const STATUS: seq<char> := "{\"STA\":\"0x"

  /** `sizeof` of the format string, its terminating zero included. */
  const TEMPLATE_SIZE: nat := |"{\"FID\":\"0x%08lx\",\"SID\":\"0x%08lx\",\"ARG\":"| + 1

  type word = x: int | 0 <= x < TWO32

  function Digit(d: nat): (c: char)
    requires d < 16
  {
    "0123456789abcdef"[d]
  }

  /** `%08lx`: a 32-bit value as hexadecimal digits, at least `n` of them being wanted. */
  function Hex(x: nat, n: nat): seq<char> {
    if n == 0 then [] else Hex(x / 16, n - 1) + [Digit(x % 16)]
  }

  function Hex8(x: word): seq<char> { Hex(x, 8) }

  function Header(fid: word, sid: word): seq<char> { HEAD + Hex8(fid) + MIDDLE + Hex8(sid) + TAIL }

  /** The frame a client receives. */
  function FrameText(fid: word, sid: word, json: seq<char>): seq<char> { Header(fid, sid) + json + ['}'] }

  lemma {:induction false} HexLength(x: nat, n: nat)
    ensures |Hex(x, n)| == n
  {
    if n > 0 { HexLength(x / 16, n - 1); }
  }

  lemma HeaderLength(fid: word, sid: word)
    ensures |Header(fid, sid)| == 45 && TEMPLATE_SIZE == 40
  {
    HexLength(fid, 8);
    HexLength(sid, 8);
  }

  /** `sprintf` of the header into the start of a buffer: the text and a terminating zero. */
  method PrintHeader(a: array<char>, fid: word, sid: word) returns (offset: nat)
    requires a.Length >= |Header(fid, sid)| + 1
    modifies a
    ensures offset == |Header(fid, sid)|
    ensures a[..offset] == Header(fid, sid) && a[offset] == 0 as char
  {
    var text := Header(fid, sid);
    forall i | 0 <= i < |text| { a[i] := text[i]; }
    offset := |text|;
    a[offset] := 0 as char;
  }

  /** Builds a frame in a buffer of `ulLen + sizeof(template) + 6` characters, none of which is left over. */
  method Compose(fid: word, sid: word, json: seq<char>) returns (a: array<char>)
    ensures a.Length == |json| + TEMPLATE_SIZE + 6
    ensures a[..] == FrameText(fid, sid, json)
  {
    HeaderLength(fid, sid);
    var len := |json| + TEMPLATE_SIZE + 6;
    a := new char[len];
    var offset := PrintHeader(a, fid, sid);
    assert a[..45] == Header(fid, sid);
    forall i | 0 <= i < |json| { a[offset + i] := json[i]; }
    assert a[..45] == Header(fid, sid) && a[45..45 + |json|] == json;
    offset := offset + |json|;
    a[offset] := '}';
    assert a[..] == a[..45] + a[45..45 + |json|] + a[45 + |json|..];
  }

  // ---- Reading back ----

  function DigitValue(c: char): (r: int)
  {
    if '0' <= c <= '9' then c as int - '0' as int
    else if 'a' <= c <= 'f' then c as int - 'a' as int + 10
    else if 'A' <= c <= 'F' then c as int - 'A' as int + 10
    else -1
  }

  /** `strtol(s, NULL, 16)` after the optional prefix: digits up to the first character that is none. */
  function ParseHex(s: seq<char>, from: nat): nat
    decreases |s|
  {
    if s == [] || DigitValue(s[0]) < 0 then from else ParseHex(s[1..], 16 * from + DigitValue(s[0]))
  }

  /** `strtol` with a 32-bit `long`, on a string without sign or leading blanks. */
  function Strtol16(s: seq<char>): nat {
    var prefixed := |s| >= 3 && s[0] == '0' && (s[1] == 'x' || s[1] == 'X') && DigitValue(s[2]) >= 0;
    var digits := if prefixed then s[2..] else s;
    var v := ParseHex(digits, 0);
    if v > 0x7fff_ffff then 0x7fff_ffff else v
  }

  lemma DigitRead(d: nat)
    requires d < 16
    ensures DigitValue(Digit(d)) == d
  {}

  function Pow16(n: nat): nat { if n == 0 then 1 else 16 * Pow16(n - 1) }

  lemma {:induction false} ParsePrefix(s: seq<char>, c: char, from: nat)
    requires DigitValue(c) >= 0 && forall i :: 0 <= i < |s| ==> DigitValue(s[i]) >= 0
    ensures ParseHex(s + [c], from) == 16 * ParseHex(s, from) + DigitValue(c)
    decreases |s|
  {
    if s == [] {
      assert s + [c] == [c];
      assert ParseHex([c][1..], 16 * from + DigitValue(c)) == 16 * from + DigitValue(c);
    } else {
      assert (s + [c])[1..] == s[1..] + [c];
      ParsePrefix(s[1..], c, 16 * from + DigitValue(s[0]));
    }
  }

  lemma {:induction false} HexRead(x: nat, n: nat)
    requires x < Pow16(n)
    ensures forall i :: 0 <= i < |Hex(x, n)| ==> DigitValue(Hex(x, n)[i]) >= 0
    ensures ParseHex(Hex(x, n), 0) == x
  {
    if n > 0 {
      HexRead(x / 16, n - 1);
      DigitRead(x % 16);
      ParsePrefix(Hex(x / 16, n - 1), Digit(x % 16), 0);
    }
  }

  lemma Hex8Read(x: word)
    ensures ParseHex(Hex8(x), 0) == x && |Hex8(x)| == 8 && DigitValue(Hex8(x)[0]) >= 0
  {
    assert Pow16(8) == TWO32 by { assert Pow16(4) == 0x1_0000; }
    HexRead(x, 8);
    HexLength(x, 8);
  }

  /** The FID that the server prints, sent back to it as a request's FID, is read as the same FID exactly
      when it is below 2^31; any other reads as the greatest `long`. */
  lemma PrintedFidReadBack(fid: word)
    ensures Strtol16("0x" + Hex8(fid)) == fid <==> fid < 0x8000_0000
    ensures fid >= 0x8000_0000 ==> Strtol16("0x" + Hex8(fid)) == 0x7fff_ffff
  {
    Hex8Read(fid);
    assert ("0x" + Hex8(fid))[2..] == Hex8(fid);
  }

  /** A frame names its FID, its SID and its payload without ambiguity. */
  lemma FrameTextInjective(fid: word, sid: word, json: seq<char>, fid': word, sid': word, json': seq<char>)
    requires FrameText(fid, sid, json) == FrameText(fid', sid', json')
    ensures fid == fid' && sid == sid' && json == json'
  {
    FrameFields(fid, sid, json);
    FrameFields(fid', sid', json');
    Hex8Read(fid);
    Hex8Read(fid');
    Hex8Read(sid);
    Hex8Read(sid');
  }

  lemma FrameFields(fid: word, sid: word, json: seq<char>)
    ensures var t := FrameText(fid, sid, json);
            |t| == 46 + |json| && t[10..18] == Hex8(fid) && t[29..37] == Hex8(sid) && t[45..|t| - 1] == json
  {
    HexLength(fid, 8);
    HexLength(sid, 8);
    var t := FrameText(fid, sid, json);
    assert t == HEAD + Hex8(fid) + (MIDDLE + Hex8(sid) + TAIL + json + ['}']);
    assert t == (HEAD + Hex8(fid) + MIDDLE) + Hex8(sid) + (TAIL + json + ['}']);
    assert t == Header(fid, sid) + json + ['}'];
  }

  /** The text of a status, with its terminating zero, fills the 21 characters set aside for it. */
  lemma StatusFits(status: word)
    ensures |STATUS + Hex8(status) + "\"}"| + 1 == 21
  {
    HexLength(status, 8);
  }

  lemma {:induction false} HexMore(x: nat, n: nat, zeros: seq<char>)
    requires x < 16 && n >= 1 && |zeros| == n - 1 && forall i :: 0 <= i < |zeros| ==> zeros[i] == '0'
    ensures Hex(x, n) == zeros + [Digit(x)]
    decreases n
  {
    if n > 1 {
      HexMore(0, n - 1, zeros[..n - 2]);
      assert zeros == zeros[..n - 2] + ['0'];
    }
  }

  /** What a client sees: the FID and the SID as eight digits each, and the status DELIVERED. */
  lemma KnownTexts(fid: word, sid: word, json: seq<char>)
    ensures FrameText(fid, sid, json)
            == "{\"FID\":\"0x" + Hex8(fid) + "\",\"SID\":\"0x" + Hex8(sid) + "\",\"ARG\":" + json + "}"
    ensures Hex8(5) == "00000005" && STATUS + Hex8(5) + "\"}" == "{\"STA\":\"0x" + "00000005" + "\"}"
  {
    HexMore(5, 8, "0000000");
    assert "0000000" + [Digit(5)] == "00000005";
    hide Hex;
    assert Header(fid, sid) + json + ['}']
      == "{\"FID\":\"0x" + Hex8(fid) + "\",\"SID\":\"0x" + Hex8(sid) + "\",\"ARG\":" + json + "}";
  }
}
