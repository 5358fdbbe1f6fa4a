/**
 The JSON string escaper of the native core (jsonEscape in backend/cpp_core/src/main.cpp), with the string grammar of
 section 7 of RFC 8259 as its reader. Strings are byte strings; bytes of 0x80 and above pass through unread, as parts of
 UTF-8 sequences or not.
 */
module JsonEscape {
  import opened Wrappers

  type Byte = x: int | 0 <= x < 256
  type Bytes = seq<Byte>

  const QUOTE: Byte := 0x22
  const BACKSLASH: Byte := 0x5C

  // ---- writing ----

  function HexDigit(d: int): Byte
    requires 0 <= d < 16
  {
    if d < 10 then 0x30 + d else 0x41 + d - 10
  }

  function EscapeByte(ch: Byte): Bytes {
    if ch == BACKSLASH then [BACKSLASH, BACKSLASH]
    else if ch == QUOTE then [BACKSLASH, QUOTE]
    else if ch == 0x0A then [BACKSLASH, 0x6E]
    else if ch == 0x0D then [BACKSLASH, 0x72]
    else if ch == 0x09 then [BACKSLASH, 0x74]
    else if ch < 0x20 then [BACKSLASH, 0x75, 0x30, 0x30, HexDigit(ch / 16), HexDigit(ch % 16)]
    else [ch]
  }

  function Escape(value: Bytes): Bytes {
    if value == [] then [] else EscapeByte(value[0]) + Escape(value[1..])
  }

  method JsonEscape(value: Bytes) returns (out: Bytes)
    ensures out == Escape(value)
  {
    out := [];
    for i := 0 to |value|
      invariant out == Escape(value[..i])
    {
      var ch := value[i];
      assert value[..i + 1] == value[..i] + [ch];
      EscapeDistributes(value[..i], [ch]);
      assert Escape([ch]) == EscapeByte(ch) + Escape([ch][1..]) == EscapeByte(ch);
      if ch == BACKSLASH {
        out := out + [BACKSLASH, BACKSLASH];
      } else if ch == QUOTE {
        out := out + [BACKSLASH, QUOTE];
      } else if ch == 0x0A {
        out := out + [BACKSLASH, 0x6E];
      } else if ch == 0x0D {
        out := out + [BACKSLASH, 0x72];
      } else if ch == 0x09 {
        out := out + [BACKSLASH, 0x74];
      } else if ch < 0x20 {
        out := out + [BACKSLASH, 0x75, 0x30, 0x30, HexDigit(ch / 16), HexDigit(ch % 16)];
      } else {
        out := out + [ch];
      }
    }
    assert value[..|value|] == value;
  }

  /** Five bytes have a short escape, the other control bytes a long one with upper-case digits, and every other byte
      stands for itself. */
  lemma EscapeLength(ch: Byte)
    ensures |EscapeByte(ch)| == 1 <==> ch >= 0x20 && ch != QUOTE && ch != BACKSLASH
    ensures |EscapeByte(ch)| == 2 <==> ch in {QUOTE, BACKSLASH, 0x09, 0x0A, 0x0D}
    ensures |EscapeByte(ch)| != 1 && |EscapeByte(ch)| != 2 ==>
              |EscapeByte(ch)| == 6 && forall b <- EscapeByte(ch)[2..] :: 0x30 <= b <= 0x39 || 0x41 <= b <= 0x46
  {
  }

  // ---- reading ----

  /** The value of a hexadecimal digit of either case. */
  function HexValue(b: Byte): Option<int> {
    if 0x30 <= b <= 0x39 then Some(b - 0x30)
    else if 0x41 <= b <= 0x46 then Some(b - 0x41 + 10)
    else if 0x61 <= b <= 0x66 then Some(b - 0x61 + 10)
    else None
  }

  /** The code unit of four hexadecimal digits. */
  function CodeUnit(s: Bytes): (u: Option<int>)
    ensures u.Some? ==> |s| >= 4 && 0 <= u.value < 0x1_0000
  {
    if |s| < 4 || HexValue(s[0]).None? || HexValue(s[1]).None? || HexValue(s[2]).None? || HexValue(s[3]).None? then None
    else Some(0x1000 * HexValue(s[0]).value + 0x100 * HexValue(s[1]).value + 0x10 * HexValue(s[2]).value
              + HexValue(s[3]).value)
  }

  function Utf8(code: int): Bytes
    requires 0 <= code < 0x11_0000
  {
    if code < 0x80 then [code]
    else if code < 0x800 then [0xC0 + code / 0x40, 0x80 + code % 0x40]
    else if code < 0x1_0000 then [0xE0 + code / 0x1000, 0x80 + code / 0x40 % 0x40, 0x80 + code % 0x40]
    else [0xF0 + code / 0x4_0000, 0x80 + code / 0x1000 % 0x40, 0x80 + code / 0x40 % 0x40, 0x80 + code % 0x40]
  }

  /** One escape, after its backslash: the bytes it stands for and what follows it. */
  function ReadEscape(s: Bytes): (r: Option<(Bytes, Bytes)>)
    ensures r.Some? ==> |r.value.1| < |s|
  {
    if s == [] then None
    else if s[0] in {QUOTE, BACKSLASH, 0x2F} then Some(([s[0]], s[1..]))
    else if s[0] == 0x62 then Some(([0x08], s[1..]))
    else if s[0] == 0x66 then Some(([0x0C], s[1..]))
    else if s[0] == 0x6E then Some(([0x0A], s[1..]))
    else if s[0] == 0x72 then Some(([0x0D], s[1..]))
    else if s[0] == 0x74 then Some(([0x09], s[1..]))
    else if s[0] == 0x75 then
      var unit := CodeUnit(s[1..]);
      if unit.None? then None
      else
        var rest := s[5..];
        var low := if |rest| >= 2 && rest[0] == BACKSLASH && rest[1] == 0x75 then CodeUnit(rest[2..]) else None;
        if 0xD800 <= unit.value < 0xDC00 && low.Some? && 0xDC00 <= low.value < 0xE000
        then Some((Utf8(0x1_0000 + (unit.value - 0xD800) * 0x400 + (low.value - 0xDC00)), rest[6..]))
        else Some((Utf8(unit.value), rest))
    else None
  }

  /** The characters of a string up to its closing quote, decoded, and what follows the quote. */
  function ReadString(s: Bytes): Option<(Bytes, Bytes)>
    decreases |s|
  {
    if s == [] || s[0] < 0x20 then None
    else if s[0] == QUOTE then Some(([], s[1..]))
    else
      var first := if s[0] == BACKSLASH then ReadEscape(s[1..]) else Some(([s[0]], s[1..]));
      if first.None? then None
      else
        var more := ReadString(first.value.1);
        if more.None? then None else Some((first.value.0 + more.value.0, more.value.1))
  }

  // ---- the two fit ----

  lemma HexDigitReads(d: int)
    requires 0 <= d < 16
    ensures HexValue(HexDigit(d)) == Some(d)
  {
  }

  lemma ReadsLongEscape(ch: Byte, u: Bytes)
    requires ch < 0x80 && |u| >= 5 && u[..5] == [0x75, 0x30, 0x30, HexDigit(ch / 16), HexDigit(ch % 16)]
    ensures ReadEscape(u) == Some(([ch], u[5..]))
  {
    hide HexValue, HexDigit;
    HexDigitReads(0);
    HexDigitReads(ch / 16);
    HexDigitReads(ch % 16);
    HexZero();
    assert u[0] == u[..5][0] == 0x75;
    var digits := u[1..];
    assert digits[0] == u[..5][1] && digits[1] == u[..5][2] && digits[2] == u[..5][3] && digits[3] == u[..5][4];
    assert CodeUnit(digits) == Some(ch);
  }

  lemma HexZero()
    ensures HexDigit(0) == 0x30
  {
  }

  lemma ReadsBackByte(ch: Byte, s: Bytes)
    ensures var t := EscapeByte(ch) + s;
            && t[0] != QUOTE && t[0] >= 0x20
            && (if t[0] == BACKSLASH then ReadEscape(t[1..]) == Some(([ch], s)) else t[0] == ch && t[1..] == s)
  {
    var e := EscapeByte(ch);
    var t := e + s;
    assert t[|e|..] == s && t[1..] == e[1..] + s;
    if |e| == 6 {
      var u := t[1..];
      assert u == [0x75, 0x30, 0x30, HexDigit(ch / 16), HexDigit(ch % 16)] + s;
      ReadsLongEscape(ch, u);
      assert u[5..] == s;
    } else if |e| == 2 {
      assert t[1..][1..] == s;
    }
  }

  /** Main result: whatever the bytes and whatever follows, reading the escaped bytes and a closing quote gives the
      bytes back and stops right after that quote. */
  lemma {:induction false} EscapeReadsBack(value: Bytes, tail: Bytes)
    ensures ReadString(Escape(value) + [QUOTE] + tail) == Some((value, tail))
  {
    hide EscapeByte, ReadEscape;
    var all := Escape(value) + [QUOTE] + tail;
    if value == [] {
      assert all == [QUOTE] + tail;
    } else {
      var rest := Escape(value[1..]) + [QUOTE] + tail;
      assert all == EscapeByte(value[0]) + rest;
      ReadsBackByte(value[0], rest);
      EscapeReadsBack(value[1..], tail);
      assert [value[0]] + value[1..] == value;
    }
  }

  lemma EscapeIsInjective(a: Bytes, b: Bytes)
    requires Escape(a) == Escape(b)
    ensures a == b
  {
    EscapeReadsBack(a, []);
    EscapeReadsBack(b, []);
  }

  lemma {:induction false} EscapeDistributes(a: Bytes, b: Bytes)
    ensures Escape(a + b) == Escape(a) + Escape(b)
  {
    hide EscapeByte;
    if a == [] {
      assert a + b == b;
    } else {
      EscapeDistributes(a[1..], b);
      assert (a + b)[1..] == a[1..] + b;
    }
  }

  /** The output has no control byte, and every quote in it directly follows a backslash. */
  lemma {:induction false} EscapeIsClean(value: Bytes)
    ensures forall i :: 0 <= i < |Escape(value)| ==> Escape(value)[i] >= 0x20
    ensures forall i :: 0 <= i < |Escape(value)| && Escape(value)[i] == QUOTE ==>
            i > 0 && Escape(value)[i - 1] == BACKSLASH
  {
    if value != [] {
      EscapeIsClean(value[1..]);
      var e, rest := EscapeByte(value[0]), Escape(value[1..]);
      forall i | 0 <= i < |e + rest| && (e + rest)[i] == QUOTE ensures i > 0 && (e + rest)[i - 1] == BACKSLASH {
        if i >= |e| {
          assert rest[i - |e|] == QUOTE;
          assert rest[i - |e| - 1] == BACKSLASH;
        }
      }
    }
  }
}
