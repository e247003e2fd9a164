/** `encodeURIComponent` and `decodeURIComponent`: every character outside
    the unreserved set is written as the `%XX` escapes of its UTF-8 bytes,
    and decoding reads such escapes back, failing (a `URIError`) on a
    malformed escape or an invalid UTF-8 sequence. */
module Uri {
  import opened Wrappers

  /** The characters `encodeURIComponent` leaves as they are. */
  predicate IsUnreserved(c: char) {
    || 'A' <= c <= 'Z' || 'a' <= c <= 'z' || '0' <= c <= '9'
    || c == '-' || c == '_' || c == '.' || c == '!' || c == '~'
    || c == '*' || c == '\'' || c == '(' || c == ')'
  }

  // ---------------------------------------------------------------------------
  // Hexadecimal digits and UTF-8
  // ---------------------------------------------------------------------------

  /** An upper-case hexadecimal digit. */
  function HexChar(d: nat): char
    requires d < 16
  {
    if d < 10 then ('0' as int + d) as char else ('A' as int + d - 10) as char
  }

  /** The value of a hexadecimal digit of either case. */
  function HexValue(c: char): Option<nat> {
    if '0' <= c <= '9' then Some(c as int - '0' as int)
    else if 'A' <= c <= 'F' then Some(c as int - 'A' as int + 10)
    else if 'a' <= c <= 'f' then Some(c as int - 'a' as int + 10)
    else None
  }

  lemma HexValueOfHexChar(d: nat)
    requires d < 16
    ensures HexValue(HexChar(d)) == Some(d)
  {
  }

  /** The UTF-8 encoding of a code point (RFC 3629, section 3). */
  function Utf8(c: char): (bytes: seq<nat>)
    ensures 1 <= |bytes| <= 4
    ensures forall i :: 0 <= i < |bytes| ==> bytes[i] < 256
    ensures |bytes| == 1 <==> c as int < 0x80
  {
    var v := c as int;
    if v < 0x80 then [v]
    else if v < 0x800 then [0xC0 + v / 64, 0x80 + v % 64]
    else if v < 0x10000 then [0xE0 + v / 4096, 0x80 + (v / 64) % 64, 0x80 + v % 64]
    else [0xF0 + v / 262144, 0x80 + (v / 4096) % 64, 0x80 + (v / 64) % 64, 0x80 + v % 64]
  }

  // ---------------------------------------------------------------------------
  // Encoding
  // ---------------------------------------------------------------------------

  function Escape(b: nat): string
    requires b < 256
  {
    ['%', HexChar(b / 16), HexChar(b % 16)]
  }

  function EscapeAll(bytes: seq<nat>): (r: string)
    requires forall i :: 0 <= i < |bytes| ==> bytes[i] < 256
    ensures |r| == 3 * |bytes|
  {
    if |bytes| == 0 then "" else Escape(bytes[0]) + EscapeAll(bytes[1..])
  }

  function EncodeChar(c: char): string {
    if IsUnreserved(c) then [c] else EscapeAll(Utf8(c))
  }

  /** `encodeURIComponent(s)`. */
  function Encode(s: string): (r: string)
    ensures forall i :: 0 <= i < |r| ==> IsUnreserved(r[i]) || r[i] == '%'
  {
    if |s| == 0 then ""
    else
      var head := EncodeChar(s[0]);
      assert forall i :: 0 <= i < |head| ==> IsUnreserved(head[i]) || head[i] == '%' by {
        if !IsUnreserved(s[0]) {
          EscapeAllAlphabet(Utf8(s[0]));
        }
      }
      head + Encode(s[1..])
  }

  lemma {:induction false} EscapeAllAlphabet(bytes: seq<nat>)
    requires forall i :: 0 <= i < |bytes| ==> bytes[i] < 256
    ensures forall i :: 0 <= i < |EscapeAll(bytes)| ==>
      IsUnreserved(EscapeAll(bytes)[i]) || EscapeAll(bytes)[i] == '%'
    decreases |bytes|
  {
    if |bytes| > 0 {
      EscapeAllAlphabet(bytes[1..]);
    }
  }

  // ---------------------------------------------------------------------------
  // Decoding
  // ---------------------------------------------------------------------------

  /** The byte written by the escape `%XX` at index `i`. */
  function ReadByte(s: string, i: nat): (r: Option<nat>)
    ensures r.Some? ==> r.value < 256
  {
    if i + 3 <= |s| && s[i] == '%' && HexValue(s[i + 1]).Some? && HexValue(s[i + 2]).Some? then
      Some(HexValue(s[i + 1]).value * 16 + HexValue(s[i + 2]).value)
    else None
  }

  /** A continuation byte `10xxxxxx` written at index `i`, as its six payload bits. */
  function ReadContinuation(s: string, i: nat): (r: Option<nat>)
    ensures r.Some? ==> r.value < 64
  {
    match ReadByte(s, i)
    case None => None
    case Some(b) => if 0x80 <= b < 0xC0 then Some(b - 0x80) else None
  }

  /** The code point written by the escapes at the front of `s` (which starts
      with `%`) and the number of characters they take; `None` when the
      escapes are malformed, the sequence is not a valid UTF-8 encoding (an
      overlong form, a surrogate, a value above U+10FFFF), or text runs out. */
  function DecodeEscapes(s: string): (r: Option<(char, nat)>)
    ensures r.Some? ==> 3 <= r.value.1 <= |s|
  {
    match ReadByte(s, 0)
    case None => None
    case Some(b0) =>
      if b0 < 0x80 then Some((b0 as char, 3))
      else if 0xC0 <= b0 < 0xE0 then
        match ReadContinuation(s, 3)
        case None => None
        case Some(b1) =>
          var v := (b0 - 0xC0) * 64 + b1;
          if v < 0x80 then None else Some((v as char, 6))
      else if 0xE0 <= b0 < 0xF0 then
        match (ReadContinuation(s, 3), ReadContinuation(s, 6))
        case (Some(b1), Some(b2)) =>
          var v := (b0 - 0xE0) * 4096 + b1 * 64 + b2;
          if v < 0x800 || (0xD800 <= v < 0xE000) then None else Some((v as char, 9))
        case _ => None
      else if 0xF0 <= b0 < 0xF8 then
        match (ReadContinuation(s, 3), ReadContinuation(s, 6), ReadContinuation(s, 9))
        case (Some(b1), Some(b2), Some(b3)) =>
          var v := (b0 - 0xF0) * 262144 + b1 * 4096 + b2 * 64 + b3;
          if v < 0x10000 || v > 0x10FFFF then None else Some((v as char, 12))
        case _ => None
      else None
  }

  /** `decodeURIComponent(s)`; `None` is the `URIError` it throws. */
  function Decode(s: string): Option<string>
    decreases |s|
  {
    if |s| == 0 then Some("")
    else if s[0] != '%' then
      match Decode(s[1..])
      case None => None
      case Some(t) => Some([s[0]] + t)
    else
      match DecodeEscapes(s)
      case None => None
      case Some((c, used)) =>
        match Decode(s[used..])
        case None => None
        case Some(t) => Some([c] + t)
  }

  // ---------------------------------------------------------------------------
  // Round trip
  // ---------------------------------------------------------------------------

  lemma ReadByteOfEscape(b: nat, rest: string, prefix: string)
    requires b < 256 && |prefix| % 3 == 0
    ensures ReadByte(prefix + Escape(b) + rest, |prefix|) == Some(b)
  {
    var s := prefix + Escape(b) + rest;
    assert s[|prefix|] == '%' && s[|prefix| + 1] == HexChar(b / 16) && s[|prefix| + 2] == HexChar(b % 16);
    HexValueOfHexChar(b / 16);
    HexValueOfHexChar(b % 16);
  }

  /** The bytes of `Utf8(c)`: a lead byte announcing the length, then
      continuation bytes, which together carry the bits of the code point. */
  lemma Utf8Shape(c: char)
    ensures var b, v := Utf8(c), c as int;
      && (|b| == 2 ==>
            (0xC0 <= b[0] < 0xE0 && 0x80 <= b[1] < 0xC0
             && (b[0] - 0xC0) * 64 + (b[1] - 0x80) == v && v >= 0x80))
      && (|b| == 3 ==>
            (0xE0 <= b[0] < 0xF0 && 0x80 <= b[1] < 0xC0 && 0x80 <= b[2] < 0xC0
             && (b[0] - 0xE0) * 4096 + (b[1] - 0x80) * 64 + (b[2] - 0x80) == v
             && v >= 0x800 && !(0xD800 <= v < 0xE000)))
      && (|b| == 4 ==>
            (0xF0 <= b[0] < 0xF8 && 0x80 <= b[1] < 0xC0 && 0x80 <= b[2] < 0xC0
             && 0x80 <= b[3] < 0xC0
             && (b[0] - 0xF0) * 262144 + (b[1] - 0x80) * 4096 + (b[2] - 0x80) * 64 + (b[3] - 0x80) == v
             && 0x10000 <= v <= 0x10FFFF))
  {
    var v := c as int;
    if 0x80 <= v < 0x800 {
      TwoBytes(v);
    } else if 0x800 <= v < 0x10000 {
      ThreeBytes(v);
    } else if 0x10000 <= v {
      FourBytes(v);
    }
  }

  lemma TwoBytes(v: int)
    requires 0x80 <= v < 0x800
    ensures 0xC0 <= 0xC0 + v / 64 < 0xE0 && (v / 64) * 64 + v % 64 == v
  {
  }

  lemma ThreeBytes(v: int)
    requires 0x800 <= v < 0x10000
    ensures 0xE0 <= 0xE0 + v / 4096 < 0xF0
    ensures (v / 4096) * 4096 + ((v / 64) % 64) * 64 + v % 64 == v
  {
    assert v / 64 == (v / 4096) * 64 + (v / 64) % 64;
  }

  lemma FourBytes(v: int)
    requires 0x10000 <= v <= 0x10FFFF
    ensures 0xF0 <= 0xF0 + v / 262144 < 0xF8
    ensures (v / 262144) * 262144 + ((v / 4096) % 64) * 4096 + ((v / 64) % 64) * 64 + v % 64 == v
  {
    assert v / 64 == (v / 4096) * 64 + (v / 64) % 64;
    assert v / 4096 == (v / 262144) * 64 + (v / 4096) % 64;
  }

  lemma ReadContinuationOfEscape(b: nat, rest: string, prefix: string)
    requires 0x80 <= b < 0xC0 && |prefix| % 3 == 0
    ensures ReadContinuation(prefix + Escape(b) + rest, |prefix|) == Some(b - 0x80)
  {
    ReadByteOfEscape(b, rest, prefix);
  }

  lemma DecodeTwo(b0: nat, b1: nat, rest: string)
    requires 0xC0 <= b0 < 0xE0 && 0x80 <= b1 < 0xC0 && (b0 - 0xC0) * 64 + (b1 - 0x80) >= 0x80
    ensures DecodeEscapes(Escape(b0) + Escape(b1) + rest) ==
      Some((((b0 - 0xC0) * 64 + (b1 - 0x80)) as char, 6))
  {
    var e0, e1 := Escape(b0), Escape(b1);
    assert e0 + e1 + rest == "" + e0 + (e1 + rest);
    ReadByteOfEscape(b0, e1 + rest, "");
    ReadContinuationOfEscape(b1, rest, e0);
  }

  lemma DecodeThree(b0: nat, b1: nat, b2: nat, rest: string)
    requires 0xE0 <= b0 < 0xF0 && 0x80 <= b1 < 0xC0 && 0x80 <= b2 < 0xC0
    requires var v := (b0 - 0xE0) * 4096 + (b1 - 0x80) * 64 + (b2 - 0x80);
      v >= 0x800 && !(0xD800 <= v < 0xE000)
    ensures DecodeEscapes(Escape(b0) + Escape(b1) + Escape(b2) + rest) ==
      Some((((b0 - 0xE0) * 4096 + (b1 - 0x80) * 64 + (b2 - 0x80)) as char, 9))
  {
    var e0, e1, e2 := Escape(b0), Escape(b1), Escape(b2);
    var s := e0 + e1 + e2 + rest;
    assert s == "" + e0 + (e1 + e2 + rest);
    assert s == e0 + e1 + (e2 + rest);
    ReadByteOfEscape(b0, e1 + e2 + rest, "");
    ReadContinuationOfEscape(b1, e2 + rest, e0);
    ReadContinuationOfEscape(b2, rest, e0 + e1);
  }

  lemma DecodeFour(b0: nat, b1: nat, b2: nat, b3: nat, rest: string)
    requires 0xF0 <= b0 < 0xF8 && 0x80 <= b1 < 0xC0 && 0x80 <= b2 < 0xC0 && 0x80 <= b3 < 0xC0
    requires var v := (b0 - 0xF0) * 262144 + (b1 - 0x80) * 4096 + (b2 - 0x80) * 64 + (b3 - 0x80);
      0x10000 <= v <= 0x10FFFF
    ensures DecodeEscapes(Escape(b0) + Escape(b1) + Escape(b2) + Escape(b3) + rest) ==
      Some((((b0 - 0xF0) * 262144 + (b1 - 0x80) * 4096 + (b2 - 0x80) * 64 + (b3 - 0x80)) as char, 12))
  {
    var e0, e1, e2, e3 := Escape(b0), Escape(b1), Escape(b2), Escape(b3);
    var s := e0 + e1 + e2 + e3 + rest;
    assert s == "" + e0 + (e1 + e2 + e3 + rest);
    assert s == e0 + e1 + (e2 + e3 + rest);
    assert s == e0 + e1 + e2 + (e3 + rest);
    ReadByteOfEscape(b0, e1 + e2 + e3 + rest, "");
    ReadContinuationOfEscape(b1, e2 + e3 + rest, e0);
    ReadContinuationOfEscape(b2, e3 + rest, e0 + e1);
    ReadContinuationOfEscape(b3, rest, e0 + e1 + e2);
  }

  lemma EscapeAllCons(b: seq<nat>)
    requires 1 <= |b| && forall i :: 0 <= i < |b| ==> b[i] < 256
    ensures EscapeAll(b) == Escape(b[0]) + EscapeAll(b[1..])
  {
  }

  lemma EscapeAllTwo(x: nat, y: nat)
    requires x < 256 && y < 256
    ensures EscapeAll([x, y]) == Escape(x) + Escape(y)
  {
    EscapeAllCons([x, y]);
    assert [x, y][1..] == [y];
    EscapeAllCons([y]);
    assert [y][1..] == [];
  }

  lemma EscapeAllThree(x: nat, y: nat, z: nat)
    requires x < 256 && y < 256 && z < 256
    ensures EscapeAll([x, y, z]) == Escape(x) + Escape(y) + Escape(z)
  {
    EscapeAllCons([x, y, z]);
    assert [x, y, z][1..] == [y, z];
    EscapeAllTwo(y, z);
  }

  lemma EscapeAllFour(w: nat, x: nat, y: nat, z: nat)
    requires w < 256 && x < 256 && y < 256 && z < 256
    ensures EscapeAll([w, x, y, z]) == Escape(w) + Escape(x) + Escape(y) + Escape(z)
  {
    EscapeAllCons([w, x, y, z]);
    assert [w, x, y, z][1..] == [x, y, z];
    EscapeAllThree(x, y, z);
  }

  /** The escapes of one character's UTF-8 bytes decode to that character. */
  lemma DecodeEscapesOfChar(c: char, rest: string)
    ensures DecodeEscapes(EscapeAll(Utf8(c)) + rest) == Some((c, 3 * |Utf8(c)|))
  {
    var b := Utf8(c);
    Utf8Shape(c);
    if |b| == 1 {
      EscapeAllCons(b);
      assert EscapeAll(b) + rest == "" + Escape(b[0]) + rest;
      ReadByteOfEscape(b[0], rest, "");
    } else if |b| == 2 {
      assert b == [b[0], b[1]];
      EscapeAllTwo(b[0], b[1]);
      DecodeTwo(b[0], b[1], rest);
    } else if |b| == 3 {
      assert b == [b[0], b[1], b[2]];
      EscapeAllThree(b[0], b[1], b[2]);
      DecodeThree(b[0], b[1], b[2], rest);
    } else {
      assert b == [b[0], b[1], b[2], b[3]];
      EscapeAllFour(b[0], b[1], b[2], b[3]);
      DecodeFour(b[0], b[1], b[2], b[3], rest);
    }
  }

  /** `decodeURIComponent(encodeURIComponent(s)) === s`. */
  lemma {:induction false} DecodeEncode(s: string)
    ensures Decode(Encode(s)) == Some(s)
    decreases |s|
  {
    if |s| > 0 {
      var c := s[0];
      var tail := Encode(s[1..]);
      DecodeEncode(s[1..]);
      var e := Encode(s);
      assert e == EncodeChar(c) + tail;
      if IsUnreserved(c) {
        assert e[0] == c && e[1..] == tail;
      } else {
        var bytes := Utf8(c);
        DecodeEscapesOfChar(c, tail);
        assert e[0] == '%' by {
          assert EscapeAll(bytes) == Escape(bytes[0]) + EscapeAll(bytes[1..]);
        }
        assert e[3 * |bytes|..] == tail;
      }
      assert [c] + s[1..] == s;
    }
  }

  /** Text without `%` decodes to itself. */
  lemma {:induction false} DecodePlain(s: string)
    requires '%' !in s
    ensures Decode(s) == Some(s)
    decreases |s|
  {
    if |s| > 0 {
      assert s[0] in s;
      DecodePlain(s[1..]);
      assert [s[0]] + s[1..] == s;
    }
  }

  /** Encoding writes at least one character per character. */
  lemma EncodeEmpty(s: string)
    ensures Encode(s) == "" <==> s == ""
  {
    if |s| > 0 {
      assert |EncodeChar(s[0])| > 0;
    }
  }
}
