/** Python's `str.encode()` with its default codec, UTF-8: each scalar value
    becomes one to four bytes. `Decode` reads the bytes back and is used to
    state that encoding is lossless. */
module Utf8 {
  import opened Py

  type Byte = b: int | 0 <= b < 256

  predicate IsContinuation(b: Byte) {
    0x80 <= b < 0xC0
  }

  predicate IsScalarValue(n: int) {
    (0 <= n < 0xD800) || (0xE000 <= n < 0x11_0000)
  }

  /** The UTF-8 encoding of one character. */
  function EncodeChar(c: char): (r: seq<Byte>)
    ensures 1 <= |r| <= 4
    ensures |r| == 1 <==> c as int < 0x80
    ensures forall i :: 1 <= i < |r| ==> IsContinuation(r[i])
  {
    var n := c as int;
    if n < 0x80 then [n]
    else if n < 0x800 then [0xC0 + n / 0x40, 0x80 + n % 0x40]
    else if n < 0x1_0000 then [0xE0 + n / 0x1000, 0x80 + (n / 0x40) % 0x40, 0x80 + n % 0x40]
    else [0xF0 + n / 0x4_0000, 0x80 + (n / 0x1000) % 0x40, 0x80 + (n / 0x40) % 0x40, 0x80 + n % 0x40]
  }

  /** `s.encode()`: the encodings of the characters, one after the other. */
  function Encode(s: string): (r: seq<Byte>)
    ensures |s| <= |r| <= 4 * |s|
    decreases |s|
  {
    if s == [] then [] else EncodeChar(s[0]) + Encode(s[1..])
  }

  /** Encoding a concatenation is concatenating the encodings, so
      `a.encode() + b.encode() == (a + b).encode()`. */
  lemma {:induction false} EncodeConcat(a: string, b: string)
    ensures Encode(a + b) == Encode(a) + Encode(b)
    decreases |a|
  {
    if a != [] {
      assert (a + b)[0] == a[0];
      assert (a + b)[1..] == a[1..] + b;
      EncodeConcat(a[1..], b);
    } else {
      assert a + b == b;
    }
  }

  /** The character at the front of `bytes` and the number of bytes it takes,
      provided the bytes start with a well-formed (shortest-form) sequence. */
  function DecodeChar(bytes: seq<Byte>): (r: Option<(char, nat)>)
    ensures r.Some? ==> 1 <= r.value.1 <= |bytes| && r.value.1 <= 4
  {
    if |bytes| == 0 then None
    else
      var b0: int := bytes[0];
      if b0 < 0x80 then Some((b0 as char, 1))
      else if 0xC0 <= b0 < 0xE0 && |bytes| >= 2 && IsContinuation(bytes[1]) then
        var n := (b0 - 0xC0) * 0x40 + (bytes[1] as int - 0x80);
        if 0x80 <= n then Some((n as char, 2)) else None
      else if 0xE0 <= b0 < 0xF0 && |bytes| >= 3 && IsContinuation(bytes[1]) && IsContinuation(bytes[2]) then
        var n := (b0 - 0xE0) * 0x1000 + (bytes[1] as int - 0x80) * 0x40 + (bytes[2] as int - 0x80);
        if 0x800 <= n && IsScalarValue(n) then Some((n as char, 3)) else None
      else if 0xF0 <= b0 < 0xF8 && |bytes| >= 4 && IsContinuation(bytes[1]) && IsContinuation(bytes[2])
                && IsContinuation(bytes[3]) then
        var n := (b0 - 0xF0) * 0x4_0000 + (bytes[1] as int - 0x80) * 0x1000 + (bytes[2] as int - 0x80) * 0x40 + (bytes[3] as int - 0x80);
        if 0x1_0000 <= n && IsScalarValue(n) then Some((n as char, 4)) else None
      else None
  }

  /** Reads a whole byte sequence as UTF-8, failing on any ill-formed sequence. */
  function Decode(bytes: seq<Byte>): (r: Option<string>)
    decreases |bytes|
  {
    if |bytes| == 0 then Some([])
    else match DecodeChar(bytes)
      case None => None
      case Some((c, k)) =>
        match Decode(bytes[k..])
        case None => None
        case Some(rest) => Some([c] + rest)
  }

  lemma DecodeEncodeChar(c: char, rest: seq<Byte>)
    ensures DecodeChar(EncodeChar(c) + rest) == Some((c, |EncodeChar(c)|))
  {
    var n := c as int;
    var e := EncodeChar(c);
    var bytes := e + rest;
    if n < 0x80 {
    } else if n < 0x800 {
      assert bytes[0] == 0xC0 + n / 0x40 && bytes[1] == 0x80 + n % 0x40;
      assert (n / 0x40) * 0x40 + n % 0x40 == n;
    } else if n < 0x1_0000 {
      assert bytes[0] == 0xE0 + n / 0x1000 && bytes[1] == 0x80 + (n / 0x40) % 0x40 && bytes[2] == 0x80 + n % 0x40;
      assert n / 0x40 == (n / 0x1000) * 0x40 + (n / 0x40) % 0x40;
      assert n == (n / 0x40) * 0x40 + n % 0x40;
    } else {
      assert bytes[0] == 0xF0 + n / 0x4_0000 && bytes[1] == 0x80 + (n / 0x1000) % 0x40
          && bytes[2] == 0x80 + (n / 0x40) % 0x40 && bytes[3] == 0x80 + n % 0x40;
      assert n / 0x1000 == (n / 0x4_0000) * 0x40 + (n / 0x1000) % 0x40;
      assert n / 0x40 == (n / 0x1000) * 0x40 + (n / 0x40) % 0x40;
      assert n == (n / 0x40) * 0x40 + n % 0x40;
    }
  }

  /** Encoding loses nothing: decoding `s.encode()` gives back `s`. */
  lemma {:induction false} DecodeEncode(s: string)
    ensures Decode(Encode(s)) == Some(s)
    decreases |s|
  {
    if s != [] {
      var e := EncodeChar(s[0]);
      DecodeEncodeChar(s[0], Encode(s[1..]));
      assert Encode(s)[|e|..] == Encode(s[1..]);
      DecodeEncode(s[1..]);
      assert [s[0]] + s[1..] == s;
    }
  }

  /** Consequently `str.encode()` is injective. */
  lemma EncodeInjective(a: string, b: string)
    requires Encode(a) == Encode(b)
    ensures a == b
  {
    DecodeEncode(a);
    DecodeEncode(b);
  }
}
