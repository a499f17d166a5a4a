/** UTF-8: str.encode("utf-8") and the strict bytes.decode("utf-8"). */
module Utf8 {
  import opened Wrappers

  type Byte = b: int | 0 <= b < 256

  function EncodeChar(c: char): (r: seq<Byte>)
    ensures 1 <= |r| <= 4
  {
    var n := c as int;
    if n < 0x80 then [n]
    else if n < 0x800 then [0xC0 + n / 64, 0x80 + n % 64]
    else if n < 0x1_0000 then [0xE0 + n / 4096, 0x80 + n / 64 % 64, 0x80 + n % 64]
    else [0xF0 + n / 0x4_0000, 0x80 + n / 4096 % 64, 0x80 + n / 64 % 64, 0x80 + n % 64]
  }

  function Encode(s: string): seq<Byte> {
    if s == "" then [] else EncodeChar(s[0]) + Encode(s[1..])
  }

  /** The payload of a continuation byte, or -1. */
  function Continuation(bytes: seq<Byte>, i: nat): (r: int)
    ensures -1 <= r < 64
  {
    if i < |bytes| && 0x80 <= bytes[i] < 0xC0 then bytes[i] - 0x80 else -1
  }

  /** The code point at the front and its length; overlong forms and surrogates are refused. */
  function DecodeChar(bytes: seq<Byte>): (r: Option<(char, nat)>)
    requires bytes != []
    ensures r.Some? ==> 1 <= r.value.1 <= |bytes|
  {
    var b := bytes[0];
    var c1, c2, c3 := Continuation(bytes, 1), Continuation(bytes, 2), Continuation(bytes, 3);
    if b < 0x80 then Some((b as char, 1))
    else if 0xC2 <= b < 0xE0 && c1 >= 0 then Some((((b - 0xC0) * 64 + c1) as char, 2))
    else if 0xE0 <= b < 0xF0 && c1 >= 0 && c2 >= 0 then
      var n := (b - 0xE0) * 4096 + c1 * 64 + c2;
      if n < 0x800 || 0xD800 <= n <= 0xDFFF then None else Some((n as char, 3))
    else if 0xF0 <= b < 0xF8 && c1 >= 0 && c2 >= 0 && c3 >= 0 then
      var n := (b - 0xF0) * 0x4_0000 + c1 * 4096 + c2 * 64 + c3;
      if n < 0x1_0000 || n > 0x10_FFFF then None else Some((n as char, 4))
    else None
  }

  function Decode(bytes: seq<Byte>): Option<string>
    decreases |bytes|
  {
    if bytes == [] then Some("")
    else
      match DecodeChar(bytes)
      case None => None
      case Some((c, n)) =>
        (match Decode(bytes[n..])
         case None => None
         case Some(s) => Some([c] + s))
  }

  lemma TwoBytes(n: int, b: seq<Byte>)
    requires 0x80 <= n < 0x800 && |b| >= 2 && b[0] == 0xC0 + n / 64 && b[1] == 0x80 + n % 64
    ensures DecodeChar(b) == Some((n as char, 2))
  {
  }

  lemma ThreeBytes(n: int, b: seq<Byte>)
    requires 0x800 <= n < 0x1_0000 && !(0xD800 <= n <= 0xDFFF) && |b| >= 3
    requires b[0] == 0xE0 + n / 4096 && b[1] == 0x80 + n / 64 % 64 && b[2] == 0x80 + n % 64
    ensures DecodeChar(b) == Some((n as char, 3))
  {
    assert n / 64 == n / 4096 * 64 + n / 64 % 64;
    assert (b[0] as int - 0xE0) * 4096 + (b[1] as int - 0x80) * 64 + (b[2] as int - 0x80) == n;
  }

  lemma FourBytes(n: int, b: seq<Byte>)
    requires 0x1_0000 <= n <= 0x10_FFFF && |b| >= 4
    requires b[0] == 0xF0 + n / 0x4_0000 && b[1] == 0x80 + n / 4096 % 64
    requires b[2] == 0x80 + n / 64 % 64 && b[3] == 0x80 + n % 64
    ensures DecodeChar(b) == Some((n as char, 4))
  {
    assert n / 64 == n / 4096 * 64 + n / 64 % 64;
    assert n / 4096 == n / 0x4_0000 * 64 + n / 4096 % 64;
    assert (b[0] as int - 0xF0) * 0x4_0000 + (b[1] as int - 0x80) * 4096
        + (b[2] as int - 0x80) * 64 + (b[3] as int - 0x80) == n;
  }

  lemma CharRoundTrip(c: char, rest: seq<Byte>)
    ensures DecodeChar(EncodeChar(c) + rest) == Some((c, |EncodeChar(c)|))
  {
    var n, s := c as int, EncodeChar(c) + rest;
    if 0x80 <= n < 0x800 {
      TwoBytes(n, s);
    } else if 0x800 <= n < 0x1_0000 {
      ThreeBytes(n, s);
    } else if n >= 0x1_0000 {
      FourBytes(n, s);
    }
  }

  lemma {:induction false} DecodeEncode(s: string)
    ensures Decode(Encode(s)) == Some(s)
  {
    if s != "" {
      var rest := Encode(s[1..]);
      CharRoundTrip(s[0], rest);
      DecodeEncode(s[1..]);
      assert (EncodeChar(s[0]) + rest)[|EncodeChar(s[0])|..] == rest;
      assert [s[0]] + s[1..] == s;
    }
  }

  lemma DecodedTwo(bytes: seq<Byte>)
    requires bytes != [] && DecodeChar(bytes).Some? && DecodeChar(bytes).value.1 == 2
    ensures EncodeChar(DecodeChar(bytes).value.0) == bytes[..2]
  {
  }

  lemma DecodedThree(bytes: seq<Byte>)
    requires bytes != [] && DecodeChar(bytes).Some? && DecodeChar(bytes).value.1 == 3
    ensures EncodeChar(DecodeChar(bytes).value.0) == bytes[..3]
  {
    var n := DecodeChar(bytes).value.0 as int;
    assert n == (bytes[0] as int - 0xE0) * 4096 + (bytes[1] as int - 0x80) * 64 + (bytes[2] as int - 0x80);
    assert n / 64 == (bytes[0] as int - 0xE0) * 64 + (bytes[1] as int - 0x80);
  }

  lemma DecodedFour(bytes: seq<Byte>)
    requires bytes != [] && DecodeChar(bytes).Some? && DecodeChar(bytes).value.1 == 4
    ensures EncodeChar(DecodeChar(bytes).value.0) == bytes[..4]
  {
    var n := DecodeChar(bytes).value.0 as int;
    assert n / 64 == (bytes[0] as int - 0xF0) * 4096 + (bytes[1] as int - 0x80) * 64 + (bytes[2] as int - 0x80);
    assert n / 4096 == (bytes[0] as int - 0xF0) * 64 + (bytes[1] as int - 0x80);
  }

  lemma DecodedOne(bytes: seq<Byte>)
    requires bytes != [] && DecodeChar(bytes).Some?
    ensures 1 <= DecodeChar(bytes).value.1 <= 4
    ensures DecodeChar(bytes).value.1 == 1 ==> EncodeChar(DecodeChar(bytes).value.0) == bytes[..1]
  {
  }

  lemma DecodedChar(bytes: seq<Byte>)
    requires bytes != [] && DecodeChar(bytes).Some?
    ensures var (c, n) := DecodeChar(bytes).value; EncodeChar(c) == bytes[..n]
  {
    hide EncodeChar, DecodeChar;
    DecodedOne(bytes);
    var n := DecodeChar(bytes).value.1;
    if n == 2 {
      DecodedTwo(bytes);
    } else if n == 3 {
      DecodedThree(bytes);
    } else if n == 4 {
      DecodedFour(bytes);
    }
  }

  /** Bytes are decoded exactly if they are the encoding of a text: overlong forms, surrogates and cut-off characters are refused. */
  lemma {:induction false} DecodeExact(bytes: seq<Byte>)
    ensures forall s :: Decode(bytes) == Some(s) <==> bytes == Encode(s)
    decreases |bytes|
  {
    forall s | bytes == Encode(s)
      ensures Decode(bytes) == Some(s)
    {
      DecodeEncode(s);
    }
    if bytes != [] && DecodeChar(bytes).Some? {
      var (c, n) := DecodeChar(bytes).value;
      DecodedChar(bytes);
      DecodeExact(bytes[n..]);
      assert bytes == bytes[..n] + bytes[n..];
    }
  }

  /** The six low bits of a byte that continues a character. */
  function Low(e: seq<Byte>, i: nat): int
    requires i < |e|
  {
    e[i] as int - 128
  }

  /** The bytes of a character: its bits, six to a byte after the first, whose leading bits tell how many follow. */
  lemma CharBytes(c: char)
    ensures var n, e := c as int, EncodeChar(c);
      && (n <= 0x7F ==> e == [n])
      && (0x80 <= n <= 0x7FF ==> |e| == 2 && 192 <= e[0] < 224 && n == (e[0] as int - 192) * 64 + Low(e, 1))
      && (0x800 <= n <= 0xFFFF ==> |e| == 3 && 224 <= e[0] < 240 && n == (e[0] as int - 224) * 4096 + Low(e, 1) * 64 + Low(e, 2))
      && (0x1_0000 <= n ==> |e| == 4 && 240 <= e[0] < 248)
      && (0x1_0000 <= n ==> n == (e[0] as int - 240) * 0x4_0000 + Low(e, 1) * 4096 + Low(e, 2) * 64 + Low(e, 3))
      && forall i :: 1 <= i < |e| ==> 128 <= e[i] < 192
  {
    var n := c as int;
    assert n / 64 == n / 4096 * 64 + n / 64 % 64;
    assert n / 4096 == n / 0x4_0000 * 64 + n / 4096 % 64;
  }

  lemma EncodeAppend(a: string, b: string)
    ensures Encode(a + b) == Encode(a) + Encode(b)
  {
    hide EncodeChar;
    if a == "" {
      assert a + b == b;
    } else {
      EncodeAppend(a[1..], b);
      assert (a + b)[1..] == a[1..] + b;
    }
  }
}
