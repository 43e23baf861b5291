// Bytes and the strict UTF-8 codec that `bytes.decode()` applies by
// default, with the encoder as its inverse.

module Utf8 {
  import opened Wrappers
  import opened Errors

  newtype Byte = x: int | 0 <= x < 256
  type Bytes = seq<Byte>

  /** A continuation byte `10xxxxxx`. */
  predicate Cont(b: Byte) {
    0x80 <= b <= 0xBF
  }

  /** The UTF-8 sequence of one Unicode scalar value. */
  function EncodeChar(c: char): (r: Bytes)
    ensures 1 <= |r| <= 4
    ensures (|r| == 1) <==> c as int < 0x80
  {
    var n := c as int;
    if n < 0x80 then [n as Byte]
    else if n < 0x800 then [(0xC0 + n / 64) as Byte, (0x80 + n % 64) as Byte]
    else if n < 0x10000 then
      [(0xE0 + n / 4096) as Byte, (0x80 + (n / 64) % 64) as Byte, (0x80 + n % 64) as Byte]
    else
      [(0xF0 + n / 262144) as Byte, (0x80 + (n / 4096) % 64) as Byte,
       (0x80 + (n / 64) % 64) as Byte, (0x80 + n % 64) as Byte]
  }

  /** `str.encode()`. */
  function Encode(s: string): Bytes {
    if s == [] then [] else EncodeChar(s[0]) + Encode(s[1..])
  }

  /** The scalar value at the head of `b` and the number of bytes it takes,
      or the error strict decoding raises: a stray continuation byte, a
      lead byte out of range, a truncated sequence, an overlong form, a
      surrogate or a value above U+10FFFF. */
  function DecodeFirst(b: Bytes): (r: Result<(char, nat), Error>)
    requires b != []
    ensures r.Ok? ==> 1 <= r.value.1 <= |b| && r.value.1 <= 4
    ensures r.Err? ==> r.error == UnicodeDecodeError
  {
    var b0 := b[0] as int;
    if b0 < 0x80 then Ok((b0 as char, 1))
    else if 0xC2 <= b0 <= 0xDF then
      if |b| >= 2 && Cont(b[1]) then
        Ok((((b0 - 0xC0) * 64 + (b[1] as int - 0x80)) as char, 2))
      else Err(UnicodeDecodeError)
    else if 0xE0 <= b0 <= 0xEF then
      var lo := if b0 == 0xE0 then 0xA0 else 0x80;
      var hi := if b0 == 0xED then 0x9F else 0xBF;
      if |b| >= 3 && lo <= b[1] as int <= hi && Cont(b[2]) then
        Ok((((b0 - 0xE0) * 4096 + (b[1] as int - 0x80) * 64 + (b[2] as int - 0x80)) as char, 3))
      else Err(UnicodeDecodeError)
    else if 0xF0 <= b0 <= 0xF4 then
      var lo := if b0 == 0xF0 then 0x90 else 0x80;
      var hi := if b0 == 0xF4 then 0x8F else 0xBF;
      if |b| >= 4 && lo <= b[1] as int <= hi && Cont(b[2]) && Cont(b[3]) then
        Ok((((b0 - 0xF0) * 262144 + (b[1] as int - 0x80) * 4096
             + (b[2] as int - 0x80) * 64 + (b[3] as int - 0x80)) as char, 4))
      else Err(UnicodeDecodeError)
    else Err(UnicodeDecodeError)
  }

  /** `bytes.decode()`: strict UTF-8. */
  function Decode(b: Bytes): (r: Result<string, Error>)
    ensures r.Err? ==> r.error == UnicodeDecodeError
    decreases |b|
  {
    if b == [] then Ok([])
    else match DecodeFirst(b)
      case Err(e) => Err(e)
      case Ok((c, k)) =>
        match Decode(b[k..])
        case Err(e) => Err(e)
        case Ok(s) => Ok([c] + s)
  }

  // ---------------------------------------------------------------------
  // The round trips.

  // Division by the radix 64 of the continuation bytes.
  lemma Div64(a: int, r: int)
    requires 0 <= r < 64
    ensures (a * 64 + r) / 64 == a && (a * 64 + r) % 64 == r
  {
  }

  lemma Div4096(a: int, r: int)
    requires 0 <= r < 4096
    ensures (a * 4096 + r) / 4096 == a
  {
  }

  lemma Div262144(a: int, r: int)
    requires 0 <= r < 262144
    ensures (a * 262144 + r) / 262144 == a
  {
  }

  /** The two-byte form of `x * 64 + y`. */
  lemma Encode2(x: int, y: int)
    requires 2 <= x < 32 && 0 <= y < 64
    ensures EncodeChar((x * 64 + y) as char) == [(0xC0 + x) as Byte, (0x80 + y) as Byte]
  {
    Div64(x, y);
  }

  /** The three-byte form of `x * 4096 + y * 64 + z`. */
  lemma Encode3(x: int, y: int, z: int)
    requires 0 <= x < 16 && 0 <= y < 64 && 0 <= z < 64
    requires 0x800 <= x * 4096 + y * 64 + z
    requires !(0xD800 <= x * 4096 + y * 64 + z < 0xE000)
    ensures EncodeChar((x * 4096 + y * 64 + z) as char)
         == [(0xE0 + x) as Byte, (0x80 + y) as Byte, (0x80 + z) as Byte]
  {
    var n := x * 4096 + y * 64 + z;
    assert n == (x * 64 + y) * 64 + z;
    Div64(x * 64 + y, z);
    Div64(x, y);
    Div4096(x, y * 64 + z);
  }

  /** The four-byte form of `w * 262144 + x * 4096 + y * 64 + z`. */
  lemma Encode4(w: int, x: int, y: int, z: int)
    requires 0 <= w < 5 && 0 <= x < 64 && 0 <= y < 64 && 0 <= z < 64
    requires 0x10000 <= w * 262144 + x * 4096 + y * 64 + z <= 0x10FFFF
    ensures EncodeChar((w * 262144 + x * 4096 + y * 64 + z) as char)
         == [(0xF0 + w) as Byte, (0x80 + x) as Byte, (0x80 + y) as Byte, (0x80 + z) as Byte]
  {
    var n := w * 262144 + x * 4096 + y * 64 + z;
    assert n == ((w * 64 + x) * 64 + y) * 64 + z;
    assert n / 64 == (w * 64 + x) * 64 + y by { Div64((w * 64 + x) * 64 + y, z); }
    assert n / 4096 == w * 64 + x by { Div4096(w * 64 + x, y * 64 + z); }
    Div64(w * 64 + x, y);
    Div64(w, x);
    Div262144(w, x * 4096 + y * 64 + z);
  }

  lemma DecodeFirst2(x: int, y: int, rest: Bytes)
    requires 2 <= x < 32 && 0 <= y < 64
    ensures DecodeFirst([(0xC0 + x) as Byte, (0x80 + y) as Byte] + rest)
         == Ok(((x * 64 + y) as char, 2))
  {
  }

  lemma DecodeFirst3(x: int, y: int, z: int, rest: Bytes)
    requires 0 <= x < 16 && 0 <= y < 64 && 0 <= z < 64
    requires 0x800 <= x * 4096 + y * 64 + z
    requires !(0xD800 <= x * 4096 + y * 64 + z < 0xE000)
    ensures DecodeFirst([(0xE0 + x) as Byte, (0x80 + y) as Byte, (0x80 + z) as Byte] + rest)
         == Ok(((x * 4096 + y * 64 + z) as char, 3))
  {
    assert x == 0 ==> y >= 0x20;
    assert x == 0xD ==> y < 0x20;
  }

  lemma DecodeFirst4(w: int, x: int, y: int, z: int, rest: Bytes)
    requires 0 <= w < 5 && 0 <= x < 64 && 0 <= y < 64 && 0 <= z < 64
    requires 0x10000 <= w * 262144 + x * 4096 + y * 64 + z <= 0x10FFFF
    ensures DecodeFirst([(0xF0 + w) as Byte, (0x80 + x) as Byte, (0x80 + y) as Byte, (0x80 + z) as Byte] + rest)
         == Ok(((w * 262144 + x * 4096 + y * 64 + z) as char, 4))
  {
    assert w == 0 ==> x >= 0x10;
    assert w == 4 ==> x < 0x10;
  }

  /** The first sequence of an encoding decodes to its character. */
  lemma DecodeFirstEncodeChar(c: char, rest: Bytes)
    ensures DecodeFirst(EncodeChar(c) + rest) == Ok((c, |EncodeChar(c)|))
  {
    var n := c as int;
    if n < 0x80 {
    } else if n < 0x800 {
      RoundTrip2(c, rest);
    } else if n < 0x10000 {
      RoundTrip3(c, rest);
    } else {
      RoundTrip4(c, rest);
    }
  }

  lemma RoundTrip2(c: char, rest: Bytes)
    requires 0x80 <= c as int < 0x800
    ensures DecodeFirst(EncodeChar(c) + rest) == Ok((c, 2))
  {
    var n := c as int;
    var x, y := n / 64, n % 64;
    Encode2(x, y);
    DecodeFirst2(x, y, rest);
  }

  lemma RoundTrip3(c: char, rest: Bytes)
    requires 0x800 <= c as int < 0x10000
    ensures DecodeFirst(EncodeChar(c) + rest) == Ok((c, 3))
  {
    var n := c as int;
    var x, y, z := n / 4096, (n / 64) % 64, n % 64;
    assert n == x * 4096 + y * 64 + z;
    Encode3(x, y, z);
    DecodeFirst3(x, y, z, rest);
  }

  lemma RoundTrip4(c: char, rest: Bytes)
    requires 0x10000 <= c as int
    ensures DecodeFirst(EncodeChar(c) + rest) == Ok((c, 4))
  {
    var w, x, y, z := Base64Digits(c as int);
    Encode4(w, x, y, z);
    DecodeFirst4(w, x, y, z, rest);
  }

  /** The four base-64 digits of a supplementary code point. */
  lemma Base64Digits(n: int) returns (w: int, x: int, y: int, z: int)
    requires 0x10000 <= n <= 0x10FFFF
    ensures n == w * 262144 + x * 4096 + y * 64 + z
    ensures 0 <= w < 5 && 0 <= x < 64 && 0 <= y < 64 && 0 <= z < 64
  {
    var q1 := n / 64;
    z := n % 64;
    var q2 := q1 / 64;
    y := q1 % 64;
    w := q2 / 64;
    x := q2 % 64;
    assert n == ((w * 64 + x) * 64 + y) * 64 + z;
  }

  /** Decoding an encoding gives the text back. */
  lemma {:induction false} DecodeEncode(s: string)
    ensures Decode(Encode(s)) == Ok(s)
  {
    if s != [] {
      var e := EncodeChar(s[0]);
      var b := Encode(s);
      assert b == e + Encode(s[1..]);
      DecodeFirstEncodeChar(s[0], Encode(s[1..]));
      assert b[|e|..] == Encode(s[1..]);
      DecodeEncode(s[1..]);
      assert [s[0]] + s[1..] == s;
    }
  }

  /** What decoding reads at the head is the encoding of its character. */
  lemma EncodeDecodeFirst(b: Bytes)
    requires b != [] && DecodeFirst(b).Ok?
    ensures EncodeChar(DecodeFirst(b).value.0) == b[..DecodeFirst(b).value.1]
  {
    var b0 := b[0] as int;
    if b0 < 0x80 {
    } else if b0 <= 0xDF {
      Reencode2(b);
    } else if b0 <= 0xEF {
      Reencode3(b);
    } else {
      Reencode4(b);
    }
  }

  lemma Reencode2(b: Bytes)
    requires b != [] && DecodeFirst(b).Ok? && 0x80 <= b[0] <= 0xDF
    ensures EncodeChar(DecodeFirst(b).value.0) == b[..2]
  {
    Encode2(b[0] as int - 0xC0, b[1] as int - 0x80);
    assert b[..2] == [b[0], b[1]];
  }

  lemma Reencode3(b: Bytes)
    requires b != [] && DecodeFirst(b).Ok? && 0xE0 <= b[0] <= 0xEF
    ensures EncodeChar(DecodeFirst(b).value.0) == b[..3]
  {
    Encode3(b[0] as int - 0xE0, b[1] as int - 0x80, b[2] as int - 0x80);
    assert b[..3] == [b[0], b[1], b[2]];
  }

  lemma Reencode4(b: Bytes)
    requires b != [] && DecodeFirst(b).Ok? && 0xF0 <= b[0]
    ensures EncodeChar(DecodeFirst(b).value.0) == b[..4]
  {
    Encode4(b[0] as int - 0xF0, b[1] as int - 0x80, b[2] as int - 0x80, b[3] as int - 0x80);
    assert b[..4] == [b[0], b[1], b[2], b[3]];
  }

  /** Text that decodes is the encoding of what it decodes to. */
  lemma {:induction false} EncodeDecode(b: Bytes)
    requires Decode(b).Ok?
    ensures Encode(Decode(b).value) == b
    decreases |b|
  {
    if b != [] {
      var c, k := DecodeStep(b);
      EncodeDecode(b[k..]);
      assert b == b[..k] + b[k..];
    }
  }

  /** One step of a successful decoding and its encoding: the head
      character re-encodes to the bytes it was read from. */
  lemma DecodeStep(b: Bytes) returns (c: char, k: nat)
    requires b != [] && Decode(b).Ok?
    ensures 1 <= k <= |b| && EncodeChar(c) == b[..k]
    ensures Decode(b[k..]).Ok?
    ensures Encode(Decode(b).value) == EncodeChar(c) + Encode(Decode(b[k..]).value)
  {
    c, k := DecodeFirst(b).value.0, DecodeFirst(b).value.1;
    var s := Decode(b).value;
    assert s[1..] == Decode(b[k..]).value;
    EncodeDecodeFirst(b);
  }

  /** A byte string decodes exactly when it is the encoding of some text. */
  lemma DecodeIff(b: Bytes)
    ensures Decode(b).Ok? <==> exists s :: Encode(s) == b
  {
    if Decode(b).Ok? {
      EncodeDecode(b);
    }
    if s :| Encode(s) == b {
      DecodeEncode(s);
    }
  }

  /** ASCII bytes decode to the characters with the same codes. */
  predicate IsAscii(b: Bytes) {
    forall i :: 0 <= i < |b| ==> b[i] < 0x80
  }

  function AsciiChars(b: Bytes): (s: string)
    requires IsAscii(b)
    ensures |s| == |b| && forall i :: 0 <= i < |b| ==> s[i] as int == b[i] as int
  {
    if b == [] then [] else [b[0] as int as char] + AsciiChars(b[1..])
  }

  lemma {:induction false} DecodeAscii(b: Bytes)
    requires IsAscii(b)
    ensures Decode(b) == Ok(AsciiChars(b))
    decreases |b|
  {
    if b != [] {
      DecodeAscii(b[1..]);
    }
  }
}
