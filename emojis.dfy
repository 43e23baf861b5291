// Writing a whole number with emoji: one image per character of its
// decimal text, a keycap for each digit and a heavy minus for the sign.

module Emojis {
  import opened Wrappers

  /** The combining keycap that follows a digit in its emoji. */
  const Keycap: char := '\U{20E3}'

  /** `NUMBERS`: the keycaps for 0..9, then the keycap ten. */
  const Numbers: seq<string> := [
    ['0', Keycap], ['1', Keycap], ['2', Keycap], ['3', Keycap], ['4', Keycap],
    ['5', Keycap], ['6', Keycap], ['7', Keycap], ['8', Keycap], ['9', Keycap],
    ['\U{1F51F}']
  ]

  /** `MINUS`: the heavy minus sign. */
  const MinusSign: char := '\U{2796}'
  const Minus: string := [MinusSign]

  predicate IsDigit(c: char) {
    '0' <= c <= '9'
  }

  /** The characters the decimal text of a number can hold. */
  predicate InAlphabet(c: char) {
    c == '.' || c == '-' || IsDigit(c)
  }

  predicate AllInAlphabet(t: string) {
    forall k :: 0 <= k < |t| ==> InAlphabet(t[k])
  }

  function DigitChar(d: nat): (c: char)
    requires d < 10
    ensures IsDigit(c) && (c as int) - ('0' as int) == d
  {
    ('0' as int + d) as char
  }

  function DigitValue(c: char): (d: nat)
    requires IsDigit(c)
    ensures d < 10 && DigitChar(d) == c
  {
    (c as int) - ('0' as int)
  }

  /** The decimal digits of a natural number, without leading zeros. */
  function Digits(n: nat): (t: string)
    ensures t != [] && forall k :: 0 <= k < |t| ==> IsDigit(t[k])
    ensures |t| > 1 ==> t[0] != '0'
  {
    if n < 10 then [DigitChar(n)] else Digits(n / 10) + [DigitChar(n % 10)]
  }

  /** `str(i)` for an integer `i`. */
  function DecimalText(i: int): (t: string)
    ensures AllInAlphabet(t) && t != []
    ensures (t[0] == '-') <==> i < 0
  {
    if i < 0 then "-" + Digits(-i) else Digits(i)
  }

  /** The image of one character: `.` stays, `-` becomes the minus sign
      and a digit `d` becomes `NUMBERS[d]`. */
  function Image(c: char): (r: string)
    requires InAlphabet(c)
    ensures IsDigit(c) ==> r == Numbers[DigitValue(c)] && r == [c, Keycap]
    ensures c == '-' ==> r == Minus
    ensures c == '.' ==> r == "."
  {
    if c == '.' then "."
    else if c == '-' then Minus
    else Numbers[DigitValue(c)]
  }

  /** The images of the characters of `t`, in order. */
  function Images(t: string): string
    requires AllInAlphabet(t)
  {
    if t == [] then [] else Image(t[0]) + Images(t[1..])
  }

  /** What `write_with_number(i)` returns for an integer `i`. */
  function Emoji(i: int): string {
    Images(DecimalText(i))
  }

  /** The loop over `str(i)`, appending one image per character. */
  method WriteWithNumber(i: int) returns (s: string)
    ensures s == Emoji(i)
  {
    var t := DecimalText(i);
    s := "";
    for k := 0 to |t|
      invariant s == Images(t[..k])
    {
      var c := t[k];
      if c == '.' {
        s := s + ".";
      } else if c == '-' {
        s := s + Minus;
      } else {
        s := s + Numbers[DigitValue(c)];
      }
      ImagesAppend(t[..k], [c]);
      assert t[..k + 1] == t[..k] + [c];
    }
    assert t[..|t|] == t;
  }

  /** The images of a concatenation are the concatenated images. */
  lemma {:induction false} ImagesAppend(a: string, b: string)
    requires AllInAlphabet(a) && AllInAlphabet(b)
    ensures AllInAlphabet(a + b)
    ensures Images(a + b) == Images(a) + Images(b)
  {
    if a == [] {
      assert a + b == b;
    } else {
      assert (a + b)[1..] == a[1..] + b;
      ImagesAppend(a[1..], b);
    }
  }

  // ---------------------------------------------------------------------
  // Reading the emoji back.

  /** The inverse of `Images`: `None` for text that is no sequence of
      images. */
  function Decode(s: string): Option<string>
    decreases |s|
  {
    if s == [] then Some([])
    else if s[0] == '.' then Prepend('.', Decode(s[1..]))
    else if s[0] == MinusSign then Prepend('-', Decode(s[1..]))
    else if |s| >= 2 && IsDigit(s[0]) && s[1] == Keycap then Prepend(s[0], Decode(s[2..]))
    else None
  }

  function Prepend(c: char, o: Option<string>): Option<string> {
    match o
    case None => None
    case Some(t) => Some([c] + t)
  }

  /** Decoding the images gives the text back. */
  lemma {:induction false} DecodeImages(t: string)
    requires AllInAlphabet(t)
    ensures Decode(Images(t)) == Some(t)
  {
    if t != [] {
      var c := t[0];
      var rest := Images(t[1..]);
      DecodeImages(t[1..]);
      assert Images(t) == Image(c) + rest;
      if c == '.' || c == '-' {
        assert (Image(c) + rest)[1..] == rest;
      } else {
        assert (Image(c) + rest)[2..] == rest;
      }
      assert [c] + t[1..] == t;
    }
  }

  /** The value of a string of digits. */
  function Value(t: string): nat
    requires forall k :: 0 <= k < |t| ==> IsDigit(t[k])
  {
    if t == [] then 0 else 10 * Value(t[..|t| - 1]) + DigitValue(t[|t| - 1])
  }

  /** `int(t)` for the decimal text of a number. */
  function ParseDecimal(t: string): int
    requires AllInAlphabet(t)
    requires forall k :: 0 < k < |t| ==> IsDigit(t[k])
    requires t != [] && (t[0] == '-' || IsDigit(t[0]))
  {
    if t[0] == '-' then -(Value(t[1..]) as int) else Value(t)
  }

  lemma {:induction false} ValueDigits(n: nat)
    ensures Value(Digits(n)) == n
    decreases n
  {
    if n >= 10 {
      ValueDigits(n / 10);
      var t := Digits(n);
      assert t[..|t| - 1] == Digits(n / 10);
    }
  }

  /** The decimal text reads back as the number. */
  lemma ParseDecimalText(i: int)
    ensures ParseDecimal(DecimalText(i)) == i
  {
    if i < 0 {
      assert DecimalText(i)[1..] == Digits(-i);
      ValueDigits(-i);
    } else {
      ValueDigits(i);
    }
  }

  /** The emoji of a number determines the number. */
  lemma EmojiInjective(i: int, j: int)
    ensures Emoji(i) == Emoji(j) <==> i == j
  {
    if Emoji(i) == Emoji(j) {
      DecodeImages(DecimalText(i));
      DecodeImages(DecimalText(j));
      ParseDecimalText(i);
      ParseDecimalText(j);
    }
  }

  /** The emoji of a number is a sign, then one keycap per digit. */
  lemma EmojiShape(i: int)
    ensures i < 0 ==> Emoji(i) == Minus + Images(Digits(-i))
    ensures i >= 0 ==> Emoji(i) == Images(Digits(i))
  {
    if i < 0 {
      assert ("-" + Digits(-i))[1..] == Digits(-i);
    }
  }

  /** The examples of the docstring for integers. */
  lemma Examples()
    ensures Emoji(23) == ['2', Keycap, '3', Keycap]
    ensures Emoji(-23) == [MinusSign, '2', Keycap, '3', Keycap]
  {
    assert Digits(23) == "23";
    assert DecimalText(-23) == "-23";
    assert Images("3") == ['3', Keycap];
    assert Images("23") == ['2', Keycap, '3', Keycap];
  }
}
