/** Well-formed UTF-8 (table 3-7 of the Unicode standard), as `str::from_utf8` accepts it. */
module Utf8 {
  import opened Net

  predicate Continues(b: Byte) {
    0x80 <= b <= 0xBF
  }

  /** The length of the well-formed character that `s` starts with, or 0. */
  function HeadLength(s: seq<Byte>): (k: nat)
    ensures k <= |s|
  {
    if s == [] then 0
    else if s[0] < 0x80 then 1
    else if |s| < 2 || !Continues(s[1]) then 0
    else if 0xC2 <= s[0] <= 0xDF then 2
    else if |s| < 3 || !Continues(s[2]) then 0
    else if 0xE0 <= s[0] <= 0xEF then
      if (s[0] == 0xE0 && s[1] < 0xA0) || (s[0] == 0xED && s[1] > 0x9F) then 0 else 3
    else if |s| < 4 || !Continues(s[3]) then 0
    else if 0xF0 <= s[0] <= 0xF4 then
      if (s[0] == 0xF0 && s[1] < 0x90) || (s[0] == 0xF4 && s[1] > 0x8F) then 0 else 4
    else 0
  }

  predicate ValidUtf8(s: seq<Byte>) {
    s == [] || (HeadLength(s) > 0 && ValidUtf8(s[HeadLength(s)..]))
  }

  lemma {:induction false} AsciiIsValid(s: seq<Byte>)
    requires forall i :: 0 <= i < |s| ==> s[i] < 0x80
    ensures ValidUtf8(s)
  {
    if s != [] {
      AsciiIsValid(s[1..]);
    }
  }

  /** An ASCII byte is always a character boundary: both sides of it are valid on their own. */
  lemma {:induction false} ValidAroundAscii(a: seq<Byte>, d: Byte, b: seq<Byte>)
    requires d < 0x80 && ValidUtf8(a + [d] + b)
    ensures ValidUtf8(a) && ValidUtf8(b)
    decreases |a|
  {
    var s := a + [d] + b;
    if a == [] {
      assert s[1..] == b;
    } else {
      var k := HeadLength(s);
      assert s[|a|] == d;
      assert forall i :: 0 <= i < |a| ==> s[i] == a[i];
      assert k <= |a| && HeadLength(a) == k;
      assert s[k..] == a[k..] + [d] + b;
      ValidAroundAscii(a[k..], d, b);
    }
  }

  // ---- What is accepted ----

  /** A Unicode scalar value. */
  type Scalar = c: nat | c <= 0x10FFFF && !(0xD800 <= c <= 0xDFFF)

  /** Its encoding in one to four bytes. */
  function EncodeScalar(c: Scalar): seq<Byte> {
    if c < 0x80 then [c]
    else if c < 0x800 then [0xC0 + c / 0x40, 0x80 + c % 0x40]
    else if c < 0x1_0000 then [0xE0 + c / 0x1000, 0x80 + c / 0x40 % 0x40, 0x80 + c % 0x40]
    else [0xF0 + c / 0x4_0000, 0x80 + c / 0x1000 % 0x40, 0x80 + c / 0x40 % 0x40, 0x80 + c % 0x40]
  }

  function EncodeText(text: seq<Scalar>): seq<Byte> {
    if text == [] then [] else EncodeScalar(text[0]) + EncodeText(text[1..])
  }

  lemma ScalarIsHead(c: Scalar, rest: seq<Byte>)
    ensures HeadLength(EncodeScalar(c) + rest) == |EncodeScalar(c)| > 0
  {
    var s, e := EncodeScalar(c) + rest, EncodeScalar(c);
    assert forall i :: 0 <= i < |e| ==> s[i] == e[i];
  }

  /** The character at the head of `s`. */
  function HeadScalar(s: seq<Byte>): Scalar
    requires HeadLength(s) > 0
  {
    if s[0] < 0x80 then s[0]
    else if s[0] < 0xE0 then (s[0] as int - 0xC0) * 0x40 + (s[1] as int - 0x80)
    else if s[0] < 0xF0 then
      (s[0] as int - 0xE0) * 0x1000 + (s[1] as int - 0x80) * 0x40 + (s[2] as int - 0x80)
    else
      (s[0] as int - 0xF0) * 0x4_0000 + (s[1] as int - 0x80) * 0x1000 + (s[2] as int - 0x80) * 0x40
      + (s[3] as int - 0x80)
  }

  lemma TwoBytes(a: nat, b: nat)
    requires 0xC2 <= a <= 0xDF && 0x80 <= b <= 0xBF
    ensures var c := (a - 0xC0) * 0x40 + (b - 0x80);
            0x80 <= c < 0x800 && c / 0x40 == a - 0xC0 && c % 0x40 == b - 0x80
  {
  }

  lemma ThreeBytes(a: nat, b: nat, d: nat)
    requires 0xE0 <= a <= 0xEF && 0x80 <= b <= 0xBF && 0x80 <= d <= 0xBF
    requires (a == 0xE0 ==> b >= 0xA0) && (a == 0xED ==> b <= 0x9F)
    ensures var c := (a - 0xE0) * 0x1000 + (b - 0x80) * 0x40 + (d - 0x80);
            && 0x800 <= c < 0x1_0000 && !(0xD800 <= c <= 0xDFFF)
            && c / 0x1000 == a - 0xE0 && c / 0x40 % 0x40 == b - 0x80 && c % 0x40 == d - 0x80
  {
  }

  lemma Digit64(high: nat, low: nat)
    requires low < 0x40
    ensures (high * 0x40 + low) / 0x40 == high && (high * 0x40 + low) % 0x40 == low
  {
  }

  lemma Divide64(c: nat)
    ensures c / 0x1000 == c / 0x40 / 0x40 && c / 0x4_0000 == c / 0x1000 / 0x40
  {
  }

  lemma FourBytes(a: nat, b: nat, d: nat, e: nat)
    requires 0xF0 <= a <= 0xF4 && 0x80 <= b <= 0xBF && 0x80 <= d <= 0xBF && 0x80 <= e <= 0xBF
    requires (a == 0xF0 ==> b >= 0x90) && (a == 0xF4 ==> b <= 0x8F)
    ensures var c := (a - 0xF0) * 0x4_0000 + (b - 0x80) * 0x1000 + (d - 0x80) * 0x40 + (e - 0x80);
            && 0x1_0000 <= c <= 0x10FFFF
            && c / 0x4_0000 == a - 0xF0 && c / 0x1000 % 0x40 == b - 0x80
            && c / 0x40 % 0x40 == d - 0x80 && c % 0x40 == e - 0x80
  {
    var x: nat := a - 0xF0;
    var y: nat := x * 0x40 + (b - 0x80);
    var z: nat := y * 0x40 + (d - 0x80);
    var c: nat := z * 0x40 + (e - 0x80);
    Digit64(x, b - 0x80);
    Digit64(y, d - 0x80);
    Digit64(z, e - 0x80);
    Divide64(c);
    assert c == (a - 0xF0) * 0x4_0000 + (b - 0x80) * 0x1000 + (d - 0x80) * 0x40 + (e - 0x80);
  }

  lemma HeadIsScalar(s: seq<Byte>)
    requires HeadLength(s) > 0
    ensures EncodeScalar(HeadScalar(s)) == s[..HeadLength(s)]
  {
    match HeadLength(s)
    case 2 => TwoBytes(s[0], s[1]);
    case 3 => ThreeBytes(s[0], s[1], s[2]);
    case 4 => FourBytes(s[0], s[1], s[2], s[3]);
    case _ =>
  }

  lemma {:induction false} EncodedIsValid(text: seq<Scalar>)
    ensures ValidUtf8(EncodeText(text))
  {
    if text != [] {
      var e, rest := EncodeScalar(text[0]), EncodeText(text[1..]);
      EncodedIsValid(text[1..]);
      ScalarIsHead(text[0], rest);
      assert (e + rest)[|e|..] == rest;
    }
  }

  lemma EncodeOneMore(c: Scalar, text: seq<Scalar>)
    ensures EncodeText([c] + text) == EncodeScalar(c) + EncodeText(text)
  {
    assert ([c] + text)[1..] == text;
  }

  lemma NoText()
    ensures EncodeText([]) == []
  {
  }

  lemma {:induction false} ValidIsEncoded(s: seq<Byte>) returns (text: seq<Scalar>)
    requires ValidUtf8(s)
    ensures EncodeText(text) == s
  {
    hide HeadScalar, EncodeScalar, EncodeText;
    if s == [] {
      text := [];
      NoText();
    } else {
      var k := HeadLength(s);
      HeadIsScalar(s);
      hide HeadLength;
      var rest := ValidIsEncoded(s[k..]);
      text := [HeadScalar(s)] + rest;
      EncodeOneMore(HeadScalar(s), rest);
      assert s == s[..k] + s[k..];
    }
  }

  /** Bytes are accepted exactly if they encode some text, of characters in all planes. */
  lemma ValidIffEncoded(s: seq<Byte>)
    ensures ValidUtf8(s) <==> exists text :: EncodeText(text) == s
  {
    if ValidUtf8(s) {
      var text := ValidIsEncoded(s);
    }
    forall text | EncodeText(text) == s ensures ValidUtf8(s) {
      EncodedIsValid(text);
    }
  }
}
