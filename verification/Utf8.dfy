/** Well-formed UTF-8, as section 4 of RFC 3629 gives it. */
module Utf8 {
  import opened Types

  predicate Tail(b: Byte) {
    0x80 <= b <= 0xBF
  }

  /** The length of the character at the front, or 0 if there is no well-formed one. */
  function CharLength(s: seq<Byte>): (n: nat)
    ensures n <= |s|
  {
    if |s| >= 1 && s[0] <= 0x7F then 1
    else if |s| >= 2 && 0xC2 <= s[0] <= 0xDF && Tail(s[1]) then 2
    else if |s| >= 3 && 0xE0 <= s[0] <= 0xEF && Tail(s[1]) && Tail(s[2])
            && (s[0] == 0xE0 ==> s[1] >= 0xA0) && (s[0] == 0xED ==> s[1] <= 0x9F) then 3
    else if |s| >= 4 && 0xF0 <= s[0] <= 0xF4 && Tail(s[1]) && Tail(s[2]) && Tail(s[3])
            && (s[0] == 0xF0 ==> s[1] >= 0x90) && (s[0] == 0xF4 ==> s[1] <= 0x8F) then 4
    else 0
  }

  predicate ValidUtf8(s: seq<Byte>) {
    s == [] || (CharLength(s) > 0 && ValidUtf8(s[CharLength(s)..]))
  }

  // ----- against the code points -----

  /** A Unicode scalar value. */
  predicate Scalar(c: nat) {
    c < 0xD800 || 0xE000 <= c <= 0x10FFFF
  }

  /** The bytes of section 3 of RFC 3629. */
  function EncodeChar(c: nat): (bytes: seq<Byte>)
    requires Scalar(c)
  {
    if c < 0x80 then [c]
    else if c < 0x800 then [0xC0 + c / 64, 0x80 + c % 64]
    else if c < 0x1_0000 then [0xE0 + c / 4096, 0x80 + c / 64 % 64, 0x80 + c % 64]
    else [0xF0 + c / 262144, 0x80 + c / 4096 % 64, 0x80 + c / 64 % 64, 0x80 + c % 64]
  }

  function EncodeAll(chars: seq<nat>): seq<Byte>
    requires forall c :: c in chars ==> Scalar(c)
  {
    if chars == [] then [] else EncodeChar(chars[0]) + EncodeAll(chars[1..])
  }

  /** The code point that a well-formed character stands for. */
  function CodePoint(s: seq<Byte>): nat
    requires CharLength(s) > 0
  {
    match CharLength(s)
    case 1 => s[0]
    case 2 => TwoBytes(s[0], s[1])
    case 3 => ThreeBytes(s[0], s[1], s[2])
    case _ => FourBytes(s[0], s[1], s[2], s[3])
  }

  function TwoBytes(a: nat, b: nat): nat
    requires a >= 0xC0 && b >= 0x80
  {
    64 * (a - 0xC0) + (b - 0x80)
  }

  function ThreeBytes(a: nat, b: nat, c: nat): nat
    requires a >= 0xE0 && b >= 0x80 && c >= 0x80
  {
    64 * (64 * (a - 0xE0) + (b - 0x80)) + (c - 0x80)
  }

  function FourBytes(a: nat, b: nat, c: nat, d: nat): nat
    requires a >= 0xF0 && b >= 0x80 && c >= 0x80 && d >= 0x80
  {
    64 * (64 * (64 * (a - 0xF0) + (b - 0x80)) + (c - 0x80)) + (d - 0x80)
  }

  lemma ThreeBytesEncode(a: nat, b: nat, c: nat)
    requires 0xE0 <= a <= 0xEF && 0x80 <= b <= 0xBF && 0x80 <= c <= 0xBF
    requires (a == 0xE0 ==> b >= 0xA0) && (a == 0xED ==> b <= 0x9F)
    ensures var n := ThreeBytes(a, b, c); Scalar(n) && EncodeChar(n) == [a, b, c]
  {
    var n, high := ThreeBytes(a, b, c), 64 * (a - 0xE0) + (b - 0x80);
    assert n / 64 == high && n % 64 == c - 0x80;
    assert high / 64 == a - 0xE0 && high % 64 == b - 0x80;
    assert n / 4096 == high / 64;
  }

  lemma FourBytesEncode(a: nat, b: nat, c: nat, d: nat)
    requires 0xF0 <= a <= 0xF4 && 0x80 <= b <= 0xBF && 0x80 <= c <= 0xBF && 0x80 <= d <= 0xBF
    requires (a == 0xF0 ==> b >= 0x90) && (a == 0xF4 ==> b <= 0x8F)
    ensures var n := FourBytes(a, b, c, d); Scalar(n) && EncodeChar(n) == [a, b, c, d]
  {
    var n, middle, high := FourBytes(a, b, c, d), 64 * (64 * (a - 0xF0) + (b - 0x80)) + (c - 0x80),
                           64 * (a - 0xF0) + (b - 0x80);
    assert n / 64 == middle && n % 64 == d - 0x80;
    assert middle / 64 == high && middle % 64 == c - 0x80;
    assert high / 64 == a - 0xF0 && high % 64 == b - 0x80;
    assert n / 4096 == middle / 64 && n / 262144 == high / 64;
  }

  lemma CodePointEncodes(s: seq<Byte>)
    requires CharLength(s) > 0
    ensures Scalar(CodePoint(s)) && EncodeChar(CodePoint(s)) == s[..CharLength(s)]
  {
    hide ThreeBytes, FourBytes;
    if CharLength(s) == 3 {
      ThreeBytesEncode(s[0], s[1], s[2]);
    } else if CharLength(s) == 4 {
      FourBytesEncode(s[0], s[1], s[2], s[3]);
    }
  }

  lemma EncodedIsFound(c: nat, rest: seq<Byte>)
    requires Scalar(c)
    ensures CharLength(EncodeChar(c) + rest) == |EncodeChar(c)| > 0
  {
  }

  /** A text is well formed exactly if it is the encoding of some scalar values. */
  lemma {:induction false} ValidExactly(s: seq<Byte>)
    ensures ValidUtf8(s) <==>
              exists chars: seq<nat> :: (forall c :: c in chars ==> Scalar(c)) && EncodeAll(chars) == s
    decreases |s|
  {
    hide CharLength, EncodeChar, CodePoint, Scalar;
    if ValidUtf8(s) {
      var chars := Spelled(s);
    }
    if chars: seq<nat> :| (forall c :: c in chars ==> Scalar(c)) && EncodeAll(chars) == s {
      EncodedIsValid(chars);
    }
  }

  lemma {:induction false} Spelled(s: seq<Byte>) returns (chars: seq<nat>)
    requires ValidUtf8(s)
    ensures (forall c :: c in chars ==> Scalar(c)) && EncodeAll(chars) == s
    decreases |s|
  {
    hide CharLength, EncodeChar, CodePoint, Scalar;
    if s == [] {
      chars := [];
    } else {
      CodePointEncodes(s);
      var rest := Spelled(s[CharLength(s)..]);
      chars := [CodePoint(s)] + rest;
      assert chars[1..] == rest;
      assert s == s[..CharLength(s)] + s[CharLength(s)..];
    }
  }

  lemma {:induction false} EncodedIsValid(chars: seq<nat>)
    requires forall c :: c in chars ==> Scalar(c)
    ensures ValidUtf8(EncodeAll(chars))
  {
    hide CharLength, EncodeChar, Scalar;
    if chars != [] {
      var rest := EncodeAll(chars[1..]);
      EncodedIsFound(chars[0], rest);
      EncodedIsValid(chars[1..]);
      assert (EncodeChar(chars[0]) + rest)[|EncodeChar(chars[0])|..] == rest;
    }
  }
}
