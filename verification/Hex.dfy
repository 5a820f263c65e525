/** Lower-case hexadecimal, decoded strictly. */
module Hex {
  import opened Types

  function Digit(n: nat): char
    requires n < 16
  {
    if n < 10 then ('0' as nat + n) as char else ('a' as nat + n - 10) as char
  }

  function DigitValue(c: char): (v: Option<nat>)
    ensures v.Some? ==> v.value < 16
  {
    if '0' <= c <= '9' then Some(c as nat - '0' as nat)
    else if 'a' <= c <= 'f' then Some(c as nat - 'a' as nat + 10)
    else None
  }

  function DecodePair(high: char, low: char): Option<Byte> {
    if DigitValue(high).Some? && DigitValue(low).Some?
    then Some(16 * DigitValue(high).value + DigitValue(low).value) else None
  }

  function Encode(bytes: seq<Byte>): (s: string)
    ensures |s| == 2 * |bytes|
  {
    if bytes == [] then "" else [Digit(bytes[0] / 16), Digit(bytes[0] % 16)] + Encode(bytes[1..])
  }

  function Decode(s: string): Option<seq<Byte>> {
    if s == "" then Some([])
    else if |s| == 1 || DecodePair(s[0], s[1]).None? || Decode(s[2..]).None? then None
    else Some([DecodePair(s[0], s[1]).value] + Decode(s[2..]).value)
  }

  lemma DigitIsExact(c: char, n: nat)
    requires n < 16
    ensures DigitValue(c) == Some(n) <==> c == Digit(n)
  {
  }

  lemma PairIsExact(high: char, low: char, b: Byte)
    ensures DecodePair(high, low) == Some(b) <==> high == Digit(b / 16) && low == Digit(b % 16)
  {
    hide DigitValue, Digit;
    DigitIsExact(high, b / 16);
    DigitIsExact(low, b % 16);
    assert b == 16 * (b / 16) + b % 16;
  }

  lemma {:induction false} DecodeInvertsEncode(bytes: seq<Byte>)
    ensures Decode(Encode(bytes)) == Some(bytes)
  {
    hide DecodePair, Digit;
    if bytes != [] {
      var s := Encode(bytes);
      PairIsExact(s[0], s[1], bytes[0]);
      assert s[2..] == Encode(bytes[1..]);
      DecodeInvertsEncode(bytes[1..]);
      assert bytes == [bytes[0]] + bytes[1..];
    }
  }

  lemma {:induction false} EncodeInvertsDecode(s: string)
    requires Decode(s).Some?
    ensures Encode(Decode(s).value) == s
  {
    hide DecodePair, Digit;
    if s != "" {
      PairIsExact(s[0], s[1], DecodePair(s[0], s[1]).value);
      EncodeInvertsDecode(s[2..]);
      assert Decode(s).value[1..] == Decode(s[2..]).value;
      assert s == [s[0], s[1]] + s[2..];
    }
  }

  /** A text decodes to some bytes exactly if it is their encoding. */
  lemma DecodeIsExact(s: string, bytes: seq<Byte>)
    ensures Decode(s) == Some(bytes) <==> s == Encode(bytes)
  {
    DecodeInvertsEncode(bytes);
    if Decode(s).Some? {
      EncodeInvertsDecode(s);
    }
  }

  /** Each byte is two digits, the high one first. */
  lemma {:induction false} DigitsAreExact(bytes: seq<Byte>, k: nat)
    requires k < |bytes|
    ensures Encode(bytes)[2 * k] == "0123456789abcdef"[bytes[k] / 16]
    ensures Encode(bytes)[2 * k + 1] == "0123456789abcdef"[bytes[k] % 16]
  {
    if k == 0 {
    } else {
      DigitsAreExact(bytes[1..], k - 1);
      assert Encode(bytes)[2..] == Encode(bytes[1..]);
    }
  }
}
