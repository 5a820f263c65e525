/** Base 128 varints: little-endian groups of seven bits, with the top bit set on all but the last. */
module Varint {
  import opened Types

  datatype Read = Unfinished | TooLong | Done(value: nat, size: nat)

  function Encode(n: nat): (bytes: seq<Byte>)
    ensures bytes != []
  {
    if n < 128 then [n] else [128 + n % 128] + Encode(n / 128)
  }

  /** Reads a varint of at most `limit` bytes from the front. */
  function Decode(bytes: seq<Byte>, limit: nat): (r: Read)
    ensures r.Done? ==> 0 < r.size <= |bytes| && r.size <= limit
    decreases limit
  {
    if limit == 0 then TooLong
    else if bytes == [] then Unfinished
    else if bytes[0] < 128 then Done(bytes[0], 1)
    else
      match Decode(bytes[1..], limit - 1)
      case Done(value, size) => Done(bytes[0] - 128 + 128 * value, size + 1)
      case r => r
  }

  function Pow128(k: nat): (p: nat)
    ensures p > 0
  {
    if k == 0 then 1 else 128 * Pow128(k - 1)
  }

  lemma {:induction false} EncodeFits(n: nat, limit: nat)
    requires 0 < limit && n < Pow128(limit)
    ensures |Encode(n)| <= limit
  {
    if n >= 128 {
      assert limit > 1;
      EncodeFits(n / 128, limit - 1);
    }
  }

  lemma {:induction false} DecodeInvertsEncode(n: nat, rest: seq<Byte>, limit: nat)
    requires |Encode(n)| <= limit
    ensures Decode(Encode(n) + rest, limit) == Done(n, |Encode(n)|)
  {
    if n >= 128 {
      assert (Encode(n) + rest)[1..] == Encode(n / 128) + rest;
      DecodeInvertsEncode(n / 128, rest, limit - 1);
    }
  }

  /** A decision once taken does not depend on what follows. */
  lemma {:induction false} DecodeIgnoresWhatFollows(bytes: seq<Byte>, more: seq<Byte>, limit: nat)
    requires !Decode(bytes, limit).Unfinished?
    ensures Decode(bytes + more, limit) == Decode(bytes, limit)
    decreases limit
  {
    if limit > 0 && bytes[0] >= 128 {
      assert (bytes + more)[1..] == bytes[1..] + more;
      DecodeIgnoresWhatFollows(bytes[1..], more, limit - 1);
    }
  }

  /** A varint that the bytes do not hold completely ends behind them. */
  lemma {:induction false} UnfinishedReachesFurther(bytes: seq<Byte>, more: seq<Byte>, limit: nat)
    requires Decode(bytes, limit).Unfinished?
    ensures Decode(bytes + more, limit).Done? ==> Decode(bytes + more, limit).size > |bytes|
    decreases limit
  {
    if bytes != [] {
      assert (bytes + more)[1..] == bytes[1..] + more;
      UnfinishedReachesFurther(bytes[1..], more, limit - 1);
    }
  }

  /** Writing produces the shortest spelling of the number. */
  lemma {:induction false} EncodeIsMinimal(bytes: seq<Byte>, limit: nat)
    requires Decode(bytes, limit).Done?
    ensures |Encode(Decode(bytes, limit).value)| <= Decode(bytes, limit).size
    decreases limit
  {
    if bytes[0] >= 128 {
      EncodeIsMinimal(bytes[1..], limit - 1);
    }
  }

  // ----- what a varint is -----

  /** The number that groups of seven bits make, the lowest first. */
  function Weigh(groups: seq<Byte>): nat {
    if groups == [] then 0 else groups[0] % 128 + 128 * Weigh(groups[1..])
  }

  /** All bytes but the last have their top bit set, and the groups make the number. */
  ghost predicate Spells(bytes: seq<Byte>, value: nat) {
    && bytes != [] && bytes[|bytes| - 1] < 128 && (forall k :: 0 <= k < |bytes| - 1 ==> bytes[k] >= 128)
    && Weigh(bytes) == value
  }

  ghost predicate AllContinue(bytes: seq<Byte>, n: nat) {
    n <= |bytes| && forall k :: 0 <= k < n ==> bytes[k] >= 128
  }

  /** Writing spells the number. */
  lemma {:induction false} EncodeSpells(n: nat)
    ensures Spells(Encode(n), n)
  {
    if n >= 128 {
      EncodeSpells(n / 128);
      assert Encode(n)[1..] == Encode(n / 128);
      assert forall k :: 1 <= k < |Encode(n)| ==> Encode(n)[k] == Encode(n / 128)[k - 1];
    }
  }

  lemma SpellsStep(bytes: seq<Byte>, value: nat)
    requires |bytes| > 1 && bytes[0] >= 128
    ensures Spells(bytes, bytes[0] - 128 + 128 * value) <==> Spells(bytes[1..], value)
  {
    assert forall k :: 1 <= k < |bytes| ==> bytes[k] == bytes[1..][k - 1];
  }

  /** Reading finds exactly the bytes up to the first without a top bit, and the number they spell. */
  lemma {:induction false} DecodeIsExact(bytes: seq<Byte>, limit: nat)
    ensures match Decode(bytes, limit)
            case Done(value, size) => Spells(bytes[..size], value)
            case TooLong => AllContinue(bytes, limit)
            case Unfinished => |bytes| < limit && AllContinue(bytes, |bytes|)
    decreases limit
  {
    if limit > 0 && bytes != [] && bytes[0] >= 128 {
      DecodeIsExact(bytes[1..], limit - 1);
      match Decode(bytes[1..], limit - 1)
      case Done(value, size) =>
        assert bytes[..size + 1][1..] == bytes[1..][..size];
        SpellsStep(bytes[..size + 1], value);
      case _ =>
        assert forall k :: 1 <= k < |bytes| ==> bytes[k] == bytes[1..][k - 1];
    } else if limit > 0 && bytes != [] {
      assert bytes[..1] == [bytes[0]];
    }
  }

  lemma SpellingsAreSome()
    ensures forall bytes, value :: Spells(bytes, value) ==> bytes != []
  {
  }

  /** There is one way only to read on from given bytes. */
  lemma SpellingIsFound(bytes: seq<Byte>, limit: nat, size: nat, value: nat)
    requires 0 < size <= |bytes| && size <= limit && Spells(bytes[..size], value)
    ensures Decode(bytes, limit) == Done(value, size)
  {
    DecodeIsExact(bytes, limit);
    assert bytes[..size][size - 1] == bytes[size - 1];
    match Decode(bytes, limit)
    case Done(found, n) =>
      assert bytes[..n][n - 1] == bytes[n - 1];
    case _ =>
  }
}
