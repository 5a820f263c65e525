/** base64url without padding (section 5 of RFC 4648), decoded strictly: unused bits must be zero. */
module Base64 {
  import opened Types

  type Sextet = n: nat | n < 64

  function Symbol(n: Sextet): char {
    if n < 26 then ('A' as nat + n) as char
    else if n < 52 then ('a' as nat + (n - 26)) as char
    else if n < 62 then ('0' as nat + (n - 52)) as char
    else if n == 62 then '-'
    else '_'
  }

  function SymbolValue(c: char): Option<Sextet> {
    if 'A' <= c <= 'Z' then Some(c as nat - 'A' as nat)
    else if 'a' <= c <= 'z' then Some(c as nat - 'a' as nat + 26)
    else if '0' <= c <= '9' then Some(c as nat - '0' as nat + 52)
    else if c == '-' then Some(62)
    else if c == '_' then Some(63)
    else None
  }

  lemma SymbolIsExact(c: char, n: Sextet)
    ensures SymbolValue(c) == Some(n) <==> c == Symbol(n)
  {
  }

  function Values(s: string): (v: Option<seq<Sextet>>)
    ensures v.Some? ==> |v.value| == |s|
  {
    if s == "" then Some([])
    else if SymbolValue(s[0]).None? || Values(s[1..]).None? then None
    else Some([SymbolValue(s[0]).value] + Values(s[1..]).value)
  }

  function Symbols(v: seq<Sextet>): (s: string)
    ensures |s| == |v|
  {
    if v == [] then "" else [Symbol(v[0])] + Symbols(v[1..])
  }

  // Four groups of six bits p, q, r, t hold three bytes a, b, c.

  function Second(a: nat, b: nat): (q: nat)
    requires b < 256
    ensures q < 64
  {
    16 * (a % 4) + b / 16
  }

  function Third(b: nat, c: nat): (r: nat)
    requires c < 256
    ensures r < 64
  {
    4 * (b % 16) + c / 64
  }

  function ByteA(p: nat, q: nat): (a: nat)
    requires p < 64 && q < 64
    ensures a < 256
  {
    4 * p + q / 16
  }

  function ByteB(q: nat, r: nat): (b: nat)
    requires r < 64
    ensures b < 256
  {
    16 * (q % 16) + r / 4
  }

  function ByteC(r: nat, t: nat): (c: nat)
    requires t < 64
    ensures c < 256
  {
    64 * (r % 4) + t
  }

  /** Eight-bit bytes as six-bit groups, the last one filled up with zero bits. */
  function Sextets(b: seq<Byte>): seq<Sextet> {
    if b == [] then []
    else if |b| == 1 then [b[0] / 4, Second(b[0], 0)]
    else if |b| == 2 then [b[0] / 4, Second(b[0], b[1]), Third(b[1], 0)]
    else [b[0] / 4, Second(b[0], b[1]), Third(b[1], b[2]), b[2] % 64] + Sextets(b[3..])
  }

  function Octets(v: seq<Sextet>): Option<seq<Byte>> {
    if v == [] then Some([])
    else if |v| == 1 then None
    else if |v| == 2 then if v[1] % 16 == 0 then Some([ByteA(v[0], v[1])]) else None
    else if |v| == 3 then if v[2] % 4 == 0 then Some([ByteA(v[0], v[1]), ByteB(v[1], v[2])]) else None
    else if Octets(v[4..]).None? then None
    else Some([ByteA(v[0], v[1]), ByteB(v[1], v[2]), ByteC(v[2], v[3])] + Octets(v[4..]).value)
  }

  function Encode(b: seq<Byte>): string {
    Symbols(Sextets(b))
  }

  function Decode(s: string): Option<seq<Byte>> {
    if Values(s).None? then None else Octets(Values(s).value)
  }

  // ----- exactness -----

  lemma {:induction false} ValuesInvertSymbols(v: seq<Sextet>)
    ensures Values(Symbols(v)) == Some(v)
  {
    if v != [] {
      SymbolIsExact(Symbol(v[0]), v[0]);
      ValuesInvertSymbols(v[1..]);
      assert Symbols(v)[1..] == Symbols(v[1..]);
      assert v == [v[0]] + v[1..];
    }
  }

  lemma {:induction false} SymbolsInvertValues(s: string)
    requires Values(s).Some?
    ensures Symbols(Values(s).value) == s
  {
    if s != "" {
      SymbolIsExact(s[0], SymbolValue(s[0]).value);
      SymbolsInvertValues(s[1..]);
      assert Values(s).value[1..] == Values(s[1..]).value;
      assert s == [s[0]] + s[1..];
    }
  }

  lemma BytesReadBack(a: nat, b: nat, c: nat)
    requires a < 256 && b < 256 && c < 256
    ensures ByteA(a / 4, Second(a, b)) == a
    ensures ByteB(Second(a, b), Third(b, c)) == b
    ensures ByteC(Third(b, c), c % 64) == c
    ensures Second(a, 0) % 16 == 0 && Third(b, 0) % 4 == 0
  {
  }

  lemma GroupsReadBack(p: nat, q: nat, r: nat, t: nat)
    requires p < 64 && q < 64 && r < 64 && t < 64
    ensures ByteA(p, q) / 4 == p
    ensures Second(ByteA(p, q), ByteB(q, r)) == q
    ensures Third(ByteB(q, r), ByteC(r, t)) == r
    ensures ByteC(r, t) % 64 == t
    ensures q % 16 == 0 ==> Second(ByteA(p, q), 0) == q
    ensures r % 4 == 0 ==> Third(ByteB(q, r), 0) == r
  {
  }

  lemma {:induction false} OctetsInvertSextets(b: seq<Byte>)
    ensures Octets(Sextets(b)) == Some(b)
  {
    hide ByteA, ByteB, ByteC, Second, Third;
    if |b| == 1 {
      BytesReadBack(b[0], 0, 0);
      assert b == [b[0]];
    } else if |b| == 2 {
      BytesReadBack(b[0], b[1], 0);
      assert b == [b[0], b[1]];
    } else if |b| >= 3 {
      BytesReadBack(b[0], b[1], b[2]);
      OctetsInvertSextets(b[3..]);
      assert Sextets(b)[4..] == Sextets(b[3..]);
      assert b == [b[0], b[1], b[2]] + b[3..];
    }
  }

  lemma {:induction false} SextetsInvertOctets(v: seq<Sextet>)
    requires Octets(v).Some?
    ensures Sextets(Octets(v).value) == v
  {
    hide ByteA, ByteB, ByteC, Second, Third;
    if |v| == 2 {
      GroupsReadBack(v[0], v[1], 0, 0);
    } else if |v| == 3 {
      GroupsReadBack(v[0], v[1], v[2], 0);
    } else if |v| >= 4 {
      GroupsReadBack(v[0], v[1], v[2], v[3]);
      SextetsInvertOctets(v[4..]);
      assert Octets(v).value[3..] == Octets(v[4..]).value;
      assert v == [v[0], v[1], v[2], v[3]] + v[4..];
    }
  }

  /** A text decodes to some bytes exactly if it is their encoding: there is one spelling only. */
  lemma DecodeIsExact(s: string, b: seq<Byte>)
    ensures Decode(s) == Some(b) <==> s == Encode(b)
  {
    if Decode(s) == Some(b) {
      SymbolsInvertValues(s);
      SextetsInvertOctets(Values(s).value);
    }
    if s == Encode(b) {
      ValuesInvertSymbols(Sextets(b));
      OctetsInvertSextets(b);
    }
  }

  // ----- against the standard's table -----

  /** The alphabet of table 2 of RFC 4648. */
  lemma AlphabetIsExact(n: Sextet)
    ensures Symbol(n) == if n < 26 then "ABCDEFGHIJKLMNOPQRSTUVWXYZ"[n]
                         else if n < 52 then "abcdefghijklmnopqrstuvwxyz"[n - 26]
                         else if n < 62 then "0123456789"[n - 52]
                         else "-_"[n - 62]
  {
  }

  /** Four sextets are the 24 bits of three bytes, the high ones first; a last group of two or three is
      filled up with zero bits. */
  lemma GroupKeepsBits(b: seq<Byte>)
    requires b != []
    ensures var v := Sextets(b);
            if |b| == 1 then |v| == 2 && 64 * v[0] as int + v[1] as int == 16 * b[0] as int
            else if |b| == 2 then
                 |v| == 3
                 && 4096 * v[0] as int + 64 * v[1] as int + v[2] as int == 4 * (256 * b[0] as int + b[1] as int)
            else |v| >= 4 && v[4..] == Sextets(b[3..])
                 && 262144 * v[0] as int + 4096 * v[1] as int + 64 * v[2] as int + v[3] as int
                    == 65536 * b[0] as int + 256 * b[1] as int + b[2] as int
  {
  }
}
