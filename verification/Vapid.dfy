/** Validation of the VAPID header against the key pinned at registration. */
module Vapid {
  import opened Types
  import Base64

  const VAPID_KEY_LENGTH: nat := 87
  const MAX_EXP_AHEAD: nat := 24 * 60 * 60
  const CLOCK_SKEW: nat := 300
  const U64_MAX: nat := 0xFFFF_FFFF_FFFF_FFFF

  datatype Rejection = MissingHeader | MalformedHeader | KeyMismatch | BadToken | BadSignature
                     | Expired | TooFarAhead | BadAudience

  type Key = seq<Byte>

  type U64 = n: nat | n <= U64_MAX

  // ----- keys -----

  function Uncompressed(bytes: Option<seq<Byte>>): Option<Key> {
    if bytes.Some? && |bytes.value| == 65 && bytes.value[0] == 4 then bytes else None
  }

  function DecodePublicKey(text: string): Option<Key> {
    if |text| != VAPID_KEY_LENGTH then None else Uncompressed(Base64.Decode(text))
  }

  function TrimEnd(s: string, c: char): (t: string)
    ensures t <= s && (t != "" ==> t[|t| - 1] != c)
    ensures forall k :: |t| <= k < |s| ==> s[k] == c
  {
    if s != "" && s[|s| - 1] == c then TrimEnd(s[..|s| - 1], c) else s
  }

  /** The standard alphabet's two extra symbols, replaced by those of the URL alphabet. */
  function UrlAlphabet(s: string): (t: string)
    ensures |t| == |s|
    ensures forall k :: 0 <= k < |s| ==> t[k] == (if s[k] == '+' then '-' else if s[k] == '/' then '_' else s[k])
  {
    if s == "" then ""
    else [if s[0] == '+' then '-' else if s[0] == '/' then '_' else s[0]] + UrlAlphabet(s[1..])
  }

  function Normalize(text: string): string {
    UrlAlphabet(TrimEnd(text, '='))
  }

  function DecodeKeyParam(text: string): Option<Key> {
    Uncompressed(Base64.Decode(Normalize(text)))
  }

  /** A parameter means the stored key exactly if it normalises to the stored text. */
  lemma ParameterMatchesExactly(text: string, stored: string)
    requires DecodePublicKey(stored).Some?
    ensures DecodeKeyParam(text) == DecodePublicKey(stored) <==> Normalize(text) == stored
  {
    var key := DecodePublicKey(stored).value;
    Base64.DecodeIsExact(stored, key);
    Base64.DecodeIsExact(Normalize(text), key);
  }

  /** The same key in the standard alphabet at any symbols, with any number of padding signs. */
  ghost predicate Respells(text: string, stored: string) {
    && |text| >= |stored|
    && (forall k :: 0 <= k < |stored| ==>
          text[k] == stored[k] || (text[k] == '+' && stored[k] == '-') || (text[k] == '/' && stored[k] == '_'))
    && (forall k :: |stored| <= k < |text| ==> text[k] == '=')
  }

  lemma TrimStopsAt(text: string, n: nat)
    requires n <= |text| && (n > 0 ==> text[n - 1] != '=') && forall k :: n <= k < |text| ==> text[k] == '='
    ensures TrimEnd(text, '=') == text[..n]
  {
    var t := TrimEnd(text, '=');
    assert t == text[..|t|];
  }

  lemma RespellingNormalizes(text: string, stored: string)
    requires stored != "" && (forall k :: 0 <= k < |stored| ==> stored[k] !in {'=', '+', '/'})
    ensures Respells(text, stored) <==> Normalize(text) == stored
  {
    if Respells(text, stored) {
      TrimStopsAt(text, |stored|);
    }
  }

  lemma {:induction false} KeyTextIsPlain(text: string)
    requires Base64.Values(text).Some?
    ensures forall k :: 0 <= k < |text| ==> text[k] !in {'=', '+', '/'}
  {
    if text != "" {
      KeyTextIsPlain(text[1..]);
      forall k | 0 <= k < |text| ensures text[k] !in {'=', '+', '/'} {
        assert k > 0 ==> text[k] == text[1..][k - 1];
      }
    }
  }

  /** All padded and standard-alphabet respellings of a stored key are accepted as that key, and
      nothing else is. */
  lemma RespellingsAndNothingElse(text: string, stored: string)
    requires DecodePublicKey(stored).Some?
    ensures DecodeKeyParam(text) == DecodePublicKey(stored) <==> Respells(text, stored)
  {
    KeyTextIsPlain(stored);
    RespellingNormalizes(text, stored);
    ParameterMatchesExactly(text, stored);
  }

  /** Different stored texts are different keys. */
  lemma KeysAreSpelledOnce(stored: string, other: string)
    requires DecodePublicKey(stored).Some? && DecodePublicKey(stored) == DecodePublicKey(other)
    ensures stored == other
  {
    Base64.DecodeIsExact(stored, DecodePublicKey(stored).value);
    Base64.DecodeIsExact(other, DecodePublicKey(stored).value);
  }

  // ----- the time window -----

  function SaturatingAdd(a: U64, b: U64): U64 {
    if a + b > U64_MAX then U64_MAX else a + b
  }

  function CheckTime(exp: U64, now: U64): Option<Rejection> {
    if SaturatingAdd(exp, CLOCK_SKEW) < now then Some(Expired)
    else if exp > SaturatingAdd(SaturatingAdd(now, MAX_EXP_AHEAD), CLOCK_SKEW) then Some(TooFarAhead)
    else None
  }

  /** Saturation never shows: for all 64-bit times the window is the one of unbounded integers. */
  lemma TimeWindowIsExact(exp: U64, now: U64)
    ensures CheckTime(exp, now).None? <==> now - 300 <= exp <= now + 86700
    ensures CheckTime(exp, now) == Some(Expired) <==> exp < now - 300
    ensures CheckTime(exp, now) == Some(TooFarAhead) <==> exp > now + 86700
  {
  }

  // ----- the header -----

  function Split(s: string, c: char): (parts: seq<string>)
    ensures parts != []
    decreases |s|
  {
    if s == "" then [""]
    else if s[0] == c then [""] + Split(s[1..], c)
    else
      var rest := Split(s[1..], c);
      [[s[0]] + rest[0]] + rest[1..]
  }

  function Join(parts: seq<string>, c: char): string
    requires parts != []
  {
    if |parts| == 1 then parts[0] else parts[0] + [c] + Join(parts[1..], c)
  }

  lemma JoinGrows(x: char, parts: seq<string>, c: char)
    requires parts != []
    ensures Join([[x] + parts[0]] + parts[1..], c) == [x] + Join(parts, c)
  {
    var more := [[x] + parts[0]] + parts[1..];
    assert more[1..] == parts[1..];
    if |parts| > 1 {
      assert [x] + (parts[0] + [c] + Join(parts[1..], c)) == [x] + parts[0] + [c] + Join(parts[1..], c);
    }
  }

  lemma JoinStarts(parts: seq<string>, c: char)
    requires parts != []
    ensures Join([""] + parts, c) == [c] + Join(parts, c)
  {
    assert ([""] + parts)[1..] == parts;
    assert "" + [c] + Join(parts, c) == [c] + Join(parts, c);
  }

  /** Splitting loses nothing. */
  lemma {:induction false} JoinInvertsSplit(s: string, c: char)
    ensures Join(Split(s, c), c) == s
  {
    if s != "" {
      JoinInvertsSplit(s[1..], c);
      JoinStarts(Split(s[1..], c), c);
      JoinGrows(s[0], Split(s[1..], c), c);
      hide Join;
      assert s == [s[0]] + s[1..];
    }
  }

  /** No part holds the separator. */
  lemma {:induction false} PartsAreWhole(s: string, c: char, p: string)
    requires p in Split(s, c)
    ensures c !in p
  {
    if s != "" {
      var rest := Split(s[1..], c);
      if p in rest {
        PartsAreWhole(s[1..], c, p);
      } else if s[0] != c {
        PartsAreWhole(s[1..], c, rest[0]);
        assert p == [s[0]] + rest[0];
      }
    }
  }

  /** Parts without the separator are what splitting their join gives. */
  lemma {:induction false} SplitInvertsJoin(parts: seq<string>, c: char)
    requires parts != [] && forall p :: p in parts ==> c !in p
    ensures Split(Join(parts, c), c) == parts
    decreases |Join(parts, c)|
  {
    var s, first, rest := Join(parts, c), parts[0], parts[1..];
    assert parts == [first] + rest;
    if first == "" {
      if rest != [] {
        JoinStarts(rest, c);
        assert s[1..] == Join(rest, c);
        SplitInvertsJoin(rest, c);
      }
    } else {
      var shorter := [first[1..]] + rest;
      JoinGrows(first[0], shorter, c);
      assert [first[0]] + first[1..] == first && shorter[1..] == rest;
      assert first in parts && first[0] in first;
      forall p | p in shorter ensures c !in p {
        assert p == first[1..] || p in parts;
        assert forall x :: x in first[1..] ==> x in first;
      }
      assert s[0] == first[0] && s[1..] == Join(shorter, c);
      SplitInvertsJoin(shorter, c);
    }
  }

  /** Splitting gives the only list of parts without the separator that joins to the text. */
  lemma SplitIsExact(s: string, c: char, parts: seq<string>)
    ensures parts == Split(s, c) <==> parts != [] && Join(parts, c) == s && forall p :: p in parts ==> c !in p
  {
    hide Split, Join;
    JoinInvertsSplit(s, c);
    forall p | p in Split(s, c) ensures c !in p {
      PartsAreWhole(s, c, p);
    }
    if parts != [] && Join(parts, c) == s && forall p :: p in parts ==> c !in p {
      SplitInvertsJoin(parts, c);
    }
  }

  /** The text before the first separator and the text behind it. */
  function SplitOnce(s: string, c: char): Option<(string, string)> {
    if s == "" then None
    else if s[0] == c then Some(("", s[1..]))
    else
      match SplitOnce(s[1..], c)
      case None => None
      case Some((head, tail)) => Some(([s[0]] + head, tail))
  }

  predicate IsSpace(c: char) {
    c in {' ', '\t', '\n', '\r'}
  }

  function Trim(s: string): string
    decreases |s|
  {
    if s == "" then ""
    else if IsSpace(s[0]) then Trim(s[1..])
    else if IsSpace(s[|s| - 1]) then Trim(s[..|s| - 1])
    else s
  }

  ghost predicate Blank(s: string) {
    forall k :: 0 <= k < |s| ==> s[k] in {' ', '\t', '\n', '\r'}
  }

  /** The core is what the text has between blanks at both ends. */
  ghost predicate IsTrimmed(s: string, core: string) {
    exists before, after ::
      && s == before + core + after && Blank(before) && Blank(after)
      && (core != "" ==> !Blank([core[0]]) && !Blank([core[|core| - 1]]))
  }

  lemma BlankGrows(c: char, s: string)
    requires Blank(s) && IsSpace(c)
    ensures Blank([c] + s) && Blank(s + [c])
  {
  }

  lemma BlankInFront(c: char, s: string, core: string)
    requires IsTrimmed(s, core) && IsSpace(c)
    ensures IsTrimmed([c] + s, core)
  {
    hide Blank, IsSpace;
    var before, after :| s == before + core + after && Blank(before) && Blank(after)
                         && (core != "" ==> !Blank([core[0]]) && !Blank([core[|core| - 1]]));
    BlankGrows(c, before);
    assert [c] + s == ([c] + before) + core + after;
  }

  lemma BlankBehind(c: char, s: string, core: string)
    requires IsTrimmed(s, core) && IsSpace(c)
    ensures IsTrimmed(s + [c], core)
  {
    hide Blank, IsSpace;
    var before, after :| s == before + core + after && Blank(before) && Blank(after)
                         && (core != "" ==> !Blank([core[0]]) && !Blank([core[|core| - 1]]));
    BlankGrows(c, after);
    assert s + [c] == before + core + (after + [c]);
  }

  lemma NothingToTrim(s: string)
    requires s != "" ==> !IsSpace(s[0]) && !IsSpace(s[|s| - 1])
    ensures IsTrimmed(s, s)
  {
    var none: string := "";
    if s != "" {
      assert [s[0]][0] == s[0] && [s[|s| - 1]][0] == s[|s| - 1];
      assert !Blank([s[0]]) && !Blank([s[|s| - 1]]);
    }
    assert s == none + s + none && Blank(none);
  }

  lemma {:induction false} TrimLeavesCore(s: string)
    ensures IsTrimmed(s, Trim(s))
    decreases |s|
  {
    hide IsTrimmed;
    if s != "" && IsSpace(s[0]) {
      TrimLeavesCore(s[1..]);
      BlankInFront(s[0], s[1..], Trim(s));
      assert s == [s[0]] + s[1..];
    } else if s != "" && IsSpace(s[|s| - 1]) {
      TrimLeavesCore(s[..|s| - 1]);
      BlankBehind(s[|s| - 1], s[..|s| - 1], Trim(s));
      assert s == s[..|s| - 1] + [s[|s| - 1]];
    } else {
      NothingToTrim(s);
    }
  }

  lemma CoreIsUnique(s: string, core: string, other: string)
    requires IsTrimmed(s, core) && IsTrimmed(s, other)
    ensures core == other
  {
    var before, after :| s == before + core + after && Blank(before) && Blank(after)
                         && (core != "" ==> !Blank([core[0]]) && !Blank([core[|core| - 1]]));
    var front, back :| s == front + other + back && Blank(front) && Blank(back)
                       && (other != "" ==> !Blank([other[0]]) && !Blank([other[|other| - 1]]));
    CoreFits(s, before, core, after, front, other, back);
    CoreFits(s, front, other, back, before, core, after);
    assert core != "" ==> core == s[|before|..|before| + |core|];
    assert other != "" ==> other == s[|front|..|front| + |other|];
  }

  /** What stands outside the middle is blank. */
  lemma BlankEnds(s: string, front: string, middle: string, back: string, k: nat)
    requires s == front + middle + back && Blank(front) && Blank(back) && k < |s|
    ensures |front| <= k < |front| + |middle| || Blank([s[k]])
  {
    assert s[k] == if k < |front| then front[k]
                   else if k < |front| + |middle| then middle[k - |front|] else back[k - |front| - |middle|];
  }

  /** A core without blank ends starts no earlier, and ends no later, than any other. */
  lemma CoreFits(
      s: string, before: string, core: string, after: string, front: string, other: string, back: string)
    requires s == before + core + after && Blank(before) && Blank(after)
    requires s == front + other + back && Blank(front) && Blank(back)
    requires core != "" ==> !Blank([core[0]]) && !Blank([core[|core| - 1]])
    ensures core != "" ==> other != "" && |front| <= |before| && |before| + |core| <= |front| + |other|
  {
    if core != "" {
      var first, last := |before|, |before| + |core| - 1;
      assert s[first] == core[0] && s[last] == core[|core| - 1];
      assert !Blank([s[first]]) && !Blank([s[last]]);
      BlankEnds(s, front, other, back, first);
      BlankEnds(s, front, other, back, last);
    }
  }

  /** Trimming gives the one core. */
  lemma TrimIsExact(s: string, core: string)
    ensures Trim(s) == core <==> IsTrimmed(s, core)
  {
    TrimLeavesCore(s);
    if IsTrimmed(s, core) {
      CoreIsUnique(s, Trim(s), core);
    }
  }

  function Lower(c: char): char {
    if 'A' <= c <= 'Z' then (c as nat - 'A' as nat + 'a' as nat) as char else c
  }

  predicate IsVapid(scheme: string) {
    |scheme| == 5 && forall k :: 0 <= k < 5 ==> Lower(scheme[k]) == "vapid"[k]
  }

  function WithPrefix(part: string, prefix: string): Option<string> {
    if prefix <= part then Some(part[|prefix|..]) else None
  }

  /** The value of the last part with the prefix. */
  function LastValue(parts: seq<string>, prefix: string): Option<string>
    decreases |parts|
  {
    if parts == [] then None
    else if WithPrefix(Trim(parts[|parts| - 1]), prefix).Some? then WithPrefix(Trim(parts[|parts| - 1]), prefix)
    else LastValue(parts[..|parts| - 1], prefix)
  }

  /** The last part that starts with the prefix, blanks around it aside, goes on with the value. */
  ghost predicate LastIs(parts: seq<string>, prefix: string, value: string) {
    exists n :: 0 <= n < |parts| && IsTrimmed(parts[n], prefix + value)
      && forall m, other: string :: n < m < |parts| ==> !IsTrimmed(parts[m], prefix + other)
  }

  lemma PrefixedExactly(part: string, prefix: string, value: string)
    ensures WithPrefix(Trim(part), prefix) == Some(value) <==> IsTrimmed(part, prefix + value)
  {
    hide Trim, IsTrimmed;
    TrimIsExact(part, prefix + value);
    if prefix <= Trim(part) {
      assert Trim(part) == prefix + Trim(part)[|prefix|..];
    }
  }

  lemma {:induction false} LastValueIsExact(parts: seq<string>, prefix: string, value: string)
    ensures LastValue(parts, prefix) == Some(value) <==> LastIs(parts, prefix, value)
    decreases |parts|
  {
    hide Trim, IsTrimmed, WithPrefix;
    if parts != [] {
      var front, last := parts[..|parts| - 1], parts[|parts| - 1];
      var found := WithPrefix(Trim(last), prefix);
      forall other: string ensures found == Some(other) <==> IsTrimmed(last, prefix + other) {
        PrefixedExactly(last, prefix, other);
      }
      LastValueIsExact(front, prefix, value);
      if found.Some? {
        LastPartDecides(parts, prefix, found.value, value);
      } else {
        LastPartIsPassed(parts, prefix, value);
      }
    }
  }

  lemma LastPartDecides(parts: seq<string>, prefix: string, found: string, value: string)
    requires parts != [] && IsTrimmed(parts[|parts| - 1], prefix + found)
    ensures LastIs(parts, prefix, value) <==> value == found
  {
    hide IsTrimmed;
    if LastIs(parts, prefix, value) {
      var n :| 0 <= n < |parts| && IsTrimmed(parts[n], prefix + value)
               && forall m, other: string :: n < m < |parts| ==> !IsTrimmed(parts[m], prefix + other);
      assert n == |parts| - 1;
      CoreIsUnique(parts[n], prefix + value, prefix + found);
      assert (prefix + value)[|prefix|..] == value && (prefix + found)[|prefix|..] == found;
    }
  }

  lemma LastPartIsPassed(parts: seq<string>, prefix: string, value: string)
    requires parts != [] && forall other: string :: !IsTrimmed(parts[|parts| - 1], prefix + other)
    ensures LastIs(parts, prefix, value) <==> LastIs(parts[..|parts| - 1], prefix, value)
  {
    hide IsTrimmed;
    var front := parts[..|parts| - 1];
    if LastIs(parts, prefix, value) {
      var n :| 0 <= n < |parts| && IsTrimmed(parts[n], prefix + value)
               && forall m, other: string :: n < m < |parts| ==> !IsTrimmed(parts[m], prefix + other);
      assert n < |front| && front[n] == parts[n];
      assert forall m, other: string :: n < m < |front| ==> !IsTrimmed(front[m], prefix + other);
    }
    if LastIs(front, prefix, value) {
      var n :| 0 <= n < |front| && IsTrimmed(front[n], prefix + value)
               && forall m, other: string :: n < m < |front| ==> !IsTrimmed(front[m], prefix + other);
      forall m, other: string | n < m < |parts| ensures !IsTrimmed(parts[m], prefix + other) {
        assert m < |front| ==> parts[m] == front[m];
      }
    }
  }

  lemma PrefixesClash(part: string)
    ensures WithPrefix(part, "t=").None? || WithPrefix(part, "k=").None?
  {
    if "t=" <= part {
      assert part[0] == "t="[0] != "k="[0];
    }
  }

  datatype Claims = Claims(exp: Option<U64>, aud: Option<string>)

  // JSON and the signature scheme: the algorithm a JWT header names, the claims of a payload, and
  // the parsing and verifying of signatures.
  datatype Oracle = Oracle(
    algorithm: seq<Byte> -> Option<string>,
    claims: seq<Byte> -> Option<Claims>,
    signature: seq<Byte> -> bool,
    point: Key -> bool,
    verifies: (Key, string, seq<Byte>) -> bool)

  /** A token's three parts; the third keeps any further dots. */
  function SplitToken(token: string): Option<(string, string, string)> {
    match SplitOnce(token, '.')
    case None => None
    case Some((header, rest)) =>
      match SplitOnce(rest, '.')
      case None => None
      case Some((payload, signature)) => Some((header, payload, signature))
  }

  function CheckClaims(claims: Claims, origin: string, now: U64): Option<Rejection> {
    if claims.exp.None? then Some(BadToken)
    else if CheckTime(claims.exp.value, now).Some? then CheckTime(claims.exp.value, now)
    else if claims.aud.None? then Some(BadToken)
    else if TrimEnd(claims.aud.value, '/') != TrimEnd(origin, '/') then Some(BadAudience)
    else None
  }

  function CheckToken(o: Oracle, token: string, key: Key, origin: string, now: U64): Option<Rejection> {
    match SplitToken(token)
    case None => Some(BadToken)
    case Some((header, payload, signature)) =>
      if Base64.Decode(header).None? || o.algorithm(Base64.Decode(header).value) != Some("ES256") then Some(BadToken)
      else if Base64.Decode(payload).None? || o.claims(Base64.Decode(payload).value).None? then Some(BadToken)
      else if Base64.Decode(signature).None? || !o.signature(Base64.Decode(signature).value) then Some(BadToken)
      else if !o.point(key) then Some(KeyMismatch)
      else if !o.verifies(key, header + "." + payload, Base64.Decode(signature).value) then Some(BadSignature)
      else CheckClaims(o.claims(Base64.Decode(payload).value).value, origin, now)
  }

  function CheckParameters(
      o: Oracle, token: Option<string>, key: Option<string>, stored: string, origin: string, now: U64)
    : Option<Rejection>
  {
    if token.None? || key.None? then Some(MalformedHeader)
    else if DecodePublicKey(stored).None? then Some(KeyMismatch)
    else if DecodeKeyParam(key.value) != DecodePublicKey(stored) then Some(KeyMismatch)
    else CheckToken(o, token.value, DecodePublicKey(stored).value, origin, now)
  }

  function Verdict(o: Oracle, authorization: Option<string>, stored: string, origin: string, now: U64)
    : Option<Rejection>
  {
    if authorization.None? then Some(MissingHeader)
    else
      match SplitOnce(authorization.value, ' ')
      case None => Some(MalformedHeader)
      case Some((scheme, rest)) =>
        if !IsVapid(scheme) then Some(MalformedHeader)
        else
          var parts := Split(rest, ',');
          CheckParameters(o, LastValue(parts, "t="), LastValue(parts, "k="), stored, origin, now)
  }

  // ----- what acceptance means -----

  /** The claims are inside the time window, in unbounded integers, and name this origin. */
  predicate InWindow(claims: Claims, origin: string, now: U64) {
    && claims.exp.Some? && now - 300 <= claims.exp.value <= now + 86700
    && claims.aud.Some? && TrimEnd(claims.aud.value, '/') == TrimEnd(origin, '/')
  }

  /** A JWT signed with ES256 under the key, whose claims hold. */
  ghost predicate Signed(o: Oracle, token: string, key: Key, origin: string, now: U64) {
    exists header, payload, signature ::
      && token == Base64.Encode(header) + "." + Base64.Encode(payload) + "." + Base64.Encode(signature)
      && o.algorithm(header) == Some("ES256") && o.signature(signature) && o.point(key)
      && o.verifies(key, Base64.Encode(header) + "." + Base64.Encode(payload), signature)
      && o.claims(payload).Some? && InWindow(o.claims(payload).value, origin, now)
  }

  lemma ClaimsAcceptedExactly(claims: Claims, origin: string, now: U64)
    ensures CheckClaims(claims, origin, now).None? <==> InWindow(claims, origin, now)
  {
    if claims.exp.Some? {
      TimeWindowIsExact(claims.exp.value, now);
    }
  }

  lemma {:induction false} SplitOnceCuts(s: string, c: char)
    requires SplitOnce(s, c).Some?
    ensures var (head, tail) := SplitOnce(s, c).value; c !in head && s == head + [c] + tail
  {
    if s[0] != c {
      SplitOnceCuts(s[1..], c);
      assert s == [s[0]] + s[1..];
    }
  }

  lemma {:induction false} SplitOnceFinds(head: string, c: char, tail: string)
    requires c !in head
    ensures SplitOnce(head + [c] + tail, c) == Some((head, tail))
  {
    var s := head + [c] + tail;
    if head == "" {
      assert s[1..] == tail;
    } else {
      assert s[1..] == head[1..] + [c] + tail;
      SplitOnceFinds(head[1..], c, tail);
      assert head == [head[0]] + head[1..];
    }
  }

  lemma SplitOnceIsExact(s: string, c: char, head: string, tail: string)
    ensures SplitOnce(s, c) == Some((head, tail)) <==> c !in head && s == head + [c] + tail
  {
    if SplitOnce(s, c).Some? {
      SplitOnceCuts(s, c);
    }
    if c !in head && s == head + [c] + tail {
      SplitOnceFinds(head, c, tail);
    }
  }

  lemma NoDots(b: seq<Byte>)
    ensures '.' !in Base64.Encode(b)
  {
    SymbolsHaveNoDots(Base64.Sextets(b));
  }

  lemma {:induction false} SymbolsHaveNoDots(v: seq<Base64.Sextet>)
    ensures '.' !in Base64.Symbols(v)
  {
    if v != [] {
      SymbolsHaveNoDots(v[1..]);
    }
  }

  lemma TokenSplitsExactly(token: string, header: string, payload: string, signature: string)
    ensures SplitToken(token) == Some((header, payload, signature))
       <==> '.' !in header && '.' !in payload && token == header + "." + payload + "." + signature
  {
    var rest := payload + "." + signature;
    SplitOnceIsExact(rest, '.', payload, signature);
    assert header + "." + payload + "." + signature == header + ['.'] + rest;
    SplitOnceIsExact(token, '.', header, rest);
    if SplitToken(token) == Some((header, payload, signature)) {
      var tail := SplitOnce(token, '.').value.1;
      SplitOnceIsExact(tail, '.', payload, signature);
      assert tail == rest;
    }
  }

  lemma SignedIsAccepted(
      o: Oracle, token: string, key: Key, origin: string, now: U64,
      header: seq<Byte>, payload: seq<Byte>, signature: seq<Byte>)
    requires token == Base64.Encode(header) + "." + Base64.Encode(payload) + "." + Base64.Encode(signature)
    ensures CheckToken(o, token, key, origin, now).None?
       <==> && o.algorithm(header) == Some("ES256") && o.signature(signature) && o.point(key)
            && o.verifies(key, Base64.Encode(header) + "." + Base64.Encode(payload), signature)
            && o.claims(payload).Some? && InWindow(o.claims(payload).value, origin, now)
  {
    hide Base64.Encode, Base64.Decode, CheckClaims, InWindow, SplitToken;
    NoDots(header);
    NoDots(payload);
    TokenSplitsExactly(token, Base64.Encode(header), Base64.Encode(payload), Base64.Encode(signature));
    Base64.DecodeIsExact(Base64.Encode(header), header);
    Base64.DecodeIsExact(Base64.Encode(payload), payload);
    Base64.DecodeIsExact(Base64.Encode(signature), signature);
    if o.claims(payload).Some? {
      ClaimsAcceptedExactly(o.claims(payload).value, origin, now);
    }
  }

  lemma TokenAcceptedExactly(o: Oracle, token: string, key: Key, origin: string, now: U64)
    ensures CheckToken(o, token, key, origin, now).None? <==> Signed(o, token, key, origin, now)
  {
    if CheckToken(o, token, key, origin, now).None? {
      var (h, p, s) := SplitToken(token).value;
      var header, payload, signature := Base64.Decode(h).value, Base64.Decode(p).value, Base64.Decode(s).value;
      Base64.DecodeIsExact(h, header);
      Base64.DecodeIsExact(p, payload);
      Base64.DecodeIsExact(s, signature);
      TokenSplitsExactly(token, h, p, s);
      SignedIsAccepted(o, token, key, origin, now, header, payload, signature);
    }
    if Signed(o, token, key, origin, now) {
      var header, payload, signature :|
        && token == Base64.Encode(header) + "." + Base64.Encode(payload) + "." + Base64.Encode(signature)
        && o.algorithm(header) == Some("ES256") && o.signature(signature) && o.point(key)
        && o.verifies(key, Base64.Encode(header) + "." + Base64.Encode(payload), signature)
        && o.claims(payload).Some? && InWindow(o.claims(payload).value, origin, now);
      SignedIsAccepted(o, token, key, origin, now, header, payload, signature);
    }
  }

  // ----- the header as the sender writes it -----

  /** The comma-separated parts of the text. */
  ghost predicate IsList(parts: seq<string>, text: string) {
    parts != [] && Join(parts, ',') == text && forall p :: p in parts ==> ',' !in p
  }

  /** The header is `vapid`, in any case, and a list whose last `t` and `k` are these. */
  ghost predicate Carries(authorization: Option<string>, token: string, key: string) {
    exists scheme: string, parts: seq<string> ::
      && |scheme| == 5 && (forall n :: 0 <= n < 5 ==> scheme[n] == "vapid"[n] || scheme[n] == "VAPID"[n])
      && authorization.Some? && scheme + " " <= authorization.value
      && IsList(parts, authorization.value[6..])
      && LastIs(parts, "t=", token) && LastIs(parts, "k=", key)
  }

  /** The sender has proved that it holds the stored key, now and for this origin. */
  ghost predicate Proves(o: Oracle, authorization: Option<string>, stored: string, origin: string, now: U64) {
    exists token, key ::
      && Carries(authorization, token, key) && Respells(key, stored)
      && DecodePublicKey(stored).Some? && Signed(o, token, DecodePublicKey(stored).value, origin, now)
  }

  lemma VapidInAnyCase(scheme: string)
    ensures IsVapid(scheme) <==>
              |scheme| == 5 && forall n :: 0 <= n < 5 ==> scheme[n] == "vapid"[n] || scheme[n] == "VAPID"[n]
    ensures IsVapid(scheme) ==> ' ' !in scheme
  {
  }

  lemma CarriesExactly(authorization: Option<string>, token: string, key: string)
    ensures Carries(authorization, token, key) <==>
              && authorization.Some? && SplitOnce(authorization.value, ' ').Some?
              && var (scheme, rest) := SplitOnce(authorization.value, ' ').value;
                 && IsVapid(scheme) && LastValue(Split(rest, ','), "t=") == Some(token)
                 && LastValue(Split(rest, ','), "k=") == Some(key)
  {
    hide SplitOnce, Split, LastValue, IsVapid, LastIs, Join;
    if Carries(authorization, token, key) {
      var scheme: string, parts: seq<string> :|
        && |scheme| == 5 && (forall n :: 0 <= n < 5 ==> scheme[n] == "vapid"[n] || scheme[n] == "VAPID"[n])
        && authorization.Some? && scheme + " " <= authorization.value && IsList(parts, authorization.value[6..])
        && LastIs(parts, "t=", token) && LastIs(parts, "k=", key);
      var rest := authorization.value[6..];
      VapidInAnyCase(scheme);
      assert authorization.value == scheme + [' '] + rest;
      SplitOnceIsExact(authorization.value, ' ', scheme, rest);
      SplitIsExact(rest, ',', parts);
      LastValueIsExact(parts, "t=", token);
      LastValueIsExact(parts, "k=", key);
    }
    if authorization.Some? && SplitOnce(authorization.value, ' ').Some? {
      var (scheme, rest) := SplitOnce(authorization.value, ' ').value;
      VapidInAnyCase(scheme);
      SplitOnceIsExact(authorization.value, ' ', scheme, rest);
      SplitIsExact(rest, ',', Split(rest, ','));
      LastValueIsExact(Split(rest, ','), "t=", token);
      LastValueIsExact(Split(rest, ','), "k=", key);
      if IsVapid(scheme) {
        assert authorization.value[6..] == rest;
      }
    }
  }

  /** A request is accepted exactly if its header proves the key; without a header never. */
  lemma AcceptanceIsExact(o: Oracle, authorization: Option<string>, stored: string, origin: string, now: U64)
    ensures Verdict(o, authorization, stored, origin, now).None? <==> Proves(o, authorization, stored, origin, now)
  {
    hide Carries, Signed, Respells, DecodePublicKey, SplitOnce, Split, LastValue, IsVapid, CheckParameters;
    if authorization.Some? && SplitOnce(authorization.value, ' ').Some? {
      var (scheme, rest) := SplitOnce(authorization.value, ' ').value;
      var t, k := LastValue(Split(rest, ','), "t="), LastValue(Split(rest, ','), "k=");
      ParametersAcceptedExactly(o, t, k, stored, origin, now);
      if t.Some? && k.Some? {
        CarriesExactly(authorization, t.value, k.value);
      }
    }
    if Proves(o, authorization, stored, origin, now) {
      var token, key :|
        && Carries(authorization, token, key) && Respells(key, stored)
        && DecodePublicKey(stored).Some? && Signed(o, token, DecodePublicKey(stored).value, origin, now);
      CarriesExactly(authorization, token, key);
    }
  }

  lemma ParametersAcceptedExactly(
      o: Oracle, token: Option<string>, key: Option<string>, stored: string, origin: string, now: U64)
    ensures CheckParameters(o, token, key, stored, origin, now).None? <==>
              && token.Some? && key.Some? && DecodePublicKey(stored).Some? && Respells(key.value, stored)
              && Signed(o, token.value, DecodePublicKey(stored).value, origin, now)
  {
    hide CheckToken, DecodePublicKey, DecodeKeyParam, Respells, Signed;
    if token.Some? && key.Some? && DecodePublicKey(stored).Some? {
      RespellingsAndNothingElse(key.value, stored);
      TokenAcceptedExactly(o, token.value, DecodePublicKey(stored).value, origin, now);
    }
  }

  /** `validate`, whose loop keeps the last token and the last key it meets. */
  method Validate(o: Oracle, authorization: Option<string>, stored: string, origin: string, now: U64)
    returns (rejection: Option<Rejection>)
    ensures rejection == Verdict(o, authorization, stored, origin, now)
    ensures rejection.None? <==> Proves(o, authorization, stored, origin, now)
  {
    hide Carries, Proves, CheckParameters;
    AcceptanceIsExact(o, authorization, stored, origin, now);
    if authorization.None? {
      return Some(MissingHeader);
    }
    var halves := SplitOnce(authorization.value, ' ');
    if halves.None? || !IsVapid(halves.value.0) {
      return Some(MalformedHeader);
    }
    var parts := Split(halves.value.1, ',');
    var token: Option<string>, key: Option<string> := None, None;
    var n := 0;
    while n < |parts|
      invariant n <= |parts|
      invariant token == LastValue(parts[..n], "t=") && key == LastValue(parts[..n], "k=")
    {
      var part := Trim(parts[n]);
      PrefixesClash(part);
      if WithPrefix(part, "t=").Some? {
        token := WithPrefix(part, "t=");
      } else if WithPrefix(part, "k=").Some? {
        key := WithPrefix(part, "k=");
      }
      n := n + 1;
      assert parts[..n][..n - 1] == parts[..n - 1];
    }
    assert parts[..n] == parts;
    rejection := CheckParameters(o, token, key, stored, origin, now);
  }

  /** A stored text is a key exactly if it is the 87-character spelling of an uncompressed point. */
  lemma KeyTextIsExact(text: string, key: Key)
    ensures DecodePublicKey(text) == Some(key) <==>
              |text| == 87 && |key| == 65 && key[0] == 4 && text == Base64.Encode(key)
  {
    Base64.DecodeIsExact(text, key);
  }

  // ----- why a request is refused -----

  /** The token is three base64url parts: an ES256 header, claims, and a signature. */
  ghost predicate IsToken(o: Oracle, token: string, header: seq<Byte>, payload: seq<Byte>, signature: seq<Byte>) {
    && token == Base64.Encode(header) + "." + Base64.Encode(payload) + "." + Base64.Encode(signature)
    && o.algorithm(header) == Some("ES256") && o.claims(payload).Some? && o.signature(signature)
  }

  /** The checks behind a well-formed token, in order. */
  lemma TokenRefusedInOrder(
      o: Oracle, token: string, key: Key, origin: string, now: U64,
      header: seq<Byte>, payload: seq<Byte>, signature: seq<Byte>)
    requires IsToken(o, token, header, payload, signature)
    ensures var claims := o.claims(payload).value;
            CheckToken(o, token, key, origin, now)
            == if !o.point(key) then Some(KeyMismatch)
               else if !o.verifies(key, Base64.Encode(header) + "." + Base64.Encode(payload), signature) then
                 Some(BadSignature)
               else if claims.exp.None? then Some(BadToken)
               else if claims.exp.value < now - 300 then Some(Expired)
               else if claims.exp.value > now + 86700 then Some(TooFarAhead)
               else if claims.aud.None? then Some(BadToken)
               else if TrimEnd(claims.aud.value, '/') != TrimEnd(origin, '/') then Some(BadAudience)
               else None
  {
    hide Base64.Encode, Base64.Decode, CheckTime, SplitToken;
    NoDots(header);
    NoDots(payload);
    TokenSplitsExactly(token, Base64.Encode(header), Base64.Encode(payload), Base64.Encode(signature));
    Base64.DecodeIsExact(Base64.Encode(header), header);
    Base64.DecodeIsExact(Base64.Encode(payload), payload);
    Base64.DecodeIsExact(Base64.Encode(signature), signature);
    if o.claims(payload).value.exp.Some? {
      TimeWindowIsExact(o.claims(payload).value.exp.value, now);
    }
  }

  lemma MalformedTokenIsBad(o: Oracle, token: string, key: Key, origin: string, now: U64)
    requires forall header, payload, signature :: !IsToken(o, token, header, payload, signature)
    ensures CheckToken(o, token, key, origin, now) == Some(BadToken)
  {
    hide Base64.Encode, Base64.Decode, CheckClaims, SplitToken;
    if SplitToken(token).Some? {
      var (h, p, s) := SplitToken(token).value;
      TokenSplitsExactly(token, h, p, s);
      if Base64.Decode(h).Some? && Base64.Decode(p).Some? && Base64.Decode(s).Some? {
        Base64.DecodeIsExact(h, Base64.Decode(h).value);
        Base64.DecodeIsExact(p, Base64.Decode(p).value);
        Base64.DecodeIsExact(s, Base64.Decode(s).value);
        assert !IsToken(o, token, Base64.Decode(h).value, Base64.Decode(p).value, Base64.Decode(s).value);
      }
    }
  }

  /** The checks in front of the token, in order. */
  lemma HeaderRefusedInOrder(o: Oracle, authorization: Option<string>, stored: string, origin: string, now: U64)
    ensures Verdict(o, authorization, stored, origin, now) == Some(MissingHeader) <==> authorization.None?
    ensures authorization.Some? && (forall token, key :: !Carries(authorization, token, key)) ==>
              Verdict(o, authorization, stored, origin, now) == Some(MalformedHeader)
    ensures forall token, key :: Carries(authorization, token, key) ==>
              Verdict(o, authorization, stored, origin, now)
              == if DecodePublicKey(stored).None? || !Respells(key, stored) then Some(KeyMismatch)
                 else CheckToken(o, token, DecodePublicKey(stored).value, origin, now)
  {
    hide Carries, Respells, DecodePublicKey, DecodeKeyParam, CheckToken, SplitOnce, Split, LastValue, IsVapid;
    forall token, key | Carries(authorization, token, key)
      ensures Verdict(o, authorization, stored, origin, now)
           == if DecodePublicKey(stored).None? || !Respells(key, stored) then Some(KeyMismatch)
              else CheckToken(o, token, DecodePublicKey(stored).value, origin, now)
    {
      CarriesExactly(authorization, token, key);
      if DecodePublicKey(stored).Some? {
        RespellingsAndNothingElse(key, stored);
      }
    }
    if authorization.Some? && SplitOnce(authorization.value, ' ').Some? {
      var (scheme, rest) := SplitOnce(authorization.value, ' ').value;
      var t, k := LastValue(Split(rest, ','), "t="), LastValue(Split(rest, ','), "k=");
      if t.Some? && k.Some? {
        CarriesExactly(authorization, t.value, k.value);
      }
    }
    if authorization.Some? {
      TokenIsNeverMissing(o, authorization, stored, origin, now);
    }
  }

  lemma TokenIsNeverMissing(o: Oracle, authorization: Option<string>, stored: string, origin: string, now: U64)
    requires authorization.Some?
    ensures Verdict(o, authorization, stored, origin, now) != Some(MissingHeader)
  {
    hide Base64.Decode, DecodePublicKey, DecodeKeyParam, SplitOnce, Split, LastValue, IsVapid, SplitToken;
  }
}
