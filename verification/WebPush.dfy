/** Decryption of a web push body: the header arithmetic and the padding around an abstract cipher. */
module WebPush {
  import opened Types

  const PREFIX_LENGTH: nat := 21
  const PUBLIC_KEY_LENGTH: nat := 65
  const TAG_LENGTH: nat := 16
  const SALT_LENGTH: nat := 16
  const HEADER_LENGTH: nat := 86 // prefix and sender key

  // The primitives. `open` and `seal` are keyed by what both sides derive from the receiver's private
  // key or the sender's, the two public keys, the auth secret and the salt.
  datatype Primitives = Primitives(
    validPoint: seq<Byte> -> bool,
    validScalar: seq<Byte> -> bool,
    publicOf: seq<Byte> -> seq<Byte>,
    agree: (seq<Byte>, seq<Byte>) -> seq<Byte>, // private key, other side's public key
    derive: (seq<Byte>, seq<Byte>, seq<Byte>, seq<Byte>, seq<Byte>) -> seq<Byte>,
    seal: (seq<Byte>, seq<Byte>) -> seq<Byte>,
    unseal: (seq<Byte>, seq<Byte>) -> Option<seq<Byte>>)

  /** What the standards promise of the primitives, for one pair of key pairs. */
  ghost predicate Sound(p: Primitives, receiver: seq<Byte>, sender: seq<Byte>) {
    && p.validScalar(receiver) && p.validPoint(p.publicOf(sender))
    && |p.publicOf(receiver)| == PUBLIC_KEY_LENGTH && |p.publicOf(sender)| == PUBLIC_KEY_LENGTH
    && p.agree(receiver, p.publicOf(sender)) == p.agree(sender, p.publicOf(receiver))
    && forall k, plain :: |p.seal(k, plain)| == |plain| + TAG_LENGTH && p.unseal(k, p.seal(k, plain)) == Some(plain)
  }

  datatype Refusal = BadKeyMaterial | Truncated | BadHeader | BadRecordSize | BadSenderKey | KeyMismatch
                   | BadTag | NoDelimiter | BadDelimiter

  // ----- padding -----

  function Zeros(n: nat): (s: seq<Byte>)
    ensures |s| == n && forall k :: 0 <= k < n ==> s[k] == 0
  {
    seq(n, _ => 0)
  }

  /** One past the last byte that is not zero. */
  function TrimmedLength(s: seq<Byte>): (n: nat)
    ensures n <= |s| && (n > 0 ==> s[n - 1] != 0) && forall k :: n <= k < |s| ==> s[k] == 0
  {
    if s == [] then 0 else if s[|s| - 1] != 0 then |s| else TrimmedLength(s[..|s| - 1])
  }

  function Unpad(padded: seq<Byte>): Result<seq<Byte>, Refusal> {
    var n := TrimmedLength(padded);
    if n == 0 then Err(NoDelimiter)
    else if padded[n - 1] != 2 then Err(BadDelimiter)
    else Ok(padded[..n - 1])
  }

  /** Exactly the records that end in a delimiter of 2 and zeros are accepted, with what stands before it. */
  lemma UnpadIsExact(padded: seq<Byte>, plain: seq<Byte>)
    ensures Unpad(padded) == Ok(plain) <==> exists zeros: nat :: padded == plain + [2] + Zeros(zeros)
  {
    var n := TrimmedLength(padded);
    if Unpad(padded) == Ok(plain) {
      assert padded == plain + [2] + Zeros(|padded| - n);
    }
    if zeros: nat :| padded == plain + [2] + Zeros(zeros) {
      TrimIsUnique(padded, |plain| + 1);
      assert padded[..|plain|] == plain;
    }
  }

  lemma TrimIsUnique(s: seq<Byte>, n: nat)
    requires 0 < n <= |s| && s[n - 1] != 0 && forall k :: n <= k < |s| ==> s[k] == 0
    ensures TrimmedLength(s) == n
  {
  }

  /** So no record can be read in two ways. */
  lemma PaddingIsUnambiguous(plain: seq<Byte>, zeros: nat, other: seq<Byte>, otherZeros: nat)
    requires plain + [2] + Zeros(zeros) == other + [2] + Zeros(otherZeros)
    ensures plain == other && zeros == otherZeros
  {
    UnpadIsExact(plain + [2] + Zeros(zeros), plain);
    UnpadIsExact(plain + [2] + Zeros(zeros), other);
  }

  // ----- the header -----

  function BigEndian(b: seq<Byte>): nat
    requires |b| == 4
  {
    256 * (256 * (256 * (b[0] as nat) + b[1] as nat) + b[2] as nat) + b[3] as nat
  }

  function ToBigEndian(n: nat): (b: seq<Byte>)
    requires n < 0x1_0000_0000
    ensures |b| == 4
  {
    [n / 256 / 256 / 256, n / 256 / 256 % 256, n / 256 % 256, n % 256]
  }

  /** The highest byte stands first. */
  lemma BigEndianIsExact(b: seq<Byte>)
    requires |b| == 4
    ensures BigEndian(b) == 16777216 * b[0] as int + 65536 * b[1] as int + 256 * b[2] as int + b[3] as int
  {
  }

  lemma BigEndianReadsBack(n: nat)
    requires n < 0x1_0000_0000
    ensures BigEndian(ToBigEndian(n)) == n
  {
    var q := n / 256;
    assert n == 256 * q + n % 256;
    var r := q / 256;
    assert q == 256 * r + q % 256;
  }

  datatype Parts = Parts(salt: seq<Byte>, recordSize: nat, senderKey: seq<Byte>, ciphertext: seq<Byte>)

  /** The checks on the header, in the order the source makes them. */
  function ParseBody(body: seq<Byte>): (r: Result<Parts, Refusal>)
  {
    if |body| < PREFIX_LENGTH then Err(Truncated)
    else
      var recordSize, keyLength := BigEndian(body[16..20]), body[20];
      if recordSize < 18 || keyLength != PUBLIC_KEY_LENGTH then Err(BadHeader)
      else if |body| < HEADER_LENGTH then Err(Truncated)
      else
        var ciphertext := body[HEADER_LENGTH..];
        if |ciphertext| <= TAG_LENGTH || |ciphertext| >= recordSize then Err(BadRecordSize)
        else Ok(Parts(body[..16], recordSize, body[PREFIX_LENGTH..HEADER_LENGTH], ciphertext))
  }

  /** The header of section 2.1 of RFC 8188 in front of a ciphertext. */
  function PrintBody(p: Parts): seq<Byte>
    requires p.recordSize < 0x1_0000_0000
  {
    p.salt + ToBigEndian(p.recordSize) + [PUBLIC_KEY_LENGTH] + p.senderKey + p.ciphertext
  }

  ghost predicate PartsOk(p: Parts) {
    && |p.salt| == SALT_LENGTH && |p.senderKey| == PUBLIC_KEY_LENGTH
    && 18 <= p.recordSize < 0x1_0000_0000 && TAG_LENGTH < |p.ciphertext| < p.recordSize
  }

  lemma ParseInvertsPrint(p: Parts)
    requires PartsOk(p)
    ensures ParseBody(PrintBody(p)) == Ok(p)
  {
    var body := PrintBody(p);
    BigEndianReadsBack(p.recordSize);
    assert body[16..20] == ToBigEndian(p.recordSize);
    assert body[..16] == p.salt;
    assert body[PREFIX_LENGTH..HEADER_LENGTH] == p.senderKey;
    assert body[HEADER_LENGTH..] == p.ciphertext;
  }

  lemma BigEndianIsInjective(b: seq<Byte>)
    requires |b| == 4
    ensures BigEndian(b) < 0x1_0000_0000 && ToBigEndian(BigEndian(b)) == b
  {
    var n := BigEndian(b);
    var q := 256 * (256 * (b[0] as nat) + b[1] as nat) + b[2] as nat;
    assert n / 256 == q && n % 256 == b[3];
    var r := 256 * (b[0] as nat) + b[1] as nat;
    assert q / 256 == r && q % 256 == b[2];
    assert r / 256 == b[0] && r % 256 == b[1];
  }

  /** What is accepted is exactly what the standard's writer could have printed. */
  lemma ParseIsExact(body: seq<Byte>, p: Parts)
    ensures ParseBody(body) == Ok(p) <==> PartsOk(p) && body == PrintBody(p)
  {
    if PartsOk(p) && body == PrintBody(p) {
      ParseInvertsPrint(p);
    }
    if ParseBody(body) == Ok(p) {
      BigEndianIsInjective(body[16..20]);
      assert body == body[..16] + body[16..20] + [body[20]] + body[21..86] + body[86..];
    }
  }

  // ----- decryption -----

  function DecryptWebPush(
      p: Primitives, privateKey: seq<Byte>, publicKey: seq<Byte>, authSecret: seq<Byte>, body: seq<Byte>)
    : Result<seq<Byte>, Refusal>
  {
    if |privateKey| != 32 || |publicKey| != PUBLIC_KEY_LENGTH || |authSecret| != 16 then Err(BadKeyMaterial)
    else
      match ParseBody(body)
      case Err(e) => Err(e)
      case Ok(parts) =>
        if !p.validPoint(parts.senderKey) then Err(BadSenderKey)
        else if !p.validScalar(privateKey) then Err(BadKeyMaterial)
        else if p.publicOf(privateKey) != publicKey then Err(KeyMismatch)
        else
          var key := p.derive(
            p.agree(privateKey, parts.senderKey), publicKey, parts.senderKey, authSecret, parts.salt);
          match p.unseal(key, parts.ciphertext)
          case None => Err(BadTag)
          case Some(padded) => Unpad(padded)
  }

  /** The single-record body that section 4 of RFC 8291 has the application server send. */
  function Build(
      p: Primitives, senderKey: seq<Byte>, receiverPublic: seq<Byte>, authSecret: seq<Byte>,
      salt: seq<Byte>, recordSize: nat, plain: seq<Byte>, zeros: nat): seq<Byte>
    requires recordSize < 0x1_0000_0000
  {
    var public := p.publicOf(senderKey);
    var key := p.derive(p.agree(senderKey, receiverPublic), receiverPublic, public, authSecret, salt);
    PrintBody(Parts(salt, recordSize, public, p.seal(key, plain + [2] + Zeros(zeros))))
  }

  /** Any plaintext and any padding that leave room for the tag below the record size come back. */
  lemma DecryptInvertsEncrypt(
      p: Primitives, receiver: seq<Byte>, sender: seq<Byte>, authSecret: seq<Byte>, salt: seq<Byte>,
      recordSize: nat, plain: seq<Byte>, zeros: nat)
    requires Sound(p, receiver, sender) && |receiver| == 32 && |authSecret| == 16 && |salt| == SALT_LENGTH
    requires 18 <= recordSize < 0x1_0000_0000 && |plain| + 1 + zeros + TAG_LENGTH < recordSize
    ensures DecryptWebPush(p, receiver, p.publicOf(receiver), authSecret,
                           Build(p, sender, p.publicOf(receiver), authSecret, salt, recordSize, plain, zeros))
         == Ok(plain)
  {
    var public := p.publicOf(sender);
    var key := p.derive(p.agree(sender, p.publicOf(receiver)), p.publicOf(receiver), public, authSecret, salt);
    var padded := plain + [2] + Zeros(zeros);
    ParseInvertsPrint(Parts(salt, recordSize, public, p.seal(key, padded)));
    UnpadIsExact(padded, plain);
  }

  /** A record that does not stay below its record size, as section 4 of RFC 8291 demands, is refused. */
  lemma FullRecordIsRefused(
      p: Primitives, receiver: seq<Byte>, sender: seq<Byte>, authSecret: seq<Byte>, salt: seq<Byte>,
      recordSize: nat, plain: seq<Byte>, zeros: nat)
    requires Sound(p, receiver, sender) && |receiver| == 32 && |authSecret| == 16 && |salt| == SALT_LENGTH
    requires 18 <= recordSize < 0x1_0000_0000 && |plain| + 1 + zeros + TAG_LENGTH >= recordSize
    ensures DecryptWebPush(p, receiver, p.publicOf(receiver), authSecret,
                           Build(p, sender, p.publicOf(receiver), authSecret, salt, recordSize, plain, zeros))
         == Err(BadRecordSize)
  {
    var public := p.publicOf(sender);
    var key := p.derive(p.agree(sender, p.publicOf(receiver)), p.publicOf(receiver), public, authSecret, salt);
    var parts := Parts(salt, recordSize, public, p.seal(key, plain + [2] + Zeros(zeros)));
    var body := PrintBody(parts);
    BigEndianReadsBack(recordSize);
    assert body[16..20] == ToBigEndian(recordSize);
    assert body[HEADER_LENGTH..] == parts.ciphertext;
  }

  /** Nothing is accepted but a well-formed body whose ciphertext opens to the plaintext and its padding. */
  lemma AcceptanceIsExact(
      p: Primitives, privateKey: seq<Byte>, publicKey: seq<Byte>, authSecret: seq<Byte>, body: seq<Byte>,
      plain: seq<Byte>, parts: Parts)
    requires ParseBody(body) == Ok(parts)
    ensures DecryptWebPush(p, privateKey, publicKey, authSecret, body) == Ok(plain)
       <==> && |privateKey| == 32 && |publicKey| == PUBLIC_KEY_LENGTH && |authSecret| == 16
            && p.validPoint(parts.senderKey) && p.validScalar(privateKey) && p.publicOf(privateKey) == publicKey
            && exists zeros: nat ::
                 p.unseal(p.derive(p.agree(privateKey, parts.senderKey), publicKey, parts.senderKey, authSecret,
                                   parts.salt), parts.ciphertext)
                 == Some(plain + [2] + Zeros(zeros))
  {
    var clear :=
      p.unseal(p.derive(p.agree(privateKey, parts.senderKey), publicKey, parts.senderKey, authSecret, parts.salt),
               parts.ciphertext);
    if clear.Some? {
      UnpadIsExact(clear.value, plain);
    }
  }
}
