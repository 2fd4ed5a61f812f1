/** RS256 signing of the App token: EMSA-PKCS1-v1_5 encoding and the private-key power. */
module Rs256 {
  import opened Common
  import opened Bytes
  import opened AppKey
  import opened Rs256Decoding

  datatype SignError = KeyTooSmall

  /** DER prefix of a SHA-256 DigestInfo, note 1 of section 9.2 of RFC 8017. */
  const SHA256_DIGEST_INFO_PREFIX: seq<byte> :=
    [0x30, 0x31, 0x30, 0x0d, 0x06, 0x09, 0x60, 0x86, 0x48, 0x01, 0x65, 0x03, 0x04, 0x02, 0x01, 0x05, 0x00, 0x04, 0x20]

  function Pow(b: nat, e: nat): nat {
    if e == 0 then 1 else b * Pow(b, e - 1)
  }

  function BitLength(n: nat): nat {
    if n == 0 then 0 else 1 + BitLength(n / 2)
  }

  function ModulusBytes(key: RsaKey): nat { (BitLength(key.n) + 7) / 8 }

  function DigestInfo(digest: seq<byte>): seq<byte> { SHA256_DIGEST_INFO_PREFIX + digest }

  function Repeat(b: byte, count: nat): seq<byte> { seq(count, _ => b) }

  /** The encoded message, section 9.2 of RFC 8017. */
  function Encoded(key: RsaKey, digest: seq<byte>): Result<seq<byte>, SignError> {
    var info := DigestInfo(digest);
    var padding := ModulusBytes(key) - |info| - 3;
    if padding < 8 then Err(KeyTooSmall)
    else Ok([0x00, 0x01] + Repeat(0xff, padding) + [0x00] + info)
  }

  /** The representative the private key is applied to; its bytes fit in the modulus by `SignatureFits`. */
  function SignatureValue(key: RsaKey, em: seq<byte>): nat
    requires key.n > 0
  {
    Pow(FromBytes(em), key.d) % key.n
  }

  /** The key pair undoes itself on every message below the modulus. */
  ghost predicate Matching(key: RsaKey) {
    forall x: nat | x < key.n :: Pow(x, key.d * key.e) % key.n == x
  }

  /**
   * Signing is refused exactly for moduli below 256^61. A signature has as many octets as the modulus and is below it;
   * under a matching key its public-key power, in as many octets, decodes to the digest that was signed.
   */
  method Sign(key: RsaKey, digest: seq<byte>) returns (r: Result<seq<byte>, SignError>)
    requires key.n > 0 && |digest| == 32
    ensures r.Ok? <==> Pow256(61) <= key.n
    ensures r.Ok? ==> |r.value| > 0 && Pow256(|r.value| - 1) <= key.n < Pow256(|r.value|)
    ensures r.Ok? ==> FromBytes(r.value) < key.n
    ensures r.Ok? && Matching(key) ==> Receives(key, r.value, digest)
  {
    hide Encoded, SignatureValue, BitLength, Receives, Pow, Pow256, FromBytes, ToBytes, Matching;
    KeySizeExactlyDecides(key, digest);
    var em := Encoded(key, digest);
    if em.Err? { return Err(em.error); }
    var signature := SignatureValue(key, em.value);
    ModulusBounds(key.n);
    SignatureVerifiesIff(key, digest);
    SignatureDecodes(key, digest);
    FromToBytes(signature, ModulusBytes(key));
    return Ok(ToBytes(signature, ModulusBytes(key)));
  }

  /** What the public key makes of the signature decodes to the digest. */
  ghost predicate Receives(key: RsaKey, signature: seq<byte>, digest: seq<byte>)
    requires key.n > 0
  {
    var m := Pow(FromBytes(signature), key.e) % key.n;
    m < Pow256(|signature|) && Decoded(ToBytes(m, |signature|)) == Some(digest)
  }

  // ---- Bounds ----

  /** `(bit_length + 7) // 8` is the exact byte length of a positive number. */
  lemma {:induction false} ModulusBounds(n: nat)
    requires n > 0
    ensures var k := (BitLength(n) + 7) / 8; k > 0 && Pow256(k - 1) <= n < Pow256(k)
  {
    if n < 256 {
      ByteBits(n);
    } else {
      var m := n / 256;
      ModulusBounds(m);
      EightBits(n);
    }
  }

  lemma ByteBits(n: nat)
    requires 0 < n < 256
    ensures 1 <= BitLength(n) <= 8
  {
    ShortBits(n, 8, 256);
  }

  lemma {:induction false} ShortBits(n: nat, bits: nat, bound: nat)
    requires n < bound && bound == Pow(2, bits)
    ensures BitLength(n) <= bits
  {
    if bits > 0 && n > 0 { ShortBits(n / 2, bits - 1, bound / 2); }
  }

  lemma EightBits(n: nat)
    requires n >= 256
    ensures BitLength(n) == 8 + BitLength(n / 256)
  {
    assert BitLength(n) == 1 + BitLength(n / 2) == 2 + BitLength(n / 2 / 2);
    assert n / 2 / 2 == n / 4;
    assert BitLength(n / 4) == 1 + BitLength(n / 4 / 2) == 2 + BitLength(n / 4 / 2 / 2);
    assert n / 4 / 2 / 2 == n / 16;
    assert BitLength(n / 16) == 1 + BitLength(n / 16 / 2) == 2 + BitLength(n / 16 / 2 / 2);
    assert n / 16 / 2 / 2 == n / 64;
    assert BitLength(n / 64) == 1 + BitLength(n / 64 / 2) == 2 + BitLength(n / 64 / 2 / 2);
    assert n / 64 / 2 / 2 == n / 256;
  }

  /** Signing is refused exactly for moduli below 256^61, whatever the digest. */
  lemma {:induction false} KeySizeExactlyDecides(key: RsaKey, digest: seq<byte>)
    requires key.n > 0 && |digest| == 32
    ensures Encoded(key, digest).Ok? <==> Pow256(61) <= key.n
  {
    hide Pow256, BitLength;
    ModulusBounds(key.n);
    var k := ModulusBytes(key);
    if k >= 62 { PowMonotone(61, k - 1); } else { PowMonotone(k, 61); }
  }

  /** The encoded message has the modulus's length and is below the modulus, so no information is lost. */
  lemma {:induction false} EncodedBelowModulus(key: RsaKey, digest: seq<byte>)
    requires key.n > 0 && |digest| == 32 && Encoded(key, digest).Ok?
    ensures var em := Encoded(key, digest).value; |em| == ModulusBytes(key) && FromBytes(em) < key.n
  {
    hide FromBytes, BitLength;
    var em := Encoded(key, digest).value;
    var k := ModulusBytes(key);
    ModulusBounds(key.n);
    var tail := em[2..];
    assert em == [0x00, 0x01] + tail;
    FromBytesConcat([0x00, 0x01], tail);
    FromBytesBound(tail);
    LeadingOne();
    assert Pow256(k - 1) == 256 * Pow256(k - 2);
  }

  lemma LeadingOne()
    ensures FromBytes([0x00, 0x01]) == 1
  {
    assert [0x00 as byte, 0x01][..1] == [0x00] && [0x00 as byte][..0] == [];
  }

  // ---- Modular powers ----

  lemma {:induction false} ModAddMultiple(a: nat, q: nat, m: nat)
    requires m > 0
    ensures (a + q * m) % m == a % m
  {
    if q > 0 {
      ModAddMultiple(a, q - 1, m);
      assert q * m == (q - 1) * m + m;
      ModAddOne(a + (q - 1) * m, m);
    }
  }

  lemma ModAddOne(b: nat, m: nat)
    requires m > 0
    ensures (b + m) % m == b % m
  {
    RemainderUnique(b + m, b / m + 1, b % m, m);
  }

  lemma RemainderUnique(x: nat, q: nat, r: nat, m: nat)
    requires m > 0 && x == q * m + r && r < m
    ensures x % m == r
  {
    var p := x / m;
    assert x == p * m + x % m;
    if p < q { MulStep(p, q, m); } else if q < p { MulStep(q, p, m); }
  }

  lemma MulStep(p: nat, q: nat, m: nat)
    requires p < q
    ensures p * m + m <= q * m
  {
    assert q * m == p * m + (q - p) * m;
    assert (q - p - 1) * m >= 0;
    assert (q - p) * m == (q - p - 1) * m + m;
  }

  lemma {:induction false} ModMul(x: nat, y: nat, m: nat)
    requires m > 0
    ensures ((x % m) * y) % m == (x * y) % m
  {
    var q, r := x / m, x % m;
    assert x * y == r * y + (q * y) * m by {
      assert x == q * m + r;
      assert (q * m + r) * y == q * m * y + r * y;
      assert q * m * y == (q * y) * m;
    }
    ModAddMultiple(r * y, q * y, m);
  }

  lemma {:induction false} ModPow(b: nat, e: nat, m: nat)
    requires m > 0
    ensures Pow(b % m, e) % m == Pow(b, e) % m
  {
    if e > 0 {
      var p, q := Pow(b % m, e - 1), Pow(b, e - 1);
      ModPow(b, e - 1, m);
      ModMul(b, p, m);
      ModMul(p, b, m);
      ModMul(q, b, m);
      assert b * p == p * b && b * q == q * b;
    }
  }

  lemma {:induction false} PowAdd(b: nat, i: nat, j: nat)
    ensures Pow(b, i + j) == Pow(b, i) * Pow(b, j)
  {
    if i > 0 {
      PowAdd(b, i - 1, j);
      assert b * (Pow(b, i - 1) * Pow(b, j)) == (b * Pow(b, i - 1)) * Pow(b, j);
    }
  }

  lemma {:induction false} PowMul(b: nat, i: nat, j: nat)
    ensures Pow(Pow(b, i), j) == Pow(b, i * j)
  {
    if j == 0 {
      assert i * j == 0;
    } else {
      PowMul(b, i, j - 1);
      PowAdd(b, i, i * (j - 1));
      assert i + i * (j - 1) == i * j;
    }
  }

  /**
   * Verification (section 8.2.2 of RFC 8017) recovers the encoded message from the signature exactly
   * when the key pair undoes itself on it; the signature is below the modulus and fits its bytes.
   */
  lemma {:induction false} SignatureVerifiesIff(key: RsaKey, digest: seq<byte>)
    requires key.n > 0 && |digest| == 32 && Encoded(key, digest).Ok?
    ensures var em := Encoded(key, digest).value;
            var m := FromBytes(em);
            var s := SignatureValue(key, em);
            && s < key.n
            && (Pow(s, key.e) % key.n == m <==> Pow(m, key.d * key.e) % key.n == m)
            && m < Pow256(ModulusBytes(key)) && ToBytes(m, ModulusBytes(key)) == em
  {
    var em := Encoded(key, digest).value;
    var m := FromBytes(em);
    EncodedBelowModulus(key, digest);
    ModulusBounds(key.n);
    ModPow(Pow(m, key.d), key.e, key.n);
    PowMul(m, key.d, key.e);
    BytesReadBack(em);
  }

  lemma {:induction false} BytesReadBack(data: seq<byte>)
    ensures FromBytes(data) < Pow256(|data|)
    ensures ToBytes(FromBytes(data), |data|) == data
  {
    FromBytesBound(data);
    if data != [] {
      var front := data[..|data| - 1];
      BytesReadBack(front);
      assert FromBytes(data) / 256 == FromBytes(front);
      assert data == front + [data[|data| - 1]];
    }
  }

  // ---- The signature decodes ----

  lemma {:induction false} PaddingStopsFrom(em: seq<byte>, i: nat, j: nat)
    requires i <= j < |em| && (forall k | i <= k < j :: em[k] == 0xff) && em[j] == 0x00
    ensures PaddingEnd(em, i) == j
    decreases j - i
  {
    if i < j { PaddingStopsFrom(em, i + 1, j); }
  }

  lemma PaddingStops(em: seq<byte>, j: nat)
    requires 2 <= j < |em| && (forall k | 2 <= k < j :: em[k] == 0xff) && em[j] == 0x00
    ensures PaddingEnd(em, 2) == j
  {
    PaddingStopsFrom(em, 2, j);
  }

  lemma ShortElement(data: seq<byte>, offset: nat, tag: byte, contents: seq<byte>)
    requires |contents| < 128 && At(data, offset, [tag, |contents| as byte] + contents)
    ensures DerRead(data, offset) == Ok(Tlv(tag, contents, offset + 2 + |contents|))
  {
    assert [tag] + [|contents| as byte] + contents == [tag, |contents| as byte] + contents;
    ReadShort(data, offset, tag, contents);
  }

  const SHA256_OID: seq<byte> := [0x60, 0x86, 0x48, 0x01, 0x65, 0x03, 0x04, 0x02, 0x01]

  const ALGORITHM: seq<byte> := [0x06, 0x09, 0x60, 0x86, 0x48, 0x01, 0x65, 0x03, 0x04, 0x02, 0x01, 0x05, 0x00]

  lemma AlgorithmIsSha256()
    ensures IsSha256(ALGORITHM)
  {
    assert ALGORITHM[0..11] == [0x06, 0x09] + SHA256_OID;
    ShortElement(ALGORITHM, 0, 0x06, SHA256_OID);
    assert ALGORITHM[11..13] == [0x05, 0x00] + [];
    ShortElement(ALGORITHM, 11, 0x05, []);
  }

  lemma DigestReadsBack(digest: seq<byte>)
    requires |digest| == 32
    ensures DigestOf(DigestInfo(digest)) == Some(digest)
  {
    var info := DigestInfo(digest);
    var body := [0x30, 0x0d] + ALGORITHM + ([0x04, 0x20] + digest);
    assert info == [0x30, 0x31] + body;
    assert info[0..|info|] == info;
    ShortElement(info, 0, 0x30, body);
    assert body[0..15] == [0x30, 0x0d] + ALGORITHM;
    ShortElement(body, 0, 0x30, ALGORITHM);
    assert body[15..49] == [0x04, 0x20] + digest;
    ShortElement(body, 15, 0x04, digest);
    AlgorithmIsSha256();
    hide DerRead, IsSha256, DigestInfo;
  }

  lemma EncodedDecodes(key: RsaKey, digest: seq<byte>)
    requires |digest| == 32 && Encoded(key, digest).Ok?
    ensures Decoded(Encoded(key, digest).value) == Some(digest)
  {
    EncodedUnpads(key, digest);
    DigestReadsBack(digest);
    hide Encoded, Unpadded, DigestOf, DigestInfo;
  }

  lemma EncodedUnpads(key: RsaKey, digest: seq<byte>)
    requires |digest| == 32 && Encoded(key, digest).Ok?
    ensures Unpadded(Encoded(key, digest).value) == Some(DigestInfo(digest))
  {
    hide BitLength, PaddingEnd;
    var em := Encoded(key, digest).value;
    var j := ModulusBytes(key) - 51 - 1;
    PaddingStops(em, j);
    assert em[j + 1..] == DigestInfo(digest);
  }

  lemma SignatureDecodes(key: RsaKey, digest: seq<byte>)
    requires key.n > 0 && |digest| == 32 && Encoded(key, digest).Ok?
    ensures var s := SignatureValue(key, Encoded(key, digest).value); var k := ModulusBytes(key);
            && s < Pow256(k) && (Matching(key) ==> Receives(key, ToBytes(s, k), digest))
  {
    hide Encoded, Decoded, BitLength, Pow, SignatureValue, Pow256, FromBytes, ToBytes;
    var em := Encoded(key, digest).value;
    var s, k := SignatureValue(key, em), ModulusBytes(key);
    SignatureVerifiesIff(key, digest);
    EncodedBelowModulus(key, digest);
    EncodedDecodes(key, digest);
    ModulusBounds(key.n);
    FromToBytes(s, k);
    if Matching(key) {
      assert Pow(FromBytes(em), key.d * key.e) % key.n == FromBytes(em);
      assert Pow(FromBytes(ToBytes(s, k)), key.e) % key.n == FromBytes(em);
    }
  }
}
