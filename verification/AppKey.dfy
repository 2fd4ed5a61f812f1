/** The GitHub App private key: a bounds-checked DER reader for PKCS#1 and PKCS#8 keys. */
module AppKey {
  import opened Common
  import opened Bytes

  datatype KeyError = Truncated | NotASequence | NoPrivateKeyOctets | UnexpectedField
                    | MissingPrimitives | InvalidPrimitives | EncryptedKey | BadPem | BadHeader

  datatype Tlv = Tlv(tag: byte, value: seq<byte>, next: nat)

  datatype RsaKey = RsaKey(n: nat, e: nat, d: nat)

  /** What the PEM text starts with. */
  datatype PemHeader = EncryptedPrivateKey | PrivateKey | RsaPrivateKey | OtherHeader

  const SEQUENCE: byte := 0x30
  const INTEGER: byte := 0x02
  const OCTET_STRING: byte := 0x04

  /** One tag-length-value element. Every success moves strictly forward and stays inside the data. */
  function DerRead(data: seq<byte>, offset: nat): (r: Result<Tlv, KeyError>)
    ensures r.Ok? ==> offset + 2 <= r.value.next <= |data|
    ensures r.Ok? ==> r.value.tag == data[offset]
    ensures r.Ok? ==> |r.value.value| <= r.value.next - offset - 2
    ensures r.Ok? ==> r.value.value == data[r.value.next - |r.value.value|..r.value.next]
    ensures offset + 2 > |data| ==> r == Err(Truncated)
  {
    if offset + 2 > |data| then Err(Truncated)
    else
      var first := data[offset + 1] as nat;
      var count := if first < 0x80 then 0 else first - 0x80;
      var start := offset + 2 + count;
      if start > |data| then Err(Truncated)
      else
        var length := if first < 0x80 then first else FromBytes(data[offset + 2..start]);
        if start + length > |data| then Err(Truncated)
        else Ok(Tlv(data[offset], data[start..start + length], start + length))
  }

  /** The first OCTET STRING among the elements of a PKCS#8 body. */
  function FindOctets(body: seq<byte>, offset: nat): Result<seq<byte>, KeyError>
    decreases |body| - offset
  {
    if offset >= |body| then Err(NoPrivateKeyOctets)
    else match DerRead(body, offset)
      case Err(e) => Err(e)
      case Ok(t) => if t.tag == OCTET_STRING then Ok(t.value) else FindOctets(body, t.next)
  }

  function Pkcs8Octets(der: seq<byte>): Result<seq<byte>, KeyError> {
    match DerRead(der, 0)
    case Err(e) => Err(e)
    case Ok(t) => if t.tag != SEQUENCE then Err(NotASequence) else FindOctets(t.value, 0)
  }

  method ReadPkcs8(der: seq<byte>) returns (r: Result<seq<byte>, KeyError>)
    ensures r == Pkcs8Octets(der)
  {
    var outer := DerRead(der, 0);
    if outer.Err? { return Err(outer.error); }
    if outer.value.tag != SEQUENCE { return Err(NotASequence); }
    var body, offset := outer.value.value, 0;
    while offset < |body|
      invariant FindOctets(body, offset) == FindOctets(body, 0)
    {
      var child := DerRead(body, offset);
      if child.Err? { return Err(child.error); }
      if child.value.tag == OCTET_STRING { return Ok(child.value.value); }
      offset := child.value.next;
    }
    return Err(NoPrivateKeyOctets);
  }

  /** Up to four INTEGERs from `offset` on, after those already in `found`. */
  function Integers(body: seq<byte>, offset: nat, found: seq<nat>): Result<seq<nat>, KeyError>
    decreases |body| - offset
  {
    if offset >= |body| || |found| >= 4 then Ok(found)
    else match DerRead(body, offset)
      case Err(e) => Err(e)
      case Ok(t) =>
        if t.tag != INTEGER then Err(UnexpectedField)
        else Integers(body, t.next, found + [FromBytes(t.value)])
  }

  function KeyOf(integers: seq<nat>): Result<RsaKey, KeyError> {
    if |integers| < 4 then Err(MissingPrimitives)
    else if integers[0] != 0 || integers[1] == 0 || integers[2] == 0 || integers[3] == 0 then Err(InvalidPrimitives)
    else Ok(RsaKey(integers[1], integers[2], integers[3]))
  }

  function Pkcs1Key(der: seq<byte>): Result<RsaKey, KeyError> {
    match DerRead(der, 0)
    case Err(e) => Err(e)
    case Ok(t) =>
      if t.tag != SEQUENCE then Err(NotASequence)
      else match Integers(t.value, 0, [])
        case Err(e) => Err(e)
        case Ok(integers) => KeyOf(integers)
  }

  method ReadPkcs1(der: seq<byte>) returns (r: Result<RsaKey, KeyError>)
    ensures r == Pkcs1Key(der)
  {
    var outer := DerRead(der, 0);
    if outer.Err? { return Err(outer.error); }
    if outer.value.tag != SEQUENCE { return Err(NotASequence); }
    var body, offset := outer.value.value, 0;
    var integers: seq<nat> := [];
    while offset < |body| && |integers| < 4
      invariant Integers(body, offset, integers) == Integers(body, 0, [])
      decreases |body| - offset
    {
      var child := DerRead(body, offset);
      if child.Err? { return Err(child.error); }
      if child.value.tag != INTEGER { return Err(UnexpectedField); }
      integers := integers + [FromBytes(child.value.value)];
      offset := child.value.next;
    }
    return KeyOf(integers);
  }

  /** `parse_rsa_private_key`, from the PEM header and the decoded base64 body (None when it is not base64). */
  function ParseKey(header: PemHeader, body: Option<seq<byte>>): Result<RsaKey, KeyError> {
    if header.EncryptedPrivateKey? then Err(EncryptedKey)
    else if body.None? then Err(BadPem)
    else match header
      case PrivateKey =>
        (match Pkcs8Octets(body.value)
         case Err(e) => Err(e)
         case Ok(der) => Pkcs1Key(der))
      case RsaPrivateKey => Pkcs1Key(body.value)
      case _ => Err(BadHeader)
  }

  // ---- The encoder of ITU-T X.690, the reader's partner ----

  /** Length octets, section 8.1.3 of ITU-T X.690: short form below 128, else the minimal long form. */
  function LengthOctets(n: nat): seq<byte>
    requires Width(n) <= 126
  {
    if n < 128 then [n as byte] else [(0x80 + Width(n)) as byte] + ToBytes(n, Width(n))
  }

  /** Contents whose length the definite form of X.690 can write. */
  predicate Encodable(contents: seq<byte>) { Width(|contents|) <= 126 }

  function Element(tag: byte, contents: seq<byte>): seq<byte>
    requires Encodable(contents)
  {
    [tag] + LengthOctets(|contents|) + contents
  }

  /** Contents octets of a non-negative INTEGER: minimal, with a leading zero where the top bit is set. */
  function IntegerOctets(x: nat): seq<byte> {
    var digits := ToBytes(x, Width(x));
    if |digits| > 0 && digits[0] as int >= 0x80 then [0] + digits else digits
  }

  predicate EncodableInteger(x: nat) { Encodable(IntegerOctets(x)) }

  /** The body of an RSAPrivateKey, appendix A.1.2 of RFC 8017; `rest` holds the CRT fields after d. */
  function Pkcs1Body(version: nat, key: RsaKey, rest: seq<byte>): seq<byte>
    requires EncodableInteger(version) && EncodableInteger(key.n) && EncodableInteger(key.e) && EncodableInteger(key.d)
  {
    Element(INTEGER, IntegerOctets(version)) + (Element(INTEGER, IntegerOctets(key.n)) +
    (Element(INTEGER, IntegerOctets(key.e)) + (Element(INTEGER, IntegerOctets(key.d)) + rest)))
  }

  /** The body of a PrivateKeyInfo, section 5 of RFC 5208: version, algorithm identifier, key, attributes. */
  function Pkcs8Body(algorithm: seq<byte>, key: seq<byte>, attributes: seq<byte>): seq<byte>
    requires EncodableInteger(0) && Encodable(algorithm) && Encodable(key)
  {
    Element(INTEGER, IntegerOctets(0)) + (Element(SEQUENCE, algorithm) + (Element(OCTET_STRING, key) + attributes))
  }

  /** `piece` stands in `data` at `offset`. */
  predicate At(data: seq<byte>, offset: nat, piece: seq<byte>) {
    offset + |piece| <= |data| && data[offset..offset + |piece|] == piece
  }

  lemma AtHead(piece: seq<byte>, after: seq<byte>)
    ensures At(piece + after, 0, piece)
  {}

  lemma AtTail(before: seq<byte>, data: seq<byte>, offset: nat, piece: seq<byte>)
    requires At(data, offset, piece)
    ensures At(before + data, |before| + offset, piece)
  {
    var all := before + data;
    var o := |before| + offset;
    forall i | 0 <= i < |piece| ensures all[o..o + |piece|][i] == piece[i] {
      assert all[o + i] == data[offset + i] == data[offset..offset + |piece|][i];
    }
  }

  lemma AtPart(data: seq<byte>, offset: nat, piece: seq<byte>, i: nat, j: nat)
    requires At(data, offset, piece) && i <= j <= |piece|
    ensures data[offset + i..offset + j] == piece[i..j]
  {
    forall t | i <= t < j ensures data[offset + t] == piece[t] {
      assert data[offset..offset + |piece|][t] == piece[t];
    }
  }

  /** What the length octets say, read the way `DerRead` reads them. */
  lemma {:induction false} LengthReadsBack(n: nat)
    requires Width(n) <= 126
    ensures var octets := LengthOctets(n);
            if n < 128 then octets == [n as byte]
            else |octets| == 1 + Width(n) && octets[0] as int == 0x80 + Width(n) && FromBytes(octets[1..]) == n
  {
    if n >= 128 {
      FromToBytes(n, Width(n));
      assert LengthOctets(n)[1..] == ToBytes(n, Width(n));
    }
  }

  lemma ReadShort(data: seq<byte>, offset: nat, tag: byte, contents: seq<byte>)
    requires |contents| < 128 && At(data, offset, [tag] + [|contents| as byte] + contents)
    ensures DerRead(data, offset) == Ok(Tlv(tag, contents, offset + 2 + |contents|))
  {
    var element := [tag] + [|contents| as byte] + contents;
    AtPart(data, offset, element, 0, 2);
    assert data[offset] == data[offset..offset + 2][0] == tag;
    assert data[offset + 1] == data[offset..offset + 2][1] == |contents| as byte;
    AtPart(data, offset, element, 2, |element|);
    assert element[2..] == contents;
  }

  lemma ReadLong(data: seq<byte>, offset: nat, tag: byte, octets: seq<byte>, contents: seq<byte>)
    requires |octets| >= 1 && octets[0] as int == 0x80 + |octets| - 1 && FromBytes(octets[1..]) == |contents|
    requires At(data, offset, [tag] + octets + contents)
    ensures DerRead(data, offset) == Ok(Tlv(tag, contents, offset + 1 + |octets| + |contents|))
  {
    var element := [tag] + octets + contents;
    AtPart(data, offset, element, 0, 2);
    assert data[offset] == data[offset..offset + 2][0] == tag;
    assert data[offset + 1] == data[offset..offset + 2][1] == octets[0];
    AtPart(data, offset, element, 2, 1 + |octets|);
    assert element[2..1 + |octets|] == octets[1..];
    AtPart(data, offset, element, 1 + |octets|, |element|);
    assert element[1 + |octets|..] == contents;
  }

  lemma {:induction false} ReadElement(data: seq<byte>, offset: nat, tag: byte, contents: seq<byte>)
    requires Encodable(contents) && At(data, offset, Element(tag, contents))
    ensures DerRead(data, offset) == Ok(Tlv(tag, contents, offset + |Element(tag, contents)|))
  {
    LengthReadsBack(|contents|);
    if |contents| < 128 {
      ReadShort(data, offset, tag, contents);
    } else {
      ReadLong(data, offset, tag, LengthOctets(|contents|), contents);
    }
  }

  lemma {:induction false} IntegerReadsBack(x: nat)
    ensures FromBytes(IntegerOctets(x)) == x
  {
    var digits := ToBytes(x, Width(x));
    FromToBytes(x, Width(x));
    FromBytesConcat([0], digits);
    assert [0 as byte][..0] == [];
    assert FromBytes([0]) == 0;
  }

  /** `piece` is an element holding the integer `x`, wherever it stands. */
  ghost predicate Holds(piece: seq<byte>, x: nat) {
    forall data: seq<byte>, offset: nat | At(data, offset, piece) ::
      var r := DerRead(data, offset);
      r.Ok? && r.value.tag == INTEGER && FromBytes(r.value.value) == x && r.value.next == offset + |piece|
  }

  lemma IntegerHolds(x: nat)
    requires EncodableInteger(x)
    ensures Holds(Element(INTEGER, IntegerOctets(x)), x)
  {
    var piece := Element(INTEGER, IntegerOctets(x));
    IntegerReadsBack(x);
    forall data: seq<byte>, offset: nat | At(data, offset, piece)
      ensures DerRead(data, offset) == Ok(Tlv(INTEGER, IntegerOctets(x), offset + |piece|))
    {
      ReadElement(data, offset, INTEGER, IntegerOctets(x));
    }
  }

  lemma FourAt(v: seq<byte>, n: seq<byte>, e: seq<byte>, d: seq<byte>, rest: seq<byte>)
    ensures var body := v + (n + (e + (d + rest)));
            At(body, 0, v) && At(body, |v|, n) && At(body, |v| + |n|, e) && At(body, |v| + |n| + |e|, d)
  {
    PiecesAt(v, n, e, d + rest);
    PiecesAt(n, e, d, rest);
    AtTail(v, n + (e + (d + rest)), |n| + |e|, d);
  }

  lemma FourIntegers(body: seq<byte>, v: seq<byte>, n: seq<byte>, e: seq<byte>, d: seq<byte>, version: nat, key: RsaKey)
    requires Holds(v, version) && Holds(n, key.n) && Holds(e, key.e) && Holds(d, key.d)
    requires At(body, 0, v) && At(body, |v|, n) && At(body, |v| + |n|, e) && At(body, |v| + |n| + |e|, d)
    ensures Integers(body, 0, []) == Ok([] + [version] + [key.n] + [key.e] + [key.d])
  {
    hide *;
    var middle := |v| + |n|;
    TwoIntegers(body, 0, v, n, [], version, key.n);
    TwoIntegers(body, middle, e, d, [] + [version] + [key.n], key.e, key.d);
    Enough(body, middle + |e| + |d|, [] + [version] + [key.n] + [key.e] + [key.d]);
  }

  lemma Enough(body: seq<byte>, offset: nat, found: seq<nat>)
    requires |found| == 4
    ensures Integers(body, offset, found) == Ok(found)
  {}

  lemma TwoIntegers(body: seq<byte>, offset: nat, p: seq<byte>, q: seq<byte>, found: seq<nat>, x: nat, y: nat)
    requires |found| <= 2 && Holds(p, x) && Holds(q, y) && At(body, offset, p) && At(body, offset + |p|, q)
    ensures Integers(body, offset, found) == Integers(body, offset + |p| + |q|, found + [x] + [y])
  {
    hide *;
    Next(body, offset, p, found, x);
    Next(body, offset + |p|, q, found + [x], y);
  }

  /** One iteration of the reader's loop. */
  lemma Next(body: seq<byte>, offset: nat, piece: seq<byte>, found: seq<nat>, x: nat)
    requires |found| < 4 && Holds(piece, x) && At(body, offset, piece)
    ensures Integers(body, offset, found) == Integers(body, offset + |piece|, found + [x])
  {
    var r := DerRead(body, offset);
    assert r.Ok? && r.value.tag == INTEGER && FromBytes(r.value.value) == x && r.value.next == offset + |piece|;
  }

  /** Where each of the pieces of a concatenation stands. */
  lemma PiecesAt(a: seq<byte>, b: seq<byte>, c: seq<byte>, rest: seq<byte>)
    ensures var data := a + (b + (c + rest));
            At(data, 0, a) && At(data, |a|, b) && At(data, |a| + |b|, c)
  {
    AtHead(a, b + (c + rest));
    AtHead(b, c + rest);
    AtTail(a, b + (c + rest), 0, b);
    AtHead(c, rest);
    AtTail(b, c + rest, 0, c);
    AtTail(a, b + (c + rest), |b|, c);
  }

  lemma {:induction false} BodyReadsBack(version: nat, key: RsaKey, rest: seq<byte>)
    requires EncodableInteger(version) && EncodableInteger(key.n) && EncodableInteger(key.e) && EncodableInteger(key.d)
    ensures Integers(Pkcs1Body(version, key, rest), 0, []) == Ok([version, key.n, key.e, key.d])
  {
    hide Element, IntegerOctets, Integers, At, Holds, DerRead;
    IntegerHolds(version);
    IntegerHolds(key.n);
    IntegerHolds(key.e);
    IntegerHolds(key.d);
    var v, n := Element(INTEGER, IntegerOctets(version)), Element(INTEGER, IntegerOctets(key.n));
    var e, d := Element(INTEGER, IntegerOctets(key.e)), Element(INTEGER, IntegerOctets(key.d));
    FourAt(v, n, e, d, rest);
    FourIntegers(Pkcs1Body(version, key, rest), v, n, e, d, version, key);
    assert [] + [version] + [key.n] + [key.e] + [key.d] == [version, key.n, key.e, key.d];
  }

  /** The primitives the reader accepts: version zero and three positive numbers. */
  predicate Accepted(version: nat, key: RsaKey) { version == 0 && key.n > 0 && key.e > 0 && key.d > 0 }

  /**
   * An encoded PKCS#1 key reads back exactly, whatever CRT fields and trailing bytes follow it,
   * and is refused exactly when its version or one of its primitives is unacceptable.
   */
  lemma {:induction false} BareKeyRoundTrip(version: nat, key: RsaKey, rest: seq<byte>, trailing: seq<byte>)
    requires EncodableInteger(version) && EncodableInteger(key.n) && EncodableInteger(key.e) && EncodableInteger(key.d)
    requires Encodable(Pkcs1Body(version, key, rest))
    ensures ParseKey(RsaPrivateKey, Some(Element(SEQUENCE, Pkcs1Body(version, key, rest)) + trailing))
            == if Accepted(version, key) then Ok(key) else Err(InvalidPrimitives)
  {
    hide DerRead, Element, At, Integers, Pkcs1Body, EncodableInteger, Encodable;
    var body := Pkcs1Body(version, key, rest);
    var outer := Element(SEQUENCE, body);
    AtHead(outer, trailing);
    ReadElement(outer + trailing, 0, SEQUENCE, body);
    BodyReadsBack(version, key, rest);
  }

  /** A PKCS#8 wrapper yields exactly the octets it carries, for any algorithm identifier and attributes. */
  lemma {:induction false} WrapperReadsBack(algorithm: seq<byte>, key: seq<byte>, attributes: seq<byte>,
                                            trailing: seq<byte>)
    requires EncodableInteger(0) && Encodable(algorithm) && Encodable(key)
    requires Encodable(Pkcs8Body(algorithm, key, attributes))
    ensures Pkcs8Octets(Element(SEQUENCE, Pkcs8Body(algorithm, key, attributes)) + trailing) == Ok(key)
  {
    var body := Pkcs8Body(algorithm, key, attributes);
    var outer := Element(SEQUENCE, body);
    AtHead(outer, trailing);
    ReadElement(outer + trailing, 0, SEQUENCE, body);
    ThirdElementFound(IntegerOctets(0), algorithm, key, attributes);
  }

  /** An element of another type is passed over. */
  lemma ElementSkipped(body: seq<byte>, offset: nat, tag: byte, contents: seq<byte>)
    requires tag != OCTET_STRING && Encodable(contents) && At(body, offset, Element(tag, contents))
    ensures FindOctets(body, offset) == FindOctets(body, offset + |Element(tag, contents)|)
  {
    ReadElement(body, offset, tag, contents);
    hide DerRead, Element;
  }

  lemma ThirdElementFound(version: seq<byte>, algorithm: seq<byte>, key: seq<byte>, attributes: seq<byte>)
    requires Encodable(version) && Encodable(algorithm) && Encodable(key)
    ensures FindOctets(Element(INTEGER, version)
                       + (Element(SEQUENCE, algorithm) + (Element(OCTET_STRING, key) + attributes)), 0)
            == Ok(key)
  {
    hide DerRead, Element, Encodable;
    var v, a, k := Element(INTEGER, version), Element(SEQUENCE, algorithm), Element(OCTET_STRING, key);
    var body := v + (a + (k + attributes));
    PiecesAt(v, a, k, attributes);
    ReadElement(body, |v| + |a|, OCTET_STRING, key);
    assert |v| + |a| < |body| by { ElementNonempty(OCTET_STRING, key); }
    ElementSkipped(body, 0, INTEGER, version);
    ElementSkipped(body, |v|, SEQUENCE, algorithm);
  }

  lemma ElementNonempty(tag: byte, contents: seq<byte>)
    requires Encodable(contents)
    ensures |Element(tag, contents)| >= 1
  {}

  /** The same through a PKCS#8 wrapper, with any algorithm identifier, attributes and trailing bytes. */
  lemma {:induction false} WrappedKeyRoundTrip(version: nat, key: RsaKey, rest: seq<byte>, algorithm: seq<byte>,
                                               attributes: seq<byte>, trailing: seq<byte>)
    requires EncodableInteger(version) && EncodableInteger(key.n) && EncodableInteger(key.e) && EncodableInteger(key.d)
    requires Encodable(Pkcs1Body(version, key, rest)) && Encodable(algorithm)
    requires Encodable(Element(SEQUENCE, Pkcs1Body(version, key, rest)))
    requires Encodable(Pkcs8Body(algorithm, Element(SEQUENCE, Pkcs1Body(version, key, rest)), attributes))
    ensures var inner := Element(SEQUENCE, Pkcs1Body(version, key, rest));
            ParseKey(PrivateKey, Some(Element(SEQUENCE, Pkcs8Body(algorithm, inner, attributes)) + trailing))
            == if Accepted(version, key) then Ok(key) else Err(InvalidPrimitives)
  {
    var inner := Element(SEQUENCE, Pkcs1Body(version, key, rest));
    WrapperReadsBack(algorithm, inner, attributes, trailing);
    BareKeyRoundTrip(version, key, rest, []);
    assert inner + [] == inner;
  }
}
