/** A receiver of RS256 signatures: section 9.2 of RFC 8017 read backwards. It shares no constant with the signer. */
module Rs256Decoding {
  import opened Common
  import opened Bytes
  import opened AppKey

  /** Where the padding of 0xff octets from `i` on stops. */
  function PaddingEnd(em: seq<byte>, i: nat): (j: nat)
    requires i <= |em|
    ensures i <= j <= |em| && (forall k | i <= k < j :: em[k] == 0xff) && (j < |em| ==> em[j] != 0xff)
    decreases |em| - i
  {
    if i < |em| && em[i] == 0xff then PaddingEnd(em, i + 1) else i
  }

  /** The DigestInfo between 0x00, 0x01, at least eight octets of padding and a 0x00, and nothing else. */
  function Unpadded(em: seq<byte>): Option<seq<byte>> {
    if |em| < 2 || em[0] != 0x00 || em[1] != 0x01 then None
    else
      var j := PaddingEnd(em, 2);
      if j < 10 || j == |em| || em[j] != 0x00 then None else Some(em[j + 1..])
  }

  /** An element of the given type and nothing after it. */
  function Whole(data: seq<byte>, offset: nat, tag: byte): Option<seq<byte>> {
    match DerRead(data, offset)
    case Err(_) => None
    case Ok(t) => if t.tag == tag && t.next == |data| then Some(t.value) else None
  }

  /** The algorithm identifier of SHA-256, 2.16.840.1.101.3.4.2.1, with NULL parameters. */
  predicate IsSha256(algorithm: seq<byte>) {
    match DerRead(algorithm, 0)
    case Err(_) => false
    case Ok(oid) =>
      && oid.tag == 0x06 && oid.value == [0x60, 0x86, 0x48, 0x01, 0x65, 0x03, 0x04, 0x02, 0x01]
      && Whole(algorithm, oid.next, 0x05) == Some([])
  }

  /** The digest in a DigestInfo: a sequence of the algorithm and an octet string of 32 octets. */
  function DigestOf(info: seq<byte>): Option<seq<byte>> {
    match Whole(info, 0, 0x30)
    case None => None
    case Some(body) =>
      match DerRead(body, 0)
      case Err(_) => None
      case Ok(algorithm) =>
        if algorithm.tag != 0x30 || !IsSha256(algorithm.value) then None
        else match Whole(body, algorithm.next, 0x04)
          case None => None
          case Some(digest) => if |digest| == 32 then Some(digest) else None
  }

  function Decoded(em: seq<byte>): Option<seq<byte>> {
    match Unpadded(em) case None => None case Some(info) => DigestOf(info)
  }
}
