/** What the key reader accepts, stated on the octets: elements, their order and their numbers, for any input. */
module AppKeyMeaning {
  import opened Common
  import opened Bytes
  import opened AppKey

  // ---- Numbers ----

  /** Octets are read as digits to the base 256, the first one the highest. */
  lemma DigitsRead(data: seq<byte>, last: byte)
    ensures FromBytes([]) == 0 && FromBytes(data + [last]) == 256 * FromBytes(data) + last as nat
  {
    assert (data + [last])[..|data|] == data;
  }

  // ---- Elements ----

  /**
   * An element stands at a place: its tag, then its length in one octet below 0x80, or in as many octets as the first
   * one says above 0x80, then as many octets of contents as that, all of it inside the data.
   */
  ghost predicate Stands(data: seq<byte>, offset: nat, t: Tlv) {
    && offset + 2 <= |data| && t.next <= |data| && t.tag == data[offset]
    && var first := data[offset + 1] as nat;
       if first < 0x80 then t.next == offset + 2 + first && t.value == data[offset + 2..t.next]
       else
         var start := offset + 2 + (first - 0x80);
         && start <= |data| && t.next == start + FromBytes(data[offset + 2..start]) && t.value == data[start..t.next]
  }

  /** The reader finds exactly the element that stands there, and otherwise finds the data cut short. */
  lemma ElementFound(data: seq<byte>, offset: nat, t: Tlv)
    ensures DerRead(data, offset) == Ok(t) <==> Stands(data, offset, t)
    ensures DerRead(data, offset).Err? ==> DerRead(data, offset).error == Truncated
  {}

  /** Elements that stand one after the other. */
  ghost predicate Row(data: seq<byte>, offset: nat, ts: seq<Tlv>)
    decreases |ts|
  {
    ts != [] ==> Stands(data, offset, ts[0]) && Row(data, ts[0].next, ts[1..])
  }

  // ---- PKCS#8 ----

  /** Some elements that are no octet strings, and then one that is. */
  ghost predicate FirstOctets(data: seq<byte>, offset: nat, ts: seq<Tlv>, v: seq<byte>) {
    && Row(data, offset, ts) && ts != []
    && ts[|ts| - 1].tag == 0x04 && ts[|ts| - 1].value == v && forall k | 0 <= k < |ts| - 1 :: ts[k].tag != 0x04
  }

  lemma {:induction false} OctetsIn(data: seq<byte>, offset: nat, v: seq<byte>) returns (ts: seq<Tlv>)
    requires FindOctets(data, offset) == Ok(v)
    ensures FirstOctets(data, offset, ts, v)
    decreases |data| - offset
  {
    var t := DerRead(data, offset).value;
    ElementFound(data, offset, t);
    hide DerRead, Stands;
    if t.tag == OCTET_STRING {
      ts := [t];
      assert Row(data, offset, [t]) by { assert Row(data, t.next, [t][1..]); }
    } else {
      var more := OctetsIn(data, t.next, v);
      ts := [t] + more;
      assert ts[1..] == more;
      assert forall k | 1 <= k < |ts| :: ts[k] == more[k - 1];
    }
  }

  lemma {:induction false} OctetsFound(data: seq<byte>, offset: nat, ts: seq<Tlv>, v: seq<byte>)
    requires FirstOctets(data, offset, ts, v)
    ensures FindOctets(data, offset) == Ok(v)
    decreases |ts|
  {
    ElementFound(data, offset, ts[0]);
    InsideData(data, offset, ts[0]);
    hide DerRead, Stands;
    if |ts| > 1 {
      var more := ts[1..];
      assert more[|more| - 1] == ts[|ts| - 1];
      assert forall k | 0 <= k < |more| - 1 :: more[k] == ts[k + 1];
      OctetsFound(data, ts[0].next, more, v);
    }
  }

  lemma InsideData(data: seq<byte>, offset: nat, t: Tlv)
    requires Stands(data, offset, t)
    ensures offset < |data| && offset + 2 <= t.next <= |data|
  {}

  /** The octets of a wrapped key are those of the first octet string in the sequence the data starts with. */
  ghost predicate Wraps(der: seq<byte>, v: seq<byte>) {
    exists outer, ts :: Stands(der, 0, outer) && outer.tag == 0x30 && FirstOctets(outer.value, 0, ts, v)
  }

  lemma WrapperMeans(der: seq<byte>, v: seq<byte>)
    ensures Pkcs8Octets(der) == Ok(v) <==> Wraps(der, v)
  {
    if Pkcs8Octets(der) == Ok(v) {
      var outer := DerRead(der, 0).value;
      ElementFound(der, 0, outer);
      var ts := OctetsIn(outer.value, 0, v);
      assert Stands(der, 0, outer) && outer.tag == 0x30 && FirstOctets(outer.value, 0, ts, v);
    }
    if outer, ts :| Stands(der, 0, outer) && outer.tag == 0x30 && FirstOctets(outer.value, 0, ts, v) {
      ElementFound(der, 0, outer);
      OctetsFound(outer.value, 0, ts, v);
    }
    hide DerRead, Stands, FirstOctets, FindOctets;
  }

  // ---- PKCS#1 ----

  predicate Number(t: Tlv, x: nat) { t.tag == 0x02 && FromBytes(t.value) == x }

  /** Four integers first in the sequence the data starts with: zero, and the three positive numbers of the key. */
  ghost predicate SpellsKey(der: seq<byte>, outer: Tlv, ts: seq<Tlv>, key: RsaKey) {
    && Stands(der, 0, outer) && outer.tag == 0x30 && |ts| == 4 && Row(outer.value, 0, ts)
    && Number(ts[0], 0) && Number(ts[1], key.n) && Number(ts[2], key.e) && Number(ts[3], key.d)
    && key.n > 0 && key.e > 0 && key.d > 0
  }

  /** The integers read from a place on, each from the element that stands there. */
  lemma {:induction false} IntegersIn(data: seq<byte>, offset: nat, found: seq<nat>) returns (ts: seq<Tlv>)
    requires |found| <= 4 && Integers(data, offset, found).Ok? && |Integers(data, offset, found).value| == 4
    ensures |ts| == 4 - |found| && Row(data, offset, ts)
    ensures Integers(data, offset, found).value[..|found|] == found
    ensures forall k | 0 <= k < |ts| :: Number(ts[k], Integers(data, offset, found).value[|found| + k])
    decreases |data| - offset
  {
    if |found| == 4 {
      ts := [];
      assert Row(data, offset, []);
    } else {
      var t := DerRead(data, offset).value;
      ElementFound(data, offset, t);
      hide DerRead, Stands;
      var next := found + [FromBytes(t.value)];
      var more := IntegersIn(data, t.next, next);
      ts := [t] + more;
      assert ts[1..] == more;
      var all := Integers(data, offset, found).value;
      PrefixMore(all, found, FromBytes(t.value));
      hide FromBytes, Row, Number, Integers;
      forall k | 0 <= k < |ts| ensures Number(ts[k], all[|found| + k]) {
        if k > 0 { assert Number(more[k - 1], all[|next| + (k - 1)]); }
      }
    }
  }

  lemma PrefixMore(all: seq<nat>, found: seq<nat>, x: nat)
    requires |found| < |all| && all[..|found| + 1] == found + [x]
    ensures all[..|found|] == found && all[|found|] == x
  {
    assert all[..|found|] == all[..|found| + 1][..|found|];
    assert all[|found|] == all[..|found| + 1][|found|];
  }

  lemma {:induction false} IntegersFound(data: seq<byte>, offset: nat, ts: seq<Tlv>, found: seq<nat>, xs: seq<nat>)
    requires Row(data, offset, ts) && |xs| == |ts| && |found| + |ts| == 4
    requires forall k | 0 <= k < |ts| :: Number(ts[k], xs[k])
    ensures Integers(data, offset, found) == Ok(found + xs)
    decreases |ts|
  {
    if ts == [] {
      assert found + xs == found;
    } else {
      OneInteger(data, offset, ts, found, xs[0]);
      var more, rest := ts[1..], xs[1..];
      Moved(found, xs);
      hide DerRead, Row, FromBytes;
      forall k | 0 <= k < |more| ensures Number(more[k], rest[k]) { assert Number(ts[k + 1], xs[k + 1]); }
      hide Number;
      IntegersFound(data, ts[0].next, more, found + [xs[0]], rest);
    }
  }

  lemma Moved(found: seq<nat>, xs: seq<nat>)
    requires xs != []
    ensures found + [xs[0]] + xs[1..] == found + xs
  {}

  lemma OneInteger(data: seq<byte>, offset: nat, ts: seq<Tlv>, found: seq<nat>, x: nat)
    requires ts != [] && Row(data, offset, ts) && Number(ts[0], x) && |found| < 4
    ensures Row(data, ts[0].next, ts[1..])
    ensures Integers(data, offset, found) == Integers(data, ts[0].next, found + [x])
  {
    ElementFound(data, offset, ts[0]);
    InsideData(data, offset, ts[0]);
    hide DerRead, Stands;
  }

  lemma {:induction false} IntegersFew(data: seq<byte>, offset: nat, found: seq<nat>)
    requires |found| <= 4
    ensures Integers(data, offset, found).Ok? ==> |Integers(data, offset, found).value| <= 4
    decreases |data| - offset
  {
    hide DerRead;
    if offset < |data| && |found| < 4 && DerRead(data, offset).Ok? {
      var t := DerRead(data, offset).value;
      IntegersFew(data, t.next, found + [FromBytes(t.value)]);
    }
  }

  /** A key is read from exactly the data that spell it. */
  lemma KeyMeans(der: seq<byte>, key: RsaKey)
    ensures Pkcs1Key(der) == Ok(key) <==> exists outer, ts :: SpellsKey(der, outer, ts, key)
  {
    hide DerRead, Stands, Row;
    if Pkcs1Key(der) == Ok(key) {
      var outer := DerRead(der, 0).value;
      ElementFound(der, 0, outer);
      IntegersFew(outer.value, 0, []);
      var ts := IntegersIn(outer.value, 0, []);
      assert SpellsKey(der, outer, ts, key);
    }
    if outer, ts :| SpellsKey(der, outer, ts, key) {
      ElementFound(der, 0, outer);
      IntegersFound(outer.value, 0, ts, [], [0, key.n, key.e, key.d]);
      assert [] + [0, key.n, key.e, key.d] == [0, key.n, key.e, key.d];
    }
  }

  /** The header decides how a body is read; an encrypted key is refused before anything else. */
  lemma HeaderDecides(header: PemHeader, body: Option<seq<byte>>, key: RsaKey)
    ensures header == EncryptedPrivateKey ==> ParseKey(header, body) == Err(EncryptedKey)
    ensures header != EncryptedPrivateKey && body == None ==> ParseKey(header, body) == Err(BadPem)
    ensures header == OtherHeader && body != None ==> ParseKey(header, body) == Err(BadHeader)
    ensures header == RsaPrivateKey && body != None ==>
              (ParseKey(header, body) == Ok(key) <==> exists outer, ts :: SpellsKey(body.value, outer, ts, key))
    ensures header == PrivateKey && body != None ==>
              (ParseKey(header, body) == Ok(key) <==>
               exists inner, outer, ts :: Wraps(body.value, inner) && SpellsKey(inner, outer, ts, key))
  {
    if body.Some? {
      KeyMeans(body.value, key);
      if Pkcs8Octets(body.value).Ok? { KeyMeans(Pkcs8Octets(body.value).value, key); }
      forall v ensures Pkcs8Octets(body.value) == Ok(v) <==> Wraps(body.value, v) { WrapperMeans(body.value, v); }
    }
    hide Wraps, SpellsKey, Pkcs8Octets, Pkcs1Key;
  }

  // ---- The encoder ----

  /** The octets of an integer are the fewest whose first one is below 0x80. */
  lemma IntegerIsMinimal(x: nat)
    ensures var o := IntegerOctets(x);
            o != [] && o[0] < 0x80 && FromBytes(o) == x && (|o| == 1 || o[0] > 0 || o[1] >= 0x80)
  {
    hide Width, FromBytes, ToBytes, Pow256;
    IntegerReadsBack(x);
    WidthIsMinimal(x);
    var digits := ToBytes(x, Width(x));
    FromToBytes(x, Width(x));
    if |digits| > 1 { LeadingDigit(digits); }
    var o := IntegerOctets(x);
    if digits[0] as int >= 0x80 {
      assert o == [0] + digits && o[1] == digits[0];
    } else {
      assert o == digits;
    }
  }

  lemma {:induction false} WidthIsMinimal(x: nat)
    ensures Width(x) == 1 || Pow256(Width(x) - 1) <= x
  {
    if x >= 256 { WidthIsMinimal(x / 256); }
  }

  /** A number of as many digits as it needs starts with one that is not zero. */
  lemma LeadingDigit(digits: seq<byte>)
    requires |digits| > 1 && Pow256(|digits| - 1) <= FromBytes(digits)
    ensures digits[0] > 0
  {
    var rest := digits[1..];
    assert digits == [digits[0]] + rest;
    FromBytesConcat([digits[0]], rest);
    FromBytesBound(rest);
    DigitsRead([], digits[0]);
    assert [] + [digits[0]] == [digits[0]];
  }
}
