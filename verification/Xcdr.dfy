/** The octets that are hashed and signed: a `BinaryPropertySeq` in XCDR
    encoding version 1, big-endian (DDS-XTypes 1.3, section 7.4.1).

    A sequence is a 32-bit count followed by its elements; a string is a 32-bit
    length that counts the terminating NUL, then the octets and the NUL; every
    32-bit integer is aligned to four octets from the start of the stream. The
    `propagate` member is not serialized (DDS Security, section 7.2). */
module Xcdr {
  import opened Octets

  datatype BinaryProperty = BinaryProperty(name: CString, value: OctetSeq, propagate: bool)

  function U32(n: nat): (r: seq<byte>)
    requires n < 0x1_0000_0000
    ensures |r| == 4
  {
    [(n / 0x100_0000) as byte, (n / 0x1_0000 % 0x100) as byte, (n / 0x100 % 0x100) as byte, (n % 0x100) as byte]
  }

  function FromU32(b: seq<byte>): (n: nat)
    requires |b| == 4
    ensures n < 0x1_0000_0000
  {
    ((b[0] as int * 0x100 + b[1] as int) * 0x100 + b[2] as int) * 0x100 + b[3] as int
  }

  lemma FromU32OfU32(n: nat)
    requires n < 0x1_0000_0000
    ensures FromU32(U32(n)) == n
  {
    var high, middle := n / 0x100, n / 0x1_0000;
    assert n == high * 0x100 + n % 0x100;
    assert high == middle * 0x100 + high % 0x100;
    assert middle == n / 0x100_0000 * 0x100 + middle % 0x100;
  }

  /** Octets of padding in front of a 32-bit integer at `offset`. */
  function Padding(offset: nat): (k: nat)
    ensures k < 4 && (offset + k) % 4 == 0
  {
    (4 - offset % 4) % 4
  }

  function Zeros(k: nat): (z: seq<byte>)
    ensures |z| == k
  {
    seq(k, _ => 0)
  }

  /** A length-prefixed item written at `offset`. */
  function Item(offset: nat, b: OctetSeq): (r: seq<byte>)
    ensures |r| == Padding(offset) + 4 + |b|
  {
    Zeros(Padding(offset)) + U32(|b|) + b
  }

  function Items(offset: nat, items: seq<OctetSeq>): seq<byte>
    decreases |items|
  {
    if items == [] then [] else
      Item(offset, items[0]) + Items(offset + Padding(offset) + 4 + |items[0]|, items[1..])
  }

  /** Reads one length-prefixed item at `offset`; gives the item and what follows it. */
  function ReadItem(offset: nat, data: seq<byte>): Option<(OctetSeq, seq<byte>)> {
    var start := Padding(offset) + 4;
    if |data| < start then None else
      var length := FromU32(data[start - 4..start]);
      if |data| < start + length then None
      else Some((data[start..start + length], data[start + length..]))
  }

  /** Reads `n` items; gives the items and what follows them. */
  function ReadItems(offset: nat, n: nat, data: seq<byte>): Option<(seq<OctetSeq>, seq<byte>)>
    decreases n
  {
    if n == 0 then Some(([], data)) else
      match ReadItem(offset, data)
      case None => None
      case Some((b, tail)) =>
        match ReadItems(offset + Padding(offset) + 4 + |b|, n - 1, tail)
        case None => None
        case Some((items, rest)) => Some(([b] + items, rest))
  }

  lemma ReadItemOfItem(offset: nat, b: OctetSeq, rest: seq<byte>)
    ensures ReadItem(offset, Item(offset, b) + rest) == Some((b, rest))
  {
    var start := Padding(offset) + 4;
    var data := Item(offset, b) + rest;
    assert data == Zeros(start - 4) + U32(|b|) + b + rest;
    assert data[start - 4..start] == U32(|b|);
    FromU32OfU32(|b|);
    assert data[start..start + |b|] == b;
    assert data[start + |b|..] == rest;
  }

  lemma ReadItemsStep(offset: nat, n: nat, data: seq<byte>, b: OctetSeq, rest: seq<byte>,
                      items: seq<OctetSeq>, tail: seq<byte>)
    requires ReadItem(offset, data) == Some((b, rest))
    requires ReadItems(offset + Padding(offset) + 4 + |b|, n, rest) == Some((items, tail))
    ensures ReadItems(offset, n + 1, data) == Some(([b] + items, tail))
  {
  }

  lemma {:induction false} ReadItemsOfItems(offset: nat, items: seq<OctetSeq>, tail: seq<byte>)
    ensures ReadItems(offset, |items|, Items(offset, items) + tail) == Some((items, tail))
    decreases |items|
  {
    hide ReadItem, Item, Padding, FromU32, U32;
    if items == [] {
      assert Items(offset, items) + tail == tail;
    } else {
      var b := items[0];
      var next := offset + Padding(offset) + 4 + |b|;
      var rest := Items(next, items[1..]) + tail;
      assert Items(offset, items) + tail == Item(offset, b) + rest;
      ReadItemOfItem(offset, b, rest);
      ReadItemsOfItems(next, items[1..], tail);
      ReadItemsStep(offset, |items| - 1, Item(offset, b) + rest, b, rest, items[1..], tail);
      assert [b] + items[1..] == items;
    }
  }

  /** The items of a property list: name and value alternate. */
  function PropertyItems(ps: seq<BinaryProperty>): (items: seq<OctetSeq>)
    ensures |items| == 2 * |ps|
  {
    if ps == [] then [] else [Terminated(ps[0].name), ps[0].value] + PropertyItems(ps[1..])
  }

  function Serialize(ps: seq<BinaryProperty>): seq<byte>
    requires |ps| < 0x1_0000_0000
  {
    U32(|ps|) + Items(4, PropertyItems(ps))
  }

  function ToProperties(items: seq<OctetSeq>): (ps: seq<BinaryProperty>)
    requires |items| % 2 == 0
  {
    if items == [] then []
    else [BinaryProperty(StringValue(items[0]), items[1], true)] + ToProperties(items[2..])
  }

  function Deserialize(data: seq<byte>): Option<seq<BinaryProperty>> {
    if |data| < 4 then None else
      var n := 2 * FromU32(data[..4]);
      match ReadItems(4, n, data[4..])
      case None => None
      case Some((items, _)) => if |items| == n then Some(ToProperties(items)) else None
  }

  ghost predicate AllPropagate(ps: seq<BinaryProperty>) {
    forall i :: 0 <= i < |ps| ==> ps[i].propagate
  }

  lemma {:induction false} ToPropertiesOfItems(ps: seq<BinaryProperty>)
    requires AllPropagate(ps)
    ensures ToProperties(PropertyItems(ps)) == ps
  {
    if ps != [] {
      var items := PropertyItems(ps);
      StringValueOfTerminated(ps[0].name);
      assert items[2..] == PropertyItems(ps[1..]);
      ToPropertiesOfItems(ps[1..]);
    }
  }

  /** Parsing the serialized octets gives back the property list. */
  lemma DeserializeOfSerialize(ps: seq<BinaryProperty>)
    requires |ps| < 0x1_0000_0000 && AllPropagate(ps)
    ensures Deserialize(Serialize(ps)) == Some(ps)
  {
    var data := Serialize(ps);
    var items := PropertyItems(ps);
    assert data[..4] == U32(|ps|);
    FromU32OfU32(|ps|);
    assert data[4..] == Items(4, items) + [];
    ReadItemsOfItems(4, items, []);
    ToPropertiesOfItems(ps);
  }

  lemma SerializeInjective(ps: seq<BinaryProperty>, qs: seq<BinaryProperty>)
    requires |ps| < 0x1_0000_0000 && AllPropagate(ps)
    requires |qs| < 0x1_0000_0000 && AllPropagate(qs)
    requires Serialize(ps) == Serialize(qs)
    ensures ps == qs
  {
    DeserializeOfSerialize(ps);
    DeserializeOfSerialize(qs);
  }
}
