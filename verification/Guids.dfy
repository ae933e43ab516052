/** Participant GUIDs: the prefix derived from the identity certificate (DDS
    Security, section 9.3.3) and the order that assigns handshake roles. */
module Guids {

  type octet = bv8

  type Guid = g: seq<octet> | |g| == 16 witness seq(16, _ => 0)

  // ---------------------------------------------------------------- the order

  /** The byte-wise lexicographic order: `memcmp(a, b) < 0`. */
  predicate Less(a: seq<octet>, b: seq<octet>)
    requires |a| == |b|
  {
    a != [] && (a[0] < b[0] || (a[0] == b[0] && Less(a[1..], b[1..])))
  }

  lemma {:induction false} LessTrichotomy(a: seq<octet>, b: seq<octet>)
    requires |a| == |b|
    ensures a == b ==> !Less(a, b) && !Less(b, a)
    ensures a != b ==> (Less(a, b) <==> !Less(b, a))
  {
    if a != [] {
      LessTrichotomy(a[1..], b[1..]);
      assert a == [a[0]] + a[1..] && b == [b[0]] + b[1..];
    }
  }

  lemma {:induction false} LessTransitive(a: seq<octet>, b: seq<octet>, c: seq<octet>)
    requires |a| == |b| == |c| && Less(a, b) && Less(b, c)
    ensures Less(a, c)
  {
    if a[0] == b[0] == c[0] {
      LessTransitive(a[1..], b[1..], c[1..]);
    }
  }

  datatype Role = SendsRequest | AwaitsMessage

  /** The role that a participant is told to play towards a remote one. */
  function RoleOf(local: Guid, remote: Guid): Role {
    if Less(local, remote) then SendsRequest else AwaitsMessage
  }

  /** Two distinct participants get complementary roles; a participant facing
      its own GUID is never told to send the request. */
  lemma ComplementaryRoles(a: Guid, b: Guid)
    ensures a != b ==> (RoleOf(a, b) == SendsRequest <==> RoleOf(b, a) == AwaitsMessage)
    ensures a == b ==> RoleOf(a, b) == RoleOf(b, a) == AwaitsMessage
  {
    LessTrichotomy(a, b);
  }

  /** The order is that of the GUIDs as big-endian numbers. */
  lemma {:induction false} LessIsNumeric(a: seq<octet>, b: seq<octet>)
    requires |a| == |b|
    ensures Less(a, b) <==> NumberOf(a) < NumberOf(b)
  {
    if a != [] {
      hide NumberOf, Pow256;
      LessIsNumeric(a[1..], b[1..]);
      LeadingOctet(a);
      LeadingOctet(b);
      NumberBound(a[1..]);
      NumberBound(b[1..]);
      LeadingOctetDecides(a[0] as nat, b[0] as nat, Pow256(|a| - 1), NumberOf(a[1..]), NumberOf(b[1..]));
    }
  }

  lemma LeadingOctetDecides(x: nat, y: nat, p: nat, m: nat, n: nat)
    requires m < p && n < p
    ensures x * p + m < y * p + n <==> x < y || (x == y && m < n)
  {
    if x < y {
      assert (x + 1) * p <= y * p;
    } else if y < x {
      assert (y + 1) * p <= x * p;
    }
  }

  lemma {:induction false} LeadingOctet(a: seq<octet>)
    requires a != []
    ensures NumberOf(a) == a[0] as nat * Pow256(|a| - 1) + NumberOf(a[1..])
  {
    hide NumberOf, Pow256;
    var n := |a| - 1;
    if n > 0 {
      var inner := a[1..n];
      LeadingOctet(a[..n]);
      assert a[..n][1..] == inner;
      AppendOctet(a[..n], a[n]);
      AppendOctet(inner, a[n]);
      assert a[..n] + [a[n]] == a && inner + [a[n]] == a[1..];
      Regroup(a[0] as nat, n, NumberOf(inner), a[n] as nat);
    } else {
      assert a == [a[0]] && a[1..] == [];
      OneOctet(a[0]);
    }
  }

  lemma OneOctet(x: octet)
    ensures NumberOf([x]) == x as nat * Pow256(0) + NumberOf([])
  {
    AppendOctet([], x);
    assert [] + [x] == [x];
  }

  lemma AppendOctet(a: seq<octet>, x: octet)
    ensures NumberOf(a + [x]) == NumberOf(a) * 0x100 + x as nat
  {
    assert (a + [x])[..|a|] == a;
  }

  lemma Regroup(x: nat, n: nat, m: nat, d: nat)
    requires n > 0
    ensures (x * Pow256(n - 1) + m) * 0x100 + d == x * Pow256(n) + (m * 0x100 + d)
  {
    var p := Pow256(n - 1);
    assert Pow256(n) == p * 0x100;
    assert x * (p * 0x100) == x * p * 0x100;
  }

  lemma {:induction false} NumberBound(a: seq<octet>)
    ensures NumberOf(a) < Pow256(|a|)
  {
    if a != [] {
      NumberBound(a[..|a| - 1]);
    }
  }

  /** The participant with the smaller GUID, as a big-endian number, is told to send
      the request, and no other. */
  lemma SmallerSendsRequest(local: Guid, remote: Guid)
    ensures RoleOf(local, remote) == SendsRequest <==> NumberOf(local) < NumberOf(remote)
  {
    LessIsNumeric(local, remote);
  }

  // ------------------------------------------------------- the adjusted prefix

  /** An octet sequence read as a big-endian integer. */
  function NumberOf(b: seq<octet>): nat {
    if b == [] then 0 else NumberOf(b[..|b| - 1]) * 0x100 + b[|b| - 1] as nat
  }

  function Pow256(n: nat): (p: nat)
    ensures p > 0
  {
    if n == 0 then 1 else Pow256(n - 1) * 0x100
  }

  lemma {:induction false} NumberOfInjective(a: seq<octet>, b: seq<octet>)
    requires |a| == |b| && NumberOf(a) == NumberOf(b)
    ensures a == b
  {
    if a != [] {
      var n := |a| - 1;
      assert a[n] as nat == b[n] as nat && NumberOf(a[..n]) == NumberOf(b[..n]);
      NumberOfInjective(a[..n], b[..n]);
      assert a == a[..n] + [a[n]] && b == b[..n] + [b[n]];
    }
  }

  /** What the prefix of an adjusted GUID encodes: a one bit, then the first 47
      bits of the subject-name digest. */
  ghost predicate IsAdjustedPrefix(prefix: seq<octet>, digest: seq<octet>)
    requires |prefix| == 6 <= |digest|
  {
    NumberOf(prefix) == 0x8000_0000_0000 + NumberOf(digest[..6]) / 2
  }

  /** The carry octet holds the bit that the previous shift pushed out. */
  function Carry(hb: octet): nat {
    if hb == 0x80 then 1 else 0
  }

  ghost predicate IsCarry(hb: octet) {
    hb == 0 || hb == 0x80
  }

  /** One step: the carried bit, then the upper seven bits of this octet. */
  lemma CarryStep(hb: octet, high: octet)
    requires IsCarry(hb)
    ensures IsCarry(high << 7)
    ensures (hb | (high >> 1)) as nat * 2 + Carry(high << 7) == Carry(hb) * 0x100 + high as nat
  {
    OrOfDisjoint(hb, high >> 1);
    ShiftSplits(high);
  }

  lemma ShiftSplits(high: octet)
    ensures IsCarry(high << 7)
    ensures (high >> 1) as nat * 2 + Carry(high << 7) == high as nat
  {
    assert (high >> 1) as nat * 2 + (high & 1) as nat == high as nat;
    assert high << 7 == (if high & 1 == 1 then 0x80 else 0);
  }

  /** Appending an octet to both numbers keeps them one bit apart. */
  lemma ShiftedNumbers(prefix: seq<octet>, bits: seq<octet>, p: octet, b: octet, was: nat, now: nat, pow: nat)
    requires NumberOf(prefix) * 2 + was == pow + NumberOf(bits)
    requires p as nat * 2 + now == was * 0x100 + b as nat
    ensures NumberOf(prefix + [p]) * 2 + now == pow * 0x100 + NumberOf(bits + [b])
  {
    assert (prefix + [p])[..|prefix|] == prefix;
    assert (bits + [b])[..|bits|] == bits;
  }

  lemma OrOfDisjoint(h: octet, x: octet)
    requires (h == 0 || h == 0x80) && x < 0x80
    ensures (h | x) as nat == h as nat + x as nat
  {
  }

  /** `offset_1bit`: octet `i` of a digest shifted right by one bit. */
  function Offset1Bit(digest: seq<octet>, i: nat): octet
    requires i < |digest|
  {
    (digest[i] >> 1) | (if i == 0 then 0 else digest[i - 1] << 7)
  }

  /** `cert_matches_guid` on the digest of the certificate's subject name; an
      underivable or short digest matches nothing. */
  method CertificateMatchesGuid(digest: seq<octet>, guid: Guid) returns (matches: bool)
    ensures matches <==> |digest| >= 6 && IsAdjustedPrefix(guid[..6], digest)
  {
    if |digest| < 6 {
      return false;
    }
    AdjustedPrefixIsAdjusted(digest);
    ghost var expected := AdjustedPrefix(digest);
    if guid[0] & 0x80 != 0x80 || guid[0] & 0x7f != Offset1Bit(digest, 0) {
      FirstOctet(guid[0], digest[0]);
      assert guid[..6][0] != expected[0];
      return false;
    }
    FirstOctet(guid[0], digest[0]);
    for i := 1 to 6
      invariant forall k :: 0 <= k < i ==> guid[k] == expected[k]
    {
      if guid[i] != Offset1Bit(digest, i) {
        assert guid[..6][i] != expected[i];
        return false;
      }
    }
    assert guid[..6] == expected;
    return true;
  }

  /** The octets of the one prefix that is adjusted for a digest. */
  ghost function AdjustedPrefix(digest: seq<octet>): (p: seq<octet>)
    requires |digest| >= 6
    ensures |p| == 6
  {
    seq(6, i requires 0 <= i < 6 => AdjustedOctet(digest, i))
  }

  ghost function AdjustedOctet(digest: seq<octet>, i: nat): octet
    requires i < |digest|
  {
    if i == 0 then 0x80 | (digest[0] >> 1) else Offset1Bit(digest, i)
  }

  lemma FirstOctet(g: octet, d: octet)
    ensures (g & 0x80 == 0x80 && g & 0x7f == (d >> 1) | 0) <==> g == 0x80 | (d >> 1)
  {
  }

  lemma OrCommutes(a: octet, b: octet)
    ensures a | b == b | a
  {
  }

  /** The prefix is unique: these octets and no others encode it. */
  lemma AdjustedPrefixIsAdjusted(digest: seq<octet>)
    requires |digest| >= 6
    ensures forall p: seq<octet> :: |p| == 6 ==>
              (IsAdjustedPrefix(p, digest) <==> p == AdjustedPrefix(digest))
  {
    var p := AdjustedPrefix(digest);
    PrefixValue(digest, 6);
    assert p[..6] == p;
    assert Pow256(6) == 0x1_0000_0000_0000;
    forall q: seq<octet> | |q| == 6 && IsAdjustedPrefix(q, digest)
      ensures q == p
    {
      NumberOfInjective(q, p);
    }
  }

  lemma {:induction false} PrefixValue(digest: seq<octet>, n: nat)
    requires n <= 6 <= |digest|
    ensures NumberOf(AdjustedPrefix(digest)[..n]) * 2 + Carry(CarryInto(digest, n)) ==
            Pow256(n) + NumberOf(digest[..n])
  {
    if n > 0 {
      hide NumberOf, Carry, CarryInto, AdjustedPrefix;
      var p := AdjustedPrefix(digest);
      PrefixValue(digest, n - 1);
      OctetCarries(digest, n - 1);
      ShiftedNumbers(p[..n - 1], digest[..n - 1], p[n - 1], digest[n - 1],
                     Carry(CarryInto(digest, n - 1)), Carry(CarryInto(digest, n)), Pow256(n - 1));
      assert p[..n - 1] + [p[n - 1]] == p[..n];
      assert digest[..n - 1] + [digest[n - 1]] == digest[..n];
    }
  }

  /** One octet of the prefix with the carries around it. */
  lemma OctetCarries(digest: seq<octet>, i: nat)
    requires i < 6 <= |digest|
    ensures AdjustedPrefix(digest)[i] as nat * 2 + Carry(CarryInto(digest, i + 1)) ==
            Carry(CarryInto(digest, i)) * 0x100 + digest[i] as nat
  {
    hide NumberOf, Pow256, IsCarry;
    var hb := CarryInto(digest, i);
    CarryStep(hb, digest[i]);
    OrCommutes(hb, digest[i] >> 1);
  }

  ghost function CarryInto(digest: seq<octet>, i: nat): (hb: octet)
    requires i <= |digest|
    ensures IsCarry(hb)
  {
    if i == 0 then 0x80 else
      ShiftSplits(digest[i - 1]);
      digest[i - 1] << 7
  }

  /** `get_adjusted_participant_guid`: `high` is the digest of the subject name
      and `low` the digest of the candidate's prefix. */
  method AdjustedGuid(high: seq<octet>, low: seq<octet>, entityId: seq<octet>) returns (adjusted: Guid)
    requires |high| == |low| == 32 && |entityId| == 4
    ensures IsAdjustedPrefix(adjusted[..6], high)
    ensures adjusted[6..12] == low[..6] && adjusted[12..] == entityId
  {
    var hb: octet := 0x80;
    var prefix: seq<octet> := [];
    for i := 0 to 6
      invariant prefix == AdjustedPrefix(high)[..i] && hb == CarryInto(high, i)
    {
      OrCommutes(hb, high[i] >> 1);
      prefix := prefix + [hb | (high[i] >> 1)];
      hb := high[i] << 7;
    }
    AdjustedPrefixIsAdjusted(high);
    for i := 0 to 6
      invariant prefix == AdjustedPrefix(high) + low[..i]
    {
      prefix := prefix + [low[i]];
    }
    adjusted := prefix + entityId;
    assert adjusted[..6] == AdjustedPrefix(high);
  }

  /** `validate_pdata` recomputes the GUID from an all-zero candidate and compares
      six octets with the participant key. */
  method KeyMatchesCertificate(key: Guid, high: seq<octet>, lowOfZero: seq<octet>) returns (matches: bool)
    requires |high| == |lowOfZero| == 32
    ensures matches <==> IsAdjustedPrefix(key[..6], high)
  {
    var recomputed := AdjustedGuid(high, lowOfZero, [0, 0, 0, 0]);
    AdjustedPrefixIsAdjusted(high);
    matches := key[..6] == recomputed[..6];
  }
}
