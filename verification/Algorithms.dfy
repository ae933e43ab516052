/** The algorithm tables of the CycloneDDS adapter: names on the wire, kinds, and
    the sizes that KEM material must have. The sentinel row that ends a C table is
    the end of the sequence here. */
module Algorithms {
  import opened Octets

  datatype Kind =
    | Unknown
    | Rsa2048 | EcPrime256v1
    | MlKem512 | MlKem768 | MlKem1024
    | MlDsa44 | MlDsa65 | MlDsa87
    | X25519MlKem768 | P256MlKem768
    | Frodo640Shake | BikeL1 | Hqc128

  datatype AlgorithmInfo = AlgorithmInfo(configurationName: string, kind: Kind, opensslName: string, wireName: CString)

  type Table = seq<AlgorithmInfo>

  // The names on the wire.
  const ECDH_PRIME256V1_CEUM: CString := "ECDH+prime256v1-CEUM"
  const DH_MODP_2048_256: CString := "DH+MODP-2048-256"
  const ML_KEM_512: CString := "ML-KEM-512"
  const ML_KEM_768: CString := "ML-KEM-768"
  const ML_KEM_1024: CString := "ML-KEM-1024"
  const X25519MLKEM768: CString := "X25519MLKEM768"
  const SECP256R1MLKEM768: CString := "SecP256r1MLKEM768"
  const FRODOKEM_640_SHAKE: CString := "FrodoKEM-640-SHAKE"
  const BIKE_L1: CString := "BIKE-L1"
  const HQC_128: CString := "HQC-128"
  const RSASSA_PSS_SHA256: CString := "RSASSA-PSS-SHA256"
  const ECDSA_SHA256: CString := "ECDSA-SHA256"
  const ML_DSA_44: CString := "ML-DSA-44"
  const ML_DSA_65: CString := "ML-DSA-65"
  const ML_DSA_87: CString := "ML-DSA-87"

  const KEM_ALGORITHMS: Table := [
    AlgorithmInfo("ecdh_p256", EcPrime256v1, "EC", ECDH_PRIME256V1_CEUM),
    AlgorithmInfo("dh_2048", Rsa2048, "DH", DH_MODP_2048_256),
    AlgorithmInfo("mlkem512", MlKem512, "ML-KEM-512", ML_KEM_512),
    AlgorithmInfo("mlkem768", MlKem768, "ML-KEM-768", ML_KEM_768),
    AlgorithmInfo("mlkem1024", MlKem1024, "ML-KEM-1024", ML_KEM_1024),
    AlgorithmInfo("x25519_mlkem768", X25519MlKem768, "X25519MLKEM768", X25519MLKEM768),
    AlgorithmInfo("p256_mlkem768", P256MlKem768, "SecP256r1MLKEM768", SECP256R1MLKEM768),
    AlgorithmInfo("frodo640shake", Frodo640Shake, "frodo640shake", FRODOKEM_640_SHAKE),
    AlgorithmInfo("bikel1", BikeL1, "bikel1", BIKE_L1),
    AlgorithmInfo("hqc128", Hqc128, "hqc128", HQC_128)]

  const SIGNATURE_ALGORITHMS: Table := [
    AlgorithmInfo("rsa2048", Rsa2048, "RSA", RSASSA_PSS_SHA256),
    AlgorithmInfo("ecdsa_p256", EcPrime256v1, "EC", ECDSA_SHA256),
    AlgorithmInfo("mldsa44", MlDsa44, "ML-DSA-44", ML_DSA_44),
    AlgorithmInfo("mldsa65", MlDsa65, "ML-DSA-65", ML_DSA_65),
    AlgorithmInfo("mldsa87", MlDsa87, "ML-DSA-87", ML_DSA_87)]

  datatype KemKeySizes = KemKeySizes(kind: Kind, publicKey: nat, secretKey: nat, ciphertext: nat)

  const KEM_KEY_SIZES: seq<KemKeySizes> := [
    KemKeySizes(EcPrime256v1, 65, 32, 65),
    KemKeySizes(Rsa2048, 256, 256, 256),
    KemKeySizes(MlKem512, 800, 1632, 768),
    KemKeySizes(MlKem768, 1184, 2400, 1088),
    KemKeySizes(MlKem1024, 1568, 3168, 1568),
    KemKeySizes(X25519MlKem768, 1216, 0, 1120),
    KemKeySizes(P256MlKem768, 1249, 0, 1153),
    KemKeySizes(Frodo640Shake, 9616, 19888, 9720),
    KemKeySizes(BikeL1, 1541, 5223, 1573),
    KemKeySizes(Hqc128, 2249, 2289, 4481)]

  // ----------------------------------------------------------- names on the wire

  /** The octets of a text, without a terminating NUL. */
  function Unterminated(text: CString): (b: OctetSeq)
    ensures |b| == |text| && 0 !in b
  {
    Terminated(text)[..|text|]
  }

  /** A name on the wire may or may not carry its terminating NUL. */
  predicate Names(octets: OctetSeq, text: CString) {
    octets == Unterminated(text) || octets == Terminated(text)
  }

  /** `octets_equal_string`. */
  method OctetsEqualString(octets: OctetSeq, text: CString) returns (equal: bool)
    ensures equal <==> Names(octets, text)
  {
    var length := |text|;
    if |octets| != length && !(|octets| == length + 1 && octets[length] == 0) {
      return false;
    }
    equal := true;
    for i := 0 to length
      invariant octets[..i] == Terminated(text)[..i]
    {
      if octets[i] != text[i] as int as byte {
        assert octets[i] != Terminated(text)[i];
        return false;
      }
    }
    assert Terminated(text) == Unterminated(text) + [0];
    assert |octets| == length ==> octets == octets[..length];
    assert |octets| == length + 1 ==> octets == octets[..length] + [0];
  }

  lemma NamesOneText(octets: OctetSeq, a: CString, b: CString)
    requires Names(octets, a) && Names(octets, b)
    ensures a == b
  {
    forall t: CString | Names(octets, t)
      ensures StringValue(if octets == Terminated(t) then octets else octets + [0]) == t
    {
      assert Terminated(t) == Unterminated(t) + [0];
      StringValueOfTerminated(t);
    }
    assert octets == Terminated(a) ==> 0 in octets;
    assert octets == Terminated(b) ==> 0 in octets;
  }

  predicate DistinctNames(table: Table) {
    forall i, j :: 0 <= i < j < |table| ==> table[i].wireName != table[j].wireName
  }

  predicate DistinctKinds(table: Table) {
    forall i, j :: 0 <= i < j < |table| ==> table[i].kind != table[j].kind
  }

  lemma KemNameLengths(i: nat)
    requires i < |KEM_ALGORITHMS|
    ensures |KEM_ALGORITHMS[i].wireName| == [20, 16, 10, 10, 11, 14, 17, 18, 7, 7][i]
  {
  }

  /** Two names of the same length still differ in their last character. */
  lemma KemNamesDiffer(i: nat, j: nat)
    requires i < j < |KEM_ALGORITHMS|
    ensures KEM_ALGORITHMS[i].wireName != KEM_ALGORITHMS[j].wireName
  {
    if i == 2 && j == 3 {
      assert KEM_ALGORITHMS[2].wireName[9] != KEM_ALGORITHMS[3].wireName[9];
    } else if i == 8 && j == 9 {
      assert KEM_ALGORITHMS[8].wireName[6] != KEM_ALGORITHMS[9].wireName[6];
    } else {
      KemNameLengths(i);
      KemNameLengths(j);
    }
  }

  lemma KemKindsDiffer(i: nat, j: nat)
    requires i < j < |KEM_ALGORITHMS|
    ensures KEM_ALGORITHMS[i].kind != KEM_ALGORITHMS[j].kind
  {
  }

  lemma KemTableIsDistinct()
    ensures DistinctNames(KEM_ALGORITHMS) && DistinctKinds(KEM_ALGORITHMS)
  {
    forall i, j | 0 <= i < j < |KEM_ALGORITHMS|
      ensures KEM_ALGORITHMS[i].wireName != KEM_ALGORITHMS[j].wireName && KEM_ALGORITHMS[i].kind != KEM_ALGORITHMS[j].kind
    {
      KemNamesDiffer(i, j);
      KemKindsDiffer(i, j);
    }
  }

  lemma SignatureTableIsDistinct()
    ensures DistinctNames(SIGNATURE_ALGORITHMS) && DistinctKinds(SIGNATURE_ALGORITHMS)
  {
    forall i, j | 0 <= i < j < |SIGNATURE_ALGORITHMS|
      ensures SIGNATURE_ALGORITHMS[i].wireName != SIGNATURE_ALGORITHMS[j].wireName
    {
      var a, b := SIGNATURE_ALGORITHMS[i].wireName, SIGNATURE_ALGORITHMS[j].wireName;
      assert |a| != |b| || a[|a| - 1] != b[|b| - 1];
    }
  }

  // ------------------------------------------------------------------- look-ups

  /** The kind of the first row that the octets name. */
  function WireKind(table: Table, name: OctetSeq): Kind {
    if table == [] then Unknown
    else if Names(name, table[0].wireName) then table[0].kind
    else WireKind(table[1..], name)
  }

  /** `find_wire_kind`. */
  method FindWireKind(table: Table, name: OctetSeq) returns (kind: Kind)
    ensures kind == WireKind(table, name)
  {
    for i := 0 to |table|
      invariant WireKind(table, name) == WireKind(table[i..], name)
    {
      var equal := OctetsEqualString(name, table[i].wireName);
      if equal {
        return table[i].kind;
      }
    }
    return Unknown;
  }

  /** The first row of a kind. */
  function RowOf(table: Table, kind: Kind): (row: Option<AlgorithmInfo>)
    ensures row.Some? ==> row.value in table && row.value.kind == kind
    ensures row.None? ==> forall i :: 0 <= i < |table| ==> table[i].kind != kind
  {
    if table == [] then None
    else if table[0].kind == kind then Some(table[0])
    else RowOf(table[1..], kind)
  }

  /** `find_by_kind`. */
  method FindByKind(table: Table, kind: Kind) returns (row: Option<AlgorithmInfo>)
    ensures row == RowOf(table, kind)
  {
    for i := 0 to |table|
      invariant RowOf(table, kind) == RowOf(table[i..], kind)
    {
      if table[i].kind == kind {
        return Some(table[i]);
      }
    }
    return None;
  }

  /** `get_dsign_algo` and `get_kagree_algo`: the name written for a kind. */
  function WireName(table: Table, kind: Kind): CString {
    var row := RowOf(table, kind);
    if row.Some? then row.value.wireName else ""
  }

  predicate Supported(table: Table, kind: Kind) {
    RowOf(table, kind).Some?
  }

  lemma {:induction false} WireKindOfRow(table: Table, name: OctetSeq, i: nat)
    requires DistinctNames(table) && i < |table| && Names(name, table[i].wireName)
    ensures WireKind(table, name) == table[i].kind
  {
    if i > 0 {
      if Names(name, table[0].wireName) {
        NamesOneText(name, table[0].wireName, table[i].wireName);
        assert false;
      }
      assert table[1..][i - 1] == table[i];
      WireKindOfRow(table[1..], name, i - 1);
    }
  }

  /** Octets name at most one row of a table. */
  lemma NamesOneRow(table: Table, name: OctetSeq, i: nat, j: nat)
    requires DistinctNames(table) && i < |table| && j < |table|
    requires Names(name, table[i].wireName) && Names(name, table[j].wireName)
    ensures i == j
  {
    NamesOneText(name, table[i].wireName, table[j].wireName);
  }

  lemma {:induction false} WireKindHasRow(table: Table, name: OctetSeq) returns (i: nat)
    requires WireKind(table, name) != Unknown
    ensures i < |table| && Names(name, table[i].wireName) && table[i].kind == WireKind(table, name)
  {
    if Names(name, table[0].wireName) {
      i := 0;
    } else {
      var j := WireKindHasRow(table[1..], name);
      i := j + 1;
    }
  }

  /** Decoding is the inverse of encoding: octets decode to a supported kind exactly
      when they are the name written for it, with or without the terminating NUL. */
  lemma WireCodec(table: Table, kind: Kind, name: OctetSeq)
    requires DistinctNames(table) && DistinctKinds(table)
    requires Supported(table, kind) && kind != Unknown
    ensures WireKind(table, name) == kind <==> Names(name, WireName(table, kind))
  {
    var i :| 0 <= i < |table| && table[i] == RowOf(table, kind).value;
    if Names(name, WireName(table, kind)) {
      WireKindOfRow(table, name, i);
    }
    if WireKind(table, name) == kind {
      var j := WireKindHasRow(table, name);
      assert i == j;
    }
  }

  /** The codec for the two tables of the plugin. */
  lemma TablesCodec(kind: Kind, name: OctetSeq)
    requires kind != Unknown
    ensures Supported(KEM_ALGORITHMS, kind) ==>
              (WireKind(KEM_ALGORITHMS, name) == kind <==> Names(name, WireName(KEM_ALGORITHMS, kind)))
    ensures Supported(SIGNATURE_ALGORITHMS, kind) ==>
              (WireKind(SIGNATURE_ALGORITHMS, name) == kind <==> Names(name, WireName(SIGNATURE_ALGORITHMS, kind)))
  {
    hide RowOf, WireKind, Names;
    KemTableIsDistinct();
    SignatureTableIsDistinct();
    if Supported(KEM_ALGORITHMS, kind) {
      WireCodec(KEM_ALGORITHMS, kind, name);
    }
    if Supported(SIGNATURE_ALGORITHMS, kind) {
      WireCodec(SIGNATURE_ALGORITHMS, kind, name);
    }
  }

  // ---------------------------------------------------------------------- sizes

  function SizesOf(sizes: seq<KemKeySizes>, kind: Kind): Option<KemKeySizes> {
    if sizes == [] then None
    else if sizes[0].kind == kind then Some(sizes[0])
    else SizesOf(sizes[1..], kind)
  }

  /** `find_sizes`. */
  method FindSizes(kind: Kind) returns (row: Option<KemKeySizes>)
    ensures row == SizesOf(KEM_KEY_SIZES, kind)
  {
    var sizes := KEM_KEY_SIZES;
    for i := 0 to |sizes|
      invariant SizesOf(sizes, kind) == SizesOf(sizes[i..], kind)
    {
      if sizes[i].kind == kind {
        return Some(sizes[i]);
      }
    }
    return None;
  }

  function PublicKeySize(kind: Kind): nat {
    var row := SizesOf(KEM_KEY_SIZES, kind);
    if row.Some? then row.value.publicKey else 0
  }

  function CiphertextSize(kind: Kind): nat {
    var row := SizesOf(KEM_KEY_SIZES, kind);
    if row.Some? then row.value.ciphertext else 0
  }

  /** `validate_kem_property`: only material of exactly the size of its kind passes. */
  method ValidateKemProperty(property: Option<OctetSeq>, kind: Kind, isPublicKey: bool) returns (ok: bool)
    ensures ok <==> property.Some? && HasKemSize(property.value, kind, isPublicKey)
  {
    var row := FindSizes(kind);
    var expectedSize := if row.None? then 0 else if isPublicKey then row.value.publicKey else row.value.ciphertext;
    if property.None? || |property.value| == 0 {
      return false;
    }
    if expectedSize == 0 || |property.value| != expectedSize {
      return false;
    }
    return true;
  }

  predicate HasKemSize(value: OctetSeq, kind: Kind, isPublicKey: bool) {
    value != [] && |value| == if isPublicKey then PublicKeySize(kind) else CiphertextSize(kind)
  }

  lemma {:induction false} SameKindsSameRows(table: Table, sizes: seq<KemKeySizes>, kind: Kind)
    requires |table| == |sizes| && forall i :: 0 <= i < |table| ==> table[i].kind == sizes[i].kind
    requires forall i :: 0 <= i < |sizes| ==> sizes[i].publicKey > 0 && sizes[i].ciphertext > 0
    ensures var row := SizesOf(sizes, kind);
            (Supported(table, kind) <==> row.Some?) && (row.Some? ==> row.value.publicKey > 0 && row.value.ciphertext > 0)
  {
    if table != [] && table[0].kind != kind {
      SameKindsSameRows(table[1..], sizes[1..], kind);
    }
  }

  /** The algorithm table and the size table agree on what a KEM is: material can
      have the right size exactly for the kinds that can be agreed on. */
  lemma KemsHaveSizes(kind: Kind)
    ensures Supported(KEM_ALGORITHMS, kind) <==> PublicKeySize(kind) > 0
    ensures Supported(KEM_ALGORITHMS, kind) <==> CiphertextSize(kind) > 0
  {
    hide RowOf, SizesOf;
    SameKindsSameRows(KEM_ALGORITHMS, KEM_KEY_SIZES, kind);
  }

  lemma {:induction false} SizesInTable(sizes: seq<KemKeySizes>, kind: Kind, bound: nat)
    requires forall i :: 0 <= i < |sizes| ==> sizes[i].publicKey <= bound && sizes[i].ciphertext <= bound
    ensures var row := SizesOf(sizes, kind); row.Some? ==> row.value.publicKey <= bound && row.value.ciphertext <= bound
  {
    if sizes != [] && sizes[0].kind != kind {
      SizesInTable(sizes[1..], kind, bound);
    }
  }

  lemma KemSizesAreSmall(kind: Kind)
    ensures PublicKeySize(kind) <= 9720 && CiphertextSize(kind) <= 9720
  {
    hide SizesOf;
    SizesInTable(KEM_KEY_SIZES, kind, 9720);
  }
}
