/** What the OpenDDS adapter obtains from its libraries: certificate handling,
    hashing, signatures and the KEM. Every result below holds for all choices of
    these functions that meet the assumption it names. */
module Environment {
  import opened Octets
  import opened Guids

  type PublicKey = OctetSeq
  type SecretKey = OctetSeq
  type Coins = OctetSeq

  /** A 256-bit nonce. */
  type Nonce = n: seq<byte> | |n| == 32 witness seq(32, _ => 0)

  datatype Certificate = Certificate(
    subjectDigest: seq<octet>,
    signatureAlgorithm: CString,
    key: PublicKey)

  datatype Parameter = ParticipantGuid(guid: Guid) | OtherParameter

  datatype Suite = Suite(
    hash: seq<byte> -> Option<OctetSeq>,
    parseCertificate: OctetSeq -> Option<Certificate>,
    // CA, certificate, time
    certificateValid: (OctetSeq, OctetSeq, int) -> bool,
    parseParameters: OctetSeq -> Option<seq<Parameter>>,
    verify: (PublicKey, seq<byte>, OctetSeq) -> bool,
    // algorithm, secret key
    kemPublic: (CString, SecretKey) -> PublicKey,
    // algorithm, public key, coins; gives ciphertext and secret
    kemEncapsulate: (CString, PublicKey, Coins) -> Option<(OctetSeq, OctetSeq)>,
    // algorithm, secret key, ciphertext; gives the secret
    kemDecapsulate: (CString, SecretKey, OctetSeq) -> Option<OctetSeq>)

  /** Decapsulation undoes encapsulation. */
  ghost predicate KemCorrect(suite: Suite) {
    forall algorithm: CString, sk: SecretKey, coins: Coins ::
      var sent := suite.kemEncapsulate(algorithm, suite.kemPublic(algorithm, sk), coins);
      sent.Some? ==> suite.kemDecapsulate(algorithm, sk, sent.value.0) == Some(sent.value.1)
  }

  /** `Kem::import_public` refuses an empty key. */
  function Encapsulate(suite: Suite, algorithm: CString, publicKey: PublicKey, coins: Coins): Option<(OctetSeq, OctetSeq)> {
    if publicKey == [] then None else suite.kemEncapsulate(algorithm, publicKey, coins)
  }

  /** `Kem::decapsulate` refuses a missing key and an empty ciphertext. */
  function Decapsulate(suite: Suite, algorithm: CString, key: Option<SecretKey>, ciphertext: OctetSeq): Option<OctetSeq> {
    if key.None? || ciphertext == [] then None else suite.kemDecapsulate(algorithm, key.value, ciphertext)
  }

  /** The GUID parameter that comes first decides. */
  predicate FirstGuidIs(parameters: seq<Parameter>, expected: Guid) {
    parameters != [] &&
    match parameters[0]
    case ParticipantGuid(g) => g == expected
    case OtherParameter => FirstGuidIs(parameters[1..], expected)
  }

  /** `participant_data_has_guid`. */
  predicate ParticipantDataHasGuid(suite: Suite, data: OctetSeq, expected: Guid) {
    var parsed := suite.parseParameters(data);
    parsed.Some? && FirstGuidIs(parsed.value, expected)
  }

  /** `cert_matches_guid`, as the method of that name in `Guids` decides it. */
  ghost predicate CertificateHasGuid(certificate: Certificate, guid: Guid) {
    |certificate.subjectDigest| >= 6 && IsAdjustedPrefix(guid[..6], certificate.subjectDigest)
  }
}
