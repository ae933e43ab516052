/** The three octet strings that a handshake hashes or signs, and why they cannot
    be confused. */
module Transcript {
  import opened Octets
  import opened Xcdr

  /** What is hashed about one party. */
  datatype Credentials = Credentials(
    certificate: OctetSeq,
    permissions: OctetSeq,
    participantData: OctetSeq,
    signatureAlgorithm: CString,
    kemAlgorithm: CString)

  /** What one handshake is about, as both signatures bind it. */
  datatype Session = Session(
    hash1: OctetSeq,
    hash2: OctetSeq,
    challenge1: OctetSeq,
    challenge2: OctetSeq,
    publicKey: OctetSeq,
    ciphertext: OctetSeq)

  datatype Message =
    | CredentialHash(credentials: Credentials)
    | Reply(session: Session)
    | Final(session: Session)

  const C_ID: CString := "c.id"
  const C_PERM: CString := "c.perm"
  const C_PDATA: CString := "c.pdata"
  const C_DSIGN_ALGO: CString := "c.dsign_algo"
  const C_KAGREE_ALGO: CString := "c.kagree_algo"
  const HASH_C1: CString := "hash_c1"
  const HASH_C2: CString := "hash_c2"
  const CHALLENGE1: CString := "challenge1"
  const CHALLENGE2: CString := "challenge2"
  const KEM_PUBLIC: CString := "pqsec-dds.kem_public"
  const KEM_CIPHERTEXT: CString := "pqsec-dds.kem_ciphertext"
  const PROTOCOL_NAME: CString := "pqsec-dds.protocol"
  const PROTOCOL: CString := "pqsec-dds.auth:1.0"
  const ROLE_NAME: CString := "pqsec-dds.role"
  const CREDENTIAL_ROLE: CString := "credential-hash"
  const REPLY_ROLE: CString := "reply"
  const FINAL_ROLE: CString := "final"

  function Text(name: CString, value: CString): BinaryProperty {
    BinaryProperty(name, Terminated(value), true)
  }

  function Binary(name: CString, value: OctetSeq): BinaryProperty {
    BinaryProperty(name, value, true)
  }

  /** The domain separator in front of every list. */
  function Domain(role: CString): seq<BinaryProperty> {
    [Text(PROTOCOL_NAME, PROTOCOL), Text(ROLE_NAME, role)]
  }

  function RoleName(m: Message): CString {
    match m
    case CredentialHash(_) => CREDENTIAL_ROLE
    case Reply(_) => REPLY_ROLE
    case Final(_) => FINAL_ROLE
  }

  function Body(m: Message): seq<BinaryProperty> {
    match m
    case CredentialHash(c) => [
      Binary(C_ID, c.certificate),
      Binary(C_PERM, c.permissions),
      Binary(C_PDATA, c.participantData),
      Text(C_DSIGN_ALGO, c.signatureAlgorithm),
      Text(C_KAGREE_ALGO, c.kemAlgorithm)]
    case Reply(s) => [
      Binary(HASH_C2, s.hash2),
      Binary(CHALLENGE2, s.challenge2),
      Binary(KEM_CIPHERTEXT, s.ciphertext),
      Binary(CHALLENGE1, s.challenge1),
      Binary(KEM_PUBLIC, s.publicKey),
      Binary(HASH_C1, s.hash1)]
    case Final(s) => [
      Binary(HASH_C1, s.hash1),
      Binary(CHALLENGE1, s.challenge1),
      Binary(KEM_PUBLIC, s.publicKey),
      Binary(CHALLENGE2, s.challenge2),
      Binary(KEM_CIPHERTEXT, s.ciphertext),
      Binary(HASH_C2, s.hash2)]
  }

  function Properties(m: Message): (ps: seq<BinaryProperty>)
    ensures 7 <= |ps| <= 8 && AllPropagate(ps)
  {
    Domain(RoleName(m)) + Body(m)
  }

  /** The octets handed to the hash and to the signature. */
  function Encode(m: Message): seq<byte> {
    Serialize(Properties(m))
  }

  lemma TerminatedInjective(s: CString, t: CString)
    requires Terminated(s) == Terminated(t)
    ensures s == t
  {
    StringValueOfTerminated(s);
    StringValueOfTerminated(t);
  }

  lemma BodyInjective(m: Message, n: Message)
    requires RoleName(m) == RoleName(n) && Body(m) == Body(n)
    ensures m == n
  {
    var b := Body(m);
    assert forall i :: 0 <= i < |b| ==> b[i].value == Body(n)[i].value;
    match m
    case CredentialHash(c) =>
      var d := n.credentials;
      assert b[0].value == d.certificate && b[1].value == d.permissions && b[2].value == d.participantData;
      TerminatedInjective(c.signatureAlgorithm, d.signatureAlgorithm);
      TerminatedInjective(c.kemAlgorithm, d.kemAlgorithm);
    case Reply(s) =>
      var t := n.session;
      assert b[0].value == t.hash2 && b[1].value == t.challenge2 && b[2].value == t.ciphertext;
      assert b[3].value == t.challenge1 && b[4].value == t.publicKey && b[5].value == t.hash1;
    case Final(s) =>
      var t := n.session;
      assert b[0].value == t.hash1 && b[1].value == t.challenge1 && b[2].value == t.publicKey;
      assert b[3].value == t.challenge2 && b[4].value == t.ciphertext && b[5].value == t.hash2;
  }

  /** Equal octets come from the same kind of message with the same arguments:
      each encoding is injective in all of them, and no reply transcript is a
      final transcript or the input of a credential hash. */
  lemma EncodeInjective(m: Message, n: Message)
    requires Encode(m) == Encode(n)
    ensures m == n
  {
    var ps, qs := Properties(m), Properties(n);
    SerializeInjective(ps, qs);
    assert ps[1] == Text(ROLE_NAME, RoleName(m)) && qs[1] == Text(ROLE_NAME, RoleName(n));
    TerminatedInjective(RoleName(m), RoleName(n));
    assert ps[2..] == Body(m) && qs[2..] == Body(n);
    BodyInjective(m, n);
  }

  // ------------------------------------------------------- building the lists

  /** A `DDS::BinaryPropertySeq` under construction. */
  class PropertyList {
    var elements: seq<BinaryProperty>

    constructor ()
      ensures elements == []
    {
      elements := [];
    }

    method Append(name: CString, value: OctetSeq)
      modifies this
      ensures elements == old(elements) + [Binary(name, value)]
    {
      elements := elements + [BinaryProperty(name, value, true)];
    }

    method AppendText(name: CString, value: CString)
      modifies this
      ensures elements == old(elements) + [Text(name, value)]
    {
      Append(name, Terminated(value));
    }

    method AppendDomain(role: CString)
      modifies this
      ensures elements == old(elements) + Domain(role)
    {
      AppendText(PROTOCOL_NAME, PROTOCOL);
      AppendText(ROLE_NAME, role);
    }
  }

  method CredentialProperties(c: Credentials) returns (result: PropertyList)
    ensures fresh(result) && result.elements == Properties(CredentialHash(c))
  {
    result := new PropertyList();
    result.AppendDomain(CREDENTIAL_ROLE);
    result.Append(C_ID, c.certificate);
    result.Append(C_PERM, c.permissions);
    result.Append(C_PDATA, c.participantData);
    result.AppendText(C_DSIGN_ALGO, c.signatureAlgorithm);
    result.AppendText(C_KAGREE_ALGO, c.kemAlgorithm);
  }

  method ReplyTranscript(s: Session) returns (result: PropertyList)
    ensures fresh(result) && result.elements == Properties(Reply(s))
  {
    result := new PropertyList();
    result.AppendDomain(REPLY_ROLE);
    result.Append(HASH_C2, s.hash2);
    result.Append(CHALLENGE2, s.challenge2);
    result.Append(KEM_CIPHERTEXT, s.ciphertext);
    result.Append(CHALLENGE1, s.challenge1);
    result.Append(KEM_PUBLIC, s.publicKey);
    result.Append(HASH_C1, s.hash1);
  }

  method FinalTranscript(s: Session) returns (result: PropertyList)
    ensures fresh(result) && result.elements == Properties(Final(s))
  {
    result := new PropertyList();
    result.AppendDomain(FINAL_ROLE);
    result.Append(HASH_C1, s.hash1);
    result.Append(CHALLENGE1, s.challenge1);
    result.Append(KEM_PUBLIC, s.publicKey);
    result.Append(CHALLENGE2, s.challenge2);
    result.Append(KEM_CIPHERTEXT, s.ciphertext);
    result.Append(HASH_C2, s.hash2);
  }
}
