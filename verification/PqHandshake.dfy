/** The three handshake tokens of the CycloneDDS adapter in its post-quantum build,
    as values: what is written into them, and what the validator makes of any token. */
module PqHandshake {
  import opened Octets
  import opened Guids
  import opened Transcript
  import opened Algorithms
  import E = Environment
  import P = Protocol

  type Nonce = E.Nonce
  type Coins = E.Coins

  /** A SHA-256 digest. */
  type Hash = h: seq<byte> | |h| == 32 witness seq(32, _ => 0)

  const ZERO_HASH: Hash := [0, 0, 0, 0, 0, 0, 0, 0, 0, 0, 0, 0, 0, 0, 0, 0, 0, 0, 0, 0, 0, 0, 0, 0, 0, 0, 0, 0, 0, 0, 0, 0]
  const INT_MAX := 0x7fff_ffff
  const HASH_SIZE := 32
  const CHALLENGE_SIZE := 32

  // ------------------------------------------------------------------ tokens

  /** A binary property. Whether it propagates is never looked at. */
  datatype Property = Property(name: CString, value: OctetSeq)

  datatype Token = Token(classId: CString, properties: seq<Property>)

  datatype TokenType = RequestToken | ReplyToken | FinalToken

  function ClassId(kind: TokenType): CString {
    match kind
    case RequestToken => P.REQUEST_CLASS_ID
    case ReplyToken => P.REPLY_CLASS_ID
    case FinalToken => P.FINAL_CLASS_ID
  }

  function Find(properties: seq<Property>, name: CString): Option<OctetSeq> {
    if properties == [] then None
    else if properties[0].name == name then Some(properties[0].value)
    else Find(properties[1..], name)
  }

  /** `find_required_binprop`. */
  function Required(token: Token, name: CString): Option<OctetSeq> {
    var value := Find(token.properties, name);
    if value.Some? && |value.value| > INT_MAX then None else value
  }

  /** `find_required_nonempty_binprop`. */
  function RequiredNonempty(token: Token, name: CString): Option<OctetSeq> {
    var value := Required(token, name);
    if value.Some? && value.value == [] then None else value
  }

  /** `find_required_binprop_exactsize`. */
  function RequiredExact(token: Token, name: CString, size: nat): Option<OctetSeq> {
    var value := Required(token, name);
    if value.Some? && |value.value| != size then None else value
  }

  // --------------------------------------------------------------- libraries

  type Authority = OctetSeq
  type Crl = OctetSeq

  /** Its key, and the digest of the subject name if that can be derived. */
  datatype Certificate = Certificate(kind: Kind, key: E.PublicKey, subject: Option<Digest>)

  type Digest = d: seq<octet> | |d| == 32 witness seq(32, _ => 0)

  datatype KeyPair = KeyPair(publicKey: OctetSeq, secretKey: E.SecretKey)

  /** What the adapter obtains from OpenSSL and from CycloneDDS. */
  datatype Library = Library(
    pem: Certificate -> Option<OctetSeq>,
    parseCertificate: OctetSeq -> Option<Certificate>,
    issuedBy: (Certificate, Authority, Option<Crl>) -> bool,
    current: (Certificate, int) -> bool,
    sameFingerprint: (Authority, Authority) -> bool,
    participantKey: OctetSeq -> Option<Guid>,
    hash: seq<Property> -> Hash,
    digest: OctetSeq -> Hash,
    lowOfZero: Digest,               // of the all-zero GUID prefix
    verify: (E.PublicKey, seq<Property>, OctetSeq) -> bool,
    encapsulate: (Kind, OctetSeq, Coins) -> Option<(OctetSeq, OctetSeq)>,
    decapsulate: (Kind, KeyPair, OctetSeq) -> Option<OctetSeq>)

  /** How the plugin was built and configured; `terminated` says whether a text
      property carries its terminating NUL. */
  datatype Config = Config(includeOptional: bool, terminated: bool, kem: Kind)

  function WireText(config: Config, text: CString): OctetSeq {
    if config.terminated then Terminated(text) else Unterminated(text)
  }

  /** `string_from_data`, read as a C string. */
  function TextOf(data: OctetSeq): CString {
    var text := UpToNul(data);
    if |text| < 0xFFFF_FFFF then Characters(text) else ""
  }

  // --------------------------------------------------------------------- data

  datatype Local = Local(
    guid: Guid,
    certificate: Certificate,
    ca: Authority,
    crl: Option<Crl>,
    privateKey: E.SecretKey,
    kagree: Kind,
    pdata: OctetSeq,
    permissions: CString,
    timer: nat)

  datatype IdentityToken = IdentityToken(classId: CString, content: OctetSeq)

  datatype Remote = Remote(
    guid: Guid,
    identityToken: IdentityToken,
    certificate: Option<Certificate>,
    dsign: Kind,
    kagree: Kind,
    pdata: OctetSeq,
    permissions: CString,
    timer: nat)

  datatype Relation = Relation(lchallenge: Nonce, rchallenge: Option<Nonce>)

  datatype Created = CreatedRequest | CreatedReply

  datatype SharedSecret = SharedSecret(secret: Hash, challenge1: Nonce, challenge2: Nonce)

  datatype Handshake = Handshake(
    localHandle: int,
    remoteHandle: int,
    created: Created,
    hash1: Hash,
    hash2: Hash,
    keyPair: Option<KeyPair>,
    ciphertext: Option<OctetSeq>,
    kemSecret: Option<OctetSeq>,
    shared: Option<SharedSecret>)

  /** The objects a handshake token can change. */
  datatype View = View(relation: Relation, remote: Remote, handshake: Handshake)

  // ---------------------------------------------------------------- validator

  /** `verify_certificate`, against the own CA or any trusted one. */
  predicate Issued(lib: Library, certificate: Certificate, local: Local, trusted: seq<Authority>) {
    if trusted == [] then lib.issuedBy(certificate, local.ca, local.crl)
    else exists i :: 0 <= i < |trusted| && lib.issuedBy(certificate, trusted[i], None)
  }

  /** `load_X509_certificate_from_binprop`. */
  function LoadCertificate(lib: Library, data: OctetSeq, local: Local, trusted: seq<Authority>, now: int): Option<Certificate> {
    if local.crl.Some? && trusted != [] then None else
      var parsed := lib.parseCertificate(data);
      if parsed.None? || !Issued(lib, parsed.value, local, trusted) || !lib.current(parsed.value, now) then None else parsed
  }

  /** `validate_pdata`: the participant key starts with the adjusted GUID. */
  ghost predicate DataMatches(lib: Library, pdata: OctetSeq, certificate: Certificate) {
    var key := lib.participantKey(pdata);
    key.Some? && certificate.subject.Some? && IsAdjustedPrefix(key.value[..6], certificate.subject.value)
  }

  /** The participant data and the algorithms in a token fit a certificate and the local KEM. */
  ghost predicate FitsCertificate(lib: Library, local: Local, token: Token, certificate: Certificate) {
    var pdata := Required(token, C_PDATA);
    var dsign, kagree := RequiredNonempty(token, C_DSIGN_ALGO), RequiredNonempty(token, C_KAGREE_ALGO);
    && pdata.Some? && DataMatches(lib, pdata.value, certificate)
    && dsign.Some? && WireKind(SIGNATURE_ALGORITHMS, dsign.value) != Unknown
    && WireKind(SIGNATURE_ALGORITHMS, dsign.value) == certificate.kind
    && kagree.Some? && WireKind(KEM_ALGORITHMS, kagree.value) != Unknown
    && WireKind(KEM_ALGORITHMS, kagree.value) == local.kagree
  }

  /** The five credential properties, in the order in which they are hashed. */
  function TokenCredentials(token: Token): seq<Property> {
    [Property(C_ID, ValueIn(token, C_ID)), Property(C_PERM, ValueIn(token, C_PERM)), Property(C_PDATA, ValueIn(token, C_PDATA)),
     Property(C_DSIGN_ALGO, ValueIn(token, C_DSIGN_ALGO)), Property(C_KAGREE_ALGO, ValueIn(token, C_KAGREE_ALGO))]
  }

  function ValueIn(token: Token, name: CString): OctetSeq {
    var value := Find(token.properties, name);
    if value.Some? then value.value else []
  }

  /** The credentials of a request or a reply: the certificate is stored before the
      later checks, the permissions before the participant data is looked at. */
  ghost function TakeCredentials(lib: Library, local: Local, trusted: seq<Authority>, now: int, kind: TokenType, token: Token,
                                 v: View): (bool, View)
  {
    var id := RequiredNonempty(token, C_ID);
    var certificate := if id.None? then None else LoadCertificate(lib, id.value, local, trusted, now);
    if certificate.None? then (false, v) else
      var v1 := v.(remote := v.remote.(certificate := certificate));
      var permissions := Required(token, C_PERM);
      if permissions.None? then (false, v1) else
        var v2 := if permissions.value == [] then v1
                  else v1.(remote := v1.remote.(permissions := TextOf(permissions.value)));
        if !FitsCertificate(lib, local, token, certificate.value) then (false, v2) else
          var hash := lib.hash(TokenCredentials(token));
          (true, v2.(handshake := if kind.RequestToken? then v2.handshake.(hash1 := hash) else v2.handshake.(hash2 := hash)))
  }

  /** The KEM material, the challenges and the signature are there and have their sizes. */
  predicate MaterialPresent(token: Token, kind: TokenType, kagree: Kind) {
    var publicKey := RequiredNonempty(token, KEM_PUBLIC);
    && publicKey.Some? && HasKemSize(publicKey.value, kagree, true)
    && RequiredExact(token, CHALLENGE1, CHALLENGE_SIZE).Some?
    && (kind.RequestToken? ||
        var ciphertext := RequiredNonempty(token, KEM_CIPHERTEXT);
        && RequiredExact(token, CHALLENGE2, CHALLENGE_SIZE).Some?
        && ciphertext.Some? && HasKemSize(ciphertext.value, kagree, false)
        && RequiredNonempty(token, P.SIGNATURE).Some?)
  }

  function TokenChallenge(token: Token, name: CString): Nonce
    requires RequiredExact(token, name, CHALLENGE_SIZE).Some?
  {
    RequiredExact(token, name, CHALLENGE_SIZE).value
  }

  /** The peer's challenge must be the one it announced; the first one seen is kept. */
  function TakeChallenge(kind: TokenType, token: Token, v: View): (bool, View)
    requires RequiredExact(token, CHALLENGE1, CHALLENGE_SIZE).Some?
    requires kind.ReplyToken? ==> RequiredExact(token, CHALLENGE2, CHALLENGE_SIZE).Some?
  {
    var challenge := TokenChallenge(token, if kind.ReplyToken? then CHALLENGE2 else CHALLENGE1);
    if v.relation.rchallenge.Some? then (v.relation.rchallenge.value == challenge, v)
    else if kind.FinalToken? then (true, v)
    else (true, v.(relation := v.relation.(rchallenge := Some(challenge))))
  }

  /** Hashes that a token repeats, and the own challenge that it returns, are right. */
  predicate EchoesMatch(kind: TokenType, token: Token, v: View) {
    var hash1, hash2 := Find(token.properties, HASH_C1), Find(token.properties, HASH_C2);
    && (hash1.Some? ==> hash1.value == v.handshake.hash1)
    && (!kind.RequestToken? ==>
          && (hash2.Some? ==> hash2.value == v.handshake.hash2)
          && ValueIn(token, if kind.ReplyToken? then CHALLENGE1 else CHALLENGE2) == v.relation.lchallenge)
  }

  /** What the accepted credentials say about the remote participant. */
  function TakeIdentity(kind: TokenType, token: Token, v: View): View {
    if kind.FinalToken? then v else
      v.(remote := v.remote.(dsign := WireKind(SIGNATURE_ALGORITHMS, ValueIn(token, C_DSIGN_ALGO)),
                             kagree := WireKind(KEM_ALGORITHMS, ValueIn(token, C_KAGREE_ALGO)),
                             pdata := ValueIn(token, C_PDATA)))
  }

  // ------------------------------------------------------------ what is signed

  /** What a reply signature covers. */
  function ReplyContent(config: Config, hash1: OctetSeq, hash2: OctetSeq, challenge1: OctetSeq, challenge2: OctetSeq,
                        publicKey: OctetSeq, ciphertext: OctetSeq): seq<Property>
  {
    var content := [Property(CHALLENGE2, challenge2), Property(KEM_CIPHERTEXT, ciphertext), Property(CHALLENGE1, challenge1),
                    Property(KEM_PUBLIC, publicKey)];
    if config.includeOptional then [Property(HASH_C2, hash2)] + content + [Property(HASH_C1, hash1)] else content
  }

  /** What a final signature covers. */
  function FinalContent(config: Config, hash1: OctetSeq, hash2: OctetSeq, challenge1: OctetSeq, challenge2: OctetSeq,
                        publicKey: OctetSeq, ciphertext: OctetSeq): seq<Property>
  {
    var content := [Property(CHALLENGE1, challenge1), Property(KEM_PUBLIC, publicKey), Property(CHALLENGE2, challenge2),
                    Property(KEM_CIPHERTEXT, ciphertext)];
    if config.includeOptional then [Property(HASH_C1, hash1)] + content + [Property(HASH_C2, hash2)] else content
  }

  /** What the signature in a token must cover, from the handshake's hashes and the token. */
  function SignedContent(config: Config, kind: TokenType, token: Token, handshake: Handshake): seq<Property> {
    var challenge1, challenge2 := ValueIn(token, CHALLENGE1), ValueIn(token, CHALLENGE2);
    var publicKey, ciphertext := ValueIn(token, KEM_PUBLIC), ValueIn(token, KEM_CIPHERTEXT);
    if kind.ReplyToken? then
      ReplyContent(config, handshake.hash1, handshake.hash2, challenge1, challenge2, publicKey, ciphertext)
    else
      FinalContent(config, handshake.hash1, handshake.hash2, challenge1, challenge2, publicKey, ciphertext)
  }

  predicate SignatureMatches(lib: Library, config: Config, kind: TokenType, token: Token, v: View) {
    kind.RequestToken? ||
    (v.remote.certificate.Some? &&
     lib.verify(v.remote.certificate.value.key, SignedContent(config, kind, token, v.handshake), ValueIn(token, P.SIGNATURE)))
  }

  // ------------------------------------------------------- the whole validator

  /** The kind that KEM material must have: a final token names none, so the one
      that the remote participant's credentials named. */
  function MaterialKind(kind: TokenType, local: Local, remote: Remote): Kind {
    if kind.FinalToken? then remote.kagree else local.kagree
  }

  /** `validate_handshake_token_impl`, after the credentials of a request or a reply. */
  function ValidateMaterial(lib: Library, config: Config, local: Local, kind: TokenType, token: Token, v: View): (bool, View) {
    if !MaterialPresent(token, kind, MaterialKind(kind, local, v.remote)) then (false, v) else
      var (ok, v1) := TakeChallenge(kind, token, v);
      if !ok || !EchoesMatch(kind, token, v1) then (false, v1) else
        var v2 := TakeIdentity(kind, token, v1);
        (SignatureMatches(lib, config, kind, token, v2), v2)
  }

  /** `validate_handshake_token_impl`. */
  ghost function ValidateImpl(lib: Library, config: Config, local: Local, trusted: seq<Authority>, now: int, kind: TokenType,
                              token: Token, v: View): (bool, View)
  {
    if token.classId != ClassId(kind) then (false, v)
    else if kind.FinalToken? then ValidateMaterial(lib, config, local, kind, token, v)
    else
      var (ok, v1) := TakeCredentials(lib, local, trusted, now, kind, token, v);
      if !ok then (false, v1) else ValidateMaterial(lib, config, local, kind, token, v1)
  }

  function WithoutCertificate(v: View): View {
    v.(remote := v.remote.(certificate := None))
  }

  /** `validate_handshake_token`: a request or a reply that fails leaves no certificate. */
  ghost function Validate(lib: Library, config: Config, local: Local, trusted: seq<Authority>, now: int, kind: TokenType,
                          token: Token, v: View): (bool, View)
  {
    var (ok, v1) := ValidateImpl(lib, config, local, trusted, now, kind, token, v);
    if ok || kind.FinalToken? then (ok, v1) else (false, WithoutCertificate(v1))
  }

  // ----------------------------------------------------------------- builders

  /** The credential properties that a participant writes. */
  function OwnCredentials(config: Config, local: Local, contents: OctetSeq, pdata: OctetSeq, kagree: Kind): seq<Property> {
    [Property(C_ID, contents), Property(C_PERM, WireText(config, local.permissions)), Property(C_PDATA, pdata),
     Property(C_DSIGN_ALGO, WireText(config, WireName(SIGNATURE_ALGORITHMS, local.certificate.kind))),
     Property(C_KAGREE_ALGO, WireText(config, WireName(KEM_ALGORITHMS, kagree)))]
  }

  function RequestMessage(config: Config, credentials: seq<Property>, hash1: Hash, publicKey: OctetSeq, challenge1: Nonce): Token {
    Token(P.REQUEST_CLASS_ID,
          credentials
          + (if config.includeOptional then [Property(HASH_C1, hash1)] else [])
          + [Property(KEM_PUBLIC, publicKey), Property(CHALLENGE1, challenge1)])
  }

  function ReplyMessage(config: Config, credentials: seq<Property>, hash1: Hash, hash2: Hash, publicKey: OctetSeq,
                        ciphertext: OctetSeq, challenge1: Nonce, challenge2: Nonce, signature: OctetSeq): Token
  {
    Token(P.REPLY_CLASS_ID,
          credentials
          + [Property(KEM_CIPHERTEXT, ciphertext), Property(KEM_PUBLIC, publicKey), Property(CHALLENGE1, challenge1),
             Property(CHALLENGE2, challenge2)]
          + (if config.includeOptional then [Property(HASH_C2, hash2), Property(HASH_C1, hash1)] else [])
          + [Property(P.SIGNATURE, signature)])
  }

  function FinalMessage(config: Config, hash1: Hash, hash2: Hash, publicKey: OctetSeq, ciphertext: OctetSeq, challenge1: Nonce,
                        challenge2: Nonce, signature: OctetSeq): Token
  {
    Token(P.FINAL_CLASS_ID,
          [Property(CHALLENGE1, challenge1), Property(CHALLENGE2, challenge2)]
          + (if config.includeOptional then [Property(HASH_C2, hash2), Property(HASH_C1, hash1)] else [])
          + [Property(KEM_PUBLIC, publicKey), Property(KEM_CIPHERTEXT, ciphertext), Property(P.SIGNATURE, signature)])
  }

  // -------------------------------------------------- the calls on one handshake

  type Signer = seq<Property> -> Option<OctetSeq>

  datatype Result = Ok | Failed | PendingRequest | PendingMessage | OkFinal

  datatype Outcome = Outcome(result: Result, message: Option<Token>, view: View)

  /** `begin_handshake_request` on the handshake that it found or made; `key` is
      what key generation gives. */
  function MakeRequest(lib: Library, config: Config, local: Local, contents: OctetSeq, pdata: OctetSeq, key: Option<KeyPair>, v: View)
    : Outcome
  {
    var v1 := v.(handshake := v.handshake.(keyPair := key));
    if key.None? || |key.value.publicKey| != PublicKeySize(local.kagree) then Outcome(Failed, None, v1) else
      var credentials := OwnCredentials(config, local, contents, pdata, local.kagree);
      var hash1 := lib.hash(credentials);
      Outcome(PendingMessage,
              Some(RequestMessage(config, credentials, hash1, key.value.publicKey, v.relation.lchallenge)),
              v1.(handshake := v1.handshake.(hash1 := hash1)))
  }

  /** The KEM step of a reply: an existing ciphertext and secret are kept. */
  function EncapsulateOnce(lib: Library, v: View, publicKey: OctetSeq, coins: Coins): (bool, View) {
    if v.handshake.ciphertext.Some? && v.handshake.kemSecret.Some? then (true, v) else
      var sent := lib.encapsulate(v.remote.kagree, publicKey, coins);
      if sent.None? then (false, v.(handshake := v.handshake.(ciphertext := None, kemSecret := None)))
      else (true, v.(handshake := v.handshake.(ciphertext := Some(sent.value.0), kemSecret := Some(sent.value.1))))
  }

  /** `begin_handshake_reply` on the handshake that it found or made. The public key
      is taken from the request only if the handshake has no ciphertext yet; else
      the source leaves its pointer unset, and `unset` stands for whatever it holds. */
  ghost function AnswerRequest(lib: Library, config: Config, local: Local, trusted: seq<Authority>, now: int, token: Token,
                       pdata: OctetSeq, coins: Coins, unset: OctetSeq, sign: Signer, v: View): Outcome
  {
    var (valid, v1) := Validate(lib, config, local, trusted, now, RequestToken, token, v);
    var contents := lib.pem(local.certificate);
    if !valid || contents.None? || v1.relation.rchallenge.None? then Outcome(Failed, None, v1) else
      var publicKey := if v1.handshake.ciphertext.Some? && v1.handshake.kemSecret.Some? then unset else ValueIn(token, KEM_PUBLIC);
      var (sent, v2) := EncapsulateOnce(lib, v1, publicKey, coins);
      if !sent then Outcome(Failed, None, v2) else
        var credentials := OwnCredentials(config, local, contents.value, pdata, v2.remote.kagree);
        var hash2 := lib.hash(credentials);
        var v3 := v2.(handshake := v2.handshake.(hash2 := hash2));
        var challenge1, challenge2 := v3.relation.rchallenge.value, v3.relation.lchallenge;
        var ciphertext := v3.handshake.ciphertext.value;
        var signature := sign(ReplyContent(config, v3.handshake.hash1, hash2, challenge1, challenge2, publicKey, ciphertext));
        if signature.None? then Outcome(Failed, None, v3) else
          Outcome(PendingMessage,
                  Some(ReplyMessage(config, credentials, v3.handshake.hash1, hash2, publicKey, ciphertext, challenge1, challenge2,
                                    signature.value)),
                  v3)
  }

  /** `pqsec_kem_decapsulate` with the handshake's key pair. */
  function DecapsulateReply(lib: Library, local: Local, ciphertext: OctetSeq, v: View): (bool, View) {
    if v.handshake.keyPair.None? then (false, v) else
      var secret := lib.decapsulate(local.kagree, v.handshake.keyPair.value, ciphertext);
      (secret.Some?, v.(handshake := v.handshake.(kemSecret := secret)))
  }

  /** The end of `process_handshake`: the shared secret, then the peer's expiry. */
  function Conclude(lib: Library, v: View, challenge1: Nonce, challenge2: Nonce, expiryKnown: bool): (bool, View) {
    if v.handshake.kemSecret.None? || v.handshake.kemSecret.value == [] then (false, v)
    else if !expiryKnown then (false, v.(handshake := v.handshake.(shared := None)))
    else
      var shared := SharedSecret(lib.digest(v.handshake.kemSecret.value), challenge1, challenge2);
      (true, v.(handshake := v.handshake.(shared := Some(shared))))
  }

  /** `process_handshake` on a reply. */
  ghost function ProcessReply(lib: Library, config: Config, local: Local, trusted: seq<Authority>, now: int, token: Token,
                              expiryKnown: bool, sign: Signer, v: View): Outcome
  {
    var (valid, v1) := Validate(lib, config, local, trusted, now, ReplyToken, token, v);
    if !valid || v1.relation.rchallenge.None? then Outcome(Failed, None, v1) else
      var publicKey, ciphertext := ValueIn(token, KEM_PUBLIC), ValueIn(token, KEM_CIPHERTEXT);
      var (decapsulated, v2) := DecapsulateReply(lib, local, ciphertext, v1);
      if !decapsulated then Outcome(Failed, None, v2) else
        var challenge1, challenge2 := v2.relation.lchallenge, v2.relation.rchallenge.value;
        var hash1, hash2 := v2.handshake.hash1, v2.handshake.hash2;
        var signature := sign(FinalContent(config, hash1, hash2, challenge1, challenge2, publicKey, ciphertext));
        if signature.None? then Outcome(Failed, None, v2) else
          var (done, v3) := Conclude(lib, v2, challenge1, challenge2, expiryKnown);
          if !done then Outcome(Failed, None, v3) else
            Outcome(OkFinal,
                    Some(FinalMessage(config, hash1, hash2, publicKey, ciphertext, challenge1, challenge2, signature.value)), v3)
  }

  /** `process_handshake` on a final message. */
  ghost function ProcessFinal(lib: Library, config: Config, local: Local, trusted: seq<Authority>, now: int, token: Token,
                              expiryKnown: bool, v: View): Outcome
  {
    var (valid, v1) := Validate(lib, config, local, trusted, now, FinalToken, token, v);
    if !valid || v1.relation.rchallenge.None? then Outcome(Failed, None, v1) else
      var (done, v2) := Conclude(lib, v1, v1.relation.rchallenge.value, v1.relation.lchallenge, expiryKnown);
      Outcome(if done then Ok else Failed, None, v2)
  }
}
