/** The first exchange of two CycloneDDS participants: what each builds, the other
    accepts, for either setting of the optional properties. */
module PqRun {
  import opened Octets
  import opened Transcript
  import opened Algorithms
  import opened PqHandshake
  import P = Protocol

  // -------------------------------------------------- reading back what was written

  lemma NamesDistinct()
    ensures |C_ID| == 4 && |C_PERM| == 6 && |C_PDATA| == 7 && |C_DSIGN_ALGO| == 12 && |C_KAGREE_ALGO| == 13
    ensures |KEM_PUBLIC| == 20 && |KEM_CIPHERTEXT| == 24 && |P.SIGNATURE| == 9 && |HASH_C1| == |HASH_C2| == 7
    ensures |CHALLENGE1| == |CHALLENGE2| == 10 && CHALLENGE1 != CHALLENGE2
    ensures HASH_C1 != HASH_C2 && C_PDATA != HASH_C1 && C_PDATA != HASH_C2
  {
    assert CHALLENGE1[9] == '1' && CHALLENGE2[9] == '2';
    assert HASH_C1[6] == '1' && HASH_C2[6] == '2' && C_PDATA[0] == 'c' && HASH_C1[0] == HASH_C2[0] == 'h';
  }

  lemma {:induction false} FindAt(ps: seq<Property>, name: CString, i: nat)
    requires i < |ps| && ps[i].name == name && forall j :: 0 <= j < i ==> ps[j].name != name
    ensures Find(ps, name) == Some(ps[i].value)
  {
    if i > 0 {
      FindAt(ps[1..], name, i - 1);
    }
  }

  lemma {:induction false} FindAbsent(ps: seq<Property>, name: CString)
    requires forall j :: 0 <= j < |ps| ==> ps[j].name != name
    ensures Find(ps, name) == None
  {
    if ps != [] {
      FindAbsent(ps[1..], name);
    }
  }

  /** Five properties with the names of credentials. */
  predicate AreCredentials(ps: seq<Property>) {
    |ps| == 5 && ps[0].name == C_ID && ps[1].name == C_PERM && ps[2].name == C_PDATA && ps[3].name == C_DSIGN_ALGO &&
    ps[4].name == C_KAGREE_ALGO
  }

  lemma CredentialsReadBack(token: Token, credentials: seq<Property>)
    requires AreCredentials(credentials) && credentials <= token.properties
    ensures Find(token.properties, C_ID) == Some(credentials[0].value)
    ensures Find(token.properties, C_PERM) == Some(credentials[1].value)
    ensures Find(token.properties, C_PDATA) == Some(credentials[2].value)
    ensures Find(token.properties, C_DSIGN_ALGO) == Some(credentials[3].value)
    ensures Find(token.properties, C_KAGREE_ALGO) == Some(credentials[4].value)
    ensures TokenCredentials(token) == credentials
  {
    NamesDistinct();
    FindAt(token.properties, C_ID, 0);
    FindAt(token.properties, C_PERM, 1);
    FindAt(token.properties, C_PDATA, 2);
    FindAt(token.properties, C_DSIGN_ALGO, 3);
    FindAt(token.properties, C_KAGREE_ALGO, 4);
  }

  /** A request holds seven properties, or eight, and each can be found again. */
  lemma RequestReadBack(config: Config, credentials: seq<Property>, hash1: Hash, publicKey: OctetSeq, challenge1: Nonce)
    requires AreCredentials(credentials)
    ensures var t := RequestMessage(config, credentials, hash1, publicKey, challenge1);
            && t.classId == P.REQUEST_CLASS_ID
            && |t.properties| == (if config.includeOptional then 8 else 7) && credentials <= t.properties
            && Find(t.properties, KEM_PUBLIC) == Some(publicKey) && Find(t.properties, CHALLENGE1) == Some(challenge1)
            && Find(t.properties, HASH_C1) == (if config.includeOptional then Some(hash1) else None)
  {
    NamesDistinct();
    var ps := RequestMessage(config, credentials, hash1, publicKey, challenge1).properties;
    if config.includeOptional {
      FindAt(ps, HASH_C1, 5);
      FindAt(ps, KEM_PUBLIC, 6);
      FindAt(ps, CHALLENGE1, 7);
    } else {
      FindAbsent(ps, HASH_C1);
      FindAt(ps, KEM_PUBLIC, 5);
      FindAt(ps, CHALLENGE1, 6);
    }
  }

  lemma ReplyMaterialReadBack(config: Config, credentials: seq<Property>, hash1: Hash, hash2: Hash, publicKey: OctetSeq,
                              ciphertext: OctetSeq, challenge1: Nonce, challenge2: Nonce, signature: OctetSeq)
    requires AreCredentials(credentials)
    ensures var t := ReplyMessage(config, credentials, hash1, hash2, publicKey, ciphertext, challenge1, challenge2, signature);
            && t.classId == P.REPLY_CLASS_ID
            && |t.properties| == (if config.includeOptional then 12 else 10) && credentials <= t.properties
            && Find(t.properties, KEM_PUBLIC) == Some(publicKey) && Find(t.properties, KEM_CIPHERTEXT) == Some(ciphertext)
            && Find(t.properties, CHALLENGE1) == Some(challenge1) && Find(t.properties, CHALLENGE2) == Some(challenge2)
  {
    NamesDistinct();
    var ps := ReplyMessage(config, credentials, hash1, hash2, publicKey, ciphertext, challenge1, challenge2, signature).properties;
    FindAt(ps, KEM_CIPHERTEXT, 5);
    FindAt(ps, KEM_PUBLIC, 6);
    FindAt(ps, CHALLENGE1, 7);
    FindAt(ps, CHALLENGE2, 8);
  }

  /** A reply holds ten properties, or twelve, and each can be found again. */
  lemma ReplyReadBack(config: Config, credentials: seq<Property>, hash1: Hash, hash2: Hash, publicKey: OctetSeq,
                      ciphertext: OctetSeq, challenge1: Nonce, challenge2: Nonce, signature: OctetSeq)
    requires AreCredentials(credentials)
    ensures var t := ReplyMessage(config, credentials, hash1, hash2, publicKey, ciphertext, challenge1, challenge2, signature);
            && t.classId == P.REPLY_CLASS_ID
            && |t.properties| == (if config.includeOptional then 12 else 10) && credentials <= t.properties
            && Find(t.properties, KEM_PUBLIC) == Some(publicKey) && Find(t.properties, KEM_CIPHERTEXT) == Some(ciphertext)
            && Find(t.properties, CHALLENGE1) == Some(challenge1) && Find(t.properties, CHALLENGE2) == Some(challenge2)
            && Find(t.properties, HASH_C1) == (if config.includeOptional then Some(hash1) else None)
            && Find(t.properties, HASH_C2) == (if config.includeOptional then Some(hash2) else None)
            && Find(t.properties, P.SIGNATURE) == Some(signature)
  {
    ReplyMaterialReadBack(config, credentials, hash1, hash2, publicKey, ciphertext, challenge1, challenge2, signature);
    NamesDistinct();
    var ps := ReplyMessage(config, credentials, hash1, hash2, publicKey, ciphertext, challenge1, challenge2, signature).properties;
    if config.includeOptional {
      FindAt(ps, HASH_C2, 9);
      FindAt(ps, HASH_C1, 10);
      FindAt(ps, P.SIGNATURE, 11);
    } else {
      FindAbsent(ps, HASH_C2);
      FindAbsent(ps, HASH_C1);
      FindAt(ps, P.SIGNATURE, 9);
    }
  }

  /** A final message holds five properties, or seven, and each can be found again. */
  lemma FinalReadBack(config: Config, hash1: Hash, hash2: Hash, publicKey: OctetSeq, ciphertext: OctetSeq, challenge1: Nonce,
                      challenge2: Nonce, signature: OctetSeq)
    ensures var t := FinalMessage(config, hash1, hash2, publicKey, ciphertext, challenge1, challenge2, signature);
            && t.classId == P.FINAL_CLASS_ID
            && |t.properties| == (if config.includeOptional then 7 else 5)
            && Find(t.properties, KEM_PUBLIC) == Some(publicKey) && Find(t.properties, KEM_CIPHERTEXT) == Some(ciphertext)
            && Find(t.properties, CHALLENGE1) == Some(challenge1) && Find(t.properties, CHALLENGE2) == Some(challenge2)
            && Find(t.properties, HASH_C1) == (if config.includeOptional then Some(hash1) else None)
            && Find(t.properties, HASH_C2) == (if config.includeOptional then Some(hash2) else None)
            && Find(t.properties, P.SIGNATURE) == Some(signature)
  {
    NamesDistinct();
    var ps := FinalMessage(config, hash1, hash2, publicKey, ciphertext, challenge1, challenge2, signature).properties;
    FindAt(ps, CHALLENGE1, 0);
    FindAt(ps, CHALLENGE2, 1);
    if config.includeOptional {
      FindAt(ps, HASH_C2, 2);
      FindAt(ps, HASH_C1, 3);
      FindAt(ps, KEM_PUBLIC, 4);
      FindAt(ps, KEM_CIPHERTEXT, 5);
      FindAt(ps, P.SIGNATURE, 6);
    } else {
      FindAbsent(ps, HASH_C2);
      FindAbsent(ps, HASH_C1);
      FindAt(ps, KEM_PUBLIC, 2);
      FindAt(ps, KEM_CIPHERTEXT, 3);
      FindAt(ps, P.SIGNATURE, 4);
    }
  }

  // ------------------------------------------------------------ what is signed

  /** A reply signature never passes for a final one, and either content determines
      the challenges and the KEM material; with the optional properties also both hashes. */
  lemma ContentsSeparate(config: Config, h1: Hash, h2: Hash, c1: Nonce, c2: Nonce, pk: OctetSeq, ct: OctetSeq,
                         h1': Hash, h2': Hash, c1': Nonce, c2': Nonce, pk': OctetSeq, ct': OctetSeq)
    ensures ReplyContent(config, h1, h2, c1, c2, pk, ct) != FinalContent(config, h1', h2', c1', c2', pk', ct')
    ensures ReplyContent(config, h1, h2, c1, c2, pk, ct) == ReplyContent(config, h1', h2', c1', c2', pk', ct') <==>
            (c1, c2, pk, ct) == (c1', c2', pk', ct') && (config.includeOptional ==> (h1, h2) == (h1', h2'))
    ensures FinalContent(config, h1, h2, c1, c2, pk, ct) == FinalContent(config, h1', h2', c1', c2', pk', ct') <==>
            (c1, c2, pk, ct) == (c1', c2', pk', ct') && (config.includeOptional ==> (h1, h2) == (h1', h2'))
  {
    NamesDistinct();
    var r, r' := ReplyContent(config, h1, h2, c1, c2, pk, ct), ReplyContent(config, h1', h2', c1', c2', pk', ct');
    var f, f' := FinalContent(config, h1, h2, c1, c2, pk, ct), FinalContent(config, h1', h2', c1', c2', pk', ct');
    assert r[0].name != f'[0].name;
    if config.includeOptional {
      assert r == r' ==> r[0].value == r'[0].value && r[1].value == r'[1].value && r[2].value == r'[2].value
                         && r[3].value == r'[3].value && r[4].value == r'[4].value && r[5].value == r'[5].value;
      assert f == f' ==> f[0].value == f'[0].value && f[1].value == f'[1].value && f[2].value == f'[2].value
                         && f[3].value == f'[3].value && f[4].value == f'[4].value && f[5].value == f'[5].value;
    } else {
      assert r == r' ==> r[0].value == r'[0].value && r[1].value == r'[1].value && r[2].value == r'[2].value
                         && r[3].value == r'[3].value;
      assert f == f' ==> f[0].value == f'[0].value && f[1].value == f'[1].value && f[2].value == f'[2].value
                         && f[3].value == f'[3].value;
    }
  }

  // --------------------------------------------------------- honest participants

  lemma WireTextNames(config: Config, text: CString)
    ensures Names(WireText(config, text), text) && |text| <= |WireText(config, text)| <= |text| + 1
  {
  }

  /** A text on the wire reads back, with or without its terminating NUL. */
  lemma TextOfWireText(config: Config, text: CString)
    ensures TextOf(WireText(config, text)) == text
  {
    var b := Unterminated(text);
    assert Terminated(text) == b + [0];
    UpToNulOfPrefix(b, b, false);
    UpToNulOfPrefix(b, Terminated(text), true);
    assert Characters(b) == text;
  }

  lemma WireNameSize(kind: Kind)
    ensures Supported(KEM_ALGORITHMS, kind) ==> 1 <= |WireName(KEM_ALGORITHMS, kind)| <= 20
    ensures Supported(SIGNATURE_ALGORITHMS, kind) ==> 1 <= |WireName(SIGNATURE_ALGORITHMS, kind)| <= 20
  {
    hide RowOf;
    var row, s := RowOf(KEM_ALGORITHMS, kind), RowOf(SIGNATURE_ALGORITHMS, kind);
    if row.Some? {
      var i :| 0 <= i < |KEM_ALGORITHMS| && KEM_ALGORITHMS[i] == row.value;
      KemNameLengths(i);
    }
    if s.Some? {
      var j :| 0 <= j < |SIGNATURE_ALGORITHMS| && SIGNATURE_ALGORITHMS[j] == s.value;
      assert |SIGNATURE_ALGORITHMS[j].wireName| == [17, 12, 9, 9, 9][j];
    }
  }

  /** A participant whose credentials another one can check: its certificate survives
      the PEM form, chains to an authority of the other and is current, its key is
      for a known algorithm, its participant data carries its adjusted GUID, and no
      property is too long for the receiver. */
  ghost predicate Genuine(lib: Library, config: Config, l: Local, pdata: OctetSeq, other: Local, trusted: seq<Authority>, now: int) {
    var contents := lib.pem(l.certificate);
    && contents.Some? && contents.value != [] && |contents.value| <= INT_MAX
    && LoadCertificate(lib, contents.value, other, trusted, now) == Some(l.certificate)
    && Supported(SIGNATURE_ALGORITHMS, l.certificate.kind) && l.certificate.kind != Unknown
    && |pdata| <= INT_MAX && DataMatches(lib, pdata, l.certificate)
    && |WireText(config, l.permissions)| <= INT_MAX
  }

  /** What a participant knows of another once it has taken its credentials. */
  function Learned(config: Config, r: Remote, l: Local, pdata: OctetSeq): Remote {
    r.(certificate := Some(l.certificate), dsign := l.certificate.kind, kagree := config.kem, pdata := pdata,
       permissions := if WireText(config, l.permissions) == [] then r.permissions else l.permissions)
  }

  function TakenView(lib: Library, config: Config, l: Local, pdata: OctetSeq, kind: TokenType, credentials: seq<Property>, v: View): View {
    var hash := lib.hash(credentials);
    v.(remote := v.remote.(certificate := Some(l.certificate),
                           permissions := Learned(config, v.remote, l, pdata).permissions),
       handshake := if kind.RequestToken? then v.handshake.(hash1 := hash) else v.handshake.(hash2 := hash))
  }

  /** The name written for a kind is a proper property and reads as that kind. */
  lemma SignatureNameReads(config: Config, kind: Kind)
    requires Supported(SIGNATURE_ALGORITHMS, kind) && kind != Unknown
    ensures var text := WireText(config, WireName(SIGNATURE_ALGORITHMS, kind));
            text != [] && |text| <= INT_MAX && WireKind(SIGNATURE_ALGORITHMS, text) == kind
  {
    hide RowOf, WireKind, WireText, Names, WireName;
    WireTextNames(config, WireName(SIGNATURE_ALGORITHMS, kind));
    WireNameSize(kind);
    TablesCodec(kind, WireText(config, WireName(SIGNATURE_ALGORITHMS, kind)));
  }

  lemma KemNameReads(config: Config, kind: Kind)
    requires Supported(KEM_ALGORITHMS, kind) && kind != Unknown
    ensures var text := WireText(config, WireName(KEM_ALGORITHMS, kind));
            text != [] && |text| <= INT_MAX && WireKind(KEM_ALGORITHMS, text) == kind
  {
    hide RowOf, WireKind, WireText, Names, WireName;
    WireTextNames(config, WireName(KEM_ALGORITHMS, kind));
    WireNameSize(kind);
    TablesCodec(kind, WireText(config, WireName(KEM_ALGORITHMS, kind)));
  }

  lemma CredentialsAccepted(lib: Library, config: Config, l: Local, pdata: OctetSeq, other: Local, trusted: seq<Authority>,
                            now: int, kind: TokenType, token: Token, v: View)
    requires Genuine(lib, config, l, pdata, other, trusted, now)
    requires other.kagree == config.kem && Supported(KEM_ALGORITHMS, config.kem) && config.kem != Unknown
    requires OwnCredentials(config, l, lib.pem(l.certificate).value, pdata, config.kem) <= token.properties
    ensures var credentials := OwnCredentials(config, l, lib.pem(l.certificate).value, pdata, config.kem);
            && TakeCredentials(lib, other, trusted, now, kind, token, v) ==
               (true, TakenView(lib, config, l, pdata, kind, credentials, v))
            && WireKind(SIGNATURE_ALGORITHMS, ValueIn(token, C_DSIGN_ALGO)) == l.certificate.kind
            && WireKind(KEM_ALGORITHMS, ValueIn(token, C_KAGREE_ALGO)) == config.kem
            && ValueIn(token, C_PDATA) == pdata
  {
    hide LoadCertificate, DataMatches, RowOf, WireKind, TextOf, WireText, Names, Find, WireName;
    var credentials := OwnCredentials(config, l, lib.pem(l.certificate).value, pdata, config.kem);
    CredentialsReadBack(token, credentials);
    TextOfWireText(config, l.permissions);
    SignatureNameReads(config, l.certificate.kind);
    KemNameReads(config, config.kem);
  }

  // -------------------------------------------------------------- the exchange

  /** Two participants, `a` who requests and `b` who replies, with what the
      libraries draw for them. */
  datatype Exchange = Exchange(
    a: Local,
    b: Local,
    trustedA: seq<Authority>,
    trustedB: seq<Authority>,
    pdataA: OctetSeq,
    pdataB: OctetSeq,
    nowA: int,
    nowB: int,
    key: KeyPair,
    coins: Coins,
    signA: Signer,
    signB: Signer)

  /** Signatures verify, and are neither empty nor too long for a token. */
  ghost predicate Signs(lib: Library, sign: Signer, certificate: Certificate) {
    forall content: seq<Property> ::
      sign(content).Some? && 0 < |sign(content).value| <= INT_MAX && lib.verify(certificate.key, content, sign(content).value)
  }

  /** The KEM works on the generated key, and its material has the sizes of the table. */
  ghost predicate KemWorks(lib: Library, kem: Kind, key: KeyPair, coins: Coins) {
    var sent := lib.encapsulate(kem, key.publicKey, coins);
    && |key.publicKey| == PublicKeySize(kem)
    && sent.Some? && |sent.value.0| == CiphertextSize(kem) && sent.value.1 != []
    && lib.decapsulate(kem, key, sent.value.0) == Some(sent.value.1)
  }

  ghost predicate Proper(lib: Library, config: Config, x: Exchange) {
    && x.a.kagree == config.kem && x.b.kagree == config.kem
    && Supported(KEM_ALGORITHMS, config.kem) && config.kem != Unknown
    && Genuine(lib, config, x.a, x.pdataA, x.b, x.trustedB, x.nowB)
    && Genuine(lib, config, x.b, x.pdataB, x.a, x.trustedA, x.nowA)
    && KemWorks(lib, config.kem, x.key, x.coins)
    && Signs(lib, x.signA, x.a.certificate) && Signs(lib, x.signB, x.b.certificate)
  }

  function CredentialsA(lib: Library, config: Config, x: Exchange): seq<Property>
    requires lib.pem(x.a.certificate).Some?
  {
    OwnCredentials(config, x.a, lib.pem(x.a.certificate).value, x.pdataA, config.kem)
  }

  function CredentialsB(lib: Library, config: Config, x: Exchange): seq<Property>
    requires lib.pem(x.b.certificate).Some?
  {
    OwnCredentials(config, x.b, lib.pem(x.b.certificate).value, x.pdataB, config.kem)
  }

  /** Nothing was announced, or what was announced is what is used now. */
  predicate Expects(r: Relation, challenge: Nonce) {
    r.rchallenge.None? || r.rchallenge.value == challenge
  }

  predicate NothingSentYet(h: Handshake) {
    h.ciphertext.None? || h.kemSecret.None?
  }

  lemma OwnCredentialsAre(config: Config, l: Local, contents: OctetSeq, pdata: OctetSeq, kagree: Kind)
    ensures AreCredentials(OwnCredentials(config, l, contents, pdata, kagree))
  {
    hide WireText, WireName;
  }

  /** KEM material of the table's sizes is neither empty nor too long. */
  lemma KemMaterialFits(lib: Library, config: Config, x: Exchange)
    requires Proper(lib, config, x)
    ensures lib.pem(x.a.certificate).Some? && lib.pem(x.b.certificate).Some?
    ensures HasKemSize(x.key.publicKey, config.kem, true) && |x.key.publicKey| <= INT_MAX
    ensures var sent := lib.encapsulate(config.kem, x.key.publicKey, x.coins);
            sent.Some? && HasKemSize(sent.value.0, config.kem, false) && |sent.value.0| <= INT_MAX
  {
    KemsHaveSizes(config.kem);
    KemSizesAreSmall(config.kem);
  }

  lemma RequestAccepted(lib: Library, config: Config, x: Exchange, challenge1: Nonce, v: View)
    requires Proper(lib, config, x) && lib.pem(x.a.certificate).Some?
    ensures var credentials := CredentialsA(lib, config, x);
            var hash1 := lib.hash(credentials);
            var token := RequestMessage(config, credentials, hash1, x.key.publicKey, challenge1);
            var (ok, v') := Validate(lib, config, x.b, x.trustedB, x.nowB, RequestToken, token, v);
            && (ok <==> Expects(v.relation, challenge1))
            && (ok ==> v' == View(v.relation.(rchallenge := Some(challenge1)), Learned(config, v.remote, x.a, x.pdataA),
                                  v.handshake.(hash1 := hash1)))
  {
    hide Genuine, DataMatches, RowOf, WireKind, WireText, Find, WireName, HasKemSize, OwnCredentials, Signs, KemWorks,
      RequestMessage, TakeCredentials, TokenCredentials, SignedContent;
    var credentials := CredentialsA(lib, config, x);
    var token := RequestMessage(config, credentials, lib.hash(credentials), x.key.publicKey, challenge1);
    OwnCredentialsAre(config, x.a, lib.pem(x.a.certificate).value, x.pdataA, config.kem);
    KemMaterialFits(lib, config, x);
    RequestReadBack(config, credentials, lib.hash(credentials), x.key.publicKey, challenge1);
    CredentialsAccepted(lib, config, x.a, x.pdataA, x.b, x.trustedB, x.nowB, RequestToken, token, v);
  }

  // ------------------------------------------------------------ the reply

  /** The ciphertext and the secret that the replier makes. */
  function SentIn(lib: Library, config: Config, x: Exchange): (OctetSeq, OctetSeq)
    requires lib.encapsulate(config.kem, x.key.publicKey, x.coins).Some?
  {
    lib.encapsulate(config.kem, x.key.publicKey, x.coins).value
  }

  /** The replier's objects after its reply. */
  ghost function RepliedView(lib: Library, config: Config, x: Exchange, challenge1: Nonce, v: View): View
    requires Proper(lib, config, x)
  {
    KemMaterialFits(lib, config, x);
    var sent := SentIn(lib, config, x);
    View(v.relation.(rchallenge := Some(challenge1)), Learned(config, v.remote, x.a, x.pdataA),
         v.handshake.(hash1 := lib.hash(CredentialsA(lib, config, x)), hash2 := lib.hash(CredentialsB(lib, config, x)),
                      ciphertext := Some(sent.0), kemSecret := Some(sent.1)))
  }

  ghost function ReplySignature(lib: Library, config: Config, x: Exchange, challenge1: Nonce, challenge2: Nonce): (s: OctetSeq)
    requires Proper(lib, config, x)
    ensures 0 < |s| <= INT_MAX
  {
    KemMaterialFits(lib, config, x);
    x.signB(ReplyContent(config, lib.hash(CredentialsA(lib, config, x)), lib.hash(CredentialsB(lib, config, x)), challenge1,
                         challenge2, x.key.publicKey, SentIn(lib, config, x).0)).value
  }

  ghost function HonestReply(lib: Library, config: Config, x: Exchange, challenge1: Nonce, challenge2: Nonce): Token
    requires Proper(lib, config, x)
  {
    KemMaterialFits(lib, config, x);
    var credentials := CredentialsB(lib, config, x);
    ReplyMessage(config, credentials, lib.hash(CredentialsA(lib, config, x)), lib.hash(credentials), x.key.publicKey,
                 SentIn(lib, config, x).0, challenge1, challenge2, ReplySignature(lib, config, x, challenge1, challenge2))
  }

  lemma ReplyStage(lib: Library, config: Config, x: Exchange, challenge1: Nonce, unset: OctetSeq, v: View)
    requires Proper(lib, config, x) && NothingSentYet(v.handshake) && lib.pem(x.a.certificate).Some?
    ensures var credentials := CredentialsA(lib, config, x);
            var token := RequestMessage(config, credentials, lib.hash(credentials), x.key.publicKey, challenge1);
            var o := AnswerRequest(lib, config, x.b, x.trustedB, x.nowB, token, x.pdataB, x.coins, unset, x.signB, v);
            && (Expects(v.relation, challenge1) ==>
                  o == Outcome(PendingMessage, Some(HonestReply(lib, config, x, challenge1, v.relation.lchallenge)),
                               RepliedView(lib, config, x, challenge1, v)))
            && (!Expects(v.relation, challenge1) ==> o.result == Failed)
  {
    hide Genuine, DataMatches, RowOf, WireKind, WireText, Find, WireName, HasKemSize, OwnCredentials, KemWorks, RequestMessage,
      ReplyMessage, Validate, ReplyContent, ReplySignature, Signs;
    var credentials := CredentialsA(lib, config, x);
    var hash1 := lib.hash(credentials);
    KemMaterialFits(lib, config, x);
    RequestReadBack(config, credentials, hash1, x.key.publicKey, challenge1) by {
      OwnCredentialsAre(config, x.a, lib.pem(x.a.certificate).value, x.pdataA, config.kem);
    }
    RequestAccepted(lib, config, x, challenge1, v);
    ReplySigned(lib, config, x, challenge1, v.relation.lchallenge);
  }

  lemma ReplySigned(lib: Library, config: Config, x: Exchange, challenge1: Nonce, challenge2: Nonce)
    requires Proper(lib, config, x)
    requires lib.pem(x.a.certificate).Some? && lib.pem(x.b.certificate).Some?
    requires lib.encapsulate(config.kem, x.key.publicKey, x.coins).Some?
    ensures var content := ReplyContent(config, lib.hash(CredentialsA(lib, config, x)), lib.hash(CredentialsB(lib, config, x)),
                                        challenge1, challenge2, x.key.publicKey, SentIn(lib, config, x).0);
            && x.signB(content) == Some(ReplySignature(lib, config, x, challenge1, challenge2))
            && lib.verify(x.b.certificate.key, content, ReplySignature(lib, config, x, challenge1, challenge2))
  {
    hide Genuine, KemWorks, ReplyContent, OwnCredentials;
  }

  // ------------------------------------------------------- the final message

  /** The initiator's handshake as its request leaves it. */
  predicate Requested(lib: Library, config: Config, x: Exchange, h: Handshake)
    requires lib.pem(x.a.certificate).Some?
  {
    h.keyPair == Some(x.key) && h.hash1 == lib.hash(CredentialsA(lib, config, x))
  }

  lemma ReplyAccepted(lib: Library, config: Config, x: Exchange, challenge2: Nonce, v: View)
    requires Proper(lib, config, x) && lib.pem(x.a.certificate).Some? && lib.pem(x.b.certificate).Some?
    requires Requested(lib, config, x, v.handshake)
    ensures var token := HonestReply(lib, config, x, v.relation.lchallenge, challenge2);
            var (ok, v') := Validate(lib, config, x.a, x.trustedA, x.nowA, ReplyToken, token, v);
            && (ok <==> Expects(v.relation, challenge2))
            && (ok ==> v' == View(v.relation.(rchallenge := Some(challenge2)), Learned(config, v.remote, x.b, x.pdataB),
                                  v.handshake.(hash2 := lib.hash(CredentialsB(lib, config, x)))))
  {
    hide Genuine, DataMatches, RowOf, WireKind, WireText, Find, WireName, HasKemSize, OwnCredentials, Signs, KemWorks,
      ReplyMessage, TakeCredentials, TokenCredentials, ReplyContent, ReplySignature;
    var challenge1 := v.relation.lchallenge;
    var credentials := CredentialsB(lib, config, x);
    var hash1, hash2 := lib.hash(CredentialsA(lib, config, x)), lib.hash(credentials);
    var token := HonestReply(lib, config, x, challenge1, challenge2);
    OwnCredentialsAre(config, x.b, lib.pem(x.b.certificate).value, x.pdataB, config.kem);
    KemMaterialFits(lib, config, x);
    ReplyReadBack(config, credentials, hash1, hash2, x.key.publicKey, SentIn(lib, config, x).0, challenge1, challenge2,
                  ReplySignature(lib, config, x, challenge1, challenge2));
    CredentialsAccepted(lib, config, x.b, x.pdataB, x.a, x.trustedA, x.nowA, ReplyToken, token, v);
    ReplySigned(lib, config, x, challenge1, challenge2);
  }

  ghost function FinalSignature(lib: Library, config: Config, x: Exchange, challenge1: Nonce, challenge2: Nonce): (s: OctetSeq)
    requires Proper(lib, config, x)
    ensures 0 < |s| <= INT_MAX
  {
    KemMaterialFits(lib, config, x);
    x.signA(FinalContent(config, lib.hash(CredentialsA(lib, config, x)), lib.hash(CredentialsB(lib, config, x)), challenge1,
                         challenge2, x.key.publicKey, SentIn(lib, config, x).0)).value
  }

  lemma FinalSigned(lib: Library, config: Config, x: Exchange, challenge1: Nonce, challenge2: Nonce)
    requires Proper(lib, config, x)
    requires lib.pem(x.a.certificate).Some? && lib.pem(x.b.certificate).Some?
    requires lib.encapsulate(config.kem, x.key.publicKey, x.coins).Some?
    ensures var content := FinalContent(config, lib.hash(CredentialsA(lib, config, x)), lib.hash(CredentialsB(lib, config, x)),
                                        challenge1, challenge2, x.key.publicKey, SentIn(lib, config, x).0);
            && x.signA(content) == Some(FinalSignature(lib, config, x, challenge1, challenge2))
            && lib.verify(x.a.certificate.key, content, FinalSignature(lib, config, x, challenge1, challenge2))
  {
    hide Genuine, KemWorks, FinalContent, OwnCredentials;
  }

  ghost function HonestFinal(lib: Library, config: Config, x: Exchange, challenge1: Nonce, challenge2: Nonce): Token
    requires Proper(lib, config, x)
  {
    KemMaterialFits(lib, config, x);
    FinalMessage(config, lib.hash(CredentialsA(lib, config, x)), lib.hash(CredentialsB(lib, config, x)), x.key.publicKey,
                 SentIn(lib, config, x).0, challenge1, challenge2, FinalSignature(lib, config, x, challenge1, challenge2))
  }

  /** The secret and the challenges that both sides hold in the end. */
  ghost function Agreed(lib: Library, config: Config, x: Exchange, challenge1: Nonce, challenge2: Nonce): SharedSecret
    requires Proper(lib, config, x)
  {
    KemMaterialFits(lib, config, x);
    SharedSecret(lib.digest(SentIn(lib, config, x).1), challenge1, challenge2)
  }

  lemma FinalStage(lib: Library, config: Config, x: Exchange, challenge2: Nonce, v: View)
    requires Proper(lib, config, x) && lib.pem(x.a.certificate).Some?
    requires Requested(lib, config, x, v.handshake)
    ensures var challenge1 := v.relation.lchallenge;
            var token := HonestReply(lib, config, x, challenge1, challenge2);
            var o := ProcessReply(lib, config, x.a, x.trustedA, x.nowA, token, true, x.signA, v);
            && (Expects(v.relation, challenge2) ==>
                  && o.result == OkFinal && o.message == Some(HonestFinal(lib, config, x, challenge1, challenge2))
                  && o.view.handshake.shared == Some(Agreed(lib, config, x, challenge1, challenge2))
                  && o.view.remote == Learned(config, v.remote, x.b, x.pdataB))
            && (!Expects(v.relation, challenge2) ==> o.result == Failed)
  {
    hide Genuine, RowOf, Find, HasKemSize, OwnCredentials, ReplyMessage, FinalMessage, Validate, ReplyContent, FinalContent,
      ReplySignature, FinalSignature, Signs;
    var challenge1 := v.relation.lchallenge;
    KemMaterialFits(lib, config, x);
    var credentials := CredentialsB(lib, config, x);
    ReplyReadBack(config, credentials, lib.hash(CredentialsA(lib, config, x)), lib.hash(credentials), x.key.publicKey,
                  SentIn(lib, config, x).0, challenge1, challenge2, ReplySignature(lib, config, x, challenge1, challenge2)) by {
      OwnCredentialsAre(config, x.b, lib.pem(x.b.certificate).value, x.pdataB, config.kem);
    }
    ReplyAccepted(lib, config, x, challenge2, v);
    FinalSigned(lib, config, x, challenge1, challenge2);
  }

  lemma LastStage(lib: Library, config: Config, x: Exchange, challenge1: Nonce, v: View)
    requires Proper(lib, config, x)
    ensures var challenge2 := v.relation.lchallenge;
            var token := HonestFinal(lib, config, x, challenge1, challenge2);
            var o := ProcessFinal(lib, config, x.b, x.trustedB, x.nowB, token, true, RepliedView(lib, config, x, challenge1, v));
            && o.result == Ok
            && o.view.handshake.shared == Some(Agreed(lib, config, x, challenge1, challenge2))
            && o.view.remote == Learned(config, v.remote, x.a, x.pdataA)
  {
    hide Genuine, RowOf, Find, HasKemSize, OwnCredentials, FinalMessage, FinalContent, FinalSignature, Signs, KemWorks, Learned;
    var challenge2 := v.relation.lchallenge;
    KemMaterialFits(lib, config, x);
    FinalReadBack(config, lib.hash(CredentialsA(lib, config, x)), lib.hash(CredentialsB(lib, config, x)), x.key.publicKey,
                  SentIn(lib, config, x).0, challenge1, challenge2, FinalSignature(lib, config, x, challenge1, challenge2));
    FinalSigned(lib, config, x, challenge1, challenge2);
    assert KemWorks(lib, config.kem, x.key, x.coins);
    SecretNotEmpty(lib, config, x);
    var w := RepliedView(lib, config, x, challenge1, v);
    assert w.remote.kagree == config.kem && w.remote.certificate == Some(x.a.certificate) by {
      LearnedRemote(config, v.remote, x.a, x.pdataA);
    }
  }

  lemma SecretNotEmpty(lib: Library, config: Config, x: Exchange)
    requires Proper(lib, config, x) && lib.encapsulate(config.kem, x.key.publicKey, x.coins).Some?
    ensures SentIn(lib, config, x).1 != []
  {
  }

  lemma LearnedRemote(config: Config, r: Remote, l: Local, pdata: OctetSeq)
    ensures var q := Learned(config, r, l, pdata); q.kagree == config.kem && q.certificate == Some(l.certificate)
  {
  }

  // ---------------------------------------------------------- the main theorem

  /** For all certificates, permissions, participant data and challenges, and for
      either setting of the optional properties: the request is built with seven or
      eight properties, the reply with ten or twelve, the final message with five or
      seven. The replier accepts the request exactly when the challenge in it is the
      one announced to it, if any was; then the initiator accepts the reply exactly
      under the same condition on its side; and then the replier accepts the final
      message. Both end with the same secret and the same two challenges in the same
      order, and each has learned the other's certificate, algorithms and
      participant data. */
  lemma FirstExchangeCompletes(lib: Library, config: Config, x: Exchange, va: View, vb: View, unset: OctetSeq)
    requires Proper(lib, config, x) && NothingSentYet(vb.handshake)
    ensures lib.pem(x.a.certificate).Some?
    ensures var challenge1, challenge2 := va.relation.lchallenge, vb.relation.lchallenge;
            var o1 := MakeRequest(lib, config, x.a, lib.pem(x.a.certificate).value, x.pdataA, Some(x.key), va);
            && o1.result == PendingMessage && o1.message.Some?
            && |o1.message.value.properties| == (if config.includeOptional then 8 else 7)
            && var o2 := AnswerRequest(lib, config, x.b, x.trustedB, x.nowB, o1.message.value, x.pdataB, x.coins, unset,
                                           x.signB, vb);
               && (o2.result == PendingMessage <==> Expects(vb.relation, challenge1))
               && (o2.result == PendingMessage ==>
                     && o2.message.Some?
                     && |o2.message.value.properties| == (if config.includeOptional then 12 else 10)
                     && var o3 := ProcessReply(lib, config, x.a, x.trustedA, x.nowA, o2.message.value, true, x.signA, o1.view);
                        && (o3.result == OkFinal <==> Expects(va.relation, challenge2))
                        && (o3.result == OkFinal ==>
                              && o3.message.Some?
                              && |o3.message.value.properties| == (if config.includeOptional then 7 else 5)
                              && var o4 := ProcessFinal(lib, config, x.b, x.trustedB, x.nowB, o3.message.value, true, o2.view);
                                 && o4.result == Ok
                                 && o3.view.handshake.shared.Some?
                                 && o3.view.handshake.shared == o4.view.handshake.shared
                                 && o3.view.handshake.shared.value.challenge1 == challenge1
                                 && o3.view.handshake.shared.value.challenge2 == challenge2
                                 && o3.view.remote == Learned(config, va.remote, x.b, x.pdataB)
                                 && o4.view.remote == Learned(config, vb.remote, x.a, x.pdataA)))
  {
    hide Genuine, RowOf, Find, OwnCredentials, FinalMessage, FinalContent, FinalSignature, Signs, KemWorks, Learned,
      RequestMessage, ReplyMessage, ReplySignature, ReplyContent, AnswerRequest, ProcessReply, ProcessFinal, Expects, Agreed;
    KemMaterialFits(lib, config, x);
    KeyHasSize(lib, config, x);
    var credentials := CredentialsA(lib, config, x);
    OwnCredentialsAre(config, x.a, lib.pem(x.a.certificate).value, x.pdataA, config.kem);
    OwnCredentialsAre(config, x.b, lib.pem(x.b.certificate).value, x.pdataB, config.kem);
    var challenge1, challenge2 := va.relation.lchallenge, vb.relation.lchallenge;
    var o1 := MakeRequest(lib, config, x.a, lib.pem(x.a.certificate).value, x.pdataA, Some(x.key), va);
    var hash1, hash2 := lib.hash(credentials), lib.hash(CredentialsB(lib, config, x));
    var ciphertext := SentIn(lib, config, x).0;
    RequestReadBack(config, credentials, hash1, x.key.publicKey, challenge1);
    ReplyStage(lib, config, x, challenge1, unset, vb);
    ReplyReadBack(config, CredentialsB(lib, config, x), hash1, hash2, x.key.publicKey, ciphertext, challenge1, challenge2,
                  ReplySignature(lib, config, x, challenge1, challenge2));
    FinalStage(lib, config, x, challenge2, o1.view);
    FinalReadBack(config, hash1, hash2, x.key.publicKey, ciphertext, challenge1, challenge2,
                  FinalSignature(lib, config, x, challenge1, challenge2));
    LastStage(lib, config, x, challenge1, vb);
    AgreedChallenges(lib, config, x, challenge1, challenge2);
  }

  lemma KeyHasSize(lib: Library, config: Config, x: Exchange)
    requires Proper(lib, config, x)
    ensures |x.key.publicKey| == PublicKeySize(x.a.kagree)
  {
  }

  lemma AgreedChallenges(lib: Library, config: Config, x: Exchange, challenge1: Nonce, challenge2: Nonce)
    requires Proper(lib, config, x)
    ensures var s := Agreed(lib, config, x, challenge1, challenge2); s.challenge1 == challenge1 && s.challenge2 == challenge2
  {
  }
}
