/** When the calls of the CycloneDDS plugin accept a token, said in terms of its
    properties and of what the libraries answer. Everything else is refused. */
module PqAcceptance {
  import opened Octets
  import opened Guids
  import opened Transcript
  import opened Algorithms
  import opened PqHandshake
  import opened PqRun
  import P = Protocol

  // ------------------------------------------------------ genuine credentials

  /** A property that is there and not too long. */
  ghost predicate Given(token: Token, name: CString) {
    var value := Find(token.properties, name);
    value.Some? && |value.value| <= 0x7fff_ffff
  }

  ghost predicate GivenSize(token: Token, name: CString, size: nat) {
    size > 0 && Given(token, name) && |ValueIn(token, name)| == size
  }

  /** The certificate was issued by the own CA under the own CRL; or, if there is a
      list of trusted CAs, by one of these, and then there is no CRL. */
  ghost predicate ChainsTo(lib: Library, c: Certificate, l: Local, trusted: seq<Authority>) {
    if trusted == [] then lib.issuedBy(c, l.ca, l.crl)
    else l.crl == None && exists a :: a in trusted && lib.issuedBy(c, a, None)
  }

  /** The participant data is for a GUID that is adjusted for the certificate. */
  ghost predicate DataFits(lib: Library, pdata: OctetSeq, c: Certificate) {
    var key := lib.participantKey(pdata);
    && key.Some? && c.subject.Some?
    && NumberOf(key.value[..6]) == 0x8000_0000_0000 + NumberOf(c.subject.value[..6]) / 2
  }

  /** The octets are the wire name of a kind that the table supports. */
  ghost predicate NamesKind(table: Table, kind: Kind, octets: OctetSeq) {
    kind != Unknown && Supported(table, kind) && Names(octets, WireName(table, kind))
  }

  /** The certificate and the other credentials that a token presents. */
  ghost predicate Genuine(lib: Library, l: Local, trusted: seq<Authority>, now: int, token: Token, c: Certificate) {
    && Given(token, C_ID) && ValueIn(token, C_ID) != [] && lib.parseCertificate(ValueIn(token, C_ID)) == Some(c)
    && ChainsTo(lib, c, l, trusted) && lib.current(c, now)
    && Given(token, C_PERM)
    && Given(token, C_PDATA) && DataFits(lib, ValueIn(token, C_PDATA), c)
    && Given(token, C_DSIGN_ALGO) && NamesKind(SIGNATURE_ALGORITHMS, c.kind, ValueIn(token, C_DSIGN_ALGO))
    && Given(token, C_KAGREE_ALGO) && NamesKind(KEM_ALGORITHMS, l.kagree, ValueIn(token, C_KAGREE_ALGO))
  }

  lemma LoadsExactly(lib: Library, l: Local, trusted: seq<Authority>, now: int, data: OctetSeq, c: Certificate)
    ensures LoadCertificate(lib, data, l, trusted, now) == Some(c) <==>
            lib.parseCertificate(data) == Some(c) && ChainsTo(lib, c, l, trusted) && lib.current(c, now)
  {
    if a :| a in trusted && lib.issuedBy(c, a, None) {
      var i :| 0 <= i < |trusted| && trusted[i] == a;
    }
    if i :| 0 <= i < |trusted| && lib.issuedBy(c, trusted[i], None) {
      assert trusted[i] in trusted;
    }
  }

  /** Octets decode to a kind exactly if they name it. */
  lemma DecodesExactly(kind: Kind, octets: OctetSeq)
    requires kind != Unknown
    ensures WireKind(SIGNATURE_ALGORITHMS, octets) == kind <==> NamesKind(SIGNATURE_ALGORITHMS, kind, octets)
    ensures WireKind(KEM_ALGORITHMS, octets) == kind <==> NamesKind(KEM_ALGORITHMS, kind, octets)
    ensures NamesKind(SIGNATURE_ALGORITHMS, kind, octets) || NamesKind(KEM_ALGORITHMS, kind, octets) ==> octets != []
  {
    hide WireKind, RowOf, WireName;
    TablesCodec(kind, octets);
    WireNameSize(kind);
    if WireKind(SIGNATURE_ALGORITHMS, octets) == kind {
      var i := WireKindHasRow(SIGNATURE_ALGORITHMS, octets);
    }
    if WireKind(KEM_ALGORITHMS, octets) == kind {
      var i := WireKindHasRow(KEM_ALGORITHMS, octets);
    }
  }

  /** The validator takes exactly genuine credentials. */
  lemma CredentialsTakenExactly(lib: Library, l: Local, trusted: seq<Authority>, now: int, kind: TokenType, token: Token, v: View)
    ensures var (ok, w) := TakeCredentials(lib, l, trusted, now, kind, token, v);
            && (ok <==> exists c :: Genuine(lib, l, trusted, now, token, c))
            && (ok ==>
                  && w.remote.certificate.Some? && Genuine(lib, l, trusted, now, token, w.remote.certificate.value)
                  && w.relation == v.relation
                  && w.remote == v.remote.(certificate := w.remote.certificate, permissions := w.remote.permissions)
                  && w.handshake == (if kind.RequestToken? then v.handshake.(hash1 := lib.hash(TokenCredentials(token)))
                                     else v.handshake.(hash2 := lib.hash(TokenCredentials(token)))))
  {
    hide LoadCertificate, ChainsTo, WireKind, NamesKind, Find, NumberOf, TokenCredentials, TextOf;
    var (ok, w) := TakeCredentials(lib, l, trusted, now, kind, token, v);
    if ok {
      var c := w.remote.certificate.value;
      LoadsExactly(lib, l, trusted, now, ValueIn(token, C_ID), c);
      DecodesExactly(c.kind, ValueIn(token, C_DSIGN_ALGO));
      DecodesExactly(l.kagree, ValueIn(token, C_KAGREE_ALGO));
      assert Genuine(lib, l, trusted, now, token, c);
    }
    if c :| Genuine(lib, l, trusted, now, token, c) {
      GenuineIsTaken(lib, l, trusted, now, kind, token, v, c);
    }
  }

  lemma GenuineIsTaken(lib: Library, l: Local, trusted: seq<Authority>, now: int, kind: TokenType, token: Token, v: View, c: Certificate)
    requires Genuine(lib, l, trusted, now, token, c)
    ensures TakeCredentials(lib, l, trusted, now, kind, token, v).0
  {
    hide LoadCertificate, ChainsTo, WireKind, Find, NumberOf, TokenCredentials, TextOf, RowOf, WireName;
    LoadsExactly(lib, l, trusted, now, ValueIn(token, C_ID), c);
    DecodesExactly(c.kind, ValueIn(token, C_DSIGN_ALGO));
    DecodesExactly(l.kagree, ValueIn(token, C_KAGREE_ALGO));
  }

  // ------------------------------------------------------------------- tokens

  /** The KEM material, challenges and signature that every token of a kind has. */
  ghost predicate MaterialFits(token: Token, kind: TokenType, kem: Kind) {
    && GivenSize(token, KEM_PUBLIC, PublicKeySize(kem)) && GivenSize(token, CHALLENGE1, 32)
    && (kind != RequestToken ==>
          && GivenSize(token, KEM_CIPHERTEXT, CiphertextSize(kem)) && GivenSize(token, CHALLENGE2, 32)
          && Given(token, P.SIGNATURE) && ValueIn(token, P.SIGNATURE) != [])
  }

  /** A property that a token need not carry, but carries with no other value. */
  ghost predicate Repeats(token: Token, name: CString, value: OctetSeq) {
    var given := Find(token.properties, name);
    given.Some? ==> given.value == value
  }

  /** The challenge is the one that was announced, if any was. */
  ghost predicate Expected(r: Relation, challenge: OctetSeq) {
    r.rchallenge.Some? ==> r.rchallenge.value == challenge
  }

  /** A request to accept, with the certificate that it presents. */
  ghost predicate GenuineRequest(lib: Library, l: Local, trusted: seq<Authority>, now: int, token: Token, v: View, c: Certificate) {
    && token.classId == P.REQUEST_CLASS_ID
    && Genuine(lib, l, trusted, now, token, c) && MaterialFits(token, RequestToken, l.kagree)
    && Expected(v.relation, ValueIn(token, CHALLENGE1))
    && Repeats(token, HASH_C1, lib.hash(TokenCredentials(token)))
  }

  /** A reply to accept: it returns the own challenge, and its signature verifies under
      the certificate that it presents over the hashes of both sides' credentials, if
      these are signed, and over the challenges and the KEM material in it. */
  ghost predicate GenuineReply(lib: Library, config: Config, l: Local, trusted: seq<Authority>, now: int, token: Token, v: View,
                               c: Certificate)
  {
    var hash2 := lib.hash(TokenCredentials(token));
    && token.classId == P.REPLY_CLASS_ID
    && Genuine(lib, l, trusted, now, token, c) && MaterialFits(token, ReplyToken, l.kagree)
    && Expected(v.relation, ValueIn(token, CHALLENGE2)) && ValueIn(token, CHALLENGE1) == v.relation.lchallenge
    && Repeats(token, HASH_C1, v.handshake.hash1) && Repeats(token, HASH_C2, hash2)
    && lib.verify(c.key,
                  ReplyContent(config, v.handshake.hash1, hash2, ValueIn(token, CHALLENGE1), ValueIn(token, CHALLENGE2),
                               ValueIn(token, KEM_PUBLIC), ValueIn(token, KEM_CIPHERTEXT)),
                  ValueIn(token, P.SIGNATURE))
  }

  /** A final message to accept: likewise, under the certificate that is stored. */
  ghost predicate GenuineFinal(lib: Library, config: Config, token: Token, v: View) {
    && token.classId == P.FINAL_CLASS_ID
    && MaterialFits(token, FinalToken, v.remote.kagree)
    && Expected(v.relation, ValueIn(token, CHALLENGE1)) && ValueIn(token, CHALLENGE2) == v.relation.lchallenge
    && Repeats(token, HASH_C1, v.handshake.hash1) && Repeats(token, HASH_C2, v.handshake.hash2)
    && v.remote.certificate.Some?
    && lib.verify(v.remote.certificate.value.key,
                  FinalContent(config, v.handshake.hash1, v.handshake.hash2, ValueIn(token, CHALLENGE1), ValueIn(token, CHALLENGE2),
                               ValueIn(token, KEM_PUBLIC), ValueIn(token, KEM_CIPHERTEXT)),
                  ValueIn(token, P.SIGNATURE))
  }

  lemma MaterialExactly(token: Token, kind: TokenType, kem: Kind)
    ensures MaterialPresent(token, kind, kem) <==> MaterialFits(token, kind, kem)
  {
    hide Find, PublicKeySize, CiphertextSize;
  }

  lemma EchoesExactly(kind: TokenType, token: Token, v: View)
    ensures EchoesMatch(kind, token, v) <==>
            && Repeats(token, HASH_C1, v.handshake.hash1)
            && (kind != RequestToken ==>
                  && Repeats(token, HASH_C2, v.handshake.hash2)
                  && ValueIn(token, if kind == ReplyToken then CHALLENGE1 else CHALLENGE2) == v.relation.lchallenge)
  {
    hide Find;
  }

  /** What a participant knows once it has accepted a request or a reply. */
  ghost predicate Learns(l: Local, token: Token, v: View, w: View, c: Certificate, challenge: OctetSeq) {
    && w.relation.lchallenge == v.relation.lchallenge && w.relation.rchallenge.Some? && w.relation.rchallenge.value == challenge
    && w.remote == v.remote.(certificate := Some(c), dsign := c.kind, kagree := l.kagree, pdata := ValueIn(token, C_PDATA),
                             permissions := w.remote.permissions)
  }

  lemma MaterialAcceptedExactly(lib: Library, config: Config, l: Local, kind: TokenType, token: Token, v: View)
    ensures var (ok, w) := ValidateMaterial(lib, config, l, kind, token, v);
            var challenge := ValueIn(token, if kind == ReplyToken then CHALLENGE2 else CHALLENGE1);
            && (ok <==>
                  && MaterialFits(token, kind, MaterialKind(kind, l, v.remote)) && Expected(v.relation, challenge)
                  && EchoesMatch(kind, token, v) && SignatureMatches(lib, config, kind, token, v))
            && (ok ==>
                  && w.handshake == v.handshake && w.remote == TakeIdentity(kind, token, v).remote
                  && w.relation.lchallenge == v.relation.lchallenge
                  && (kind != FinalToken ==> w.relation.rchallenge.Some? && w.relation.rchallenge.value == challenge)
                  && (kind == FinalToken ==> w.relation == v.relation))
  {
    hide Find, PublicKeySize, CiphertextSize, MaterialPresent, WireKind;
    MaterialExactly(token, kind, MaterialKind(kind, l, v.remote));
  }

  lemma KindsDecoded(lib: Library, l: Local, trusted: seq<Authority>, now: int, token: Token, c: Certificate)
    requires Genuine(lib, l, trusted, now, token, c)
    ensures WireKind(SIGNATURE_ALGORITHMS, ValueIn(token, C_DSIGN_ALGO)) == c.kind
    ensures WireKind(KEM_ALGORITHMS, ValueIn(token, C_KAGREE_ALGO)) == l.kagree
  {
    hide WireKind, RowOf, WireName, Find, NumberOf;
    DecodesExactly(c.kind, ValueIn(token, C_DSIGN_ALGO));
    DecodesExactly(l.kagree, ValueIn(token, C_KAGREE_ALGO));
  }

  lemma OneCertificate(lib: Library, l: Local, trusted: seq<Authority>, now: int, token: Token, c: Certificate, d: Certificate)
    requires Genuine(lib, l, trusted, now, token, c) && Genuine(lib, l, trusted, now, token, d)
    ensures c == d
  {
  }

  /** The validator accepts exactly genuine requests. */
  lemma RequestValidExactly(lib: Library, config: Config, l: Local, trusted: seq<Authority>, now: int, token: Token, v: View)
    ensures var (ok, w) := Validate(lib, config, l, trusted, now, RequestToken, token, v);
            && (ok <==> exists c :: GenuineRequest(lib, l, trusted, now, token, v, c))
            && (ok ==> exists c ::
                  && GenuineRequest(lib, l, trusted, now, token, v, c) && Learns(l, token, v, w, c, ValueIn(token, CHALLENGE1))
                  && w.handshake == v.handshake.(hash1 := lib.hash(TokenCredentials(token))))
  {
    hide TakeCredentials, ValidateMaterial, Genuine, MaterialFits, EchoesMatch, TokenCredentials, Find, WireKind;
    var (ok1, v1) := TakeCredentials(lib, l, trusted, now, RequestToken, token, v);
    CredentialsTakenExactly(lib, l, trusted, now, RequestToken, token, v);
    if ok1 && token.classId == P.REQUEST_CLASS_ID {
      var c := v1.remote.certificate.value;
      MaterialAcceptedExactly(lib, config, l, RequestToken, token, v1);
      EchoesExactly(RequestToken, token, v1);
      KindsDecoded(lib, l, trusted, now, token, c);
      assert ValidateMaterial(lib, config, l, RequestToken, token, v1).0 <==> GenuineRequest(lib, l, trusted, now, token, v, c);
      if d :| GenuineRequest(lib, l, trusted, now, token, v, d) {
        OneCertificate(lib, l, trusted, now, token, c, d);
      }
    }
  }

  /** The validator accepts exactly genuine replies. */
  lemma ReplyValidExactly(lib: Library, config: Config, l: Local, trusted: seq<Authority>, now: int, token: Token, v: View)
    ensures var (ok, w) := Validate(lib, config, l, trusted, now, ReplyToken, token, v);
            && (ok <==> exists c :: GenuineReply(lib, config, l, trusted, now, token, v, c))
            && (ok ==> exists c ::
                  && GenuineReply(lib, config, l, trusted, now, token, v, c) && Learns(l, token, v, w, c, ValueIn(token, CHALLENGE2))
                  && w.handshake == v.handshake.(hash2 := lib.hash(TokenCredentials(token))))
  {
    hide TakeCredentials, ValidateMaterial, Genuine, MaterialFits, EchoesMatch, TokenCredentials, Find, WireKind, ReplyContent,
      FinalContent;
    var (ok1, v1) := TakeCredentials(lib, l, trusted, now, ReplyToken, token, v);
    CredentialsTakenExactly(lib, l, trusted, now, ReplyToken, token, v);
    if ok1 && token.classId == P.REPLY_CLASS_ID {
      var c := v1.remote.certificate.value;
      MaterialAcceptedExactly(lib, config, l, ReplyToken, token, v1);
      EchoesExactly(ReplyToken, token, v1);
      KindsDecoded(lib, l, trusted, now, token, c);
      assert ValidateMaterial(lib, config, l, ReplyToken, token, v1).0 <==>
             GenuineReply(lib, config, l, trusted, now, token, v, c);
      if d :| GenuineReply(lib, config, l, trusted, now, token, v, d) {
        OneCertificate(lib, l, trusted, now, token, c, d);
      }
    }
  }

  /** The validator accepts exactly genuine final messages, and learns nothing from them. */
  lemma FinalValidExactly(lib: Library, config: Config, l: Local, trusted: seq<Authority>, now: int, token: Token, v: View)
    ensures var (ok, w) := Validate(lib, config, l, trusted, now, FinalToken, token, v);
            (ok <==> GenuineFinal(lib, config, token, v)) && w == v
  {
    hide Find, MaterialFits, EchoesMatch, ReplyContent, FinalContent, MaterialPresent, WireKind, PublicKeySize, CiphertextSize;
    MaterialExactly(token, FinalToken, v.remote.kagree);
    EchoesExactly(FinalToken, token, v);
    MaterialHasSizes(token, v.remote.kagree);
  }

  lemma MaterialHasSizes(token: Token, kem: Kind)
    ensures MaterialPresent(token, FinalToken, kem) ==> RequiredExact(token, CHALLENGE1, CHALLENGE_SIZE).Some?
  {
    hide Find, PublicKeySize, CiphertextSize;
  }

  // ------------------------------------------------- the calls on one handshake

  /** The secret that the handshake's key pair finds in a ciphertext. */
  ghost predicate Opens(lib: Library, l: Local, hs: Handshake, ciphertext: OctetSeq, secret: OctetSeq) {
    && hs.keyPair.Some? && lib.decapsulate(l.kagree, hs.keyPair.value, ciphertext) == Some(secret) && secret != []
  }

  ghost predicate Shares(lib: Library, hs: Handshake, secret: OctetSeq, challenge1: OctetSeq, challenge2: OctetSeq) {
    && hs.shared.Some? && hs.shared.value.secret == lib.digest(secret)
    && hs.shared.value.challenge1 == challenge1 && hs.shared.value.challenge2 == challenge2
  }

  /** What is signed in answer to a reply. */
  function ConcludingContent(lib: Library, config: Config, token: Token, v: View): seq<Property> {
    FinalContent(config, v.handshake.hash1, lib.hash(TokenCredentials(token)), v.relation.lchallenge, ValueIn(token, CHALLENGE2),
                 ValueIn(token, KEM_PUBLIC), ValueIn(token, KEM_CIPHERTEXT))
  }

  /** An initiator concludes exactly on a genuine reply that its key opens, if signing
      works and the certificate's expiry is known; it then holds the certificate of the
      reply, and shares the secret and both challenges. */
  lemma ReplyConcludedExactly(lib: Library, config: Config, l: Local, trusted: seq<Authority>, now: int, token: Token,
                              expiryKnown: bool, sign: Signer, v: View)
    ensures var o := ProcessReply(lib, config, l, trusted, now, token, expiryKnown, sign, v);
            && (o.result == OkFinal <==>
                  && expiryKnown && sign(ConcludingContent(lib, config, token, v)).Some?
                  && exists c, secret ::
                       && GenuineReply(lib, config, l, trusted, now, token, v, c)
                       && Opens(lib, l, v.handshake, ValueIn(token, KEM_CIPHERTEXT), secret))
            && (o.result != OkFinal ==> o.result == Failed && o.message == None)
            && (o.result == OkFinal ==> exists c, secret ::
                  && GenuineReply(lib, config, l, trusted, now, token, v, c)
                  && Opens(lib, l, v.handshake, ValueIn(token, KEM_CIPHERTEXT), secret)
                  && Learns(l, token, v, o.view, c, ValueIn(token, CHALLENGE2))
                  && Shares(lib, o.view.handshake, secret, v.relation.lchallenge, ValueIn(token, CHALLENGE2)))
  {
    hide Validate, GenuineReply, FinalContent, ReplyContent, FinalMessage, TokenCredentials, Find;
    ReplyValidExactly(lib, config, l, trusted, now, token, v);
    var (valid, w) := Validate(lib, config, l, trusted, now, ReplyToken, token, v);
    if valid {
      var c :| && GenuineReply(lib, config, l, trusted, now, token, v, c) && Learns(l, token, v, w, c, ValueIn(token, CHALLENGE2))
               && w.handshake == v.handshake.(hash2 := lib.hash(TokenCredentials(token)));
      var secret := DecapsulateReply(lib, l, ValueIn(token, KEM_CIPHERTEXT), w).1.handshake.kemSecret;
      if v.handshake.keyPair.Some? && secret.Some? && secret.value != [] {
        assert Opens(lib, l, v.handshake, ValueIn(token, KEM_CIPHERTEXT), secret.value);
      }
    }
  }

  /** A replier concludes exactly on a genuine final message to a handshake that holds a
      secret, if the certificate's expiry is known; only the shared secret changes. */
  lemma FinalConcludedExactly(lib: Library, config: Config, l: Local, trusted: seq<Authority>, now: int, token: Token,
                              expiryKnown: bool, v: View)
    ensures var o := ProcessFinal(lib, config, l, trusted, now, token, expiryKnown, v);
            && (o.result == Ok <==>
                  && expiryKnown && v.relation.rchallenge.Some? && GenuineFinal(lib, config, token, v)
                  && v.handshake.kemSecret.Some? && v.handshake.kemSecret.value != [])
            && (o.result != Ok ==> o.result == Failed) && o.message == None
            && o.view == v.(handshake := v.handshake.(shared := o.view.handshake.shared))
            && (o.result == Ok ==>
                  Shares(lib, o.view.handshake, v.handshake.kemSecret.value, ValueIn(token, CHALLENGE1), ValueIn(token, CHALLENGE2)))
  {
    hide Validate, MaterialFits, FinalContent, Find;
    FinalValidExactly(lib, config, l, trusted, now, token, v);
  }

  /** A message that would be accepted, but for a certificate whose expiry is unknown,
      leaves no shared secret, also not an earlier one. */
  lemma UnknownExpirySharesNothing(lib: Library, config: Config, l: Local, trusted: seq<Authority>, now: int, token: Token,
                                   sign: Signer, v: View)
    ensures ProcessReply(lib, config, l, trusted, now, token, true, sign, v).result == OkFinal ==>
              var o := ProcessReply(lib, config, l, trusted, now, token, false, sign, v);
              o.result == Failed && o.view.handshake.shared == None
    ensures ProcessFinal(lib, config, l, trusted, now, token, true, v).result == Ok ==>
              var o := ProcessFinal(lib, config, l, trusted, now, token, false, v);
              o.result == Failed && o.view.handshake.shared == None
  {
    hide Validate, FinalContent, FinalMessage, Find;
  }

  /** The material that a replier sends: kept from an earlier answer, or encapsulated for
      the key in the request. */
  ghost predicate Sends(lib: Library, l: Local, hs: Handshake, request: Token, coins: Coins, unset: OctetSeq, publicKey: OctetSeq,
                        ciphertext: OctetSeq, secret: OctetSeq)
  {
    if hs.ciphertext.Some? && hs.kemSecret.Some? then
      publicKey == unset && ciphertext == hs.ciphertext.value && secret == hs.kemSecret.value
    else
      publicKey == ValueIn(request, KEM_PUBLIC) && lib.encapsulate(l.kagree, publicKey, coins) == Some((ciphertext, secret))
  }

  /** The view `w` after a genuine request was answered on the view `v`. */
  ghost predicate Answers(lib: Library, config: Config, l: Local, trusted: seq<Authority>, now: int, token: Token, pdata: OctetSeq,
                          coins: Coins, unset: OctetSeq, sign: Signer, v: View, w: View, c: Certificate, publicKey: OctetSeq,
                          ciphertext: OctetSeq, secret: OctetSeq)
    requires lib.pem(l.certificate).Some?
  {
    && GenuineRequest(lib, l, trusted, now, token, v, c)
    && Sends(lib, l, v.handshake, token, coins, unset, publicKey, ciphertext, secret)
    && sign(ReplyContent(config, lib.hash(TokenCredentials(token)),
                         lib.hash(OwnCredentials(config, l, lib.pem(l.certificate).value, pdata, l.kagree)),
                         ValueIn(token, CHALLENGE1), v.relation.lchallenge, publicKey, ciphertext)).Some?
    && w.handshake.ciphertext == Some(ciphertext) && w.handshake.kemSecret == Some(secret)
    && Learns(l, token, v, w, c, ValueIn(token, CHALLENGE1))
  }

  /** A replier answers exactly genuine requests, if the libraries do their part; the
      ciphertext and the secret of an earlier answer are kept. */
  lemma RequestAnsweredExactly(lib: Library, config: Config, l: Local, trusted: seq<Authority>, now: int, token: Token,
                               pdata: OctetSeq, coins: Coins, unset: OctetSeq, sign: Signer, v: View)
    ensures var o := AnswerRequest(lib, config, l, trusted, now, token, pdata, coins, unset, sign, v);
            && (o.result != PendingMessage ==> o.result == Failed && o.message == None)
            && (o.result == PendingMessage <==>
                  && lib.pem(l.certificate).Some?
                  && exists c, publicKey, ciphertext, secret ::
                       Answers(lib, config, l, trusted, now, token, pdata, coins, unset, sign, v, o.view, c, publicKey, ciphertext, secret))
  {
    hide Validate, Genuine, MaterialFits, ReplyContent, ReplyMessage, OwnCredentials, TokenCredentials, Find;
    RequestValidExactly(lib, config, l, trusted, now, token, v);
    var (valid, w) := Validate(lib, config, l, trusted, now, RequestToken, token, v);
    var o := AnswerRequest(lib, config, l, trusted, now, token, pdata, coins, unset, sign, v);
    if valid {
      var c :| && GenuineRequest(lib, l, trusted, now, token, v, c) && Learns(l, token, v, w, c, ValueIn(token, CHALLENGE1))
               && w.handshake == v.handshake.(hash1 := lib.hash(TokenCredentials(token)));
      if o.result == PendingMessage {
        var kept := v.handshake.ciphertext.Some? && v.handshake.kemSecret.Some?;
        var publicKey := if kept then unset else ValueIn(token, KEM_PUBLIC);
        assert Sends(lib, l, v.handshake, token, coins, unset, publicKey, o.view.handshake.ciphertext.value,
                     o.view.handshake.kemSecret.value);
        assert Answers(lib, config, l, trusted, now, token, pdata, coins, unset, sign, v, o.view, c, publicKey,
                       o.view.handshake.ciphertext.value, o.view.handshake.kemSecret.value);
      }
    }
  }
}
