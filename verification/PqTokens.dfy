/** Building and validating the handshake tokens of the CycloneDDS plugin on its
    objects, as the source does it: arrays that are filled by index, and checks that
    store what they accept as they go. */
module PqTokens {
  import opened Octets
  import opened Guids
  import opened Transcript
  import opened Algorithms
  import opened PqHandshake
  import opened PqInvariant
  import opened PqObjects
  import P = Protocol

  // ---------------------------------------------------------------- validator

  /** `load_X509_certificate_from_binprop`. */
  method LoadCertificateFrom(lib: Library, data: OctetSeq, local: LocalIdentityInfo, trusted: seq<Authority>, now: int)
    returns (certificate: Option<Certificate>)
    ensures certificate == LoadCertificate(lib, data, local.Model(), trusted, now)
  {
    if local.crl.Some? && |trusted| > 0 {
      return None;
    }
    certificate := lib.parseCertificate(data);
    if certificate.None? {
      return;
    }
    var issued := false;
    if |trusted| == 0 {
      issued := lib.issuedBy(certificate.value, local.ca, local.crl);
    } else {
      for i := 0 to |trusted|
        invariant !issued && forall k :: 0 <= k < i ==> !lib.issuedBy(certificate.value, trusted[k], None)
      {
        issued := lib.issuedBy(certificate.value, trusted[i], None);
        if issued {
          break;
        }
      }
    }
    if !issued || !lib.current(certificate.value, now) {
      return None;
    }
  }

  /** `validate_pdata`. */
  method ValidateData(lib: Library, pdata: OctetSeq, certificate: Certificate) returns (ok: bool)
    ensures ok <==> DataMatches(lib, pdata, certificate)
  {
    var key := lib.participantKey(pdata);
    if key.None? || certificate.subject.None? {
      return false;
    }
    ok := KeyMatchesCertificate(key.value, certificate.subject.value, lib.lowOfZero);
  }

  /** The checks of the credentials that store nothing. */
  method CheckCredentials(lib: Library, local: LocalIdentityInfo, token: Token, certificate: Certificate) returns (ok: bool)
    ensures ok <==> FitsCertificate(lib, local.Model(), token, certificate)
  {
    hide Find, DataMatches, WireKind;
    var pdata := Required(token, C_PDATA);
    if pdata.None? {
      return false;
    }
    ok := ValidateData(lib, pdata.value, certificate);
    if !ok {
      return;
    }
    var dsign := RequiredNonempty(token, C_DSIGN_ALGO);
    if dsign.None? {
      return false;
    }
    var dsignKind := FindWireKind(SIGNATURE_ALGORITHMS, dsign.value);
    if dsignKind == Unknown || dsignKind != certificate.kind {
      return false;
    }
    var kagree := RequiredNonempty(token, C_KAGREE_ALGO);
    if kagree.None? {
      return false;
    }
    var kagreeKind := FindWireKind(KEM_ALGORITHMS, kagree.value);
    ok := kagreeKind != Unknown && kagreeKind == local.kagree;
  }

  /** The first part of `validate_handshake_token_impl`: certificate and permissions
      are stored as soon as they are read, the hash when all checks passed. */
  method ValidateCredentials(lib: Library, trusted: seq<Authority>, now: int, kind: TokenType, token: Token, x: HandshakeInfo)
    returns (ok: bool)
    modifies x, x.relation.remoteIdentity
    ensures (ok, ObjectView(x)) ==
            TakeCredentials(lib, x.relation.localIdentity.Model(), trusted, now, kind, token, old(ObjectView(x)))
    ensures x.relation.remoteIdentity.linkHash == old(x.relation.remoteIdentity.linkHash)
  {
    hide Find, FitsCertificate, LoadCertificate, TextOf, TokenCredentials;
    var remote := x.relation.remoteIdentity;
    var id := RequiredNonempty(token, C_ID);
    if id.None? {
      return false;
    }
    var certificate := LoadCertificateFrom(lib, id.value, x.relation.localIdentity, trusted, now);
    if certificate.None? {
      return false;
    }
    remote.certificate := certificate;
    var permissions := Required(token, C_PERM);
    if permissions.None? {
      return false;
    }
    if |permissions.value| > 0 {
      remote.permissions := TextOf(permissions.value);
    }
    ok := CheckCredentials(lib, x.relation.localIdentity, token, certificate.value);
    if !ok {
      return;
    }
    var hash := lib.hash(TokenCredentials(token));
    if kind.RequestToken? {
      x.hash1 := hash;
    } else {
      x.hash2 := hash;
    }
  }

  /** The KEM material, the challenges and the signature of a token. */
  method CheckMaterial(token: Token, kind: TokenType, kagree: Kind) returns (ok: bool)
    ensures ok <==> MaterialPresent(token, kind, kagree)
  {
    hide Find, HasKemSize;
    ok := ValidateKemProperty(RequiredNonempty(token, KEM_PUBLIC), kagree, true);
    if !ok || RequiredExact(token, CHALLENGE1, CHALLENGE_SIZE).None? {
      return false;
    }
    if kind.RequestToken? {
      return true;
    }
    if RequiredExact(token, CHALLENGE2, CHALLENGE_SIZE).None? {
      return false;
    }
    ok := ValidateKemProperty(RequiredNonempty(token, KEM_CIPHERTEXT), kagree, false);
    if !ok || RequiredNonempty(token, P.SIGNATURE).None? {
      return false;
    }
  }

  /** Compares the peer's challenge with the announced one, or keeps it. */
  method ValidateChallenge(kind: TokenType, token: Token, x: HandshakeInfo) returns (ok: bool)
    requires RequiredExact(token, CHALLENGE1, CHALLENGE_SIZE).Some?
    requires kind.ReplyToken? ==> RequiredExact(token, CHALLENGE2, CHALLENGE_SIZE).Some?
    modifies x.relation
    ensures (ok, ObjectView(x)) == TakeChallenge(kind, token, old(ObjectView(x)))
  {
    hide RequiredExact;
    var relation := x.relation;
    var challenge := TokenChallenge(token, if kind.ReplyToken? then CHALLENGE2 else CHALLENGE1);
    if relation.rchallenge.Some? {
      return relation.rchallenge.value == challenge;
    }
    if !kind.FinalToken? {
      relation.rchallenge := Some(challenge);
    }
    ok := true;
  }

  /** The optional hashes and the own challenge, as the token returns them. */
  method CheckEchoes(kind: TokenType, token: Token, x: HandshakeInfo) returns (ok: bool)
    ensures ok <==> EchoesMatch(kind, token, ObjectView(x))
  {
    hide Find;
    var hash1 := Find(token.properties, HASH_C1);
    if hash1.Some? && (|hash1.value| != HASH_SIZE || hash1.value != x.hash1) {
      return false;
    }
    if kind.RequestToken? {
      return true;
    }
    var hash2 := Find(token.properties, HASH_C2);
    if hash2.Some? && (|hash2.value| != HASH_SIZE || hash2.value != x.hash2) {
      return false;
    }
    ok := ValueIn(token, if kind.ReplyToken? then CHALLENGE1 else CHALLENGE2) == x.relation.lchallenge;
  }

  /** Stores what the accepted credentials say about the remote participant. */
  method StoreIdentity(kind: TokenType, token: Token, x: HandshakeInfo)
    modifies x.relation.remoteIdentity
    ensures ObjectView(x) == TakeIdentity(kind, token, old(ObjectView(x)))
    ensures x.relation.remoteIdentity.linkHash == old(x.relation.remoteIdentity.linkHash)
  {
    hide Find;
    if kind.FinalToken? {
      return;
    }
    var remote := x.relation.remoteIdentity;
    remote.dsign := FindWireKind(SIGNATURE_ALGORITHMS, ValueIn(token, C_DSIGN_ALGO));
    remote.kagree := FindWireKind(KEM_ALGORITHMS, ValueIn(token, C_KAGREE_ALGO));
    remote.pdata := ValueIn(token, C_PDATA);
  }

  /** Lays out the content of a signature in the array that is handed to the verifier. */
  method LayOut(config: Config, isReply: bool, hash1: OctetSeq, hash2: OctetSeq, challenge1: OctetSeq, challenge2: OctetSeq,
                publicKey: OctetSeq, ciphertext: OctetSeq) returns (content: seq<Property>)
    ensures content == if isReply then ReplyContent(config, hash1, hash2, challenge1, challenge2, publicKey, ciphertext)
                       else FinalContent(config, hash1, hash2, challenge1, challenge2, publicKey, ciphertext)
  {
    var first, last := if isReply then Property(HASH_C2, hash2) else Property(HASH_C1, hash1),
                       if isReply then Property(HASH_C1, hash1) else Property(HASH_C2, hash2);
    var binaryProperties := new Property[if config.includeOptional then 6 else 4](_ => first);
    var i := if config.includeOptional then 1 else 0;
    if isReply {
      binaryProperties[i], binaryProperties[i + 1] := Property(CHALLENGE2, challenge2), Property(KEM_CIPHERTEXT, ciphertext);
      binaryProperties[i + 2], binaryProperties[i + 3] := Property(CHALLENGE1, challenge1), Property(KEM_PUBLIC, publicKey);
    } else {
      binaryProperties[i], binaryProperties[i + 1] := Property(CHALLENGE1, challenge1), Property(KEM_PUBLIC, publicKey);
      binaryProperties[i + 2], binaryProperties[i + 3] := Property(CHALLENGE2, challenge2), Property(KEM_CIPHERTEXT, ciphertext);
    }
    if config.includeOptional {
      binaryProperties[5] := last;
    }
    content := binaryProperties[..];
  }

  /** The signature of a reply or a final message, under the stored certificate. */
  method CheckSignature(lib: Library, config: Config, kind: TokenType, token: Token, x: HandshakeInfo) returns (ok: bool)
    ensures ok <==> SignatureMatches(lib, config, kind, token, ObjectView(x))
  {
    hide Find, ReplyContent, FinalContent;
    if kind.RequestToken? {
      return true;
    }
    if x.relation.remoteIdentity.certificate.None? {
      return false;
    }
    var content := LayOut(config, kind.ReplyToken?, x.hash1, x.hash2, ValueIn(token, CHALLENGE1), ValueIn(token, CHALLENGE2),
                          ValueIn(token, KEM_PUBLIC), ValueIn(token, KEM_CIPHERTEXT));
    ok := lib.verify(x.relation.remoteIdentity.certificate.value.key, content, ValueIn(token, P.SIGNATURE));
  }

  /** The rest of `validate_handshake_token_impl`. */
  method ValidateRest(lib: Library, config: Config, kind: TokenType, token: Token, x: HandshakeInfo) returns (ok: bool)
    modifies x.relation, x.relation.remoteIdentity
    ensures (ok, ObjectView(x)) ==
            ValidateMaterial(lib, config, x.relation.localIdentity.Model(), kind, token, old(ObjectView(x)))
    ensures x.relation.remoteIdentity.linkHash == old(x.relation.remoteIdentity.linkHash)
  {
    hide MaterialPresent, TakeChallenge, EchoesMatch, TakeIdentity, SignatureMatches, RequiredExact;
    var kagree := if kind.FinalToken? then x.relation.remoteIdentity.kagree else x.relation.localIdentity.kagree;
    ok := CheckMaterial(token, kind, kagree);
    if !ok {
      return;
    }
    MaterialHasChallenges(token, kind, kagree);
    ok := ValidateChallenge(kind, token, x);
    if !ok {
      return;
    }
    ok := CheckEchoes(kind, token, x);
    if !ok {
      return;
    }
    StoreIdentity(kind, token, x);
    ok := CheckSignature(lib, config, kind, token, x);
  }

  /** `validate_handshake_token` with `validate_handshake_token_impl`. */
  method ValidateToken(lib: Library, config: Config, trusted: seq<Authority>, now: int, kind: TokenType, token: Token,
                       x: HandshakeInfo) returns (ok: bool)
    modifies x, x.relation, x.relation.remoteIdentity
    ensures (ok, ObjectView(x)) ==
            Validate(lib, config, x.relation.localIdentity.Model(), trusted, now, kind, token, old(ObjectView(x)))
    ensures x.relation.remoteIdentity.linkHash == old(x.relation.remoteIdentity.linkHash)
  {
    hide TakeCredentials, ValidateMaterial, ClassId;
    ok := token.classId == ClassId(kind);
    if ok && !kind.FinalToken? {
      ok := ValidateCredentials(lib, trusted, now, kind, token, x);
    }
    if ok {
      ok := ValidateRest(lib, config, kind, token, x);
    }
    if !ok && !kind.FinalToken? {
      x.relation.remoteIdentity.certificate := None;
    }
  }

  // ----------------------------------------------------------------- builders

  const EMPTY := Property("", [])

  /** Fills the first five places of a token with the own credentials. */
  method FillCredentials(tokens: array<Property>, config: Config, local: LocalIdentityInfo, contents: OctetSeq, pdata: OctetSeq,
                         kagree: Kind) returns (tokidx: nat)
    requires tokens.Length >= 5
    modifies tokens
    ensures tokidx == 5 && tokens[..5] == OwnCredentials(config, local.Model(), contents, pdata, kagree)
  {
    hide WireText, WireName;
    tokens[0] := Property(C_ID, contents);
    tokens[1] := Property(C_PERM, WireText(config, local.permissions));
    tokens[2] := Property(C_PDATA, pdata);
    tokens[3] := Property(C_DSIGN_ALGO, WireText(config, WireName(SIGNATURE_ALGORITHMS, local.certificate.kind)));
    tokens[4] := Property(C_KAGREE_ALGO, WireText(config, WireName(KEM_ALGORITHMS, kagree)));
    tokidx := 5;
  }

  /** Writes one property at the index, and advances the index. */
  method Put(tokens: array<Property>, tokidx: nat, name: CString, value: OctetSeq) returns (next: nat)
    requires tokidx < tokens.Length
    modifies tokens
    ensures next == tokidx + 1 && tokens[..next] == old(tokens[..tokidx]) + [Property(name, value)]
  {
    tokens[tokidx] := Property(name, value);
    next := tokidx + 1;
  }

  /** The token of `begin_handshake_request`: its array is filled exactly. */
  method BuildRequest(lib: Library, config: Config, x: HandshakeInfo, contents: OctetSeq, pdata: OctetSeq, publicKey: OctetSeq)
    returns (token: Token)
    modifies x`hash1
    ensures var credentials := OwnCredentials(config, x.relation.localIdentity.Model(), contents, pdata,
                                              x.relation.localIdentity.kagree);
            && x.hash1 == lib.hash(credentials)
            && token == RequestMessage(config, credentials, x.hash1, publicKey, x.relation.lchallenge)
  {
    hide OwnCredentials;
    var tokcount := if config.includeOptional then 8 else 7;
    var tokens := new Property[tokcount](_ => EMPTY);
    var local := x.relation.localIdentity;
    var tokidx := FillCredentials(tokens, config, local, contents, pdata, local.kagree);
    x.hash1 := lib.hash(tokens[..5]);
    if config.includeOptional {
      tokidx := Put(tokens, tokidx, HASH_C1, x.hash1);
    }
    tokidx := Put(tokens, tokidx, KEM_PUBLIC, publicKey);
    tokidx := Put(tokens, tokidx, CHALLENGE1, x.relation.lchallenge);
    assert tokidx == tokcount && tokens[..tokcount] == tokens[..];
    token := Token(P.REQUEST_CLASS_ID, tokens[..]);
  }

  /** The token of `begin_handshake_reply`: the signature goes into the last place. */
  method BuildReply(lib: Library, config: Config, x: HandshakeInfo, contents: OctetSeq, pdata: OctetSeq, publicKey: OctetSeq,
                    sign: Signer) returns (token: Option<Token>)
    requires x.relation.rchallenge.Some? && x.ciphertext.Some?
    modifies x`hash2
    ensures var credentials := OwnCredentials(config, x.relation.localIdentity.Model(), contents, pdata,
                                              x.relation.remoteIdentity.kagree);
            var challenge1, challenge2 := x.relation.rchallenge.value, x.relation.lchallenge;
            var signature := sign(ReplyContent(config, x.hash1, x.hash2, challenge1, challenge2, publicKey, x.ciphertext.value));
            && x.hash2 == lib.hash(credentials)
            && token == if signature.None? then None
                        else Some(ReplyMessage(config, credentials, x.hash1, x.hash2, publicKey, x.ciphertext.value, challenge1,
                                               challenge2, signature.value))
  {
    hide OwnCredentials, ReplyContent;
    var tokcount := if config.includeOptional then 12 else 10;
    var tokens := new Property[tokcount](_ => EMPTY);
    var tokidx := FillCredentials(tokens, config, x.relation.localIdentity, contents, pdata, x.relation.remoteIdentity.kagree);
    ghost var credentials := tokens[..5];
    x.hash2 := lib.hash(tokens[..5]);
    var challenge1, challenge2 := x.relation.rchallenge.value, x.relation.lchallenge;
    tokidx := Put(tokens, tokidx, KEM_CIPHERTEXT, x.ciphertext.value);
    tokidx := Put(tokens, tokidx, KEM_PUBLIC, publicKey);
    tokidx := Put(tokens, tokidx, CHALLENGE1, challenge1);
    tokidx := Put(tokens, tokidx, CHALLENGE2, challenge2);
    if config.includeOptional {
      tokidx := Put(tokens, tokidx, HASH_C2, x.hash2);
      tokidx := Put(tokens, tokidx, HASH_C1, x.hash1);
    }
    var content := LayOut(config, true, x.hash1, x.hash2, challenge1, challenge2, publicKey, x.ciphertext.value);
    var signature := sign(content);
    if signature.None? {
      return None;
    }
    tokidx := Put(tokens, tokidx, P.SIGNATURE, signature.value);
    assert tokidx == tokcount && tokens[..tokcount] == tokens[..];
    assert tokens[..] == ReplyMessage(config, credentials, x.hash1, x.hash2, publicKey, x.ciphertext.value, challenge1, challenge2,
                                      signature.value).properties;
    token := Some(Token(P.REPLY_CLASS_ID, tokens[..]));
  }

  /** The token of `process_handshake` on a reply. */
  method BuildFinal(config: Config, hash1: Hash, hash2: Hash, publicKey: OctetSeq, ciphertext: OctetSeq, challenge1: Nonce,
                    challenge2: Nonce, signature: OctetSeq) returns (token: Token)
    ensures token == FinalMessage(config, hash1, hash2, publicKey, ciphertext, challenge1, challenge2, signature)
  {
    var tsz := if config.includeOptional then 7 else 5;
    var tokens := new Property[tsz](_ => EMPTY);
    var idx := Put(tokens, 0, CHALLENGE1, challenge1);
    idx := Put(tokens, idx, CHALLENGE2, challenge2);
    if config.includeOptional {
      idx := Put(tokens, idx, HASH_C2, hash2);
      idx := Put(tokens, idx, HASH_C1, hash1);
    }
    idx := Put(tokens, idx, KEM_PUBLIC, publicKey);
    idx := Put(tokens, idx, KEM_CIPHERTEXT, ciphertext);
    idx := Put(tokens, idx, P.SIGNATURE, signature);
    assert idx == tsz && tokens[..tsz] == tokens[..];
    token := Token(P.FINAL_CLASS_ID, tokens[..]);
  }

  // -------------------------------------------------- the calls on one handshake

  /** `begin_handshake_request`, once it has its handshake. */
  method RequestOn(lib: Library, config: Config, x: HandshakeInfo, contents: OctetSeq, pdata: OctetSeq, key: Option<KeyPair>)
    returns (result: Result, message: Option<Token>)
    modifies x
    ensures Outcome(result, message, ObjectView(x)) ==
            MakeRequest(lib, config, x.relation.localIdentity.Model(), contents, pdata, key, old(ObjectView(x)))
  {
    hide OwnCredentials, RequestMessage, PublicKeySize;
    x.keyPair := key;
    if key.None? || |key.value.publicKey| != PublicKeySize(x.relation.localIdentity.kagree) {
      return Failed, None;
    }
    var token := BuildRequest(lib, config, x, contents, pdata, key.value.publicKey);
    return PendingMessage, Some(token);
  }

  /** Encapsulates for the request's key, unless that was done before. */
  method EncapsulateFor(lib: Library, x: HandshakeInfo, publicKey: OctetSeq, coins: Coins) returns (ok: bool)
    modifies x
    ensures (ok, ObjectView(x)) == EncapsulateOnce(lib, old(ObjectView(x)), publicKey, coins)
    ensures ok ==> x.ciphertext.Some? && x.kemSecret.Some?
  {
    if x.ciphertext.None? || x.kemSecret.None? {
      var sent := lib.encapsulate(x.relation.remoteIdentity.kagree, publicKey, coins);
      if sent.None? {
        x.ciphertext, x.kemSecret := None, None;
        return false;
      }
      x.ciphertext, x.kemSecret := Some(sent.value.0), Some(sent.value.1);
    }
    ok := true;
  }

  /** `begin_handshake_reply`, once it has its handshake. */
  method AnswerOn(lib: Library, config: Config, trusted: seq<Authority>, now: int, token: Token, pdata: OctetSeq, coins: Coins,
                  unset: OctetSeq, sign: Signer, x: HandshakeInfo) returns (result: Result, message: Option<Token>)
    modifies x, x.relation, x.relation.remoteIdentity
    ensures Outcome(result, message, ObjectView(x)) ==
            AnswerRequest(lib, config, x.relation.localIdentity.Model(), trusted, now, token, pdata, coins, unset, sign,
                          old(ObjectView(x)))
    ensures x.relation.remoteIdentity.linkHash == old(x.relation.remoteIdentity.linkHash)
  {
    hide Validate, OwnCredentials, ReplyContent, ReplyMessage, Find;
    result, message := Failed, None;
    ValidateKeeps(lib, config, x.relation.localIdentity.Model(), trusted, now, RequestToken, token, ObjectView(x));
    var valid := ValidateToken(lib, config, trusted, now, RequestToken, token, x);
    if !valid {
      return;
    }
    var contents := lib.pem(x.relation.localIdentity.certificate);
    if contents.None? {
      return;
    }
    var publicKey := unset;
    if x.ciphertext.None? || x.kemSecret.None? {
      publicKey := ValueIn(token, KEM_PUBLIC);
    }
    var sent := EncapsulateFor(lib, x, publicKey, coins);
    if !sent {
      return;
    }
    message := BuildReply(lib, config, x, contents.value, pdata, publicKey, sign);
    if message.Some? {
      result := PendingMessage;
    }
  }

  /** `generate_shared_secret`, and giving it up again if the peer's expiry is unknown. */
  method ConcludeOn(lib: Library, x: HandshakeInfo, challenge1: Nonce, challenge2: Nonce, expiryKnown: bool) returns (ok: bool)
    modifies x`shared
    ensures (ok, ObjectView(x)) == Conclude(lib, old(ObjectView(x)), challenge1, challenge2, expiryKnown)
  {
    if x.kemSecret.None? || |x.kemSecret.value| == 0 {
      return false;
    }
    x.shared := Some(SharedSecret(lib.digest(x.kemSecret.value), challenge1, challenge2));
    if !expiryKnown {
      x.shared := None;
      return false;
    }
    ok := true;
  }

  /** `process_handshake` for a handshake that a request made. */
  method ProcessReplyOn(lib: Library, config: Config, trusted: seq<Authority>, now: int, token: Token, expiryKnown: bool,
                        sign: Signer, x: HandshakeInfo) returns (result: Result, message: Option<Token>)
    modifies x, x.relation, x.relation.remoteIdentity
    ensures Outcome(result, message, ObjectView(x)) ==
            ProcessReply(lib, config, x.relation.localIdentity.Model(), trusted, now, token, expiryKnown, sign, old(ObjectView(x)))
    ensures x.relation.remoteIdentity.linkHash == old(x.relation.remoteIdentity.linkHash)
  {
    hide Validate, FinalContent, FinalMessage, Find, Conclude;
    result, message := Failed, None;
    ValidateKeeps(lib, config, x.relation.localIdentity.Model(), trusted, now, ReplyToken, token, ObjectView(x));
    var valid := ValidateToken(lib, config, trusted, now, ReplyToken, token, x);
    if !valid || x.keyPair.None? {
      return;
    }
    var publicKey, ciphertext := ValueIn(token, KEM_PUBLIC), ValueIn(token, KEM_CIPHERTEXT);
    x.kemSecret := lib.decapsulate(x.relation.localIdentity.kagree, x.keyPair.value, ciphertext);
    if x.kemSecret.None? {
      return;
    }
    var challenge1, challenge2 := x.relation.lchallenge, x.relation.rchallenge.value;
    var content := LayOut(config, false, x.hash1, x.hash2, challenge1, challenge2, publicKey, ciphertext);
    var signature := sign(content);
    if signature.None? {
      return;
    }
    var final := BuildFinal(config, x.hash1, x.hash2, publicKey, ciphertext, challenge1, challenge2, signature.value);
    var done := ConcludeOn(lib, x, challenge1, challenge2, expiryKnown);
    if done {
      result, message := OkFinal, Some(final);
    }
  }

  /** `process_handshake` for a handshake that a reply made. */
  method ProcessFinalOn(lib: Library, config: Config, trusted: seq<Authority>, now: int, token: Token, expiryKnown: bool,
                        x: HandshakeInfo) returns (result: Result)
    requires x.relation.rchallenge.Some?
    modifies x, x.relation, x.relation.remoteIdentity
    ensures Outcome(result, None, ObjectView(x)) ==
            ProcessFinal(lib, config, x.relation.localIdentity.Model(), trusted, now, token, expiryKnown, old(ObjectView(x)))
    ensures x.relation.remoteIdentity.linkHash == old(x.relation.remoteIdentity.linkHash)
  {
    hide Validate, Find, Conclude;
    ValidateKeeps(lib, config, x.relation.localIdentity.Model(), trusted, now, FinalToken, token, ObjectView(x));
    var valid := ValidateToken(lib, config, trusted, now, FinalToken, token, x);
    if !valid {
      return Failed;
    }
    var done := ConcludeOn(lib, x, x.relation.rchallenge.value, x.relation.lchallenge, expiryKnown);
    result := if done then Ok else Failed;
  }
}
