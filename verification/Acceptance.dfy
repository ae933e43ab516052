/** When the calls of the OpenDDS plugin succeed, said in terms of the octets in the
    tokens and of what the libraries answer. Everything else is refused. */
module Acceptance {
  import opened Octets
  import opened Guids
  import opened Xcdr
  import opened Transcript
  import opened Environment
  import opened Protocol
  import HonestRun

  // ------------------------------------------------------ genuine credentials

  /** The first GUID parameter of the participant data. */
  ghost predicate DataCarries(suite: Suite, data: OctetSeq, guid: Guid) {
    var parsed := suite.parseParameters(data);
    parsed.Some? && exists i :: CarriesAt(parsed.value, i, guid)
  }

  ghost predicate CarriesAt(parameters: seq<Parameter>, i: int, guid: Guid) {
    && 0 <= i < |parameters| && parameters[i] == ParticipantGuid(guid)
    && forall k :: 0 <= k < i ==> parameters[k].OtherParameter?
  }

  /** The certificate names its holder's GUID and was made for this algorithm. */
  ghost predicate CertificateFits(suite: Suite, certificate: OctetSeq, algorithm: CString, guid: Guid) {
    var info := suite.parseCertificate(certificate);
    && info.Some? && info.value.signatureAlgorithm == algorithm
    && |info.value.subjectDigest| >= 6
    && NumberOf(guid[..6]) == 0x8000_0000_0000 + NumberOf(info.value.subjectDigest[..6]) / 2
  }

  /** The credentials of the participant with this GUID: the certificate is one of the
      own CA and was valid at that time, its key is an ML-DSA key, the KEM is the own
      one, and certificate and participant data are for the GUID. */
  ghost predicate Genuine(suite: Suite, l: LocalIdentity, guid: Guid, c: Credentials, now: int) {
    && suite.certificateValid(l.ca, c.certificate, now)
    && c.signatureAlgorithm in {"ML-DSA-44", "ML-DSA-65", "ML-DSA-87"}
    && c.kemAlgorithm == l.kemAlgorithm
    && CertificateFits(suite, c.certificate, c.signatureAlgorithm, guid)
    && DataCarries(suite, c.participantData, guid)
  }

  lemma {:induction false} FirstGuidIsExact(parameters: seq<Parameter>, guid: Guid)
    ensures FirstGuidIs(parameters, guid) <==> exists i :: CarriesAt(parameters, i, guid)
  {
    if parameters != [] {
      FirstGuidIsExact(parameters[1..], guid);
      if i :| CarriesAt(parameters[1..], i, guid) {
        assert parameters[0].OtherParameter? ==> CarriesAt(parameters, i + 1, guid);
      }
      if i :| CarriesAt(parameters, i, guid) {
        assert i > 0 ==> CarriesAt(parameters[1..], i - 1, guid);
      }
      assert parameters[0] == ParticipantGuid(guid) ==> CarriesAt(parameters, 0, guid);
    }
  }

  /** The plugin accepts exactly genuine credentials. */
  lemma AcceptsExactlyGenuine(suite: Suite, l: LocalIdentity, guid: Guid, c: Credentials, now: int)
    ensures Acceptable(suite, l, guid, c, now) <==> Genuine(suite, l, guid, c, now)
  {
    hide NumberOf, FirstGuidIs, CarriesAt;
    var parsed := suite.parseParameters(c.participantData);
    if parsed.Some? {
      FirstGuidIsExact(parsed.value, guid);
    }
  }

  // ------------------------------------------------------------- the handshake

  /** The signature in a token is one under this certificate over these octets. */
  ghost predicate SignedBy(suite: Suite, certificate: OctetSeq, octets: seq<byte>, token: Token) {
    var info := suite.parseCertificate(certificate);
    info.Some? && suite.verify(info.value.key, octets, Property(token, SIGNATURE))
  }

  ghost predicate AwaitsMessage(s: AuthState, h: int) {
    h in s.liveHandshakes && h in s.handshakes && s.handshakes[h].state == PendingHandshakeMessage
  }

  /** A reply that an initiator's handshake must accept, and what it signs. */
  ghost predicate GenuineReply(suite: Suite, hs: Handshake, l: LocalIdentity, r: RemoteIdentity, input: Token, now: int,
                               session: Session)
  {
    var c := TokenCredentials(input);
    && input.classId == REPLY_CLASS_ID
    && Genuine(suite, l, r.guid, c, now)
    && suite.hash(Encode(CredentialHash(c))) == Some(session.hash2)
    && session == Session(hs.session.hash1, session.hash2, hs.session.challenge1, Property(input, CHALLENGE2),
                          hs.session.publicKey, Property(input, KEM_CIPHERTEXT))
    && |session.challenge2| == 32 && Property(input, CHALLENGE1) == session.challenge1
    && (r.remoteChallenge != [] ==> session.challenge2 == r.remoteChallenge)
    && SignedBy(suite, c.certificate, Encode(Reply(session)), input)
  }

  /** The secret that the handshake's own key finds in a ciphertext. */
  ghost predicate Opens(suite: Suite, hs: Handshake, ciphertext: OctetSeq, secret: OctetSeq) {
    && hs.kemKey.Some? && ciphertext != []
    && suite.kemDecapsulate(hs.kemAlgorithm, hs.kemKey.value, ciphertext) == Some(secret)
  }

  /** `process_handshake` gives OK_FINAL_MESSAGE exactly for a genuine reply to an
      initiator's handshake that awaits one, if decapsulation and signing work; then
      the handshake holds the signed session, the peer's credentials and the secret. */
  lemma ReplyAcceptedExactly(suite: Suite, s: AuthState, input: Token, h: int, now: int, signature: Option<OctetSeq>)
    requires WellFormed(s)
    ensures var o := Process(suite, s, input, h, now, signature);
            o.result == OkFinalMessage <==>
              && AwaitsMessage(s, h) && s.handshakes[h].initiator && signature.Some?
              && var hs := s.handshakes[h];
              && exists session, secret ::
                   && GenuineReply(suite, hs, s.locals[hs.localHandle], s.remotes[hs.remoteHandle], input, now, session)
                   && Opens(suite, hs, session.ciphertext, secret)
                   && o.state.handshakes == s.handshakes[h := hs.(
                        state := OkFinalMessage, kemKey := None, reply := input, session := session, secret := secret,
                        remoteCertificate := Some(Property(input, C_ID)), remotePermissions := Property(input, C_PERM))]
                   && o.message == Some(FinalToken(signature.value))
                   && Signature(h, s.locals[hs.localHandle].key, Final(session)) in o.state.signed
  {
    hide Encode, StringValue, ValueOf, Terminated, Acceptable, Genuine;
    if AwaitsMessage(s, h) && s.handshakes[h].initiator && input.classId == REPLY_CLASS_ID {
      var hs := s.handshakes[h];
      var l, r := s.locals[hs.localHandle], s.remotes[hs.remoteHandle];
      AcceptsExactlyGenuine(suite, l, r.guid, TokenCredentials(input), now);
      if Accepts(suite, l, r.guid, input, now) {
        var session := Replied(suite, hs, input).session;
        var secret := Decapsulate(suite, hs.kemAlgorithm, hs.kemKey, session.ciphertext);
        if secret.Some? {
          assert Opens(suite, hs, session.ciphertext, secret.value);
        }
      }
    }
  }

  /** `process_handshake` gives OK exactly for a final message to a replier's handshake
      that awaits one, signed under the certificate it was begun with, over its session. */
  lemma FinalAcceptedExactly(suite: Suite, s: AuthState, input: Token, h: int, now: int, signature: Option<OctetSeq>)
    requires WellFormed(s)
    ensures var o := Process(suite, s, input, h, now, signature);
            o.result == ValidationOk <==>
              && AwaitsMessage(s, h) && !s.handshakes[h].initiator && input.classId == FINAL_CLASS_ID
              && var hs := s.handshakes[h];
              && hs.remoteCertificate.Some?
              && SignedBy(suite, hs.remoteCertificate.value, Encode(Final(hs.session)), input)
  {
    hide Encode, StringValue, ValueOf, Terminated, Acceptable;
  }

  /** A message that is not accepted ends the handshake that awaited one; no other
      handshake and no identity changes, and nothing is signed. */
  lemma RefusedForGood(suite: Suite, s: AuthState, input: Token, h: int, now: int, signature: Option<OctetSeq>)
    requires WellFormed(s) && Process(suite, s, input, h, now, signature).result !in {OkFinalMessage, ValidationOk}
    ensures var o := Process(suite, s, input, h, now, signature);
            && o.result == ValidationFailed && o.state.signed == s.signed
            && (AwaitsMessage(s, h) ==> h in o.state.handshakes && o.state.handshakes[h].state == ValidationFailed)
            && (!AwaitsMessage(s, h) ==> o.state == s)
            && o.state.handshakes - {h} == s.handshakes - {h}
            && o.state.locals == s.locals && o.state.remotes == s.remotes
            && o.state.liveHandshakes == s.liveHandshakes && o.state.nextHandle == s.nextHandle
  {
    hide Encode, HashOf, TokenCredentials, Property, Accepts, Replied, ChallengesMatch, Verifies, Decapsulate;
  }

  /** The replier's session for a request, and what encapsulation gives for it. */
  ghost predicate GenuineRequest(suite: Suite, l: LocalIdentity, r: RemoteIdentity, request: Token, own: Credentials, now: int,
                                 coins: Coins, nonce: Option<Nonce>, session: Session, secret: OctetSeq)
  {
    var c := TokenCredentials(request);
    && request.classId == REQUEST_CLASS_ID
    && Genuine(suite, l, r.guid, c, now)
    && suite.hash(Encode(CredentialHash(c))) == Some(session.hash1)
    && suite.hash(Encode(CredentialHash(own))) == Some(session.hash2)
    && session.challenge1 == Property(request, CHALLENGE1) && |session.challenge1| == 32
    && (r.remoteChallenge != [] ==> session.challenge1 == r.remoteChallenge)
    && DrawnChallenge(r, nonce, session.challenge2)
    && session.publicKey == Property(request, KEM_PUBLIC) && session.publicKey != []
    && suite.kemEncapsulate(l.kemAlgorithm, session.publicKey, coins) == Some((session.ciphertext, secret))
  }

  /** A challenge that was announced is the one in use; else it is the nonce. */
  ghost predicate DrawnChallenge(r: RemoteIdentity, nonce: Option<Nonce>, challenge: OctetSeq) {
    if r.localAuthRequestSent then challenge == r.localChallenge else nonce == Some(challenge)
  }

  /** `begin_handshake_reply` succeeds exactly for a genuine request between identities
      that are in the tables, if drawing and signing work. It then adds one handshake,
      and its signature is over the session of that handshake. */
  lemma RequestAnsweredExactly(suite: Suite, s: AuthState, handle: int, request: Token, ih: int, rh: int, data: OctetSeq, now: int,
                               coins: Coins, nonce: Option<Nonce>, signature: Option<OctetSeq>)
    requires WellFormed(s)
    ensures var o := BeginReply(suite, s, handle, request, ih, rh, data, now, coins, nonce, signature);
            o.result == PendingHandshakeMessage <==>
              && handle == HANDLE_NIL && rh in s.liveLocals && ih in s.liveRemotes && signature.Some?
              && rh in s.locals && ih in s.remotes
              && var l, r := s.locals[rh], s.remotes[ih];
              && exists session, secret ::
                   && GenuineRequest(suite, l, r, request, OwnCredentials(l, data), now, coins, nonce, session, secret)
                   && o.handle == s.nextHandle && o.handle in o.state.liveHandshakes
                   && o.state.handshakes.Keys == s.handshakes.Keys + {o.handle}
                   && Begins(o.state.handshakes[o.handle], false, rh, ih, session)
                   && o.state.handshakes[o.handle].secret == secret
                   && o.state.handshakes[o.handle].remoteCertificate == Some(Property(request, C_ID))
                   && o.state.handshakes[o.handle].remotePermissions == Property(request, C_PERM)
                   && o.message == Some(ReplyToken(OwnCredentials(l, data), session.ciphertext, session.challenge1,
                                                   session.challenge2, signature.value))
                   && Signature(o.handle, l.key, Reply(session)) in o.state.signed
  {
    hide Encode, StringValue, ValueOf, Terminated, Acceptable, Genuine, ReplyToken;
    if rh in s.liveLocals && ih in s.liveRemotes {
      var l, r := s.locals[rh], s.remotes[ih];
      AcceptsExactlyGenuine(suite, l, r.guid, TokenCredentials(request), now);
      var o := BeginReply(suite, s, handle, request, ih, rh, data, now, coins, nonce, signature);
      if o.result == PendingHandshakeMessage {
        var hs := o.state.handshakes[o.handle];
        assert GenuineRequest(suite, l, r, request, OwnCredentials(l, data), now, coins, nonce, hs.session, hs.secret);
      }
    }
  }

  /** A handshake as it begins. */
  ghost predicate Begins(hs: Handshake, initiator: bool, localHandle: int, remoteHandle: int, session: Session) {
    && hs.initiator == initiator && hs.state == PendingHandshakeMessage
    && hs.localHandle == localHandle && hs.remoteHandle == remoteHandle && hs.session == session
  }

  /** What `begin_handshake_reply` refuses leaves no handshake and no signature. */
  lemma RefusedRequestLeavesNothing(suite: Suite, s: AuthState, handle: int, request: Token, ih: int, rh: int, data: OctetSeq,
                                    now: int, coins: Coins, nonce: Option<Nonce>, signature: Option<OctetSeq>)
    requires WellFormed(s)
    requires BeginReply(suite, s, handle, request, ih, rh, data, now, coins, nonce, signature).result != PendingHandshakeMessage
    ensures var o := BeginReply(suite, s, handle, request, ih, rh, data, now, coins, nonce, signature);
            o.result == ValidationFailed && o.state == s.(hashed := o.state.hashed) && (o.message == None || o.message == Some(NIL_TOKEN))
  {
    hide Encode, StringValue, ValueOf, Terminated, Accepts;
  }

  /** `begin_handshake_request` succeeds exactly between identities that are in the
      tables and with participant data, if drawing works; it then adds one handshake
      that holds the drawn key, and otherwise it changes nothing. */
  lemma RequestMadeExactly(suite: Suite, s: AuthState, handle: int, ih: int, rh: int, data: OctetSeq, key: Option<SecretKey>,
                           nonce: Option<Nonce>)
    requires WellFormed(s)
    ensures var o := BeginRequest(suite, s, handle, ih, rh, data, key, nonce);
            && (o.result != PendingHandshakeMessage ==> o == Outcome(s, ValidationFailed, handle, None))
            && (o.result == PendingHandshakeMessage <==>
                  && handle == HANDLE_NIL && ih in s.liveLocals && rh in s.liveRemotes && data != [] && key.Some?
                  && ih in s.locals && rh in s.remotes
                  && var l, r := s.locals[ih], s.remotes[rh];
                  && exists challenge1: OctetSeq, hash1 ::
                       && DrawnChallenge(r, nonce, challenge1)
                       && suite.hash(Encode(CredentialHash(OwnCredentials(l, data)))) == Some(hash1)
                       && o.handle == s.nextHandle && o.handle in o.state.liveHandshakes
                       && o.state.handshakes.Keys == s.handshakes.Keys + {o.handle}
                       && Begins(o.state.handshakes[o.handle], true, ih, rh,
                                 Session(hash1, [], challenge1, [], suite.kemPublic(l.kemAlgorithm, key.value), []))
                       && o.state.handshakes[o.handle].kemKey == key
                       && o.message == Some(RequestToken(OwnCredentials(l, data), suite.kemPublic(l.kemAlgorithm, key.value),
                                                         challenge1)))
  {
    hide Encode, StringValue, ValueOf, Terminated, RequestToken;
  }

  // ---------------------------------------------------------------- identities

  /** An AuthRequest that can be kept: none at all, or one with a 256-bit challenge. */
  ghost predicate ProperRequest(request: Token) {
    (request.classId == "" && request.properties == []) ||
    (request.classId == AUTH_REQUEST_CLASS_ID && |Property(request, FUTURE_CHALLENGE)| == 32)
  }

  /** `validate_remote_identity` succeeds exactly for a compatible token and a proper
      AuthRequest, and a known handle only for the participants it was made for; then the
      side with the smaller GUID is told to send the request, the challenge of the peer is
      what the AuthRequest says, and an own AuthRequest is handed out if there was none. */
  lemma RemoteAcceptedExactly(s: AuthState, rh: int, request: Token, lh: int, identityToken: Token, guid: Guid, nonce: Option<Nonce>)
    requires WellFormed(s)
    ensures var o := ValidateRemote(s, rh, request, lh, identityToken, guid, nonce);
            var known := rh != HANDLE_NIL && rh in s.liveRemotes;
            && (o.result != ValidationFailed <==>
                  && lh in s.liveLocals && identityToken.classId == BASE_CLASS_ID && ProperRequest(request)
                  && (if known then rh in s.remotes && s.remotes[rh].localHandle == lh && s.remotes[rh].guid == guid
                      else nonce.Some?))
            && (o.result != ValidationFailed ==>
                  && o.handle in o.state.liveRemotes && o.handle in o.state.remotes && lh in s.locals
                  && var r := o.state.remotes[o.handle];
                  && o.result == (if NumberOf(s.locals[lh].guid) < NumberOf(guid) then PendingHandshakeRequest else PendingHandshakeMessage)
                  && r.localHandle == lh && r.guid == guid
                  && r.remoteChallenge == Property(request, FUTURE_CHALLENGE)
                  && (request == NIL_TOKEN ==>
                        r.localAuthRequestSent && o.message == Some(r.localAuthRequest))
                  && (request != NIL_TOKEN ==>
                        && r.localAuthRequestSent == (known && s.remotes[rh].localAuthRequestSent)
                        && o.message == Some(NIL_TOKEN))
                  && (if known then o.handle == rh && r.localChallenge == s.remotes[rh].localChallenge
                      else o.handle == s.nextHandle && nonce == Some(r.localChallenge)))
  {
    hide ValueOf, Less, NumberOf;
    if lh in s.liveLocals {
      SmallerSendsRequest(s.locals[lh].guid, guid);
    }
  }

  /** A handle that is refused for other participants, or without a nonce, changes
      nothing; a new identity stays although its AuthRequest is refused, and a known one
      keeps its own challenge. */
  lemma RefusedRemote(s: AuthState, rh: int, request: Token, lh: int, identityToken: Token, guid: Guid, nonce: Option<Nonce>)
    requires WellFormed(s) && ValidateRemote(s, rh, request, lh, identityToken, guid, nonce).result == ValidationFailed
    ensures var o := ValidateRemote(s, rh, request, lh, identityToken, guid, nonce);
            && o.message == None
            && (ProperRequest(request) ==> o.state == s && o.handle == rh)
            && (o.state != s ==>
                  && o.handle in o.state.liveRemotes && o.state.remotes.Keys == s.remotes.Keys + {o.handle}
                  && o.state.remotes[o.handle].remoteAuthRequest == request
                  && (o.handle in s.remotes ==>
                        o.state.remotes[o.handle].localChallenge == s.remotes[o.handle].localChallenge)
                  && (o.handle !in s.remotes ==> nonce == Some(o.state.remotes[o.handle].localChallenge)))
  {
    hide ValueOf, Less;
  }

  /** `validate_local_identity` succeeds exactly with an ML-DSA certificate and a KEM of
      the list that OpenSSL offers, and then holds these under the next handle. */
  lemma LocalAcceptedExactly(s: AuthState, loaded: Option<Loaded>, kem: CString, available: bool, adjusted: Option<Guid>)
    requires WellFormed(s)
    ensures var o := ValidateLocal(s, loaded, kem, available, adjusted);
            && (o.result == ValidationOk <==>
                  && loaded.Some? && adjusted.Some? && available
                  && loaded.value.info.signatureAlgorithm in {"ML-DSA-44", "ML-DSA-65", "ML-DSA-87"}
                  && kem in {"ML-KEM-512", "ML-KEM-768", "ML-KEM-1024", "X25519MLKEM768", "SecP256r1MLKEM768", "frodo640shake",
                             "bikel1", "hqc128"})
            && (o.result == ValidationOk ==>
                  && o.handle == s.nextHandle && o.handle in o.state.liveLocals && o.handle in o.state.locals
                  && var l := o.state.locals[o.handle];
                  && l.certificate == loaded.value.certificate && l.key == loaded.value.info.key && l.ca == loaded.value.ca
                  && l.signatureAlgorithm == loaded.value.info.signatureAlgorithm
                  && l.permissions == loaded.value.permissions && l.kemAlgorithm == kem && Some(l.guid) == adjusted)
            && (o.result != ValidationOk ==> o.state == s && o.result == ValidationFailed)
  {
  }

  /** A permissions document that was set is what the next request carries, and so is
      the certificate of the identity. */
  lemma PermissionsAreSent(suite: Suite, s: AuthState, ih: int, document: OctetSeq, rh: int, data: OctetSeq, key: SecretKey,
                           nonce: Option<Nonce>)
    requires WellFormed(s) && SetPermissions(s, ih, Some(document)).result == ValidationOk
    ensures var t := SetPermissions(s, ih, Some(document)).state;
            WellFormed(t) &&
            var o := BeginRequest(suite, t, HANDLE_NIL, ih, rh, data, Some(key), nonce);
            o.message.Some? ==>
              && Property(o.message.value, C_PERM) == document
              && Property(o.message.value, C_ID) == s.locals[ih].certificate && Property(o.message.value, C_PDATA) == data
  {
    hide Encode, StringValue, ValueOf, Terminated, RequestToken;
    var t := SetPermissions(s, ih, Some(document)).state;
    var o := BeginRequest(suite, t, HANDLE_NIL, ih, rh, data, Some(key), nonce);
    if o.message.Some? {
      var l := t.locals[ih];
      var publicKey, challenge := suite.kemPublic(l.kemAlgorithm, key), OwnChallenge(t.remotes[rh], nonce).value;
      HonestRun.RequestReadBack(OwnCredentials(l, data), publicKey, challenge);
      assert TokenCredentials(RequestToken(OwnCredentials(l, data), publicKey, challenge)) == OwnCredentials(l, data);
    }
  }
}
