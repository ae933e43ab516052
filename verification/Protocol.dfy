/** The OpenDDS authentication plugin as functions on its state: one function per
    call of the Authentication SPI, with the branches of the source. The class
    `Plugin.Authentication` implements them step by step; `Network` runs many of
    them against each other. */
module Protocol {
  import opened Octets
  import opened Guids
  import opened Xcdr
  import opened Transcript
  import opened Environment

  const HANDLE_NIL := 0
  const BASE_CLASS_ID: CString := "pqsec-dds.auth:1.0"
  const AUTH_REQUEST_CLASS_ID: CString := "pqsec-dds.auth:1.0+AuthReq"
  const REQUEST_CLASS_ID: CString := "pqsec-dds.auth:1.0+Req"
  const REPLY_CLASS_ID: CString := "pqsec-dds.auth:1.0+Reply"
  const FINAL_CLASS_ID: CString := "pqsec-dds.auth:1.0+Final"
  const DEFAULT_KEM: CString := "X25519MLKEM768"
  const FUTURE_CHALLENGE: CString := "future_challenge"
  const SIGNATURE: CString := "signature"

  datatype ValidationResult =
    | ValidationOk
    | ValidationFailed
    | PendingHandshakeRequest
    | PendingHandshakeMessage
    | OkFinalMessage

  // -------------------------------------------------------------------- tokens

  datatype Token = Token(classId: CString, properties: seq<BinaryProperty>)

  const NIL_TOKEN := Token("", [])

  predicate IsNil(token: Token) {
    token.classId == "" && token.properties == []
  }

  /** `get_bin_property_value`: the first property of that name, or nothing. */
  function ValueOf(properties: seq<BinaryProperty>, name: CString): OctetSeq {
    if properties == [] then []
    else if properties[0].name == name then properties[0].value
    else ValueOf(properties[1..], name)
  }

  function Property(token: Token, name: CString): OctetSeq {
    ValueOf(token.properties, name)
  }

  function AuthRequestToken(challenge: OctetSeq): Token {
    Token(AUTH_REQUEST_CLASS_ID, [Binary(FUTURE_CHALLENGE, challenge)])
  }

  function CredentialProperties(c: Credentials): seq<BinaryProperty> {
    [Binary(C_ID, c.certificate),
     Binary(C_PERM, c.permissions),
     Binary(C_PDATA, c.participantData),
     Text(C_DSIGN_ALGO, c.signatureAlgorithm),
     Text(C_KAGREE_ALGO, c.kemAlgorithm)]
  }

  function RequestToken(c: Credentials, publicKey: OctetSeq, challenge1: OctetSeq): Token {
    Token(REQUEST_CLASS_ID, CredentialProperties(c) + [
      Binary(KEM_PUBLIC, publicKey),
      Binary(CHALLENGE1, challenge1)])
  }

  function ReplyToken(c: Credentials, ciphertext: OctetSeq, challenge1: OctetSeq, challenge2: OctetSeq,
                      signature: OctetSeq): Token {
    Token(REPLY_CLASS_ID, CredentialProperties(c) + [
      Binary(KEM_CIPHERTEXT, ciphertext),
      Binary(CHALLENGE1, challenge1),
      Binary(CHALLENGE2, challenge2),
      Binary(SIGNATURE, signature)])
  }

  function FinalToken(signature: OctetSeq): Token {
    Token(FINAL_CLASS_ID, [Binary(SIGNATURE, signature)])
  }

  // --------------------------------------------------------------------- state

  datatype LocalIdentity = LocalIdentity(
    certificate: OctetSeq,
    signatureAlgorithm: CString,
    key: PublicKey,          // the public half of the participant's private key
    ca: OctetSeq,
    permissions: OctetSeq,
    guid: Guid,
    kemAlgorithm: CString)

  datatype RemoteIdentity = RemoteIdentity(
    localHandle: int,
    guid: Guid,
    localAuthRequest: Token,
    remoteAuthRequest: Token,
    localChallenge: OctetSeq,
    remoteChallenge: OctetSeq,
    localAuthRequestSent: bool)

  datatype Handshake = Handshake(
    initiator: bool,
    state: ValidationResult,
    localHandle: int,
    remoteHandle: int,
    kemAlgorithm: CString,
    kemKey: Option<SecretKey>,
    request: Token,
    reply: Token,
    session: Session,
    secret: OctetSeq,
    remoteCertificate: Option<OctetSeq>,
    remotePermissions: OctetSeq)

  /** A signature made: by whom, in which handshake, over what. */
  datatype Signature = Signature(handle: int, key: PublicKey, message: Message)

  /** The three tables of the plugin. An identity or a handshake that leaves its
      table can still be held by a shared pointer, so the maps keep every object
      ever made, under the handle it got, and the `live` sets are the keys of the
      tables. The last three fields are history: what was signed, which
      credentials were hashed, which handshakes decapsulated. */
  datatype AuthState = AuthState(
    nextHandle: int,
    locals: map<int, LocalIdentity>,
    liveLocals: set<int>,
    remotes: map<int, RemoteIdentity>,
    liveRemotes: set<int>,
    handshakes: map<int, Handshake>,
    liveHandshakes: set<int>,
    signed: set<Signature>,
    hashed: set<Credentials>,
    decapsulated: multiset<int>)

  const INITIAL := AuthState(1, map[], {}, map[], {}, map[], {}, {}, {}, multiset{})

  /** The new state and what the caller gets; an absent token was not written. */
  datatype Outcome = Outcome(
    state: AuthState,
    result: ValidationResult,
    handle: int,
    message: Option<Token>)

  /** Handles were all given out by the counter, and live objects exist. */
  ghost predicate WellFormed(s: AuthState) {
    && s.nextHandle >= 1
    && s.liveLocals <= s.locals.Keys
    && s.liveRemotes <= s.remotes.Keys
    && s.liveHandshakes <= s.handshakes.Keys
    && (forall h :: h in s.locals ==> 0 < h < s.nextHandle)
    && (forall h :: h in s.remotes ==> 0 < h < s.nextHandle)
    && (forall h :: h in s.handshakes ==> 0 < h < s.nextHandle)
    && s.locals.Keys !! s.remotes.Keys
    && s.locals.Keys !! s.handshakes.Keys
    && s.remotes.Keys !! s.handshakes.Keys
    && (forall h :: h in s.handshakes ==>
          && s.handshakes[h].localHandle in s.locals
          && s.handshakes[h].remoteHandle in s.remotes)
  }

  // ---------------------------------------------------------------- algorithms

  predicate IsMldsa(name: CString) {
    name == "ML-DSA-44" || name == "ML-DSA-65" || name == "ML-DSA-87"
  }

  predicate IsKem(name: CString) {
    name == "ML-KEM-512" || name == "ML-KEM-768" || name == "ML-KEM-1024" ||
    name == "X25519MLKEM768" || name == "SecP256r1MLKEM768" || name == "frodo640shake" ||
    name == "bikel1" || name == "hqc128"
  }

  // ---------------------------------------------------------- local identities

  /** What loading the participant's credentials gives. */
  datatype Loaded = Loaded(certificate: OctetSeq, info: Certificate, ca: OctetSeq, permissions: OctetSeq)

  /** `validate_local_identity`, with the credentials that were loaded and
      validated, the KEM that the properties select, whether OpenSSL offers it,
      and the derived GUID. */
  function ValidateLocal(s: AuthState, loaded: Option<Loaded>, kem: CString, available: bool,
                         adjusted: Option<Guid>): Outcome
  {
    if loaded.None? || !IsMldsa(loaded.value.info.signatureAlgorithm) || !IsKem(kem) || !available || adjusted.None? then
      Outcome(s, ValidationFailed, HANDLE_NIL, None)
    else
      var h := s.nextHandle;
      var l := loaded.value;
      var identity := LocalIdentity(l.certificate, l.info.signatureAlgorithm, l.info.key, l.ca, l.permissions,
                                    adjusted.value, kem);
      Outcome(s.(nextHandle := h + 1, locals := s.locals[h := identity], liveLocals := s.liveLocals + {h}),
              ValidationOk, h, None)
  }

  /** `set_permissions_credential_and_token`, with the document that loading the
      credential gives. */
  function SetPermissions(s: AuthState, handle: int, document: Option<OctetSeq>): Outcome
    requires WellFormed(s)
  {
    if handle !in s.liveLocals || document.None? then
      Outcome(s, ValidationFailed, handle, None)
    else
      Outcome(s.(locals := s.locals[handle := s.locals[handle].(permissions := document.value)]),
              ValidationOk, handle, None)
  }

  // --------------------------------------------------------- remote identities

  function NewRemote(localHandle: int, guid: Guid, nonce: Nonce): RemoteIdentity {
    RemoteIdentity(localHandle, guid, AuthRequestToken(nonce), NIL_TOKEN, nonce, [], false)
  }

  /** What an AuthRequest does to a remote identity, and whether it is acceptable. */
  function RecordRequest(r: RemoteIdentity, request: Token): (RemoteIdentity, bool) {
    var r1 := r.(remoteAuthRequest := request);
    if !IsNil(request) && request.classId != AUTH_REQUEST_CLASS_ID then (r1, false) else
      var r2 := r1.(remoteChallenge := Property(request, FUTURE_CHALLENGE));
      if !IsNil(request) && |r2.remoteChallenge| != 32 then (r2, false)
      else if IsNil(request) then (r2.(localAuthRequestSent := true), true)
      else (r2, true)
  }

  /** `validate_remote_identity`; the nonce is used when the identity is new. */
  function ValidateRemote(s: AuthState, remoteHandle: int, request: Token, localHandle: int, identityToken: Token,
                          guid: Guid, nonce: Option<Nonce>): Outcome
    requires WellFormed(s)
  {
    var known := remoteHandle != HANDLE_NIL && remoteHandle in s.liveRemotes;
    if || localHandle !in s.liveLocals
       || identityToken.classId != BASE_CLASS_ID
       || (known && (s.remotes[remoteHandle].localHandle != localHandle || s.remotes[remoteHandle].guid != guid))
       || (!known && nonce.None?)
    then
      Outcome(s, ValidationFailed, remoteHandle, None)
    else
      var h := if known then remoteHandle else s.nextHandle;
      var before := if known then s.remotes[h] else NewRemote(localHandle, guid, nonce.value);
      var (after, acceptable) := RecordRequest(before, request);
      var s' := s.(nextHandle := if known then s.nextHandle else s.nextHandle + 1,
                   remotes := s.remotes[h := after],
                   liveRemotes := s.liveRemotes + {h});
      if !acceptable then Outcome(s', ValidationFailed, h, None) else
        var result := if RoleOf(s.locals[localHandle].guid, guid) == SendsRequest
                      then PendingHandshakeRequest else PendingHandshakeMessage;
        Outcome(s', result, h, Some(if IsNil(request) then after.localAuthRequest else NIL_TOKEN))
  }

  // ---------------------------------------------------------------- handshakes

  function OwnCredentials(l: LocalIdentity, participantData: OctetSeq): Credentials {
    Credentials(l.certificate, l.permissions, participantData, l.signatureAlgorithm, l.kemAlgorithm)
  }

  function HashOf(suite: Suite, c: Credentials): Option<OctetSeq> {
    suite.hash(Encode(CredentialHash(c)))
  }

  /** The challenge announced in an AuthRequest, if one was sent, else the nonce. */
  function OwnChallenge(r: RemoteIdentity, nonce: Option<Nonce>): Option<OctetSeq> {
    if r.localAuthRequestSent then Some(r.localChallenge)
    else if nonce.Some? then Some(nonce.value) else None
  }

  function NewHandshake(initiator: bool, localHandle: int, remoteHandle: int, kem: CString): Handshake {
    Handshake(initiator, ValidationFailed, localHandle, remoteHandle, kem, None, NIL_TOKEN, NIL_TOKEN,
              Session([], [], [], [], [], []), [], None, [])
  }

  function AddHandshake(s: AuthState, hs: Handshake): AuthState {
    var h := s.nextHandle;
    s.(nextHandle := h + 1, handshakes := s.handshakes[h := hs], liveHandshakes := s.liveHandshakes + {h})
  }

  /** `begin_handshake_request`; `key` is the generated KEM key, if that worked. */
  function BeginRequest(suite: Suite, s: AuthState, handle: int, initiatorHandle: int, replierHandle: int,
                        participantData: OctetSeq, key: Option<SecretKey>, nonce: Option<Nonce>): Outcome
    requires WellFormed(s)
  {
    if handle != HANDLE_NIL || initiatorHandle !in s.liveLocals || replierHandle !in s.liveRemotes || participantData == [] then
      Outcome(s, ValidationFailed, handle, None)
    else
      var l := s.locals[initiatorHandle];
      var challenge := OwnChallenge(s.remotes[replierHandle], nonce);
      var c := OwnCredentials(l, participantData);
      var hash := HashOf(suite, c);
      if key.None? || challenge.None? then Outcome(s, ValidationFailed, handle, None)
      else if hash.None? then Outcome(s, ValidationFailed, handle, None)
      else
        var publicKey := suite.kemPublic(l.kemAlgorithm, key.value);
        var message := RequestToken(c, publicKey, challenge.value);
        var hs := NewHandshake(true, initiatorHandle, replierHandle, l.kemAlgorithm).(
                    state := PendingHandshakeMessage,
                    kemKey := key,
                    request := message,
                    session := Session(hash.value, [], challenge.value, [], publicKey, []));
        Outcome(AddHandshake(s, hs).(hashed := s.hashed + {c}), PendingHandshakeMessage, s.nextHandle, Some(message))
  }

  /** The credential fields that a token carries. */
  function TokenCredentials(token: Token): Credentials {
    Credentials(Property(token, C_ID), Property(token, C_PERM), Property(token, C_PDATA),
                StringValue(Property(token, C_DSIGN_ALGO)), StringValue(Property(token, C_KAGREE_ALGO)))
  }

  /** `validate_remote_credentials`: whether the credentials are those of the
      participant with this GUID. */
  ghost predicate Acceptable(suite: Suite, l: LocalIdentity, guid: Guid, c: Credentials, now: int) {
    && IsMldsa(c.signatureAlgorithm)
    && c.kemAlgorithm == l.kemAlgorithm
    && var certificate := suite.parseCertificate(c.certificate);
    && certificate.Some?
    && suite.certificateValid(l.ca, c.certificate, now)
    && certificate.value.signatureAlgorithm == c.signatureAlgorithm
    && CertificateHasGuid(certificate.value, guid)
    && ParticipantDataHasGuid(suite, c.participantData, guid)
  }

  ghost predicate Accepts(suite: Suite, l: LocalIdentity, guid: Guid, token: Token, now: int) {
    var c := TokenCredentials(token);
    Acceptable(suite, l, guid, c, now) && HashOf(suite, c).Some?
  }

  /** `begin_handshake_reply`; `coins` and `signature` are what encapsulation and
      signing draw, the latter absent if signing fails. */
  ghost function BeginReply(suite: Suite, s: AuthState, handle: int, request: Token, initiatorHandle: int,
                            replierHandle: int, participantData: OctetSeq, now: int, coins: Coins,
                            nonce: Option<Nonce>, signature: Option<OctetSeq>): Outcome
    requires WellFormed(s)
  {
    if handle != HANDLE_NIL then Outcome(s, ValidationFailed, handle, None)
    else if replierHandle !in s.liveLocals || initiatorHandle !in s.liveRemotes || request.classId != REQUEST_CLASS_ID then
      Outcome(s, ValidationFailed, handle, Some(NIL_TOKEN))
    else
      var l := s.locals[replierHandle];
      var r := s.remotes[initiatorHandle];
      if !Accepts(suite, l, r.guid, request, now) then Outcome(s, ValidationFailed, handle, Some(NIL_TOKEN)) else
        var c1 := TokenCredentials(request);
        var hashed := s.hashed + {c1};
        var challenge1 := Property(request, CHALLENGE1);
        var publicKey := Property(request, KEM_PUBLIC);
        var sent := Encapsulate(suite, l.kemAlgorithm, publicKey, coins);
        var challenge2 := OwnChallenge(r, nonce);
        var c2 := OwnCredentials(l, participantData);
        var hash2 := HashOf(suite, c2);
        if || |challenge1| != 32
           || (r.remoteChallenge != [] && challenge1 != r.remoteChallenge)
           || sent.None?
           || challenge2.None?
           || hash2.None?
        then
          Outcome(s.(hashed := hashed), ValidationFailed, handle, Some(NIL_TOKEN))
        else if signature.None? then
          Outcome(s.(hashed := hashed + {c2}), ValidationFailed, handle, Some(NIL_TOKEN))
        else
          var session := Session(HashOf(suite, c1).value, hash2.value, challenge1, challenge2.value, publicKey, sent.value.0);
          var message := ReplyToken(c2, sent.value.0, challenge1, challenge2.value, signature.value);
          var hs := NewHandshake(false, replierHandle, initiatorHandle, l.kemAlgorithm).(
                      state := PendingHandshakeMessage,
                      request := request,
                      reply := message,
                      session := session,
                      secret := sent.value.1,
                      remoteCertificate := Some(c1.certificate),
                      remotePermissions := c1.permissions);
          Outcome(AddHandshake(s, hs).(hashed := hashed + {c2},
                                       signed := s.signed + {Signature(s.nextHandle, l.key, Reply(session))}),
                  PendingHandshakeMessage, s.nextHandle, Some(message))
  }

  ghost predicate Verifies(suite: Suite, certificate: OctetSeq, message: Message, signature: OctetSeq) {
    var parsed := suite.parseCertificate(certificate);
    parsed.Some? && suite.verify(parsed.value.key, Encode(message), signature)
  }

  function SetHandshake(s: AuthState, handle: int, hs: Handshake): AuthState {
    s.(handshakes := s.handshakes[handle := hs])
  }

  /** `process_handshake` on a reply: the handshake after the credentials were
      found acceptable and the challenge and ciphertext were copied. */
  ghost function Replied(suite: Suite, hs: Handshake, input: Token): Handshake
    requires HashOf(suite, TokenCredentials(input)).Some?
  {
    var c := TokenCredentials(input);
    hs.(remoteCertificate := Some(c.certificate),
        remotePermissions := c.permissions,
        session := hs.session.(hash2 := HashOf(suite, c).value,
                               challenge2 := Property(input, CHALLENGE2),
                               ciphertext := Property(input, KEM_CIPHERTEXT)))
  }

  ghost predicate ChallengesMatch(r: RemoteIdentity, replied: Handshake, input: Token) {
    && |replied.session.challenge2| == 32
    && Property(input, CHALLENGE1) == replied.session.challenge1
    && (r.remoteChallenge != [] ==> replied.session.challenge2 == r.remoteChallenge)
  }

  /** The branch of `process_handshake` that handles a reply. */
  ghost function ProcessReply(suite: Suite, s: AuthState, input: Token, handle: int, now: int,
                              signature: Option<OctetSeq>): Outcome
    requires handle in s.handshakes
    requires s.handshakes[handle].localHandle in s.locals && s.handshakes[handle].remoteHandle in s.remotes
  {
    var hs := s.handshakes[handle];
    var l := s.locals[hs.localHandle];
    var r := s.remotes[hs.remoteHandle];
    if !Accepts(suite, l, r.guid, input, now) then
      Outcome(SetHandshake(s, handle, hs.(state := ValidationFailed)), ValidationFailed, handle, Some(NIL_TOKEN))
    else
      var replied := Replied(suite, hs, input);
      var s1 := s.(hashed := s.hashed + {TokenCredentials(input)});
      if || !ChallengesMatch(r, replied, input)
         || !Verifies(suite, replied.remoteCertificate.value, Reply(replied.session), Property(input, SIGNATURE))
      then
        Outcome(SetHandshake(s1, handle, replied.(state := ValidationFailed)), ValidationFailed, handle, Some(NIL_TOKEN))
      else
        var secret := Decapsulate(suite, hs.kemAlgorithm, hs.kemKey, replied.session.ciphertext);
        var s2 := s1.(decapsulated := s.decapsulated + multiset{handle});
        var cleared := replied.(kemKey := None);
        if secret.None? then
          Outcome(SetHandshake(s2, handle, cleared.(state := ValidationFailed)), ValidationFailed, handle, Some(NIL_TOKEN))
        else
          var agreed := cleared.(secret := secret.value);
          if signature.None? then
            Outcome(SetHandshake(s2, handle, agreed.(state := ValidationFailed)), ValidationFailed, handle, Some(NIL_TOKEN))
          else
            var done := agreed.(reply := input, state := OkFinalMessage);
            Outcome(SetHandshake(s2, handle, done).(
                      signed := s.signed + {Signature(handle, l.key, Final(done.session))}),
                    OkFinalMessage, handle, Some(FinalToken(signature.value)))
  }

  /** `process_handshake`; `signature` is what signing the final message draws. */
  ghost function Process(suite: Suite, s: AuthState, input: Token, handle: int, now: int,
                         signature: Option<OctetSeq>): Outcome
    requires WellFormed(s)
  {
    if handle !in s.liveHandshakes then Outcome(s, ValidationFailed, handle, None) else
      var hs := s.handshakes[handle];
      if hs.state != PendingHandshakeMessage then Outcome(s, ValidationFailed, handle, Some(NIL_TOKEN))
      else if hs.initiator && input.classId == REPLY_CLASS_ID then ProcessReply(suite, s, input, handle, now, signature)
      else if && !hs.initiator
              && input.classId == FINAL_CLASS_ID
              && hs.remoteCertificate.Some?
              && Verifies(suite, hs.remoteCertificate.value, Final(hs.session), Property(input, SIGNATURE))
      then
        Outcome(SetHandshake(s, handle, hs.(state := ValidationOk)), ValidationOk, handle, Some(NIL_TOKEN))
      else
        Outcome(SetHandshake(s, handle, hs.(state := ValidationFailed)), ValidationFailed, handle, Some(NIL_TOKEN))
  }

  // ------------------------------------------------------------------- results

  predicate Completed(s: AuthState, handle: int)
    requires WellFormed(s)
  {
    handle in s.liveHandshakes &&
    (s.handshakes[handle].state == ValidationOk || s.handshakes[handle].state == OkFinalMessage)
  }

  datatype SharedSecret = SharedSecret(challenge1: OctetSeq, challenge2: OctetSeq, secret: OctetSeq)

  /** `get_shared_secret`. */
  function GetSharedSecret(s: AuthState, handle: int): Option<SharedSecret>
    requires WellFormed(s)
  {
    if !Completed(s, handle) then None else
      var hs := s.handshakes[handle];
      Some(SharedSecret(hs.session.challenge1, hs.session.challenge2, hs.secret))
  }

  /** `get_authenticated_peer_credential_token`: certificate and permissions. */
  function GetPeerCredentials(s: AuthState, handle: int): Option<(OctetSeq, OctetSeq)>
    requires WellFormed(s)
  {
    if !Completed(s, handle) || s.handshakes[handle].remoteCertificate.None? then None
    else Some((s.handshakes[handle].remoteCertificate.value, s.handshakes[handle].remotePermissions))
  }

  /** `return_handshake_handle`. */
  function ReturnHandshake(s: AuthState, handle: int): Outcome {
    if handle !in s.liveHandshakes then Outcome(s, ValidationFailed, handle, None)
    else Outcome(s.(liveHandshakes := s.liveHandshakes - {handle}), ValidationOk, handle, None)
  }

  /** `return_identity_handle`. */
  function ReturnIdentity(s: AuthState, handle: int): Outcome {
    if handle in s.liveLocals then Outcome(s.(liveLocals := s.liveLocals - {handle}), ValidationOk, handle, None)
    else if handle in s.liveRemotes then Outcome(s.(liveRemotes := s.liveRemotes - {handle}), ValidationOk, handle, None)
    else Outcome(s, ValidationFailed, handle, None)
  }
}
