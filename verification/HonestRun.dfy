/** Two OpenDDS plugins that run one handshake over an honest channel, while
    AuthRequest tokens are announced, delivered, repeated or lost at any time. */
module HonestRun {
  import opened Octets
  import opened Guids
  import opened Xcdr
  import opened Transcript
  import opened Environment
  import opened Protocol
  import opened Invariant

  // -------------------------------------------------- reading back what was written

  lemma NamesDistinct()
    ensures |C_ID| == 4 && |C_PERM| == 6 && |C_PDATA| == 7 && |C_DSIGN_ALGO| == 12 && |C_KAGREE_ALGO| == 13
    ensures |KEM_PUBLIC| == 20 && |KEM_CIPHERTEXT| == 24 && |SIGNATURE| == 9
    ensures |CHALLENGE1| == |CHALLENGE2| == 10 && CHALLENGE1 != CHALLENGE2
  {
    assert CHALLENGE1[9] == '1' && CHALLENGE2[9] == '2';
  }

  /** The value at the first place where a name occurs. */
  lemma {:induction false} ValueAt(ps: seq<BinaryProperty>, name: CString, i: nat)
    requires i < |ps| && ps[i].name == name && forall k :: 0 <= k < i ==> ps[k].name != name
    ensures ValueOf(ps, name) == ps[i].value
  {
    if i > 0 {
      ValueAt(ps[1..], name, i - 1);
    }
  }

  lemma CredentialsReadBack(token: Token, c: Credentials)
    requires |token.properties| >= 5 && token.properties[..5] == Protocol.CredentialProperties(c)
    ensures TokenCredentials(token) == c
  {
    NamesDistinct();
    var ps := token.properties;
    assert forall i :: 0 <= i < 5 ==> ps[i] == Protocol.CredentialProperties(c)[i];
    ValueAt(ps, C_ID, 0);
    ValueAt(ps, C_PERM, 1);
    ValueAt(ps, C_PDATA, 2);
    ValueAt(ps, C_DSIGN_ALGO, 3);
    ValueAt(ps, C_KAGREE_ALGO, 4);
    StringValueOfTerminated(c.signatureAlgorithm);
    StringValueOfTerminated(c.kemAlgorithm);
  }

  lemma RequestReadBack(c: Credentials, publicKey: OctetSeq, challenge1: OctetSeq)
    ensures var token := RequestToken(c, publicKey, challenge1);
            && token.classId == REQUEST_CLASS_ID && TokenCredentials(token) == c
            && Property(token, KEM_PUBLIC) == publicKey && Property(token, CHALLENGE1) == challenge1
  {
    NamesDistinct();
    var token := RequestToken(c, publicKey, challenge1);
    CredentialsReadBack(token, c);
    ValueAt(token.properties, KEM_PUBLIC, 5);
    ValueAt(token.properties, CHALLENGE1, 6);
  }

  lemma ReplyReadBack(c: Credentials, ciphertext: OctetSeq, challenge1: OctetSeq, challenge2: OctetSeq, signature: OctetSeq)
    ensures var token := ReplyToken(c, ciphertext, challenge1, challenge2, signature);
            && token.classId == REPLY_CLASS_ID && TokenCredentials(token) == c
            && Property(token, KEM_CIPHERTEXT) == ciphertext && Property(token, CHALLENGE1) == challenge1
            && Property(token, CHALLENGE2) == challenge2 && Property(token, SIGNATURE) == signature
  {
    NamesDistinct();
    var token := ReplyToken(c, ciphertext, challenge1, challenge2, signature);
    CredentialsReadBack(token, c);
    ValueAt(token.properties, KEM_CIPHERTEXT, 5);
    ValueAt(token.properties, CHALLENGE1, 6);
    ValueAt(token.properties, CHALLENGE2, 7);
    ValueAt(token.properties, SIGNATURE, 8);
  }

  // ------------------------------------------------------------- the two plugins

  /** A plugin, the identity it uses and its handle for the other participant. */
  datatype Side = Side(state: AuthState, local: int, remote: int)

  ghost predicate Ready(x: Side) {
    && WellFormed(x.state) && x.local in x.state.liveLocals && x.remote in x.state.liveRemotes
    && x.state.remotes[x.remote].localHandle == x.local
    && RemoteSound(x.state.remotes[x.remote])
  }

  function Identity(x: Side): LocalIdentity
    requires x.local in x.state.locals
  {
    x.state.locals[x.local]
  }

  function Peer(x: Side): RemoteIdentity
    requires x.remote in x.state.remotes
  {
    x.state.remotes[x.remote]
  }

  /** What x knows of y's challenge is what y announced. */
  ghost predicate Heard(x: Side, y: Side)
    requires Ready(x) && Ready(y)
  {
    && Peer(x).guid == Identity(y).guid
    && (Peer(x).remoteChallenge != [] ==>
          Peer(y).localAuthRequestSent && Peer(x).remoteChallenge == Peer(y).localChallenge)
  }

  ghost predicate Meeting(x: Side, y: Side) {
    Ready(x) && Ready(y) && Heard(x, y) && Heard(y, x)
  }

  /** What can happen to the AuthRequest tokens at one side: it announces its
      challenge, or it is handed the token that the other announced, again or for
      the first time. A token that is lost makes no delivery. */
  datatype Delivery = Announce | Deliver

  const IDENTITY_TOKEN := Token(BASE_CLASS_ID, [])

  function Receive(x: Side, y: Side, d: Delivery): Side
    requires WellFormed(x.state)
    requires x.remote in x.state.remotes && y.remote in y.state.remotes
  {
    match d
    case Announce =>
      x.(state := ValidateRemote(x.state, x.remote, NIL_TOKEN, x.local, IDENTITY_TOKEN, Peer(x).guid, None).state)
    case Deliver =>
      if !Peer(y).localAuthRequestSent then x else
        x.(state := ValidateRemote(x.state, x.remote, Peer(y).localAuthRequest, x.local, IDENTITY_TOKEN, Peer(x).guid, None).state)
  }

  /** What a delivery leaves alone. */
  ghost predicate Undisturbed(x: Side, x': Side) {
    && x'.local == x.local && x'.remote == x.remote
    && x'.local in x.state.locals && x'.local in x'.state.locals && Identity(x') == Identity(x)
    && x.remote in x.state.remotes && x.remote in x'.state.remotes && SameRemote(Peer(x), Peer(x'))
    && x'.state.handshakes == x.state.handshakes && x'.state.liveHandshakes == x.state.liveHandshakes
    && x'.state.locals == x.state.locals && x'.state.liveLocals == x.state.liveLocals
  }

  lemma AnnouncementReadBack(challenge: OctetSeq)
    ensures !IsNil(AuthRequestToken(challenge))
    ensures Property(AuthRequestToken(challenge), FUTURE_CHALLENGE) == challenge
    ensures IsNil(NIL_TOKEN) && Property(NIL_TOKEN, FUTURE_CHALLENGE) == []
  {
  }

  lemma ReceiveKeeps(x: Side, y: Side, d: Delivery)
    requires Meeting(x, y)
    ensures var x' := Receive(x, y, d); Meeting(x', y) && Undisturbed(x, x')
    ensures var p := Peer(Receive(x, y, d));
            p == match d
                 case Announce => Peer(x).(remoteAuthRequest := NIL_TOKEN, remoteChallenge := [], localAuthRequestSent := true)
                 case Deliver =>
                   if !Peer(y).localAuthRequestSent then Peer(x)
                   else Peer(x).(remoteAuthRequest := Peer(y).localAuthRequest, remoteChallenge := Peer(y).localChallenge)
  {
    hide ValueOf, RoleOf, AuthRequestToken, Property, IsNil;
    AnnouncementReadBack(Peer(y).localChallenge);
    assert AuthRequestToken(Peer(y).localChallenge).classId == AUTH_REQUEST_CLASS_ID by {
      AuthRequestClass(Peer(y).localChallenge);
    }
    RecordOfAnnouncement(Peer(x), Peer(y).localChallenge);
  }

  lemma AuthRequestClass(challenge: OctetSeq)
    ensures AuthRequestToken(challenge).classId == AUTH_REQUEST_CLASS_ID
  {
  }

  lemma RecordOfAnnouncement(r: RemoteIdentity, challenge: OctetSeq)
    ensures RecordRequest(r, NIL_TOKEN) ==
            (r.(remoteAuthRequest := NIL_TOKEN, remoteChallenge := [], localAuthRequestSent := true), true)
    ensures |challenge| == 32 ==>
            RecordRequest(r, AuthRequestToken(challenge)) ==
            (r.(remoteAuthRequest := AuthRequestToken(challenge), remoteChallenge := challenge), true)
  {
    AnnouncementReadBack(challenge);
  }

  /** Deliveries to either side, in any order. */
  datatype Traffic = AtFirst(d: Delivery) | AtSecond(d: Delivery)

  ghost function Exchange(x: Side, y: Side, traffic: seq<Traffic>): (Side, Side)
    requires Meeting(x, y)
    decreases |traffic|
  {
    if traffic == [] then (x, y) else
      match traffic[0]
      case AtFirst(d) => ReceiveKeeps(x, y, d); Exchange(Receive(x, y, d), y, traffic[1..])
      case AtSecond(d) => ReceiveKeeps(y, x, d); Exchange(x, Receive(y, x, d), traffic[1..])
  }

  lemma {:induction false} ExchangeKeeps(x: Side, y: Side, traffic: seq<Traffic>)
    requires Meeting(x, y)
    ensures var (x', y') := Exchange(x, y, traffic);
            Meeting(x', y') && Undisturbed(x, x') && Undisturbed(y, y')
    decreases |traffic|
  {
    hide Receive;
    if traffic != [] {
      match traffic[0]
      case AtFirst(d) =>
        ReceiveKeeps(x, y, d);
        ExchangeKeeps(Receive(x, y, d), y, traffic[1..]);
      case AtSecond(d) =>
        ReceiveKeeps(y, x, d);
        ExchangeKeeps(x, Receive(y, x, d), traffic[1..]);
    }
  }

  // ---------------------------------------------------------------- the handshake

  /** `x` accepts the credentials that `y` presents. */
  ghost predicate Trusts(suite: Suite, x: Side, y: Side, data: OctetSeq, now: int)
    requires Ready(x) && Ready(y)
  {
    var c := OwnCredentials(Identity(y), data);
    Acceptable(suite, Identity(x), Identity(y).guid, c, now) && HashOf(suite, c).Some?
  }

  /** `sign` makes signatures that verify under the certificate of `l`. */
  ghost predicate Signs(suite: Suite, l: LocalIdentity, sign: Message -> OctetSeq) {
    forall m: Message :: Verifies(suite, l.certificate, m, sign(m))
  }

  /** What the two sides draw, and that the library calls succeed on it. */
  datatype Draws = Draws(
    data1: OctetSeq, data2: OctetSeq, now1: int, now2: int,
    key: SecretKey, nonce1: Nonce, coins: Coins, nonce2: Nonce,
    sign1: Message -> OctetSeq, sign2: Message -> OctetSeq)

  function PublicKeyOf(suite: Suite, x: Side, d: Draws): PublicKey
    requires x.local in x.state.locals
  {
    suite.kemPublic(Identity(x).kemAlgorithm, d.key)
  }

  ghost predicate Workable(suite: Suite, x: Side, y: Side, d: Draws) {
    && Ready(x) && Ready(y)
    && d.data1 != []
    && Trusts(suite, x, y, d.data2, d.now1) && Trusts(suite, y, x, d.data1, d.now2)
    && Signs(suite, Identity(x), d.sign1) && Signs(suite, Identity(y), d.sign2)
    && KemCorrect(suite)
    && var publicKey := PublicKeyOf(suite, x, d);
    && var sent := Encapsulate(suite, Identity(y).kemAlgorithm, publicKey, d.coins);
    && sent.Some? && sent.value.0 != []
  }

  function Challenge(x: Side, nonce: Nonce): OctetSeq
    requires x.remote in x.state.remotes
  {
    if Peer(x).localAuthRequestSent then Peer(x).localChallenge else nonce
  }

  function Credentials1(x: Side, d: Draws): Credentials
    requires x.local in x.state.locals
  {
    OwnCredentials(Identity(x), d.data1)
  }

  function Credentials2(y: Side, d: Draws): Credentials
    requires y.local in y.state.locals
  {
    OwnCredentials(Identity(y), d.data2)
  }

  ghost function Request(suite: Suite, x: Side, d: Draws): Outcome
    requires Ready(x)
  {
    BeginRequest(suite, x.state, HANDLE_NIL, x.local, x.remote, d.data1, Some(d.key), Some(d.nonce1))
  }

  /** The initiator's half of the handshake, as it stands after the request. */
  ghost predicate Requested(suite: Suite, x: Side, h: int, c1: Credentials, publicKey: PublicKey, challenge1: OctetSeq, d: Draws)
    requires Ready(x)
  {
    && h in x.state.handshakes && h in x.state.liveHandshakes
    && var hs := x.state.handshakes[h];
    && hs.initiator && hs.state == PendingHandshakeMessage && hs.localHandle == x.local && hs.remoteHandle == x.remote
    && hs.kemAlgorithm == Identity(x).kemAlgorithm && hs.kemKey == Some(d.key)
    && hs.session.publicKey == publicKey && hs.session.challenge1 == challenge1
    && HashOf(suite, c1) == Some(hs.session.hash1)
  }

  lemma RequestStage(suite: Suite, x: Side, y: Side, d: Draws)
    requires Meeting(x, y) && Workable(suite, x, y, d)
    ensures var o := Request(suite, x, d);
            var x' := x.(state := o.state);
            && o.result == PendingHandshakeMessage
            && o.message == Some(RequestToken(Credentials1(x, d), PublicKeyOf(suite, x, d), Challenge(x, d.nonce1)))
            && Meeting(x', y) && Identity(x') == Identity(x) && Peer(x') == Peer(x)
            && Requested(suite, x', o.handle, Credentials1(x, d), PublicKeyOf(suite, x, d), Challenge(x, d.nonce1), d)
  {
    hide Encode, StringValue, ValueOf, Terminated, RequestToken;
  }

  ghost function Answer(suite: Suite, y: Side, request: Token, d: Draws): Outcome
    requires Ready(y)
  {
    BeginReply(suite, y.state, HANDLE_NIL, request, y.remote, y.local, d.data2, d.now2, d.coins, Some(d.nonce2),
               Some(d.sign2(Reply(AnsweredSession(suite, y, request, d)))))
  }

  /** The session that the replier signs. */
  ghost function AnsweredSession(suite: Suite, y: Side, request: Token, d: Draws): Session
    requires Ready(y)
  {
    var hash1 := HashOf(suite, TokenCredentials(request));
    var hash2 := HashOf(suite, Credentials2(y, d));
    var publicKey := Property(request, KEM_PUBLIC);
    var sent := Encapsulate(suite, Identity(y).kemAlgorithm, publicKey, d.coins);
    Session(if hash1.Some? then hash1.value else [], if hash2.Some? then hash2.value else [],
            Property(request, CHALLENGE1), Challenge(y, d.nonce2), publicKey, if sent.Some? then sent.value.0 else [])
  }

  ghost predicate Answered(suite: Suite, y: Side, g: int, certificate1: OctetSeq, session: Session, secret: OctetSeq)
    requires Ready(y)
  {
    && g in y.state.handshakes && g in y.state.liveHandshakes
    && var gs := y.state.handshakes[g];
    && !gs.initiator && gs.state == PendingHandshakeMessage
    && gs.session == session && gs.secret == secret && gs.remoteCertificate == Some(certificate1)
  }

  /** The replier accepts the request exactly if it has heard no announcement, or
      the announced challenge. */
  lemma AnswerStage(suite: Suite, x: Side, y: Side, d: Draws, challenge1: OctetSeq)
    requires Meeting(x, y) && Workable(suite, x, y, d) && |challenge1| == 32
    ensures var request := RequestToken(Credentials1(x, d), PublicKeyOf(suite, x, d), challenge1);
            var o := Answer(suite, y, request, d);
            var session := AnsweredSession(suite, y, request, d);
            var y' := y.(state := o.state);
            && (o.result == PendingHandshakeMessage <==> Peer(y).remoteChallenge in [[], challenge1])
            && Meeting(y', x) && Identity(y') == Identity(y) && Peer(y') == Peer(y)
            && session.challenge1 == challenge1 && session.challenge2 == Challenge(y, d.nonce2)
            && session.publicKey == PublicKeyOf(suite, x, d)
            && HashOf(suite, Credentials1(x, d)) == Some(session.hash1)
            && HashOf(suite, Credentials2(y, d)) == Some(session.hash2)
            && (o.result == PendingHandshakeMessage ==>
                  && o.message == Some(ReplyToken(Credentials2(y, d), session.ciphertext, challenge1, session.challenge2, d.sign2(Reply(session))))
                  && Answered(suite, y', o.handle, Identity(x).certificate, session,
                              Encapsulate(suite, Identity(y).kemAlgorithm, PublicKeyOf(suite, x, d), d.coins).value.1))
  {
    hide Encode, StringValue, ValueOf, Terminated, RequestToken, ReplyToken, TokenCredentials, Property, Acceptable;
    RequestReadBack(Credentials1(x, d), PublicKeyOf(suite, x, d), challenge1);
  }

  lemma SameKem(suite: Suite, x: Side, y: Side, data: OctetSeq, now: int)
    requires Ready(x) && Ready(y) && Trusts(suite, x, y, data, now)
    ensures Identity(x).kemAlgorithm == Identity(y).kemAlgorithm
  {
    hide Encode;
  }

  ghost function Conclude(suite: Suite, x: Side, h: int, reply: Token, d: Draws): Outcome
    requires Ready(x)
  {
    Process(suite, x.state, reply, h, d.now1, Some(d.sign1(Final(ConcludedSession(suite, x, h, reply)))))
  }

  /** The session that the initiator signs. */
  ghost function ConcludedSession(suite: Suite, x: Side, h: int, reply: Token): Session {
    var hash2 := HashOf(suite, TokenCredentials(reply));
    if h in x.state.handshakes && hash2.Some? then Replied(suite, x.state.handshakes[h], reply).session
    else Session([], [], [], [], [], [])
  }

  /** The initiator accepts the reply exactly if it has heard no announcement, or
      the announced challenge; it then holds the replier's session and secret. */
  lemma ConcludeStage(suite: Suite, x: Side, y: Side, d: Draws, h: int, session: Session)
    requires Meeting(x, y) && Workable(suite, x, y, d)
    requires Requested(suite, x, h, Credentials1(x, d), session.publicKey, session.challenge1, d)
    requires HashOf(suite, Credentials1(x, d)) == Some(session.hash1) && HashOf(suite, Credentials2(y, d)) == Some(session.hash2)
    requires session.publicKey == PublicKeyOf(suite, x, d) && |session.challenge2| == 32
    requires session.ciphertext == Encapsulate(suite, Identity(y).kemAlgorithm, session.publicKey, d.coins).value.0
    ensures var reply := ReplyToken(Credentials2(y, d), session.ciphertext, session.challenge1, session.challenge2, d.sign2(Reply(session)));
            var o := Conclude(suite, x, h, reply, d);
            && (o.result == OkFinalMessage <==> Peer(x).remoteChallenge in [[], session.challenge2])
            && (o.result == OkFinalMessage ==>
                  && o.message == Some(FinalToken(d.sign1(Final(session))))
                  && h in o.state.handshakes && h in o.state.liveHandshakes
                  && o.state.handshakes[h].state == OkFinalMessage && o.state.handshakes[h].session == session
                  && o.state.handshakes[h].secret == Encapsulate(suite, Identity(y).kemAlgorithm, session.publicKey, d.coins).value.1)
            && Meeting(x.(state := o.state), y)
  {
    hide Encode, StringValue, ValueOf, Terminated, ReplyToken, TokenCredentials, Property, Acceptable;
    ReplyReadBack(Credentials2(y, d), session.ciphertext, session.challenge1, session.challenge2, d.sign2(Reply(session)));
    SameKem(suite, x, y, d.data2, d.now1);
    assert suite.kemEncapsulate(Identity(x).kemAlgorithm, session.publicKey, d.coins).Some?;
  }

  ghost function Finish(suite: Suite, y: Side, g: int, final: Token, d: Draws): Outcome
    requires Ready(y)
  {
    Process(suite, y.state, final, g, d.now2, None)
  }

  lemma FinishStage(suite: Suite, x: Side, y: Side, d: Draws, g: int, session: Session, secret: OctetSeq)
    requires Ready(x) && Ready(y) && Signs(suite, Identity(x), d.sign1)
    requires Answered(suite, y, g, Identity(x).certificate, session, secret)
    ensures var o := Finish(suite, y, g, FinalToken(d.sign1(Final(session))), d);
            && o.result == ValidationOk && g in o.state.handshakes && WellFormed(o.state)
            && GetSharedSecret(o.state, g) == Some(SharedSecret(session.challenge1, session.challenge2, secret))
  {
    hide Encode, StringValue, Terminated;
    var final := FinalToken(d.sign1(Final(session)));
    assert Property(final, SIGNATURE) == d.sign1(Final(session));
  }

  // ---------------------------------------------------------------- the whole run

  /** Workable draws stay workable while AuthRequests arrive. */
  lemma StillWorkable(suite: Suite, x: Side, y: Side, x': Side, y': Side, d: Draws)
    requires Workable(suite, x, y, d) && Ready(x') && Ready(y')
    requires Identity(x') == Identity(x) && Identity(y') == Identity(y) && x'.local == x.local && y'.local == y.local
    ensures Workable(suite, x', y', d)
  {
    hide Encode, Acceptable, StringValue;
  }

  lemma RequestedStays(suite: Suite, x: Side, x': Side, h: int, c1: Credentials, publicKey: PublicKey, challenge1: OctetSeq, d: Draws)
    requires Ready(x) && Ready(x') && Undisturbed(x, x')
    requires Requested(suite, x, h, c1, publicKey, challenge1, d)
    ensures Requested(suite, x', h, c1, publicKey, challenge1, d)
  {
    hide Encode;
  }

  /** The AuthRequest traffic before the request, and after each message. */
  datatype Traces = Traces(before: seq<Traffic>, afterRequest: seq<Traffic>, afterReply: seq<Traffic>, afterFinal: seq<Traffic>)

  ghost predicate Proper(suite: Suite, x: Side, y: Side, d: Draws) {
    Meeting(x, y) && Workable(suite, x, y, d)
  }

  ghost function Traffic'(suite: Suite, x: Side, y: Side, d: Draws, traffic: seq<Traffic>): (r: (Side, Side))
    requires Proper(suite, x, y, d)
    ensures Proper(suite, r.0, r.1, d) && Undisturbed(x, r.0) && Undisturbed(y, r.1)
  {
    hide Workable;
    ExchangeKeeps(x, y, traffic);
    var (x', y') := Exchange(x, y, traffic);
    StillWorkable(suite, x, y, x', y', d);
    (x', y')
  }

  lemma ChallengeLength(x: Side, nonce: Nonce)
    requires Ready(x)
    ensures |Challenge(x, nonce)| == 32
  {
  }

  /** The request, as the replier reads it after more traffic. */
  ghost function RequestMade(suite: Suite, x: Side, y: Side, d: Draws): (r: (Side, Outcome))
    requires Proper(suite, x, y, d)
    ensures r.0 == x.(state := r.1.state) && r.1 == Request(suite, x, d)
    ensures Proper(suite, r.0, y, d) && Identity(r.0) == Identity(x) && Peer(r.0) == Peer(x)
    ensures r.1.result == PendingHandshakeMessage
    ensures r.1.message == Some(RequestToken(Credentials1(x, d), PublicKeyOf(suite, x, d), Challenge(x, d.nonce1)))
    ensures Requested(suite, r.0, r.1.handle, Credentials1(x, d), PublicKeyOf(suite, x, d), Challenge(x, d.nonce1), d)
  {
    hide Workable, Encode;
    RequestStage(suite, x, y, d);
    var o := Request(suite, x, d);
    StillWorkable(suite, x, y, x.(state := o.state), y, d);
    (x.(state := o.state), o)
  }

  ghost function SecretOf(suite: Suite, x: Side, y: Side, d: Draws): OctetSeq
    requires Workable(suite, x, y, d)
  {
    Encapsulate(suite, Identity(y).kemAlgorithm, PublicKeyOf(suite, x, d), d.coins).value.1
  }

  /** The replier's answer to the request that carries `challenge1`. */
  ghost function ReplyMade(suite: Suite, x: Side, y: Side, d: Draws, challenge1: OctetSeq): (r: (Side, Session, Outcome))
    requires Proper(suite, x, y, d) && |challenge1| == 32
    ensures r.0 == y.(state := r.2.state)
    ensures r.2 == Answer(suite, y, RequestToken(Credentials1(x, d), PublicKeyOf(suite, x, d), challenge1), d)
    ensures Proper(suite, x, r.0, d) && Identity(r.0) == Identity(y) && Peer(r.0) == Peer(y)
    ensures r.1 == AnsweredSession(suite, y, RequestToken(Credentials1(x, d), PublicKeyOf(suite, x, d), challenge1), d)
    ensures r.1.challenge1 == challenge1 && r.1.challenge2 == Challenge(y, d.nonce2) && r.1.publicKey == PublicKeyOf(suite, x, d)
    ensures HashOf(suite, Credentials1(x, d)) == Some(r.1.hash1) && HashOf(suite, Credentials2(y, d)) == Some(r.1.hash2)
    ensures r.1.ciphertext == Encapsulate(suite, Identity(y).kemAlgorithm, PublicKeyOf(suite, x, d), d.coins).value.0
    ensures r.2.result == PendingHandshakeMessage <==> Peer(y).remoteChallenge in [[], challenge1]
    ensures r.2.result == PendingHandshakeMessage ==>
              && r.2.message == Some(ReplyToken(Credentials2(y, d), r.1.ciphertext, challenge1, r.1.challenge2, d.sign2(Reply(r.1))))
              && Answered(suite, r.0, r.2.handle, Identity(x).certificate, r.1, SecretOf(suite, x, y, d))
  {
    hide Encode, Acceptable, ReplyToken, TokenCredentials;
    AnswerStage(suite, x, y, d, challenge1);
    RequestReadBack(Credentials1(x, d), PublicKeyOf(suite, x, d), challenge1);
    var request := RequestToken(Credentials1(x, d), PublicKeyOf(suite, x, d), challenge1);
    var o := Answer(suite, y, request, d);
    StillWorkable(suite, x, y, x, y.(state := o.state), d);
    (y.(state := o.state), AnsweredSession(suite, y, request, d), o)
  }

  /** The initiator processes the answer. */
  ghost function FinalMade(suite: Suite, x: Side, y: Side, d: Draws, h: int, session: Session): (r: (Side, Outcome))
    requires Proper(suite, x, y, d)
    requires Requested(suite, x, h, Credentials1(x, d), session.publicKey, session.challenge1, d)
    requires HashOf(suite, Credentials1(x, d)) == Some(session.hash1) && HashOf(suite, Credentials2(y, d)) == Some(session.hash2)
    requires session.publicKey == PublicKeyOf(suite, x, d) && |session.challenge2| == 32
    requires session.ciphertext == Encapsulate(suite, Identity(y).kemAlgorithm, session.publicKey, d.coins).value.0
    ensures r.0 == x.(state := r.1.state) && Meeting(r.0, y) && WellFormed(r.1.state)
    ensures r.1 == Conclude(suite, x, h, ReplyToken(Credentials2(y, d), session.ciphertext, session.challenge1, session.challenge2, d.sign2(Reply(session))), d)
    ensures r.1.result == OkFinalMessage <==> Peer(x).remoteChallenge in [[], session.challenge2]
    ensures r.1.result == OkFinalMessage ==>
              && r.1.message == Some(FinalToken(d.sign1(Final(session))))
              && GetSharedSecret(r.1.state, h) == Some(SharedSecret(session.challenge1, session.challenge2, SecretOf(suite, x, y, d)))
  {
    hide Encode, Acceptable, TokenCredentials, ReplyToken;
    ConcludeStage(suite, x, y, d, h, session);
    var o := Conclude(suite, x, h, ReplyToken(Credentials2(y, d), session.ciphertext, session.challenge1, session.challenge2, d.sign2(Reply(session))), d);
    (x.(state := o.state), o)
  }

  lemma AnsweredStays(suite: Suite, y: Side, y': Side, g: int, certificate1: OctetSeq, session: Session, secret: OctetSeq)
    requires Ready(y) && Ready(y') && Undisturbed(y, y')
    requires Answered(suite, y, g, certificate1, session, secret)
    ensures Answered(suite, y', g, certificate1, session, secret)
  {
  }

  /** The two sides hold the two halves of one session. */
  ghost predicate Midway(suite: Suite, x: Side, y: Side, d: Draws, h: int, g: int, session: Session)
    requires Proper(suite, x, y, d)
  {
    && Requested(suite, x, h, Credentials1(x, d), session.publicKey, session.challenge1, d)
    && Answered(suite, y, g, Identity(x).certificate, session, SecretOf(suite, x, y, d))
    && HashOf(suite, Credentials1(x, d)) == Some(session.hash1) && HashOf(suite, Credentials2(y, d)) == Some(session.hash2)
    && session.publicKey == PublicKeyOf(suite, x, d) && |session.challenge1| == |session.challenge2| == 32
    && session.ciphertext == Encapsulate(suite, Identity(y).kemAlgorithm, session.publicKey, d.coins).value.0
  }

  ghost function ReplyTokenOf(y: Side, d: Draws, session: Session): Token
    requires y.local in y.state.locals
  {
    ReplyToken(Credentials2(y, d), session.ciphertext, session.challenge1, session.challenge2, d.sign2(Reply(session)))
  }

  lemma MidwayStays(suite: Suite, x: Side, y: Side, x': Side, y': Side, d: Draws, h: int, g: int, session: Session)
    requires Proper(suite, x, y, d) && Proper(suite, x', y', d) && Undisturbed(x, x') && Undisturbed(y, y')
    requires Midway(suite, x, y, d, h, g, session)
    ensures Midway(suite, x', y', d, h, g, session) && ReplyTokenOf(y', d, session) == ReplyTokenOf(y, d, session)
  {
    hide Encode, Workable, ReplyToken;
  }

  /** The request and the answer: the two sides before each call, what the calls
      give, and the session that the answer signs. */
  datatype Opening = Opening(
    x1: Side, y1: Side, request: Outcome,
    x2: Side, y2: Side, reply: Outcome, answered: Side, session: Session)

  ghost function Open(suite: Suite, x: Side, y: Side, d: Draws, t: Traces): (o: Opening)
    requires Proper(suite, x, y, d)
    ensures Proper(suite, o.x1, o.y1, d) && Proper(suite, o.x2, o.y2, d) && Proper(suite, o.x2, o.answered, d)
    ensures SameRemote(Peer(x), Peer(o.x1)) && SameRemote(Peer(o.x1), Peer(o.x2))
    ensures SameRemote(Peer(y), Peer(o.y2)) && Peer(o.answered) == Peer(o.y2)
    ensures o.request.result == PendingHandshakeMessage
    ensures o.session.challenge2 == Challenge(o.y2, d.nonce2)
    ensures o.reply.result == PendingHandshakeMessage <==> Peer(o.y2).remoteChallenge in [[], Challenge(o.x1, d.nonce1)]
    ensures o.reply.result == PendingHandshakeMessage ==>
              && o.reply.message == Some(ReplyTokenOf(o.answered, d, o.session))
              && Midway(suite, o.x2, o.answered, d, o.request.handle, o.reply.handle, o.session)
  {
    hide Workable, Encode, RequestToken, ReplyToken, Answered, Requested, HashOf, Ready, Heard, Exchange;
    var (x1, y1) := Traffic'(suite, x, y, d, t.before);
    var (x1', request) := RequestMade(suite, x1, y1, d);
    var challenge1 := Challenge(x1, d.nonce1);
    ChallengeLength(x1, d.nonce1);
    var (x2, y2) := Traffic'(suite, x1', y1, d, t.afterRequest);
    RequestedStays(suite, x1', x2, request.handle, Credentials1(x1, d), PublicKeyOf(suite, x1, d), challenge1, d);
    var (answered, session, reply) := ReplyMade(suite, x2, y2, d, challenge1);
    ChallengeLength(y2, d.nonce2);
    Opening(x1, y1, request, x2, y2, reply, answered, session)
  }

  /** The initiator's reaction to the answer, and the replier's to that. */
  datatype Closing = Closing(x3: Side, y3: Side, final: Outcome, end: Option<Outcome>)

  ghost function Close(suite: Suite, x: Side, y: Side, d: Draws, t: Traces, h: int, g: int, session: Session): (c: Closing)
    requires Proper(suite, x, y, d) && Midway(suite, x, y, d, h, g, session)
    ensures Proper(suite, c.x3, c.y3, d) && SameRemote(Peer(x), Peer(c.x3)) && SameRemote(Peer(y), Peer(c.y3))
    ensures c.final == Conclude(suite, c.x3, h, ReplyTokenOf(y, d, session), d)
    ensures c.final.result == OkFinalMessage <==> Peer(c.x3).remoteChallenge in [[], session.challenge2]
    ensures c.end.Some? <==> c.final.result == OkFinalMessage
    ensures c.end.Some? ==>
              && c.end.value.result == ValidationOk && WellFormed(c.final.state) && WellFormed(c.end.value.state)
              && GetSharedSecret(c.final.state, h) == GetSharedSecret(c.end.value.state, g) ==
                 Some(SharedSecret(session.challenge1, session.challenge2, SecretOf(suite, x, y, d)))
  {
    hide Workable, Encode, ReplyToken, Requested, HashOf, Ready, Heard, Exchange, Answered, Finish, Conclude, GetSharedSecret;
    var (x3, y3) := Traffic'(suite, x, y, d, t.afterReply);
    MidwayStays(suite, x, y, x3, y3, d, h, g, session);
    var (x3', final) := FinalMade(suite, x3, y3, d, h, session);
    if final.result != OkFinalMessage then Closing(x3, y3, final, None) else
      ExchangeKeeps(x3', y3, t.afterFinal);
      var (x4, y4) := Exchange(x3', y3, t.afterFinal);
      AnsweredStays(suite, y3, y4, g, Identity(x).certificate, session, SecretOf(suite, x, y, d));
      SignsUnderOwnCertificate(suite, x3, y3, d, x3);
      FinishStage(suite, x3, y4, d, g, session, SecretOf(suite, x, y, d));
      Closing(x3, y3, final, Some(Finish(suite, y4, g, final.message.value, d)))
  }

  /** An announcement that the other side has heard is the challenge in use, if
      and only if the announcement came before the challenge was drawn. */
  lemma HeardChallenge(x: Side, x': Side, y: Side, nonce: Nonce)
    requires Ready(x) && Meeting(x', y) && SameRemote(Peer(x), Peer(x')) && nonce != Peer(x).localChallenge
    ensures Peer(y).remoteChallenge in [[], Challenge(x, nonce)] <==>
            Peer(x).localAuthRequestSent || Peer(y).remoteChallenge == []
  {
  }

  lemma SignsUnderOwnCertificate(suite: Suite, x: Side, y: Side, d: Draws, z: Side)
    requires Workable(suite, x, y, d) && z.local in z.state.locals && Identity(z) == Identity(x)
    ensures Signs(suite, Identity(z), d.sign1)
  {
    hide Encode;
  }

  /** How an honest run ends. It succeeds exactly if no side learns of a challenge
      that the other announced only after it had already drawn another one: the
      initiator announced before its request or the announcement had not reached
      the replier when that answered, and likewise for the replier's answer. Then
      both sides release the same secret and the same two challenges. */
  lemma HonestRunCompletes(suite: Suite, x: Side, y: Side, d: Draws, t: Traces)
    requires Proper(suite, x, y, d)
    requires d.nonce1 != Peer(x).localChallenge && d.nonce2 != Peer(y).localChallenge
    ensures var o := Open(suite, x, y, d, t);
            && o.request.result == PendingHandshakeMessage
            && (o.reply.result == PendingHandshakeMessage <==>
                  Peer(o.x1).localAuthRequestSent || Peer(o.y2).remoteChallenge == [])
            && (o.reply.result == PendingHandshakeMessage ==>
                  var c := Close(suite, o.x2, o.answered, d, t, o.request.handle, o.reply.handle, o.session);
                  && c.final == Conclude(suite, c.x3, o.request.handle, o.reply.message.value, d)
                  && (c.final.result == OkFinalMessage <==>
                        Peer(o.y2).localAuthRequestSent || Peer(c.x3).remoteChallenge == [])
                  && (c.final.result == OkFinalMessage ==>
                        && c.end.Some? && c.end.value.result == ValidationOk
                        && WellFormed(c.final.state) && WellFormed(c.end.value.state)
                        && GetSharedSecret(c.final.state, o.request.handle).Some?
                        && GetSharedSecret(c.final.state, o.request.handle) ==
                           GetSharedSecret(c.end.value.state, o.reply.handle)))
  {
    hide Open, Close, Workable, Conclude, Challenge, GetSharedSecret, Ready, Heard, ReplyToken, SecretOf;
    var o := Open(suite, x, y, d, t);
    HeardChallenge(o.x1, o.x2, o.y2, d.nonce1);
    if o.reply.result == PendingHandshakeMessage {
      var c := Close(suite, o.x2, o.answered, d, t, o.request.handle, o.reply.handle, o.session);
      HeardChallenge(o.y2, c.y3, c.x3, d.nonce2);
    }
  }

  /** In particular the handshake completes after any AuthRequest traffic, whatever
      its order, losses and repetitions, if none arrives once it has begun. */
  lemma QuietRunCompletes(suite: Suite, x: Side, y: Side, d: Draws, before: seq<Traffic>)
    requires Proper(suite, x, y, d)
    requires d.nonce1 != Peer(x).localChallenge && d.nonce2 != Peer(y).localChallenge
    ensures var t := Traces(before, [], [], []);
            var o := Open(suite, x, y, d, t);
            && o.reply.result == PendingHandshakeMessage
            && var c := Close(suite, o.x2, o.answered, d, t, o.request.handle, o.reply.handle, o.session);
               && c.final.result == OkFinalMessage && c.end.Some? && c.end.value.result == ValidationOk
               && GetSharedSecret(c.final.state, o.request.handle).Some?
               && GetSharedSecret(c.final.state, o.request.handle) == GetSharedSecret(c.end.value.state, o.reply.handle)
  {
    hide Workable, Conclude, GetSharedSecret, ReplyToken, SecretOf, Midway, RequestToken, Encode;
    HonestRunCompletes(suite, x, y, d, Traces(before, [], [], []));
  }

  /** The quietness is needed: if the initiator first announces its challenge
      after its request, and the announcement overtakes the request, the replier
      refuses the request although every message is genuine. */
  lemma LateAnnouncementFails(suite: Suite, x: Side, y: Side, d: Draws)
    requires Proper(suite, x, y, d) && !Peer(x).localAuthRequestSent
    requires d.nonce1 != Peer(x).localChallenge && d.nonce2 != Peer(y).localChallenge
    ensures Open(suite, x, y, d, Traces([], [AtFirst(Announce), AtSecond(Deliver)], [], [])).reply.result != PendingHandshakeMessage
  {
    hide Workable, Conclude, Close, ReplyToken, SecretOf, Midway, RequestToken, Encode, Receive, Request;
    var t := Traces([], [AtFirst(Announce), AtSecond(Deliver)], [], []);
    HonestRunCompletes(suite, x, y, d, t);
    var (x', _) := RequestMade(suite, x, y, d);
    ReceiveKeeps(x', y, Announce);
    var x2 := Receive(x', y, Announce);
    ReceiveKeeps(y, x2, Deliver);
    assert t.afterRequest[1..] == [AtSecond(Deliver)] && [AtSecond(Deliver)][1..] == [];
    assert Exchange(x', y, t.afterRequest) == (x2, Receive(y, x2, Deliver));
  }

  lemma OnContact(s: AuthState, l: int, guid: Guid, request: Token, nonce: Nonce, announced: Nonce)
    requires WellFormed(s) && l in s.liveLocals && request in [NIL_TOKEN, AuthRequestToken(announced)]
    ensures var o := ValidateRemote(s, HANDLE_NIL, request, l, IDENTITY_TOKEN, guid, Some(nonce));
            && o.result == (if NumberOf(s.locals[l].guid) < NumberOf(guid) then PendingHandshakeRequest else PendingHandshakeMessage)
            && o.message == Some(if request == NIL_TOKEN then AuthRequestToken(nonce) else NIL_TOKEN)
            && o.state.locals == s.locals && Ready(Side(o.state, l, o.handle))
            && Peer(Side(o.state, l, o.handle)) == RecordRequest(NewRemote(l, guid, nonce), request).0
  {
    hide ValueOf, Less, NumberOf, AuthRequestToken, Property, IsNil, RecordRequest;
    AnnouncementReadBack(announced);
    RecordOfAnnouncement(NewRemote(l, guid, nonce), announced);
    SmallerSendsRequest(s.locals[l].guid, guid);
  }

  /** Two plugins that validate each other for the first time meet, whether or not
      the second is already handed the announcement of the first; the one with the
      smaller GUID, and no other, is told to send the request. */
  lemma FirstContact(s: AuthState, t: AuthState, ls: int, lt: int, nonce1: Nonce, nonce2: Nonce, delivered: bool)
    requires WellFormed(s) && WellFormed(t) && ls in s.liveLocals && lt in t.liveLocals
    requires s.locals[ls].guid != t.locals[lt].guid
    ensures var a := ValidateRemote(s, HANDLE_NIL, NIL_TOKEN, ls, IDENTITY_TOKEN, t.locals[lt].guid, Some(nonce1));
            var b := ValidateRemote(t, HANDLE_NIL, if delivered && a.message.Some? then a.message.value else NIL_TOKEN, lt,
                                    IDENTITY_TOKEN, s.locals[ls].guid, Some(nonce2));
            && Meeting(Side(a.state, ls, a.handle), Side(b.state, lt, b.handle))
            && {a.result, b.result} == {PendingHandshakeRequest, PendingHandshakeMessage}
            && (a.result == PendingHandshakeRequest <==> NumberOf(s.locals[ls].guid) < NumberOf(t.locals[lt].guid))
            && (b.result == PendingHandshakeRequest <==> NumberOf(t.locals[lt].guid) < NumberOf(s.locals[ls].guid))
  {
    assert ls in s.locals && lt in t.locals;
    hide ValueOf, Less, NumberOf, RoleOf, AuthRequestToken, Property, IsNil, RecordRequest, ValidateRemote, WellFormed;
    AnnouncementReadBack(nonce1);
    RecordOfAnnouncement(NewRemote(ls, t.locals[lt].guid, nonce1), nonce1);
    RecordOfAnnouncement(NewRemote(lt, s.locals[ls].guid, nonce2), nonce1);
    OnContact(s, ls, t.locals[lt].guid, NIL_TOKEN, nonce1, nonce1);
    OnContact(t, lt, s.locals[ls].guid, if delivered then AuthRequestToken(nonce1) else NIL_TOKEN, nonce2, nonce1);
    LessTrichotomy(s.locals[ls].guid, t.locals[lt].guid);
    LessIsNumeric(s.locals[ls].guid, t.locals[lt].guid);
    LessIsNumeric(t.locals[lt].guid, s.locals[ls].guid);
  }
}
