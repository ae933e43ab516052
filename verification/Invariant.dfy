/** What every call of the OpenDDS plugin keeps, whatever its arguments. */
module Invariant {
  import opened Octets
  import opened Guids
  import opened Transcript
  import opened Environment
  import opened Protocol

  // ------------------------------------------------------------------- events

  /** One call of the SPI, with what its environment draws. */
  datatype Event =
    | ValidateLocalEvent(loaded: Option<Loaded>, kem: CString, available: bool, adjusted: Option<Guid>)
    | SetPermissionsEvent(handle: int, document: Option<OctetSeq>)
    | ValidateRemoteEvent(remoteHandle: int, request: Token, localHandle: int, identityToken: Token, guid: Guid,
                          nonce: Option<Nonce>)
    | BeginRequestEvent(handle: int, initiatorHandle: int, replierHandle: int, participantData: OctetSeq,
                        key: Option<SecretKey>, nonce: Option<Nonce>)
    | BeginReplyEvent(handle: int, request: Token, initiatorHandle: int, replierHandle: int, participantData: OctetSeq,
                      now: int, coins: Coins, nonce: Option<Nonce>, signature: Option<OctetSeq>)
    | ProcessEvent(input: Token, handle: int, now: int, signature: Option<OctetSeq>)
    | ReturnHandshakeEvent(handle: int)
    | ReturnIdentityEvent(handle: int)

  ghost function Apply(suite: Suite, s: AuthState, e: Event): Outcome
    requires WellFormed(s)
  {
    match e
    case ValidateLocalEvent(loaded, kem, available, adjusted) => ValidateLocal(s, loaded, kem, available, adjusted)
    case SetPermissionsEvent(h, document) => SetPermissions(s, h, document)
    case ValidateRemoteEvent(rh, request, lh, token, guid, nonce) => ValidateRemote(s, rh, request, lh, token, guid, nonce)
    case BeginRequestEvent(h, ih, rh, data, key, nonce) => BeginRequest(suite, s, h, ih, rh, data, key, nonce)
    case BeginReplyEvent(h, request, ih, rh, data, now, coins, nonce, signature) =>
      BeginReply(suite, s, h, request, ih, rh, data, now, coins, nonce, signature)
    case ProcessEvent(input, h, now, signature) => Process(suite, s, input, h, now, signature)
    case ReturnHandshakeEvent(h) => ReturnHandshake(s, h)
    case ReturnIdentityEvent(h) => ReturnIdentity(s, h)
  }

  // ----------------------------------------------------------------- evolution

  /** A local identity keeps all but its permissions document. */
  ghost predicate SameLocal(l: LocalIdentity, m: LocalIdentity) {
    m == l.(permissions := m.permissions)
  }

  /** A remote identity keeps its participants and the challenge it announces. */
  ghost predicate SameRemote(r: RemoteIdentity, q: RemoteIdentity) {
    && q.localHandle == r.localHandle && q.guid == r.guid
    && q.localChallenge == r.localChallenge && q.localAuthRequest == r.localAuthRequest
    && (r.localAuthRequestSent ==> q.localAuthRequestSent)
  }

  /** The part of a session that its own side fixes when it begins. */
  ghost predicate SameOwnPart(initiator: bool, a: Session, b: Session) {
    if initiator then b.hash1 == a.hash1 && b.challenge1 == a.challenge1 && b.publicKey == a.publicKey
    else b == a
  }

  /** A handshake that awaits no message is final; one that does keeps its own part. */
  ghost predicate HandshakeEvolves(hs: Handshake, ht: Handshake) {
    && (hs.state != PendingHandshakeMessage ==> ht == hs)
    && ht.initiator == hs.initiator && ht.localHandle == hs.localHandle && ht.remoteHandle == hs.remoteHandle
    && ht.kemAlgorithm == hs.kemAlgorithm && ht.request == hs.request
    && SameOwnPart(hs.initiator, hs.session, ht.session)
    && (!hs.initiator ==> ht == hs.(state := ht.state))
  }

  /** A handle that was given out and is not in a table never enters it again. */
  ghost predicate NotReissued(next: int, live: set<int>, live': set<int>) {
    forall h :: h in live' && h < next ==> h in live
  }

  ghost predicate Evolves(s: AuthState, t: AuthState) {
    && s.nextHandle <= t.nextHandle
    && s.locals.Keys <= t.locals.Keys && s.remotes.Keys <= t.remotes.Keys && s.handshakes.Keys <= t.handshakes.Keys
    && (forall h :: h in s.locals ==> SameLocal(s.locals[h], t.locals[h]))
    && (forall h :: h in s.remotes ==> SameRemote(s.remotes[h], t.remotes[h]))
    && (forall h :: h in s.handshakes ==> HandshakeEvolves(s.handshakes[h], t.handshakes[h]))
    && (forall h :: h in t.handshakes && h !in s.handshakes ==> s.nextHandle <= h)
    && NotReissued(s.nextHandle, s.liveLocals, t.liveLocals)
    && NotReissued(s.nextHandle, s.liveRemotes, t.liveRemotes)
    && NotReissued(s.nextHandle, s.liveHandshakes, t.liveHandshakes)
    && s.signed <= t.signed && s.hashed <= t.hashed && s.decapsulated <= t.decapsulated
  }

  lemma EvolvesTransitive(s: AuthState, t: AuthState, u: AuthState)
    requires Evolves(s, t) && Evolves(t, u)
    ensures Evolves(s, u)
  {
    forall h | h in s.handshakes
      ensures HandshakeEvolves(s.handshakes[h], u.handshakes[h])
    {
      assert HandshakeEvolves(s.handshakes[h], t.handshakes[h]) && HandshakeEvolves(t.handshakes[h], u.handshakes[h]);
    }
  }

  // ------------------------------------------------------- the state invariant

  /** Where the KEM material of a handshake comes from. */
  ghost predicate KemGenerated(suite: Suite, hs: Handshake, sk: SecretKey) {
    && hs.session.publicKey == suite.kemPublic(hs.kemAlgorithm, sk)
    && (hs.kemKey.Some? ==> hs.kemKey == Some(sk))
    && (hs.state == OkFinalMessage ==>
          Decapsulate(suite, hs.kemAlgorithm, Some(sk), hs.session.ciphertext) == Some(hs.secret))
  }

  ghost predicate KemEncapsulated(suite: Suite, hs: Handshake, coins: Coins) {
    Encapsulate(suite, hs.kemAlgorithm, hs.session.publicKey, coins) == Some((hs.session.ciphertext, hs.secret))
  }

  ghost predicate KemSound(suite: Suite, hs: Handshake) {
    if hs.initiator then exists sk :: KemGenerated(suite, hs, sk)
    else exists coins :: KemEncapsulated(suite, hs, coins)
  }

  /** `c` was hashed to `hash` as the credentials of the identity itself. */
  ghost predicate OwnHash(suite: Suite, hashed: set<Credentials>, l: LocalIdentity, hash: OctetSeq, c: Credentials) {
    && c in hashed && HashOf(suite, c) == Some(hash)
    && c.certificate == l.certificate && c.kemAlgorithm == l.kemAlgorithm
  }

  /** `c` was hashed to `hash` after it passed every check on the remote participant. */
  ghost predicate PeerHash(suite: Suite, hashed: set<Credentials>, l: LocalIdentity, guid: Guid, hs: Handshake,
                           hash: OctetSeq, c: Credentials) {
    && c in hashed && HashOf(suite, c) == Some(hash)
    && hs.remoteCertificate == Some(c.certificate) && hs.remotePermissions == c.permissions
    && (exists now :: Acceptable(suite, l, guid, c, now))
  }

  function OwnHashOf(hs: Handshake): OctetSeq {
    if hs.initiator then hs.session.hash1 else hs.session.hash2
  }

  function PeerHashOf(hs: Handshake): OctetSeq {
    if hs.initiator then hs.session.hash2 else hs.session.hash1
  }

  /** The peer's credentials were checked: always on the side that replies, and
      on the other once it has completed. */
  ghost predicate PeerChecked(hs: Handshake) {
    !hs.initiator || hs.state == OkFinalMessage
  }

  /** A signature over the reply verified under the peer's certificate. */
  ghost predicate ReplyVerified(suite: Suite, hs: Handshake) {
    hs.remoteCertificate.Some? &&
    exists signature :: Verifies(suite, hs.remoteCertificate.value, Reply(hs.session), signature)
  }

  ghost predicate FinalVerified(suite: Suite, hs: Handshake) {
    hs.remoteCertificate.Some? &&
    exists signature :: Verifies(suite, hs.remoteCertificate.value, Final(hs.session), signature)
  }

  ghost predicate HandshakeSound(suite: Suite, hashed: set<Credentials>, l: LocalIdentity, guid: Guid, hs: Handshake) {
    && hs.state in (if hs.initiator then {PendingHandshakeMessage, OkFinalMessage, ValidationFailed}
                    else {PendingHandshakeMessage, ValidationOk, ValidationFailed})
    && hs.kemAlgorithm == l.kemAlgorithm
    && KemSound(suite, hs)
    && (hs.initiator && hs.state == PendingHandshakeMessage ==> hs.kemKey.Some?)
    && (exists c :: OwnHash(suite, hashed, l, OwnHashOf(hs), c))
    && (PeerChecked(hs) ==> exists c :: PeerHash(suite, hashed, l, guid, hs, PeerHashOf(hs), c))
    && |hs.session.challenge1| == 32
    && (PeerChecked(hs) ==> |hs.session.challenge2| == 32)
    && (hs.state == OkFinalMessage ==> ReplyVerified(suite, hs))
    && (hs.state == ValidationOk ==> FinalVerified(suite, hs))
  }

  /** A signature names a handshake of its signer and binds that handshake's session. */
  ghost predicate SignatureSound(s: AuthState, sig: Signature) {
    && sig.handle in s.handshakes
    && var hs := s.handshakes[sig.handle];
    && hs.localHandle in s.locals && s.locals[hs.localHandle].key == sig.key
    && sig.message == (if hs.initiator then Final(hs.session) else Reply(hs.session))
    && (hs.initiator ==> hs.state == OkFinalMessage)
  }

  /** A key is used once, and not before the reply's signature verified. */
  ghost predicate DecapsulationSound(suite: Suite, s: AuthState, h: int) {
    s.decapsulated[h] > 0 ==>
      && s.decapsulated[h] == 1
      && h in s.handshakes && s.handshakes[h].initiator && s.handshakes[h].kemKey.None?
      && s.handshakes[h].state != PendingHandshakeMessage
      && ReplyVerified(suite, s.handshakes[h])
  }

  ghost predicate SoundAt(suite: Suite, s: AuthState, h: int)
    requires WellFormed(s) && h in s.handshakes
  {
    var hs := s.handshakes[h];
    HandshakeSound(suite, s.hashed, s.locals[hs.localHandle], s.remotes[hs.remoteHandle].guid, hs)
  }

  ghost predicate RemoteSound(r: RemoteIdentity) {
    && |r.localChallenge| == 32
    && r.localAuthRequest == AuthRequestToken(r.localChallenge)
  }

  ghost predicate StateSound(suite: Suite, s: AuthState) {
    && WellFormed(s)
    && (forall h :: h in s.remotes ==> RemoteSound(s.remotes[h]))
    && (forall h :: h in s.handshakes ==> SoundAt(suite, s, h))
    && (forall sig :: sig in s.signed ==> SignatureSound(s, sig))
    && (forall h :: DecapsulationSound(suite, s, h))
  }

  /** Soundness of a handshake survives a change of permissions and more hashing. */
  lemma HandshakeSoundFrame(suite: Suite, hashed: set<Credentials>, l: LocalIdentity, guid: Guid, hs: Handshake,
                            more: set<Credentials>, m: LocalIdentity)
    requires HandshakeSound(suite, hashed, l, guid, hs)
    requires hashed <= more && SameLocal(l, m)
    ensures HandshakeSound(suite, more, m, guid, hs)
  {
    hide Encode, StringValue, ValueOf, Terminated;
    var c :| OwnHash(suite, hashed, l, OwnHashOf(hs), c);
    assert OwnHash(suite, more, m, OwnHashOf(hs), c);
    if PeerChecked(hs) {
      var d :| PeerHash(suite, hashed, l, guid, hs, PeerHashOf(hs), d);
      var now :| Acceptable(suite, l, guid, d, now);
      assert Acceptable(suite, m, guid, d, now);
      assert PeerHash(suite, more, m, guid, hs, PeerHashOf(hs), d);
    }
  }

  /** A step that touches at most the handshake `h` keeps the rest sound. */
  lemma StateSoundFrame(suite: Suite, s: AuthState, t: AuthState, touched: set<int>)
    requires StateSound(suite, s) && WellFormed(t) && Evolves(s, t)
    requires forall h :: h in t.remotes && h !in s.remotes ==> RemoteSound(t.remotes[h])
    requires forall h :: h in t.handshakes && h !in touched ==>
               h in s.handshakes && t.handshakes[h] == s.handshakes[h] && t.decapsulated[h] == s.decapsulated[h]
    requires forall h :: h in touched && h in t.handshakes ==> SoundAt(suite, t, h)
    requires forall h :: h in touched ==> DecapsulationSound(suite, t, h)
    requires forall h :: h !in t.handshakes && h !in touched ==> t.decapsulated[h] == s.decapsulated[h]
    requires forall sig :: sig in t.signed && sig !in s.signed ==> SignatureSound(t, sig)
    ensures StateSound(suite, t)
  {
    hide Encode, StringValue, ValueOf, Terminated;
    forall h | h in t.remotes
      ensures RemoteSound(t.remotes[h])
    {
      if h in s.remotes {
        assert SameRemote(s.remotes[h], t.remotes[h]);
      }
    }
    forall h | h in t.handshakes && h !in touched
      ensures SoundAt(suite, t, h)
    {
      assert SoundAt(suite, s, h);
      var hs := s.handshakes[h];
      assert SameLocal(s.locals[hs.localHandle], t.locals[hs.localHandle]);
      assert SameRemote(s.remotes[hs.remoteHandle], t.remotes[hs.remoteHandle]);
      HandshakeSoundFrame(suite, s.hashed, s.locals[hs.localHandle], s.remotes[hs.remoteHandle].guid, hs,
                          t.hashed, t.locals[hs.localHandle]);
    }
    forall sig | sig in s.signed
      ensures SignatureSound(t, sig)
    {
      assert SignatureSound(s, sig);
      var hs := s.handshakes[sig.handle];
      assert HandshakeEvolves(hs, t.handshakes[sig.handle]);
      assert SameLocal(s.locals[hs.localHandle], t.locals[hs.localHandle]);
    }
    forall h | h !in touched
      ensures DecapsulationSound(suite, t, h)
    {
      assert DecapsulationSound(suite, s, h);
    }
  }

  // -------------------------------------------------------- each call keeps it

  lemma IdentityCallsKeep(suite: Suite, s: AuthState, e: Event)
    requires StateSound(suite, s)
    requires !e.BeginRequestEvent? && !e.BeginReplyEvent? && !e.ProcessEvent?
    ensures var t := Apply(suite, s, e).state; StateSound(suite, t) && Evolves(s, t)
  {
    hide Encode, StringValue, ValueOf, Terminated;
    var t := Apply(suite, s, e).state;
    IdentityCallsEvolve(suite, s, e);
    StateSoundFrame(suite, s, t, {});
  }

  /** What the calls that touch no handshake leave alone. */
  ghost predicate IdentitiesChange(s: AuthState, t: AuthState) {
    && WellFormed(t) && Evolves(s, t)
    && t.handshakes == s.handshakes && t.signed == s.signed && t.decapsulated == s.decapsulated
    && (forall h :: h in t.remotes && h !in s.remotes ==> RemoteSound(t.remotes[h]))
  }

  lemma IdentityCallsEvolve(suite: Suite, s: AuthState, e: Event)
    requires WellFormed(s)
    requires !e.BeginRequestEvent? && !e.BeginReplyEvent? && !e.ProcessEvent?
    ensures IdentitiesChange(s, Apply(suite, s, e).state)
  {
    hide Encode, StringValue, ValueOf, Terminated, ValidateLocal, ValidateRemote, IdentitiesChange;
    match e
    case ValidateLocalEvent(loaded, kem, available, adjusted) => ValidateLocalEvolves(s, loaded, kem, available, adjusted);
    case ValidateRemoteEvent(rh, request, lh, token, guid, nonce) =>
      ValidateRemoteEvolves(s, rh, request, lh, token, guid, nonce);
    case SetPermissionsEvent(h, document) => SetPermissionsEvolves(s, h, document);
    case ReturnHandshakeEvent(h) => ReturnHandshakeEvolves(s, h);
    case ReturnIdentityEvent(h) => ReturnIdentityEvolves(s, h);
  }

  lemma ValidateLocalEvolves(s: AuthState, loaded: Option<Loaded>, kem: CString, available: bool, adjusted: Option<Guid>)
    requires WellFormed(s)
    ensures IdentitiesChange(s, ValidateLocal(s, loaded, kem, available, adjusted).state)
  {
    hide IsKem, IsMldsa;
  }

  lemma SetPermissionsEvolves(s: AuthState, h: int, document: Option<OctetSeq>)
    requires WellFormed(s)
    ensures IdentitiesChange(s, SetPermissions(s, h, document).state)
  {
  }

  lemma ReturnHandshakeEvolves(s: AuthState, h: int)
    requires WellFormed(s)
    ensures IdentitiesChange(s, ReturnHandshake(s, h).state)
  {
  }

  lemma ReturnIdentityEvolves(s: AuthState, h: int)
    requires WellFormed(s)
    ensures IdentitiesChange(s, ReturnIdentity(s, h).state)
  {
    var t := ReturnIdentity(s, h).state;
    assert t.liveLocals <= s.liveLocals && t.liveRemotes <= s.liveRemotes;
  }

  lemma RecordRequestKeeps(r: RemoteIdentity, request: Token)
    ensures SameRemote(r, RecordRequest(r, request).0)
  {
    hide ValueOf;
  }

  lemma RemoteStored(s: AuthState, h: int, r: RemoteIdentity)
    requires WellFormed(s) && h in s.liveRemotes && SameRemote(s.remotes[h], r)
    ensures IdentitiesChange(s, s.(remotes := s.remotes[h := r]))
  {
  }

  lemma RemoteMade(s: AuthState, r: RemoteIdentity)
    requires WellFormed(s) && RemoteSound(r)
    ensures var h := s.nextHandle;
            IdentitiesChange(s, s.(nextHandle := h + 1, remotes := s.remotes[h := r], liveRemotes := s.liveRemotes + {h}))
  {
  }

  lemma ValidateRemoteEvolves(s: AuthState, rh: int, request: Token, lh: int, token: Token, guid: Guid, nonce: Option<Nonce>)
    requires WellFormed(s)
    ensures IdentitiesChange(s, ValidateRemote(s, rh, request, lh, token, guid, nonce).state)
  {
    hide RecordRequest, IsNil, RoleOf, AuthRequestToken, IdentitiesChange, WellFormed;
    var t := ValidateRemote(s, rh, request, lh, token, guid, nonce).state;
    NoChange(s);
    if t.nextHandle == s.nextHandle && rh in s.liveRemotes && rh in s.remotes {
      RecordRequestKeeps(s.remotes[rh], request);
      RemoteStored(s, rh, RecordRequest(s.remotes[rh], request).0);
      assert s.liveRemotes + {rh} == s.liveRemotes;
    } else if nonce.Some? {
      RecordRequestKeeps(NewRemote(lh, guid, nonce.value), request);
      RemoteMade(s, RecordRequest(NewRemote(lh, guid, nonce.value), request).0);
    }
  }

  lemma NoChange(s: AuthState)
    requires WellFormed(s)
    ensures IdentitiesChange(s, s) && s.liveRemotes <= s.remotes.Keys
  {
  }

  /** A call that opens a handshake adds it under the next handle and otherwise
      extends the history; one that fails only extends the history. */
  ghost predicate Opens(s: AuthState, t: AuthState) {
    var grew := t.handshakes != s.handshakes;
    && t == (if grew && s.nextHandle in t.handshakes then AddHandshake(s, t.handshakes[s.nextHandle]) else s).(
              hashed := t.hashed, signed := t.signed)
    && (grew ==> s.nextHandle in t.handshakes)
    && s.hashed <= t.hashed && s.signed <= t.signed
  }

  lemma OpensKeeps(suite: Suite, s: AuthState, t: AuthState)
    requires StateSound(suite, s) && Opens(s, t)
    requires t.handshakes == s.handshakes ==> t.signed == s.signed
    requires t.handshakes != s.handshakes ==>
               var hs := t.handshakes[s.nextHandle];
               && hs.localHandle in s.locals && hs.remoteHandle in s.remotes
               && HandshakeSound(suite, t.hashed, s.locals[hs.localHandle], s.remotes[hs.remoteHandle].guid, hs)
    requires forall sig :: sig in t.signed && sig !in s.signed ==> SignatureSound(t, sig)
    ensures StateSound(suite, t) && Evolves(s, t)
  {
    hide Encode, StringValue, ValueOf, Terminated, HandshakeSound, SignatureSound, RemoteSound;
    assert DecapsulationSound(suite, s, s.nextHandle);
    if t.handshakes == s.handshakes {
      StateSoundFrame(suite, s, t, {});
    } else {
      StateSoundFrame(suite, s, t, {s.nextHandle});
    }
  }

  lemma BeginRequestKeeps(suite: Suite, s: AuthState, e: Event)
    requires StateSound(suite, s) && e.BeginRequestEvent?
    ensures var t := Apply(suite, s, e).state; StateSound(suite, t) && Evolves(s, t)
  {
    hide Encode, StringValue, ValueOf, Terminated, SignatureSound;
    var t := Apply(suite, s, e).state;
    var h := s.nextHandle;
    if h in t.handshakes {
      var l := s.locals[e.initiatorHandle];
      var hs := t.handshakes[h];
      assert OwnHash(suite, t.hashed, l, OwnHashOf(hs), OwnCredentials(l, e.participantData));
      assert KemGenerated(suite, hs, e.key.value);
      assert RemoteSound(s.remotes[e.replierHandle]);
    }
    OpensKeeps(suite, s, t);
  }

  lemma BeginReplyOpens(suite: Suite, s: AuthState, e: Event)
    requires StateSound(suite, s) && e.BeginReplyEvent?
    ensures var t := Apply(suite, s, e).state;
            && Opens(s, t) && (t.handshakes == s.handshakes ==> t.signed == s.signed)
            && forall sig :: sig in t.signed && sig !in s.signed ==> SignatureSound(t, sig)
  {
    hide Encode, StringValue, ValueOf, Terminated, Accepts;
    assert s.nextHandle !in s.handshakes;
  }

  lemma BeginReplySound(suite: Suite, s: AuthState, e: Event)
    requires StateSound(suite, s) && e.BeginReplyEvent?
    ensures var t := Apply(suite, s, e).state;
            t.handshakes != s.handshakes ==>
               s.nextHandle in t.handshakes &&
               var hs := t.handshakes[s.nextHandle];
               && hs.localHandle in s.locals && hs.remoteHandle in s.remotes
               && HandshakeSound(suite, t.hashed, s.locals[hs.localHandle], s.remotes[hs.remoteHandle].guid, hs)
  {
    hide Encode, StringValue, ValueOf, Terminated, Acceptable, TokenCredentials;
    var t := Apply(suite, s, e).state;
    if t.handshakes != s.handshakes {
      var l, r := s.locals[e.replierHandle], s.remotes[e.initiatorHandle];
      var hs := t.handshakes[s.nextHandle];
      assert OwnHash(suite, t.hashed, l, OwnHashOf(hs), OwnCredentials(l, e.participantData));
      assert Acceptable(suite, l, r.guid, TokenCredentials(e.request), e.now);
      assert PeerHash(suite, t.hashed, l, r.guid, hs, PeerHashOf(hs), TokenCredentials(e.request));
      assert KemEncapsulated(suite, hs, e.coins);
      assert RemoteSound(r);
    }
  }

  lemma BeginReplyKeeps(suite: Suite, s: AuthState, e: Event)
    requires StateSound(suite, s) && e.BeginReplyEvent?
    ensures var t := Apply(suite, s, e).state; StateSound(suite, t) && Evolves(s, t)
  {
    hide Apply, Opens, HandshakeSound, SignatureSound, Evolves;
    BeginReplyOpens(suite, s, e);
    BeginReplySound(suite, s, e);
    OpensKeeps(suite, s, Apply(suite, s, e).state);
  }

  /** What `process_handshake` leaves alone when it changes the handshake `h`. */
  ghost predicate ChangesOnly(s: AuthState, t: AuthState, h: int) {
    && h in s.handshakes && h in t.handshakes
    && t == s.(handshakes := s.handshakes[h := t.handshakes[h]], signed := t.signed, hashed := t.hashed,
               decapsulated := t.decapsulated)
    && s.signed <= t.signed && s.hashed <= t.hashed
    && (t.decapsulated == s.decapsulated || t.decapsulated == s.decapsulated + multiset{h})
    && HandshakeEvolves(s.handshakes[h], t.handshakes[h])
  }

  lemma ChangesOnlyKeeps(suite: Suite, s: AuthState, t: AuthState, h: int)
    requires StateSound(suite, s) && ChangesOnly(s, t, h)
    requires HandshakeSound(suite, t.hashed, s.locals[s.handshakes[h].localHandle],
                            s.remotes[s.handshakes[h].remoteHandle].guid, t.handshakes[h])
    requires DecapsulationSound(suite, t, h)
    requires forall sig :: sig in t.signed && sig !in s.signed ==> SignatureSound(t, sig)
    ensures StateSound(suite, t) && Evolves(s, t)
  {
    hide Encode, StringValue, ValueOf, Terminated, HandshakeSound, Acceptable;
    assert Evolves(s, t);
    StateSoundFrame(suite, s, t, {h});
  }

  lemma ProcessReplyChanges(suite: Suite, s: AuthState, input: Token, h: int, now: int, signature: Option<OctetSeq>)
    requires WellFormed(s) && h in s.handshakes
    requires s.handshakes[h].initiator && s.handshakes[h].state == PendingHandshakeMessage
    ensures ChangesOnly(s, ProcessReply(suite, s, input, h, now, signature).state, h)
  {
    hide Encode, StringValue, ValueOf, Terminated, Accepts;
  }

  lemma ProcessReplySound(suite: Suite, s: AuthState, input: Token, h: int, now: int, signature: Option<OctetSeq>)
    requires StateSound(suite, s) && h in s.handshakes
    requires s.handshakes[h].initiator && s.handshakes[h].state == PendingHandshakeMessage
    ensures var t := ProcessReply(suite, s, input, h, now, signature).state;
            HandshakeSound(suite, t.hashed, s.locals[s.handshakes[h].localHandle],
                           s.remotes[s.handshakes[h].remoteHandle].guid, t.handshakes[h])
  {
    hide Encode, StringValue, ValueOf, Terminated, Acceptable, TokenCredentials, SignatureSound, DecapsulationSound;
    var t := ProcessReply(suite, s, input, h, now, signature).state;
    var hs, ht := s.handshakes[h], t.handshakes[h];
    var l, guid := s.locals[hs.localHandle], s.remotes[hs.remoteHandle].guid;
    assert SoundAt(suite, s, h);
    var own :| OwnHash(suite, s.hashed, l, OwnHashOf(hs), own);
    assert OwnHash(suite, t.hashed, l, OwnHashOf(ht), own);
    var sk :| KemGenerated(suite, hs, sk);
    assert KemGenerated(suite, ht, sk);
    if ht.state == OkFinalMessage {
      assert Verifies(suite, ht.remoteCertificate.value, Reply(ht.session), Property(input, SIGNATURE));
      assert Acceptable(suite, l, guid, TokenCredentials(input), now);
      assert PeerHash(suite, t.hashed, l, guid, ht, PeerHashOf(ht), TokenCredentials(input));
    }
  }

  lemma ProcessReplyHistory(suite: Suite, s: AuthState, input: Token, h: int, now: int, signature: Option<OctetSeq>)
    requires StateSound(suite, s) && h in s.handshakes
    requires s.handshakes[h].initiator && s.handshakes[h].state == PendingHandshakeMessage
    ensures var t := ProcessReply(suite, s, input, h, now, signature).state;
            && DecapsulationSound(suite, t, h)
            && forall sig :: sig in t.signed && sig !in s.signed ==> SignatureSound(t, sig)
  {
    hide Encode, StringValue, ValueOf, Terminated, Accepts, TokenCredentials, HandshakeSound;
    var t := ProcessReply(suite, s, input, h, now, signature).state;
    var ht := t.handshakes[h];
    assert DecapsulationSound(suite, s, h);
    if t.decapsulated != s.decapsulated {
      assert Verifies(suite, ht.remoteCertificate.value, Reply(ht.session), Property(input, SIGNATURE));
    }
  }

  /** A handshake that only changes its state keeps its soundness, if the new
      state is an allowed one. */
  lemma StateChangeSound(suite: Suite, s: AuthState, h: int, state: ValidationResult)
    requires StateSound(suite, s) && h in s.handshakes && s.handshakes[h].state == PendingHandshakeMessage
    requires state == ValidationFailed || (state == ValidationOk && !s.handshakes[h].initiator)
    requires state == ValidationOk ==> FinalVerified(suite, s.handshakes[h])
    ensures var t := SetHandshake(s, h, s.handshakes[h].(state := state));
            StateSound(suite, t) && Evolves(s, t)
  {
    hide Encode, StringValue, ValueOf, Terminated;
    var hs := s.handshakes[h];
    var ht := hs.(state := state);
    var t := SetHandshake(s, h, ht);
    var l, guid := s.locals[hs.localHandle], s.remotes[hs.remoteHandle].guid;
    assert SoundAt(suite, s, h) && DecapsulationSound(suite, s, h);
    assert OwnHashOf(ht) == OwnHashOf(hs) && PeerHashOf(ht) == PeerHashOf(hs);
    if hs.initiator {
      var sk :| KemGenerated(suite, hs, sk);
      assert KemGenerated(suite, ht, sk);
    } else {
      var coins :| KemEncapsulated(suite, hs, coins);
      assert KemEncapsulated(suite, ht, coins);
      var d :| PeerHash(suite, s.hashed, l, guid, hs, PeerHashOf(hs), d);
      assert PeerHash(suite, s.hashed, l, guid, ht, PeerHashOf(ht), d);
    }
    if state == ValidationOk {
      var signature :| Verifies(suite, hs.remoteCertificate.value, Final(hs.session), signature);
      assert Verifies(suite, ht.remoteCertificate.value, Final(ht.session), signature);
    }
    assert HandshakeSound(suite, s.hashed, l, guid, ht);
    ChangesOnlyKeeps(suite, s, t, h);
  }

  lemma ProcessKeeps(suite: Suite, s: AuthState, e: Event)
    requires StateSound(suite, s) && e.ProcessEvent?
    ensures var t := Apply(suite, s, e).state; StateSound(suite, t) && Evolves(s, t)
  {
    hide Encode, StringValue, ValueOf, Terminated, HandshakeSound, ProcessReply, SignatureSound, DecapsulationSound;
    var t := Apply(suite, s, e).state;
    var h := e.handle;
    if h !in s.liveHandshakes || s.handshakes[h].state != PendingHandshakeMessage {
    } else if s.handshakes[h].initiator && e.input.classId == REPLY_CLASS_ID {
      ProcessReplyChanges(suite, s, e.input, h, e.now, e.signature);
      ProcessReplySound(suite, s, e.input, h, e.now, e.signature);
      ProcessReplyHistory(suite, s, e.input, h, e.now, e.signature);
      ChangesOnlyKeeps(suite, s, t, h);
    } else {
      StateChangeSound(suite, s, h, t.handshakes[h].state);
    }
  }

  /** Every call keeps the invariant and only lets the state evolve. */
  lemma ApplyKeeps(suite: Suite, s: AuthState, e: Event)
    requires StateSound(suite, s)
    ensures var t := Apply(suite, s, e).state; StateSound(suite, t) && Evolves(s, t)
  {
    match e
    case BeginRequestEvent(_, _, _, _, _, _) => BeginRequestKeeps(suite, s, e);
    case BeginReplyEvent(_, _, _, _, _, _, _, _, _) => BeginReplyKeeps(suite, s, e);
    case ProcessEvent(_, _, _, _) => ProcessKeeps(suite, s, e);
    case _ => IdentityCallsKeep(suite, s, e);
  }

  lemma InitialSound(suite: Suite)
    ensures StateSound(suite, INITIAL)
  {
  }

  // ------------------------------------------ the handle discipline, call by call

  lemma ValidateLocalWellFormed(s: AuthState, loaded: Option<Loaded>, kem: CString, available: bool, adjusted: Option<Guid>)
    requires WellFormed(s)
    ensures WellFormed(ValidateLocal(s, loaded, kem, available, adjusted).state)
  {
    ValidateLocalEvolves(s, loaded, kem, available, adjusted);
  }

  lemma SetPermissionsWellFormed(s: AuthState, h: int, document: Option<OctetSeq>)
    requires WellFormed(s)
    ensures WellFormed(SetPermissions(s, h, document).state)
  {
    SetPermissionsEvolves(s, h, document);
  }

  lemma ValidateRemoteWellFormed(s: AuthState, rh: int, request: Token, lh: int, token: Token, guid: Guid, nonce: Option<Nonce>)
    requires WellFormed(s)
    ensures WellFormed(ValidateRemote(s, rh, request, lh, token, guid, nonce).state)
  {
    ValidateRemoteEvolves(s, rh, request, lh, token, guid, nonce);
  }

  lemma ReturnsWellFormed(s: AuthState, h: int)
    requires WellFormed(s)
    ensures WellFormed(ReturnHandshake(s, h).state) && WellFormed(ReturnIdentity(s, h).state)
  {
  }

  lemma BeginRequestWellFormed(suite: Suite, s: AuthState, h: int, ih: int, rh: int, data: OctetSeq, key: Option<SecretKey>,
                               nonce: Option<Nonce>)
    requires WellFormed(s)
    ensures WellFormed(BeginRequest(suite, s, h, ih, rh, data, key, nonce).state)
  {
    hide Encode, RequestToken;
  }

  lemma BeginReplyWellFormed(suite: Suite, s: AuthState, h: int, request: Token, ih: int, rh: int, data: OctetSeq, now: int,
                             coins: Coins, nonce: Option<Nonce>, signature: Option<OctetSeq>)
    requires WellFormed(s)
    ensures WellFormed(BeginReply(suite, s, h, request, ih, rh, data, now, coins, nonce, signature).state)
  {
    hide Encode, ReplyToken, Accepts, TokenCredentials, ValueOf;
  }

  lemma ProcessWellFormed(suite: Suite, s: AuthState, input: Token, h: int, now: int, signature: Option<OctetSeq>)
    requires WellFormed(s)
    ensures WellFormed(Process(suite, s, input, h, now, signature).state)
  {
    hide Encode, ReplyToken, Accepts, TokenCredentials, ValueOf;
    if h in s.liveHandshakes && s.handshakes[h].state == PendingHandshakeMessage && s.handshakes[h].initiator && input.classId == REPLY_CLASS_ID {
      ProcessReplyChanges(suite, s, input, h, now, signature);
    }
  }
}
