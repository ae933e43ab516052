/** The security goals of the OpenDDS handshake, over whole runs of `Network`. */
module Agreement {
  import opened Octets
  import opened Guids
  import opened Transcript
  import opened Environment
  import opened Protocol
  import opened Invariant
  import opened Network
  import opened Acceptance

  ghost function LocalOf(w: World, n: NodeId, h: int): LocalIdentity
    requires Begun(w, n, h) && WellFormed(w[n])
  {
    w[n].locals[At(w, n, h).localHandle]
  }

  ghost function RemoteGuidOf(w: World, n: NodeId, h: int): Guid
    requires Begun(w, n, h) && WellFormed(w[n])
  {
    w[n].remotes[At(w, n, h).remoteHandle].guid
  }

  /** The handshake runs under the identity that owns this key. */
  ghost predicate OwnKey(w: World, n: NodeId, h: int, key: PublicKey) {
    Begun(w, n, h) && WellFormed(w[n]) && LocalOf(w, n, h).key == key
  }

  /** An initiator and a replier with the same hashes, challenges, KEM public key
      and ciphertext. */
  ghost predicate Partners(w: World, n: NodeId, h: int, m: NodeId, g: int) {
    && Begun(w, n, h) && Begun(w, m, g)
    && At(w, n, h).initiator && !At(w, m, g).initiator
    && At(w, n, h).session == At(w, m, g).session
  }

  /** The handshake authenticated an honest peer with this key. */
  ghost predicate Authenticated(suite: Suite, honest: set<PublicKey>, w: World, n: NodeId, h: int, key: PublicKey) {
    && Begun(w, n, h) && key in honest && PeerKey(suite, At(w, n, h), key)
    && At(w, n, h).state == (if At(w, n, h).initiator then OkFinalMessage else ValidationOk)
  }

  /** A logged signature leads to the session of the handshake that made it. */
  lemma LoggedSession(suite: Suite, honest: set<PublicKey>, w: World, key: PublicKey, message: Message)
    returns (n: NodeId, h: int)
    requires WorldSound(suite, honest, w) && Logged(w, key, message)
    ensures Begun(w, n, h) && OwnKey(w, n, h, key)
    ensures message == (if At(w, n, h).initiator then Final(At(w, n, h).session) else Reply(At(w, n, h).session))
    ensures At(w, n, h).initiator ==> At(w, n, h).state == OkFinalMessage
  {
    hide Encode, StringValue, ValueOf, Terminated, HandshakeSound;
    var m: NodeId, sig :| m in w && sig in w[m].signed && sig.key == key && sig.message == message;
    assert SignatureSound(w[m], sig);
    n, h := m, sig.handle;
  }

  /** A replier that accepts an honest peer has a partner at that peer: an
      initiator that completed with the same session. */
  lemma ReplierAgreement(suite: Suite, honest: set<PublicKey>, run: seq<World>, i: nat, n: NodeId, h: int, key: PublicKey)
    requires IsRun(suite, honest, run) && i < |run|
    requires Authenticated(suite, honest, run[i], n, h, key) && !At(run[i], n, h).initiator
    ensures exists m: NodeId, g :: Partners(run[i], m, g, n, h) && OwnKey(run[i], m, g, key) && At(run[i], m, g).state == OkFinalMessage
  {
    hide IsRun, StateSound, KemMaterialUnique;
    RunSound(suite, honest, run, i);
    assert PeerAuthentic(suite, honest, run[i], At(run[i], n, h));
    var m, g := LoggedSession(suite, honest, run[i], key, Final(At(run[i], n, h).session));
    assert Partners(run[i], m, g, n, h);
  }

  /** An initiator that accepts an honest peer has a partner at that peer: a
      replier that answered with the same session. */
  lemma InitiatorAgreement(suite: Suite, honest: set<PublicKey>, run: seq<World>, i: nat, n: NodeId, h: int, key: PublicKey)
    requires IsRun(suite, honest, run) && i < |run|
    requires Authenticated(suite, honest, run[i], n, h, key) && At(run[i], n, h).initiator
    ensures exists m: NodeId, g :: Partners(run[i], n, h, m, g) && OwnKey(run[i], m, g, key)
  {
    hide IsRun, StateSound, KemMaterialUnique;
    RunSound(suite, honest, run, i);
    assert PeerAuthentic(suite, honest, run[i], At(run[i], n, h));
    var m, g := LoggedSession(suite, honest, run[i], key, Reply(At(run[i], n, h).session));
    assert Partners(run[i], n, h, m, g);
  }

  /** Partners pair up one to one: neither side of a session is shared, although
      an announced challenge can serve several sessions. */
  lemma InjectiveAgreement(suite: Suite, honest: set<PublicKey>, run: seq<World>, i: nat,
                           n: NodeId, h: int, m: NodeId, g: int, n': NodeId, h': int, m': NodeId, g': int)
    requires IsRun(suite, honest, run) && i < |run|
    requires Partners(run[i], n, h, m, g) && Partners(run[i], n', h', m', g')
    ensures n == n' && h == h' <==> m == m' && g == g'
  {
    hide IsRun, StateSound, PeerAuthentic;
    RunSound(suite, honest, run, i);
    if n == n' && h == h' {
      assert SameCiphertext(run[i], m, g, m', g');
    }
    if m == m' && g == g' {
      assert SamePublicKey(run[i], n, h, n', h');
    }
  }

  /** No two octet strings that were hashed in this world have the same hash. */
  ghost predicate NoCollision(suite: Suite, w: World) {
    forall n: NodeId, c, m: NodeId, d ::
      n in w && c in w[n].hashed && m in w && d in w[m].hashed && HashOf(suite, c) == HashOf(suite, d) ==>
        Encode(CredentialHash(c)) == Encode(CredentialHash(d))
  }

  lemma HashTellsCredentials(suite: Suite, w: World, n: NodeId, c: Credentials, m: NodeId, d: Credentials)
    requires NoCollision(suite, w) && n in w && c in w[n].hashed && m in w && d in w[m].hashed
    requires HashOf(suite, c) == HashOf(suite, d)
    ensures c == d
  {
    hide Encode;
    EncodeInjective(CredentialHash(c), CredentialHash(d));
  }

  /** The secrets and identities on which two partners agree. */
  ghost predicate Agree(suite: Suite, w: World, n: NodeId, h: int, m: NodeId, g: int)
    requires Begun(w, n, h) && Begun(w, m, g) && WellFormed(w[n]) && WellFormed(w[m])
  {
    && At(w, n, h).kemAlgorithm == At(w, m, g).kemAlgorithm
    && At(w, n, h).secret == At(w, m, g).secret
    && At(w, n, h).remoteCertificate == Some(LocalOf(w, m, g).certificate)
    && At(w, m, g).remoteCertificate == Some(LocalOf(w, n, h).certificate)
    && IsCertificateOf(suite, LocalOf(w, m, g).certificate, RemoteGuidOf(w, n, h))
    && IsCertificateOf(suite, LocalOf(w, n, h).certificate, RemoteGuidOf(w, m, g))
  }

  ghost predicate IsCertificateOf(suite: Suite, certificate: OctetSeq, guid: Guid) {
    var parsed := suite.parseCertificate(certificate);
    parsed.Some? && CertificateHasGuid(parsed.value, guid)
  }

  /** The credentials behind the two hashes of a handshake. */
  lemma CheckedCredentials(suite: Suite, s: AuthState, h: int) returns (own: Credentials, peer: Credentials)
    requires StateSound(suite, s) && h in s.handshakes && PeerChecked(s.handshakes[h])
    ensures var hs := s.handshakes[h];
            var l, guid := s.locals[hs.localHandle], s.remotes[hs.remoteHandle].guid;
            && hs.kemAlgorithm == l.kemAlgorithm
            && OwnHash(suite, s.hashed, l, OwnHashOf(hs), own)
            && PeerHash(suite, s.hashed, l, guid, hs, PeerHashOf(hs), peer)
  {
    hide Encode, StringValue, ValueOf, Terminated, KemSound, SignatureSound, DecapsulationSound;
    var hs := s.handshakes[h];
    var l, guid := s.locals[hs.localHandle], s.remotes[hs.remoteHandle].guid;
    assert SoundAt(suite, s, h);
    own :| OwnHash(suite, s.hashed, l, OwnHashOf(hs), own);
    peer :| PeerHash(suite, s.hashed, l, guid, hs, PeerHashOf(hs), peer);
  }

  /** Each side's own credentials are those that the other side checked. */
  lemma PartnersShareCredentials(suite: Suite, w: World, n: NodeId, h: int, m: NodeId, g: int)
    requires Partners(w, n, h, m, g) && At(w, n, h).state == OkFinalMessage
    requires StateSound(suite, w[n]) && StateSound(suite, w[m]) && NoCollision(suite, w)
    ensures At(w, n, h).kemAlgorithm == At(w, m, g).kemAlgorithm
    ensures At(w, n, h).remoteCertificate == Some(LocalOf(w, m, g).certificate)
    ensures At(w, m, g).remoteCertificate == Some(LocalOf(w, n, h).certificate)
    ensures IsCertificateOf(suite, LocalOf(w, m, g).certificate, RemoteGuidOf(w, n, h))
    ensures IsCertificateOf(suite, LocalOf(w, n, h).certificate, RemoteGuidOf(w, m, g))
  {
    hide Encode, StringValue, ValueOf, Terminated, StateSound;
    var own1, peer2 := CheckedCredentials(suite, w[n], h);
    var own2, peer1 := CheckedCredentials(suite, w[m], g);
    HashTellsCredentials(suite, w, n, own1, m, peer1);
    HashTellsCredentials(suite, w, n, peer2, m, own2);
  }

  /** Partners of which the initiator has completed hold the same secret and name
      each other's certificate, and the certificate fits the peer's GUID. */
  lemma PartnersAgree(suite: Suite, honest: set<PublicKey>, run: seq<World>, i: nat, n: NodeId, h: int, m: NodeId, g: int)
    requires IsRun(suite, honest, run) && i < |run|
    requires Partners(run[i], n, h, m, g) && At(run[i], n, h).state == OkFinalMessage
    requires NoCollision(suite, run[i]) && KemCorrect(suite)
    ensures WellFormed(run[i][n]) && WellFormed(run[i][m]) && Agree(suite, run[i], n, h, m, g)
  {
    hide IsRun, Encode, PeerAuthentic, KemMaterialUnique;
    var w := run[i];
    RunSound(suite, honest, run, i);
    PartnersShareCredentials(suite, w, n, h, m, g);
    assert SoundAt(suite, w[n], h) && SoundAt(suite, w[m], g);
    SecretsEqual(suite, At(w, n, h), At(w, m, g));
  }

  /** A handshake that accepts an honest peer, in either role, has a partner at that
      peer that holds the same secret; each names the certificate of the other. */
  lemma HonestPeersAgree(suite: Suite, honest: set<PublicKey>, run: seq<World>, i: nat, n: NodeId, h: int, key: PublicKey)
    returns (m: NodeId, g: int)
    requires IsRun(suite, honest, run) && i < |run|
    requires Authenticated(suite, honest, run[i], n, h, key)
    requires NoCollision(suite, run[i]) && KemCorrect(suite)
    ensures Begun(run[i], m, g) && OwnKey(run[i], m, g, key)
    ensures WellFormed(run[i][n]) && WellFormed(run[i][m])
    ensures if At(run[i], n, h).initiator
            then Partners(run[i], n, h, m, g) && Agree(suite, run[i], n, h, m, g)
            else Partners(run[i], m, g, n, h) && Agree(suite, run[i], m, g, n, h)
  {
    hide IsRun, NoCollision, KemCorrect, WellFormed, Agree;
    if At(run[i], n, h).initiator {
      InitiatorAgreement(suite, honest, run, i, n, h, key);
      m, g :| Partners(run[i], n, h, m, g) && OwnKey(run[i], m, g, key);
      EndsInItsRole(suite, honest, run, i, n, h);
      PartnersAgree(suite, honest, run, i, n, h, m, g);
    } else {
      ReplierAgreement(suite, honest, run, i, n, h, key);
      m, g :| Partners(run[i], m, g, n, h) && OwnKey(run[i], m, g, key) && At(run[i], m, g).state == OkFinalMessage;
      PartnersAgree(suite, honest, run, i, m, g, n, h);
    }
  }

  lemma SecretsEqual(suite: Suite, hs: Handshake, gs: Handshake)
    requires KemCorrect(suite) && KemSound(suite, hs) && KemSound(suite, gs)
    requires hs.initiator && hs.state == OkFinalMessage && !gs.initiator
    requires hs.session == gs.session && hs.kemAlgorithm == gs.kemAlgorithm
    ensures hs.secret == gs.secret
  {
    var sk :| KemGenerated(suite, hs, sk);
    var coins :| KemEncapsulated(suite, gs, coins);
    assert suite.kemEncapsulate(hs.kemAlgorithm, suite.kemPublic(hs.kemAlgorithm, sk), coins).Some?;
  }

  // ------------------------------------------------------- one plugin over time

  /** Between two points of a run a plugin only evolves. */
  lemma {:induction false} RunEvolves(suite: Suite, honest: set<PublicKey>, run: seq<World>, i: nat, j: nat, n: NodeId)
    requires IsRun(suite, honest, run) && i <= j < |run| && n in run[i]
    ensures n in run[j] && Evolves(run[i][n], run[j][n])
    decreases j
  {
    hide WorldSound, Evolves;
    if i == j {
      EvolvesReflexive(run[i][n]);
    } else {
      RunEvolves(suite, honest, run, i, j - 1, n);
      RunSound(suite, honest, run, j - 1);
      assert Step(suite, honest, run[j - 1], run[j - 1 + 1]);
      StepEvolves(suite, honest, run[j - 1], run[j], n);
      EvolvesTransitive(run[i][n], run[j - 1][n], run[j][n]);
    }
  }

  lemma EvolvesReflexive(s: AuthState)
    ensures Evolves(s, s)
  {
  }

  lemma StepEvolves(suite: Suite, honest: set<PublicKey>, w: World, w': World, n: NodeId)
    requires WorldSound(suite, honest, w) && Step(suite, honest, w, w') && n in w
    ensures n in w' && Evolves(w[n], w'[n])
  {
    hide Encode, Apply, Permitted, StateSound, PeerAuthentic, KemMaterialUnique, Evolves;
    EvolvesReflexive(w[n]);
    if k: NodeId, e :| CallStep(suite, honest, w, k, e, w') {
      ApplyKeeps(suite, w[k], e);
    }
  }

  /** Once a handshake no longer awaits a message it never changes again, and any
      further message for it is refused without effect: a call that completes
      a handshake is the last that succeeds on it. */
  lemma CompletedForever(suite: Suite, honest: set<PublicKey>, run: seq<World>, i: nat, j: nat, n: NodeId, h: int,
                         input: Token, now: int, signature: Option<OctetSeq>)
    requires IsRun(suite, honest, run) && i <= j < |run|
    requires Begun(run[i], n, h) && At(run[i], n, h).state != PendingHandshakeMessage
    ensures Begun(run[j], n, h) && At(run[j], n, h) == At(run[i], n, h)
    ensures StateSound(suite, run[j][n])
    ensures var o := Process(suite, run[j][n], input, h, now, signature);
            o.result == ValidationFailed && o.state == run[j][n]
  {
    hide IsRun, PeerAuthentic, KemMaterialUnique;
    RunEvolves(suite, honest, run, i, j, n);
    assert HandshakeEvolves(At(run[i], n, h), At(run[j], n, h));
    RunSound(suite, honest, run, j);
  }

  /** Initiators end only in OK_FINAL_MESSAGE or FAILED, repliers only in OK or FAILED. */
  lemma EndsInItsRole(suite: Suite, honest: set<PublicKey>, run: seq<World>, i: nat, n: NodeId, h: int)
    requires IsRun(suite, honest, run) && i < |run| && Begun(run[i], n, h)
    ensures At(run[i], n, h).state in {PendingHandshakeMessage, ValidationFailed,
                                       if At(run[i], n, h).initiator then OkFinalMessage else ValidationOk}
  {
    hide IsRun, Encode, StringValue, ValueOf, Terminated, PeerAuthentic, KemMaterialUnique, SignatureSound, DecapsulationSound,
      KemSound, ReplyVerified, FinalVerified;
    RunSound(suite, honest, run, i);
    assert SoundAt(suite, run[i][n], h);
  }

  /** A handle that was given out and returned never resolves again, in any table. */
  lemma ReturnedForever(suite: Suite, honest: set<PublicKey>, run: seq<World>, i: nat, j: nat, n: NodeId, h: int)
    requires IsRun(suite, honest, run) && i <= j < |run| && n in run[i]
    requires h < run[i][n].nextHandle
    requires h !in run[i][n].liveLocals + run[i][n].liveRemotes + run[i][n].liveHandshakes
    ensures n in run[j]
    ensures h !in run[j][n].liveLocals + run[j][n].liveRemotes + run[j][n].liveHandshakes
  {
    hide IsRun;
    RunEvolves(suite, honest, run, i, j, n);
  }

  /** No KEM key serves twice, and none before a reply's signature verified. */
  lemma DecapsulatedOnce(suite: Suite, honest: set<PublicKey>, run: seq<World>, i: nat, n: NodeId, h: int)
    requires IsRun(suite, honest, run) && i < |run| && n in run[i]
    ensures run[i][n].decapsulated[h] <= 1
    ensures run[i][n].decapsulated[h] == 1 ==>
              && Begun(run[i], n, h) && At(run[i], n, h).initiator
              && At(run[i], n, h).kemKey.None? && ReplyVerified(suite, At(run[i], n, h))
  {
    hide IsRun, PeerAuthentic, KemMaterialUnique;
    RunSound(suite, honest, run, i);
    assert DecapsulationSound(suite, run[i][n], h);
  }

  /** A handle that `return_handshake_handle` or `return_identity_handle` takes back in
      one step of a run resolves in no later state; the calls succeed exactly for handles
      that are in their tables. */
  lemma ReturnedAtOnce(suite: Suite, honest: set<PublicKey>, run: seq<World>, i: nat, j: nat, n: NodeId, h: int, identity: bool)
    requires IsRun(suite, honest, run) && i + 1 <= j < |run| && n in run[i] && WellFormed(run[i][n])
    requires run[i + 1] == run[i][n := (if identity then ReturnIdentity(run[i][n], h) else ReturnHandshake(run[i][n], h)).state]
    requires h in (if identity then run[i][n].liveLocals + run[i][n].liveRemotes else run[i][n].liveHandshakes)
    ensures (if identity then ReturnIdentity(run[i][n], h) else ReturnHandshake(run[i][n], h)).result == ValidationOk
    ensures n in run[j] && WellFormed(run[j][n])
    ensures h !in run[j][n].liveLocals + run[j][n].liveRemotes + run[j][n].liveHandshakes
    ensures GetSharedSecret(run[j][n], h) == None && GetPeerCredentials(run[j][n], h) == None
  {
    hide IsRun, WorldSound;
    var s, t := run[i][n], run[i + 1][n];
    assert h < t.nextHandle && h !in t.liveLocals + t.liveRemotes + t.liveHandshakes;
    ReturnedForever(suite, honest, run, i + 1, j, n, h);
    RunWellFormed(suite, honest, run, j, n);
  }

  lemma RunWellFormed(suite: Suite, honest: set<PublicKey>, run: seq<World>, i: nat, n: NodeId)
    requires IsRun(suite, honest, run) && i < |run| && n in run[i]
    ensures WellFormed(run[i][n]) && StateSound(suite, run[i][n])
  {
    hide IsRun, PeerAuthentic, KemMaterialUnique;
    RunSound(suite, honest, run, i);
  }

  /** In every state of a run, a handshake that answered a request and one that has
      completed hold the hash of credentials that were genuine when they were checked. */
  lemma PeerWasGenuine(suite: Suite, honest: set<PublicKey>, run: seq<World>, i: nat, n: NodeId, h: int)
    returns (peer: Credentials, now: int)
    requires IsRun(suite, honest, run) && i < |run| && Begun(run[i], n, h)
    requires !At(run[i], n, h).initiator || At(run[i], n, h).state == OkFinalMessage
    ensures WellFormed(run[i][n])
    ensures Genuine(suite, LocalOf(run[i], n, h), RemoteGuidOf(run[i], n, h), peer, now)
    ensures HashOf(suite, peer) == Some(PeerHashOf(At(run[i], n, h)))
    ensures At(run[i], n, h).remoteCertificate == Some(peer.certificate)
    ensures At(run[i], n, h).remotePermissions == peer.permissions
  {
    hide IsRun, Encode, StringValue, ValueOf, Terminated, StateSound, Acceptable, Genuine;
    RunWellFormed(suite, honest, run, i, n);
    var own;
    own, peer := CheckedCredentials(suite, run[i][n], h);
    now :| Acceptable(suite, LocalOf(run[i], n, h), RemoteGuidOf(run[i], n, h), peer, now);
    AcceptsExactlyGenuine(suite, LocalOf(run[i], n, h), RemoteGuidOf(run[i], n, h), peer, now);
  }

  /** A secret and a peer credential token are released for the same handshakes:
      those in the table that have completed in their role. */
  lemma ReleasedExactly(suite: Suite, honest: set<PublicKey>, run: seq<World>, i: nat, n: NodeId, h: int)
    requires IsRun(suite, honest, run) && i < |run| && n in run[i]
    ensures WellFormed(run[i][n])
    ensures GetSharedSecret(run[i][n], h).Some? <==>
            h in run[i][n].liveHandshakes && At(run[i], n, h).state in {OkFinalMessage, ValidationOk}
    ensures GetPeerCredentials(run[i][n], h).Some? <==>
            h in run[i][n].liveHandshakes && At(run[i], n, h).state in {OkFinalMessage, ValidationOk}
  {
    hide IsRun, Encode, StringValue, ValueOf, Terminated, Acceptable, Genuine;
    RunWellFormed(suite, honest, run, i, n);
    if h in run[i][n].liveHandshakes && At(run[i], n, h).state in {OkFinalMessage, ValidationOk} {
      EndsInItsRole(suite, honest, run, i, n, h);
      var peer, now := PeerWasGenuine(suite, honest, run, i, n, h);
    }
  }

  /** What is behind every secret and every peer credential token that a plugin
      releases. */
  lemma ReleaseGate(suite: Suite, honest: set<PublicKey>, run: seq<World>, i: nat, n: NodeId, h: int)
    requires IsRun(suite, honest, run) && i < |run| && n in run[i] && WellFormed(run[i][n])
    requires GetSharedSecret(run[i][n], h).Some? || GetPeerCredentials(run[i][n], h).Some?
    ensures h in run[i][n].handshakes
    ensures exists own, peer, now :: Released(suite, run[i][n], h, own, peer, now)
  {
    hide IsRun, Encode, StringValue, ValueOf, Terminated, PeerAuthentic, KemMaterialUnique, Acceptable, CertificateFits, DataCarries;
    RunSound(suite, honest, run, i);
    var s := run[i][n];
    var hs := s.handshakes[h];
    assert SoundAt(suite, s, h);
    var own, peer := CheckedCredentials(suite, s, h);
    var now :| Acceptable(suite, s.locals[hs.localHandle], s.remotes[hs.remoteHandle].guid, peer, now);
    AcceptsExactlyGenuine(suite, s.locals[hs.localHandle], s.remotes[hs.remoteHandle].guid, peer, now);
    VerifiedMeans(suite, hs);
    assert Released(suite, s, h, own, peer, now);
  }

  /** The handshake completed in its role, with 256-bit challenges; its hashes
      are those of its own credentials and of credentials of the peer that were
      genuine when they were checked; the secret and the token are those of this
      handshake and this peer; and a signature of the peer over the session verified. */
  ghost predicate Released(suite: Suite, s: AuthState, h: int, own: Credentials, peer: Credentials, now: int)
    requires WellFormed(s) && h in s.handshakes
  {
    var hs := s.handshakes[h];
    var l, guid := s.locals[hs.localHandle], s.remotes[hs.remoteHandle].guid;
    && hs.state == (if hs.initiator then OkFinalMessage else ValidationOk)
    && |hs.session.challenge1| == |hs.session.challenge2| == 32
    && HashOf(suite, own) == Some(OwnHashOf(hs)) && HashOf(suite, peer) == Some(PeerHashOf(hs))
    && own.certificate == l.certificate && own.kemAlgorithm == peer.kemAlgorithm == l.kemAlgorithm
    && Genuine(suite, l, guid, peer, now)
    && GetSharedSecret(s, h) == Some(SharedSecret(hs.session.challenge1, hs.session.challenge2, hs.secret))
    && GetPeerCredentials(s, h) == Some((peer.certificate, peer.permissions))
    && SignatureVerified(suite, peer.certificate, if hs.initiator then Reply(hs.session) else Final(hs.session))
  }

  lemma VerifiedMeans(suite: Suite, hs: Handshake)
    ensures ReplyVerified(suite, hs) ==> SignatureVerified(suite, hs.remoteCertificate.value, Reply(hs.session))
    ensures FinalVerified(suite, hs) ==> SignatureVerified(suite, hs.remoteCertificate.value, Final(hs.session))
  {
    hide Encode;
  }

  /** The libraries verified a signature over this message under the certificate. */
  ghost predicate SignatureVerified(suite: Suite, certificate: OctetSeq, message: Message) {
    var info := suite.parseCertificate(certificate);
    info.Some? && exists signature: OctetSeq :: suite.verify(info.value.key, Encode(message), signature)
  }
}
