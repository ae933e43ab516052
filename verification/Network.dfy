/** Any number of OpenDDS plugins on a network that loses, repeats, reorders and
    invents tokens: every event may carry any token at all.

    The library functions are assumed to give an adversary no more than this:
    a signature under an honest key verifies only over octets that a plugin
    signed with that key, and generated KEM keys and ciphertexts are new. */
module Network {
  import opened Octets
  import opened Transcript
  import opened Environment
  import opened Protocol
  import opened Invariant

  type NodeId = nat

  type World = map<NodeId, AuthState>

  /** A handshake ever begun by a plugin: also one that was returned since. */
  ghost predicate Begun(w: World, n: NodeId, h: int) {
    n in w && h in w[n].handshakes
  }

  ghost function At(w: World, n: NodeId, h: int): Handshake
    requires Begun(w, n, h)
  {
    w[n].handshakes[h]
  }

  // ------------------------------------------------------------------ the runs

  ghost predicate Logged(w: World, key: PublicKey, message: Message) {
    exists n, sig :: n in w && sig in w[n].signed && sig.key == key && sig.message == message
  }

  /** A plugin has signed these octets with this key. */
  ghost predicate OctetsSigned(w: World, key: PublicKey, octets: seq<byte>) {
    exists n, sig :: n in w && sig in w[n].signed && sig.key == key && Encode(sig.message) == octets
  }

  /** A signature that verifies under an honest key was made by a plugin, over the same octets. */
  ghost predicate NoForgery(suite: Suite, honest: set<PublicKey>, w: World, signature: OctetSeq) {
    forall key, octets :: key in honest && suite.verify(key, octets, signature) ==> OctetsSigned(w, key, octets)
  }

  /** The octets tell which message was signed. */
  lemma OctetsTellMessage(w: World, key: PublicKey, message: Message)
    requires OctetsSigned(w, key, Encode(message))
    ensures Logged(w, key, message)
  {
    hide Encode;
    var n, sig :| n in w && sig in w[n].signed && sig.key == key && Encode(sig.message) == Encode(message);
    EncodeInjective(sig.message, message);
  }

  ghost predicate FreshKey(w: World, publicKey: PublicKey) {
    forall n: NodeId, h :: Begun(w, n, h) && At(w, n, h).initiator ==> At(w, n, h).session.publicKey != publicKey
  }

  ghost predicate FreshCiphertext(w: World, ciphertext: OctetSeq) {
    forall n: NodeId, h :: Begun(w, n, h) && !At(w, n, h).initiator ==> At(w, n, h).session.ciphertext != ciphertext
  }

  /** What the assumptions on the library functions say about one event. */
  ghost predicate Permitted(suite: Suite, honest: set<PublicKey>, w: World, n: NodeId, e: Event)
    requires n in w
  {
    match e
    case ProcessEvent(input, _, _, _) => NoForgery(suite, honest, w, Property(input, SIGNATURE))
    case BeginRequestEvent(_, h, _, _, key, _) =>
      h in w[n].locals && key.Some? ==> FreshKey(w, suite.kemPublic(w[n].locals[h].kemAlgorithm, key.value))
    case BeginReplyEvent(_, request, _, h, _, _, coins, _, _) =>
      h in w[n].locals ==>
        var sent := Encapsulate(suite, w[n].locals[h].kemAlgorithm, Property(request, KEM_PUBLIC), coins);
        sent.Some? ==> FreshCiphertext(w, sent.value.0)
    case _ => true
  }

  ghost predicate Step(suite: Suite, honest: set<PublicKey>, w: World, w': World) {
    || (exists n: NodeId :: n !in w && w' == w[n := INITIAL])
    || (exists n: NodeId, e :: CallStep(suite, honest, w, n, e, w'))
  }

  /** A call is only defined on a well-formed state; `RunSound` shows that there is no other. */
  ghost predicate CallStep(suite: Suite, honest: set<PublicKey>, w: World, n: NodeId, e: Event, w': World) {
    n in w && WellFormed(w[n]) && Permitted(suite, honest, w, n, e) && w' == w[n := Apply(suite, w[n], e).state]
  }

  /** A run: it starts without plugins and takes one step at a time. */
  ghost predicate IsRun(suite: Suite, honest: set<PublicKey>, run: seq<World>) {
    && run != [] && run[0] == map[]
    && forall i :: 0 <= i < |run| - 1 ==> Step(suite, honest, run[i], run[i + 1])
  }

  // ------------------------------------------------------------- the invariant

  /** The key of the peer that a handshake authenticated. */
  ghost predicate PeerKey(suite: Suite, hs: Handshake, key: PublicKey) {
    hs.remoteCertificate.Some? &&
    var certificate := suite.parseCertificate(hs.remoteCertificate.value);
    certificate.Some? && certificate.value.key == key
  }

  /** A completed handshake with an honest peer rests on a signature that the
      peer made over the other role's message for the same session. */
  ghost predicate PeerAuthentic(suite: Suite, honest: set<PublicKey>, w: World, hs: Handshake) {
    forall key :: key in honest && PeerKey(suite, hs, key) ==>
      && (hs.state == OkFinalMessage ==> Logged(w, key, Reply(hs.session)))
      && (hs.state == ValidationOk ==> Logged(w, key, Final(hs.session)))
  }

  ghost predicate SamePublicKey(w: World, n: NodeId, h: int, m: NodeId, g: int) {
    && Begun(w, n, h) && Begun(w, m, g) && At(w, n, h).initiator && At(w, m, g).initiator
    && At(w, n, h).session.publicKey == At(w, m, g).session.publicKey
  }

  ghost predicate SameCiphertext(w: World, n: NodeId, h: int, m: NodeId, g: int) {
    && Begun(w, n, h) && Begun(w, m, g) && !At(w, n, h).initiator && !At(w, m, g).initiator
    && At(w, n, h).session.ciphertext == At(w, m, g).session.ciphertext
  }

  ghost predicate KemMaterialUnique(w: World) {
    && (forall n: NodeId, h, m: NodeId, g :: SamePublicKey(w, n, h, m, g) ==> n == m && h == g)
    && (forall n: NodeId, h, m: NodeId, g :: SameCiphertext(w, n, h, m, g) ==> n == m && h == g)
  }

  ghost predicate WorldSound(suite: Suite, honest: set<PublicKey>, w: World) {
    && (forall n :: n in w ==> StateSound(suite, w[n]))
    && (forall n: NodeId, h :: Begun(w, n, h) ==> PeerAuthentic(suite, honest, w, At(w, n, h)))
    && KemMaterialUnique(w)
  }

  ghost predicate CompletionVerified(suite: Suite, e: Event, ht: Handshake) {
    ht.state == OkFinalMessage || ht.state == ValidationOk ==>
      && e.ProcessEvent? && ht.remoteCertificate.Some?
      && Verifies(suite, ht.remoteCertificate.value,
                  if ht.state == OkFinalMessage then Reply(ht.session) else Final(ht.session),
                  Property(e.input, SIGNATURE))
  }

  lemma ProcessVerifies(suite: Suite, s: AuthState, e: Event, h: int)
    requires StateSound(suite, s) && e.ProcessEvent? && h in s.handshakes
    requires h in Apply(suite, s, e).state.handshakes && Apply(suite, s, e).state.handshakes[h] != s.handshakes[h]
    ensures CompletionVerified(suite, e, Apply(suite, s, e).state.handshakes[h])
  {
    hide Encode, StringValue, ValueOf, Terminated, Accepts, TokenCredentials, HandshakeSound, Verifies, ChallengesMatch, Decapsulate;
    assert SoundAt(suite, s, h);
  }

  lemma BeginsPending(suite: Suite, s: AuthState, e: Event, h: int)
    requires StateSound(suite, s) && (e.BeginRequestEvent? || e.BeginReplyEvent?)
    requires h in Apply(suite, s, e).state.handshakes && h !in s.handshakes
    ensures Apply(suite, s, e).state.handshakes[h].state == PendingHandshakeMessage
  {
    hide Encode, StringValue, ValueOf, Terminated, Accepts, TokenCredentials, HandshakeSound, RequestToken, ReplyToken, Encapsulate,
      SignatureSound, DecapsulationSound;
  }

  lemma BeginsOnlyAdd(suite: Suite, s: AuthState, e: Event, h: int)
    requires StateSound(suite, s) && (e.BeginRequestEvent? || e.BeginReplyEvent?) && h in s.handshakes
    ensures var t := Apply(suite, s, e).state; h in t.handshakes && t.handshakes[h] == s.handshakes[h]
  {
    hide Encode, StringValue, ValueOf, Terminated, Accepts, TokenCredentials, HandshakeSound, RequestToken, ReplyToken, Encapsulate,
      SignatureSound, DecapsulationSound;
  }

  lemma ProcessOnlyChanges(suite: Suite, s: AuthState, e: Event)
    requires StateSound(suite, s) && e.ProcessEvent?
    ensures Apply(suite, s, e).state.handshakes.Keys == s.handshakes.Keys
  {
    hide Encode, StringValue, ValueOf, Terminated, Accepts, TokenCredentials, HandshakeSound, Verifies, ChallengesMatch, Decapsulate,
      SignatureSound, DecapsulationSound;
  }

  /** A handshake that a call completes had its peer's signature verified by that call. */
  lemma CompletionVerifies(suite: Suite, s: AuthState, e: Event, h: int)
    requires StateSound(suite, s) && h in Apply(suite, s, e).state.handshakes
    requires h in s.handshakes ==> Apply(suite, s, e).state.handshakes[h] != s.handshakes[h]
    ensures CompletionVerified(suite, e, Apply(suite, s, e).state.handshakes[h])
  {
    hide Apply, Verifies;
    if e.ProcessEvent? {
      ProcessOnlyChanges(suite, s, e);
      ProcessVerifies(suite, s, e, h);
    } else if e.BeginRequestEvent? || e.BeginReplyEvent? {
      if h in s.handshakes {
        BeginsOnlyAdd(suite, s, e, h);
        assert false;
      }
      BeginsPending(suite, s, e, h);
    } else {
      IdentityCallsEvolve(suite, s, e);
    }
  }

  lemma LoggedGrows(w: World, n: NodeId, t: AuthState, key: PublicKey, message: Message)
    requires Logged(w, key, message) && (n in w ==> w[n].signed <= t.signed)
    ensures Logged(w[n := t], key, message)
  {
    var m, sig :| m in w && sig in w[m].signed && sig.key == key && sig.message == message;
    assert sig in w[n := t][m].signed;
  }

  lemma PeerAuthenticGrows(suite: Suite, honest: set<PublicKey>, w: World, n: NodeId, t: AuthState, hs: Handshake)
    requires PeerAuthentic(suite, honest, w, hs) && (n in w ==> w[n].signed <= t.signed)
    ensures PeerAuthentic(suite, honest, w[n := t], hs)
  {
    hide Encode;
    forall key | key in honest && PeerKey(suite, hs, key)
      ensures hs.state == OkFinalMessage ==> Logged(w[n := t], key, Reply(hs.session))
      ensures hs.state == ValidationOk ==> Logged(w[n := t], key, Final(hs.session))
    {
      if hs.state == OkFinalMessage {
        LoggedGrows(w, n, t, key, Reply(hs.session));
      } else if hs.state == ValidationOk {
        LoggedGrows(w, n, t, key, Final(hs.session));
      }
    }
  }

  lemma CallKeepsAuthentic(suite: Suite, honest: set<PublicKey>, w: World, n: NodeId, e: Event, m: NodeId, h: int)
    requires WorldSound(suite, honest, w) && n in w && Permitted(suite, honest, w, n, e)
    requires Begun(w[n := Apply(suite, w[n], e).state], m, h)
    ensures var w' := w[n := Apply(suite, w[n], e).state]; PeerAuthentic(suite, honest, w', At(w', m, h))
  {
    hide Encode, StringValue, ValueOf, Terminated, Apply, HandshakeSound, Verifies;
    var t := Apply(suite, w[n], e).state;
    var w' := w[n := t];
    ApplyKeeps(suite, w[n], e);
    if Begun(w, m, h) && At(w', m, h) == At(w, m, h) {
      PeerAuthenticGrows(suite, honest, w, n, t, At(w, m, h));
    } else {
      CompletionVerifies(suite, w[n], e, h);
      VerifiedIsAuthentic(suite, honest, w, n, e, h);
    }
  }

  lemma VerifiedIsAuthentic(suite: Suite, honest: set<PublicKey>, w: World, n: NodeId, e: Event, h: int)
    requires n in w && StateSound(suite, w[n]) && Permitted(suite, honest, w, n, e)
    requires w[n].signed <= Apply(suite, w[n], e).state.signed
    requires h in Apply(suite, w[n], e).state.handshakes
    requires var ht := Apply(suite, w[n], e).state.handshakes[h];
             ht.state == OkFinalMessage || ht.state == ValidationOk ==>
               && e.ProcessEvent? && ht.remoteCertificate.Some?
               && Verifies(suite, ht.remoteCertificate.value,
                           if ht.state == OkFinalMessage then Reply(ht.session) else Final(ht.session),
                           Property(e.input, SIGNATURE))
    ensures var t := Apply(suite, w[n], e).state; PeerAuthentic(suite, honest, w[n := t], t.handshakes[h])
  {
    hide Encode, StringValue, ValueOf, Terminated, Apply, HandshakeSound;
    var t := Apply(suite, w[n], e).state;
    var ht := t.handshakes[h];
    forall key | key in honest && PeerKey(suite, ht, key)
      ensures ht.state == OkFinalMessage ==> Logged(w[n := t], key, Reply(ht.session))
      ensures ht.state == ValidationOk ==> Logged(w[n := t], key, Final(ht.session))
    {
      if ht.state == OkFinalMessage {
        assert suite.verify(key, Encode(Reply(ht.session)), Property(e.input, SIGNATURE));
        OctetsTellMessage(w, key, Reply(ht.session));
        LoggedGrows(w, n, t, key, Reply(ht.session));
      } else if ht.state == ValidationOk {
        assert suite.verify(key, Encode(Final(ht.session)), Property(e.input, SIGNATURE));
        OctetsTellMessage(w, key, Final(ht.session));
        LoggedGrows(w, n, t, key, Final(ht.session));
      }
    }
  }

  /** A handshake that a call begins has the KEM material that the call drew. */
  lemma BeginningDraws(suite: Suite, honest: set<PublicKey>, w: World, n: NodeId, e: Event, h: int)
    requires n in w && StateSound(suite, w[n]) && Permitted(suite, honest, w, n, e)
    requires h in Apply(suite, w[n], e).state.handshakes && h !in w[n].handshakes
    ensures var ht := Apply(suite, w[n], e).state.handshakes[h];
            && h == w[n].nextHandle
            && (if ht.initiator then FreshKey(w, ht.session.publicKey) else FreshCiphertext(w, ht.session.ciphertext))
  {
    hide Encode, StringValue, ValueOf, Terminated, Accepts, TokenCredentials, HandshakeSound, FreshKey, FreshCiphertext, NoForgery;
    if !e.BeginRequestEvent? && !e.BeginReplyEvent? && !e.ProcessEvent? {
      IdentityCallsEvolve(suite, w[n], e);
    }
  }

  /** What a handshake was when it began is what it is later. */
  lemma CallKeepsMaterial(suite: Suite, w: World, n: NodeId, e: Event, m: NodeId, h: int)
    requires Begun(w, m, h) && n in w && StateSound(suite, w[n])
    ensures var w' := w[n := Apply(suite, w[n], e).state];
            && Begun(w', m, h) && At(w', m, h).initiator == At(w, m, h).initiator
            && (if At(w, m, h).initiator then At(w', m, h).session.publicKey == At(w, m, h).session.publicKey
                else At(w', m, h).session == At(w, m, h).session)
  {
    hide Encode, StringValue, ValueOf, Terminated, Apply, HandshakeSound;
    ApplyKeeps(suite, w[n], e);
    if m == n {
      assert HandshakeEvolves(w[n].handshakes[h], Apply(suite, w[n], e).state.handshakes[h]);
    }
  }

  lemma CallKeepsUnique(suite: Suite, honest: set<PublicKey>, w: World, n: NodeId, e: Event)
    requires WorldSound(suite, honest, w) && n in w && Permitted(suite, honest, w, n, e)
    ensures KemMaterialUnique(w[n := Apply(suite, w[n], e).state])
  {
    hide Encode, StringValue, ValueOf, Terminated, Apply, HandshakeSound, Permitted, PeerAuthentic;
    var w' := w[n := Apply(suite, w[n], e).state];
    forall m: NodeId, h, k: NodeId, g | SamePublicKey(w', m, h, k, g) || SameCiphertext(w', m, h, k, g)
      ensures m == k && h == g
    {
      MaterialOrigin(suite, honest, w, n, e, m, h);
      MaterialOrigin(suite, honest, w, n, e, k, g);
      if Begun(w, m, h) && Begun(w, k, g) {
        assert SamePublicKey(w, m, h, k, g) || SameCiphertext(w, m, h, k, g);
      }
    }
  }

  /** A handshake after a call is an old one with its material, or the new one
      with fresh material. */
  lemma MaterialOrigin(suite: Suite, honest: set<PublicKey>, w: World, n: NodeId, e: Event, m: NodeId, h: int)
    requires WorldSound(suite, honest, w) && n in w && Permitted(suite, honest, w, n, e)
    requires Begun(w[n := Apply(suite, w[n], e).state], m, h)
    ensures var hs := At(w[n := Apply(suite, w[n], e).state], m, h);
            if Begun(w, m, h) then
              && At(w, m, h).initiator == hs.initiator
              && (if hs.initiator then At(w, m, h).session.publicKey == hs.session.publicKey
                  else At(w, m, h).session.ciphertext == hs.session.ciphertext)
            else
              && m == n && h == w[n].nextHandle
              && (if hs.initiator then FreshKey(w, hs.session.publicKey) else FreshCiphertext(w, hs.session.ciphertext))
  {
    hide Encode, StringValue, ValueOf, Terminated, Apply, HandshakeSound, Permitted, PeerAuthentic;
    if Begun(w, m, h) {
      CallKeepsMaterial(suite, w, n, e, m, h);
    } else {
      BeginningDraws(suite, honest, w, n, e, h);
    }
  }

  lemma StepKeeps(suite: Suite, honest: set<PublicKey>, w: World, w': World)
    requires WorldSound(suite, honest, w) && Step(suite, honest, w, w')
    ensures WorldSound(suite, honest, w')
  {
    hide Encode, StringValue, ValueOf, Terminated, Apply, Permitted, PeerAuthentic, StateSound, KemMaterialUnique;
    if n: NodeId :| n !in w && w' == w[n := INITIAL] {
      JoinKeeps(suite, honest, w, n);
    } else {
      var n: NodeId, e :| CallStep(suite, honest, w, n, e, w');
      ApplyKeeps(suite, w[n], e);
      CallKeepsUnique(suite, honest, w, n, e);
      forall m: NodeId, h | Begun(w', m, h)
        ensures PeerAuthentic(suite, honest, w', At(w', m, h))
      {
        CallKeepsAuthentic(suite, honest, w, n, e, m, h);
      }
    }
  }

  lemma JoinKeeps(suite: Suite, honest: set<PublicKey>, w: World, n: NodeId)
    requires WorldSound(suite, honest, w) && n !in w
    ensures WorldSound(suite, honest, w[n := INITIAL])
  {
    hide StateSound, PeerAuthentic, KemMaterialUnique;
    var w' := w[n := INITIAL];
    InitialSound(suite);
    forall m: NodeId, h | Begun(w', m, h)
      ensures PeerAuthentic(suite, honest, w', At(w', m, h))
    {
      assert Begun(w, m, h) && At(w', m, h) == At(w, m, h);
      PeerAuthenticGrows(suite, honest, w, n, INITIAL, At(w, m, h));
    }
    JoinAddsNoMaterial(w, n);
  }

  lemma JoinAddsNoMaterial(w: World, n: NodeId)
    requires n !in w && KemMaterialUnique(w)
    ensures KemMaterialUnique(w[n := INITIAL])
  {
    var w' := w[n := INITIAL];
    assert forall m: NodeId, h, k: NodeId, g :: SamePublicKey(w', m, h, k, g) ==> SamePublicKey(w, m, h, k, g);
    assert forall m: NodeId, h, k: NodeId, g :: SameCiphertext(w', m, h, k, g) ==> SameCiphertext(w, m, h, k, g);
  }

  /** The invariant holds at every point of every run. */
  lemma {:induction false} RunSound(suite: Suite, honest: set<PublicKey>, run: seq<World>, i: nat)
    requires IsRun(suite, honest, run) && i < |run|
    ensures WorldSound(suite, honest, run[i])
  {
    hide Step, StateSound, PeerAuthentic;
    if i > 0 {
      RunSound(suite, honest, run, i - 1);
      StepKeeps(suite, honest, run[i - 1], run[i]);
    }
  }
}
