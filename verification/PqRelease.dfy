/** What is behind the success of a call on the whole CycloneDDS registry, behind each
    shared secret that it holds, and behind each expiry event. */
module PqRelease {
  import opened Octets
  import opened Guids
  import opened Transcript
  import opened Algorithms
  import opened PqHandshake
  import opened PqState
  import opened PqInvariant
  import opened PqAcceptance
  import Expiry
  import P = Protocol

  // --------------------------------------------------------- process_handshake

  ghost predicate AwaitsReply(s: State, h: int) {
    HasView(s, h) && s.handshakes[h].created == CreatedRequest
  }

  ghost predicate AwaitsFinal(s: State, h: int) {
    HasView(s, h) && s.handshakes[h].created == CreatedReply
  }

  function LocalIn(s: State, h: int): Local
    requires HasView(s, h)
  {
    s.locals[s.handshakes[h].localHandle]
  }

  /** The registry holds this view of a handshake, but for the expiry event. */
  ghost predicate Stores(t: State, h: int, v: View) {
    && HasView(t, h)
    && ViewOf(t, h).relation == v.relation && ViewOf(t, h).handshake == v.handshake
    && ViewOf(t, h).remote == v.remote.(timer := ViewOf(t, h).remote.timer)
  }

  lemma ProcessStores(lib: Library, config: Config, s: State, token: Token, h: int, now: int, expiry: Expiry.int64, event: nat,
                      sign: Signer)
    requires Sound(s) && h in s.handshakes
    ensures HasView(s, h) && h != 0
    ensures var known := expiry != Expiry.DDS_TIME_INVALID;
            var o := if AwaitsReply(s, h) then ProcessReply(lib, config, LocalIn(s, h), s.trusted, now, token, known, sign, ViewOf(s, h))
                     else ProcessFinal(lib, config, LocalIn(s, h), s.trusted, now, token, known, ViewOf(s, h));
            var step := Process(lib, config, s, token, h, now, expiry, event, sign);
            && step.result == o.result && step.message == o.message && Stores(step.state, h, o.view)
  {
    hide ProcessReply, ProcessFinal, GuidsSound, RelationsSound, TimersSound, AtMostOneHandshake;
    ProcessKeeps(lib, config, LocalIn(s, h), s.trusted, now, token, expiry != Expiry.DDS_TIME_INVALID, sign, ViewOf(s, h));
  }

  /** `process_handshake` gives OK_FINAL_MESSAGE exactly for a genuine reply to a
      handshake that a request made and whose key opens the reply; then the registry
      holds the certificate of the reply, under which its signature verified over the
      hashes of this handshake and the challenges and the KEM material of the token,
      and shares the decapsulated secret. */
  lemma ReplyProcessedExactly(lib: Library, config: Config, s: State, token: Token, h: int, now: int, expiry: Expiry.int64,
                              event: nat, sign: Signer)
    requires Sound(s)
    ensures h in s.handshakes ==> HasView(s, h)
    ensures var step := Process(lib, config, s, token, h, now, expiry, event, sign);
            && (step.result == OkFinal <==>
                  && AwaitsReply(s, h) && expiry != Expiry.DDS_TIME_INVALID
                  && sign(ConcludingContent(lib, config, token, ViewOf(s, h))).Some?
                  && exists c, secret ::
                       && GenuineReply(lib, config, LocalIn(s, h), s.trusted, now, token, ViewOf(s, h), c)
                       && Opens(lib, LocalIn(s, h), s.handshakes[h], ValueIn(token, KEM_CIPHERTEXT), secret))
            && (step.result == OkFinal ==>
                  && HasView(step.state, h) && ViewOf(step.state, h).remote.certificate.Some?
                  && var v, w := ViewOf(s, h), ViewOf(step.state, h);
                  && lib.verify(w.remote.certificate.value.key,
                                ReplyContent(config, v.handshake.hash1, lib.hash(TokenCredentials(token)),
                                             ValueIn(token, CHALLENGE1), ValueIn(token, CHALLENGE2),
                                             ValueIn(token, KEM_PUBLIC), ValueIn(token, KEM_CIPHERTEXT)),
                                ValueIn(token, P.SIGNATURE))
                  && Genuine(lib, LocalIn(s, h), s.trusted, now, token, w.remote.certificate.value)
                  && exists secret ::
                       && Opens(lib, LocalIn(s, h), s.handshakes[h], ValueIn(token, KEM_CIPHERTEXT), secret)
                       && Shares(lib, w.handshake, secret, ValueIn(token, CHALLENGE1), ValueIn(token, CHALLENGE2)))
  {
    hide Process, ProcessReply, ProcessFinal, Genuine, MaterialFits, ReplyContent, FinalContent, TokenCredentials, Find,
      GuidsSound, RelationsSound, TimersSound, AtMostOneHandshake;
    if h in s.handshakes {
      ProcessStores(lib, config, s, token, h, now, expiry, event, sign);
      var known := expiry != Expiry.DDS_TIME_INVALID;
      ReplyConcludedExactly(lib, config, LocalIn(s, h), s.trusted, now, token, known, sign, ViewOf(s, h));
      FinalConcludedExactly(lib, config, LocalIn(s, h), s.trusted, now, token, known, ViewOf(s, h));
    } else {
      UnknownRefused(lib, config, s, token, h, now, expiry, event, sign);
    }
  }

  lemma UnknownRefused(lib: Library, config: Config, s: State, token: Token, h: int, now: int, expiry: Expiry.int64, event: nat,
                       sign: Signer)
    requires h !in s.handshakes
    ensures Process(lib, config, s, token, h, now, expiry, event, sign) == Step(s, Failed, h, None)
  {
  }

  /** `process_handshake` gives OK exactly for a genuine final message to a handshake that
      a reply made and that holds a secret: its signature verified under the stored
      certificate over the hashes of this handshake and the challenges and the KEM
      material of the token. The certificate stays, and the secret is shared. */
  lemma FinalProcessedExactly(lib: Library, config: Config, s: State, token: Token, h: int, now: int, expiry: Expiry.int64,
                              event: nat, sign: Signer)
    requires Sound(s)
    ensures h in s.handshakes ==> HasView(s, h)
    ensures var step := Process(lib, config, s, token, h, now, expiry, event, sign);
            && (step.result == Ok <==>
                  && AwaitsFinal(s, h) && expiry != Expiry.DDS_TIME_INVALID
                  && GenuineFinal(lib, config, token, ViewOf(s, h))
                  && s.handshakes[h].kemSecret.Some? && s.handshakes[h].kemSecret.value != [])
            && (step.result == Ok ==>
                  && HasView(step.state, h)
                  && var v, w := ViewOf(s, h), ViewOf(step.state, h);
                  && w.remote.certificate == v.remote.certificate && w.remote.certificate.Some?
                  && lib.verify(w.remote.certificate.value.key,
                                FinalContent(config, v.handshake.hash1, v.handshake.hash2,
                                             ValueIn(token, CHALLENGE1), ValueIn(token, CHALLENGE2),
                                             ValueIn(token, KEM_PUBLIC), ValueIn(token, KEM_CIPHERTEXT)),
                                ValueIn(token, P.SIGNATURE))
                  && Shares(lib, w.handshake, v.handshake.kemSecret.value, ValueIn(token, CHALLENGE1), ValueIn(token, CHALLENGE2)))
  {
    hide Process, ProcessReply, ProcessFinal, Genuine, MaterialFits, ReplyContent, FinalContent, TokenCredentials, Find,
      GuidsSound, RelationsSound, TimersSound, AtMostOneHandshake;
    if h in s.handshakes {
      ProcessStores(lib, config, s, token, h, now, expiry, event, sign);
      var known := expiry != Expiry.DDS_TIME_INVALID;
      ReplyConcludedExactly(lib, config, LocalIn(s, h), s.trusted, now, token, known, sign, ViewOf(s, h));
      FinalConcludedExactly(lib, config, LocalIn(s, h), s.trusted, now, token, known, ViewOf(s, h));
    } else {
      UnknownRefused(lib, config, s, token, h, now, expiry, event, sign);
    }
  }

  // ---------------------------------------------------------------- expiry events

  /** The identity has a pending event of its own. */
  ghost predicate Watched(t: State, h: int, timer: nat) {
    timer != 0 && timer in t.pending && t.pending[timer] == h
  }

  /** A handshake that succeeds leaves an expiry event for the peer unless its certificate
      never expires: the one that was there, or else the new one. Nothing else about the
      events changes, and nothing at all if the call fails. */
  lemma PeerExpiryIsWatched(lib: Library, config: Config, s: State, token: Token, h: int, now: int, expiry: Expiry.int64,
                            event: nat, sign: Signer)
    requires Sound(s) && h in s.handshakes && FreshEvent(s, event)
    ensures HasView(s, h)
    ensures var step := Process(lib, config, s, token, h, now, expiry, event, sign);
            var r := s.handshakes[h].remoteHandle;
            && r in step.state.remotes && step.state.remotes.Keys == s.remotes.Keys && step.state.locals == s.locals
            && (forall q :: q in s.remotes && q != r ==> step.state.remotes[q].timer == s.remotes[q].timer)
            && var was, timer := s.remotes[r].timer, step.state.remotes[r].timer;
            && (step.result != Failed && expiry != Expiry.DDS_NEVER ==> Watched(step.state, r, timer))
            && (was != 0 || step.result == Failed || expiry == Expiry.DDS_NEVER ==> timer == was && step.state.pending == s.pending)
            && (was == 0 && step.result != Failed && expiry != Expiry.DDS_NEVER ==>
                  timer == event && step.state.pending == s.pending[event := r])
  {
    hide ProcessReply, ProcessFinal, GuidsSound, RelationsSound, AtMostOneHandshake;
    ProcessKeeps(lib, config, LocalIn(s, h), s.trusted, now, token, expiry != Expiry.DDS_TIME_INVALID, sign, ViewOf(s, h));
    assert TimerOf(s, s.handshakes[h].remoteHandle) == s.remotes[s.handshakes[h].remoteHandle].timer;
  }

  /** A new local identity has an expiry event unless its certificate never expires. */
  lemma OwnExpiryIsWatched(lib: Library, config: Config, s: State, input: LocalInput, handle: int, event: nat)
    requires Sound(s) && Fresh(s, handle) && FreshEvent(s, event)
    ensures var step := ValidateLocal(lib, config, s, input, handle, event);
            && (step.result != Ok ==> step.state.pending == s.pending)
            && (step.result == Ok ==>
                  && step.handle == handle && handle in step.state.locals
                  && var timer := step.state.locals[handle].timer;
                  && (input.expiry != Expiry.DDS_NEVER ==> timer == event && step.state.pending == s.pending[event := handle])
                  && (input.expiry == Expiry.DDS_NEVER ==> timer == 0 && step.state.pending == s.pending))
  {
    hide CaTrusted;
  }

  /** Only the timer of one identity differs. */
  ghost predicate SameButTimer(s: State, t: State, h: int) {
    && t.locals.Keys == s.locals.Keys && t.remotes.Keys == s.remotes.Keys
    && (forall k :: k in s.locals ==> t.locals[k] == (if k == h then s.locals[k].(timer := 0) else s.locals[k]))
    && (forall k :: k in s.remotes ==> t.remotes[k] == (if k == h then s.remotes[k].(timer := 0) else s.remotes[k]))
  }

  /** A due event is used up: the identity that it names has no timer any more, and all
      else stays. */
  lemma DueEventIsUsed(s: State, event: nat)
    requires Sound(s) && event in s.pending
    ensures var t, h := Expire(s, event), s.pending[event];
            && TimerOf(s, h) == event && t.pending == s.pending - {event}
            && TimerOf(t, h) == 0 && SameButTimer(s, t, h)
            && t == s.(locals := t.locals, remotes := t.remotes, pending := t.pending)
  {
    hide GuidsSound, RelationsSound, HandshakesSound, AtMostOneHandshake, HandlesSound;
    PendingNames(s, event);
    hide TimersSound;
    IdentityKinds(s, s.pending[event]);
    hide Sound;
  }

  // ------------------------------------------------------- what backs a secret

  /** A signature over this handshake's challenges and some KEM material verified, under a
      certificate that was checked: over the reply on the initiator's side, and over the
      final message on the other. */
  ghost predicate Vouched(lib: Library, config: Config, authorities: set<Authority>, hs: Handshake, c: Certificate, hash1: Hash,
                          hash2: Hash, publicKey: OctetSeq, ciphertext: OctetSeq, signature: OctetSeq)
  {
    && hs.shared.Some? && CertificateChecked(lib, authorities, c)
    && var challenge1, challenge2 := hs.shared.value.challenge1, hs.shared.value.challenge2;
       lib.verify(c.key,
                  if hs.created == CreatedRequest
                  then ReplyContent(config, hash1, hash2, challenge1, challenge2, publicKey, ciphertext)
                  else FinalContent(config, hash1, hash2, challenge1, challenge2, publicKey, ciphertext),
                  signature)
  }

  ghost predicate Encapsulated(lib: Library, config: Config, secret: OctetSeq) {
    exists publicKey, coins, ciphertext :: lib.encapsulate(config.kem, publicKey, coins) == Some((ciphertext, secret))
  }

  /** The secret is the digest of what the KEM gave: the decapsulated ciphertext of the
      signed reply, or an encapsulation. */
  ghost predicate FromKem(lib: Library, config: Config, hs: Handshake, ciphertext: OctetSeq, secret: OctetSeq) {
    && hs.shared.Some? && secret != [] && hs.shared.value.secret == lib.digest(secret)
    && (if hs.created == CreatedRequest then exists key :: lib.decapsulate(config.kem, key, ciphertext) == Some(secret)
        else Encapsulated(lib, config, secret))
  }

  ghost predicate Backed(lib: Library, config: Config, authorities: set<Authority>, hs: Handshake) {
    exists c, hash1, hash2, publicKey, ciphertext, signature, secret ::
      && Vouched(lib, config, authorities, hs, c, hash1, hash2, publicKey, ciphertext, signature)
      && FromKem(lib, config, hs, ciphertext, secret)
  }

  ghost predicate HandshakeBacked(lib: Library, config: Config, authorities: set<Authority>, hs: Handshake) {
    && (hs.shared.Some? ==> Backed(lib, config, authorities, hs))
    && (hs.created == CreatedReply && hs.kemSecret.Some? ==> Encapsulated(lib, config, hs.kemSecret.value))
  }

  ghost predicate AllBacked(lib: Library, config: Config, s: State) {
    forall h :: h in s.handshakes ==> HandshakeBacked(lib, config, s.authorities, s.handshakes[h])
  }

  /** What backs a secret does not change. */
  ghost predicate SameSecret(x: Handshake, y: Handshake) {
    y.created == x.created && y.shared == x.shared && y.kemSecret == x.kemSecret
  }

  lemma BackedWithMore(lib: Library, config: Config, a: set<Authority>, b: set<Authority>, x: Handshake, y: Handshake)
    requires HandshakeBacked(lib, config, a, x) && a <= b
    requires y.created == x.created && y.shared in {x.shared, None} && y.kemSecret in {x.kemSecret, None}
    ensures HandshakeBacked(lib, config, b, y)
  {
    hide ReplyContent, FinalContent, Encapsulated;
    if y.shared.Some? {
      var c, hash1, hash2, publicKey, ciphertext, signature, secret :|
        && Vouched(lib, config, a, x, c, hash1, hash2, publicKey, ciphertext, signature)
        && FromKem(lib, config, x, ciphertext, secret);
      assert Vouched(lib, config, b, y, c, hash1, hash2, publicKey, ciphertext, signature);
      assert FromKem(lib, config, y, ciphertext, secret);
    }
  }

  lemma AllBackedWithMore(lib: Library, config: Config, s: State, t: State)
    requires AllBacked(lib, config, s) && s.authorities <= t.authorities
    requires forall h :: h in t.handshakes ==>
               (h in s.handshakes && SameSecret(s.handshakes[h], t.handshakes[h]))
               || HandshakeBacked(lib, config, t.authorities, t.handshakes[h])
    ensures AllBacked(lib, config, t)
  {
    hide HandshakeBacked;
    forall h | h in t.handshakes && h in s.handshakes && SameSecret(s.handshakes[h], t.handshakes[h])
      ensures HandshakeBacked(lib, config, t.authorities, t.handshakes[h])
    {
      BackedWithMore(lib, config, s.authorities, t.authorities, s.handshakes[h], t.handshakes[h]);
    }
  }

  /** A failure shares nothing. */
  lemma FailureSharesNothing(lib: Library, config: Config, l: Local, trusted: seq<Authority>, now: int, token: Token,
                             expiryKnown: bool, sign: Signer, v: View)
    ensures var o := ProcessReply(lib, config, l, trusted, now, token, expiryKnown, sign, v);
            o.result == Failed ==> o.view.handshake.shared in {v.handshake.shared, None}
    ensures var o := ProcessFinal(lib, config, l, trusted, now, token, expiryKnown, v);
            o.result == Failed ==> o.view.handshake.shared in {v.handshake.shared, None}
  {
    hide Validate, FinalContent, FinalMessage, Find;
    ValidateKeepsSecret(lib, config, l, trusted, now, ReplyToken, token, v);
    ValidateKeepsSecret(lib, config, l, trusted, now, FinalToken, token, v);
  }

  lemma ValidateKeepsSecret(lib: Library, config: Config, l: Local, trusted: seq<Authority>, now: int, kind: TokenType,
                            token: Token, v: View)
    ensures SameSecret(v.handshake, Validate(lib, config, l, trusted, now, kind, token, v).1.handshake)
  {
    hide LoadCertificate, FitsCertificate, WireKind, Find, TextOf, MaterialPresent, EchoesMatch, SignedContent, TokenCredentials;
    MaterialHasChallenges(token, kind, MaterialKind(kind, l, v.remote));
  }

  lemma RequestKeepsSecret(lib: Library, config: Config, l: Local, contents: OctetSeq, pdata: OctetSeq, key: Option<KeyPair>, v: View)
    ensures SameSecret(v.handshake, MakeRequest(lib, config, l, contents, pdata, key, v).view.handshake)
  {
    hide OwnCredentials, RequestMessage;
  }

  lemma AnswerBacked(lib: Library, config: Config, authorities: set<Authority>, l: Local, trusted: seq<Authority>, now: int,
                     token: Token, pdata: OctetSeq, coins: Coins, unset: OctetSeq, sign: Signer, v: View)
    requires HandshakeBacked(lib, config, authorities, v.handshake) && l.kagree == config.kem
    ensures HandshakeBacked(lib, config, authorities,
                            AnswerRequest(lib, config, l, trusted, now, token, pdata, coins, unset, sign, v).view.handshake)
  {
    hide Validate, ReplyContent, ReplyMessage, OwnCredentials, Find, Backed, GenuineRequest, HandshakeBacked;
    ValidateKeepsSecret(lib, config, l, trusted, now, RequestToken, token, v);
    RequestValidExactly(lib, config, l, trusted, now, token, v);
    var (valid, w) := Validate(lib, config, l, trusted, now, RequestToken, token, v);
    var x := AnswerRequest(lib, config, l, trusted, now, token, pdata, coins, unset, sign, v).view.handshake;
    BackedWithMore(lib, config, authorities, authorities, v.handshake, x.(kemSecret := None));
    if x.kemSecret.Some? && x.kemSecret != v.handshake.kemSecret {
      assert lib.encapsulate(config.kem, ValueIn(token, KEM_PUBLIC), coins) == Some((x.ciphertext.value, x.kemSecret.value));
      DrawnOrRequest(lib, config, authorities, x);
    } else {
      BackedWithMore(lib, config, authorities, authorities, v.handshake, x);
    }
  }

  lemma ReplyBacked(lib: Library, config: Config, authorities: set<Authority>, l: Local, trusted: seq<Authority>, now: int,
                    token: Token, expiryKnown: bool, sign: Signer, v: View)
    requires HandshakeBacked(lib, config, authorities, v.handshake) && v.handshake.created == CreatedRequest
    requires LocalKnown(config, authorities, l) && AllIn(trusted, authorities) && Coherent(lib, config, authorities, v.remote)
    ensures HandshakeBacked(lib, config, authorities,
                            ProcessReply(lib, config, l, trusted, now, token, expiryKnown, sign, v).view.handshake)
  {
    hide ProcessReply, Genuine, MaterialFits, ReplyContent, FinalContent, TokenCredentials, Find, CertificateChecked, DataMatches,
      Encapsulated, HandshakeBacked, AllIn;
    ProcessKeeps(lib, config, l, trusted, now, token, expiryKnown, sign, v);
    ProcessCoherent(lib, config, authorities, l, trusted, now, token, expiryKnown, sign, v);
    ReplyConcludedExactly(lib, config, l, trusted, now, token, expiryKnown, sign, v);
    FailureSharesNothing(lib, config, l, trusted, now, token, expiryKnown, sign, v);
    var o := ProcessReply(lib, config, l, trusted, now, token, expiryKnown, sign, v);
    var hs := o.view.handshake;
    if o.result == OkFinal {
      var c, secret :| && GenuineReply(lib, config, l, trusted, now, token, v, c)
                       && Opens(lib, l, v.handshake, ValueIn(token, KEM_CIPHERTEXT), secret)
                       && Learns(l, token, v, o.view, c, ValueIn(token, CHALLENGE2))
                       && Shares(lib, hs, secret, v.relation.lchallenge, ValueIn(token, CHALLENGE2));
      assert Vouched(lib, config, authorities, hs, c, v.handshake.hash1, lib.hash(TokenCredentials(token)),
                     ValueIn(token, KEM_PUBLIC), ValueIn(token, KEM_CIPHERTEXT), ValueIn(token, P.SIGNATURE));
      assert FromKem(lib, config, hs, ValueIn(token, KEM_CIPHERTEXT), secret);
      RequestHandshakeBacked(lib, config, authorities, hs);
    } else {
      FailedBacked(lib, config, authorities, v.handshake, hs);
    }
  }

  lemma RequestHandshakeBacked(lib: Library, config: Config, authorities: set<Authority>, hs: Handshake)
    requires hs.created == CreatedRequest && (hs.shared.Some? ==> Backed(lib, config, authorities, hs))
    ensures HandshakeBacked(lib, config, authorities, hs)
  {
  }

  lemma FailedBacked(lib: Library, config: Config, authorities: set<Authority>, x: Handshake, y: Handshake)
    requires HandshakeBacked(lib, config, authorities, x)
    requires y.created == x.created && y.shared in {x.shared, None} && (x.created == CreatedReply ==> y.kemSecret == x.kemSecret)
    ensures HandshakeBacked(lib, config, authorities, y)
  {
    hide Backed;
    var z := x.(kemSecret := None);
    BackedWithMore(lib, config, authorities, authorities, x, z);
    BackedWithMore(lib, config, authorities, authorities, z, y.(kemSecret := None));
    DrawnOrRequest(lib, config, authorities, y);
  }

  lemma DrawnOrRequest(lib: Library, config: Config, authorities: set<Authority>, y: Handshake)
    requires HandshakeBacked(lib, config, authorities, y.(kemSecret := None))
    requires y.created == CreatedReply && y.kemSecret.Some? ==> Encapsulated(lib, config, y.kemSecret.value)
    ensures HandshakeBacked(lib, config, authorities, y)
  {
    hide Encapsulated, ReplyContent, FinalContent;
    var x := y.(kemSecret := None);
    if y.shared.Some? {
      var c, hash1, hash2, publicKey, ciphertext, signature, secret :|
        && Vouched(lib, config, authorities, x, c, hash1, hash2, publicKey, ciphertext, signature)
        && FromKem(lib, config, x, ciphertext, secret);
      assert Vouched(lib, config, authorities, y, c, hash1, hash2, publicKey, ciphertext, signature);
      assert FromKem(lib, config, y, ciphertext, secret);
    }
  }

  lemma FinalBacked(lib: Library, config: Config, authorities: set<Authority>, l: Local, trusted: seq<Authority>, now: int,
                    token: Token, expiryKnown: bool, sign: Signer, v: View)
    requires HandshakeBacked(lib, config, authorities, v.handshake) && v.handshake.created == CreatedReply
    requires Coherent(lib, config, authorities, v.remote)
    ensures HandshakeBacked(lib, config, authorities,
                            ProcessFinal(lib, config, l, trusted, now, token, expiryKnown, v).view.handshake)
  {
    hide ProcessFinal, MaterialFits, ReplyContent, FinalContent, Find, CertificateChecked, DataMatches, Encapsulated;
    FinalConcludedExactly(lib, config, l, trusted, now, token, expiryKnown, v);
    FailureSharesNothing(lib, config, l, trusted, now, token, expiryKnown, sign, v);
    var o := ProcessFinal(lib, config, l, trusted, now, token, expiryKnown, v);
    var hs := o.view.handshake;
    if o.result == Ok {
      assert Vouched(lib, config, authorities, hs, v.remote.certificate.value, hs.hash1, hs.hash2,
                     ValueIn(token, KEM_PUBLIC), ValueIn(token, KEM_CIPHERTEXT), ValueIn(token, P.SIGNATURE));
      assert FromKem(lib, config, hs, ValueIn(token, KEM_CIPHERTEXT), v.handshake.kemSecret.value);
    } else {
      FailedBacked(lib, config, authorities, v.handshake, hs);
    }
  }

  // -------------------------------------------------------------- whole runs

  /** All that one call of the handshake can do to the handshakes. */
  ghost predicate TouchesOne(s: State, t: State, h: int, hs: Handshake) {
    t.authorities == s.authorities &&
    forall k :: k in t.handshakes ==> if k == h then t.handshakes[k] == hs else k in s.handshakes && t.handshakes[k] == s.handshakes[k]
  }

  lemma TouchesOneBacked(lib: Library, config: Config, s: State, t: State, h: int, hs: Handshake)
    requires AllBacked(lib, config, s) && TouchesOne(s, t, h, hs) && HandshakeBacked(lib, config, s.authorities, hs)
    ensures AllBacked(lib, config, t)
  {
    hide HandshakeBacked;
  }

  lemma FoundIsBacked(lib: Library, config: Config, s: State, l: int, r: int, created: Created, handle: int)
    requires Sound(s) && AllBacked(lib, config, s) && Fresh(s, handle) && (r, l) in s.relations
    ensures var (s1, h, made) := FindOrAdd(s, l, r, created, handle);
            && HasView(s1, h) && h in s1.handshakes && HandshakeBacked(lib, config, s.authorities, s1.handshakes[h])
            && s1 == s.(handshakes := s1.handshakes) && TouchesOne(s, s1, h, s1.handshakes[h])
  {
    hide Sound, Fresh, Backed, Encapsulated;
    FindOrAddAlmostSound(s, l, r, created, handle);
    var (s1, h, made) := FindOrAdd(s, l, r, created, handle);
    AlmostSoundHasView(s1, h);
  }

  lemma BeginRequestBacked(lib: Library, config: Config, s: State, l: int, r: int, pdata: OctetSeq, key: Option<KeyPair>, handle: int)
    requires Sound(s) && AllBacked(lib, config, s) && Fresh(s, handle) && Introduced(s, l, r)
    ensures AllBacked(lib, config, BeginRequest(lib, config, s, l, r, pdata, key, handle).state)
  {
    hide MakeRequest, FindOrAdd, Sound, Fresh, AllBacked, HandshakeBacked;
    if l in s.locals && r in s.remotes && lib.pem(s.locals[l].certificate).Some? {
      FoundIsBacked(lib, config, s, l, r, CreatedRequest, handle);
      var (s1, h, made) := FindOrAdd(s, l, r, CreatedRequest, handle);
      var contents := lib.pem(s.locals[l].certificate).value;
      var v := ViewOf(s1, h);
      RequestKeepsSecret(lib, config, s.locals[l], contents, pdata, key, v);
      var hs := MakeRequest(lib, config, s.locals[l], contents, pdata, key, v).view.handshake;
      BackedWithMore(lib, config, s.authorities, s.authorities, v.handshake, hs);
      TouchesOneBacked(lib, config, s, BeginRequest(lib, config, s, l, r, pdata, key, handle).state, h, hs);
    }
  }

  lemma BeginReplyBacked(lib: Library, config: Config, s: State, token: Token, r: int, l: int, pdata: OctetSeq, now: int,
                         coins: Coins, unset: OctetSeq, sign: Signer, handle: int)
    requires Sound(s) && AllCoherent(lib, config, s) && AllBacked(lib, config, s) && Fresh(s, handle) && Introduced(s, l, r)
    ensures AllBacked(lib, config, BeginReply(lib, config, s, token, r, l, pdata, now, coins, unset, sign, handle).state)
  {
    hide AnswerRequest, FindOrAdd, Sound, Fresh, AllBacked, HandshakeBacked, Coherent;
    if pdata != [] && l in s.locals && r in s.remotes {
      FoundIsBacked(lib, config, s, l, r, CreatedReply, handle);
      var (s1, h, made) := FindOrAdd(s, l, r, CreatedReply, handle);
      var v := ViewOf(s1, h);
      AnswerBacked(lib, config, s.authorities, s.locals[l], s.trusted, now, token, pdata, coins, unset, sign, v);
      var hs := AnswerRequest(lib, config, s.locals[l], s.trusted, now, token, pdata, coins, unset, sign, v).view.handshake;
      TouchesOneBacked(lib, config, s, BeginReply(lib, config, s, token, r, l, pdata, now, coins, unset, sign, handle).state, h, hs);
    }
  }

  lemma ProcessBacked(lib: Library, config: Config, s: State, token: Token, h: int, now: int, expiry: Expiry.int64, event: nat,
                      sign: Signer)
    requires Sound(s) && AllCoherent(lib, config, s) && AllBacked(lib, config, s)
    ensures AllBacked(lib, config, Process(lib, config, s, token, h, now, expiry, event, sign).state)
  {
    hide ProcessReply, ProcessFinal, HandshakeBacked, AllBacked, Coherent, GuidsSound, RelationsSound, TimersSound, AtMostOneHandshake;
    if h in s.handshakes && h != 0 {
      assert HandshakeBacked(lib, config, s.authorities, s.handshakes[h]) by {
        BackedAt(lib, config, s, h);
      }
      assert HasView(s, h);
      var v, l, known := ViewOf(s, h), LocalIn(s, h), expiry != Expiry.DDS_TIME_INVALID;
      var hs;
      if v.handshake.created == CreatedRequest {
        ReplyBacked(lib, config, s.authorities, l, s.trusted, now, token, known, sign, v);
        hs := ProcessReply(lib, config, l, s.trusted, now, token, known, sign, v).view.handshake;
      } else {
        FinalBacked(lib, config, s.authorities, l, s.trusted, now, token, known, sign, v);
        hs := ProcessFinal(lib, config, l, s.trusted, now, token, known, v).view.handshake;
      }
      TouchesOneBacked(lib, config, s, Process(lib, config, s, token, h, now, expiry, event, sign).state, h, hs);
    }
  }

  lemma BackedAt(lib: Library, config: Config, s: State, h: int)
    requires AllBacked(lib, config, s) && h in s.handshakes
    ensures HandshakeBacked(lib, config, s.authorities, s.handshakes[h])
  {
  }

  lemma ReturnsBacked(lib: Library, config: Config, s: State, h: int)
    requires AllBacked(lib, config, s)
    ensures AllBacked(lib, config, ReturnHandshake(s, h).state) && AllBacked(lib, config, ReturnIdentity(s, h).state)
  {
    hide AllBacked, HandshakeBacked;
    AllBackedWithMore(lib, config, s, ReturnHandshake(s, h).state);
    AllBackedWithMore(lib, config, s, ReturnIdentity(s, h).state);
  }

  lemma ValidationsBacked(lib: Library, config: Config, s: State, e: PqInvariant.Event)
    requires Sound(s) && Enabled(s, e) && AllBacked(lib, config, s)
    requires e.ValidateLocalEvent? || e.ValidateRemoteEvent?
    ensures AllBacked(lib, config, Apply(lib, config, s, e))
  {
    hide AllBacked, HandshakeBacked, HandlesSound, HandshakesSound, RelationsSound, TimersSound, AtMostOneHandshake, CaTrusted,
      Announced, RoleOf;
    AllBackedWithMore(lib, config, s, Apply(lib, config, s, e));
  }

  lemma IdentityCallsBacked(lib: Library, config: Config, s: State, e: PqInvariant.Event)
    requires Sound(s) && Enabled(s, e) && AllBacked(lib, config, s)
    requires !e.BeginRequestEvent? && !e.BeginReplyEvent? && !e.ProcessEvent?
    ensures AllBacked(lib, config, Apply(lib, config, s, e))
  {
    hide AllBacked, HandshakeBacked, Sound, ReturnIdentity, ValidateLocal, ValidateRemote;
    match e
    case ReturnHandshakeEvent(h) => ReturnsBacked(lib, config, s, h);
    case ReturnIdentityEvent(h) => ReturnsBacked(lib, config, s, h);
    case SetPermissionsEvent(_, _) => AllBackedWithMore(lib, config, s, Apply(lib, config, s, e));
    case ExpireEvent(_) => AllBackedWithMore(lib, config, s, Apply(lib, config, s, e));
    case _ => ValidationsBacked(lib, config, s, e);
  }

  lemma ApplyBacked(lib: Library, config: Config, s: State, e: PqInvariant.Event)
    requires Sound(s) && Enabled(s, e) && AllCoherent(lib, config, s) && AllBacked(lib, config, s)
    ensures AllBacked(lib, config, Apply(lib, config, s, e))
  {
    hide Sound, AllCoherent, AllBacked, BeginRequest, BeginReply, Process, Fresh, Introduced;
    match e
    case BeginRequestEvent(l, r, pdata, key, handle) => BeginRequestBacked(lib, config, s, l, r, pdata, key, handle);
    case BeginReplyEvent(token, r, l, pdata, now, coins, unset, sign, handle) =>
      BeginReplyBacked(lib, config, s, token, r, l, pdata, now, coins, unset, sign, handle);
    case ProcessEvent(token, h, now, expiry, event, sign) => ProcessBacked(lib, config, s, token, h, now, expiry, event, sign);
    case _ => IdentityCallsBacked(lib, config, s, e);
  }

  lemma {:induction false} RunBacked(lib: Library, config: Config, states: seq<State>, events: seq<PqInvariant.Event>, i: nat)
    requires IsRun(lib, config, states, events) && i < |states|
    ensures AllBacked(lib, config, states[i])
  {
    hide Enabled, Apply, HandshakeBacked;
    if i > 0 {
      RunBacked(lib, config, states, events, i - 1);
      RunSound(lib, config, states, events, i - 1);
      assert Steps(lib, config, states[i - 1], events[i - 1], states[i]);
      ApplyBacked(lib, config, states[i - 1], events[i - 1]);
    }
  }

  /** Behind every secret that a plugin hands out in any state of a run there is a signature
      over its two challenges that verified under a checked certificate, and it is the
      digest of what the KEM gave; on the initiator's side, for the signed ciphertext. */
  lemma ReleasedSecret(lib: Library, config: Config, states: seq<State>, events: seq<PqInvariant.Event>, i: nat, h: int)
    requires IsRun(lib, config, states, events) && i < |states| && GetSharedSecret(states[i], h).Some?
    ensures h in states[i].handshakes && GetSharedSecret(states[i], h) == states[i].handshakes[h].shared
    ensures exists c, hash1, hash2, publicKey, ciphertext, signature, secret ::
              && Vouched(lib, config, states[i].authorities, states[i].handshakes[h], c, hash1, hash2, publicKey, ciphertext, signature)
              && FromKem(lib, config, states[i].handshakes[h], ciphertext, secret)
  {
    hide IsRun, Vouched, FromKem;
    RunBacked(lib, config, states, events, i);
    BackedAt(lib, config, states[i], h);
  }
}
