/** What every call of the CycloneDDS plugin keeps on every exit: the registry stays
    consistent, expiry events and identities name each other, and a remote identity
    has a certificate only if everything said about it was checked. */
module PqInvariant {
  import opened Octets
  import opened Guids
  import opened Transcript
  import opened Algorithms
  import opened PqHandshake
  import opened PqState
  import Expiry
  import P = Protocol

  // ----------------------------------------------------------- one handshake

  /** What no call changes in the objects of a handshake. */
  ghost predicate ViewKept(v: View, w: View) {
    && w.remote.guid == v.remote.guid && w.remote.identityToken == v.remote.identityToken && w.remote.timer == v.remote.timer
    && w.handshake.localHandle == v.handshake.localHandle && w.handshake.remoteHandle == v.handshake.remoteHandle
    && w.handshake.created == v.handshake.created
    && w.relation.lchallenge == v.relation.lchallenge
    && (v.relation.rchallenge.Some? ==> w.relation.rchallenge == v.relation.rchallenge)
  }

  lemma CredentialsKeep(lib: Library, local: Local, trusted: seq<Authority>, now: int, kind: TokenType, token: Token, v: View)
    ensures var w := TakeCredentials(lib, local, trusted, now, kind, token, v).1;
            ViewKept(v, w) && w.relation == v.relation
  {
    hide LoadCertificate, FitsCertificate, TokenCredentials, Find, TextOf;
  }

  lemma MaterialKeeps(lib: Library, config: Config, local: Local, kind: TokenType, token: Token, v: View)
    ensures var (ok, w) := ValidateMaterial(lib, config, local, kind, token, v);
            ViewKept(v, w) && (ok && !kind.FinalToken? ==> w.relation.rchallenge.Some?)
  {
    hide WireKind, Find, MaterialPresent, EchoesMatch, SignatureMatches;
    MaterialHasChallenges(token, kind, MaterialKind(kind, local, v.remote));
  }

  lemma ValidateKeeps(lib: Library, config: Config, local: Local, trusted: seq<Authority>, now: int, kind: TokenType, token: Token,
                      v: View)
    ensures var (ok, w) := Validate(lib, config, local, trusted, now, kind, token, v);
            ViewKept(v, w) && (ok && !kind.FinalToken? ==> w.relation.rchallenge.Some?)
  {
    hide TakeCredentials, ValidateMaterial;
    CredentialsKeep(lib, local, trusted, now, kind, token, v);
    var v1 := if kind.FinalToken? then v else TakeCredentials(lib, local, trusted, now, kind, token, v).1;
    MaterialKeeps(lib, config, local, kind, token, v1);
  }

  lemma MaterialHasChallenges(token: Token, kind: TokenType, kagree: Kind)
    ensures MaterialPresent(token, kind, kagree) ==>
              RequiredExact(token, CHALLENGE1, CHALLENGE_SIZE).Some? &&
              (!kind.RequestToken? ==> RequiredExact(token, CHALLENGE2, CHALLENGE_SIZE).Some?)
  {
  }

  lemma RequestKeeps(lib: Library, config: Config, local: Local, contents: OctetSeq, pdata: OctetSeq, key: Option<KeyPair>, v: View)
    ensures var o := MakeRequest(lib, config, local, contents, pdata, key, v);
            ViewKept(v, o.view) && o.view.remote == v.remote && o.view.relation == v.relation
            && (o.result == Failed || o.result == PendingMessage)
  {
  }

  lemma AnswerKeeps(lib: Library, config: Config, local: Local, trusted: seq<Authority>, now: int, token: Token, pdata: OctetSeq,
                    coins: Coins, unset: OctetSeq, sign: Signer, v: View)
    ensures var o := AnswerRequest(lib, config, local, trusted, now, token, pdata, coins, unset, sign, v);
            ViewKept(v, o.view) && (o.result != Failed ==> o.view.relation.rchallenge.Some?)
  {
    hide Validate, OwnCredentials, ReplyContent, ReplyMessage, Find;
    ValidateKeeps(lib, config, local, trusted, now, RequestToken, token, v);
  }

  lemma ProcessKeeps(lib: Library, config: Config, local: Local, trusted: seq<Authority>, now: int, token: Token,
                     expiryKnown: bool, sign: Signer, v: View)
    ensures ViewKept(v, ProcessReply(lib, config, local, trusted, now, token, expiryKnown, sign, v).view)
    ensures ViewKept(v, ProcessFinal(lib, config, local, trusted, now, token, expiryKnown, v).view)
  {
    hide Validate, FinalContent, FinalMessage, Find;
    ValidateKeeps(lib, config, local, trusted, now, ReplyToken, token, v);
    ValidateKeeps(lib, config, local, trusted, now, FinalToken, token, v);
  }

  // ------------------------------------------------------------ the registry

  /** Sound, but for the challenge of one handshake that is being made. */
  ghost predicate AlmostSound(s: State, h: int) {
    && HandlesSound(s) && GuidsSound(s) && RelationsSound(s) && AtMostOneHandshake(s) && TimersSound(s)
    && h in s.handshakes
    && (forall k :: k in s.handshakes ==>
          HasView(s, k) && (k != h && s.handshakes[k].created == CreatedReply ==> ViewOf(s, k).relation.rchallenge.Some?))
  }

  lemma FindOrAddAlmostSound(s: State, l: int, r: int, created: Created, handle: int)
    requires Sound(s) && Fresh(s, handle) && (r, l) in s.relations
    ensures var (t, h, made) := FindOrAdd(s, l, r, created, handle);
            && AlmostSound(t, h) && IsHandshakeOf(t, h, l, r) && (made ==> h == handle && DropHandshake(t, h) == s)
            && t == s.(handshakes := t.handshakes)
            && (!made ==> t == s) && (made ==> t.handshakes[h] == NewHandshake(l, r, created))
  {
    hide TimersSound;
    var (t, h, made) := FindOrAdd(s, l, r, created, handle);
    if made {
      SameTimers(s, t);
      assert t.handshakes - {h} == s.handshakes;
      forall k | k in t.handshakes && t.handshakes[k].localHandle == l && t.handshakes[k].remoteHandle == r
        ensures k == h
      {
        assert !IsHandshakeOf(s, k, l, r);
      }
    }
  }

  /** The timers and pending events are all that the events depend on. */
  lemma SameTimers(s: State, t: State)
    requires TimersSound(s) && t.pending == s.pending && forall h :: TimerOf(t, h) == TimerOf(s, h)
    ensures TimersSound(t)
  {
  }

  lemma WithViewSound(s: State, h: int, v: View)
    requires AlmostSound(s, h) && ViewKept(ViewOf(s, h), v)
    ensures var t := WithView(s, h, v);
            AlmostSound(t, h) && ((v.handshake.created == CreatedReply ==> v.relation.rchallenge.Some?) ==> Sound(t))
  {
    hide TimersSound;
    var t := WithView(s, h, v);
    SameTimers(s, t);
    assert t.relations.Keys == s.relations.Keys && t.remotes.Keys == s.remotes.Keys && t.handshakes.Keys == s.handshakes.Keys;
    forall k | k in t.handshakes
      ensures HasView(t, k)
      ensures k != h && t.handshakes[k].created == CreatedReply ==> ViewOf(t, k).relation.rchallenge.Some?
    {
      assert HasView(s, k);
    }
  }

  lemma DropSound(s: State, h: int)
    requires AlmostSound(s, h)
    ensures Sound(DropHandshake(s, h))
  {
    hide TimersSound;
    var t := DropHandshake(s, h);
    SameTimers(s, t);
    forall k | k in t.handshakes
      ensures HasView(t, k) && (t.handshakes[k].created == CreatedReply ==> ViewOf(t, k).relation.rchallenge.Some?)
    {
      assert HasView(s, k);
    }
  }

  lemma KeepDataSound(s: State, l: int, pdata: OctetSeq)
    requires Sound(s) && l in s.locals
    ensures Sound(KeepData(s, l, pdata))
  {
    hide Sound;
    var t := KeepData(s, l, pdata);
    assert t.locals.Keys == s.locals.Keys;
    SameButData(s, t);
  }

  /** What is stored for a handshake that was found or made leaves the state sound,
      unless it was made for a reply and has no peer's challenge yet. */
  lemma StoredSound(s: State, l: int, r: int, created: Created, handle: int, v: View)
    requires Sound(s) && Fresh(s, handle) && (r, l) in s.relations
    requires var (t, h, made) := FindOrAdd(s, l, r, created, handle); HasView(t, h) && ViewKept(ViewOf(t, h), v)
    ensures var (t, h, made) := FindOrAdd(s, l, r, created, handle);
            var u := WithView(t, h, v);
            AlmostSound(u, h) && (!made || created == CreatedRequest || v.relation.rchallenge.Some? ==> Sound(u))
  {
    hide AtMostOneHandshake, HandlesSound, GuidsSound, TimersSound, FindOrAdd, Fresh;
    FindOrAddAlmostSound(s, l, r, created, handle);
    var (t, h, made) := FindOrAdd(s, l, r, created, handle);
    WithViewSound(t, h, v);
    if !made {
      assert HasView(s, h);
    }
  }

  lemma BeginRequestSound(lib: Library, config: Config, s: State, l: int, r: int, pdata: OctetSeq, key: Option<KeyPair>, handle: int)
    requires Sound(s) && Fresh(s, handle) && Introduced(s, l, r)
    ensures Sound(BeginRequest(lib, config, s, l, r, pdata, key, handle).state)
  {
    hide MakeRequest, AtMostOneHandshake, HandlesSound, GuidsSound, TimersSound, FindOrAdd, KeepData, Fresh;
    if l in s.locals && r in s.remotes && lib.pem(s.locals[l].certificate).Some? {
      FindOrAddAlmostSound(s, l, r, CreatedRequest, handle);
      var (s1, h, made) := FindOrAdd(s, l, r, CreatedRequest, handle);
      RequestKeeps(lib, config, s.locals[l], lib.pem(s.locals[l].certificate).value, pdata, key, ViewOf(s1, h));
      var o := MakeRequest(lib, config, s.locals[l], lib.pem(s.locals[l].certificate).value, pdata, key, ViewOf(s1, h));
      WithViewSound(s1, h, o.view);
      var s2 := WithView(s1, h, o.view);
      DropSound(s2, h);
      if o.result != Failed {
        KeepDataSound(s2, l, pdata);
      }
    }
  }

  lemma BeginReplySound(lib: Library, config: Config, s: State, token: Token, r: int, l: int, pdata: OctetSeq, now: int,
                        coins: Coins, unset: OctetSeq, sign: Signer, handle: int)
    requires Sound(s) && Fresh(s, handle) && Introduced(s, l, r)
    ensures Sound(BeginReply(lib, config, s, token, r, l, pdata, now, coins, unset, sign, handle).state)
  {
    hide AnswerRequest, AtMostOneHandshake, HandlesSound, GuidsSound, TimersSound, FindOrAdd, KeepData, Fresh;
    if pdata != [] && l in s.locals && r in s.remotes {
      FindOrAddAlmostSound(s, l, r, CreatedReply, handle);
      var (s1, h, made) := FindOrAdd(s, l, r, CreatedReply, handle);
      AnswerKeeps(lib, config, s.locals[l], s.trusted, now, token, pdata, coins, unset, sign, ViewOf(s1, h));
      var o := AnswerRequest(lib, config, s.locals[l], s.trusted, now, token, pdata, coins, unset, sign, ViewOf(s1, h));
      WithViewSound(s1, h, o.view);
      var s2 := WithView(s1, h, o.view);
      DropSound(s2, h);
      if o.result != Failed {
        KeepDataSound(s2, l, pdata);
      }
    }
  }

  lemma SoundIsAlmostSound(s: State, h: int)
    requires Sound(s) && h in s.handshakes
    ensures AlmostSound(s, h)
  {
    hide TimersSound;
  }

  lemma WatchSound(s: State, r: int, expiry: Expiry.int64, event: nat)
    requires Sound(s) && r in s.remotes && FreshEvent(s, event)
    ensures Sound(Watch(s, r, expiry, event))
  {
    var t := Watch(s, r, expiry, event);
    if t != s {
      assert t.remotes.Keys == s.remotes.Keys;
      forall h
        ensures TimerOf(t, h) == if h == r then event else TimerOf(s, h)
      {
      }
      forall k | k in t.handshakes
        ensures HasView(t, k) && (t.handshakes[k].created == CreatedReply ==> ViewOf(t, k).relation.rchallenge.Some?)
      {
        assert HasView(s, k);
      }
    }
  }

  lemma ProcessSound(lib: Library, config: Config, s: State, token: Token, h: int, now: int, expiry: Expiry.int64, event: nat,
                     sign: Signer)
    requires Sound(s) && FreshEvent(s, event)
    ensures Sound(Process(lib, config, s, token, h, now, expiry, event, sign).state)
  {
    hide ProcessReply, ProcessFinal, AtMostOneHandshake, HandlesSound, GuidsSound, TimersSound, Watch;
    if h in s.handshakes {
      assert HasView(s, h);
      var v := ViewOf(s, h);
      var hs := s.handshakes[h];
      var local := s.locals[hs.localHandle];
      var known := expiry != Expiry.DDS_TIME_INVALID;
      SoundIsAlmostSound(s, h);
      ProcessKeeps(lib, config, local, s.trusted, now, token, known, sign, v);
      var w := if hs.created == CreatedRequest then ProcessReply(lib, config, local, s.trusted, now, token, known, sign, v).view
               else ProcessFinal(lib, config, local, s.trusted, now, token, known, v).view;
      WithViewSound(s, h, w);
      WatchSound(WithView(s, h, w), hs.remoteHandle, expiry, event);
    }
  }

  lemma SameButData(s: State, t: State)
    requires Sound(s)
    requires t.relations == s.relations && t.handshakes == s.handshakes && t.guids == s.guids && t.pending == s.pending
    requires t.locals.Keys == s.locals.Keys && t.remotes == s.remotes
    requires forall l :: l in s.locals ==> t.locals[l].timer == s.locals[l].timer
    ensures Sound(t)
  {
    hide TimersSound;
    SameTimers(s, t);
    forall k | k in t.handshakes
      ensures HasView(t, k) && ViewOf(t, k) == ViewOf(s, k)
    {
      assert HasView(s, k);
    }
  }

  lemma AddLocalSound(s: State, t: State, handle: int, local: Local)
    requires Sound(s) && Fresh(s, handle) && (local.timer != 0 ==> FreshEvent(s, local.timer))
    requires t == s.(locals := s.locals[handle := local], trusted := t.trusted, authorities := t.authorities,
                     pending := if local.timer != 0 then s.pending[local.timer := handle] else s.pending)
    ensures Sound(t)
  {
    hide TimersSound;
    forall h
      ensures TimerOf(t, h) == if h == handle then local.timer else TimerOf(s, h)
    {
    }
    NewEventSound(s, t, handle, local.timer);
    forall k | k in t.handshakes
      ensures HasView(t, k) && ViewOf(t, k) == ViewOf(s, k)
    {
      assert HasView(s, k);
    }
  }

  lemma ValidateLocalSound(lib: Library, config: Config, s: State, input: LocalInput, handle: int, event: nat)
    requires Sound(s) && Fresh(s, handle) && FreshEvent(s, event)
    ensures Sound(ValidateLocal(lib, config, s, input, handle, event).state)
  {
    hide CaTrusted, Sound, Fresh;
    var o := ValidateLocal(lib, config, s, input, handle, event);
    if o.result == Ok {
      AddLocalSound(s, o.state, handle, o.state.locals[handle]);
    } else {
      SoundWithTrusted(s, o.state);
    }
  }

  lemma SoundWithTrusted(s: State, t: State)
    requires Sound(s) && t == s.(trusted := t.trusted, authorities := t.authorities)
    ensures Sound(t)
  {
    SameButData(s, t);
  }

  lemma NewEventSound(s: State, t: State, h: int, e: nat)
    requires TimersSound(s) && TimerOf(s, h) == 0
    requires e != 0 ==> FreshEvent(s, e)
    requires t.pending == if e != 0 then s.pending[e := h] else s.pending
    requires forall k :: TimerOf(t, k) == if k == h then e else TimerOf(s, k)
    ensures TimersSound(t)
  {
  }

  lemma SetPermissionsSound(s: State, h: int, document: Option<CString>)
    requires Sound(s)
    ensures Sound(SetPermissions(s, h, document).state)
  {
    var t := SetPermissions(s, h, document).state;
    assert t.locals.Keys == s.locals.Keys;
    SameButData(s, t);
  }

  lemma ValidateRemoteSound(s: State, l: int, identityToken: IdentityToken, request: Option<Token>, guid: Guid,
                            challenge: Option<Nonce>, handle: int)
    requires Sound(s) && Fresh(s, handle)
    ensures Sound(ValidateRemote(s, l, identityToken, request, guid, challenge, handle).state)
  {
    hide TimersSound, Announced, RoleOf;
    var o := ValidateRemote(s, l, identityToken, request, guid, challenge, handle);
    var t := o.state;
    if o.result != Failed {
      forall h
        ensures TimerOf(t, h) == TimerOf(s, h)
      {
      }
      SameTimers(s, t);
      forall k | k in t.handshakes
        ensures HasView(t, k)
        ensures ViewOf(s, k).relation.rchallenge.Some? ==> ViewOf(t, k).relation.rchallenge.Some?
      {
        assert HasView(s, k);
      }
    }
  }

  /** A new remote identity, before it has any relation. */
  lemma NewRemoteSound(s: State, h: int, r: Remote)
    requires Sound(s) && Fresh(s, h) && r.guid !in s.guids && r.timer == 0
    ensures Sound(s.(remotes := s.remotes[h := r], guids := s.guids[r.guid := h]))
  {
    hide TimersSound;
    var t := s.(remotes := s.remotes[h := r], guids := s.guids[r.guid := h]);
    forall k
      ensures TimerOf(t, k) == TimerOf(s, k)
    {
    }
    SameTimers(s, t);
    forall k | k in t.handshakes
      ensures HasView(t, k) && ViewOf(t, k) == ViewOf(s, k)
    {
      assert HasView(s, k);
    }
  }

  lemma RelationSound(s: State, key: (int, int), x: Relation)
    requires Sound(s) && key.0 in s.remotes && key.1 in s.locals
    requires key in s.relations && s.relations[key].rchallenge.Some? ==> x.rchallenge.Some?
    ensures Sound(s.(relations := s.relations[key := x]))
  {
    hide TimersSound;
    var t := s.(relations := s.relations[key := x]);
    SameTimers(s, t);
    forall k | k in t.handshakes
      ensures HasView(t, k)
      ensures ViewOf(s, k).relation.rchallenge.Some? ==> ViewOf(t, k).relation.rchallenge.Some?
    {
      assert HasView(s, k);
    }
  }

  lemma ReturnHandshakeSound(s: State, h: int)
    requires Sound(s)
    ensures Sound(ReturnHandshake(s, h).state)
  {
    hide TimersSound;
    if h in s.handshakes {
      SoundIsAlmostSound(s, h);
      DropSound(s, h);
    }
  }

  lemma ReturnLocalSound(s: State, h: int)
    requires Sound(s) && h in s.locals
    ensures Sound(ReturnIdentity(s, h).state)
  {
    hide TimersSound;
    var t := ReturnIdentity(s, h).state;
    forall k | k in t.handshakes
      ensures HasView(t, k) && ViewOf(t, k) == ViewOf(s, k)
    {
      assert HasView(s, k);
    }
    forall k
      ensures TimerOf(t, k) == if k == h then 0 else TimerOf(s, k)
    {
    }
    EventGone(s, t, h);
  }

  lemma FewerHandshakes(s: State, t: State)
    requires AtMostOneHandshake(s) && forall k :: k in t.handshakes ==> k in s.handshakes && t.handshakes[k] == s.handshakes[k]
    ensures AtMostOneHandshake(t)
  {
  }

  lemma ReturnRemoteSound(s: State, h: int)
    requires Sound(s) && h in s.remotes
    ensures Sound(ReturnIdentity(s, h).state)
  {
    hide TimersSound, AtMostOneHandshake;
    var t := ReturnIdentity(s, h).state;
    FewerHandshakes(s, t);
    forall k | k in t.handshakes
      ensures HasView(t, k) && ViewOf(t, k) == ViewOf(s, k)
    {
      assert HasView(s, k);
    }
    forall k
      ensures TimerOf(t, k) == if k == h then 0 else TimerOf(s, k)
    {
    }
    EventGone(s, t, h);
  }

  lemma ReturnIdentitySound(s: State, h: int)
    requires Sound(s)
    ensures Sound(ReturnIdentity(s, h).state)
  {
    hide Sound, ForgetLocal, ForgetRemote;
    if h in s.locals {
      ReturnLocalSound(s, h);
    } else if h in s.remotes {
      ReturnRemoteSound(s, h);
    }
  }

  lemma EventGone(s: State, t: State, h: int)
    requires TimersSound(s)
    requires t.pending == s.pending - {TimerOf(s, h)}
    requires forall k :: TimerOf(t, k) == if k == h then 0 else TimerOf(s, k)
    ensures TimersSound(t)
  {
  }

  lemma ExpireLocalSound(s: State, event: nat)
    requires Sound(s) && event in s.pending && s.pending[event] in s.locals
    ensures Sound(Expire(s, event))
  {
    hide TimersSound;
    var t := Expire(s, event);
    var h := s.pending[event];
    assert t.locals.Keys == s.locals.Keys;
    forall k | k in t.handshakes
      ensures HasView(t, k) && ViewOf(t, k) == ViewOf(s, k)
    {
      assert HasView(s, k);
    }
    forall k
      ensures TimerOf(t, k) == if k == h then 0 else TimerOf(s, k)
    {
    }
    PendingNames(s, event);
    EventGone(s, t, h);
  }

  lemma ExpireRemoteSound(s: State, event: nat)
    requires Sound(s) && event in s.pending && s.pending[event] in s.remotes
    ensures Sound(Expire(s, event))
  {
    hide TimersSound;
    var t := Expire(s, event);
    var h := s.pending[event];
    assert t.remotes.Keys == s.remotes.Keys;
    forall k | k in t.handshakes
      ensures HasView(t, k) && ViewOf(t, k).relation == ViewOf(s, k).relation
    {
      assert HasView(s, k);
    }
    forall k
      ensures TimerOf(t, k) == if k == h then 0 else TimerOf(s, k)
    {
    }
    PendingNames(s, event);
    EventGone(s, t, h);
  }

  /** A pending event names a registered identity, whose timer it is. */
  lemma ExpireSound(s: State, event: nat)
    requires Sound(s) && event in s.pending
    ensures Sound(Expire(s, event))
  {
    hide Expire;
    PendingNames(s, event);
    if s.pending[event] in s.locals {
      ExpireLocalSound(s, event);
    } else {
      ExpireRemoteSound(s, event);
    }
  }

  lemma PendingNames(s: State, event: nat)
    requires TimersSound(s) && event in s.pending
    ensures TimerOf(s, s.pending[event]) == event
  {
  }

  lemma ForgotMore(s: State, t: State, u: State, a: set<(int, int)>, b: set<(int, int)>)
    requires Forgot(s, t, a) && Forgot(t, u, b)
    ensures Forgot(s, u, a + b)
  {
  }

  /** Removing the one handshake that is found leaves none of the pair. */
  lemma NoneLeft(s: State, h: int, l: int, r: int)
    requires Sound(s) && IsHandshakeOf(s, h, l, r)
    ensures forall k :: !IsHandshakeOf(DropHandshake(s, h), k, l, r)
  {
    hide HandlesSound, GuidsSound, RelationsSound, HandshakesSound, TimersSound;
  }

  /** Removing the handshake that is found and the relation forgets a pair. */
  lemma ForgotPair(s: State, t: State, key: (int, int))
    requires Sound(s)
    requires var found := FindHandshake(s, key.1, key.0);
             var s1 := if found.Some? then DropHandshake(s, found.value) else s;
             t == s1.(relations := s1.relations - {key})
    ensures Forgot(s, t, {key})
  {
    hide HandlesSound, GuidsSound, RelationsSound, HandshakesSound, TimersSound, FindHandshake;
    forall h | h in s.handshakes
      ensures h in t.handshakes <==> (s.handshakes[h].remoteHandle, s.handshakes[h].localHandle) != key
    {
      var found := FindHandshake(s, key.1, key.0);
      if (s.handshakes[h].remoteHandle, s.handshakes[h].localHandle) == key {
        assert IsHandshakeOf(s, h, key.1, key.0);
      } else if found.Some? {
        assert IsHandshakeOf(s, found.value, key.1, key.0) && found.value != h;
      }
    }
  }

  lemma DropRelationSound(s: State, key: (int, int))
    requires Sound(s) && forall h :: !IsHandshakeOf(s, h, key.1, key.0)
    ensures Sound(s.(relations := s.relations - {key}))
  {
    hide TimersSound;
    var t := s.(relations := s.relations - {key});
    SameTimers(s, t);
    forall k | k in t.handshakes
      ensures HasView(t, k) && ViewOf(t, k) == ViewOf(s, k)
    {
      assert HasView(s, k) && !IsHandshakeOf(s, k, key.1, key.0);
    }
  }

  /** Forgetting the pairs of an identity with every remote one is forgetting it. */
  lemma ForgotLocal(s: State, t: State, l: int, pairs: set<(int, int)>)
    requires Sound(s) && Forgot(s, t, pairs)
    requires forall k :: k in pairs ==> k.1 == l
    requires forall r :: r in s.remotes ==> (r, l) in pairs
    ensures t == ForgetLocal(s, l)
  {
    hide TimersSound, HandlesSound, GuidsSound, AtMostOneHandshake;
    var u := ForgetLocal(s, l);
    forall k | k in s.relations
      ensures k in pairs <==> k.1 == l
    {
      var (r, l') := k;
      assert r in s.remotes && (l' == l ==> (r, l) in pairs);
    }
    assert t.relations == u.relations;
    forall h | h in s.handshakes
      ensures (s.handshakes[h].remoteHandle, s.handshakes[h].localHandle) in pairs <==> s.handshakes[h].localHandle == l
    {
      assert HasView(s, h);
      var key := (s.handshakes[h].remoteHandle, s.handshakes[h].localHandle);
      assert key in pairs ==> key.0 == s.handshakes[h].remoteHandle && key.1 == s.handshakes[h].localHandle;
    }
    forall h
      ensures h in t.handshakes <==> h in u.handshakes
      ensures h in t.handshakes ==> t.handshakes[h] == u.handshakes[h]
    {
    }
    assert t.handshakes == u.handshakes;
  }

  lemma ForgotRemote(s: State, t: State, r: int, pairs: set<(int, int)>)
    requires Sound(s) && Forgot(s, t, pairs)
    requires forall k :: k in pairs ==> k.0 == r
    requires forall l :: (r, l) in s.relations ==> (r, l) in pairs
    ensures t == ForgetRemote(s, r)
  {
    hide TimersSound, HandlesSound, GuidsSound, AtMostOneHandshake;
    var u := ForgetRemote(s, r);
    forall k | k in s.relations
      ensures k in pairs <==> k.0 == r
    {
      var (r', l) := k;
      assert r' == r ==> (r, l) in s.relations && (r, l) in pairs;
    }
    assert t.relations == u.relations;
    forall h | h in s.handshakes
      ensures (s.handshakes[h].remoteHandle, s.handshakes[h].localHandle) in pairs <==> s.handshakes[h].remoteHandle == r
    {
      assert HasView(s, h);
      var key := (s.handshakes[h].remoteHandle, s.handshakes[h].localHandle);
      assert key in pairs ==> key.0 == s.handshakes[h].remoteHandle && key.1 == s.handshakes[h].localHandle;
    }
    forall h
      ensures h in t.handshakes <==> h in u.handshakes
      ensures h in t.handshakes ==> t.handshakes[h] == u.handshakes[h]
    {
    }
    assert t.handshakes == u.handshakes;
  }

  /** Returning an identity is complete and exact: nothing names it any more, no
      event is pending for it, and everything that did not name it is as before. */
  lemma ReturnIdentityExact(s: State, h: int)
    requires Sound(s) && ReturnIdentity(s, h).result == Ok
    ensures var t := ReturnIdentity(s, h).state;
            && h !in Handles(t) && h !in t.guids.Values && h !in t.pending.Values
            && (forall k :: k in t.relations ==> k.0 != h && k.1 != h)
            && (forall k :: k in t.handshakes ==> t.handshakes[k].localHandle != h && t.handshakes[k].remoteHandle != h)
            && (forall k :: k in s.relations && k.0 != h && k.1 != h ==> k in t.relations && t.relations[k] == s.relations[k])
            && (forall k :: k in s.handshakes && s.handshakes[k].localHandle != h && s.handshakes[k].remoteHandle != h ==>
                  k in t.handshakes && t.handshakes[k] == s.handshakes[k])
            && t.locals == s.locals - {h} && t.remotes == s.remotes - {h}
            && (forall e :: e in s.pending && s.pending[e] != h ==> e in t.pending && t.pending[e] == s.pending[e])
  {
    hide AtMostOneHandshake, HandlesSound;
    ReturnIdentitySound(s, h);
    var t := ReturnIdentity(s, h).state;
    IdentityKinds(s, h);
    forall k | k in s.handshakes
      ensures s.handshakes[k].localHandle in s.locals && s.handshakes[k].remoteHandle in s.remotes
    {
      assert HasView(s, k);
    }
    assert TimerOf(t, h) == 0 by {
      IdentityKinds(s, h);
    }
    forall e | e in t.pending
      ensures t.pending[e] != h
    {
      PendingNames(t, e);
    }
    forall e | e in s.pending && s.pending[e] != h
      ensures e != TimerOf(s, h)
    {
      PendingNames(s, e);
    }
  }

  lemma IdentityKinds(s: State, h: int)
    requires HandlesSound(s)
    ensures (h in s.locals ==> h !in s.remotes && h !in s.handshakes) && (h in s.remotes ==> h !in s.handshakes)
  {
  }

  // --------------------------------------------------------------- coherence

  /** The certificate chains to an authority that was configured here, and was
      current when it was checked. */
  ghost predicate CertificateChecked(lib: Library, authorities: set<Authority>, c: Certificate) {
    && (exists a, crl :: a in authorities && lib.issuedBy(c, a, crl))
    && (exists now :: lib.current(c, now))
  }

  /** A remote identity with a certificate: the certificate was checked, the stored
      participant data carries its adjusted GUID, and the stored kinds are those of
      the certificate's key and of the local configuration. */
  ghost predicate Coherent(lib: Library, config: Config, authorities: set<Authority>, r: Remote) {
    r.certificate.Some? ==>
      && CertificateChecked(lib, authorities, r.certificate.value)
      && DataMatches(lib, r.pdata, r.certificate.value)
      && r.dsign == r.certificate.value.kind && r.dsign != Unknown
      && r.kagree == config.kem
  }

  /** Every CA that the plugin works with is one that was configured. */
  ghost predicate LocalKnown(config: Config, authorities: set<Authority>, l: Local) {
    l.kagree == config.kem && l.ca in authorities
  }

  ghost predicate AllIn(list: seq<Authority>, authorities: set<Authority>) {
    forall a :: a in list ==> a in authorities
  }

  ghost predicate AllCoherent(lib: Library, config: Config, s: State) {
    && AllIn(s.trusted, s.authorities)
    && (forall l :: l in s.locals ==> LocalKnown(config, s.authorities, s.locals[l]))
    && (forall r :: r in s.remotes ==> Coherent(lib, config, s.authorities, s.remotes[r]))
  }

  lemma LoadedIsChecked(lib: Library, config: Config, authorities: set<Authority>, local: Local, trusted: seq<Authority>, now: int,
                        data: OctetSeq)
    requires LocalKnown(config, authorities, local) && AllIn(trusted, authorities)
    ensures var c := LoadCertificate(lib, data, local, trusted, now); c.Some? ==> CertificateChecked(lib, authorities, c.value)
  {
    var c := LoadCertificate(lib, data, local, trusted, now);
    if c.Some? {
      if trusted == [] {
        assert lib.issuedBy(c.value, local.ca, local.crl);
      } else {
        var i :| 0 <= i < |trusted| && lib.issuedBy(c.value, trusted[i], None);
        assert trusted[i] in authorities;
      }
    }
  }

  /** Although the certificate is stored before the later checks, the validator leaves
      a coherent remote identity, whatever the token. */
  lemma ValidateCoherent(lib: Library, config: Config, authorities: set<Authority>, local: Local, trusted: seq<Authority>, now: int,
                         kind: TokenType, token: Token, v: View)
    requires LocalKnown(config, authorities, local) && AllIn(trusted, authorities)
    requires Coherent(lib, config, authorities, v.remote)
    ensures var (ok, w) := Validate(lib, config, local, trusted, now, kind, token, v);
            && Coherent(lib, config, authorities, w.remote)
            && (ok ==> w.remote.certificate.Some?)
            && (!ok && !kind.FinalToken? ==> w.remote.certificate.None?)
            && (kind.FinalToken? ==> w.remote == v.remote)
  {
    hide LoadCertificate, DataMatches, CertificateChecked, WireKind, Find, TextOf, MaterialPresent, EchoesMatch, SignedContent,
      TokenCredentials;
    MaterialHasChallenges(token, kind, MaterialKind(kind, local, v.remote));
    var id := RequiredNonempty(token, C_ID);
    if id.Some? {
      LoadedIsChecked(lib, config, authorities, local, trusted, now, id.value);
    }
  }

  lemma AnswerCoherent(lib: Library, config: Config, authorities: set<Authority>, local: Local, trusted: seq<Authority>, now: int,
                       token: Token, pdata: OctetSeq, coins: Coins, unset: OctetSeq, sign: Signer, v: View)
    requires LocalKnown(config, authorities, local) && AllIn(trusted, authorities)
    requires Coherent(lib, config, authorities, v.remote)
    ensures Coherent(lib, config, authorities,
                     AnswerRequest(lib, config, local, trusted, now, token, pdata, coins, unset, sign, v).view.remote)
  {
    hide Validate, OwnCredentials, ReplyContent, ReplyMessage, Find, Coherent;
    ValidateCoherent(lib, config, authorities, local, trusted, now, RequestToken, token, v);
  }

  lemma ProcessCoherent(lib: Library, config: Config, authorities: set<Authority>, local: Local, trusted: seq<Authority>, now: int,
                        token: Token, expiryKnown: bool, sign: Signer, v: View)
    requires LocalKnown(config, authorities, local) && AllIn(trusted, authorities)
    requires Coherent(lib, config, authorities, v.remote)
    ensures var o := ProcessReply(lib, config, local, trusted, now, token, expiryKnown, sign, v);
            Coherent(lib, config, authorities, o.view.remote) && (o.result != Failed ==> o.view.remote.certificate.Some?)
    ensures var o := ProcessFinal(lib, config, local, trusted, now, token, expiryKnown, v);
            Coherent(lib, config, authorities, o.view.remote) && (o.result != Failed ==> o.view.remote.certificate.Some?)
  {
    hide Validate, FinalContent, FinalMessage, Find, Coherent;
    ValidateCoherent(lib, config, authorities, local, trusted, now, ReplyToken, token, v);
    ValidateCoherent(lib, config, authorities, local, trusted, now, FinalToken, token, v);
  }

  lemma CoherentWithMore(lib: Library, config: Config, a: set<Authority>, b: set<Authority>, r: Remote)
    requires Coherent(lib, config, a, r) && a <= b
    ensures Coherent(lib, config, b, r)
  {
  }

  /** A remote identity of which only the timer changed. */
  ghost predicate SameIdentity(r: Remote, q: Remote) {
    q == r.(timer := q.timer)
  }

  lemma IdentityCallsCoherent(lib: Library, config: Config, s: State, t: State)
    requires AllCoherent(lib, config, s)
    requires s.authorities <= t.authorities && AllIn(t.trusted, t.authorities)
    requires forall l :: l in t.locals ==> LocalKnown(config, t.authorities, t.locals[l])
    requires forall r :: r in t.remotes ==>
               t.remotes[r].certificate.None? || (r in s.remotes && SameIdentity(s.remotes[r], t.remotes[r]))
    ensures AllCoherent(lib, config, t)
  {
    hide CertificateChecked, DataMatches;
    forall r | r in t.remotes && t.remotes[r].certificate.Some?
      ensures Coherent(lib, config, t.authorities, t.remotes[r])
    {
      CoherentWithMore(lib, config, s.authorities, t.authorities, s.remotes[r]);
    }
  }

  lemma ValidateLocalCoherent(lib: Library, config: Config, s: State, input: LocalInput, handle: int, event: nat)
    requires AllCoherent(lib, config, s)
    ensures AllCoherent(lib, config, ValidateLocal(lib, config, s, input, handle, event).state)
  {
    hide CaTrusted, Coherent;
    IdentityCallsCoherent(lib, config, s, ValidateLocal(lib, config, s, input, handle, event).state);
  }

  lemma ValidateRemoteCoherent(lib: Library, config: Config, s: State, l: int, identityToken: IdentityToken,
                               request: Option<Token>, guid: Guid, challenge: Option<Nonce>, handle: int)
    requires AllCoherent(lib, config, s) && Sound(s)
    ensures AllCoherent(lib, config, ValidateRemote(s, l, identityToken, request, guid, challenge, handle).state)
  {
    hide Announced, RoleOf, Coherent, HandshakesSound, RelationsSound, TimersSound, AtMostOneHandshake;
    IdentityCallsCoherent(lib, config, s, ValidateRemote(s, l, identityToken, request, guid, challenge, handle).state);
  }

  lemma ReturnsCoherent(lib: Library, config: Config, s: State, h: int)
    requires AllCoherent(lib, config, s)
    ensures AllCoherent(lib, config, ReturnHandshake(s, h).state) && AllCoherent(lib, config, ReturnIdentity(s, h).state)
  {
    hide Coherent;
    IdentityCallsCoherent(lib, config, s, ReturnIdentity(s, h).state);
  }

  lemma SetPermissionsCoherent(lib: Library, config: Config, s: State, h: int, document: Option<CString>)
    requires AllCoherent(lib, config, s)
    ensures AllCoherent(lib, config, SetPermissions(s, h, document).state)
  {
    hide Coherent;
    IdentityCallsCoherent(lib, config, s, SetPermissions(s, h, document).state);
  }

  lemma ExpireCoherent(lib: Library, config: Config, s: State, event: nat)
    requires AllCoherent(lib, config, s) && event in s.pending
    ensures AllCoherent(lib, config, Expire(s, event))
  {
    hide Coherent;
    IdentityCallsCoherent(lib, config, s, Expire(s, event));
  }

  /** Only the remote identity of the handshake changes, and stays coherent. */
  lemma WithViewCoherent(lib: Library, config: Config, s: State, h: int, v: View, t: State)
    requires AllCoherent(lib, config, s) && HasView(s, h)
    requires Coherent(lib, config, s.authorities, v.remote)
    requires var u := WithView(s, h, v); t.remotes == u.remotes && t.trusted == s.trusted && t.authorities == s.authorities
    requires forall l :: l in t.locals ==> l in s.locals && t.locals[l] == s.locals[l].(pdata := t.locals[l].pdata)
    ensures AllCoherent(lib, config, t)
  {
    hide Coherent;
  }

  lemma BeginRequestCoherent(lib: Library, config: Config, s: State, l: int, r: int, pdata: OctetSeq, key: Option<KeyPair>,
                             handle: int)
    requires AllCoherent(lib, config, s) && Sound(s) && Fresh(s, handle) && Introduced(s, l, r)
    ensures AllCoherent(lib, config, BeginRequest(lib, config, s, l, r, pdata, key, handle).state)
  {
    hide MakeRequest, Coherent, FindOrAdd, Sound, AlmostSound, Fresh;
    if l in s.locals && r in s.remotes && lib.pem(s.locals[l].certificate).Some? {
      FindOrAddAlmostSound(s, l, r, CreatedRequest, handle);
      var (s1, h, made) := FindOrAdd(s, l, r, CreatedRequest, handle);
      var contents := lib.pem(s.locals[l].certificate).value;
      AlmostSoundHasView(s1, h);
      RequestKeeps(lib, config, s.locals[l], contents, pdata, key, ViewOf(s1, h));
      var o := MakeRequest(lib, config, s.locals[l], contents, pdata, key, ViewOf(s1, h));
      WithViewCoherent(lib, config, s1, h, o.view, BeginRequest(lib, config, s, l, r, pdata, key, handle).state);
    }
  }

  lemma AlmostSoundHasView(s: State, h: int)
    requires AlmostSound(s, h)
    ensures HasView(s, h)
  {
  }

  lemma BeginReplyCoherent(lib: Library, config: Config, s: State, token: Token, r: int, l: int, pdata: OctetSeq, now: int,
                           coins: Coins, unset: OctetSeq, sign: Signer, handle: int)
    requires AllCoherent(lib, config, s) && Sound(s) && Fresh(s, handle) && Introduced(s, l, r)
    ensures AllCoherent(lib, config, BeginReply(lib, config, s, token, r, l, pdata, now, coins, unset, sign, handle).state)
  {
    hide AnswerRequest, Coherent, FindOrAdd, Sound, AlmostSound, Fresh;
    if pdata != [] && l in s.locals && r in s.remotes {
      FindOrAddAlmostSound(s, l, r, CreatedReply, handle);
      var (s1, h, made) := FindOrAdd(s, l, r, CreatedReply, handle);
      AlmostSoundHasView(s1, h);
      var v := ViewOf(s1, h);
      AnswerCoherent(lib, config, s.authorities, s.locals[l], s.trusted, now, token, pdata, coins, unset, sign, v);
      var o := AnswerRequest(lib, config, s.locals[l], s.trusted, now, token, pdata, coins, unset, sign, v);
      WithViewCoherent(lib, config, s1, h, o.view,
                       BeginReply(lib, config, s, token, r, l, pdata, now, coins, unset, sign, handle).state);
    }
  }

  lemma ProcessStepCoherent(lib: Library, config: Config, s: State, token: Token, h: int, now: int, expiry: Expiry.int64,
                            event: nat, sign: Signer)
    requires AllCoherent(lib, config, s) && Sound(s)
    ensures AllCoherent(lib, config, Process(lib, config, s, token, h, now, expiry, event, sign).state)
  {
    hide ProcessReply, ProcessFinal, Coherent, AtMostOneHandshake, GuidsSound, TimersSound;
    if h != 0 && h in s.handshakes {
      assert HasView(s, h);
      var v, hs := ViewOf(s, h), s.handshakes[h];
      var local := s.locals[hs.localHandle];
      var known := expiry != Expiry.DDS_TIME_INVALID;
      ProcessCoherent(lib, config, s.authorities, local, s.trusted, now, token, known, sign, v);
      var w := if hs.created == CreatedRequest then ProcessReply(lib, config, local, s.trusted, now, token, known, sign, v).view
               else ProcessFinal(lib, config, local, s.trusted, now, token, known, v).view;
      var u := WithView(s, h, w);
      WithViewCoherent(lib, config, s, h, w, u);
      IdentityCallsCoherent(lib, config, u, Process(lib, config, s, token, h, now, expiry, event, sign).state);
    }
  }

  // -------------------------------------------------------------- whole runs

  /** One call of the SPI or one expiry, with what its environment draws. */
  datatype Event =
    | ValidateLocalEvent(input: LocalInput, handle: int, event: nat)
    | SetPermissionsEvent(identity: int, document: Option<CString>)
    | ValidateRemoteEvent(localHandle: int, identityToken: IdentityToken, request: Option<Token>, guid: Guid,
                          challenge: Option<Nonce>, handle: int)
    | BeginRequestEvent(initiator: int, replier: int, pdata: OctetSeq, key: Option<KeyPair>, handle: int)
    | BeginReplyEvent(token: Token, initiator: int, replier: int, pdata: OctetSeq, now: int, coins: Coins, unset: OctetSeq,
                      sign: Signer, handle: int)
    | ProcessEvent(token: Token, handshake: int, now: int, expiry: Expiry.int64, event: nat, sign: Signer)
    | ReturnHandshakeEvent(handshake: int)
    | ReturnIdentityEvent(identity: int)
    | ExpireEvent(event: nat)

  /** Handles come from the allocator and events from the dispatcher, handshakes are
      begun between identities that were introduced, only pending events expire. */
  predicate Enabled(s: State, e: Event) {
    match e
    case ValidateLocalEvent(_, handle, event) => Fresh(s, handle) && FreshEvent(s, event)
    case ValidateRemoteEvent(_, _, _, _, _, handle) => Fresh(s, handle)
    case BeginRequestEvent(l, r, _, _, handle) => Fresh(s, handle) && Introduced(s, l, r)
    case BeginReplyEvent(_, r, l, _, _, _, _, _, handle) => Fresh(s, handle) && Introduced(s, l, r)
    case ProcessEvent(_, _, _, _, event, _) => FreshEvent(s, event)
    case ExpireEvent(event) => event in s.pending
    case _ => true
  }

  ghost function Apply(lib: Library, config: Config, s: State, e: Event): State
    requires Sound(s) && Enabled(s, e)
  {
    match e
    case ValidateLocalEvent(input, handle, event) => ValidateLocal(lib, config, s, input, handle, event).state
    case SetPermissionsEvent(h, document) => SetPermissions(s, h, document).state
    case ValidateRemoteEvent(l, token, request, guid, challenge, handle) =>
      ValidateRemote(s, l, token, request, guid, challenge, handle).state
    case BeginRequestEvent(l, r, pdata, key, handle) => BeginRequest(lib, config, s, l, r, pdata, key, handle).state
    case BeginReplyEvent(token, r, l, pdata, now, coins, unset, sign, handle) =>
      BeginReply(lib, config, s, token, r, l, pdata, now, coins, unset, sign, handle).state
    case ProcessEvent(token, h, now, expiry, event, sign) => Process(lib, config, s, token, h, now, expiry, event, sign).state
    case ReturnHandshakeEvent(h) => ReturnHandshake(s, h).state
    case ReturnIdentityEvent(h) => ReturnIdentity(s, h).state
    case ExpireEvent(event) => Expire(s, event)
  }

  /** Registry integrity and timer conservation, on every exit of every call. */
  lemma ApplySound(lib: Library, config: Config, s: State, e: Event)
    requires Sound(s) && Enabled(s, e)
    ensures Sound(Apply(lib, config, s, e))
  {
    hide Sound, ValidateLocal, SetPermissions, ValidateRemote, BeginRequest, BeginReply, Process, ReturnHandshake, ReturnIdentity,
      Expire, Fresh, Introduced;
    match e
    case ValidateLocalEvent(input, handle, event) => ValidateLocalSound(lib, config, s, input, handle, event);
    case SetPermissionsEvent(h, document) => SetPermissionsSound(s, h, document);
    case ValidateRemoteEvent(l, token, request, guid, challenge, handle) =>
      ValidateRemoteSound(s, l, token, request, guid, challenge, handle);
    case BeginRequestEvent(l, r, pdata, key, handle) => BeginRequestSound(lib, config, s, l, r, pdata, key, handle);
    case BeginReplyEvent(token, r, l, pdata, now, coins, unset, sign, handle) =>
      BeginReplySound(lib, config, s, token, r, l, pdata, now, coins, unset, sign, handle);
    case ProcessEvent(token, h, now, expiry, event, sign) => ProcessSound(lib, config, s, token, h, now, expiry, event, sign);
    case ReturnHandshakeEvent(h) => ReturnHandshakeSound(s, h);
    case ReturnIdentityEvent(h) => ReturnIdentitySound(s, h);
    case ExpireEvent(event) => ExpireSound(s, event);
  }

  /** Remote-identity coherence, on every exit of every call. */
  lemma ApplyCoherent(lib: Library, config: Config, s: State, e: Event)
    requires Sound(s) && Enabled(s, e) && AllCoherent(lib, config, s)
    ensures AllCoherent(lib, config, Apply(lib, config, s, e))
  {
    hide Sound, AllCoherent, ValidateLocal, SetPermissions, ValidateRemote, BeginRequest, BeginReply, Process, ReturnHandshake,
      ReturnIdentity, Expire, Fresh, Introduced;
    match e
    case ValidateLocalEvent(input, handle, event) => ValidateLocalCoherent(lib, config, s, input, handle, event);
    case SetPermissionsEvent(h, document) => SetPermissionsCoherent(lib, config, s, h, document);
    case ValidateRemoteEvent(l, token, request, guid, challenge, handle) =>
      ValidateRemoteCoherent(lib, config, s, l, token, request, guid, challenge, handle);
    case BeginRequestEvent(l, r, pdata, key, handle) => BeginRequestCoherent(lib, config, s, l, r, pdata, key, handle);
    case BeginReplyEvent(token, r, l, pdata, now, coins, unset, sign, handle) =>
      BeginReplyCoherent(lib, config, s, token, r, l, pdata, now, coins, unset, sign, handle);
    case ProcessEvent(token, h, now, expiry, event, sign) =>
      ProcessStepCoherent(lib, config, s, token, h, now, expiry, event, sign);
    case ReturnHandshakeEvent(h) => ReturnsCoherent(lib, config, s, h);
    case ReturnIdentityEvent(h) => ReturnsCoherent(lib, config, s, h);
    case ExpireEvent(event) => ExpireCoherent(lib, config, s, event);
  }

  /** A run of one plugin instance from its initial state. A step is only defined from a
      sound state; `RunSound` shows that there is no other. */
  ghost predicate IsRun(lib: Library, config: Config, states: seq<State>, events: seq<Event>) {
    && |states| == |events| + 1 && states[0] == INITIAL
    && forall i :: 0 <= i < |events| ==> Steps(lib, config, states[i], events[i], states[i + 1])
  }

  ghost predicate Steps(lib: Library, config: Config, s: State, e: Event, t: State) {
    Sound(s) ==> Enabled(s, e) && t == Apply(lib, config, s, e)
  }

  /** In every state of every run the registry is consistent, events and identities
      name each other one to one, and every remote identity is coherent. */
  lemma {:induction false} RunSound(lib: Library, config: Config, states: seq<State>, events: seq<Event>, i: nat)
    requires IsRun(lib, config, states, events) && i < |states|
    ensures Sound(states[i]) && AllCoherent(lib, config, states[i])
  {
    hide Enabled, Apply;
    if i > 0 {
      RunSound(lib, config, states, events, i - 1);
      assert Steps(lib, config, states[i - 1], events[i - 1], states[i]);
      ApplySound(lib, config, states[i - 1], events[i - 1]);
      ApplyCoherent(lib, config, states[i - 1], events[i - 1]);
    }
  }

  /** The credentials that a plugin hands out in any state of a run are those of a
      certificate that was checked, of the remote identity of that very handshake. */
  lemma ReleasedCredentials(lib: Library, config: Config, states: seq<State>, events: seq<Event>, i: nat, h: int)
    returns (c: Certificate)
    requires IsRun(lib, config, states, events) && i < |states|
    requires h in states[i].handshakes && (HasView(states[i], h) ==> GetPeerCredentials(lib, states[i], h).Some?)
    ensures HasView(states[i], h)
    ensures lib.pem(c) == Some(GetPeerCredentials(lib, states[i], h).value.0)
    ensures CertificateChecked(lib, states[i].authorities, c)
    ensures var r := states[i].remotes[states[i].handshakes[h].remoteHandle];
            r.certificate == Some(c) && DataMatches(lib, r.pdata, c) && r.kagree == config.kem
  {
    hide IsRun, HandlesSound, GuidsSound, TimersSound, AtMostOneHandshake, CertificateChecked, DataMatches;
    RunSound(lib, config, states, events, i);
    SoundIsAlmostSound(states[i], h);
    AlmostSoundHasView(states[i], h);
    var r := states[i].remotes[states[i].handshakes[h].remoteHandle];
    assert Coherent(lib, config, states[i].authorities, r);
    c := r.certificate.value;
  }

  /** No identity has two pending events. */
  lemma OneEventPerIdentity(s: State, e: nat, f: nat)
    requires Sound(s) && e in s.pending && f in s.pending && s.pending[e] == s.pending[f]
    ensures e == f && s.pending[e] in Handles(s)
  {
    hide HandshakesSound, GuidsSound, RelationsSound, AtMostOneHandshake;
    PendingNames(s, e);
    PendingNames(s, f);
  }
}
