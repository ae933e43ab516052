/** When the calls on the identities of the CycloneDDS plugin, and those that begin a
    handshake, succeed, and what they leave: from the first contact of two participants
    to a shared secret. */
module PqCalls {
  import opened Octets
  import opened Guids
  import opened Transcript
  import opened Algorithms
  import opened PqHandshake
  import opened PqState
  import opened PqInvariant
  import opened PqAcceptance
  import opened PqExchange
  import PqRun
  import Expiry
  import P = Protocol

  // ---------------------------------------------------------- local identities

  /** The directory that a participant names replaces the trusted list. */
  function TrustedWith(s: State, input: LocalInput): seq<Authority> {
    if input.directory.Loaded? then input.directory.authorities else s.trusted
  }

  ghost predicate CaListed(lib: Library, trusted: seq<Authority>, input: LocalInput) {
    && input.ca.Some?
    && (trusted != [] ==> input.crl == NoCrl && exists a :: a in trusted && lib.sameFingerprint(a, input.ca.value))
  }

  /** `validate_local_identity` succeeds exactly if everything can be loaded, the CA is
      listed if there is a list, and certificate, key, CA and CRL fit. The new identity
      holds what was loaded; the trusted list is replaced even if a later step fails. */
  lemma LocalAcceptedExactly(lib: Library, config: Config, s: State, input: LocalInput, handle: int, event: nat)
    requires Sound(s) && Fresh(s, handle)
    ensures var step := ValidateLocal(lib, config, s, input, handle, event);
            && (step.result == Ok <==>
                  && input.complete && input.directory != Unreadable && CaListed(lib, TrustedWith(s, input), input)
                  && input.certificate.Some? && input.privateKey.Some? && input.keyMatches && input.crl != BadCrl
                  && input.certified && input.expiry != Expiry.DDS_TIME_INVALID && input.guid.Some?)
            && (step.result != Ok ==>
                  && step.result == Failed && step.handle == 0
                  && step.state == s.(trusted := step.state.trusted, authorities := step.state.authorities))
            && (input.complete && input.directory != Unreadable ==> step.state.trusted == TrustedWith(s, input))
            && (step.result == Ok ==>
                  && step.handle == handle && step.state.locals.Keys == s.locals.Keys + {handle}
                  && (forall l :: l in s.locals ==> step.state.locals[l] == s.locals[l])
                  && var l := step.state.locals[handle];
                  && Some(l.guid) == input.guid && Some(l.certificate) == input.certificate && Some(l.ca) == input.ca
                  && Some(l.privateKey) == input.privateKey && l.kagree == config.kem && l.permissions == "" && l.pdata == []
                  && (if input.crl == NoCrl then l.crl == None else l.crl == Some(input.crl.crl)))
  {
    hide HandshakesSound, GuidsSound, RelationsSound, TimersSound, AtMostOneHandshake;
    var trusted := TrustedWith(s, input);
    if input.ca.Some? {
      if a :| a in trusted && lib.sameFingerprint(a, input.ca.value) {
        var i :| 0 <= i < |trusted| && trusted[i] == a;
      }
      if i :| 0 <= i < |trusted| && lib.sameFingerprint(trusted[i], input.ca.value) {
        assert trusted[i] in trusted;
      }
    }
  }

  /** A permissions document that was set is what the next request carries. */
  lemma PermissionsAreSent(lib: Library, config: Config, s: State, l: int, document: CString, r: int, pdata: OctetSeq,
                           key: Option<KeyPair>, handle: int)
    requires Sound(s) && l in s.locals && Introduced(s, l, r) && Fresh(s, handle)
    ensures var t := SetPermissions(s, l, Some(document)).state;
            && SetPermissions(s, l, Some(document)).result == Ok && Introduced(t, l, r)
            && var step := BeginRequest(lib, config, t, l, r, pdata, key, handle);
               step.message.Some? ==> Find(step.message.value.properties, C_PERM) == Some(WireText(config, document))
  {
    hide FindOrAdd, WireText, WireName, HandshakesSound, GuidsSound, RelationsSound, TimersSound, AtMostOneHandshake;
    var t := SetPermissions(s, l, Some(document)).state;
    SetPermissionsSound(s, l, Some(document));
    var contents := lib.pem(t.locals[l].certificate);
    if r in t.remotes && contents.Some? && key.Some? {
      FindOrAddAlmostSound(t, l, r, CreatedRequest, handle);
      var (s1, h, made) := FindOrAdd(t, l, r, CreatedRequest, handle);
      AlmostSoundHasView(s1, h);
      var credentials := OwnCredentials(config, t.locals[l], contents.value, pdata, t.locals[l].kagree);
      var token := RequestMessage(config, credentials, lib.hash(credentials), key.value.publicKey, ViewOf(s1, h).relation.lchallenge);
      PqRun.CredentialsReadBack(token, credentials);
    }
  }

  // --------------------------------------------------------- remote identities

  /** The first property of the token whose name starts with `future_challenge`. */
  ghost predicate AnnouncesAt(properties: seq<Property>, i: int) {
    && 0 <= i < |properties| && "future_challenge" <= properties[i].name
    && forall k :: 0 <= k < i ==> !("future_challenge" <= properties[k].name)
  }

  /** An AuthRequest announces exactly the 256-bit value of that property. */
  lemma AnnouncedExactly(request: Token, challenge: Nonce)
    ensures Announced(request) == Some(challenge) <==>
            && request.classId == "pqsec-dds.auth:1.0+AuthReq"
            && exists i :: AnnouncesAt(request.properties, i) && request.properties[i].value == challenge
  {
    AnnouncedInExactly(request.properties, challenge);
  }

  lemma {:induction false} AnnouncedInExactly(ps: seq<Property>, challenge: Nonce)
    ensures AnnouncedIn(ps) == Some(challenge) <==> exists i :: AnnouncesAt(ps, i) && ps[i].value == challenge
  {
    if ps != [] {
      AnnouncedInExactly(ps[1..], challenge);
      if i :| AnnouncesAt(ps[1..], i) && ps[1..][i].value == challenge {
        assert !(P.FUTURE_CHALLENGE <= ps[0].name) ==> AnnouncesAt(ps, i + 1);
      }
      if i :| AnnouncesAt(ps, i) && ps[i].value == challenge {
        assert i > 0 ==> AnnouncesAt(ps[1..], i - 1);
      }
      assert P.FUTURE_CHALLENGE <= ps[0].name ==> AnnouncesAt(ps, 0);
    }
  }

  /** The token that a plugin hands out announces its challenge. */
  lemma AnnouncementReadBack(challenge: Nonce)
    ensures Announced(AuthRequest(challenge)) == Some(challenge)
  {
  }

  /** A remote identity with this GUID came with this token. */
  ghost predicate KnownByToken(s: State, guid: Guid, identityToken: IdentityToken) {
    forall r :: r in s.remotes && s.remotes[r].guid == guid ==> s.remotes[r].identityToken == identityToken
  }

  lemma TokenAsBefore(s: State, guid: Guid, identityToken: IdentityToken)
    requires GuidsSound(s)
    ensures KnownByToken(s, guid, identityToken) <==>
            (guid in s.guids ==> s.remotes[s.guids[guid]].identityToken == identityToken)
  {
    if KnownByToken(s, guid, identityToken) {
      if guid in s.guids {
        var r := s.guids[guid];
        assert r in s.remotes && s.remotes[r].guid == guid;
      }
    } else {
      var r :| r in s.remotes && s.remotes[r].guid == guid && s.remotes[r].identityToken != identityToken;
      assert s.remotes[r].guid in s.guids;
    }
  }

  /** The side with the smaller GUID is told to send the request. The relation keeps the own
      challenge from the first time and takes the peer's from the AuthRequest; without one
      the answer announces the own challenge. */
  ghost predicate Acquainted(s: State, step: Step, l: int, request: Option<Token>, guid: Guid, challenge: Nonce) {
    var key, t := (step.handle, l), step.state;
    && l in s.locals && key in t.relations
    && step.result == (if NumberOf(s.locals[l].guid) < NumberOf(guid) then PendingRequest else PendingMessage)
    && t.relations[key].lchallenge == (if key in s.relations then s.relations[key].lchallenge else challenge)
    && t.relations[key].rchallenge ==
       (if request.Some? then Announced(request.value)
        else if key in s.relations then s.relations[key].rchallenge else None)
    && step.message.Some?
    && (if request.None? then Announced(step.message.value) == Some(t.relations[key].lchallenge)
        else step.message.value == NIL_TOKEN)
  }

  /** `validate_remote_identity` succeeds exactly for a known local identity, a compatible
      identity token, the same one as before if the GUID is known, and an AuthRequest with
      a challenge, if there is one; otherwise it changes nothing. */
  lemma RemoteAcceptedExactly(s: State, l: int, identityToken: IdentityToken, request: Option<Token>, guid: Guid,
                              challenge: Option<Nonce>, handle: int)
    requires Sound(s) && Fresh(s, handle)
    ensures var step := ValidateRemote(s, l, identityToken, request, guid, challenge, handle);
            && (step.result != Failed <==>
                  && l in s.locals && identityToken.classId == "pqsec-dds.auth:1.0" && challenge.Some?
                  && (request.Some? ==> Announced(request.value).Some?)
                  && KnownByToken(s, guid, identityToken))
            && (step.result == Failed ==> step == Step(s, Failed, 0, None))
            && (step.result != Failed ==>
                  && challenge.Some? && Contacted(s, step, l, identityToken, guid, handle)
                  && Acquainted(s, step, l, request, guid, challenge.value))
  {
    hide Announced, RoleOf, HandshakesSound, RelationsSound, TimersSound, AtMostOneHandshake, HandlesSound, KnownByToken, Contacted,
      Acquainted;
    TokenAsBefore(s, guid, identityToken);
    if ValidateRemote(s, l, identityToken, request, guid, challenge, handle).result != Failed {
      RemoteContacted(s, l, identityToken, request, guid, challenge, handle);
      RemoteRelated(s, l, identityToken, request, guid, challenge, handle);
    }
  }

  lemma RemoteContacted(s: State, l: int, identityToken: IdentityToken, request: Option<Token>, guid: Guid,
                        challenge: Option<Nonce>, handle: int)
    requires Sound(s) && Fresh(s, handle)
    requires ValidateRemote(s, l, identityToken, request, guid, challenge, handle).result != Failed
    ensures Contacted(s, ValidateRemote(s, l, identityToken, request, guid, challenge, handle), l, identityToken, guid, handle)
  {
    hide Announced, RoleOf, HandshakesSound, RelationsSound, TimersSound, AtMostOneHandshake;
  }

  lemma RemoteRelated(s: State, l: int, identityToken: IdentityToken, request: Option<Token>, guid: Guid,
                      challenge: Option<Nonce>, handle: int)
    requires Sound(s) && ValidateRemote(s, l, identityToken, request, guid, challenge, handle).result != Failed
    ensures challenge.Some?
    ensures Acquainted(s, ValidateRemote(s, l, identityToken, request, guid, challenge, handle), l, request, guid, challenge.value)
  {
    hide Announced, Less, NumberOf, HandshakesSound, RelationsSound, TimersSound, AtMostOneHandshake, HandlesSound;
    SmallerSendsRequest(s.locals[l].guid, guid);
    var step := ValidateRemote(s, l, identityToken, request, guid, challenge, handle);
    AnnouncementReadBack(step.state.relations[(step.handle, l)].lchallenge);
  }

  /** The remote identity of the GUID is registered and related; nothing else changed. */
  ghost predicate Contacted(s: State, step: Step, l: int, identityToken: IdentityToken, guid: Guid, handle: int) {
    var t, h := step.state, step.handle;
    && h in t.remotes && t.remotes[h].guid == guid && t.remotes[h].identityToken == identityToken && (h, l) in t.relations
    && (if h in s.remotes then t.remotes == s.remotes else h == handle && t.remotes.Keys == s.remotes.Keys + {h})
    && (forall r :: r in s.remotes ==> t.remotes[r] == s.remotes[r])
    && t.relations.Keys == s.relations.Keys + {(h, l)}
    && (forall k :: k in s.relations && k != (h, l) ==> t.relations[k] == s.relations[k])
    && t.locals == s.locals && t.handshakes == s.handshakes && t.pending == s.pending && t.trusted == s.trusted
  }

  // ----------------------------------------------- from first contact to a secret

  /** A local identity, and the identity token by which others know it. */
  datatype Party = Party(state: State, local: int, token: IdentityToken)

  /** The two do not know each other yet. */
  ghost predicate Strangers(x: Party, y: Party) {
    && Sound(x.state) && x.local in x.state.locals && y.local in y.state.locals
    && y.token.classId == P.BASE_CLASS_ID && y.state.locals[y.local].guid !in x.state.guids
  }

  /** How `x` meets `y`. */
  ghost function Meet(x: Party, y: Party, request: Option<Token>, challenge: Nonce, handle: int): Step
    requires Strangers(x, y)
  {
    ValidateRemote(x.state, x.local, y.token, request, y.state.locals[y.local].guid, Some(challenge), handle)
  }

  lemma MeetsFirstTime(x: Party, y: Party, request: Option<Token>, challenge: Nonce, handle: int)
    requires Strangers(x, y) && Fresh(x.state, handle) && (request.Some? ==> Announced(request.value).Some?)
    ensures var step := Meet(x, y, request, challenge, handle);
            && step.handle == handle && FirstTime(step.state, x.local, handle)
            && step.state.locals == x.state.locals && step.state.trusted == x.state.trusted && step.state.pending == x.state.pending
            && step.state.remotes.Keys == x.state.remotes.Keys + {handle} && step.state.handshakes == x.state.handshakes
            && step.state.relations[(handle, x.local)].lchallenge == challenge
            && step.state.relations[(handle, x.local)].rchallenge == (if request.Some? then Announced(request.value) else None)
            && (request.None? ==> step.message.Some? && Announced(step.message.value) == Some(challenge))
            && step.result == (if NumberOf(x.state.locals[x.local].guid) < NumberOf(y.state.locals[y.local].guid)
                               then PendingRequest else PendingMessage)
  {
    hide Announced, NumberOf, ValidateRemote, TimersSound, AtMostOneHandshake;
    var guid := y.state.locals[y.local].guid;
    RemoteAcceptedExactly(x.state, x.local, y.token, request, guid, Some(challenge), handle);
    ValidateRemoteSound(x.state, x.local, y.token, request, guid, Some(challenge), handle);
    var step := Meet(x, y, request, challenge, handle);
    assert step.handle !in x.state.remotes;
    forall h
      ensures !IsHandshakeOf(step.state, h, x.local, handle)
    {
      assert h in x.state.handshakes ==> HasView(x.state, h);
    }
  }

  /** Two participants that validate each other for the first time, whether or not the
      second is handed the announcement of the first, are ready for a first exchange in
      which each expects the challenge that the other uses; the one with the smaller GUID,
      and no other, is told to begin it. */
  lemma FirstContact(x: Party, y: Party, challenge1: Nonce, challenge2: Nonce, ha: int, hb: int, delivered: bool)
    requires Strangers(x, y) && Strangers(y, x) && Fresh(x.state, ha) && Fresh(y.state, hb)
    ensures var a := Meet(x, y, None, challenge1, ha);
            var b := Meet(y, x, if delivered then a.message else None, challenge2, hb);
            && FirstTime(a.state, x.local, ha) && FirstTime(b.state, y.local, hb)
            && PqRun.Expects(b.state.relations[(hb, y.local)], a.state.relations[(ha, x.local)].lchallenge)
            && PqRun.Expects(a.state.relations[(ha, x.local)], b.state.relations[(hb, y.local)].lchallenge)
            && (a.result == PendingRequest <==> NumberOf(x.state.locals[x.local].guid) < NumberOf(y.state.locals[y.local].guid))
            && (b.result == PendingRequest <==> NumberOf(y.state.locals[y.local].guid) < NumberOf(x.state.locals[x.local].guid))
  {
    hide Announced, NumberOf, Meet, Strangers, FirstTime, Fresh;
    MeetsFirstTime(x, y, None, challenge1, ha);
    var a := Meet(x, y, None, challenge1, ha);
    MeetsFirstTime(y, x, if delivered then a.message else None, challenge2, hb);
  }

  /** What one participant draws and where it runs. */
  datatype Place = Place(handle: int, handshake: int, event: nat, expiry: Expiry.int64)

  ghost predicate Usable(s: State, p: Place) {
    && Fresh(s, p.handle) && Fresh(s, p.handshake) && p.handle != p.handshake && FreshEvent(s, p.event)
    && p.expiry != Expiry.DDS_TIME_INVALID
  }

  lemma StillUsable(x: Party, y: Party, request: Option<Token>, challenge: Nonce, p: Place)
    requires Strangers(x, y) && Usable(x.state, p) && (request.Some? ==> Announced(request.value).Some?)
    ensures var t := Meet(x, y, request, challenge, p.handle).state; Fresh(t, p.handshake) && FreshEvent(t, p.event)
  {
    hide Announced, Meet, Strangers, NumberOf, FirstTime;
    MeetsFirstTime(x, y, request, challenge, p.handle);
  }

  /** From strangers to a shared secret: whether or not the announcement is delivered, the
      four calls of the exchange that follows all succeed, and both hand out the same
      secret with the challenges that they drew when they met. `expiry` is that of the
      peer's certificate. */
  lemma StrangersShareSecret(lib: Library, config: Config, e: PqRun.Exchange, x: Party, y: Party, challenge1: Nonce,
                             challenge2: Nonce, p: Place, q: Place, delivered: bool, unset: OctetSeq)
    requires PqRun.Proper(lib, config, e) && e.pdataB != []
    requires Strangers(x, y) && Strangers(y, x) && Usable(x.state, p) && Usable(y.state, q)
    requires x.state.locals[x.local] == e.a && x.state.trusted == e.trustedA
    requires y.state.locals[y.local] == e.b && y.state.trusted == e.trustedB
    ensures var a := Meet(x, y, None, challenge1, p.handle).state;
            var b := Meet(y, x, if delivered then Meet(x, y, None, challenge1, p.handle).message else None, challenge2, q.handle).state;
            && FirstTime(a, x.local, p.handle) && FirstTime(b, y.local, q.handle) && Fresh(a, p.handshake) && Fresh(b, q.handshake)
            && var o := Run(lib, config, e, a, x.local, p.handle, b, y.local, q.handle, p.handshake, q.handshake, q.expiry, p.expiry,
                            p.event, q.event, unset);
               && o.request.result == PendingMessage && o.reply.result == PendingMessage
               && o.final.result == OkFinal && o.end.result == Ok
               && GetSharedSecret(o.final.state, p.handshake).Some?
               && GetSharedSecret(o.final.state, p.handshake) == GetSharedSecret(o.end.state, q.handshake)
               && GetSharedSecret(o.end.state, q.handshake).value.challenge1 == challenge1
               && GetSharedSecret(o.end.state, q.handshake).value.challenge2 == challenge2
  {
    hide Meet, Strangers, FirstTime, Fresh, FreshEvent, Run, NumberOf, Announced, PqRun.Proper, GetSharedSecret;
    assert Fresh(x.state, p.handle) && Fresh(y.state, q.handle);
    FirstContact(x, y, challenge1, challenge2, p.handle, q.handle, delivered);
    MeetsFirstTime(x, y, None, challenge1, p.handle);
    var a := Meet(x, y, None, challenge1, p.handle);
    var request := if delivered then a.message else None;
    MeetsFirstTime(y, x, request, challenge2, q.handle);
    StillUsable(x, y, None, challenge1, p);
    StillUsable(y, x, request, challenge2, q);
    var b := Meet(y, x, request, challenge2, q.handle);
    FirstExchange(lib, config, e, a.state, x.local, p.handle, b.state, y.local, q.handle, p.handshake, q.handshake, q.expiry,
                  p.expiry, p.event, q.event, unset);
  }

  // ------------------------------------------------------- beginning handshakes

  /** A failed beginning leaves no handshake that was not there, and of what was there at
      most the one of the pair is changed. */
  ghost predicate LeavesNoHandshake(s: State, t: State, l: int, r: int) {
    && t.handshakes.Keys == s.handshakes.Keys
    && (forall k :: k in s.handshakes && !IsHandshakeOf(s, k, l, r) ==> t.handshakes[k] == s.handshakes[k])
    && t.relations.Keys == s.relations.Keys && t.remotes.Keys == s.remotes.Keys
    && (forall k :: k in s.relations && k != (r, l) ==> t.relations[k] == s.relations[k])
    && (forall k :: k in s.remotes && k != r ==> t.remotes[k] == s.remotes[k])
    && t.locals == s.locals && t.guids == s.guids && t.pending == s.pending && t.trusted == s.trusted
  }

  /** The one handshake of the pair is under this handle. */
  ghost predicate OnlyHandshakeIs(t: State, h: int, l: int, r: int) {
    forall k :: IsHandshakeOf(t, k, l, r) <==> k == h
  }

  /** `begin_handshake_request` succeeds exactly between registered identities, if the
      certificate can be written and the generated key has the size of its kind. Then the
      pair has one handshake, with that key and no other. */
  lemma RequestMadeExactly(lib: Library, config: Config, s: State, l: int, r: int, pdata: OctetSeq, key: Option<KeyPair>, handle: int)
    requires Sound(s) && Fresh(s, handle) && Introduced(s, l, r)
    ensures var step := BeginRequest(lib, config, s, l, r, pdata, key, handle);
            && (step.result == PendingMessage <==>
                  && l in s.locals && r in s.remotes && lib.pem(s.locals[l].certificate).Some?
                  && key.Some? && |key.value.publicKey| == PublicKeySize(s.locals[l].kagree))
            && (step.result != PendingMessage ==>
                  step.result == Failed && step.handle == 0 && step.message == None && LeavesNoHandshake(s, step.state, l, r))
            && (step.result == PendingMessage ==>
                  && OnlyHandshakeIs(step.state, step.handle, l, r) && step.handle in step.state.handshakes
                  && step.state.handshakes[step.handle].keyPair == key
                  && step.state.handshakes.Keys == s.handshakes.Keys + {step.handle}
                  && l in step.state.locals
                  && step.state.locals[l].pdata == (if s.locals[l].pdata == [] then pdata else s.locals[l].pdata))
  {
    hide MakeRequest, FindOrAdd, Sound, Fresh, WithView, HasView, LeavesNoHandshake, OnlyHandshakeIs, DropHandshake, PublicKeySize, KeepData;
    if l in s.locals && r in s.remotes && lib.pem(s.locals[l].certificate).Some? {
      var contents := lib.pem(s.locals[l].certificate).value;
      FoundExactly(s, l, r, CreatedRequest, handle);
      var (s1, h, made) := FindOrAdd(s, l, r, CreatedRequest, handle);
      RequestKeeps(lib, config, s.locals[l], contents, pdata, key, ViewOf(s1, h));
      KeyDrawn(lib, config, s.locals[l], contents, pdata, key, ViewOf(s1, h));
      StoredExactly(s, l, r, CreatedRequest, handle, MakeRequest(lib, config, s.locals[l], contents, pdata, key, ViewOf(s1, h)).view, pdata);
    } else {
      NothingLeft(s, l, r);
    }
  }

  lemma NothingLeft(s: State, l: int, r: int)
    ensures LeavesNoHandshake(s, s, l, r)
  {
  }

  /** What storing a view of the handshake of a pair does, and dropping it again. */
  lemma StoredExactly(s: State, l: int, r: int, created: Created, handle: int, w: View, pdata: OctetSeq)
    requires Sound(s) && Fresh(s, handle) && (r, l) in s.relations && l in s.locals
    requires var (s1, h, made) := FindOrAdd(s, l, r, created, handle); HasView(s1, h) ==> ViewKept(ViewOf(s1, h), w)
    ensures var (s1, h, made) := FindOrAdd(s, l, r, created, handle);
            && HasView(s1, h)
            && var u := WithView(s1, h, w);
            && l in u.locals && Stored(s, KeepData(u, l, pdata), h, l, r, w, pdata)
            && LeavesNoHandshake(s, if made then DropHandshake(u, h) else u, l, r)
  {
    hide LeavesNoHandshake, Stored, FindOrAdd, Sound, Fresh, WithView, HasView, ViewKept;
    StoredKept(s, l, r, created, handle, w, pdata);
    StoredDropped(s, l, r, created, handle, w);
  }

  /** The pair has one handshake, under `h`, and its objects are those of the view. */
  ghost predicate Stored(s: State, t: State, h: int, l: int, r: int, w: View, pdata: OctetSeq) {
    && OnlyHandshakeIs(t, h, l, r) && h in t.handshakes && t.handshakes[h] == w.handshake
    && t.handshakes.Keys == s.handshakes.Keys + {h}
    && (r, l) in t.relations && t.relations[(r, l)] == w.relation && r in t.remotes && t.remotes[r] == w.remote
    && l in s.locals && l in t.locals && t.locals[l].pdata == (if s.locals[l].pdata == [] then pdata else s.locals[l].pdata)
  }

  lemma StoredDropped(s: State, l: int, r: int, created: Created, handle: int, w: View)
    requires Sound(s) && Fresh(s, handle) && (r, l) in s.relations
    requires var (s1, h, made) := FindOrAdd(s, l, r, created, handle); HasView(s1, h) ==> ViewKept(ViewOf(s1, h), w)
    ensures var (s1, h, made) := FindOrAdd(s, l, r, created, handle);
            && HasView(s1, h)
            && var u := WithView(s1, h, w); LeavesNoHandshake(s, if made then DropHandshake(u, h) else u, l, r)
  {
    hide FindOrAdd, Fresh, HandlesSound, GuidsSound, TimersSound, HandshakesSound, AtMostOneHandshake;
    FoundExactly(s, l, r, created, handle);
    var (s1, h, made) := FindOrAdd(s, l, r, created, handle);
    assert IsHandshakeOf(s1, h, l, r);
    forall k | k in s.handshakes && !IsHandshakeOf(s, k, l, r)
      ensures k != h
    {
      assert IsHandshakeOf(s1, k, l, r) <==> k == h;
    }
  }

  lemma StoredKept(s: State, l: int, r: int, created: Created, handle: int, w: View, pdata: OctetSeq)
    requires Sound(s) && Fresh(s, handle) && (r, l) in s.relations && l in s.locals
    requires var (s1, h, made) := FindOrAdd(s, l, r, created, handle); HasView(s1, h) ==> ViewKept(ViewOf(s1, h), w)
    ensures var (s1, h, made) := FindOrAdd(s, l, r, created, handle);
            && HasView(s1, h)
            && var u := WithView(s1, h, w); l in u.locals && Stored(s, KeepData(u, l, pdata), h, l, r, w, pdata)
  {
    hide FindOrAdd, Fresh, HandlesSound, GuidsSound, TimersSound, HandshakesSound, AtMostOneHandshake;
    FoundExactly(s, l, r, created, handle);
    var (s1, h, made) := FindOrAdd(s, l, r, created, handle);
    assert IsHandshakeOf(s1, h, l, r);
    var t := KeepData(WithView(s1, h, w), l, pdata);
    forall k
      ensures IsHandshakeOf(t, k, l, r) <==> k == h
    {
      assert IsHandshakeOf(s1, k, l, r) <==> k == h;
    }
  }

  lemma KeyDrawn(lib: Library, config: Config, l: Local, contents: OctetSeq, pdata: OctetSeq, key: Option<KeyPair>, v: View)
    ensures var o := MakeRequest(lib, config, l, contents, pdata, key, v);
            && (o.result == PendingMessage <==> key.Some? && |key.value.publicKey| == PublicKeySize(l.kagree))
            && (o.result == PendingMessage ==> o.view.handshake.keyPair == key) && (o.result != PendingMessage ==> o.result == Failed)
  {
    hide OwnCredentials, RequestMessage, PublicKeySize;
  }

  lemma FoundExactly(s: State, l: int, r: int, created: Created, handle: int)
    requires Sound(s) && Fresh(s, handle) && (r, l) in s.relations
    ensures var (s1, h, made) := FindOrAdd(s, l, r, created, handle);
            && h != 0 && HasView(s1, h) && OnlyHandshakeIs(s1, h, l, r) && s1 == s.(handshakes := s1.handshakes)
            && (made ==> h !in s.handshakes) && (!made ==> s1 == s)
            && s1.handshakes.Keys == s.handshakes.Keys + {h} && (forall k :: k in s.handshakes ==> s1.handshakes[k] == s.handshakes[k])
  {
    hide GuidsSound, TimersSound, HandshakesSound, RelationsSound;
    FindOrAddAlmostSound(s, l, r, created, handle);
    var (s1, h, made) := FindOrAdd(s, l, r, created, handle);
    AlmostSoundHasView(s1, h);
    forall k | IsHandshakeOf(s1, k, l, r)
      ensures k == h
    {
      assert SamePair(s1.handshakes[k], s1.handshakes[h]);
    }
  }

  /** `begin_handshake_reply` succeeds exactly with participant data, between registered
      identities, on a genuine request, if the libraries do their part. Then the pair has
      one handshake, with the ciphertext and the secret that are sent, and the remote
      identity is the one that the request presents; else no handshake is added. */
  lemma ReplyMadeExactly(lib: Library, config: Config, s: State, token: Token, r: int, l: int, pdata: OctetSeq, now: int,
                         coins: Coins, unset: OctetSeq, sign: Signer, handle: int)
    requires Sound(s) && Fresh(s, handle) && Introduced(s, l, r)
    ensures var step := BeginReply(lib, config, s, token, r, l, pdata, now, coins, unset, sign, handle);
            && (step.result != PendingMessage ==>
                  step.result == Failed && step.handle == 0 && step.message == None && LeavesNoHandshake(s, step.state, l, r))
            && (step.result == PendingMessage <==>
                  && pdata != [] && l in s.locals && r in s.remotes && lib.pem(s.locals[l].certificate).Some?
                  && var (s1, h, made) := FindOrAdd(s, l, r, CreatedReply, handle);
                  && HasView(s1, h)
                  && exists c, publicKey, ciphertext, secret, w ::
                       && Answers(lib, config, s.locals[l], s.trusted, now, token, pdata, coins, unset, sign, ViewOf(s1, h), w, c,
                                  publicKey, ciphertext, secret)
                       && step.handle == h && Stored(s, step.state, h, l, r, w, pdata))
  {
    hide AnswerRequest, FindOrAdd, Sound, WithView, LeavesNoHandshake, Stored, DropHandshake, KeepData, Answers,
      HasView, ViewKept, Fresh;
    if pdata != [] && l in s.locals && r in s.remotes {
      FoundExactly(s, l, r, CreatedReply, handle);
      var (s1, h, made) := FindOrAdd(s, l, r, CreatedReply, handle);
      var v := ViewOf(s1, h);
      AnswerKeeps(lib, config, s.locals[l], s.trusted, now, token, pdata, coins, unset, sign, v);
      RequestAnsweredExactly(lib, config, s.locals[l], s.trusted, now, token, pdata, coins, unset, sign, v);
      var o := AnswerRequest(lib, config, s.locals[l], s.trusted, now, token, pdata, coins, unset, sign, v);
      StoredExactly(s, l, r, CreatedReply, handle, o.view, pdata);
      if o.result == PendingMessage {
        var c, publicKey, ciphertext, secret :|
          Answers(lib, config, s.locals[l], s.trusted, now, token, pdata, coins, unset, sign, v, o.view, c, publicKey, ciphertext, secret);
      }
    } else {
      NothingLeft(s, l, r);
    }
  }

  /** `return_handshake_handle` succeeds exactly for a registered handshake; from then on
      nothing resolves under its handle, and all else is as before. */
  lemma ReturnedHandshakeIsGone(lib: Library, config: Config, s: State, h: int, token: Token, now: int, expiry: Expiry.int64,
                                event: nat, sign: Signer)
    requires Sound(s)
    ensures ReturnHandshake(s, h).result == Ok <==> h in s.handshakes
    ensures var t := ReturnHandshake(s, h).state;
            && h !in t.handshakes && t == s.(handshakes := t.handshakes)
            && t.handshakes.Keys == s.handshakes.Keys - {h} && (forall k :: k in t.handshakes ==> t.handshakes[k] == s.handshakes[k])
            && GetSharedSecret(t, h) == None && GetPeerCredentials(lib, t, h) == None
            && Process(lib, config, t, token, h, now, expiry, event, sign) == Step(t, Failed, h, None)
  {
    hide HandshakesSound, GuidsSound, RelationsSound, TimersSound, AtMostOneHandshake;
    assert h in s.handshakes ==> h != 0;
  }
}
