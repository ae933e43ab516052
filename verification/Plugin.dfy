/** The OpenDDS plugin as the source has it: objects that the tables share, and
    calls that update them one field at a time. Every call is proved to do what
    the function of the same name in `Protocol` says. */
module Plugin {
  import opened Octets
  import opened Guids
  import opened Xcdr
  import opened Transcript
  import opened Environment
  import P = Protocol
  import opened Invariant

  class LocalIdentity {
    ghost const id: int      // the handle it gets
    const certificate: OctetSeq
    const signatureAlgorithm: CString
    const key: PublicKey
    const ca: OctetSeq
    var permissions: OctetSeq
    const guid: Guid
    const kemAlgorithm: CString

    constructor (ghost id: int, l: P.Loaded, guid: Guid, kem: CString)
      ensures this.id == id
      ensures Model() == P.LocalIdentity(l.certificate, l.info.signatureAlgorithm, l.info.key, l.ca, l.permissions, guid, kem)
    {
      this.id := id;
      certificate, signatureAlgorithm, key, ca := l.certificate, l.info.signatureAlgorithm, l.info.key, l.ca;
      permissions, this.guid, kemAlgorithm := l.permissions, guid, kem;
    }

    ghost function Model(): P.LocalIdentity
      reads this
    {
      P.LocalIdentity(certificate, signatureAlgorithm, key, ca, permissions, guid, kemAlgorithm)
    }
  }

  class RemoteIdentity {
    ghost const id: int
    const localHandle: int
    const guid: Guid
    var localAuthRequest: P.Token
    var remoteAuthRequest: P.Token
    var localChallenge: OctetSeq
    var remoteChallenge: OctetSeq
    var localAuthRequestSent: bool

    constructor (ghost id: int, localHandle: int, guid: Guid, nonce: Nonce)
      ensures this.id == id
      ensures Model() == P.NewRemote(localHandle, guid, nonce)
    {
      this.id, this.localHandle, this.guid := id, localHandle, guid;
      localAuthRequest, remoteAuthRequest := P.AuthRequestToken(nonce), P.NIL_TOKEN;
      localChallenge, remoteChallenge, localAuthRequestSent := nonce, [], false;
    }

    ghost function Model(): P.RemoteIdentity
      reads this
    {
      P.RemoteIdentity(localHandle, guid, localAuthRequest, remoteAuthRequest, localChallenge, remoteChallenge,
                       localAuthRequestSent)
    }
  }

  class Handshake {
    ghost const id: int
    const initiator: bool
    var state: P.ValidationResult
    const localHandle: int
    const remoteHandle: int
    const local: LocalIdentity
    const remote: RemoteIdentity
    const kemAlgorithm: CString
    var kemKey: Option<SecretKey>
    var request: P.Token
    var reply: P.Token
    var hash1: OctetSeq
    var hash2: OctetSeq
    var challenge1: OctetSeq
    var challenge2: OctetSeq
    var publicKey: OctetSeq
    var ciphertext: OctetSeq
    var secret: OctetSeq
    var remoteCertificate: Option<OctetSeq>
    var remotePermissions: OctetSeq

    constructor (ghost id: int, initiator: bool, localHandle: int, remoteHandle: int, local: LocalIdentity, remote: RemoteIdentity)
      ensures this.id == id
      ensures Model() == P.NewHandshake(initiator, localHandle, remoteHandle, local.kemAlgorithm)
      ensures this.local == local && this.remote == remote
    {
      this.id, this.initiator, state := id, initiator, P.ValidationFailed;
      this.localHandle, this.remoteHandle, this.local, this.remote := localHandle, remoteHandle, local, remote;
      kemAlgorithm, kemKey := local.kemAlgorithm, None;
      request, reply := P.NIL_TOKEN, P.NIL_TOKEN;
      hash1, hash2, challenge1, challenge2, publicKey, ciphertext, secret := [], [], [], [], [], [], [];
      remoteCertificate, remotePermissions := None, [];
    }

    ghost function Model(): P.Handshake
      reads this
    {
      P.Handshake(initiator, state, localHandle, remoteHandle, kemAlgorithm, kemKey, request, reply, CurrentSession(), secret,
                  remoteCertificate, remotePermissions)
    }

    /** Fills in what a request makes of a new handshake. */
    method BeginRequest(key: Option<SecretKey>, publicKey: OctetSeq, challenge1: OctetSeq, hash1: OctetSeq, message: P.Token)
      modifies this
      ensures Model() == old(Model()).(
                state := P.PendingHandshakeMessage, kemKey := key, request := message,
                session := old(CurrentSession()).(publicKey := publicKey, challenge1 := challenge1, hash1 := hash1))
    {
      state, kemKey, request := P.PendingHandshakeMessage, key, message;
      this.publicKey, this.challenge1, this.hash1 := publicKey, challenge1, hash1;
    }

    /** Keeps a request whose credentials were accepted, with their hash. */
    method Accept(request: P.Token, hash1: OctetSeq)
      modifies this
      ensures Model() == old(Model()).(request := request, session := old(CurrentSession()).(hash1 := hash1))
      ensures this.hash1 == hash1
    {
      this.request, this.hash1 := request, hash1;
    }

    /** Keeps the signed reply and awaits the final message. */
    method SendReply(reply: P.Token)
      modifies this
      ensures Model() == old(Model()).(reply := reply, state := P.PendingHandshakeMessage)
    {
      this.reply, state := reply, P.PendingHandshakeMessage;
    }

    /** Fills in what a reply makes of a new handshake, before it is signed. */
    method BeginReply(challenge1: OctetSeq, publicKey: OctetSeq, ciphertext: OctetSeq, secret: OctetSeq, challenge2: OctetSeq,
                      hash2: OctetSeq)
      modifies this
      ensures Model() == old(Model()).(
                session := Session(old(hash1), hash2, challenge1, challenge2, publicKey, ciphertext), secret := secret)
    {
      this.challenge1, this.publicKey, this.ciphertext, this.secret := challenge1, publicKey, ciphertext, secret;
      this.challenge2, this.hash2 := challenge2, hash2;
    }

    function CurrentSession(): Session
      reads this
    {
      Session(hash1, hash2, challenge1, challenge2, publicKey, ciphertext)
    }
  }

  /** Each handle has an object of its own, with the fields of the abstract state. */
  ghost predicate LocalsMatch(objects: map<int, LocalIdentity>, values: map<int, P.LocalIdentity>)
    reads objects.Values
  {
    objects.Keys == values.Keys && forall h :: h in objects ==> objects[h].id == h && objects[h].Model() == values[h]
  }

  ghost predicate RemotesMatch(objects: map<int, RemoteIdentity>, values: map<int, P.RemoteIdentity>)
    reads objects.Values
  {
    objects.Keys == values.Keys && forall h :: h in objects ==> objects[h].id == h && objects[h].Model() == values[h]
  }

  /** A handshake moreover shares the identities that have its handles. */
  ghost predicate HandshakesMatch(objects: map<int, Handshake>, locals: map<int, LocalIdentity>,
                                  remotes: map<int, RemoteIdentity>, values: map<int, P.Handshake>)
    reads objects.Values
  {
    && objects.Keys == values.Keys
    && (forall h :: h in objects ==> objects[h].id == h && objects[h].Model() == values[h])
    && (forall h :: h in objects ==> Shares(objects[h], locals, remotes))
  }

  ghost predicate Shares(hs: Handshake, locals: map<int, LocalIdentity>, remotes: map<int, RemoteIdentity>) {
    && hs.localHandle in locals && hs.local == locals[hs.localHandle]
    && hs.remoteHandle in remotes && hs.remote == remotes[hs.remoteHandle]
  }

  /** Changing one object is changing the value under its handle: the others match
      without it, and go on matching while it changes. */
  lemma OtherLocals(objects: map<int, LocalIdentity>, values: map<int, P.LocalIdentity>, h: int)
    requires LocalsMatch(objects, values) && h in objects
    ensures LocalsMatch(objects - {h}, values - {h}) && objects[h] !in (objects - {h}).Values && objects[h].id == h
  {
    assert (objects - {h}).Keys == (values - {h}).Keys;
    assert forall k :: k in objects - {h} ==> objects[k].id == k;
  }

  lemma LocalChanged(objects: map<int, LocalIdentity>, values: map<int, P.LocalIdentity>, h: int)
    requires h in objects && objects[h].id == h && LocalsMatch(objects - {h}, values - {h})
    ensures LocalsMatch(objects, values[h := objects[h].Model()])
  {
    var others, rest := objects - {h}, values - {h};
    assert objects.Keys == others.Keys + {h} && values[h := objects[h].Model()].Keys == rest.Keys + {h};
    assert forall k :: k in objects && k != h ==> k in others && others[k] == objects[k] && rest[k] == values[k];
  }

  lemma OtherRemotes(objects: map<int, RemoteIdentity>, values: map<int, P.RemoteIdentity>, h: int)
    requires RemotesMatch(objects, values) && h in objects
    ensures RemotesMatch(objects - {h}, values - {h}) && objects[h] !in (objects - {h}).Values && objects[h].id == h
  {
    assert (objects - {h}).Keys == (values - {h}).Keys;
    assert forall k :: k in objects - {h} ==> objects[k].id == k;
  }

  lemma RemoteChanged(objects: map<int, RemoteIdentity>, values: map<int, P.RemoteIdentity>, h: int)
    requires h in objects && objects[h].id == h && RemotesMatch(objects - {h}, values - {h})
    ensures RemotesMatch(objects, values[h := objects[h].Model()])
  {
    var others, rest := objects - {h}, values - {h};
    assert objects.Keys == others.Keys + {h} && values[h := objects[h].Model()].Keys == rest.Keys + {h};
    assert forall k :: k in objects && k != h ==> k in others && others[k] == objects[k] && rest[k] == values[k];
  }

  lemma OtherHandshakes(objects: map<int, Handshake>, locals: map<int, LocalIdentity>, remotes: map<int, RemoteIdentity>,
                        values: map<int, P.Handshake>, h: int)
    requires HandshakesMatch(objects, locals, remotes, values) && h in objects
    ensures HandshakesMatch(objects - {h}, locals, remotes, values - {h})
    ensures objects[h] !in (objects - {h}).Values && objects[h].id == h
  {
    assert (objects - {h}).Keys == (values - {h}).Keys;
    assert forall k :: k in objects - {h} ==> objects[k].id == k;
  }

  lemma HandshakeChanged(objects: map<int, Handshake>, locals: map<int, LocalIdentity>, remotes: map<int, RemoteIdentity>,
                         values: map<int, P.Handshake>, h: int)
    requires h in objects && objects[h].id == h && HandshakesMatch(objects - {h}, locals, remotes, values - {h})
    requires Shares(objects[h], locals, remotes)
    ensures HandshakesMatch(objects, locals, remotes, values[h := objects[h].Model()])
  {
    var others, rest := objects - {h}, values - {h};
    assert objects.Keys == others.Keys + {h} && values[h := objects[h].Model()].Keys == rest.Keys + {h};
    assert forall k :: k in objects && k != h ==> k in others && others[k] == objects[k] && rest[k] == values[k];
  }

  /** The object under a handle has the value under it. */
  lemma LocalAt(objects: map<int, LocalIdentity>, values: map<int, P.LocalIdentity>, h: int)
    requires LocalsMatch(objects, values) && h in objects
    ensures h in values && objects[h].Model() == values[h]
  {
  }

  lemma RemoteAt(objects: map<int, RemoteIdentity>, values: map<int, P.RemoteIdentity>, h: int)
    requires RemotesMatch(objects, values) && h in objects
    ensures h in values && objects[h].Model() == values[h]
  {
  }

  lemma HandshakeAt(objects: map<int, Handshake>, locals: map<int, LocalIdentity>, remotes: map<int, RemoteIdentity>,
                    values: map<int, P.Handshake>, h: int)
    requires HandshakesMatch(objects, locals, remotes, values) && h in objects
    ensures h in values && objects[h].Model() == values[h] && Shares(objects[h], locals, remotes)
  {
  }

  lemma LocalAdded(objects: map<int, LocalIdentity>, values: map<int, P.LocalIdentity>, h: int, x: LocalIdentity)
    requires LocalsMatch(objects, values) && x.id == h
    ensures LocalsMatch(objects[h := x], values[h := x.Model()])
  {
  }

  lemma RemoteAdded(objects: map<int, RemoteIdentity>, values: map<int, P.RemoteIdentity>, h: int, x: RemoteIdentity)
    requires RemotesMatch(objects, values) && x.id == h
    ensures RemotesMatch(objects[h := x], values[h := x.Model()])
  {
  }

  lemma HandshakeAdded(objects: map<int, Handshake>, locals: map<int, LocalIdentity>, remotes: map<int, RemoteIdentity>,
                       values: map<int, P.Handshake>, h: int, x: Handshake)
    requires HandshakesMatch(objects, locals, remotes, values) && x.id == h && Shares(x, locals, remotes)
    ensures HandshakesMatch(objects[h := x], locals, remotes, values[h := x.Model()])
  {
  }

  /** More identities do not disturb what a handshake shares. */
  lemma SharesMore(objects: map<int, Handshake>, locals: map<int, LocalIdentity>, remotes: map<int, RemoteIdentity>,
                   values: map<int, P.Handshake>, locals': map<int, LocalIdentity>, remotes': map<int, RemoteIdentity>)
    requires HandshakesMatch(objects, locals, remotes, values)
    requires forall h :: h in locals ==> h in locals' && locals'[h] == locals[h]
    requires forall h :: h in remotes ==> h in remotes' && remotes'[h] == remotes[h]
    ensures HandshakesMatch(objects, locals', remotes', values)
  {
    forall h | h in objects
      ensures Shares(objects[h], locals', remotes')
    {
      assert Shares(objects[h], locals, remotes);
    }
  }

  ghost function WithNewRemote(s: P.AuthState, r: P.RemoteIdentity): P.AuthState {
    s.(nextHandle := s.nextHandle + 1, remotes := s.remotes[s.nextHandle := r], liveRemotes := s.liveRemotes + {s.nextHandle})
  }

  lemma NewRemoteWellFormed(s: P.AuthState, r: P.RemoteIdentity)
    requires P.WellFormed(s)
    ensures P.WellFormed(WithNewRemote(s, r))
  {
  }

  lemma RemoteUpdatedWellFormed(s: P.AuthState, h: int, r: P.RemoteIdentity)
    requires P.WellFormed(s) && h in s.remotes
    ensures P.WellFormed(s.(remotes := s.remotes[h := r]))
  {
  }

  class Authentication {
    var nextHandle: int
    var locals: map<int, LocalIdentity>
    var remotes: map<int, RemoteIdentity>
    var handshakes: map<int, Handshake>

    // The abstract state, and every object ever made under the handle it got.
    ghost var model: P.AuthState
    ghost var allLocals: map<int, LocalIdentity>
    ghost var allRemotes: map<int, RemoteIdentity>
    ghost var allHandshakes: map<int, Handshake>

    /** The tables hold the live objects. */
    ghost predicate TablesMatch()
      reads this
    {
      && nextHandle == model.nextHandle
      && locals.Keys == model.liveLocals && (forall h :: h in locals ==> h in allLocals && locals[h] == allLocals[h])
      && remotes.Keys == model.liveRemotes && (forall h :: h in remotes ==> h in allRemotes && remotes[h] == allRemotes[h])
      && handshakes.Keys == model.liveHandshakes &&
         (forall h :: h in handshakes ==> h in allHandshakes && handshakes[h] == allHandshakes[h])
    }

    ghost predicate Valid()
      reads this, allLocals.Values, allRemotes.Values, allHandshakes.Values
    {
      && P.WellFormed(model) && TablesMatch()
      && LocalsMatch(allLocals, model.locals)
      && RemotesMatch(allRemotes, model.remotes)
      && HandshakesMatch(allHandshakes, allLocals, allRemotes, model.handshakes)
    }

    constructor ()
      ensures Valid() && model == P.INITIAL && allLocals == map[] && allRemotes == map[] && allHandshakes == map[]
    {
      nextHandle, locals, remotes, handshakes := 1, map[], map[], map[];
      allLocals, allRemotes, allHandshakes := map[], map[], map[];
      model := P.INITIAL;
    }

    /** The next handle is in no table. */
    lemma FreshHandle(h: int)
      requires P.WellFormed(model) && h >= model.nextHandle
      requires LocalsMatch(allLocals, model.locals) && RemotesMatch(allRemotes, model.remotes)
      requires HandshakesMatch(allHandshakes, allLocals, allRemotes, model.handshakes)
      ensures h !in allLocals && h !in allRemotes && h !in allHandshakes
    {
    }

    lemma LocalMore(x: LocalIdentity)
      requires Valid() && x.id == nextHandle
      ensures var h := nextHandle;
              && h !in allLocals
              && LocalsMatch(allLocals[h := x], model.locals[h := x.Model()])
              && HandshakesMatch(allHandshakes, allLocals[h := x], allRemotes, model.handshakes)
    {
      hide P.WellFormed, LocalsMatch, RemotesMatch, HandshakesMatch;
      FreshHandle(nextHandle);
      LocalAdded(allLocals, model.locals, nextHandle, x);
      SharesMore(allHandshakes, allLocals, allRemotes, model.handshakes, allLocals[nextHandle := x], allRemotes);
    }

    lemma RemoteMore(x: RemoteIdentity)
      requires Valid() && x.id == nextHandle
      ensures var h := nextHandle;
              && h !in allRemotes
              && RemotesMatch(allRemotes[h := x], model.remotes[h := x.Model()])
              && HandshakesMatch(allHandshakes, allLocals, allRemotes[h := x], model.handshakes)
    {
      hide P.WellFormed, LocalsMatch, RemotesMatch, HandshakesMatch;
      FreshHandle(nextHandle);
      RemoteAdded(allRemotes, model.remotes, nextHandle, x);
      SharesMore(allHandshakes, allLocals, allRemotes, model.handshakes, allLocals, allRemotes[nextHandle := x]);
    }

    method NextHandle() returns (h: int)
      modifies this`nextHandle
      ensures h == old(nextHandle) && nextHandle == h + 1
    {
      h := nextHandle;
      nextHandle := nextHandle + 1;
    }

    // ---------------------------------------------------------- local identities

    /** `validate_local_identity`. The last KEM property decides; `available` says
        whether OpenSSL, with the fallback provider, offers an algorithm. */
    method ValidateLocalIdentity(loaded: Option<P.Loaded>, settings: seq<(string, CString)>,
                                 available: CString -> bool, adjusted: Option<Guid>)
      returns (result: P.ValidationResult, handle: int)
      requires Valid()
      modifies this
      ensures Valid() && fresh(allLocals.Values - old(allLocals.Values))
      ensures allRemotes == old(allRemotes) && allHandshakes == old(allHandshakes)
      ensures var kem := SelectedKem(settings);
              var o := P.ValidateLocal(old(model), loaded, kem, available(kem), adjusted);
              model == o.state && result == o.result && handle == o.handle
    {
      hide P.IsKem, P.IsMldsa, P.WellFormed, LocalsMatch, RemotesMatch, HandshakesMatch;
      handle := P.HANDLE_NIL;
      if loaded.None? || !P.IsMldsa(loaded.value.info.signatureAlgorithm) {
        return P.ValidationFailed, handle;
      }
      var selected := SelectKem(settings);
      if !P.IsKem(selected) {
        return P.ValidationFailed, handle;
      }
      if !available(selected) {
        return P.ValidationFailed, handle;
      }
      if adjusted.None? {
        return P.ValidationFailed, handle;
      }
      var identity := new LocalIdentity(nextHandle, loaded.value, adjusted.value, selected);
      ValidateLocalWellFormed(model, loaded, selected, true, adjusted);
      handle := AddLocal(identity, P.ValidateLocal(model, loaded, selected, true, adjusted).state);
      result := P.ValidationOk;
    }

    /** Puts a local identity into its table under the next handle. */
    method AddLocal(identity: LocalIdentity, ghost after: P.AuthState) returns (h: int)
      requires Valid() && identity.id == nextHandle
      requires P.WellFormed(after)
      requires after == model.(nextHandle := nextHandle + 1, locals := model.locals[nextHandle := identity.Model()],
                               liveLocals := model.liveLocals + {nextHandle})
      modifies this
      ensures Valid() && model == after && h == old(nextHandle)
      ensures allLocals == old(allLocals)[h := identity] && allRemotes == old(allRemotes) && allHandshakes == old(allHandshakes)
    {
      hide P.WellFormed, LocalsMatch, RemotesMatch, HandshakesMatch;
      LocalMore(identity);
      h := NextHandle();
      locals := locals[h := identity];
      allLocals := allLocals[h := identity];
      model := after;
    }

    /** `set_permissions_credential_and_token`. */
    method SetPermissionsCredential(handle: int, document: Option<OctetSeq>) returns (ok: bool)
      requires Valid()
      modifies this`model, allLocals.Values
      ensures Valid()
      ensures var o := P.SetPermissions(old(model), handle, document);
              model == o.state && (ok <==> o.result == P.ValidationOk)
    {
      hide P.WellFormed, LocalsMatch, RemotesMatch, HandshakesMatch;
      if handle !in locals {
        return false;
      }
      if document.None? {
        return false;
      }
      var identity, permissions := locals[handle], document.value;
      LocalAt(allLocals, model.locals, handle);
      OtherLocals(allLocals, model.locals, handle);
      identity.permissions := permissions;
      LocalChanged(allLocals, model.locals, handle);
      SetPermissionsWellFormed(model, handle, document);
      model := P.SetPermissions(old(model), handle, document).state;
      ok := true;
    }

    // --------------------------------------------------------- remote identities

    /** Puts a new remote identity into its table under the next handle. */
    method AddRemote(identity: RemoteIdentity, ghost after: P.AuthState) returns (h: int)
      requires Valid() && identity.id == nextHandle
      requires P.WellFormed(after)
      requires after == model.(nextHandle := nextHandle + 1, remotes := model.remotes[nextHandle := identity.Model()],
                               liveRemotes := model.liveRemotes + {nextHandle})
      modifies this
      ensures Valid() && model == after && h == old(nextHandle)
      ensures allLocals == old(allLocals) && allRemotes == old(allRemotes)[h := identity] && allHandshakes == old(allHandshakes)
      ensures locals == old(locals) && remotes == old(remotes)[h := identity]
    {
      hide P.WellFormed, LocalsMatch, RemotesMatch, HandshakesMatch;
      RemoteMore(identity);
      h := NextHandle();
      remotes := remotes[h := identity];
      allRemotes := allRemotes[h := identity];
      model := after;
    }

    /** Stores an AuthRequest at a remote identity and checks it. */
    method RecordAuthRequest(identity: RemoteIdentity, request: P.Token) returns (acceptable: bool, answer: Option<P.Token>)
      modifies identity
      ensures (identity.Model(), acceptable) == P.RecordRequest(old(identity.Model()), request)
      ensures answer == if !acceptable then None
                        else if P.IsNil(request) then Some(identity.localAuthRequest) else Some(P.NIL_TOKEN)
    {
      answer := None;
      identity.remoteAuthRequest := request;
      if !P.IsNil(request) && request.classId != P.AUTH_REQUEST_CLASS_ID {
        return false, answer;
      }
      identity.remoteChallenge := P.Property(request, P.FUTURE_CHALLENGE);
      if !P.IsNil(request) && |identity.remoteChallenge| != 32 {
        return false, answer;
      }
      if P.IsNil(request) {
        identity.localAuthRequestSent := true;
        answer := Some(identity.localAuthRequest);
      } else {
        answer := Some(P.NIL_TOKEN);
      }
      acceptable := true;
    }

    /** Applies an AuthRequest to the remote identity under a handle. */
    method UpdateRemote(handle: int, request: P.Token) returns (acceptable: bool, answer: Option<P.Token>)
      requires Valid() && handle in remotes
      modifies this`model, allRemotes.Values
      ensures Valid()
      ensures var (r, ok) := P.RecordRequest(old(model.remotes[handle]), request);
              && model == old(model).(remotes := old(model.remotes)[handle := r]) && acceptable == ok
              && answer == if !ok then None else Some(if P.IsNil(request) then r.localAuthRequest else P.NIL_TOKEN)
    {
      hide P.WellFormed, LocalsMatch, RemotesMatch, HandshakesMatch, P.RecordRequest;
      var identity := remotes[handle];
      RemoteAt(allRemotes, model.remotes, handle);
      OtherRemotes(allRemotes, model.remotes, handle);
      acceptable, answer := RecordAuthRequest(identity, request);
      RemoteChanged(allRemotes, model.remotes, handle);
      RemoteUpdatedWellFormed(model, handle, identity.Model());
      model := model.(remotes := model.remotes[handle := identity.Model()]);
    }

    /** The remote identity under a handle, if it is that of the two participants; a new
        one if the handle is unknown. */
    method FindOrAddRemote(remoteHandle: int, localHandle: int, guid: Guid, nonce: Option<Nonce>) returns (found: bool, handle: int)
      requires Valid()
      modifies this
      ensures Valid() && fresh(allRemotes.Values - old(allRemotes.Values))
      ensures allLocals == old(allLocals) && allHandshakes == old(allHandshakes) && locals == old(locals)
      ensures var s := old(model);
              var known := remoteHandle != P.HANDLE_NIL && remoteHandle in s.liveRemotes;
              if known then
                && remoteHandle in s.remotes && model == s && handle == remoteHandle
                && (found <==> s.remotes[remoteHandle].localHandle == localHandle && s.remotes[remoteHandle].guid == guid)
              else
                && (found <==> nonce.Some?)
                && (if found then model == WithNewRemote(s, P.NewRemote(localHandle, guid, nonce.value)) && handle == s.nextHandle
                    else model == s)
      ensures found ==> handle in remotes && handle in model.remotes
    {
      hide P.WellFormed, LocalsMatch, RemotesMatch, HandshakesMatch;
      handle := remoteHandle;
      if remoteHandle != P.HANDLE_NIL && remoteHandle in remotes {
        var identity := remotes[remoteHandle];
        RemoteAt(allRemotes, model.remotes, remoteHandle);
        return identity.localHandle == localHandle && identity.guid == guid, handle;
      }
      if nonce.None? {
        return false, handle;
      }
      var identity := new RemoteIdentity(nextHandle, localHandle, guid, nonce.value);
      NewRemoteWellFormed(model, identity.Model());
      handle := AddRemote(identity, WithNewRemote(model, identity.Model()));
      found := true;
    }

    /** `validate_remote_identity`: a known remote identity is updated, an unknown
        one is added before the AuthRequest is checked. */
    method ValidateRemoteIdentity(remoteHandle: int, request: P.Token, localHandle: int, identityToken: P.Token, guid: Guid,
                                  nonce: Option<Nonce>)
      returns (result: P.ValidationResult, handle: int, answer: Option<P.Token>)
      requires Valid()
      modifies this, allRemotes.Values
      ensures Valid() && fresh(allRemotes.Values - old(allRemotes.Values))
      ensures allLocals == old(allLocals) && allHandshakes == old(allHandshakes)
      ensures P.Outcome(model, result, handle, answer) ==
              P.ValidateRemote(old(model), remoteHandle, request, localHandle, identityToken, guid, nonce)
    {
      hide P.WellFormed, LocalsMatch, RemotesMatch, HandshakesMatch, P.RecordRequest, RoleOf;
      result, handle, answer := P.ValidationFailed, remoteHandle, None;
      if localHandle !in locals || identityToken.classId != P.BASE_CLASS_ID {
        return;
      }
      var found, h := FindOrAddRemote(remoteHandle, localHandle, guid, nonce);
      if !found {
        return;
      }
      handle := h;
      ghost var before := model.remotes;
      var acceptable;
      acceptable, answer := UpdateRemote(handle, request);
      assert before[handle := model.remotes[handle]] == old(model.remotes)[handle := model.remotes[handle]];
      if acceptable {
        LocalAt(allLocals, model.locals, localHandle);
        result := if RoleOf(locals[localHandle].guid, guid) == SendsRequest then P.PendingHandshakeRequest
                  else P.PendingHandshakeMessage;
      }
    }

    // ---------------------------------------------------------------- handshakes

    /** Puts a handshake into its table under the next handle. */
    method AddHandshake(hs: Handshake, ghost after: P.AuthState) returns (h: int)
      requires Valid() && hs.id == nextHandle && Shares(hs, allLocals, allRemotes)
      requires P.WellFormed(after)
      requires after == P.AddHandshake(model, hs.Model()).(signed := after.signed, hashed := after.hashed)
      modifies this
      ensures Valid() && model == after && h == old(nextHandle)
      ensures allLocals == old(allLocals) && allRemotes == old(allRemotes) && allHandshakes == old(allHandshakes)[h := hs]
    {
      hide P.WellFormed, LocalsMatch, RemotesMatch, HandshakesMatch, Shares;
      FreshHandle(nextHandle);
      HandshakeAdded(allHandshakes, allLocals, allRemotes, model.handshakes, nextHandle, hs);
      h := NextHandle();
      handshakes := handshakes[h := hs];
      allHandshakes := allHandshakes[h := hs];
      model := after;
    }

    /** `begin_handshake_request`, with the KEM key and the nonce that it draws. */
    method BeginHandshakeRequest(suite: Suite, handle: int, initiatorHandle: int, replierHandle: int,
                                 participantData: OctetSeq, key: Option<SecretKey>, nonce: Option<Nonce>)
      returns (result: P.ValidationResult, handle': int, message: Option<P.Token>)
      requires Valid()
      modifies this
      ensures Valid() && fresh(allHandshakes.Values - old(allHandshakes.Values))
      ensures allLocals == old(allLocals) && allRemotes == old(allRemotes)
      ensures P.Outcome(model, result, handle', message) ==
              P.BeginRequest(suite, old(model), handle, initiatorHandle, replierHandle, participantData, key, nonce)
    {
      hide P.WellFormed, LocalsMatch, RemotesMatch, HandshakesMatch, P.RequestToken, P.HashOf;
      result, handle', message := P.ValidationFailed, handle, None;
      if handle != P.HANDLE_NIL {
        return;
      }
      if initiatorHandle !in locals || replierHandle !in remotes || participantData == [] {
        return;
      }
      LocalAt(allLocals, model.locals, initiatorHandle);
      RemoteAt(allRemotes, model.remotes, replierHandle);
      var hs := PrepareRequest(suite, nextHandle, initiatorHandle, replierHandle, locals[initiatorHandle],
                               remotes[replierHandle], participantData, key, nonce);
      if hs.None? {
        return;
      }
      BeginRequestWellFormed(suite, model, handle, initiatorHandle, replierHandle, participantData, key, nonce);
      message := Some(hs.value.request);
      handle' := AddHandshake(hs.value, P.BeginRequest(suite, model, handle, initiatorHandle, replierHandle, participantData,
                                                       key, nonce).state);
      result := P.PendingHandshakeMessage;
    }

    /** `begin_handshake_reply`. The coins, the nonce and the signing function are
        what encapsulation, the random generator and OpenSSL contribute. */
    method BeginHandshakeReply(suite: Suite, handle: int, request: P.Token, initiatorHandle: int, replierHandle: int,
                               participantData: OctetSeq, now: int, coins: Coins, nonce: Option<Nonce>, sign: Signer)
      returns (result: P.ValidationResult, handle': int, message: Option<P.Token>)
      requires Valid()
      modifies this
      ensures Valid() && fresh(allHandshakes.Values - old(allHandshakes.Values))
      ensures allLocals == old(allLocals) && allRemotes == old(allRemotes)
      ensures P.Outcome(model, result, handle', message) ==
              P.BeginReply(suite, old(model), handle, request, initiatorHandle, replierHandle, participantData, now, coins, nonce,
                           ReplySignature(suite, old(model), request, initiatorHandle, replierHandle, participantData, now,
                                          coins, nonce, sign))
    {
      hide P.WellFormed, LocalsMatch, RemotesMatch, HandshakesMatch, P.ReplyToken, P.HashOf, P.Accepts, P.TokenCredentials,
        P.ValueOf, P.OwnChallenge, Encapsulate, Encode;
      result, handle', message := P.ValidationFailed, handle, None;
      if handle != P.HANDLE_NIL {
        return;
      }
      message := Some(P.NIL_TOKEN);
      if replierHandle !in locals || initiatorHandle !in remotes || request.classId != P.REQUEST_CLASS_ID {
        return;
      }
      LocalAt(allLocals, model.locals, replierHandle);
      RemoteAt(allRemotes, model.remotes, initiatorHandle);
      ghost var signature := ReplySignature(suite, model, request, initiatorHandle, replierHandle, participantData, now, coins,
                                            nonce, sign);
      ghost var o := P.BeginReply(suite, model, handle, request, initiatorHandle, replierHandle, participantData, now, coins,
                                  nonce, signature);
      BeginReplyWellFormed(suite, model, handle, request, initiatorHandle, replierHandle, participantData, now, coins, nonce,
                           signature);
      var hs := PrepareReply(suite, nextHandle, request, initiatorHandle, replierHandle, locals[replierHandle],
                             remotes[initiatorHandle], participantData, now, coins, nonce, sign);
      if hs.None? {
        model := o.state;
        return;
      }
      message := Some(hs.value.reply);
      handle' := AddHandshake(hs.value, o.state);
      result := P.PendingHandshakeMessage;
    }

    /** `process_handshake`. */
    method ProcessHandshake(suite: Suite, input: P.Token, handle: int, now: int, sign: Signer)
      returns (result: P.ValidationResult, output: Option<P.Token>)
      requires Valid()
      modifies this`model, allHandshakes.Values
      ensures Valid()
      ensures P.Outcome(model, result, handle, output) ==
              P.Process(suite, old(model), input, handle, now, FinalSignature(suite, old(model), input, handle, now, sign))
    {
      hide P.WellFormed, LocalsMatch, RemotesMatch, HandshakesMatch, P.HashOf, P.Accepts, P.TokenCredentials,
        P.ValueOf, P.Process, FinalSignature, Shares, HandshakeEvolves;
      UnusableHandshake(suite, model, input, handle, now, FinalSignature(suite, model, input, handle, now, sign));
      result, output := P.ValidationFailed, None;
      if handle !in handshakes {
        return;
      }
      var hs := handshakes[handle];
      HandshakeAt(allHandshakes, allLocals, allRemotes, model.handshakes, handle);
      SharedModels(hs, handle);
      output := Some(P.NIL_TOKEN);
      if hs.state != P.PendingHandshakeMessage {
        return;
      }
      ghost var signature := FinalSignature(suite, model, input, handle, now, sign);
      ProcessWellFormed(suite, model, input, handle, now, signature);
      ProcessChanges(suite, model, input, handle, now, signature);
      OtherHandshakes(allHandshakes, allLocals, allRemotes, model.handshakes, handle);
      output := Conclude(suite, hs, input, now, sign, model, handle);
      result := hs.state;
      HandshakeChanged(allHandshakes, allLocals, allRemotes, model.handshakes, handle);
      model := P.Process(suite, model, input, handle, now, signature).state;
    }

    lemma SharedModels(hs: Handshake, h: int)
      requires Valid() && h in allHandshakes && hs == allHandshakes[h]
      ensures hs.localHandle in model.locals && model.locals[hs.localHandle] == hs.local.Model()
      ensures hs.remoteHandle in model.remotes && model.remotes[hs.remoteHandle] == hs.remote.Model()
    {
      hide P.WellFormed, HandshakesMatch;
      HandshakeAt(allHandshakes, allLocals, allRemotes, model.handshakes, h);
    }

    // ------------------------------------------------------- results and returns

    /** `get_shared_secret`. */
    method GetSharedSecret(handle: int) returns (secret: Option<P.SharedSecret>)
      requires Valid()
      ensures secret == P.GetSharedSecret(model, handle)
    {
      hide P.WellFormed, LocalsMatch, RemotesMatch, HandshakesMatch, Shares;
      if handle !in handshakes {
        return None;
      }
      var hs := handshakes[handle];
      HandshakeAt(allHandshakes, allLocals, allRemotes, model.handshakes, handle);
      if hs.state != P.ValidationOk && hs.state != P.OkFinalMessage {
        return None;
      }
      return Some(P.SharedSecret(hs.challenge1, hs.challenge2, hs.secret));
    }

    /** `get_authenticated_peer_credential_token`: the certificate and the permissions. */
    method GetAuthenticatedPeerCredentials(handle: int) returns (credentials: Option<(OctetSeq, OctetSeq)>)
      requires Valid()
      ensures credentials == P.GetPeerCredentials(model, handle)
    {
      hide P.WellFormed, LocalsMatch, RemotesMatch, HandshakesMatch, Shares;
      if handle !in handshakes {
        return None;
      }
      var hs := handshakes[handle];
      HandshakeAt(allHandshakes, allLocals, allRemotes, model.handshakes, handle);
      if hs.remoteCertificate.None? || (hs.state != P.ValidationOk && hs.state != P.OkFinalMessage) {
        return None;
      }
      return Some((hs.remoteCertificate.value, hs.remotePermissions));
    }

    /** `return_handshake_handle`. */
    method ReturnHandshakeHandle(handle: int) returns (ok: bool)
      requires Valid()
      modifies this`model, this`handshakes
      ensures Valid()
      ensures var o := P.ReturnHandshake(old(model), handle); model == o.state && (ok <==> o.result == P.ValidationOk)
    {
      hide P.WellFormed, LocalsMatch, RemotesMatch, HandshakesMatch;
      ok := handle in handshakes;
      ReturnsWellFormed(model, handle);
      handshakes := handshakes - {handle};
      model := P.ReturnHandshake(model, handle).state;
    }

    /** `return_identity_handle`. */
    method ReturnIdentityHandle(handle: int) returns (ok: bool)
      requires Valid()
      modifies this`model, this`locals, this`remotes
      ensures Valid()
      ensures var o := P.ReturnIdentity(old(model), handle); model == o.state && (ok <==> o.result == P.ValidationOk)
    {
      hide P.WellFormed, LocalsMatch, RemotesMatch, HandshakesMatch;
      ReturnsWellFormed(model, handle);
      ok := true;
      if handle in locals {
        locals := locals - {handle};
      } else if handle in remotes {
        remotes := remotes - {handle};
      } else {
        ok := false;
      }
      model := P.ReturnIdentity(model, handle).state;
    }
  }

  /** The last property of that name decides which KEM is used. */
  method SelectKem(settings: seq<(string, CString)>) returns (selected: CString)
    ensures selected == SelectedKem(settings)
  {
    selected := P.DEFAULT_KEM;
    for i := 0 to |settings|
      invariant selected == SelectedKem(settings[..i])
    {
      assert settings[..i + 1][..i] == settings[..i];
      if settings[i].0 == KEM_PROPERTY {
        selected := settings[i].1;
      }
    }
    assert settings[..|settings|] == settings;
  }

  const KEM_PROPERTY := "pqsec-dds.kem"

  function SelectedKem(settings: seq<(string, CString)>): CString {
    if settings == [] then P.DEFAULT_KEM
    else if settings[|settings| - 1].0 == KEM_PROPERTY then settings[|settings| - 1].1
    else SelectedKem(settings[..|settings| - 1])
  }

  /** The last KEM property of a participant counts; without any, the default. */
  lemma {:induction false} LastSettingCounts(settings: seq<(string, CString)>, i: nat)
    requires i <= |settings| && forall k :: i <= k < |settings| ==> settings[k].0 != "pqsec-dds.kem"
    ensures i > 0 && settings[i - 1].0 == "pqsec-dds.kem" ==> SelectedKem(settings) == settings[i - 1].1
    ensures i == 0 ==> SelectedKem(settings) == "X25519MLKEM768"
  {
    if i < |settings| {
      LastSettingCounts(settings[..|settings| - 1], i);
    }
  }

  // ------------------------------------------------------ hashing and the tokens

  /** `credential_hash`. */
  method HashCredentials(suite: Suite, c: Credentials) returns (hash: Option<OctetSeq>)
    ensures hash == P.HashOf(suite, c)
  {
    hide Serialize, Properties;
    var properties := Transcript.CredentialProperties(c);
    hash := suite.hash(Serialize(properties.elements));
  }

  method WriteCredentials(c: Credentials) returns (writer: PropertyList)
    ensures fresh(writer) && writer.elements == P.CredentialProperties(c)
  {
    writer := new PropertyList();
    writer.Append(C_ID, c.certificate);
    writer.Append(C_PERM, c.permissions);
    writer.Append(C_PDATA, c.participantData);
    writer.AppendText(C_DSIGN_ALGO, c.signatureAlgorithm);
    writer.AppendText(C_KAGREE_ALGO, c.kemAlgorithm);
  }

  method WriteRequest(c: Credentials, publicKey: OctetSeq, challenge1: OctetSeq) returns (token: P.Token)
    ensures token == P.RequestToken(c, publicKey, challenge1)
  {
    hide P.CredentialProperties;
    var writer := WriteCredentials(c);
    writer.Append(KEM_PUBLIC, publicKey);
    writer.Append(CHALLENGE1, challenge1);
    token := P.Token(P.REQUEST_CLASS_ID, writer.elements);
  }

  method WriteReply(c: Credentials, ciphertext: OctetSeq, challenge1: OctetSeq, challenge2: OctetSeq, signature: OctetSeq)
    returns (token: P.Token)
    ensures token == P.ReplyToken(c, ciphertext, challenge1, challenge2, signature)
  {
    hide P.CredentialProperties;
    var writer := WriteCredentials(c);
    writer.Append(KEM_CIPHERTEXT, ciphertext);
    writer.Append(CHALLENGE1, challenge1);
    writer.Append(CHALLENGE2, challenge2);
    writer.Append(P.SIGNATURE, signature);
    token := P.Token(P.REPLY_CLASS_ID, writer.elements);
  }

  /** `participant_data_has_guid`: the first GUID parameter decides. */
  method DataHasGuid(suite: Suite, data: OctetSeq, expected: Guid) returns (has: bool)
    ensures has <==> ParticipantDataHasGuid(suite, data, expected)
  {
    var parsed := suite.parseParameters(data);
    if parsed.None? {
      return false;
    }
    var parameters := parsed.value;
    for i := 0 to |parameters|
      invariant FirstGuidIs(parameters, expected) == FirstGuidIs(parameters[i..], expected)
    {
      if parameters[i].ParticipantGuid? {
        return parameters[i].guid == expected;
      }
    }
    return false;
  }

  // ----------------------------------------------------------------- handshakes

  /** The challenge announced in an AuthRequest, else a fresh nonce. */
  method ChooseChallenge(remote: RemoteIdentity, nonce: Option<Nonce>) returns (challenge: Option<OctetSeq>)
    ensures challenge == P.OwnChallenge(remote.Model(), nonce)
  {
    if remote.localAuthRequestSent {
      return Some(remote.localChallenge);
    }
    if nonce.None? {
      return None;
    }
    return Some(nonce.value);
  }

  /** The handshake that `begin_handshake_request` makes: none if a library call fails. */
  method PrepareRequest(suite: Suite, ghost id: int, initiatorHandle: int, replierHandle: int, identity: LocalIdentity,
                        remote: RemoteIdentity, participantData: OctetSeq, key: Option<SecretKey>, nonce: Option<Nonce>)
    returns (made: Option<Handshake>)
    ensures var c := P.OwnCredentials(identity.Model(), participantData);
            var challenge := P.OwnChallenge(remote.Model(), nonce);
            var hash := P.HashOf(suite, c);
            && (made.Some? <==> key.Some? && challenge.Some? && hash.Some?)
            && (made.Some? ==>
                  && fresh(made.value) && made.value.id == id && made.value.local == identity && made.value.remote == remote
                  && var publicKey := suite.kemPublic(identity.kemAlgorithm, key.value);
                     made.value.Model() == P.NewHandshake(true, initiatorHandle, replierHandle, identity.kemAlgorithm).(
                       state := P.PendingHandshakeMessage,
                       kemKey := key,
                       request := P.RequestToken(c, publicKey, challenge.value),
                       session := Session(hash.value, [], challenge.value, [], publicKey, [])))
  {
    hide P.RequestToken, P.HashOf, P.OwnChallenge;
    made := None;
    if key.None? {
      return;
    }
    var publicKey := suite.kemPublic(identity.kemAlgorithm, key.value);
    var challenge := ChooseChallenge(remote, nonce);
    if challenge.None? {
      return;
    }
    var credentials := Credentials(identity.certificate, identity.permissions, participantData, identity.signatureAlgorithm,
                                   identity.kemAlgorithm);
    var hash := HashCredentials(suite, credentials);
    if hash.None? {
      return;
    }
    var message := WriteRequest(credentials, publicKey, challenge.value);
    var hs := new Handshake(id, true, initiatorHandle, replierHandle, identity, remote);
    hs.BeginRequest(key, publicKey, challenge.value, hash.value, message);
    made := Some(hs);
  }

  /** `validate_remote_credentials`: the certificate and the permissions are stored
      only when every check passed. */
  method ValidateRemoteCredentials(suite: Suite, hs: Handshake, token: P.Token, now: int) returns (hash: Option<OctetSeq>)
    modifies hs`remoteCertificate, hs`remotePermissions
    ensures hash.Some? <==> P.Accepts(suite, hs.local.Model(), hs.remote.guid, token, now)
    ensures var c := P.TokenCredentials(token);
            && (hash.Some? ==> hash == P.HashOf(suite, c))
            && hs.remoteCertificate == (if hash.Some? then Some(c.certificate) else old(hs.remoteCertificate))
            && hs.remotePermissions == (if hash.Some? then c.permissions else old(hs.remotePermissions))
  {
    hide P.HashOf, P.IsMldsa, P.ValueOf, StringValue;
    var c := P.TokenCredentials(token);
    if !P.IsMldsa(c.signatureAlgorithm) || c.kemAlgorithm != hs.local.kemAlgorithm {
      return None;
    }
    var certificate := suite.parseCertificate(c.certificate);
    if certificate.None? || !suite.certificateValid(hs.local.ca, c.certificate, now) {
      return None;
    }
    if certificate.value.signatureAlgorithm != c.signatureAlgorithm {
      return None;
    }
    var matches := CertificateMatchesGuid(certificate.value.subjectDigest, hs.remote.guid);
    if !matches {
      return None;
    }
    var has := DataHasGuid(suite, c.participantData, hs.remote.guid);
    if !has {
      return None;
    }
    hash := HashCredentials(suite, c);
    if hash.Some? {
      hs.remoteCertificate, hs.remotePermissions := Some(c.certificate), c.permissions;
    }
  }

  /** The session that a reply is about, if nothing that precedes its signature fails. */
  ghost function ReplySession(suite: Suite, l: P.LocalIdentity, r: P.RemoteIdentity, request: P.Token,
                              participantData: OctetSeq, now: int, coins: Coins, nonce: Option<Nonce>): Option<Session>
  {
    var challenge1, publicKey := P.Property(request, CHALLENGE1), P.Property(request, KEM_PUBLIC);
    var sent := Encapsulate(suite, l.kemAlgorithm, publicKey, coins);
    var challenge2 := P.OwnChallenge(r, nonce);
    var hash2 := P.HashOf(suite, P.OwnCredentials(l, participantData));
    if || !P.Accepts(suite, l, r.guid, request, now)
       || |challenge1| != 32 || (r.remoteChallenge != [] && challenge1 != r.remoteChallenge)
       || sent.None? || challenge2.None? || hash2.None?
    then None
    else Some(Session(P.HashOf(suite, P.TokenCredentials(request)).value, hash2.value, challenge1, challenge2.value,
                      publicKey, sent.value.0))
  }

  type Signer = seq<byte> -> Option<OctetSeq>

  ghost function SignatureOf(sign: Signer, session: Option<Session>): Option<OctetSeq> {
    if session.None? then None else sign(Encode(Reply(session.value)))
  }

  method SignReply(sign: Signer, session: Session) returns (signature: Option<OctetSeq>)
    ensures signature == sign(Encode(Reply(session)))
  {
    hide Serialize, Properties;
    var transcript := ReplyTranscript(session);
    signature := sign(Serialize(transcript.elements));
  }

  method SignFinal(sign: Signer, session: Session) returns (signature: Option<OctetSeq>)
    ensures signature == sign(Encode(Final(session)))
  {
    hide Serialize, Properties;
    var transcript := FinalTranscript(session);
    signature := sign(Serialize(transcript.elements));
  }

  /** Fills in the session of a reply, after the request's credentials were accepted. */
  method AnswerRequest(suite: Suite, hs: Handshake, request: P.Token, own: Credentials, coins: Coins, nonce: Option<Nonce>)
    returns (ready: bool)
    modifies hs
    ensures var challenge1, publicKey := P.Property(request, CHALLENGE1), P.Property(request, KEM_PUBLIC);
            var sent := Encapsulate(suite, hs.local.kemAlgorithm, publicKey, coins);
            var challenge2 := P.OwnChallenge(hs.remote.Model(), nonce);
            var hash2 := P.HashOf(suite, own);
            && (ready <==>
                  && |challenge1| == 32 && (hs.remote.remoteChallenge == [] || challenge1 == hs.remote.remoteChallenge)
                  && sent.Some? && challenge2.Some? && hash2.Some?)
            && (ready ==> hs.Model() == old(hs.Model()).(
                            session := Session(old(hs.hash1), hash2.value, challenge1, challenge2.value, publicKey, sent.value.0),
                            secret := sent.value.1))
  {
    hide P.HashOf, P.OwnChallenge, P.ValueOf, Encapsulate;
    var challenge1, publicKey := P.Property(request, CHALLENGE1), P.Property(request, KEM_PUBLIC);
    if |challenge1| != 32 || (hs.remote.remoteChallenge != [] && challenge1 != hs.remote.remoteChallenge) {
      return false;
    }
    var sent := Encapsulate(suite, hs.local.kemAlgorithm, publicKey, coins);
    if sent.None? {
      return false;
    }
    var challenge2 := ChooseChallenge(hs.remote, nonce);
    if challenge2.None? {
      return false;
    }
    var hash2 := HashCredentials(suite, own);
    if hash2.None? {
      return false;
    }
    hs.BeginReply(challenge1, publicKey, sent.value.0, sent.value.1, challenge2.value, hash2.value);
    ready := true;
  }

  /** What signing the reply gives, if it comes to that. */
  ghost function ReplySignature(suite: Suite, s: P.AuthState, request: P.Token, initiatorHandle: int, replierHandle: int,
                                participantData: OctetSeq, now: int, coins: Coins, nonce: Option<Nonce>, sign: Signer)
    : Option<OctetSeq>
    requires P.WellFormed(s)
  {
    if replierHandle !in s.liveLocals || initiatorHandle !in s.liveRemotes then None
    else SignatureOf(sign, ReplySession(suite, s.locals[replierHandle], s.remotes[initiatorHandle], request, participantData,
                                        now, coins, nonce))
  }

  /** The handshake that `begin_handshake_reply` makes: none if a check or a library call fails. */
  method PrepareReply(suite: Suite, ghost id: int, request: P.Token, initiatorHandle: int, replierHandle: int,
                      identity: LocalIdentity, remote: RemoteIdentity, participantData: OctetSeq, now: int, coins: Coins,
                      nonce: Option<Nonce>, sign: Signer)
    returns (made: Option<Handshake>)
    ensures var c1 := P.TokenCredentials(request);
            var c2 := P.OwnCredentials(identity.Model(), participantData);
            var session := ReplySession(suite, identity.Model(), remote.Model(), request, participantData, now, coins, nonce);
            var signature := SignatureOf(sign, session);
            && (made.Some? <==> session.Some? && signature.Some?)
            && (made.Some? ==>
                  && fresh(made.value) && made.value.id == id && made.value.local == identity && made.value.remote == remote
                  && var sent := Encapsulate(suite, identity.kemAlgorithm, session.value.publicKey, coins);
                     made.value.Model() == P.NewHandshake(false, replierHandle, initiatorHandle, identity.kemAlgorithm).(
                       state := P.PendingHandshakeMessage,
                       request := request,
                       reply := P.ReplyToken(c2, sent.value.0, session.value.challenge1, session.value.challenge2, signature.value),
                       session := session.value,
                       secret := sent.value.1,
                       remoteCertificate := Some(c1.certificate),
                       remotePermissions := c1.permissions))
  {
    hide P.ReplyToken, P.HashOf, P.OwnChallenge, P.Accepts, P.TokenCredentials, P.ValueOf, Encapsulate, Encode;
    made := None;
    var hs := new Handshake(id, false, replierHandle, initiatorHandle, identity, remote);
    var hash1 := ValidateRemoteCredentials(suite, hs, request, now);
    if hash1.None? {
      return;
    }
    hs.Accept(request, hash1.value);
    var credentials := Credentials(identity.certificate, identity.permissions, participantData, identity.signatureAlgorithm,
                                   identity.kemAlgorithm);
    var ready := AnswerRequest(suite, hs, request, credentials, coins, nonce);
    if !ready {
      return;
    }
    var signature := SignReply(sign, hs.CurrentSession());
    if signature.None? {
      return;
    }
    var message := WriteReply(credentials, hs.ciphertext, hs.challenge1, hs.challenge2, signature.value);
    hs.SendReply(message);
    made := Some(hs);
  }

  /** What signing the final message gives, if it comes to that. */
  ghost function FinalSignature(suite: Suite, s: P.AuthState, input: P.Token, handle: int, now: int, sign: Signer)
    : Option<OctetSeq>
    requires P.WellFormed(s)
  {
    if handle !in s.liveHandshakes then None else
      var hs := s.handshakes[handle];
      if !P.Accepts(suite, s.locals[hs.localHandle], s.remotes[hs.remoteHandle].guid, input, now) then None
      else sign(Encode(Final(P.Replied(suite, hs, input).session)))
  }

  method VerifySignature(suite: Suite, certificate: OctetSeq, properties: PropertyList, signature: OctetSeq) returns (ok: bool)
    requires |properties.elements| < 0x1_0000_0000
    ensures ok <==> var parsed := suite.parseCertificate(certificate);
                    parsed.Some? && suite.verify(parsed.value.key, Serialize(properties.elements), signature)
  {
    hide Serialize;
    var parsed := suite.parseCertificate(certificate);
    if parsed.None? {
      return false;
    }
    return suite.verify(parsed.value.key, Serialize(properties.elements), signature);
  }

  /** The replier's end: only the expected final signature completes the handshake. */
  method ConcludeAsReplier(suite: Suite, hs: Handshake, input: P.Token)
    modifies hs`state
    ensures hs.state ==
      if && !hs.initiator && input.classId == P.FINAL_CLASS_ID && hs.remoteCertificate.Some?
         && P.Verifies(suite, hs.remoteCertificate.value, Final(hs.CurrentSession()), P.Property(input, P.SIGNATURE))
      then P.ValidationOk else P.ValidationFailed
  {
    hide P.ValueOf, Properties, Serialize;
    if !hs.initiator && input.classId == P.FINAL_CLASS_ID {
      var transcript := FinalTranscript(hs.CurrentSession());
      if hs.remoteCertificate.None? {
        hs.state := P.ValidationFailed;
        return;
      }
      var ok := VerifySignature(suite, hs.remoteCertificate.value, transcript, P.Property(input, P.SIGNATURE));
      hs.state := if ok then P.ValidationOk else P.ValidationFailed;
      return;
    }
    hs.state := P.ValidationFailed;
  }

  lemma UnusableHandshake(suite: Suite, s: P.AuthState, input: P.Token, h: int, now: int, signature: Option<OctetSeq>)
    requires P.WellFormed(s)
    ensures var o := P.Process(suite, s, input, h, now, signature);
      && (h !in s.liveHandshakes ==> o == P.Outcome(s, P.ValidationFailed, h, None))
      && (h in s.liveHandshakes && s.handshakes[h].state != P.PendingHandshakeMessage ==>
            o == P.Outcome(s, P.ValidationFailed, h, Some(P.NIL_TOKEN)))
  {
    hide P.ProcessReply;
  }

  lemma ProcessChanges(suite: Suite, s: P.AuthState, input: P.Token, h: int, now: int, signature: Option<OctetSeq>)
    requires P.WellFormed(s) && h in s.liveHandshakes && s.handshakes[h].state == P.PendingHandshakeMessage
    ensures ChangesOnly(s, P.Process(suite, s, input, h, now, signature).state, h)
  {
    hide P.ProcessReply, P.ValueOf, P.Verifies;
    if s.handshakes[h].initiator && input.classId == P.REPLY_CLASS_ID {
      ProcessReplyChanges(suite, s, input, h, now, signature);
    }
  }

  /** A message for a handshake `h` of the state `s` that awaits one. */
  method Conclude(suite: Suite, hs: Handshake, input: P.Token, now: int, sign: Signer, ghost s: P.AuthState, ghost h: int)
    returns (output: Option<P.Token>)
    requires P.WellFormed(s) && h in s.liveHandshakes && s.handshakes[h] == hs.Model()
    requires hs.state == P.PendingHandshakeMessage && hs.localHandle in s.locals && hs.remoteHandle in s.remotes
    requires s.locals[hs.localHandle] == hs.local.Model() && s.remotes[hs.remoteHandle] == hs.remote.Model()
    modifies hs
    ensures var o := P.Process(suite, s, input, h, now, FinalSignature(suite, s, input, h, now, sign));
            hs.Model() == o.state.handshakes[h] && o == P.Outcome(o.state, hs.state, h, output)
  {
    hide P.WellFormed, P.ProcessReply, P.ValueOf, P.Verifies, FinalSignature;
    LiveHandshake(s, h);
    if hs.initiator && input.classId == P.REPLY_CLASS_ID {
      output := ConcludeAsInitiator(suite, hs, input, now, sign, s, h,
                                    P.ProcessReply(suite, s, input, h, now, FinalSignature(suite, s, input, h, now, sign)));
    } else {
      output := Some(P.NIL_TOKEN);
      ConcludeAsReplier(suite, hs, input);
    }
  }

  lemma LiveHandshake(s: P.AuthState, h: int)
    requires P.WellFormed(s) && h in s.liveHandshakes
    ensures h in s.handshakes && s.handshakes[h].localHandle in s.locals && s.handshakes[h].remoteHandle in s.remotes
  {
  }

  /** What a handshake holds after a reply, for each way in which it can end. */
  lemma ReplyOutcome(suite: Suite, s: P.AuthState, input: P.Token, h: int, now: int, signature: Option<OctetSeq>)
    requires h in s.handshakes && s.handshakes[h].localHandle in s.locals && s.handshakes[h].remoteHandle in s.remotes
    ensures var o := P.ProcessReply(suite, s, input, h, now, signature);
            var hs := s.handshakes[h];
            var l, r := s.locals[hs.localHandle], s.remotes[hs.remoteHandle];
            h in o.state.handshakes &&
            if !P.Accepts(suite, l, r.guid, input, now) then
              o.state.handshakes[h] == hs.(state := P.ValidationFailed) && o == P.Outcome(o.state, P.ValidationFailed, h, Some(P.NIL_TOKEN))
            else
              var replied := P.Replied(suite, hs, input);
              var secret := Decapsulate(suite, hs.kemAlgorithm, hs.kemKey, replied.session.ciphertext);
              if || !P.ChallengesMatch(r, replied, input)
                 || !P.Verifies(suite, replied.remoteCertificate.value, Reply(replied.session), P.Property(input, P.SIGNATURE))
              then
                && o.state.handshakes[h] == replied.(state := P.ValidationFailed)
                && o == P.Outcome(o.state, P.ValidationFailed, h, Some(P.NIL_TOKEN))
              else if secret.None? then
                && o.state.handshakes[h] == replied.(kemKey := None, state := P.ValidationFailed)
                && o == P.Outcome(o.state, P.ValidationFailed, h, Some(P.NIL_TOKEN))
              else if signature.None? then
                && o.state.handshakes[h] == replied.(kemKey := None, secret := secret.value, state := P.ValidationFailed)
                && o == P.Outcome(o.state, P.ValidationFailed, h, Some(P.NIL_TOKEN))
              else
                && o.state.handshakes[h] ==
                   replied.(kemKey := None, secret := secret.value, reply := input, state := P.OkFinalMessage)
                && o == P.Outcome(o.state, P.OkFinalMessage, h, Some(P.FinalToken(signature.value)))
  {
    hide P.HashOf, P.Accepts, P.TokenCredentials, P.ValueOf, P.Verifies, P.ChallengesMatch, Encode, Decapsulate;
  }

  /** The initiator's end, for a handshake `h` of the state `s`. */
  method ConcludeAsInitiator(suite: Suite, hs: Handshake, input: P.Token, now: int, sign: Signer, ghost s: P.AuthState,
                             ghost h: int, ghost o: P.Outcome)
    returns (output: Option<P.Token>)
    requires P.WellFormed(s) && h in s.liveHandshakes && s.handshakes[h] == hs.Model()
    requires s.locals[hs.localHandle] == hs.local.Model() && s.remotes[hs.remoteHandle] == hs.remote.Model()
    requires o == P.ProcessReply(suite, s, input, h, now, FinalSignature(suite, s, input, h, now, sign))
    modifies hs
    ensures h in o.state.handshakes && hs.Model() == o.state.handshakes[h] && o == P.Outcome(o.state, hs.state, h, output)
  {
    hide P.WellFormed, P.HashOf, P.Accepts, P.TokenCredentials, P.ValueOf, P.Verifies, P.ChallengesMatch, P.ProcessReply, P.Replied,
      Encode, Decapsulate;
    LiveHandshake(s, h);
    ReplyOutcome(suite, s, input, h, now, FinalSignature(suite, s, input, h, now, sign));
    output := Some(P.NIL_TOKEN);
    var ok := AcceptReply(suite, hs, input, now);
    if ok {
      output := FinishAsInitiator(suite, hs, input, sign);
    } else {
      hs.state := P.ValidationFailed;
    }
  }

  /** Takes the peer's credentials, challenge and ciphertext from a reply, and checks them. */
  method AcceptReply(suite: Suite, hs: Handshake, input: P.Token, now: int) returns (ok: bool)
    modifies hs`remoteCertificate, hs`remotePermissions, hs`hash2, hs`challenge2, hs`ciphertext
    ensures var before := old(hs.Model());
            if !P.Accepts(suite, hs.local.Model(), hs.remote.guid, input, now) then !ok && hs.Model() == before
            else
              && hs.Model() == P.Replied(suite, before, input) && hs.remoteCertificate.Some?
              && (ok <==> P.ChallengesMatch(hs.remote.Model(), hs.Model(), input) &&
                          P.Verifies(suite, hs.remoteCertificate.value, Reply(hs.CurrentSession()), P.Property(input, P.SIGNATURE)))
  {
    hide P.HashOf, P.TokenCredentials, P.ValueOf, P.Verifies, P.ChallengesMatch, Encode;
    var hash := ValidateRemoteCredentials(suite, hs, input, now);
    ok := hash.Some?;
    if ok {
      hs.hash2 := hash.value;
      ok := CheckReply(suite, hs, input);
    }
  }

  /** The initiator's end once the reply has verified: the key is used once and
      cleared, then the final message is signed. */
  method FinishAsInitiator(suite: Suite, hs: Handshake, input: P.Token, sign: Signer) returns (output: Option<P.Token>)
    modifies hs
    ensures var before := old(hs.Model());
            var secret := Decapsulate(suite, before.kemAlgorithm, before.kemKey, before.session.ciphertext);
            var signature := sign(Encode(Final(before.session)));
            var cleared := before.(kemKey := None);
            if secret.None? then
              hs.Model() == cleared.(state := P.ValidationFailed) && output == Some(P.NIL_TOKEN)
            else if signature.None? then
              hs.Model() == cleared.(secret := secret.value, state := P.ValidationFailed) && output == Some(P.NIL_TOKEN)
            else
              && hs.Model() == cleared.(secret := secret.value, reply := input, state := P.OkFinalMessage)
              && output == Some(P.FinalToken(signature.value))
  {
    hide Encode, Decapsulate;
    output := Some(P.NIL_TOKEN);
    var secret := Decapsulate(suite, hs.kemAlgorithm, hs.kemKey, hs.ciphertext);
    hs.kemKey := None;
    if secret.None? {
      hs.state := P.ValidationFailed;
      return;
    }
    hs.secret := secret.value;
    var signature := SignFinal(sign, hs.CurrentSession());
    if signature.None? {
      hs.state := P.ValidationFailed;
      return;
    }
    output := Some(P.FinalToken(signature.value));
    hs.reply := input;
    hs.state := P.OkFinalMessage;
  }

  /** Takes the challenge and the ciphertext of a reply, then checks the challenges and the signature. */
  method CheckReply(suite: Suite, hs: Handshake, input: P.Token) returns (ok: bool)
    requires hs.remoteCertificate.Some?
    modifies hs`challenge2, hs`ciphertext
    ensures hs.challenge2 == P.Property(input, CHALLENGE2) && hs.ciphertext == P.Property(input, KEM_CIPHERTEXT)
    ensures ok <==> P.ChallengesMatch(hs.remote.Model(), hs.Model(), input) &&
                    P.Verifies(suite, hs.remoteCertificate.value, Reply(hs.CurrentSession()), P.Property(input, P.SIGNATURE))
  {
    hide P.ValueOf, Properties, Serialize;
    hs.challenge2, hs.ciphertext := P.Property(input, CHALLENGE2), P.Property(input, KEM_CIPHERTEXT);
    if |hs.challenge2| != 32 || P.Property(input, CHALLENGE1) != hs.challenge1 {
      return false;
    }
    if hs.remote.remoteChallenge != [] && hs.challenge2 != hs.remote.remoteChallenge {
      return false;
    }
    var transcript := ReplyTranscript(hs.CurrentSession());
    ok := VerifySignature(suite, hs.remoteCertificate.value, transcript, P.Property(input, P.SIGNATURE));
  }
}
