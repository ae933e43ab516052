/** The CycloneDDS authentication plugin as functions on its registry: one per call
    of the Authentication SPI, with every exit of the source. The class
    `Registry.Authentication` implements them on heap objects. */
module PqState {
  import opened Octets
  import opened Guids
  import opened Transcript
  import opened Algorithms
  import opened PqHandshake
  import Expiry
  import P = Protocol

  /** The registered objects under their handles, relations under (remote, local);
      the index of remote GUIDs; the dispatcher's pending events with the identity
      that each names; the trusted CA list. `authorities` is history: every CA that
      was ever configured. */
  datatype State = State(
    locals: map<int, Local>,
    remotes: map<int, Remote>,
    relations: map<(int, int), Relation>,
    handshakes: map<int, Handshake>,
    guids: map<Guid, int>,
    pending: map<nat, int>,
    trusted: seq<Authority>,
    authorities: set<Authority>)

  const INITIAL := State(map[], map[], map[], map[], map[], map[], [], {})

  function Handles(s: State): set<int> {
    s.locals.Keys + s.remotes.Keys + s.handshakes.Keys
  }

  /** An address that the allocator can return, and an event that the dispatcher can. */
  predicate Fresh(s: State, handle: int) {
    handle != 0 && handle !in Handles(s)
  }

  predicate FreshEvent(s: State, event: nat) {
    event != 0 && event !in s.pending
  }

  datatype Step = Step(state: State, result: Result, handle: int, message: Option<Token>)

  // ---------------------------------------------------------- local identities

  datatype Directory = NoDirectory | Unreadable | Loaded(authorities: seq<Authority>)

  datatype CrlInput = NoCrl | BadCrl | GoodCrl(crl: Crl)

  /** What the participant's properties and the loaders give. `certified` is the
      verdict of `verify_certificate` on certificate, CA and CRL. */
  datatype LocalInput = LocalInput(
    complete: bool,
    directory: Directory,
    ca: Option<Authority>,
    crl: CrlInput,
    certificate: Option<Certificate>,
    privateKey: Option<OctetSeq>,
    keyMatches: bool,
    certified: bool,
    expiry: Expiry.int64,
    guid: Option<Guid>)

  /** The CA is listed in the trusted directory, if there is one. */
  predicate CaTrusted(lib: Library, trusted: seq<Authority>, ca: Authority, crl: CrlInput) {
    trusted == [] ||
    (crl.NoCrl? && exists i :: 0 <= i < |trusted| && lib.sameFingerprint(trusted[i], ca))
  }

  /** `validate_local_identity`: a readable directory replaces the trusted list even
      if a later check fails. */
  function ValidateLocal(lib: Library, config: Config, s: State, input: LocalInput, handle: int, event: nat): Step {
    if !input.complete || input.directory.Unreadable? then Step(s, Failed, 0, None) else
      var s1 := if input.directory.NoDirectory? then s
                else s.(trusted := input.directory.authorities,
                        authorities := s.authorities + (set a | a in input.directory.authorities));
      if || input.ca.None? || !CaTrusted(lib, s1.trusted, input.ca.value, input.crl)
         || input.certificate.None? || input.privateKey.None? || !input.keyMatches
         || input.crl.BadCrl? || !input.certified
         || input.expiry == Expiry.DDS_TIME_INVALID || input.guid.None?
      then Step(s1, Failed, 0, None)
      else
        var timed := input.expiry != Expiry.DDS_NEVER;
        var crl := if input.crl.GoodCrl? then Some(input.crl.crl) else None;
        var local := Local(input.guid.value, input.certificate.value, input.ca.value, crl, input.privateKey.value, config.kem, [],
                           "", if timed then event else 0);
        Step(s1.(locals := s1.locals[handle := local],
                 pending := if timed then s1.pending[event := handle] else s1.pending,
                 authorities := s1.authorities + {input.ca.value}),
             Ok, handle, None)
  }

  /** `set_permissions_credential_and_token`; a malformed credential gives no document. */
  function SetPermissions(s: State, handle: int, document: Option<CString>): Step {
    if handle == 0 || document.None? || handle !in s.locals then Step(s, Failed, handle, None)
    else Step(s.(locals := s.locals[handle := s.locals[handle].(permissions := document.value)]), Ok, handle, None)
  }

  // --------------------------------------------------------- remote identities

  /** The challenge in an AuthRequest: the first property whose name starts with
      `future_challenge` decides. */
  function AnnouncedIn(properties: seq<Property>): Option<Nonce> {
    if properties == [] then None
    else if P.FUTURE_CHALLENGE <= properties[0].name then
      if |properties[0].value| == CHALLENGE_SIZE then Some(properties[0].value) else None
    else AnnouncedIn(properties[1..])
  }

  function Announced(request: Token): Option<Nonce> {
    if request.classId != P.AUTH_REQUEST_CLASS_ID then None else AnnouncedIn(request.properties)
  }

  function AuthRequest(challenge: Nonce): Token {
    Token(P.AUTH_REQUEST_CLASS_ID, [Property(P.FUTURE_CHALLENGE, challenge)])
  }

  const NIL_TOKEN := Token("", [])

  function NewRemote(guid: Guid, identityToken: IdentityToken): Remote {
    Remote(guid, identityToken, None, Unknown, Unknown, [], "", 0)
  }

  /** The relation after another validation of the same pair. */
  function Related(s: State, key: (int, int), challenge: Nonce, rchallenge: Option<Nonce>): Relation {
    if key !in s.relations then Relation(challenge, rchallenge)
    else if rchallenge.Some? then s.relations[key].(rchallenge := rchallenge)
    else s.relations[key]
  }

  /** `validate_remote_identity`; `challenge` is the generated local challenge. */
  function ValidateRemote(s: State, localHandle: int, identityToken: IdentityToken, request: Option<Token>, guid: Guid,
                          challenge: Option<Nonce>, handle: int): Step
    requires GuidsSound(s)
  {
    var rchallenge := if request.Some? then Announced(request.value) else None;
    if || localHandle !in s.locals || identityToken.classId != P.BASE_CLASS_ID
       || (request.Some? && rchallenge.None?) || challenge.None?
       || (guid in s.guids && s.remotes[s.guids[guid]].identityToken != identityToken)
    then Step(s, Failed, 0, None)
    else
      var known := guid in s.guids;
      var h := if known then s.guids[guid] else handle;
      var relation := Related(s, (h, localHandle), challenge.value, rchallenge);
      var s1 := s.(remotes := if known then s.remotes else s.remotes[h := NewRemote(guid, identityToken)],
                   guids := s.guids[guid := h],
                   relations := s.relations[(h, localHandle) := relation]);
      Step(s1,
           if RoleOf(s.locals[localHandle].guid, guid) == SendsRequest then PendingRequest else PendingMessage,
           h,
           Some(if request.Some? then NIL_TOKEN else AuthRequest(relation.lchallenge)))
  }

  // ---------------------------------------------------------------- handshakes

  /** `find_handshake`: a handshake of the pair; there is at most one. */
  ghost predicate IsHandshakeOf(s: State, h: int, localHandle: int, remoteHandle: int) {
    h in s.handshakes && s.handshakes[h].localHandle == localHandle && s.handshakes[h].remoteHandle == remoteHandle
  }

  ghost function FindHandshake(s: State, localHandle: int, remoteHandle: int): (found: Option<int>)
    ensures found.Some? ==> IsHandshakeOf(s, found.value, localHandle, remoteHandle)
    ensures found.None? ==> forall h :: !IsHandshakeOf(s, h, localHandle, remoteHandle)
  {
    if exists h :: IsHandshakeOf(s, h, localHandle, remoteHandle) then
      var h :| IsHandshakeOf(s, h, localHandle, remoteHandle);
      Some(h)
    else None
  }

  function NewHandshake(localHandle: int, remoteHandle: int, created: Created): Handshake {
    Handshake(localHandle, remoteHandle, created, ZERO_HASH, ZERO_HASH, None, None, None, None)
  }

  /** The handshake of the pair, or a new one under a fresh handle. */
  ghost function FindOrAdd(s: State, localHandle: int, remoteHandle: int, created: Created, handle: int): (State, int, bool) {
    var found := FindHandshake(s, localHandle, remoteHandle);
    if found.Some? then (s, found.value, false)
    else (s.(handshakes := s.handshakes[handle := NewHandshake(localHandle, remoteHandle, created)]), handle, true)
  }

  predicate HasView(s: State, h: int) {
    h in s.handshakes &&
    var hs := s.handshakes[h];
    hs.localHandle in s.locals && hs.remoteHandle in s.remotes && (hs.remoteHandle, hs.localHandle) in s.relations
  }

  function ViewOf(s: State, h: int): View
    requires HasView(s, h)
  {
    var hs := s.handshakes[h];
    View(s.relations[(hs.remoteHandle, hs.localHandle)], s.remotes[hs.remoteHandle], hs)
  }

  function WithView(s: State, h: int, v: View): State
    requires HasView(s, h)
  {
    var hs := s.handshakes[h];
    s.(relations := s.relations[(hs.remoteHandle, hs.localHandle) := v.relation],
       remotes := s.remotes[hs.remoteHandle := v.remote],
       handshakes := s.handshakes[h := v.handshake])
  }

  function DropHandshake(s: State, h: int): State {
    s.(handshakes := s.handshakes - {h})
  }

  /** The participant data that is sent first is kept. */
  function KeepData(s: State, localHandle: int, pdata: OctetSeq): State
    requires localHandle in s.locals
  {
    var local := s.locals[localHandle];
    if local.pdata == [] then s.(locals := s.locals[localHandle := local.(pdata := pdata)]) else s
  }

  /** A pair that `validate_remote_identity` has related. */
  predicate Introduced(s: State, localHandle: int, remoteHandle: int) {
    localHandle in s.locals && remoteHandle in s.remotes ==> (remoteHandle, localHandle) in s.relations
  }

  /** `begin_handshake_request`: a handshake made here is removed if a step fails,
      one that was found keeps what happened to its key. */
  ghost function BeginRequest(lib: Library, config: Config, s: State, initiatorHandle: int, replierHandle: int, pdata: OctetSeq,
                              key: Option<KeyPair>, handle: int): Step
    requires Introduced(s, initiatorHandle, replierHandle)
  {
    if initiatorHandle !in s.locals || replierHandle !in s.remotes then Step(s, Failed, 0, None) else
      var local := s.locals[initiatorHandle];
      var contents := lib.pem(local.certificate);
      if contents.None? then Step(s, Failed, 0, None) else
        var (s1, h, created) := FindOrAdd(s, initiatorHandle, replierHandle, CreatedRequest, handle);
        var o := MakeRequest(lib, config, local, contents.value, pdata, key, ViewOf(s1, h));
        var s2 := WithView(s1, h, o.view);
        if o.result == Failed then Step(if created then DropHandshake(s2, h) else s2, Failed, 0, None)
        else Step(KeepData(s2, initiatorHandle, pdata), o.result, h, o.message)
  }

  /** `begin_handshake_reply`: a handshake made here is removed if a step fails, but
      what the request changed in the relation and the remote identity stays. */
  ghost function BeginReply(lib: Library, config: Config, s: State, token: Token, initiatorHandle: int, replierHandle: int,
                            pdata: OctetSeq, now: int, coins: Coins, unset: OctetSeq, sign: Signer, handle: int): Step
    requires Introduced(s, replierHandle, initiatorHandle)
  {
    if pdata == [] || replierHandle !in s.locals || initiatorHandle !in s.remotes then Step(s, Failed, 0, None) else
      var local := s.locals[replierHandle];
      var (s1, h, created) := FindOrAdd(s, replierHandle, initiatorHandle, CreatedReply, handle);
      var o := AnswerRequest(lib, config, local, s.trusted, now, token, pdata, coins, unset, sign, ViewOf(s1, h));
      var s2 := WithView(s1, h, o.view);
      if o.result == Failed then Step(if created then DropHandshake(s2, h) else s2, Failed, 0, None)
      else Step(KeepData(s2, replierHandle, pdata), o.result, h, o.message)
  }

  /** The expiry event of a remote identity, unless it has one or never expires. */
  function Watch(s: State, remoteHandle: int, expiry: Expiry.int64, event: nat): State
    requires remoteHandle in s.remotes
  {
    if expiry == Expiry.DDS_NEVER || s.remotes[remoteHandle].timer != 0 then s
    else s.(remotes := s.remotes[remoteHandle := s.remotes[remoteHandle].(timer := event)],
            pending := s.pending[event := remoteHandle])
  }

  /** `process_handshake`; `expiry` is that of the remote certificate. */
  ghost function Process(lib: Library, config: Config, s: State, token: Token, h: int, now: int, expiry: Expiry.int64, event: nat,
                         sign: Signer): Step
    requires h in s.handshakes ==> HasView(s, h)
  {
    if h == 0 || h !in s.handshakes then Step(s, Failed, h, None) else
      var hs := s.handshakes[h];
      var local := s.locals[hs.localHandle];
      var known := expiry != Expiry.DDS_TIME_INVALID;
      var o := if hs.created == CreatedRequest
               then ProcessReply(lib, config, local, s.trusted, now, token, known, sign, ViewOf(s, h))
               else ProcessFinal(lib, config, local, s.trusted, now, token, known, ViewOf(s, h));
      var s1 := WithView(s, h, o.view);
      Step(if o.result == Failed then s1 else Watch(s1, hs.remoteHandle, expiry, event), o.result, h, o.message)
  }

  // ----------------------------------------------------------- results, returns

  /** `get_shared_secret`. */
  function GetSharedSecret(s: State, h: int): Option<SharedSecret> {
    if h == 0 || h !in s.handshakes then None else s.handshakes[h].shared
  }

  /** `get_authenticated_peer_credential_token`: certificate and permissions. */
  function GetPeerCredentials(lib: Library, s: State, h: int): Option<(OctetSeq, CString)>
    requires h in s.handshakes ==> HasView(s, h)
  {
    if h == 0 || h !in s.handshakes then None else
      var remote := ViewOf(s, h).remote;
      if remote.certificate.None? || lib.pem(remote.certificate.value).None? then None
      else Some((lib.pem(remote.certificate.value).value, remote.permissions))
  }

  /** `return_handshake_handle`. */
  function ReturnHandshake(s: State, h: int): Step {
    if h == 0 || h !in s.handshakes then Step(s, Failed, h, None) else Step(DropHandshake(s, h), Ok, h, None)
  }

  /** `t` is `s` without the relations of some (remote, local) pairs and their handshakes. */
  ghost predicate Forgot(s: State, t: State, pairs: set<(int, int)>) {
    && t == s.(relations := t.relations, handshakes := t.handshakes)
    && (forall k :: k in t.relations <==> k in s.relations && k !in pairs)
    && (forall k :: k in t.relations ==> t.relations[k] == s.relations[k])
    && (forall h :: h in t.handshakes <==>
          h in s.handshakes && (s.handshakes[h].remoteHandle, s.handshakes[h].localHandle) !in pairs)
    && (forall h :: h in t.handshakes ==> t.handshakes[h] == s.handshakes[h])
  }

  /** No relation and no handshake names the identity any more; all others stay. */
  function ForgetLocal(s: State, l: int): State {
    s.(relations := map k | k in s.relations && k.1 != l :: s.relations[k],
       handshakes := map h | h in s.handshakes && s.handshakes[h].localHandle != l :: s.handshakes[h])
  }

  function ForgetRemote(s: State, r: int): State {
    s.(relations := map k | k in s.relations && k.0 != r :: s.relations[k],
       handshakes := map h | h in s.handshakes && s.handshakes[h].remoteHandle != r :: s.handshakes[h])
  }

  /** `return_identity_handle`. */
  function ReturnIdentity(s: State, h: int): Step {
    if h == 0 then Step(s, Failed, h, None)
    else if h in s.locals then
      var s1 := ForgetLocal(s, h);
      Step(s1.(locals := s1.locals - {h}, pending := s1.pending - {s.locals[h].timer}), Ok, h, None)
    else if h in s.remotes then
      var s1 := ForgetRemote(s, h);
      Step(s1.(remotes := s1.remotes - {h}, guids := s1.guids - {s.remotes[h].guid},
               pending := s1.pending - {s.remotes[h].timer}),
           Ok, h, None)
    else Step(s, Failed, h, None)
  }

  /** `validity_callback` when a pending event is due: the event is used up and the
      identity it names has none any more. */
  function Expire(s: State, event: nat): State
    requires event in s.pending
  {
    var h := s.pending[event];
    var s1 := s.(pending := s.pending - {event});
    if h in s.locals then s1.(locals := s1.locals[h := s1.locals[h].(timer := 0)])
    else if h in s.remotes then s1.(remotes := s1.remotes[h := s1.remotes[h].(timer := 0)])
    else s1
  }

  // ------------------------------------------------------------- the invariant

  /** The kinds share one table of handles. */
  ghost predicate HandlesSound(s: State) {
    && s.locals.Keys !! s.remotes.Keys && s.locals.Keys !! s.handshakes.Keys && s.remotes.Keys !! s.handshakes.Keys
    && 0 !in Handles(s)
  }

  /** The GUID index is in bijection with the registered remote identities. */
  ghost predicate GuidsSound(s: State) {
    && (forall g :: g in s.guids ==> s.guids[g] in s.remotes && s.remotes[s.guids[g]].guid == g)
    && (forall r :: r in s.remotes ==> s.remotes[r].guid in s.guids && s.guids[s.remotes[r].guid] == r)
  }

  /** A relation is between registered identities. */
  ghost predicate RelationsSound(s: State) {
    forall k :: k in s.relations ==> k.0 in s.remotes && k.1 in s.locals
  }

  /** A handshake belongs to a relation between registered identities; one that a
      reply made has seen the peer's challenge. */
  ghost predicate HandshakesSound(s: State) {
    forall h :: h in s.handshakes ==>
      HasView(s, h) && (s.handshakes[h].created == CreatedReply ==> ViewOf(s, h).relation.rchallenge.Some?)
  }

  ghost predicate AtMostOneHandshake(s: State) {
    forall h, k :: h in s.handshakes && k in s.handshakes ==>
      (SamePair(s.handshakes[h], s.handshakes[k]) ==> h == k)
  }

  predicate SamePair(x: Handshake, y: Handshake) {
    x.localHandle == y.localHandle && x.remoteHandle == y.remoteHandle
  }

  function TimerOf(s: State, h: int): nat {
    if h in s.locals then s.locals[h].timer else if h in s.remotes then s.remotes[h].timer else 0
  }

  /** Pending events and identities with a timer name each other. */
  ghost predicate TimersSound(s: State) {
    && (forall e :: e in s.pending ==> e != 0 && TimerOf(s, s.pending[e]) == e)
    && (forall h :: TimerOf(s, h) != 0 ==> TimerOf(s, h) in s.pending && s.pending[TimerOf(s, h)] == h)
  }

  ghost predicate Sound(s: State) {
    && HandlesSound(s) && GuidsSound(s) && RelationsSound(s) && HandshakesSound(s) && AtMostOneHandshake(s) && TimersSound(s)
  }
}
