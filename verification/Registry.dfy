/** The CycloneDDS plugin as the source has it: heap objects in hash tables that
    point at each other. Every call is proved to do what the function of the same
    name in `PqState` says, so the pointers stay in step with the tables. */
module Registry {
  import opened Octets
  import opened Guids
  import opened Transcript
  import opened Algorithms
  import opened PqHandshake
  import opened PqState
  import opened PqInvariant
  import opened PqObjects
  import opened PqTokens
  import Expiry
  import P = Protocol

  datatype SecurityObject =
    | LocalObject(local: LocalIdentityInfo)
    | RemoteObject(remote: RemoteIdentityInfo)
    | HandshakeObject(handshake: HandshakeInfo)

  function HandleOf(o: SecurityObject): int {
    match o
    case LocalObject(x) => x.handle
    case RemoteObject(x) => x.handle
    case HandshakeObject(x) => x.handle
  }

  /** Two relations are between the same identities. */
  predicate JoinSame(x: IdentityRelation, y: IdentityRelation) {
    x.localIdentity == y.localIdentity && x.remoteIdentity == y.remoteIdentity
  }

  function TimerIn(o: SecurityObject): nat
    reads if o.LocalObject? then {o.local as object} else if o.RemoteObject? then {o.remote as object} else {}
  {
    match o
    case LocalObject(x) => x.timer
    case RemoteObject(x) => x.timer
    case HandshakeObject(_) => 0
  }

  // ------------------------------------------------------- objects and values

  /** The object hash holds every object under its kind. */
  ghost predicate ObjectsMatch(objects: map<int, SecurityObject>, locals: map<int, LocalIdentityInfo>,
                               remotes: map<int, RemoteIdentityInfo>, handshakes: map<int, HandshakeInfo>)
  {
    && objects.Keys == locals.Keys + remotes.Keys + handshakes.Keys
    && (forall h :: h in locals ==> objects[h] == LocalObject(locals[h]))
    && (forall h :: h in remotes ==> objects[h] == RemoteObject(remotes[h]))
    && (forall h :: h in handshakes ==> objects[h] == HandshakeObject(handshakes[h]))
  }

  ghost predicate LocalsMatch(objects: map<int, LocalIdentityInfo>, values: map<int, Local>)
    reads objects.Values
  {
    objects.Keys == values.Keys && forall h :: h in objects ==> objects[h].handle == h && objects[h].Model() == values[h]
  }

  /** The link hash of a remote identity holds its relations under the local handles. */
  ghost predicate Links(r: RemoteIdentityInfo, relations: map<(int, int), IdentityRelation>)
    reads r`linkHash
  {
    && (forall l :: l in r.linkHash <==> (r.handle, l) in relations)
    && (forall l :: l in r.linkHash ==> r.linkHash[l] == relations[(r.handle, l)])
  }

  ghost predicate RemotesMatch(objects: map<int, RemoteIdentityInfo>, relations: map<(int, int), IdentityRelation>,
                               values: map<int, Remote>)
    reads objects.Values
  {
    && objects.Keys == values.Keys
    && (forall h :: h in objects ==> objects[h].handle == h && objects[h].Model() == values[h])
    && (forall h :: h in objects ==> Links(objects[h], relations))
  }

  /** A relation points at the registered identities that have its handles. */
  ghost predicate Joins(x: IdentityRelation, key: (int, int), locals: map<int, LocalIdentityInfo>,
                        remotes: map<int, RemoteIdentityInfo>)
  {
    key.0 in remotes && x.remoteIdentity == remotes[key.0] && key.1 in locals && x.localIdentity == locals[key.1]
  }

  ghost predicate RelationsMatch(objects: map<(int, int), IdentityRelation>, locals: map<int, LocalIdentityInfo>,
                                 remotes: map<int, RemoteIdentityInfo>, values: map<(int, int), Relation>)
    reads objects.Values
  {
    && objects.Keys == values.Keys
    && (forall k :: k in objects ==> objects[k].Model() == values[k] && Joins(objects[k], k, locals, remotes))
  }

  /** A handshake points at the registered relation of its pair. */
  ghost predicate Belongs(x: HandshakeInfo, relations: map<(int, int), IdentityRelation>) {
    var key := (x.relation.remoteIdentity.handle, x.relation.localIdentity.handle);
    key in relations && x.relation == relations[key]
  }

  ghost predicate HandshakesMatch(objects: map<int, HandshakeInfo>, relations: map<(int, int), IdentityRelation>,
                                  values: map<int, Handshake>)
    reads objects.Values
  {
    && objects.Keys == values.Keys
    && (forall h :: h in objects ==> objects[h].handle == h && objects[h].Model() == values[h])
    && (forall h :: h in objects ==> Belongs(objects[h], relations))
  }

  ghost predicate GuidsMatch(hash: map<Guid, RemoteIdentityInfo>, remotes: map<int, RemoteIdentityInfo>, guids: map<Guid, int>) {
    && hash.Keys == guids.Keys
    && (forall g :: g in hash ==> guids[g] in remotes && hash[g] == remotes[guids[g]])
  }

  lemma HasElement(s: set<int>)
    ensures s == {} || exists x :: x in s
  {
    if forall x :: x !in s {
      assert s == {};
    }
  }

  // ------------------------------------------ changing one object, adding, removing

  /** Changing one object is changing the value under its handle: the others match
      without it, and go on matching while it changes. */
  lemma OtherLocals(objects: map<int, LocalIdentityInfo>, values: map<int, Local>, h: int)
    requires LocalsMatch(objects, values) && h in objects
    ensures LocalsMatch(objects - {h}, values - {h}) && objects[h] !in (objects - {h}).Values && objects[h].handle == h
  {
    assert (objects - {h}).Keys == (values - {h}).Keys;
    assert forall k :: k in objects - {h} ==> objects[k].handle == k;
  }

  lemma LocalChanged(objects: map<int, LocalIdentityInfo>, values: map<int, Local>, h: int)
    requires h in objects && objects[h].handle == h && LocalsMatch(objects - {h}, values - {h})
    ensures LocalsMatch(objects, values[h := objects[h].Model()])
  {
    var others, rest := objects - {h}, values - {h};
    assert objects.Keys == others.Keys + {h} && values[h := objects[h].Model()].Keys == rest.Keys + {h};
    assert forall k :: k in objects && k != h ==> k in others && others[k] == objects[k] && rest[k] == values[k];
  }

  lemma OtherRemotes(objects: map<int, RemoteIdentityInfo>, relations: map<(int, int), IdentityRelation>, values: map<int, Remote>,
                     h: int)
    requires RemotesMatch(objects, relations, values) && h in objects
    ensures RemotesMatch(objects - {h}, relations, values - {h})
    ensures objects[h] !in (objects - {h}).Values && objects[h].handle == h && Links(objects[h], relations)
  {
    hide Links;
    assert (objects - {h}).Keys == (values - {h}).Keys;
    assert forall k :: k in objects - {h} ==> objects[k].handle == k;
  }

  lemma RemoteChanged(objects: map<int, RemoteIdentityInfo>, relations: map<(int, int), IdentityRelation>, values: map<int, Remote>,
                      h: int)
    requires h in objects && objects[h].handle == h && RemotesMatch(objects - {h}, relations, values - {h})
    requires Links(objects[h], relations)
    ensures RemotesMatch(objects, relations, values[h := objects[h].Model()])
  {
    hide Links;
    var others, rest := objects - {h}, values - {h};
    assert objects.Keys == others.Keys + {h} && values[h := objects[h].Model()].Keys == rest.Keys + {h};
    assert forall k :: k in objects && k != h ==> k in others && others[k] == objects[k] && rest[k] == values[k];
  }

  lemma OtherRelations(objects: map<(int, int), IdentityRelation>, locals: map<int, LocalIdentityInfo>,
                       remotes: map<int, RemoteIdentityInfo>, values: map<(int, int), Relation>, key: (int, int))
    requires RelationsMatch(objects, locals, remotes, values) && key in objects
    ensures RelationsMatch(objects - {key}, locals, remotes, values - {key})
  {
    hide Joins;
    assert (objects - {key}).Keys == (values - {key}).Keys;
  }

  lemma RelationChanged(objects: map<(int, int), IdentityRelation>, locals: map<int, LocalIdentityInfo>,
                        remotes: map<int, RemoteIdentityInfo>, values: map<(int, int), Relation>, key: (int, int))
    requires key in objects && RelationsMatch(objects - {key}, locals, remotes, values - {key})
    requires Joins(objects[key], key, locals, remotes)
    ensures RelationsMatch(objects, locals, remotes, values[key := objects[key].Model()])
  {
    hide Joins;
    var others, rest := objects - {key}, values - {key};
    assert objects.Keys == others.Keys + {key} && values[key := objects[key].Model()].Keys == rest.Keys + {key};
    assert forall k :: k in objects && k != key ==> k in others && others[k] == objects[k] && rest[k] == values[k];
  }

  lemma OtherHandshakes(objects: map<int, HandshakeInfo>, relations: map<(int, int), IdentityRelation>, values: map<int, Handshake>,
                        h: int)
    requires HandshakesMatch(objects, relations, values) && h in objects
    ensures HandshakesMatch(objects - {h}, relations, values - {h})
    ensures objects[h] !in (objects - {h}).Values && objects[h].handle == h && Belongs(objects[h], relations)
  {
    hide Belongs;
    assert (objects - {h}).Keys == (values - {h}).Keys;
    assert forall k :: k in objects - {h} ==> objects[k].handle == k;
  }

  lemma HandshakeChanged(objects: map<int, HandshakeInfo>, relations: map<(int, int), IdentityRelation>, values: map<int, Handshake>,
                         h: int)
    requires h in objects && objects[h].handle == h && HandshakesMatch(objects - {h}, relations, values - {h})
    requires Belongs(objects[h], relations)
    ensures HandshakesMatch(objects, relations, values[h := objects[h].Model()])
  {
    hide Belongs;
    var others, rest := objects - {h}, values - {h};
    assert objects.Keys == others.Keys + {h} && values[h := objects[h].Model()].Keys == rest.Keys + {h};
    assert forall k :: k in objects && k != h ==> k in others && others[k] == objects[k] && rest[k] == values[k];
  }

  /** Relations of different pairs are different objects. */
  lemma RelationsDiffer(objects: map<(int, int), IdentityRelation>, locals: map<int, LocalIdentityInfo>,
                        remotes: map<int, RemoteIdentityInfo>, values: map<(int, int), Relation>, lv: map<int, Local>,
                        relations: map<(int, int), IdentityRelation>, rv: map<int, Remote>, key: (int, int))
    requires RelationsMatch(objects, locals, remotes, values) && LocalsMatch(locals, lv) && RemotesMatch(remotes, relations, rv)
    requires key in objects
    ensures objects[key] !in (objects - {key}).Values
  {
    hide LocalsMatch, RemotesMatch, RelationsMatch;
    RelationAt(objects, locals, remotes, values, key);
    LocalAt(locals, lv, key.1);
    RemoteAt(remotes, relations, rv, key.0);
    forall k | k in objects - {key}
      ensures objects[k] != objects[key]
    {
      RelationAt(objects, locals, remotes, values, k);
      LocalAt(locals, lv, k.1);
      RemoteAt(remotes, relations, rv, k.0);
      assert k != key && k == (k.0, k.1) && key == (key.0, key.1);
    }
  }

  /** What is found under a handle is what the tables of its kind hold. */
  lemma ObjectAt(objects: map<int, SecurityObject>, locals: map<int, LocalIdentityInfo>, remotes: map<int, RemoteIdentityInfo>,
                 handshakes: map<int, HandshakeInfo>, h: int)
    requires ObjectsMatch(objects, locals, remotes, handshakes)
    ensures h in locals <==> h in objects && objects[h].LocalObject?
    ensures h in remotes <==> h in objects && objects[h].RemoteObject?
    ensures h in handshakes <==> h in objects && objects[h].HandshakeObject?
    ensures h in locals ==> objects[h].local == locals[h]
    ensures h in remotes ==> objects[h].remote == remotes[h]
    ensures h in handshakes ==> objects[h].handshake == handshakes[h]
  {
  }

  lemma LocalAt(objects: map<int, LocalIdentityInfo>, values: map<int, Local>, h: int)
    requires LocalsMatch(objects, values)
    ensures h in objects <==> h in values
    ensures h in objects ==> objects[h].handle == h && objects[h].Model() == values[h]
  {
  }

  lemma RemoteAt(objects: map<int, RemoteIdentityInfo>, relations: map<(int, int), IdentityRelation>, values: map<int, Remote>, h: int)
    requires RemotesMatch(objects, relations, values)
    ensures h in objects <==> h in values
    ensures h in objects ==> objects[h].handle == h && objects[h].Model() == values[h] && Links(objects[h], relations)
  {
  }

  lemma RelationAt(objects: map<(int, int), IdentityRelation>, locals: map<int, LocalIdentityInfo>,
                   remotes: map<int, RemoteIdentityInfo>, values: map<(int, int), Relation>, key: (int, int))
    requires RelationsMatch(objects, locals, remotes, values)
    ensures key in objects <==> key in values
    ensures key in objects ==> objects[key].Model() == values[key] && Joins(objects[key], key, locals, remotes)
  {
  }

  lemma HandshakeAt(objects: map<int, HandshakeInfo>, relations: map<(int, int), IdentityRelation>, values: map<int, Handshake>, h: int)
    requires HandshakesMatch(objects, relations, values)
    ensures h in objects <==> h in values
    ensures h in objects ==> objects[h].handle == h && objects[h].Model() == values[h] && Belongs(objects[h], relations)
  {
  }

  lemma LocalAdded(objects: map<int, LocalIdentityInfo>, values: map<int, Local>, h: int, x: LocalIdentityInfo)
    requires LocalsMatch(objects, values) && x.handle == h
    ensures LocalsMatch(objects[h := x], values[h := x.Model()])
  {
  }

  /** More identities do not disturb what a relation joins. */
  lemma JoinsMore(objects: map<(int, int), IdentityRelation>, locals: map<int, LocalIdentityInfo>,
                  remotes: map<int, RemoteIdentityInfo>, values: map<(int, int), Relation>,
                  locals': map<int, LocalIdentityInfo>, remotes': map<int, RemoteIdentityInfo>)
    requires RelationsMatch(objects, locals, remotes, values)
    requires forall h :: h in locals ==> h in locals' && locals'[h] == locals[h]
    requires forall h :: h in remotes ==> h in remotes' && remotes'[h] == remotes[h]
    ensures RelationsMatch(objects, locals', remotes', values)
  {
    forall k | k in objects
      ensures Joins(objects[k], k, locals', remotes')
    {
      var (r, l) := k;
      assert Joins(objects[k], k, locals, remotes);
      assert r in remotes && r in remotes' && l in locals && l in locals';
    }
  }

  lemma RemoteAdded(objects: map<int, RemoteIdentityInfo>, relations: map<(int, int), IdentityRelation>, values: map<int, Remote>,
                    h: int, x: RemoteIdentityInfo)
    requires RemotesMatch(objects, relations, values) && x.handle == h && x.linkHash == map[]
    requires forall k :: k in relations ==> k.0 != h
    ensures RemotesMatch(objects[h := x], relations, values[h := x.Model()])
  {
    assert Links(x, relations);
  }

  lemma GuidAdded(hash: map<Guid, RemoteIdentityInfo>, remotes: map<int, RemoteIdentityInfo>, guids: map<Guid, int>,
                  x: RemoteIdentityInfo)
    requires GuidsMatch(hash, remotes, guids) && x.handle !in remotes
    ensures GuidsMatch(hash[x.guid := x], remotes[x.handle := x], guids[x.guid := x.handle])
  {
  }

  lemma RelationsOfRemotes(objects: map<(int, int), IdentityRelation>, locals: map<int, LocalIdentityInfo>,
                           remotes: map<int, RemoteIdentityInfo>, values: map<(int, int), Relation>)
    requires RelationsMatch(objects, locals, remotes, values)
    ensures forall k :: k in objects ==> k.0 in remotes && k.1 in locals
  {
    forall k | k in objects
      ensures k.0 in remotes && k.1 in locals
    {
      assert Joins(objects[k], k, locals, remotes);
    }
  }

  lemma RelationAdded(objects: map<(int, int), IdentityRelation>, locals: map<int, LocalIdentityInfo>,
                      remotes: map<int, RemoteIdentityInfo>, values: map<(int, int), Relation>, key: (int, int), x: IdentityRelation)
    requires RelationsMatch(objects, locals, remotes, values) && Joins(x, key, locals, remotes)
    ensures RelationsMatch(objects[key := x], locals, remotes, values[key := x.Model()])
  {
  }

  lemma BelongsMore(objects: map<int, HandshakeInfo>, relations: map<(int, int), IdentityRelation>, values: map<int, Handshake>,
                    key: (int, int), x: IdentityRelation)
    requires HandshakesMatch(objects, relations, values) && key !in relations
    ensures HandshakesMatch(objects, relations[key := x], values)
  {
    forall h | h in objects
      ensures Belongs(objects[h], relations[key := x])
    {
      assert Belongs(objects[h], relations);
    }
  }

  /** One more entry in one link hash does not concern the others. */
  lemma LinkAdded(objects: map<int, RemoteIdentityInfo>, relations: map<(int, int), IdentityRelation>, values: map<int, Remote>,
                  r: int, l: int, x: IdentityRelation)
    requires RemotesMatch(objects, relations, values) && r !in objects
    ensures RemotesMatch(objects, relations[(r, l) := x], values)
  {
    forall k | k in objects
      ensures Links(objects[k], relations[(r, l) := x])
    {
      assert Links(objects[k], relations) && objects[k].handle == k;
    }
  }

  lemma LocalRegistered(objects: map<int, SecurityObject>, locals: map<int, LocalIdentityInfo>,
                        remotes: map<int, RemoteIdentityInfo>, handshakes: map<int, HandshakeInfo>, h: int, x: LocalIdentityInfo)
    requires ObjectsMatch(objects, locals, remotes, handshakes) && h !in objects
    ensures ObjectsMatch(objects[h := LocalObject(x)], locals[h := x], remotes, handshakes)
  {
  }

  lemma RemoteRegistered(objects: map<int, SecurityObject>, locals: map<int, LocalIdentityInfo>,
                         remotes: map<int, RemoteIdentityInfo>, handshakes: map<int, HandshakeInfo>, h: int, x: RemoteIdentityInfo)
    requires ObjectsMatch(objects, locals, remotes, handshakes) && h !in objects
    ensures ObjectsMatch(objects[h := RemoteObject(x)], locals, remotes[h := x], handshakes)
  {
  }

  lemma HandshakeAdded(objects: map<int, HandshakeInfo>, relations: map<(int, int), IdentityRelation>, values: map<int, Handshake>,
                       h: int, x: HandshakeInfo)
    requires HandshakesMatch(objects, relations, values) && x.handle == h && Belongs(x, relations)
    ensures HandshakesMatch(objects[h := x], relations, values[h := x.Model()])
  {
  }

  lemma HandshakeRemoved(objects: map<int, SecurityObject>, locals: map<int, LocalIdentityInfo>,
                         remotes: map<int, RemoteIdentityInfo>, handshakes: map<int, HandshakeInfo>,
                         relations: map<(int, int), IdentityRelation>, values: map<int, Handshake>, h: int)
    requires ObjectsMatch(objects, locals, remotes, handshakes) && h in handshakes && HandshakesMatch(handshakes, relations, values)
    ensures ObjectsMatch(objects - {h}, locals, remotes, handshakes - {h})
    ensures HandshakesMatch(handshakes - {h}, relations, values - {h})
  {
    ObjectAt(objects, locals, remotes, handshakes, h);
  }

  lemma IdentityRemoved(objects: map<int, SecurityObject>, locals: map<int, LocalIdentityInfo>,
                        remotes: map<int, RemoteIdentityInfo>, handshakes: map<int, HandshakeInfo>, h: int)
    requires ObjectsMatch(objects, locals, remotes, handshakes) && (h in locals || h in remotes)
    ensures ObjectsMatch(objects - {h}, locals - {h}, remotes - {h}, handshakes)
  {
    ObjectAt(objects, locals, remotes, handshakes, h);
  }

  lemma LocalRemoved(objects: map<int, LocalIdentityInfo>, values: map<int, Local>, h: int)
    requires LocalsMatch(objects, values)
    ensures LocalsMatch(objects - {h}, values - {h})
  {
  }

  lemma RemoteRemoved(objects: map<int, RemoteIdentityInfo>, relations: map<(int, int), IdentityRelation>, values: map<int, Remote>,
                      h: int)
    requires RemotesMatch(objects, relations, values)
    ensures RemotesMatch(objects - {h}, relations, values - {h})
  {
  }

  /** Fewer identities do not disturb relations that do not join them. */
  lemma JoinsLess(objects: map<(int, int), IdentityRelation>, locals: map<int, LocalIdentityInfo>,
                  remotes: map<int, RemoteIdentityInfo>, values: map<(int, int), Relation>, h: int)
    requires RelationsMatch(objects, locals, remotes, values)
    requires forall k :: k in values ==> k.0 != h && k.1 != h
    ensures RelationsMatch(objects, locals - {h}, remotes - {h}, values)
  {
    forall k | k in objects
      ensures Joins(objects[k], k, locals - {h}, remotes - {h})
    {
      assert Joins(objects[k], k, locals, remotes);
    }
  }

  lemma GuidRemoved(hash: map<Guid, RemoteIdentityInfo>, remotes: map<int, RemoteIdentityInfo>, guids: map<Guid, int>, guid: Guid,
                    h: int)
    requires GuidsMatch(hash, remotes, guids) && forall g :: g in guids && guids[g] == h ==> g == guid
    ensures GuidsMatch(hash - {guid}, remotes - {h}, guids - {guid})
  {
  }

  /** One entry less in one link hash does not concern the others. */
  lemma LinkRemoved(objects: map<int, RemoteIdentityInfo>, relations: map<(int, int), IdentityRelation>, values: map<int, Remote>,
                    r: int, l: int)
    requires RemotesMatch(objects, relations, values) && r !in objects
    ensures RemotesMatch(objects, relations - {(r, l)}, values)
  {
    forall k | k in objects
      ensures Links(objects[k], relations - {(r, l)})
    {
      assert Links(objects[k], relations) && objects[k].handle == k;
    }
  }

  lemma RelationRemoved(objects: map<(int, int), IdentityRelation>, locals: map<int, LocalIdentityInfo>,
                        remotes: map<int, RemoteIdentityInfo>, values: map<(int, int), Relation>, key: (int, int))
    requires RelationsMatch(objects, locals, remotes, values)
    ensures RelationsMatch(objects - {key}, locals, remotes, values - {key})
  {
  }

  lemma BelongsLess(objects: map<int, HandshakeInfo>, relations: map<(int, int), IdentityRelation>, values: map<int, Handshake>,
                    key: (int, int))
    requires HandshakesMatch(objects, relations, values)
    requires forall h :: h in values ==> (values[h].remoteHandle, values[h].localHandle) != key
    ensures HandshakesMatch(objects, relations - {key}, values)
  {
    forall h | h in objects
      ensures Belongs(objects[h], relations - {key})
    {
      assert Belongs(objects[h], relations) && objects[h].Model() == values[h];
    }
  }

  lemma HandshakeRegistered(objects: map<int, SecurityObject>, locals: map<int, LocalIdentityInfo>,
                            remotes: map<int, RemoteIdentityInfo>, handshakes: map<int, HandshakeInfo>, h: int, x: HandshakeInfo)
    requires ObjectsMatch(objects, locals, remotes, handshakes) && h !in objects
    ensures ObjectsMatch(objects[h := HandshakeObject(x)], locals, remotes, handshakes[h := x])
  {
  }

  class Authentication {
    const config: Config
    var objectHash: map<int, SecurityObject>
    var remoteGuidHash: map<Guid, RemoteIdentityInfo>
    var pending: map<nat, int>              // the dispatcher's events, with the handle each names
    var trustedCaList: seq<Authority>

    // The abstract state, and the objects by kind.
    ghost var model: State
    ghost var locals: map<int, LocalIdentityInfo>
    ghost var remotes: map<int, RemoteIdentityInfo>
    ghost var relations: map<(int, int), IdentityRelation>
    ghost var handshakes: map<int, HandshakeInfo>

    ghost predicate Valid()
      reads this, locals.Values, remotes.Values, relations.Values, handshakes.Values
    {
      Sound(model) && Matches(model)
    }

    /** The tables and the objects in them are those of a state. */
    ghost predicate Matches(s: State)
      reads this, locals.Values, remotes.Values, relations.Values, handshakes.Values
    {
      && TablesMatch(s)
      && LocalsMatch(locals, s.locals)
      && RemotesMatch(remotes, relations, s.remotes)
      && RelationsMatch(relations, locals, remotes, s.relations)
      && HandshakesMatch(handshakes, relations, s.handshakes)
    }

    ghost predicate TablesMatch(s: State)
      reads this
    {
      && ObjectsMatch(objectHash, locals, remotes, handshakes)
      && GuidsMatch(remoteGuidHash, remotes, s.guids)
      && pending == s.pending && trustedCaList == s.trusted
    }

    ghost predicate IsLocal(x: LocalIdentityInfo)
      reads this
    {
      x.handle in locals && locals[x.handle] == x
    }

    ghost predicate IsRemote(x: RemoteIdentityInfo)
      reads this
    {
      x.handle in remotes && remotes[x.handle] == x
    }

    constructor (config: Config)
      ensures Valid() && model == INITIAL && this.config == config
      ensures locals == map[] && remotes == map[] && relations == map[] && handshakes == map[]
    {
      this.config := config;
      objectHash, remoteGuidHash, pending, trustedCaList := map[], map[], map[], [];
      locals, remotes, relations, handshakes := map[], map[], map[], map[];
      model := INITIAL;
    }

    /** `security_object_find` and the check of the kind. */
    method FindObject(handle: int) returns (found: Option<SecurityObject>)
      requires Valid()
      ensures found.Some? <==> handle in objectHash
      ensures found.Some? ==> found.value == objectHash[handle]
      ensures found.Some? && found.value.LocalObject? <==> handle in model.locals
      ensures found.Some? && found.value.RemoteObject? <==> handle in model.remotes
      ensures found.Some? && found.value.HandshakeObject? <==> handle in model.handshakes
      ensures handle in model.locals ==>
                handle in locals && found.value.local == locals[handle] && locals[handle].handle == handle
                && locals[handle].Model() == model.locals[handle]
      ensures handle in model.remotes ==>
                handle in remotes && found.value.remote == remotes[handle] && remotes[handle].handle == handle
                && remotes[handle].Model() == model.remotes[handle]
      ensures handle in model.handshakes ==>
                handle in handshakes && found.value.handshake == handshakes[handle] && handshakes[handle].handle == handle
    {
      hide Sound, LocalsMatch, RemotesMatch, RelationsMatch, HandshakesMatch, ObjectsMatch, GuidsMatch;
      ObjectAt(objectHash, locals, remotes, handshakes, handle);
      LocalAt(locals, model.locals, handle);
      RemoteAt(remotes, relations, model.remotes, handle);
      HandshakeAt(handshakes, relations, model.handshakes, handle);
      if handle in objectHash {
        return Some(objectHash[handle]);
      }
      return None;
    }

    /** `set_permissions_credential_and_token`. */
    method SetPermissionsCredential(handle: int, document: Option<CString>) returns (ok: bool)
      requires Valid()
      modifies this`model, locals.Values
      ensures Valid()
      ensures var o := SetPermissions(old(model), handle, document); model == o.state && (ok <==> o.result == Ok)
    {
      hide Sound, LocalsMatch, RemotesMatch, RelationsMatch, HandshakesMatch, ObjectsMatch, GuidsMatch;
      if handle == 0 || document.None? {
        return false;
      }
      var found := FindObject(handle);
      if found.None? || !found.value.LocalObject? {
        return false;
      }
      StorePermissions(found.value.local, document.value);
      ok := true;
    }

    method StorePermissions(local: LocalIdentityInfo, document: CString)
      requires Valid() && IsLocal(local) && local.handle != 0 && local.handle in model.locals
      modifies this`model, local`permissions
      ensures Valid() && model == SetPermissions(old(model), local.handle, Some(document)).state
    {
      hide Sound, LocalsMatch, RemotesMatch, RelationsMatch, HandshakesMatch, ObjectsMatch, GuidsMatch;
      LocalAt(locals, model.locals, local.handle);
      OtherLocals(locals, model.locals, local.handle);
      local.permissions := document;
      LocalChanged(locals, model.locals, local.handle);
      SetPermissionsSound(model, local.handle, Some(document));
      model := SetPermissions(model, local.handle, Some(document)).state;
    }

    // ---------------------------------------------------------- local identities

    /** The trusted CA directory: a readable one replaces the list. */
    method LoadTrustedCas(authorities: seq<Authority>)
      requires Valid()
      modifies this`trustedCaList, this`model
      ensures Valid()
      ensures model == old(model).(trusted := authorities, authorities := old(model).authorities + (set a | a in authorities))
    {
      hide Sound, LocalsMatch, RemotesMatch, RelationsMatch, HandshakesMatch, ObjectsMatch, GuidsMatch;
      var after := model.(trusted := authorities, authorities := model.authorities + (set a | a in authorities));
      SoundWithTrusted(model, after);
      trustedCaList := authorities;
      model := after;
    }

    /** Whether the CA is one of the trusted ones, if there are any. */
    method IsCaTrusted(lib: Library, ca: Authority, crl: CrlInput) returns (trusted: bool)
      ensures trusted <==> CaTrusted(lib, trustedCaList, ca, crl)
    {
      if |trustedCaList| == 0 {
        return true;
      }
      if !crl.NoCrl? {
        return false;
      }
      for i := 0 to |trustedCaList|
        invariant forall k :: 0 <= k < i ==> !lib.sameFingerprint(trustedCaList[k], ca)
      {
        if lib.sameFingerprint(trustedCaList[i], ca) {
          return true;
        }
      }
      return false;
    }

    lemma LocalMore(identity: LocalIdentityInfo)
      requires Matches(model) && Fresh(model, identity.handle)
      ensures var h := identity.handle;
              && ObjectsMatch(objectHash[h := LocalObject(identity)], locals[h := identity], remotes, handshakes)
              && LocalsMatch(locals[h := identity], model.locals[h := identity.Model()])
              && RelationsMatch(relations, locals[h := identity], remotes, model.relations)
              && h !in locals
    {
      hide LocalsMatch, RemotesMatch, RelationsMatch, HandshakesMatch, ObjectsMatch, GuidsMatch, Fresh;
      FreshHandle(identity.handle);
      LocalAdded(locals, model.locals, identity.handle, identity);
      JoinsMore(relations, locals, remotes, model.relations, locals[identity.handle := identity], remotes);
      LocalRegistered(objectHash, locals, remotes, handshakes, identity.handle, identity);
    }

    /** Registers a new local identity, after its expiry event if it has one. */
    method RegisterLocal(identity: LocalIdentityInfo, timed: bool, event: nat, ghost after: State)
      requires Valid() && Fresh(model, identity.handle)
      requires identity.timer == if timed then event else 0
      requires Sound(after) && after.trusted == model.trusted
      requires after == model.(locals := model.locals[identity.handle := identity.Model()], authorities := after.authorities,
                               pending := if timed then model.pending[event := identity.handle] else model.pending)
      modifies this
      ensures Valid() && model == after
      ensures locals == old(locals)[identity.handle := identity]
      ensures remotes == old(remotes) && relations == old(relations) && handshakes == old(handshakes)
    {
      hide Sound, LocalsMatch, RemotesMatch, RelationsMatch, HandshakesMatch, ObjectsMatch, GuidsMatch;
      LocalMore(identity);
      if timed {
        pending := pending[event := identity.handle];
      }
      objectHash := objectHash[identity.handle := LocalObject(identity)];
      locals := locals[identity.handle := identity];
      model := after;
    }

    /** A fresh handle is in no table. */
    lemma FreshHandle(h: int)
      requires Matches(model) && Fresh(model, h)
      ensures h !in objectHash && h !in locals && h !in remotes && h !in handshakes
    {
      hide Links, Joins, Belongs;
    }

    /** `validate_local_identity`. */
    method ValidateLocalIdentity(lib: Library, input: LocalInput, address: int, event: nat) returns (result: Result, handle: int)
      requires Valid() && Fresh(model, address) && FreshEvent(model, event)
      modifies this
      ensures Valid() && fresh(locals.Values - old(locals.Values))
      ensures remotes == old(remotes) && relations == old(relations) && handshakes == old(handshakes)
      ensures Step(model, result, handle, None) == ValidateLocal(lib, config, old(model), input, address, event)
    {
      hide Sound, LocalsMatch, RemotesMatch, RelationsMatch, HandshakesMatch, ObjectsMatch, GuidsMatch, CaTrusted;
      result, handle := Failed, 0;
      if !input.complete || input.directory.Unreadable? {
        return;
      }
      if input.directory.Loaded? {
        LoadTrustedCas(input.directory.authorities);
      }
      if input.ca.None? {
        return;
      }
      var trusted := IsCaTrusted(lib, input.ca.value, input.crl);
      if !trusted || input.certificate.None? || input.privateKey.None? || !input.keyMatches {
        return;
      }
      if input.crl.BadCrl? || !input.certified || input.expiry == Expiry.DDS_TIME_INVALID || input.guid.None? {
        return;
      }
      var crl := if input.crl.GoodCrl? then Some(input.crl.crl) else None;
      var identity := new LocalIdentityInfo(address, input.guid.value, input.certificate.value, input.ca.value, crl,
                                            input.privateKey.value, config.kem);
      var timed := input.expiry != Expiry.DDS_NEVER;
      if timed {
        identity.timer := event;
      }
      ghost var o := ValidateLocal(lib, config, old(model), input, address, event);
      ValidateLocalSound(lib, config, old(model), input, address, event);
      RegisterLocal(identity, timed, event, o.state);
      result, handle := Ok, address;
    }

    // --------------------------------------------------------- remote identities

    /** `validate_auth_request_token`. */
    method ReadAuthRequest(request: Token) returns (challenge: Option<Nonce>)
      ensures challenge == Announced(request)
    {
      if request.classId != P.AUTH_REQUEST_CLASS_ID {
        return None;
      }
      var properties := request.properties;
      for i := 0 to |properties|
        invariant AnnouncedIn(properties) == AnnouncedIn(properties[i..])
      {
        if P.FUTURE_CHALLENGE <= properties[i].name {
          if |properties[i].value| != CHALLENGE_SIZE {
            return None;
          }
          return Some(properties[i].value);
        }
      }
      return None;
    }

    lemma RemoteMore(identity: RemoteIdentityInfo)
      requires Matches(model) && Fresh(model, identity.handle) && identity.linkHash == map[]
      ensures var h := identity.handle;
              && ObjectsMatch(objectHash[h := RemoteObject(identity)], locals, remotes[h := identity], handshakes)
              && GuidsMatch(remoteGuidHash[identity.guid := identity], remotes[h := identity], model.guids[identity.guid := h])
              && RemotesMatch(remotes[h := identity], relations, model.remotes[h := identity.Model()])
              && RelationsMatch(relations, locals, remotes[h := identity], model.relations)
    {
      hide LocalsMatch, RemotesMatch, RelationsMatch, HandshakesMatch, ObjectsMatch, GuidsMatch, Fresh;
      var h := identity.handle;
      FreshHandle(h);
      RelationsOfRemotes(relations, locals, remotes, model.relations);
      RemoteAdded(remotes, relations, model.remotes, h, identity);
      JoinsMore(relations, locals, remotes, model.relations, locals, remotes[h := identity]);
      RemoteRegistered(objectHash, locals, remotes, handshakes, h, identity);
      GuidAdded(remoteGuidHash, remotes, model.guids, identity);
    }

    /** Puts a new remote identity into both tables. */
    method RegisterRemote(identity: RemoteIdentityInfo)
      requires Valid() && Fresh(model, identity.handle) && identity.guid !in model.guids
      requires identity.timer == 0 && identity.linkHash == map[]
      modifies this
      ensures Valid()
      ensures model == old(model).(remotes := old(model).remotes[identity.handle := identity.Model()],
                                   guids := old(model).guids[identity.guid := identity.handle])
      ensures remotes == old(remotes)[identity.handle := identity]
      ensures locals == old(locals) && relations == old(relations) && handshakes == old(handshakes)
    {
      hide Sound, LocalsMatch, RemotesMatch, RelationsMatch, HandshakesMatch, ObjectsMatch, GuidsMatch, Fresh;
      var h := identity.handle;
      NewRemoteSound(model, h, identity.Model());
      RemoteMore(identity);
      objectHash := objectHash[h := RemoteObject(identity)];
      remoteGuidHash := remoteGuidHash[identity.guid := identity];
      remotes := remotes[h := identity];
      model := model.(remotes := model.remotes[h := identity.Model()], guids := model.guids[identity.guid := h]);
    }

    lemma RelationMore(x: IdentityRelation)
      requires Matches(model) && IsLocal(x.localIdentity) && IsRemote(x.remoteIdentity)
      requires (x.remoteIdentity.handle, x.localIdentity.handle) !in model.relations
      ensures var r, key := x.remoteIdentity.handle, (x.remoteIdentity.handle, x.localIdentity.handle);
              && RelationsMatch(relations[key := x], locals, remotes, model.relations[key := x.Model()])
              && HandshakesMatch(handshakes, relations[key := x], model.handshakes)
              && RemotesMatch(remotes - {r}, relations[key := x], model.remotes - {r})
              && Links(x.remoteIdentity, relations) && x.remoteIdentity !in (remotes - {r}).Values
              && r in model.remotes && model.remotes[r] == x.remoteIdentity.Model()
    {
      hide LocalsMatch, RemotesMatch, RelationsMatch, HandshakesMatch, ObjectsMatch, GuidsMatch, Links;
      var l, r := x.localIdentity.handle, x.remoteIdentity.handle;
      LocalAt(locals, model.locals, l);
      RemoteAt(remotes, relations, model.remotes, r);
      RelationAt(relations, locals, remotes, model.relations, (r, l));
      assert Joins(x, (r, l), locals, remotes);
      RelationAdded(relations, locals, remotes, model.relations, (r, l), x);
      BelongsMore(handshakes, relations, model.handshakes, (r, l), x);
      OtherRemotes(remotes, relations, model.remotes, r);
      LinkAdded(remotes - {r}, relations, model.remotes - {r}, r, l, x);
    }

    /** Puts a relation into the link hash of its remote identity. */
    method LinkRelation(x: IdentityRelation)
      requires Valid() && IsLocal(x.localIdentity) && IsRemote(x.remoteIdentity)
      requires (x.remoteIdentity.handle, x.localIdentity.handle) !in model.relations
      modifies this`model, this`relations, x.remoteIdentity`linkHash
      ensures var key := (x.remoteIdentity.handle, x.localIdentity.handle);
              && relations == old(relations)[key := x]
              && model == old(model).(relations := old(model).relations[key := x.Model()])
      ensures Valid()
    {
      hide Sound, LocalsMatch, RemotesMatch, RelationsMatch, HandshakesMatch, ObjectsMatch, GuidsMatch;
      var l, r := x.localIdentity.handle, x.remoteIdentity.handle;
      RelationSound(model, (r, l), x.Model()) by {
        LocalAt(locals, model.locals, l);
        RemoteAt(remotes, relations, model.remotes, r);
      }
      RelationMore(x);
      x.remoteIdentity.linkHash := x.remoteIdentity.linkHash[l := x];
      assert Links(x.remoteIdentity, relations[(r, l) := x]);
      RemoteChanged(remotes, relations[(r, l) := x], model.remotes, r);
      assert model.remotes[r := x.remoteIdentity.Model()] == model.remotes;
      relations := relations[(r, l) := x];
      model := model.(relations := model.relations[(r, l) := x.Model()]);
      assert RemotesMatch(remotes, relations, model.remotes);
      assert RelationsMatch(relations, locals, remotes, model.relations);
      assert HandshakesMatch(handshakes, relations, model.handshakes);
    }

    /** A new relation of a pair that has none. */
    method AddRelation(local: LocalIdentityInfo, remote: RemoteIdentityInfo, lchallenge: Nonce, rchallenge: Option<Nonce>)
      returns (relation: IdentityRelation)
      requires Valid() && IsLocal(local) && IsRemote(remote) && (remote.handle, local.handle) !in model.relations
      modifies this`model, this`relations, remote`linkHash
      ensures Valid() && fresh(relations.Values - old(relations.Values))
      ensures model == old(model).(relations := old(model).relations[(remote.handle, local.handle) := Relation(lchallenge, rchallenge)])
      ensures relation.Model() == Relation(lchallenge, rchallenge)
    {
      hide Sound, Matches;
      relation := new IdentityRelation(local, remote, lchallenge, rchallenge);
      LinkRelation(relation);
    }

    /** Replaces the peer's challenge in an existing relation. */
    method ReplaceChallenge(relation: IdentityRelation, rchallenge: Option<Nonce>, ghost key: (int, int))
      requires Valid() && key in relations && relation == relations[key] && rchallenge.Some?
      modifies this`model, relations.Values
      ensures Valid()
      ensures model == old(model).(relations := old(model).relations[key := old(model).relations[key].(rchallenge := rchallenge)])
      ensures relation.Model() == model.relations[key]
    {
      hide Sound, LocalsMatch, RemotesMatch, RelationsMatch, HandshakesMatch, ObjectsMatch, GuidsMatch;
      RelationAt(relations, locals, remotes, model.relations, key);
      RelationsDiffer(relations, locals, remotes, model.relations, model.locals, relations, model.remotes, key);
      LocalAt(locals, model.locals, key.1);
      RemoteAt(remotes, relations, model.remotes, key.0);
      OtherRelations(relations, locals, remotes, model.relations, key);
      relation.rchallenge := rchallenge;
      RelationChanged(relations, locals, remotes, model.relations, key);
      RelationSound(model, key, relation.Model());
      model := model.(relations := model.relations[key := relation.Model()]);
    }

    /** The relation of a pair, made or brought up to date. */
    method Relate(local: LocalIdentityInfo, remote: RemoteIdentityInfo, challenge: Nonce, rchallenge: Option<Nonce>)
      returns (relation: IdentityRelation)
      requires Valid() && IsLocal(local) && IsRemote(remote)
      modifies this`model, this`relations, remotes.Values, relations.Values
      ensures Valid() && fresh(relations.Values - old(relations.Values))
      ensures var key := (remote.handle, local.handle);
              && model == old(model).(relations := old(model).relations[key := Related(old(model), key, challenge, rchallenge)])
              && relation.Model() == model.relations[key]
    {
      hide Sound, LocalsMatch, RemotesMatch, RelationsMatch, HandshakesMatch, ObjectsMatch, GuidsMatch;
      ghost var key := (remote.handle, local.handle);
      LocalAt(locals, model.locals, local.handle);
      RemoteAt(remotes, relations, model.remotes, remote.handle);
      RelationAt(relations, locals, remotes, model.relations, key);
      if local.handle !in remote.linkHash {
        relation := AddRelation(local, remote, challenge, rchallenge);
        return;
      }
      relation := remote.linkHash[local.handle];
      if rchallenge.Some? {
        ReplaceChallenge(relation, rchallenge, key);
      } else {
        assert model.relations[key := model.relations[key]] == model.relations;
      }
    }

    /** The remote identity of a GUID: registered if it is new, refused if it came with another token. */
    method FindOrRegisterRemote(identityToken: IdentityToken, guid: Guid, address: int) returns (remote: Option<RemoteIdentityInfo>)
      requires Valid() && Fresh(model, address)
      modifies this
      ensures Valid() && fresh(remotes.Values - old(remotes.Values))
      ensures locals == old(locals) && relations == old(relations) && handshakes == old(handshakes)
      ensures remote.None? <==> guid in old(model).guids &&
                                old(model).remotes[old(model).guids[guid]].identityToken != identityToken
      ensures remote.None? ==> model == old(model) && remotes == old(remotes)
      ensures remote.Some? ==>
                IsRemote(remote.value) &&
                var known := guid in old(model).guids;
                var h := remote.value.handle;
                && h == (if known then old(model).guids[guid] else address)
                && model == old(model).(remotes := if known then old(model).remotes
                                                   else old(model).remotes[h := NewRemote(guid, identityToken)],
                                        guids := old(model).guids[guid := h])
    {
      hide Sound, LocalsMatch, RemotesMatch, RelationsMatch, HandshakesMatch, ObjectsMatch;
      if guid !in remoteGuidHash {
        var made := new RemoteIdentityInfo(address, guid, identityToken);
        RegisterRemote(made);
        remote := Some(made);
      } else {
        var existing := remoteGuidHash[guid];
        RemoteAt(remotes, relations, model.remotes, model.guids[guid]);
        if existing.identityToken != identityToken {
          return None;
        }
        assert model.guids[guid := existing.handle] == model.guids;
        remote := Some(existing);
      }
    }

    /** The local identity that a remote one is introduced to, and the challenge that an
        AuthRequest announces; none if the handle or a token is not acceptable. */
    method AdmitRemote(localHandle: int, identityToken: IdentityToken, request: Option<Token>)
      returns (local: Option<LocalIdentityInfo>, rchallenge: Option<Nonce>)
      requires Valid()
      ensures rchallenge.Some? ==> request.Some?
      ensures local.Some? <==> localHandle in model.locals && identityToken.classId == P.BASE_CLASS_ID
                               && (request.Some? ==> Announced(request.value).Some?)
      ensures local.Some? ==>
                && IsLocal(local.value) && local.value.handle == localHandle && local.value.Model() == model.locals[localHandle]
                && rchallenge == if request.Some? then Announced(request.value) else None
    {
      hide Sound, Matches, Announced;
      local, rchallenge := None, None;
      var found := FindObject(localHandle);
      if found.None? || !found.value.LocalObject? || identityToken.classId != P.BASE_CLASS_ID {
        return;
      }
      if request.Some? {
        rchallenge := ReadAuthRequest(request.value);
        if rchallenge.None? {
          return;
        }
      }
      local := Some(found.value.local);
    }

    /** `validate_remote_identity`. */
    method ValidateRemoteIdentity(localHandle: int, identityToken: IdentityToken, request: Option<Token>, guid: Guid,
                                  challenge: Option<Nonce>, address: int)
      returns (result: Result, handle: int, answer: Option<Token>)
      requires Valid() && Fresh(model, address)
      modifies this, remotes.Values, relations.Values
      ensures Valid()
      ensures fresh(remotes.Values - old(remotes.Values)) && fresh(relations.Values - old(relations.Values))
      ensures locals == old(locals) && handshakes == old(handshakes)
      ensures Step(model, result, handle, answer) ==
              ValidateRemote(old(model), localHandle, identityToken, request, guid, challenge, address)
    {
      hide Matches, IsRemote, Sound, LocalsMatch, RemotesMatch, RelationsMatch, HandshakesMatch, ObjectsMatch, GuidsMatch,
        Announced, RoleOf;
      result, handle, answer := Failed, 0, None;
      var admitted, rchallenge := AdmitRemote(localHandle, identityToken, request);
      if admitted.None? || challenge.None? {
        return;
      }
      var local := admitted.value;
      var known := FindOrRegisterRemote(identityToken, guid, address);
      if known.None? {
        return;
      }
      var remote := known.value;
      var relation := Relate(local, remote, challenge.value, rchallenge);
      handle := remote.handle;
      answer := Some(if request.Some? then NIL_TOKEN else AuthRequest(relation.lchallenge));
      result := if RoleOf(local.guid, guid) == SendsRequest then PendingRequest else PendingMessage;
    }

    // ---------------------------------------------------------------- handshakes

    ghost predicate IsHandshake(x: HandshakeInfo)
      reads this
    {
      x.handle in handshakes && handshakes[x.handle] == x
    }

    /** What `find_handshake` looks for is there at most once. */
    lemma OnlyHandshake(h: int, l: int, r: int)
      requires Sound(model) && IsHandshakeOf(model, h, l, r)
      ensures FindHandshake(model, l, r) == Some(h)
    {
      hide HandlesSound, GuidsSound, RelationsSound, HandshakesSound, TimersSound;
    }

    lemma NoHandshake(s: State, l: int, r: int)
      requires forall h :: !IsHandshakeOf(s, h, l, r)
      ensures FindHandshake(s, l, r) == None
    {
    }

    /** `find_handshake`: visits the object hash in any order. */
    method FindHandshakeObject(l: int, r: int) returns (found: Option<HandshakeInfo>)
      requires Valid()
      ensures found.Some? ==> IsHandshake(found.value) && FindHandshake(model, l, r) == Some(found.value.handle)
      ensures found.None? ==> FindHandshake(model, l, r) == None
    {
      hide Sound, LocalsMatch, RemotesMatch, RelationsMatch, HandshakesMatch, ObjectsMatch, GuidsMatch, FindHandshake;
      var remaining := objectHash.Keys;
      while remaining != {}
        invariant forall h :: h in objectHash.Keys - remaining ==> !IsHandshakeOf(model, h, l, r)
        invariant remaining <= objectHash.Keys
        decreases |remaining|
      {
        HasElement(remaining);
        var h :| h in remaining;
        remaining := remaining - {h};
        ObjectAt(objectHash, locals, remotes, handshakes, h);
        HandshakeAt(handshakes, relations, model.handshakes, h);
        if objectHash[h].HandshakeObject? {
          var x := objectHash[h].handshake;
          if x.relation.localIdentity.handle == l && x.relation.remoteIdentity.handle == r {
            OnlyHandshake(h, l, r);
            return Some(x);
          }
        }
      }
      forall h
        ensures !IsHandshakeOf(model, h, l, r)
      {
        ObjectAt(objectHash, locals, remotes, handshakes, h);
        HandshakeAt(handshakes, relations, model.handshakes, h);
      }
      NoHandshake(model, l, r);
      return None;
    }

    /** Registers a new handshake of a relation. */
    method AddHandshake(relation: IdentityRelation, created: Created, address: int) returns (x: HandshakeInfo)
      requires Valid() && Fresh(model, address)
      requires var key := (relation.remoteIdentity.handle, relation.localIdentity.handle);
               key in relations && relations[key] == relation
      modifies this`objectHash, this`handshakes, this`model
      ensures Matches(model) && x.handle == address && x.relation == relation && fresh(x)
      ensures handshakes == old(handshakes)[address := x]
      ensures model == old(model).(handshakes := old(model).handshakes[address := NewHandshake(
                         relation.localIdentity.handle, relation.remoteIdentity.handle, created)])
    {
      hide Sound, LocalsMatch, RemotesMatch, RelationsMatch, HandshakesMatch, ObjectsMatch, GuidsMatch, Fresh;
      FreshHandle(address);
      x := new HandshakeInfo(address, relation, created);
      HandshakeAdded(handshakes, relations, model.handshakes, address, x);
      HandshakeRegistered(objectHash, locals, remotes, handshakes, address, x);
      objectHash := objectHash[address := HandshakeObject(x)];
      handshakes := handshakes[address := x];
      model := model.(handshakes := model.handshakes[address := x.Model()]);
    }

    /** A registered handshake, seen through its pointers, is the one of the state. */
    lemma HandshakeView(x: HandshakeInfo)
      requires Matches(model) && IsHandshake(x) && HasView(model, x.handle)
      ensures ObjectView(x) == ViewOf(model, x.handle)
      ensures model.handshakes[x.handle] == x.Model()
      ensures IsLocal(x.relation.localIdentity) && IsRemote(x.relation.remoteIdentity)
      ensures x.relation.localIdentity.Model() == model.locals[model.handshakes[x.handle].localHandle]
      ensures var key := (x.relation.remoteIdentity.handle, x.relation.localIdentity.handle);
              key in relations && relations[key] == x.relation
    {
      hide LocalsMatch, RemotesMatch, RelationsMatch, HandshakesMatch, ObjectsMatch, GuidsMatch;
      HandshakeAt(handshakes, relations, model.handshakes, x.handle);
      var key := (x.relation.remoteIdentity.handle, x.relation.localIdentity.handle);
      RelationAt(relations, locals, remotes, model.relations, key);
      LocalAt(locals, model.locals, key.1);
      RemoteAt(remotes, relations, model.remotes, key.0);
    }

    /** The local identity of a handshake, as the state has it. */
    ghost function LocalIn(s: State, h: int): Local
      requires HasView(s, h)
    {
      s.locals[s.handshakes[h].localHandle]
    }

    /** The handshake of a pair, made if there is none. */
    method FindOrMake(local: LocalIdentityInfo, remote: RemoteIdentityInfo, created: Created, address: int)
      returns (x: HandshakeInfo, made: bool)
      requires Valid() && Fresh(model, address) && IsLocal(local) && IsRemote(remote)
      requires (remote.handle, local.handle) in model.relations
      modifies this`objectHash, this`handshakes, this`model
      ensures Matches(model) && AlmostSound(model, x.handle) && IsHandshake(x)
      ensures (model, x.handle, made) == FindOrAdd(old(model), local.handle, remote.handle, created, address)
      ensures handshakes == old(handshakes)[x.handle := x]
      ensures if made then fresh(x) else x in old(handshakes.Values)
      ensures HasView(model, x.handle) && local.handle in old(model).locals
      ensures LocalIn(model, x.handle) == old(model).locals[local.handle] && model.trusted == old(model).trusted
      ensures x.relation.localIdentity == local && x.relation.remoteIdentity == remote
    {
      hide Sound, LocalsMatch, RemotesMatch, RelationsMatch, HandshakesMatch, ObjectsMatch, GuidsMatch, Fresh, AlmostSound,
        FindHandshake;
      FindOrAddAlmostSound(model, local.handle, remote.handle, created, address);
      ghost var key := (remote.handle, local.handle);
      RelationAt(relations, locals, remotes, model.relations, key);
      RemoteAt(remotes, relations, model.remotes, remote.handle);
      var found := FindHandshakeObject(local.handle, remote.handle);
      LocalAt(locals, model.locals, local.handle);
      if found.Some? {
        x, made := found.value, false;
        AlmostSoundHasView(model, x.handle);
        HandshakeView(x);
      } else {
        var relation := remote.linkHash[local.handle];
        x := AddHandshake(relation, created, address);
        made := true;
        AlmostSoundHasView(model, x.handle);
      }
    }

    /** The pointers of a registered handshake. */
    ghost predicate Attached(x: HandshakeInfo)
      reads this
    {
      var key := (x.relation.remoteIdentity.handle, x.relation.localIdentity.handle);
      && IsHandshake(x) && HasView(model, x.handle) && IsRemote(x.relation.remoteIdentity) && IsLocal(x.relation.localIdentity)
      && (model.handshakes[x.handle].remoteHandle, model.handshakes[x.handle].localHandle) == key
      && key in relations && relations[key] == x.relation
      && x !in (handshakes - {x.handle}).Values
      && x.relation !in (relations - {key}).Values
      && x.relation.remoteIdentity !in (remotes - {key.0}).Values
    }

    /** All but the objects of one handshake match the state. */
    ghost predicate OthersMatch(x: HandshakeInfo)
      reads this, locals.Values, (remotes - {x.relation.remoteIdentity.handle}).Values
      reads (relations - {(x.relation.remoteIdentity.handle, x.relation.localIdentity.handle)}).Values
      reads (handshakes - {x.handle}).Values
    {
      var r, key := x.relation.remoteIdentity.handle, (x.relation.remoteIdentity.handle, x.relation.localIdentity.handle);
      && TablesMatch(model)
      && LocalsMatch(locals, model.locals)
      && RemotesMatch(remotes - {r}, relations, model.remotes - {r})
      && RelationsMatch(relations - {key}, locals, remotes, model.relations - {key})
      && HandshakesMatch(handshakes - {x.handle}, relations, model.handshakes - {x.handle})
    }

    lemma HandshakeAttached(x: HandshakeInfo)
      requires Matches(model) && IsHandshake(x) && HasView(model, x.handle)
      ensures Attached(x) && OthersMatch(x) && ObjectView(x) == ViewOf(model, x.handle)
      ensures Links(x.relation.remoteIdentity, relations)
      ensures x.relation.localIdentity.Model() == model.locals[model.handshakes[x.handle].localHandle]
    {
      hide LocalsMatch, RemotesMatch, RelationsMatch, HandshakesMatch, ObjectsMatch, GuidsMatch, Links, Belongs, Joins;
      HandshakeView(x);
      var key := (x.relation.remoteIdentity.handle, x.relation.localIdentity.handle);
      RelationsDiffer(relations, locals, remotes, model.relations, model.locals, relations, model.remotes, key);
      OtherRemotes(remotes, relations, model.remotes, key.0);
      OtherRelations(relations, locals, remotes, model.relations, key);
      OtherHandshakes(handshakes, relations, model.handshakes, x.handle);
    }

    /** Changing the objects of one handshake is storing its view. */
    lemma ViewChanged(x: HandshakeInfo)
      requires OthersMatch(x) && Attached(x) && Links(x.relation.remoteIdentity, relations)
      ensures Matches(WithView(model, x.handle, ObjectView(x)))
    {
      hide LocalsMatch, RemotesMatch, RelationsMatch, HandshakesMatch, ObjectsMatch, GuidsMatch, Links;
      var key := (x.relation.remoteIdentity.handle, x.relation.localIdentity.handle);
      RemoteChanged(remotes, relations, model.remotes, key.0);
      RelationChanged(relations, locals, remotes, model.relations, key);
      HandshakeChanged(handshakes, relations, model.handshakes, x.handle);
    }

    /** Takes a handshake out of the object hash. */
    method RemoveHandshake(x: HandshakeInfo)
      requires Matches(model) && AlmostSound(model, x.handle) && IsHandshake(x)
      modifies this`objectHash, this`handshakes, this`model
      ensures Valid() && model == DropHandshake(old(model), x.handle) && handshakes == old(handshakes) - {x.handle}
      ensures objectHash == old(objectHash) - {x.handle}
    {
      hide Sound, AlmostSound, LocalsMatch, RemotesMatch, RelationsMatch, HandshakesMatch, ObjectsMatch, GuidsMatch;
      DropSound(model, x.handle);
      HandshakeRemoved(objectHash, locals, remotes, handshakes, relations, model.handshakes, x.handle);
      objectHash := objectHash - {x.handle};
      handshakes := handshakes - {x.handle};
      model := DropHandshake(model, x.handle);
    }

    /** Keeps the participant data that was sent first. */
    method KeepLocalData(local: LocalIdentityInfo, pdata: OctetSeq)
      requires Valid() && IsLocal(local)
      modifies this`model, local
      ensures Valid() && local.handle in old(model).locals && model == KeepData(old(model), local.handle, pdata)
    {
      hide Sound, LocalsMatch, RemotesMatch, RelationsMatch, HandshakesMatch, ObjectsMatch, GuidsMatch;
      LocalAt(locals, model.locals, local.handle);
      KeepDataSound(model, local.handle, pdata);
      if |local.pdata| == 0 {
        OtherLocals(locals, model.locals, local.handle);
        local.pdata := pdata;
        LocalChanged(locals, model.locals, local.handle);
      }
      model := KeepData(model, local.handle, pdata);
    }

    /** The exits of both `begin_` calls: a failed handshake that was made is removed, a
        successful one leaves the participant data with the local identity. */
    method EndBegin(local: LocalIdentityInfo, pdata: OctetSeq, x: HandshakeInfo, made: bool, outcome: Result)
      requires Matches(model) && AlmostSound(model, x.handle) && IsHandshake(x) && IsLocal(local)
      requires !made || outcome != Failed ==> Sound(model)
      modifies this`objectHash, this`handshakes, this`model, local
      ensures Valid() && handshakes.Values <= old(handshakes.Values)
      ensures outcome == Failed ==> model == if made then DropHandshake(old(model), x.handle) else old(model)
      ensures outcome != Failed ==> local.handle in old(model).locals && model == KeepData(old(model), local.handle, pdata)
    {
      hide Sound, AlmostSound, Matches, KeepData;
      if outcome != Failed {
        KeepLocalData(local, pdata);
      } else if made {
        RemoveHandshake(x);
      }
    }

    /** The local and the remote identity that a `begin_` call names. */
    method FindPair(l: int, r: int) returns (pair: Option<(LocalIdentityInfo, RemoteIdentityInfo)>)
      requires Valid()
      ensures pair.Some? <==> l in model.locals && r in model.remotes
      ensures pair.Some? ==>
                && IsLocal(pair.value.0) && pair.value.0.handle == l && pair.value.0.Model() == model.locals[l]
                && IsRemote(pair.value.1) && pair.value.1.handle == r
                && pair.value.0 in locals.Values && pair.value.1 in remotes.Values
    {
      hide Sound, Matches;
      var local := FindObject(l);
      var remote := FindObject(r);
      if local.None? || !local.value.LocalObject? || remote.None? || !remote.value.RemoteObject? {
        return None;
      }
      return Some((local.value.local, remote.value.remote));
    }

    /** Runs a request on the objects of a handshake, and stores what became of them. */
    method RunRequest(lib: Library, x: HandshakeInfo, contents: OctetSeq, pdata: OctetSeq, key: Option<KeyPair>)
      returns (result: Result, message: Option<Token>)
      requires Matches(model) && IsHandshake(x) && HasView(model, x.handle)
      modifies this`model, x
      ensures Matches(model)
      ensures var s := old(model);
              var o := MakeRequest(lib, config, LocalIn(s, x.handle), contents, pdata, key, ViewOf(s, x.handle));
              model == WithView(s, x.handle, o.view) && result == o.result && message == o.message
    {
      hide Sound, AlmostSound, LocalsMatch, RemotesMatch, RelationsMatch, HandshakesMatch, ObjectsMatch, GuidsMatch, MakeRequest,
        AnswerRequest, ProcessReply, ProcessFinal, ViewOf, HasView, OthersMatch;
      HandshakeAttached(x);
      result, message := RequestOn(lib, config, x, contents, pdata, key);
      ViewChanged(x);
      model := WithView(model, x.handle, ObjectView(x));
    }

    method RunAnswer(lib: Library, x: HandshakeInfo, token: Token, pdata: OctetSeq, now: int, coins: Coins, unset: OctetSeq,
                     sign: Signer)
      returns (result: Result, message: Option<Token>)
      requires Matches(model) && IsHandshake(x) && HasView(model, x.handle)
      modifies this`model, x, x.relation, x.relation.remoteIdentity
      ensures Matches(model)
      ensures var s := old(model);
              var o := AnswerRequest(lib, config, LocalIn(s, x.handle), s.trusted, now, token, pdata, coins, unset, sign,
                                     ViewOf(s, x.handle));
              model == WithView(s, x.handle, o.view) && result == o.result && message == o.message
    {
      hide Sound, AlmostSound, LocalsMatch, RemotesMatch, RelationsMatch, HandshakesMatch, ObjectsMatch, GuidsMatch, MakeRequest,
        AnswerRequest, ProcessReply, ProcessFinal, ViewOf, HasView, OthersMatch;
      HandshakeAttached(x);
      result, message := AnswerOn(lib, config, trustedCaList, now, token, pdata, coins, unset, sign, x);
      ViewChanged(x);
      model := WithView(model, x.handle, ObjectView(x));
    }

    method RunProcess(lib: Library, x: HandshakeInfo, token: Token, now: int, expiryKnown: bool, sign: Signer)
      returns (result: Result, message: Option<Token>)
      requires Matches(model) && IsHandshake(x) && HasView(model, x.handle)
      requires x.created == CreatedReply ==> x.relation.rchallenge.Some?
      modifies this`model, x, x.relation, x.relation.remoteIdentity
      ensures Matches(model)
      ensures var s := old(model);
              var o := if x.created == CreatedRequest
                       then ProcessReply(lib, config, LocalIn(s, x.handle), s.trusted, now, token, expiryKnown, sign, ViewOf(s, x.handle))
                       else ProcessFinal(lib, config, LocalIn(s, x.handle), s.trusted, now, token, expiryKnown, ViewOf(s, x.handle));
              model == WithView(s, x.handle, o.view) && result == o.result && message == o.message
    {
      hide Sound, AlmostSound, LocalsMatch, RemotesMatch, RelationsMatch, HandshakesMatch, ObjectsMatch, GuidsMatch, MakeRequest,
        AnswerRequest, ProcessReply, ProcessFinal, ViewOf, HasView, OthersMatch;
      HandshakeAttached(x);
      if x.created == CreatedRequest {
        result, message := ProcessReplyOn(lib, config, trustedCaList, now, token, expiryKnown, sign, x);
      } else {
        result := ProcessFinalOn(lib, config, trustedCaList, now, token, expiryKnown, x);
        message := None;
      }
      ViewChanged(x);
      model := WithView(model, x.handle, ObjectView(x));
    }

    /** What a registered handshake points at is registered. */
    lemma PointsAtRegistered(x: HandshakeInfo)
      requires Matches(model) && IsHandshake(x) && HasView(model, x.handle)
      ensures x.relation in relations.Values && x.relation.remoteIdentity in remotes.Values
      ensures IsRemote(x.relation.remoteIdentity) && ObjectView(x) == ViewOf(model, x.handle)
      ensures model.handshakes[x.handle].remoteHandle == x.relation.remoteIdentity.handle
      ensures model.handshakes[x.handle] == x.Model() && x in handshakes.Values
    {
      hide Matches, OthersMatch;
      HandshakeAttached(x);
    }

    /** Finds or makes the handshake of a request, and runs the request on it. */
    method RequestOnHandshake(lib: Library, local: LocalIdentityInfo, remote: RemoteIdentityInfo, contents: OctetSeq,
                              pdata: OctetSeq, key: Option<KeyPair>, address: int)
      returns (x: HandshakeInfo, made: bool, result: Result, message: Option<Token>, ghost s1: State)
      requires Valid() && Fresh(model, address) && IsLocal(local) && IsRemote(remote)
      requires (remote.handle, local.handle) in model.relations
      modifies this`objectHash, this`handshakes, this`model, handshakes.Values
      ensures Valid() && AlmostSound(model, x.handle) && IsHandshake(x) && IsLocal(local)
      ensures handshakes == old(handshakes)[x.handle := x] && fresh(handshakes.Values - old(handshakes.Values))
      ensures local.handle in old(model).locals
      ensures (s1, x.handle, made) == FindOrAdd(old(model), local.handle, remote.handle, CreatedRequest, address)
      ensures HasView(s1, x.handle)
      ensures var o := MakeRequest(lib, config, old(model).locals[local.handle], contents, pdata, key, ViewOf(s1, x.handle));
              model == WithView(s1, x.handle, o.view) && result == o.result && message == o.message
    {
      hide Sound, AlmostSound, LocalsMatch, RemotesMatch, RelationsMatch, HandshakesMatch, ObjectsMatch, GuidsMatch, Fresh,
        FindOrAdd, MakeRequest, ViewOf, HasView, OthersMatch;
      LocalAt(locals, model.locals, local.handle);
      ghost var s0 := model;
      x, made := FindOrMake(local, remote, CreatedRequest, address);
      s1 := model;
      AlmostSoundHasView(model, x.handle);
      RequestKeeps(lib, config, s0.locals[local.handle], contents, pdata, key, ViewOf(model, x.handle));
      result, message := RunRequest(lib, x, contents, pdata, key);
      StoredSound(s0, local.handle, remote.handle, CreatedRequest, address,
                  MakeRequest(lib, config, s0.locals[local.handle], contents, pdata, key, ViewOf(s1, x.handle)).view);
    }

    /** `begin_handshake_request`. */
    method BeginHandshakeRequest(lib: Library, initiatorHandle: int, replierHandle: int, pdata: OctetSeq, key: Option<KeyPair>,
                                 address: int)
      returns (result: Result, handle: int, message: Option<Token>)
      requires Valid() && Fresh(model, address) && Introduced(model, initiatorHandle, replierHandle)
      modifies this`objectHash, this`handshakes, this`model, locals.Values, handshakes.Values
      ensures Valid() && fresh(handshakes.Values - old(handshakes.Values))
      ensures Step(model, result, handle, message) ==
              BeginRequest(lib, config, old(model), initiatorHandle, replierHandle, pdata, key, address)
    {
      hide Matches, Sound, AlmostSound, LocalsMatch, RemotesMatch, RelationsMatch, HandshakesMatch, ObjectsMatch, GuidsMatch, Fresh,
        FindOrAdd, MakeRequest, KeepData, ViewOf, HasView, IsLocal, IsRemote, IsHandshake;
      result, handle, message := Failed, 0, None;
      var pair := FindPair(initiatorHandle, replierHandle);
      if pair.None? {
        return;
      }
      var local, remote := pair.value.0, pair.value.1;
      var contents := lib.pem(local.certificate);
      if contents.None? {
        return;
      }
      var x, made, outcome, token;
      ghost var s1;
      x, made, outcome, token, s1 := RequestOnHandshake(lib, local, remote, contents.value, pdata, key, address);
      EndBegin(local, pdata, x, made, outcome);
      if outcome != Failed {
        result, handle, message := outcome, x.handle, token;
      }
    }

    /** Finds or makes the handshake of a reply, and answers the request on it. */
    method AnswerOnHandshake(lib: Library, local: LocalIdentityInfo, remote: RemoteIdentityInfo, token: Token, pdata: OctetSeq,
                             now: int, coins: Coins, unset: OctetSeq, sign: Signer, address: int)
      returns (x: HandshakeInfo, made: bool, result: Result, message: Option<Token>, ghost s1: State)
      requires Valid() && Fresh(model, address) && IsLocal(local) && IsRemote(remote)
      requires (remote.handle, local.handle) in model.relations
      modifies this`objectHash, this`handshakes, this`model, remotes.Values, relations.Values, handshakes.Values
      ensures Matches(model) && AlmostSound(model, x.handle) && IsHandshake(x) && IsLocal(local)
      ensures !made || result != Failed ==> Sound(model)
      ensures handshakes == old(handshakes)[x.handle := x] && fresh(handshakes.Values - old(handshakes.Values))
      ensures local.handle in old(model).locals
      ensures (s1, x.handle, made) == FindOrAdd(old(model), local.handle, remote.handle, CreatedReply, address)
      ensures HasView(s1, x.handle)
      ensures var o := AnswerRequest(lib, config, old(model).locals[local.handle], old(model).trusted, now, token, pdata, coins,
                                     unset, sign, ViewOf(s1, x.handle));
              model == WithView(s1, x.handle, o.view) && result == o.result && message == o.message
    {
      hide Sound, AlmostSound, LocalsMatch, RemotesMatch, RelationsMatch, HandshakesMatch, ObjectsMatch, GuidsMatch, Fresh,
        FindOrAdd, AnswerRequest, ViewOf, HasView, OthersMatch;
      LocalAt(locals, model.locals, local.handle);
      ghost var s0 := model;
      x, made := FindOrMake(local, remote, CreatedReply, address);
      s1 := model;
      AlmostSoundHasView(model, x.handle);
      PointsAtRegistered(x);
      AnswerKeeps(lib, config, s0.locals[local.handle], trustedCaList, now, token, pdata, coins, unset, sign, ViewOf(s1, x.handle));
      result, message := RunAnswer(lib, x, token, pdata, now, coins, unset, sign);
      StoredSound(s0, local.handle, remote.handle, CreatedReply, address,
                  AnswerRequest(lib, config, s0.locals[local.handle], s0.trusted, now, token, pdata, coins, unset, sign,
                                ViewOf(s1, x.handle)).view);
    }

    /** `begin_handshake_reply`. */
    method BeginHandshakeReply(lib: Library, token: Token, initiatorHandle: int, replierHandle: int, pdata: OctetSeq, now: int,
                               coins: Coins, unset: OctetSeq, sign: Signer, address: int)
      returns (result: Result, handle: int, message: Option<Token>)
      requires Valid() && Fresh(model, address) && Introduced(model, replierHandle, initiatorHandle)
      modifies this`objectHash, this`handshakes, this`model, locals.Values, remotes.Values, relations.Values, handshakes.Values
      ensures Valid() && fresh(handshakes.Values - old(handshakes.Values))
      ensures Step(model, result, handle, message) ==
              BeginReply(lib, config, old(model), token, initiatorHandle, replierHandle, pdata, now, coins, unset, sign, address)
    {
      hide Matches, Sound, AlmostSound, LocalsMatch, RemotesMatch, RelationsMatch, HandshakesMatch, ObjectsMatch, GuidsMatch, Fresh,
        FindOrAdd, AnswerRequest, KeepData, ViewOf, HasView, IsLocal, IsRemote, IsHandshake;
      result, handle, message := Failed, 0, None;
      if |pdata| == 0 {
        return;
      }
      var pair := FindPair(replierHandle, initiatorHandle);
      if pair.None? {
        return;
      }
      var local, remote := pair.value.0, pair.value.1;
      var x, made, outcome, reply;
      ghost var s1;
      x, made, outcome, reply, s1 := AnswerOnHandshake(lib, local, remote, token, pdata, now, coins, unset, sign, address);
      EndBegin(local, pdata, x, made, outcome);
      if outcome != Failed {
        result, handle, message := outcome, x.handle, reply;
      }
    }

    /** Adds the expiry event of a remote identity, unless it has one or never expires. */
    method WatchExpiry(remote: RemoteIdentityInfo, expiry: Expiry.int64, event: nat)
      requires Valid() && IsRemote(remote) && FreshEvent(model, event)
      modifies this`pending, this`model, remote`timer
      ensures Valid() && remote.handle in old(model).remotes && model == Watch(old(model), remote.handle, expiry, event)
    {
      hide Sound, LocalsMatch, RemotesMatch, RelationsMatch, HandshakesMatch, ObjectsMatch, GuidsMatch;
      RemoteAt(remotes, relations, model.remotes, remote.handle);
      if expiry != Expiry.DDS_NEVER && remote.timer == 0 {
        AddExpiryEvent(remote, expiry, event);
      }
    }

    method AddExpiryEvent(remote: RemoteIdentityInfo, ghost expiry: Expiry.int64, event: nat)
      requires Valid() && IsRemote(remote) && FreshEvent(model, event)
      requires expiry != Expiry.DDS_NEVER && remote.timer == 0
      modifies this`pending, this`model, remote`timer
      ensures Valid() && remote.handle in old(model).remotes && model == Watch(old(model), remote.handle, expiry, event)
    {
      hide Sound, LocalsMatch, RemotesMatch, RelationsMatch, HandshakesMatch, ObjectsMatch, GuidsMatch, FreshEvent;
      RemoteAt(remotes, relations, model.remotes, remote.handle);
      WatchSound(model, remote.handle, expiry, event);
      OtherRemotes(remotes, relations, model.remotes, remote.handle);
      remote.timer := event;
      RemoteChanged(remotes, relations, model.remotes, remote.handle);
      pending := pending[event := remote.handle];
      model := Watch(model, remote.handle, expiry, event);
    }

    /** The part of `process_handshake` that works on the handshake. */
    method ProcessOnHandshake(lib: Library, x: HandshakeInfo, token: Token, now: int, expiryKnown: bool, sign: Signer)
      returns (result: Result, message: Option<Token>)
      requires Valid() && IsHandshake(x)
      modifies this`model, remotes.Values, relations.Values, handshakes.Values
      ensures Valid() && IsRemote(x.relation.remoteIdentity)
      ensures HasView(old(model), x.handle) && old(model).handshakes[x.handle].remoteHandle == x.relation.remoteIdentity.handle
      ensures var s := old(model);
              var hs := s.handshakes[x.handle];
              var o := if hs.created == CreatedRequest
                       then ProcessReply(lib, config, s.locals[hs.localHandle], s.trusted, now, token, expiryKnown, sign, ViewOf(s, x.handle))
                       else ProcessFinal(lib, config, s.locals[hs.localHandle], s.trusted, now, token, expiryKnown, ViewOf(s, x.handle));
              model == WithView(s, x.handle, o.view) && result == o.result && message == o.message
    {
      hide AlmostSound, LocalsMatch, RemotesMatch, RelationsMatch, HandshakesMatch, ObjectsMatch, GuidsMatch, ProcessReply, ProcessFinal,
        HandlesSound, GuidsSound, RelationsSound, HandshakesSound, AtMostOneHandshake, TimersSound;
      HandshakeAt(handshakes, relations, model.handshakes, x.handle);
      ReplyHasChallenge(model, x.handle);
      PointsAtRegistered(x);
      SoundIsAlmostSound(model, x.handle);
      ghost var s, v := model, ViewOf(model, x.handle);
      ProcessKeeps(lib, config, LocalIn(s, x.handle), s.trusted, now, token, expiryKnown, sign, v);
      result, message := RunProcess(lib, x, token, now, expiryKnown, sign);
      ghost var w := if x.created == CreatedRequest
                     then ProcessReply(lib, config, LocalIn(s, x.handle), s.trusted, now, token, expiryKnown, sign, v).view
                     else ProcessFinal(lib, config, LocalIn(s, x.handle), s.trusted, now, token, expiryKnown, v).view;
      WithViewSound(s, x.handle, w);
    }

    lemma ReplyHasChallenge(s: State, h: int)
      requires Sound(s) && h in s.handshakes
      ensures HasView(s, h)
      ensures s.handshakes[h].created == CreatedReply ==> ViewOf(s, h).relation.rchallenge.Some?
    {
    }

    /** `process_handshake`. */
    method ProcessHandshake(lib: Library, token: Token, handle: int, now: int, expiry: Expiry.int64, event: nat, sign: Signer)
      returns (result: Result, message: Option<Token>)
      requires Valid() && FreshEvent(model, event)
      modifies this`model, this`pending, remotes.Values, relations.Values, handshakes.Values
      ensures Valid()
      ensures handle in old(model).handshakes ==> HasView(old(model), handle)
      ensures Step(model, result, handle, message) == Process(lib, config, old(model), token, handle, now, expiry, event, sign)
    {
      hide Matches, Sound, LocalsMatch, RemotesMatch, RelationsMatch, HandshakesMatch, ObjectsMatch, GuidsMatch, ProcessReply, ProcessFinal,
        Watch, ViewOf;
      result, message := Failed, None;
      if handle in model.handshakes {
        ReplyHasChallenge(model, handle);
      }
      if handle == 0 {
        return;
      }
      var found := FindObject(handle);
      if found.None? || !found.value.HandshakeObject? {
        return;
      }
      var x := found.value.handshake;
      var outcome, final := ProcessOnHandshake(lib, x, token, now, expiry != Expiry.DDS_TIME_INVALID, sign);
      result := outcome;
      message := final;
      if outcome != Failed {
        WatchExpiry(x.relation.remoteIdentity, expiry, event);
      }
    }

    // --------------------------------------------------------- results, returns

    /** `get_shared_secret`. */
    method SharedSecretOf(handle: int) returns (secret: Option<SharedSecret>)
      requires Valid()
      ensures secret == GetSharedSecret(model, handle)
    {
      hide Sound, LocalsMatch, RemotesMatch, RelationsMatch, HandshakesMatch, ObjectsMatch, GuidsMatch;
      if handle == 0 {
        return None;
      }
      var found := FindObject(handle);
      if found.None? || !found.value.HandshakeObject? {
        return None;
      }
      HandshakeAt(handshakes, relations, model.handshakes, handle);
      return found.value.handshake.shared;
    }

    /** `get_authenticated_peer_credential_token`: certificate and permissions. */
    method PeerCredentialsOf(lib: Library, handle: int) returns (credentials: Option<(OctetSeq, CString)>)
      requires Valid()
      ensures handle in model.handshakes ==> HasView(model, handle)
      ensures credentials == GetPeerCredentials(lib, model, handle)
    {
      hide Sound, LocalsMatch, RemotesMatch, RelationsMatch, HandshakesMatch, ObjectsMatch, GuidsMatch;
      if handle in model.handshakes {
        ReplyHasChallenge(model, handle);
      }
      if handle == 0 {
        return None;
      }
      var found := FindObject(handle);
      if found.None? || !found.value.HandshakeObject? {
        return None;
      }
      HandshakeView(found.value.handshake);
      var remote := found.value.handshake.relation.remoteIdentity;
      if remote.certificate.None? {
        return None;
      }
      var contents := lib.pem(remote.certificate.value);
      if contents.None? {
        return None;
      }
      return Some((contents.value, remote.permissions));
    }

    /** `return_handshake_handle`. */
    method ReturnHandshakeHandle(handle: int) returns (ok: bool)
      requires Valid()
      modifies this`objectHash, this`handshakes, this`model
      ensures Valid()
      ensures var o := ReturnHandshake(old(model), handle); model == o.state && (ok <==> o.result == Ok)
    {
      hide Matches, Sound, LocalsMatch, RemotesMatch, RelationsMatch, HandshakesMatch, ObjectsMatch, GuidsMatch, AlmostSound;
      if handle == 0 {
        return false;
      }
      var found := FindObject(handle);
      if found.None? || !found.value.HandshakeObject? {
        return false;
      }
      SoundIsAlmostSound(model, handle);
      RemoveHandshake(found.value.handshake);
      ok := true;
    }

    lemma RelationGone(key: (int, int))
      requires Matches(model) && forall h :: !IsHandshakeOf(model, h, key.1, key.0)
      ensures RelationsMatch(relations - {key}, locals, remotes, model.relations - {key})
      ensures HandshakesMatch(handshakes, relations - {key}, model.handshakes)
    {
      hide LocalsMatch, RemotesMatch, RelationsMatch, HandshakesMatch, ObjectsMatch, GuidsMatch;
      RelationRemoved(relations, locals, remotes, model.relations, key);
      forall h | h in model.handshakes
        ensures (model.handshakes[h].remoteHandle, model.handshakes[h].localHandle) != key
      {
        assert !IsHandshakeOf(model, h, key.1, key.0);
      }
      BelongsLess(handshakes, relations, model.handshakes, key);
    }

    /** `remove_identity_relation`, once no handshake belongs to the relation. */
    method RemoveRelation(remote: RemoteIdentityInfo, l: int)
      requires Valid() && IsRemote(remote) && forall h :: !IsHandshakeOf(model, h, l, remote.handle)
      modifies this`model, this`relations, remote`linkHash
      ensures Valid()
      ensures var key := (remote.handle, l);
              model == old(model).(relations := old(model).relations - {key}) && relations == old(relations) - {key}
      ensures remote.linkHash == old(remote.linkHash) - {l}
    {
      hide Sound, LocalsMatch, RemotesMatch, RelationsMatch, HandshakesMatch, ObjectsMatch, GuidsMatch;
      ghost var key := (remote.handle, l);
      DropRelationSound(model, key);
      RelationGone(key);
      OtherRemotes(remotes, relations, model.remotes, remote.handle);
      RemoteAt(remotes, relations, model.remotes, remote.handle);
      LinkRemoved(remotes - {remote.handle}, relations, model.remotes - {remote.handle}, remote.handle, l);
      remote.linkHash := remote.linkHash - {l};
      assert Links(remote, relations - {key});
      RemoteChanged(remotes, relations - {key}, model.remotes, remote.handle);
      assert model.remotes[remote.handle := remote.Model()] == model.remotes;
      relations := relations - {key};
      model := model.(relations := model.relations - {key});
      assert LocalsMatch(locals, model.locals);
      assert RemotesMatch(remotes, relations, model.remotes);
      assert RelationsMatch(relations, locals, remotes, model.relations);
      assert HandshakesMatch(handshakes, relations, model.handshakes);
    }

    /** Removes the handshake of a pair that `find_handshake` finds, then its relation. */
    method ForgetPair(remote: RemoteIdentityInfo, l: int)
      requires Valid() && IsRemote(remote)
      modifies this`objectHash, this`handshakes, this`relations, this`model, remote`linkHash
      ensures Valid() && Forgot(old(model), model, {(remote.handle, l)})
      ensures relations == old(relations) - {(remote.handle, l)} && handshakes.Keys <= old(handshakes.Keys)
      ensures remote.linkHash == old(remote.linkHash) - {l}
      ensures objectHash.Keys <= old(objectHash.Keys)
    {
      hide Matches, Sound, LocalsMatch, RemotesMatch, RelationsMatch, HandshakesMatch, ObjectsMatch, GuidsMatch, AlmostSound, FindHandshake, Forgot;
      ghost var s0 := model;
      var x := FindHandshakeObject(l, remote.handle);
      if x.Some? {
        SoundIsAlmostSound(model, x.value.handle);
        NoneLeft(model, x.value.handle, l, remote.handle);
        RemoveHandshake(x.value);
      }
      RemoveRelation(remote, l);
      ForgotPair(s0, model, (remote.handle, l));
    }

    /** `invalidate_local_related_objects`: visits the objects of a snapshot of the hash,
        in any order; only remote identities count, and none of those goes away. */
    method InvalidateLocalRelatedObjects(local: LocalIdentityInfo)
      requires Valid() && IsLocal(local)
      modifies this`objectHash, this`handshakes, this`relations, this`model, remotes.Values
      ensures Valid() && model == ForgetLocal(old(model), local.handle)
      ensures objectHash.Keys <= old(objectHash.Keys)
    {
      hide Matches, Sound, LocalsMatch, RemotesMatch, RelationsMatch, HandshakesMatch, ObjectsMatch, GuidsMatch, Forgot, ForgetLocal;
      ghost var s0, l := model, local.handle;
      ghost var pairs: set<(int, int)> := {};
      NothingForgotten(s0);
      RemotesRegistered();
      var remaining := objectHash.Keys;
      while remaining != {}
        invariant Valid() && Forgot(s0, model, pairs) && model.remotes == s0.remotes
        invariant objectHash.Keys <= old(objectHash.Keys)
        invariant forall k :: k in pairs ==> k.1 == l
        invariant forall r :: r in s0.remotes ==> r in remaining || (r, l) in pairs
        decreases |remaining|
      {
        HasElement(remaining);
        var h :| h in remaining;
        remaining := remaining - {h};
        var found := FindObject(h);
        if found.Some? && found.value.RemoteObject? {
          ghost var s1 := model;
          ForgetPair(found.value.remote, local.handle);
          ForgotMore(s0, s1, model, pairs, {(h, l)});
          ForgotKeepsIdentities(s1, model, {(h, l)});
          pairs := pairs + {(h, l)};
        }
      }
      ForgotLocal(s0, model, l, pairs);
    }

    lemma RemotesRegistered()
      requires Valid()
      ensures model.remotes.Keys <= objectHash.Keys
    {
      hide Sound, LocalsMatch, RelationsMatch, HandshakesMatch, GuidsMatch;
    }

    lemma NothingForgotten(s: State)
      ensures Forgot(s, s, {})
    {
    }

    lemma ForgotKeepsIdentities(s: State, t: State, pairs: set<(int, int)>)
      requires Forgot(s, t, pairs)
      ensures t.remotes == s.remotes && t.locals == s.locals
    {
    }

    /** `invalidate_remote_related_objects`: visits the relations of the link hash. */
    method InvalidateRemoteRelatedObjects(remote: RemoteIdentityInfo)
      requires Valid() && IsRemote(remote)
      modifies this`objectHash, this`handshakes, this`relations, this`model, remote`linkHash
      ensures Valid() && model == ForgetRemote(old(model), remote.handle)
    {
      hide Matches, Sound, LocalsMatch, RemotesMatch, RelationsMatch, HandshakesMatch, ObjectsMatch, GuidsMatch, Forgot, ForgetRemote;
      ghost var s0, r := model, remote.handle;
      ghost var pairs: set<(int, int)> := {};
      NothingForgotten(s0);
      LinkedLocals(remote);
      var remaining := remote.linkHash.Keys;
      while remaining != {}
        invariant Valid() && Forgot(s0, model, pairs)
        invariant forall k :: k in pairs ==> k.0 == r
        invariant forall l :: (r, l) in s0.relations ==> l in remaining || (r, l) in pairs
        decreases |remaining|
      {
        HasElement(remaining);
        var l :| l in remaining;
        remaining := remaining - {l};
        ghost var s1 := model;
        ForgetPair(remote, l);
        ForgotMore(s0, s1, model, pairs, {(r, l)});
        pairs := pairs + {(r, l)};
      }
      ForgotRemote(s0, model, r, pairs);
    }

    lemma LinkedLocals(remote: RemoteIdentityInfo)
      requires Valid() && IsRemote(remote)
      ensures forall l :: (remote.handle, l) in model.relations ==> l in remote.linkHash
    {
      hide Sound, LocalsMatch, HandshakesMatch, ObjectsMatch, GuidsMatch, RelationsMatch, RemotesMatch;
      RemoteAt(remotes, relations, model.remotes, remote.handle);
      forall l | (remote.handle, l) in model.relations
        ensures l in remote.linkHash
      {
        RelationAt(relations, locals, remotes, model.relations, (remote.handle, l));
      }
    }

    lemma LocalGone(local: LocalIdentityInfo)
      requires Matches(model) && IsLocal(local) && local.handle in model.locals && local.handle !in model.remotes
      requires forall k :: k in model.relations ==> k.0 != local.handle && k.1 != local.handle
      ensures var h := local.handle;
              && local.Model() == model.locals[h]
              && ObjectsMatch(objectHash - {h}, locals - {h}, remotes, handshakes)
              && LocalsMatch(locals - {h}, model.locals - {h})
              && RelationsMatch(relations, locals - {h}, remotes, model.relations)
    {
      hide LocalsMatch, RemotesMatch, RelationsMatch, HandshakesMatch, ObjectsMatch, GuidsMatch;
      var h := local.handle;
      LocalAt(locals, model.locals, h);
      RemoteAt(remotes, relations, model.remotes, h);
      IdentityRemoved(objectHash, locals, remotes, handshakes, h);
      LocalRemoved(locals, model.locals, h);
      JoinsLess(relations, locals, remotes, model.relations, h);
      assert remotes - {h} == remotes;
    }

    /** Takes a local identity that nothing names any more out of the tables. */
    method UnregisterLocal(local: LocalIdentityInfo, ghost after: State)
      requires Valid() && IsLocal(local) && Sound(after) && forall k :: k in model.relations ==> k.0 != local.handle && k.1 != local.handle
      requires local.handle in model.locals && local.handle !in model.remotes
      requires after == model.(locals := model.locals - {local.handle}, pending := model.pending - {model.locals[local.handle].timer})
      modifies this
      ensures Valid() && model == after
      ensures handshakes == old(handshakes) && relations == old(relations)
    {
      hide Sound, LocalsMatch, RemotesMatch, RelationsMatch, HandshakesMatch, ObjectsMatch, GuidsMatch;
      var h := local.handle;
      LocalGone(local);
      pending := pending - {local.timer};
      objectHash := objectHash - {h};
      locals := locals - {h};
      model := after;
    }

    lemma RemoteGone(remote: RemoteIdentityInfo)
      requires Matches(model) && IsRemote(remote) && remote.handle in model.remotes && remote.handle !in model.locals
      requires forall k :: k in model.relations ==> k.0 != remote.handle && k.1 != remote.handle
      requires forall g :: g in model.guids && model.guids[g] == remote.handle ==> g == remote.guid
      ensures var h := remote.handle;
              && remote.Model() == model.remotes[h]
              && ObjectsMatch(objectHash - {h}, locals, remotes - {h}, handshakes)
              && GuidsMatch(remoteGuidHash - {remote.guid}, remotes - {h}, model.guids - {remote.guid})
              && RemotesMatch(remotes - {h}, relations, model.remotes - {h})
              && RelationsMatch(relations, locals, remotes - {h}, model.relations)
    {
      hide LocalsMatch, RemotesMatch, RelationsMatch, HandshakesMatch, ObjectsMatch, GuidsMatch;
      var h := remote.handle;
      LocalAt(locals, model.locals, h);
      RemoteAt(remotes, relations, model.remotes, h);
      IdentityRemoved(objectHash, locals, remotes, handshakes, h);
      RemoteRemoved(remotes, relations, model.remotes, h);
      JoinsLess(relations, locals, remotes, model.relations, h);
      GuidRemoved(remoteGuidHash, remotes, model.guids, remote.guid, h);
      assert locals - {h} == locals;
    }

    /** Takes a remote identity that nothing names any more out of both tables. */
    method UnregisterRemote(remote: RemoteIdentityInfo, ghost after: State)
      requires Valid() && IsRemote(remote) && Sound(after) && forall k :: k in model.relations ==> k.0 != remote.handle && k.1 != remote.handle
      requires remote.handle in model.remotes && remote.handle !in model.locals
      requires forall g :: g in model.guids && model.guids[g] == remote.handle ==> g == remote.guid
      requires after == model.(remotes := model.remotes - {remote.handle}, guids := model.guids - {remote.guid},
                               pending := model.pending - {model.remotes[remote.handle].timer})
      modifies this
      ensures Valid() && model == after
      ensures handshakes == old(handshakes) && relations == old(relations)
    {
      hide Sound, LocalsMatch, RemotesMatch, RelationsMatch, HandshakesMatch, ObjectsMatch, GuidsMatch;
      var h := remote.handle;
      RemoteGone(remote);
      pending := pending - {remote.timer};
      objectHash := objectHash - {h};
      remoteGuidHash := remoteGuidHash - {remote.guid};
      remotes := remotes - {h};
      model := after;
      assert LocalsMatch(locals, model.locals);
      assert RemotesMatch(remotes, relations, model.remotes);
      assert RelationsMatch(relations, locals, remotes, model.relations);
      assert HandshakesMatch(handshakes, relations, model.handshakes);
    }

    lemma ForgottenRelations(s: State, h: int)
      requires Sound(s) && (h in s.locals || h in s.remotes)
      ensures h in s.locals ==> h !in s.remotes && forall k :: k in ForgetLocal(s, h).relations ==> k.0 != h && k.1 != h
      ensures h in s.remotes ==> h !in s.locals && forall k :: k in ForgetRemote(s, h).relations ==> k.0 != h && k.1 != h
      ensures h in s.remotes ==> forall g :: g in s.guids && s.guids[g] == h ==> g == s.remotes[h].guid
    {
      hide TimersSound, HandshakesSound, AtMostOneHandshake;
    }

    /** `return_identity_handle`. The timer is taken from the dispatcher together with
        the tables' entries; in the source that call comes first, under the same lock. */
    method ReturnIdentityHandle(handle: int) returns (ok: bool)
      requires Valid()
      modifies this, remotes.Values
      ensures Valid()
      ensures var o := ReturnIdentity(old(model), handle); model == o.state && (ok <==> o.result == Ok)
    {
      hide Matches, Sound, LocalsMatch, RemotesMatch, RelationsMatch, HandshakesMatch, ObjectsMatch, GuidsMatch, ForgetLocal, ForgetRemote;
      if handle == 0 {
        return false;
      }
      var found := FindObject(handle);
      if found.None? || found.value.HandshakeObject? {
        return false;
      }
      ForgottenRelations(model, handle);
      ReturnIdentitySound(model, handle);
      ForgetKeeps(model, handle);
      ghost var o := ReturnIdentity(model, handle);
      if found.value.LocalObject? {
        InvalidateLocalRelatedObjects(found.value.local);
        UnregisterLocal(found.value.local, o.state);
      } else {
        InvalidateRemoteRelatedObjects(found.value.remote);
        UnregisterRemote(found.value.remote, o.state);
      }
      ok := true;
    }

    lemma ForgetKeeps(s: State, h: int)
      ensures var t := ForgetLocal(s, h); t == s.(relations := t.relations, handshakes := t.handshakes)
      ensures var t := ForgetRemote(s, h); t == s.(relations := t.relations, handshakes := t.handshakes)
    {
    }

    /** The due event of a local identity is used up. */
    method ClearLocalTimer(local: LocalIdentityInfo, event: nat)
      requires Valid() && IsLocal(local) && event in model.pending && model.pending[event] == local.handle
      requires local.handle in model.locals
      modifies this`pending, this`model, local`timer
      ensures Valid() && model == Expire(old(model), event)
    {
      hide Sound, LocalsMatch, RemotesMatch, RelationsMatch, HandshakesMatch, ObjectsMatch, GuidsMatch;
      ExpireSound(model, event);
      LocalAt(locals, model.locals, local.handle);
      OtherLocals(locals, model.locals, local.handle);
      local.timer := 0;
      LocalChanged(locals, model.locals, local.handle);
      pending := pending - {event};
      model := Expire(model, event);
    }

    method ClearRemoteTimer(remote: RemoteIdentityInfo, event: nat)
      requires Valid() && IsRemote(remote) && event in model.pending && model.pending[event] == remote.handle
      requires remote.handle in model.remotes && remote.handle !in model.locals
      modifies this`pending, this`model, remote`timer
      ensures Valid() && model == Expire(old(model), event)
    {
      hide Sound, LocalsMatch, RemotesMatch, RelationsMatch, HandshakesMatch, ObjectsMatch, GuidsMatch;
      ExpireSound(model, event);
      RemoteAt(remotes, relations, model.remotes, remote.handle);
      OtherRemotes(remotes, relations, model.remotes, remote.handle);
      remote.timer := 0;
      RemoteChanged(remotes, relations, model.remotes, remote.handle);
      pending := pending - {event};
      model := Expire(model, event);
    }

    /** `validity_callback` when an event is due: the listener is told which identity
        is revoked, and that identity has no timer any more. */
    method ValidityCallback(event: nat) returns (revoked: Option<int>)
      requires Valid() && event in pending
      modifies this`pending, this`model, locals.Values, remotes.Values
      ensures event in old(model).pending && Valid() && model == Expire(old(model), event)
      ensures revoked == Some(old(model).pending[event])
    {
      hide Sound, LocalsMatch, RemotesMatch, RelationsMatch, HandshakesMatch, ObjectsMatch, GuidsMatch, Expire;
      PendingRegistered(model, event);
      var handle := pending[event];
      var found := FindObject(handle);
      if found.Some? && found.value.LocalObject? {
        ClearLocalTimer(found.value.local, event);
      } else if found.Some? && found.value.RemoteObject? {
        ClearRemoteTimer(found.value.remote, event);
      }
      revoked := Some(handle);
    }

    lemma PendingRegistered(s: State, event: nat)
      requires Sound(s) && event in s.pending
      ensures s.pending[event] in s.locals || s.pending[event] in s.remotes
      ensures s.pending[event] in s.locals ==> s.pending[event] !in s.remotes
    {
      hide HandshakesSound, GuidsSound, RelationsSound, AtMostOneHandshake;
      PendingNames(s, event);
    }

    // ----------------------------------------------------------------- integrity

    ghost predicate Registered(o: SecurityObject)
      reads this
    {
      HandleOf(o) in objectHash && objectHash[HandleOf(o)] == o
    }

    /** The remote GUID hash is in bijection with the registered remote identities. */
    lemma GuidHashIntegrity()
      requires Valid()
      ensures forall g :: g in remoteGuidHash ==> remoteGuidHash[g].guid == g && Registered(RemoteObject(remoteGuidHash[g]))
      ensures forall h :: h in objectHash && objectHash[h].RemoteObject? ==>
                var g := objectHash[h].remote.guid; g in remoteGuidHash && remoteGuidHash[g] == objectHash[h].remote
    {
      hide LocalsMatch, RemotesMatch, RelationsMatch, HandshakesMatch, ObjectsMatch, HandlesSound, RelationsSound, HandshakesSound,
        AtMostOneHandshake, TimersSound;
      forall g | g in remoteGuidHash
        ensures remoteGuidHash[g].guid == g && Registered(RemoteObject(remoteGuidHash[g]))
      {
        var r := model.guids[g];
        RemoteAt(remotes, relations, model.remotes, r);
        ObjectAt(objectHash, locals, remotes, handshakes, r);
      }
      forall h | h in objectHash && objectHash[h].RemoteObject?
        ensures var g := objectHash[h].remote.guid; g in remoteGuidHash && remoteGuidHash[g] == objectHash[h].remote
      {
        ObjectAt(objectHash, locals, remotes, handshakes, h);
        RemoteAt(remotes, relations, model.remotes, h);
      }
    }

    /** Every registered object is under its own handle. */
    lemma HandleIntegrity()
      requires Valid()
      ensures forall h :: h in objectHash ==> h != 0 && HandleOf(objectHash[h]) == h
    {
      hide LocalsMatch, RemotesMatch, RelationsMatch, HandshakesMatch, ObjectsMatch, GuidsMatch, GuidsSound, RelationsSound,
        HandshakesSound, AtMostOneHandshake, TimersSound;
      forall h | h in objectHash
        ensures h != 0 && HandleOf(objectHash[h]) == h
      {
        ObjectAt(objectHash, locals, remotes, handshakes, h);
        LocalAt(locals, model.locals, h);
        RemoteAt(remotes, relations, model.remotes, h);
        HandshakeAt(handshakes, relations, model.handshakes, h);
      }
    }

    /** Every relation sits in its own remote identity's link hash under its local
        identity's handle, and both identities are registered. */
    lemma LinkIntegrity(h: int, l: int)
      requires Valid() && h in objectHash && objectHash[h].RemoteObject? && l in objectHash[h].remote.linkHash
      ensures var x := objectHash[h].remote.linkHash[l];
              x.remoteIdentity == objectHash[h].remote && x.localIdentity.handle == l && Registered(LocalObject(x.localIdentity))
    {
      hide Sound, LocalsMatch, RemotesMatch, RelationsMatch, HandshakesMatch, ObjectsMatch, GuidsMatch;
      ObjectAt(objectHash, locals, remotes, handshakes, h);
      RemoteAt(remotes, relations, model.remotes, h);
      RelationAt(relations, locals, remotes, model.relations, (h, l));
      LocalAt(locals, model.locals, l);
      ObjectAt(objectHash, locals, remotes, handshakes, l);
    }

    /** Every registered handshake points at a relation in the link hash of a registered
        remote identity, with a registered local identity; no other registered handshake
        is of the same pair. */
    lemma HandshakeIntegrity(h: int)
      requires Valid() && h in objectHash && objectHash[h].HandshakeObject?
      ensures var x := objectHash[h].handshake.relation;
              && Registered(RemoteObject(x.remoteIdentity)) && Registered(LocalObject(x.localIdentity))
              && x.localIdentity.handle in x.remoteIdentity.linkHash
              && x.remoteIdentity.linkHash[x.localIdentity.handle] == x
              && (objectHash[h].handshake.created == CreatedReply ==> x.rchallenge.Some?)
              && (forall k :: k in objectHash && objectHash[k].HandshakeObject? && JoinSame(objectHash[k].handshake.relation, x) ==>
                    k == h)
    {
      hide LocalsMatch, RemotesMatch, RelationsMatch, HandshakesMatch, ObjectsMatch, GuidsMatch, HandlesSound, GuidsSound,
        RelationsSound, HandshakesSound, TimersSound, Belongs;
      ObjectAt(objectHash, locals, remotes, handshakes, h);
      HandshakeAt(handshakes, relations, model.handshakes, h);
      ReplyHasChallenge(model, h);
      HandshakeView(objectHash[h].handshake);
      var x := objectHash[h].handshake.relation;
      RemoteAt(remotes, relations, model.remotes, x.remoteIdentity.handle);
      ObjectAt(objectHash, locals, remotes, handshakes, x.remoteIdentity.handle);
      ObjectAt(objectHash, locals, remotes, handshakes, x.localIdentity.handle);
      forall k | k in objectHash && objectHash[k].HandshakeObject? && JoinSame(objectHash[k].handshake.relation, x)
        ensures k == h
      {
        ObjectAt(objectHash, locals, remotes, handshakes, k);
        HandshakeAt(handshakes, relations, model.handshakes, k);
      }
    }

    /** A pending event names a registered identity whose timer it is, and every timer
        that is set is pending for its own identity. */
    lemma TimerIntegrity()
      requires Valid()
      ensures forall e :: e in pending ==>
                pending[e] in objectHash && !objectHash[pending[e]].HandshakeObject? && e != 0 && TimerIn(objectHash[pending[e]]) == e
      ensures forall h :: h in objectHash && TimerIn(objectHash[h]) != 0 ==>
                TimerIn(objectHash[h]) in pending && pending[TimerIn(objectHash[h])] == h
    {
      hide LocalsMatch, RemotesMatch, RelationsMatch, HandshakesMatch, ObjectsMatch, GuidsMatch, GuidsSound, RelationsSound,
        HandshakesSound, AtMostOneHandshake;
      forall h | h in objectHash
        ensures TimerIn(objectHash[h]) == TimerOf(model, h)
      {
        ObjectAt(objectHash, locals, remotes, handshakes, h);
        LocalAt(locals, model.locals, h);
        RemoteAt(remotes, relations, model.remotes, h);
        HandshakeAt(handshakes, relations, model.handshakes, h);
      }
      forall e | e in pending
        ensures pending[e] in objectHash && !objectHash[pending[e]].HandshakeObject?
      {
        PendingRegistered(model, e);
        var h := pending[e];
        ObjectAt(objectHash, locals, remotes, handshakes, h);
        LocalAt(locals, model.locals, h);
        RemoteAt(remotes, relations, model.remotes, h);
      }
    }
  }
}
