/** The heap objects of the CycloneDDS plugin. A handle is the address of its object. */
module PqObjects {
  import opened Octets
  import opened Guids
  import opened Algorithms
  import opened PqHandshake
  import opened PqState

  class LocalIdentityInfo {
    const handle: int
    const guid: Guid
    const certificate: Certificate
    const ca: Authority
    const crl: Option<Crl>
    const privateKey: OctetSeq
    const kagree: Kind
    var pdata: OctetSeq
    var permissions: CString
    var timer: nat

    constructor (address: int, guid: Guid, certificate: Certificate, ca: Authority, crl: Option<Crl>, privateKey: OctetSeq, kagree: Kind)
      ensures handle == address
      ensures Model() == Local(guid, certificate, ca, crl, privateKey, kagree, [], "", 0)
    {
      handle, this.guid, this.certificate, this.ca := address, guid, certificate, ca;
      this.crl, this.privateKey, this.kagree := crl, privateKey, kagree;
      pdata, permissions, timer := [], "", 0;
    }

    function Model(): Local
      reads this
    {
      Local(guid, certificate, ca, crl, privateKey, kagree, pdata, permissions, timer)
    }
  }

  class RemoteIdentityInfo {
    const handle: int
    const guid: Guid
    const identityToken: IdentityToken
    var certificate: Option<Certificate>
    var dsign: Kind
    var kagree: Kind
    var pdata: OctetSeq
    var permissions: CString
    var timer: nat
    var linkHash: map<int, IdentityRelation>

    constructor (address: int, guid: Guid, identityToken: IdentityToken)
      ensures handle == address && linkHash == map[]
      ensures Model() == NewRemote(guid, identityToken)
    {
      handle, this.guid, this.identityToken := address, guid, identityToken;
      certificate, dsign, kagree, pdata, permissions, timer := None, Unknown, Unknown, [], "", 0;
      linkHash := map[];
    }

    function Model(): Remote
      reads this
    {
      Remote(guid, identityToken, certificate, dsign, kagree, pdata, permissions, timer)
    }
  }

  class IdentityRelation {
    const localIdentity: LocalIdentityInfo
    const remoteIdentity: RemoteIdentityInfo
    const lchallenge: Nonce
    var rchallenge: Option<Nonce>

    constructor (localIdentity: LocalIdentityInfo, remoteIdentity: RemoteIdentityInfo, lchallenge: Nonce, rchallenge: Option<Nonce>)
      ensures this.localIdentity == localIdentity && this.remoteIdentity == remoteIdentity
      ensures Model() == Relation(lchallenge, rchallenge)
    {
      this.localIdentity, this.remoteIdentity, this.lchallenge, this.rchallenge := localIdentity, remoteIdentity, lchallenge, rchallenge;
    }

    function Model(): Relation
      reads this
    {
      Relation(lchallenge, rchallenge)
    }
  }

  class HandshakeInfo {
    const handle: int
    const relation: IdentityRelation
    const created: Created
    var hash1: Hash
    var hash2: Hash
    var keyPair: Option<KeyPair>
    var ciphertext: Option<OctetSeq>
    var kemSecret: Option<OctetSeq>
    var shared: Option<SharedSecret>

    constructor (address: int, relation: IdentityRelation, created: Created)
      ensures handle == address && this.relation == relation
      ensures Model() == NewHandshake(relation.localIdentity.handle, relation.remoteIdentity.handle, created)
    {
      handle, this.relation, this.created := address, relation, created;
      hash1, hash2, keyPair, ciphertext, kemSecret, shared := ZERO_HASH, ZERO_HASH, None, None, None, None;
    }

    function Model(): Handshake
      reads this
    {
      Handshake(relation.localIdentity.handle, relation.remoteIdentity.handle, created, hash1, hash2, keyPair, ciphertext, kemSecret,
                shared)
    }
  }

  /** The values in the objects that a handshake token can change. */
  function ObjectView(x: HandshakeInfo): View
    reads x, x.relation, x.relation.remoteIdentity
  {
    View(x.relation.Model(), x.relation.remoteIdentity.Model(), x.Model())
  }
}
