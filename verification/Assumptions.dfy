/** The assumptions of the two honest-run theorems can be met: for each there are
    libraries, identities and draws to which it applies. */
module Assumptions {
  import opened Octets
  import opened Guids
  import E = Environment
  import T = Transcript
  import P = Protocol
  import H = HonestRun
  import opened Algorithms
  import Q = PqHandshake
  import R = PqRun

  const HASH: OctetSeq := [0, 0, 0, 0, 0, 0, 0, 0, 0, 0, 0, 0, 0, 0, 0, 0, 0, 0, 0, 0, 0, 0, 0, 0, 0, 0, 0, 0, 0, 0, 0, 0]
  const NONCE: E.Nonce := [1, 0, 0, 0, 0, 0, 0, 0, 0, 0, 0, 0, 0, 0, 0, 0, 0, 0, 0, 0, 0, 0, 0, 0, 0, 0, 0, 0, 0, 0, 0, 0]

  function FirstDigest(): (d: seq<octet>)
    ensures |d| == 32
  {
    seq(32, _ => 0)
  }

  /** A GUID that is adjusted for the digest. */
  ghost function AdjustedFor(digest: seq<octet>, tail: octet): (g: Guid)
    requires |digest| >= 6
    ensures IsAdjustedPrefix(g[..6], digest) && g[15] == tail
  {
    AdjustedPrefixIsAdjusted(digest);
    var g := AdjustedPrefix(digest) + [0, 0, 0, 0, 0, 0, 0, 0, 0, tail];
    assert g[..6] == AdjustedPrefix(digest);
    g
  }

  // ------------------------------------------------------------------ CycloneDDS

  function TwoWay<T>(first: T, second: T): OctetSeq -> T {
    data => if data == [1] then first else second
  }

  function MakeCertificate(key: E.PublicKey): Q.Certificate {
    Q.Certificate(MlDsa65, key, Some(FirstDigest()))
  }

  ghost function MakeLibrary(): Q.Library {
    Q.Library(
      (c: Q.Certificate) => Some(c.key),
      TwoWay(Some(MakeCertificate([1])), Some(MakeCertificate([2]))),
      (c: Q.Certificate, ca: Q.Authority, crl: Option<Q.Crl>) => ca == [9],
      (c: Q.Certificate, now: int) => now < 100,
      (a: Q.Authority, b: Q.Authority) => a == b,
      TwoWay(Some(AdjustedFor(FirstDigest(), 1)), Some(AdjustedFor(FirstDigest(), 2))),
      (ps: seq<Q.Property>) => HASH,
      (octets: OctetSeq) => HASH,
      FirstDigest(),
      (key: E.PublicKey, content: seq<Q.Property>, signature: OctetSeq) => signature == key,
      (kem: Kind, publicKey: OctetSeq, coins: Q.Coins) =>
        Some((seq(CiphertextSizeOf(kem), _ => 0), [3])),
      (kem: Kind, pair: Q.KeyPair, ciphertext: OctetSeq) => Some([3]))
  }

  function CiphertextSizeOf(kem: Kind): (n: nat)
    ensures n == CiphertextSize(kem) && n < 0x1_0000_0000
  {
    KemSizesAreSmall(kem);
    CiphertextSize(kem)
  }

  ghost function MakeLocal(config: Q.Config, key: E.PublicKey, tail: octet): Q.Local {
    Q.Local(AdjustedFor(FirstDigest(), tail), MakeCertificate(key), [9], None, key, config.kem, [], "", 0)
  }

  lemma MlDsaIsSupported()
    ensures Supported(SIGNATURE_ALGORITHMS, MlDsa65)
  {
    assert SIGNATURE_ALGORITHMS[3].kind == MlDsa65;
  }

  lemma GenuineExists(config: Q.Config, lib: Q.Library, l: Q.Local, pdata: OctetSeq, other: Q.Local)
    requires lib == MakeLibrary() && pdata in [[1], [2]]
    requires l == MakeLocal(config, pdata, pdata[0] as octet) && other.ca == [9] && other.crl == None
    ensures R.Genuine(lib, config, l, pdata, other, [], 0)
  {
    hide RowOf, IsAdjustedPrefix;
    MlDsaIsSupported();
  }

  lemma LibraryWorks(config: Q.Config, lib: Q.Library, key: Q.KeyPair, coins: Q.Coins, sign: Q.Signer, certificate: Q.Certificate)
    requires lib == MakeLibrary() && |key.publicKey| == PublicKeySize(config.kem)
    requires |certificate.key| == 1 && forall content :: sign(content) == Some(certificate.key)
    ensures R.KemWorks(lib, config.kem, key, coins) && R.Signs(lib, sign, certificate)
  {
    hide PublicKeySize, CiphertextSize;
  }

  /** For every configuration with a supported KEM there are two different participants
      to whom the theorem about the first exchange applies. */
  lemma ProperExchangeExists(config: Q.Config) returns (lib: Q.Library, x: R.Exchange)
    requires Supported(KEM_ALGORITHMS, config.kem) && config.kem != Unknown
    ensures R.Proper(lib, config, x) && x.a.guid != x.b.guid && x.a.certificate != x.b.certificate && x.pdataB != []
  {
    hide RowOf, AdjustedFor, IsAdjustedPrefix, R.Genuine, R.KemWorks, R.Signs, PublicKeySize, CiphertextSize, MakeLibrary;
    KemSizesAreSmall(config.kem);
    lib := MakeLibrary();
    var key: OctetSeq := seq(PublicKeySize(config.kem), _ => 0);
    x := R.Exchange(MakeLocal(config, [1], 1), MakeLocal(config, [2], 2), [], [], [1], [2], 0, 0, Q.KeyPair(key, [5]), [],
                    content => Some([1]), content => Some([2]));
    LibraryWorks(config, lib, x.key, x.coins, x.signA, x.a.certificate);
    LibraryWorks(config, lib, x.key, x.coins, x.signB, x.b.certificate);
    GenuineExists(config, lib, x.a, [1], x.b);
    GenuineExists(config, lib, x.b, [2], x.a);
  }

  // --------------------------------------------------------------------- OpenDDS

  ghost function MakeSuite(): E.Suite {
    E.Suite(
      (octets: seq<byte>) => Some(HASH),
      TwoWay(Some(MakeInfo([1])), Some(MakeInfo([2]))),
      (ca: OctetSeq, certificate: OctetSeq, now: int) => ca == [9] && now < 100,
      TwoWay(Some([E.ParticipantGuid(AdjustedFor(FirstDigest(), 1))]), Some([E.ParticipantGuid(AdjustedFor(FirstDigest(), 2))])),
      (key: E.PublicKey, octets: seq<byte>, signature: OctetSeq) => signature == key,
      (kem: CString, key: E.SecretKey) => [4],
      (kem: CString, key: E.PublicKey, coins: E.Coins) => Some(([6], [3])),
      (kem: CString, key: E.SecretKey, ciphertext: OctetSeq) => Some([3]))
  }

  function MakeInfo(key: E.PublicKey): E.Certificate {
    E.Certificate(FirstDigest(), "ML-DSA-65", key)
  }

  /** A plugin that has validated its local identity. */
  ghost function MakePlugin(key: E.PublicKey, tail: octet): P.AuthState {
    P.ValidateLocal(P.INITIAL, Some(P.Loaded(key, MakeInfo(key), [9], [])), P.DEFAULT_KEM, true,
                    Some(AdjustedFor(FirstDigest(), tail))).state
  }

  lemma PluginMade(key: E.PublicKey, tail: octet)
    ensures var s := MakePlugin(key, tail);
            P.WellFormed(s) && 1 in s.liveLocals && s.locals[1] == P.LocalIdentity(
              key, "ML-DSA-65", key, [9], [], AdjustedFor(FirstDigest(), tail), P.DEFAULT_KEM)
  {
    hide AdjustedFor, IsAdjustedPrefix;
  }

  lemma SignsExists(suite: E.Suite, l: P.LocalIdentity, sign: T.Message -> OctetSeq)
    requires suite == MakeSuite() && l.certificate in [[1], [2]] && forall m :: sign(m) == l.certificate
    ensures H.Signs(suite, l, sign) && E.KemCorrect(suite)
  {
    hide T.Encode;
  }

  lemma TrustsExists(suite: E.Suite, x: H.Side, y: H.Side, data: OctetSeq, tail: octet)
    requires suite == MakeSuite() && H.Ready(x) && H.Ready(y) && data in [[1], [2]] && data[0] as octet == tail
    requires H.Identity(x).ca == [9] && H.Identity(x).kemAlgorithm == P.DEFAULT_KEM
    requires H.Identity(y) == P.LocalIdentity(data, "ML-DSA-65", data, [9], [], AdjustedFor(FirstDigest(), tail), P.DEFAULT_KEM)
    ensures H.Trusts(suite, x, y, data, 0)
  {
    hide AdjustedFor, IsAdjustedPrefix;
  }

  lemma EncapsulationExists(suite: E.Suite, kem: CString, key: E.SecretKey, coins: E.Coins)
    requires suite == MakeSuite()
    ensures var sent := E.Encapsulate(suite, kem, suite.kemPublic(kem, key), coins); sent.Some? && sent.value.0 != []
  {
  }

  lemma SidesMatch(s: P.AuthState, t: P.AuthState, a: P.Outcome, b: P.Outcome)
    requires P.WellFormed(s) && P.WellFormed(t) && 1 in s.liveLocals && 1 in t.liveLocals
    requires a == P.ValidateRemote(s, P.HANDLE_NIL, P.NIL_TOKEN, 1, H.IDENTITY_TOKEN, t.locals[1].guid, Some(NONCE))
    requires b == P.ValidateRemote(t, P.HANDLE_NIL, P.NIL_TOKEN, 1, H.IDENTITY_TOKEN, s.locals[1].guid, Some(NONCE))
    ensures a.state.locals == s.locals && b.state.locals == t.locals
    ensures a.handle in a.state.remotes && a.state.remotes[a.handle].localChallenge == NONCE
    ensures b.handle in b.state.remotes && b.state.remotes[b.handle].localChallenge == NONCE
  {
  }

  /** There are two different plugins to which the theorems about honest runs apply,
      from their first contact on. */
  lemma ProperSidesExist() returns (suite: E.Suite, x: H.Side, y: H.Side, d: H.Draws)
    ensures H.Proper(suite, x, y, d)
    ensures H.Identity(x).guid != H.Identity(y).guid && H.Identity(x).certificate != H.Identity(y).certificate
    ensures d.nonce1 != H.Peer(x).localChallenge && d.nonce2 != H.Peer(y).localChallenge
  {
    hide AdjustedFor, IsAdjustedPrefix, MakeSuite, MakePlugin, H.Trusts, H.Signs, E.KemCorrect, E.Encapsulate;
    suite := MakeSuite();
    var s, t := MakePlugin([1], 1), MakePlugin([2], 2);
    PluginMade([1], 1);
    PluginMade([2], 2);
    H.FirstContact(s, t, 1, 1, NONCE, NONCE, false);
    var a := P.ValidateRemote(s, P.HANDLE_NIL, P.NIL_TOKEN, 1, H.IDENTITY_TOKEN, t.locals[1].guid, Some(NONCE));
    var b := P.ValidateRemote(t, P.HANDLE_NIL, P.NIL_TOKEN, 1, H.IDENTITY_TOKEN, s.locals[1].guid, Some(NONCE));
    x := H.Side(a.state, 1, a.handle);
    y := H.Side(b.state, 1, b.handle);
    d := H.Draws([1], [2], 0, 0, [5], HASH, [], HASH, m => [1], m => [2]);
    SidesMatch(s, t, a, b);
    TrustsExists(suite, x, y, [2], 2);
    TrustsExists(suite, y, x, [1], 1);
    SignsExists(suite, H.Identity(x), d.sign1);
    SignsExists(suite, H.Identity(y), d.sign2);
    EncapsulationExists(suite, P.DEFAULT_KEM, [5], []);
  }
}
