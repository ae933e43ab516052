/** The first exchange on two whole plugin instances: the calls of the SPI, from two
    introduced participants to the secret that both hand out. */
module PqExchange {
  import opened Octets
  import opened Transcript
  import opened Algorithms
  import opened PqHandshake
  import opened PqState
  import opened PqInvariant
  import opened PqRun
  import Expiry

  /** A participant whose participant data the plugin has kept meanwhile. */
  predicate SameParticipant(l: Local, k: Local) {
    k == l.(pdata := k.pdata)
  }

  lemma ValidateIgnoresData(lib: Library, config: Config, l: Local, k: Local, trusted: seq<Authority>, now: int, kind: TokenType,
                            token: Token, v: View)
    requires SameParticipant(l, k)
    ensures Validate(lib, config, l, trusted, now, kind, token, v) == Validate(lib, config, k, trusted, now, kind, token, v)
  {
    hide WireKind, Find, TextOf, DataMatches, TakeChallenge, EchoesMatch, TakeIdentity, SignatureMatches, MaterialPresent,
      TokenCredentials, ClassId;
    var id := RequiredNonempty(token, C_ID);
    assert id.Some? ==> LoadCertificate(lib, id.value, l, trusted, now) == LoadCertificate(lib, id.value, k, trusted, now);
    assert forall c :: FitsCertificate(lib, l, token, c) == FitsCertificate(lib, k, token, c);
  }

  lemma ProcessIgnoresData(lib: Library, config: Config, l: Local, k: Local, trusted: seq<Authority>, now: int, token: Token,
                           known: bool, sign: Signer, v: View)
    requires SameParticipant(l, k)
    ensures ProcessReply(lib, config, l, trusted, now, token, known, sign, v) ==
            ProcessReply(lib, config, k, trusted, now, token, known, sign, v)
    ensures ProcessFinal(lib, config, l, trusted, now, token, known, v) ==
            ProcessFinal(lib, config, k, trusted, now, token, known, v)
  {
    hide Validate, Find, FinalContent, FinalMessage, Conclude;
    ValidateIgnoresData(lib, config, l, k, trusted, now, ReplyToken, token, v);
    ValidateIgnoresData(lib, config, l, k, trusted, now, FinalToken, token, v);
  }

  /** Two identities that were introduced and have no handshake yet. */
  ghost predicate FirstTime(s: State, l: int, r: int) {
    Sound(s) && l in s.locals && r in s.remotes && (r, l) in s.relations && FindHandshake(s, l, r).None?
  }

  /** The objects that a first handshake of a pair starts from. */
  ghost function StartView(s: State, l: int, r: int, created: Created): View
    requires FirstTime(s, l, r)
  {
    View(s.relations[(r, l)], s.remotes[r], NewHandshake(l, r, created))
  }

  /** A registered handshake of a pair with its view, in a state that kept the identity. */
  ghost predicate Holds(s: State, h: int, l: int, r: int, created: Created, v: View) {
    && Sound(s) && h != 0 && HasView(s, h) && ViewOf(s, h) == v
    && s.handshakes[h].localHandle == l && s.handshakes[h].remoteHandle == r && s.handshakes[h].created == created
  }

  lemma RequestRegistered(lib: Library, config: Config, s: State, l: int, r: int, pdata: OctetSeq, key: KeyPair, handle: int)
    requires FirstTime(s, l, r) && Fresh(s, handle) && lib.pem(s.locals[l].certificate).Some?
    ensures var o := MakeRequest(lib, config, s.locals[l], lib.pem(s.locals[l].certificate).value, pdata, Some(key),
                                 StartView(s, l, r, CreatedRequest));
            var step := BeginRequest(lib, config, s, l, r, pdata, Some(key), handle);
            o.result != Failed ==>
              && (step.result, step.handle, step.message) == (o.result, handle, o.message)
              && Holds(step.state, handle, l, r, CreatedRequest, o.view)
              && SameParticipant(s.locals[l], step.state.locals[l])
              && step.state.trusted == s.trusted && step.state.pending == s.pending
  {
    hide Sound, MakeRequest;
    BeginRequestSound(lib, config, s, l, r, pdata, Some(key), handle);
    var v := StartView(s, l, r, CreatedRequest);
    var contents := lib.pem(s.locals[l].certificate).value;
    RequestKeeps(lib, config, s.locals[l], contents, pdata, Some(key), v);
    var (s1, h, made) := FindOrAdd(s, l, r, CreatedRequest, handle);
    assert made && h == handle && HasView(s1, h) && ViewOf(s1, h) == v;
  }

  lemma ReplyRegistered(lib: Library, config: Config, s: State, token: Token, r: int, l: int, pdata: OctetSeq, now: int, coins: Coins,
                        unset: OctetSeq, sign: Signer, handle: int)
    requires FirstTime(s, l, r) && Fresh(s, handle) && pdata != []
    ensures var o := AnswerRequest(lib, config, s.locals[l], s.trusted, now, token, pdata, coins, unset, sign,
                                   StartView(s, l, r, CreatedReply));
            var step := BeginReply(lib, config, s, token, r, l, pdata, now, coins, unset, sign, handle);
            && (step.result == Failed <==> o.result == Failed)
            && (o.result != Failed ==>
                  && (step.result, step.handle, step.message) == (o.result, handle, o.message)
                  && Holds(step.state, handle, l, r, CreatedReply, o.view)
                  && SameParticipant(s.locals[l], step.state.locals[l])
                  && step.state.trusted == s.trusted && step.state.pending == s.pending)
  {
    hide Sound, AnswerRequest;
    BeginReplySound(lib, config, s, token, r, l, pdata, now, coins, unset, sign, handle);
    var v := StartView(s, l, r, CreatedReply);
    AnswerKeeps(lib, config, s.locals[l], s.trusted, now, token, pdata, coins, unset, sign, v);
    var (s1, h, made) := FindOrAdd(s, l, r, CreatedReply, handle);
    assert made && h == handle && HasView(s1, h) && ViewOf(s1, h) == v;
  }

  /** Processing a message for a registered handshake is processing it on its view. */
  lemma ProcessRegistered(lib: Library, config: Config, s: State, token: Token, h: int, l: int, r: int, created: Created, v: View,
                          now: int, expiry: Expiry.int64, event: nat, sign: Signer, local: Local, trusted: seq<Authority>)
    requires Holds(s, h, l, r, created, v) && FreshEvent(s, event) && expiry != Expiry.DDS_TIME_INVALID
    requires SameParticipant(local, s.locals[l]) && s.trusted == trusted
    ensures var o := if created == CreatedRequest then ProcessReply(lib, config, local, trusted, now, token, true, sign, v)
                     else ProcessFinal(lib, config, local, trusted, now, token, true, v);
            var step := Process(lib, config, s, token, h, now, expiry, event, sign);
            && step.result == o.result && step.message == o.message
            && GetSharedSecret(step.state, h) == o.view.handshake.shared
            && HasView(step.state, h)
            && ViewOf(step.state, h).remote.certificate == o.view.remote.certificate
            && ViewOf(step.state, h).remote.permissions == o.view.remote.permissions
            && (o.view.remote.certificate.Some? && lib.pem(o.view.remote.certificate.value).Some? ==>
                  GetPeerCredentials(lib, step.state, h) ==
                  Some((lib.pem(o.view.remote.certificate.value).value, o.view.remote.permissions)))
  {
    hide ProcessReply, ProcessFinal, HandlesSound, GuidsSound, RelationsSound, TimersSound, AtMostOneHandshake;
    ProcessIgnoresData(lib, config, local, s.locals[l], trusted, now, token, true, sign, v);
    ProcessKeeps(lib, config, s.locals[l], s.trusted, now, token, true, sign, v);
  }

  /** What the two instances hand out when it is over. */
  datatype Results = Results(request: Step, reply: Step, final: Step, end: Step)

  ghost function Run(lib: Library, config: Config, x: Exchange, sa: State, la: int, ra: int, sb: State, lb: int, rb: int, ha: int,
                     hb: int, expiryA: Expiry.int64, expiryB: Expiry.int64, eventA: nat, eventB: nat, unset: OctetSeq): Results
    requires FirstTime(sa, la, ra) && FirstTime(sb, lb, rb) && Fresh(sa, ha) && Fresh(sb, hb)
  {
    var request := BeginRequest(lib, config, sa, la, ra, x.pdataA, Some(x.key), ha);
    if request.message.None? then Results(request, request, request, request) else
      var reply := BeginReply(lib, config, sb, request.message.value, rb, lb, x.pdataB, x.nowB, x.coins, unset, x.signB, hb);
      BeginRequestSound(lib, config, sa, la, ra, x.pdataA, Some(x.key), ha);
      BeginReplySound(lib, config, sb, request.message.value, rb, lb, x.pdataB, x.nowB, x.coins, unset, x.signB, hb);
      if reply.message.None? then Results(request, reply, reply, reply) else
        var final := Process(lib, config, request.state, reply.message.value, ha, x.nowA, expiryB, eventA, x.signA);
        if final.message.None? then Results(request, reply, final, final) else
          Results(request, reply, final,
                  Process(lib, config, reply.state, final.message.value, hb, x.nowB, expiryA, eventB, x.signB))
  }

  /** For all certificates, permissions, participant data and challenges and either
      setting of the optional properties: the calls of a first exchange succeed one
      after the other, and go wrong only where an announced challenge is not the one
      used; in the end both instances hand out the same secret with the same two
      challenges, and each the other's certificate and permissions. */
  lemma FirstExchange(lib: Library, config: Config, x: Exchange, sa: State, la: int, ra: int, sb: State, lb: int, rb: int, ha: int,
                      hb: int, expiryA: Expiry.int64, expiryB: Expiry.int64, eventA: nat, eventB: nat, unset: OctetSeq)
    requires Proper(lib, config, x) && x.pdataB != []
    requires FirstTime(sa, la, ra) && FirstTime(sb, lb, rb) && Fresh(sa, ha) && Fresh(sb, hb)
    requires sa.locals[la] == x.a && sa.trusted == x.trustedA && sb.locals[lb] == x.b && sb.trusted == x.trustedB
    requires expiryA != Expiry.DDS_TIME_INVALID && expiryB != Expiry.DDS_TIME_INVALID
    requires FreshEvent(sa, eventA) && FreshEvent(sb, eventB)
    ensures var a, b := sa.relations[(ra, la)], sb.relations[(rb, lb)];
            var o := Run(lib, config, x, sa, la, ra, sb, lb, rb, ha, hb, expiryA, expiryB, eventA, eventB, unset);
            && o.request.result == PendingMessage
            && (o.reply.result == PendingMessage <==> Expects(b, a.lchallenge))
            && (o.reply.result == PendingMessage ==> (o.final.result == OkFinal <==> Expects(a, b.lchallenge)))
            && (o.reply.result == PendingMessage && o.final.result == OkFinal ==>
                  && o.end.result == Ok
                  && GetSharedSecret(o.final.state, ha).Some?
                  && GetSharedSecret(o.final.state, ha) == GetSharedSecret(o.end.state, hb)
                  && GetSharedSecret(o.end.state, hb).value.challenge1 == a.lchallenge
                  && GetSharedSecret(o.end.state, hb).value.challenge2 == b.lchallenge
                  && HasView(o.final.state, ha) && HasView(o.end.state, hb)
                  && GetPeerCredentials(lib, o.final.state, ha) ==
                     Some((lib.pem(x.b.certificate).value, Learned(config, sa.remotes[ra], x.b, x.pdataB).permissions))
                  && GetPeerCredentials(lib, o.end.state, hb) ==
                     Some((lib.pem(x.a.certificate).value, Learned(config, sb.remotes[rb], x.a, x.pdataA).permissions)))
  {
    hide Proper, Genuine, Sound, FindHandshake, MakeRequest, AnswerRequest, ProcessReply, ProcessFinal, BeginRequest, BeginReply, Process, Holds,
      GetSharedSecret, GetPeerCredentials, Expects, HasView, ViewOf;
    var va, vb := StartView(sa, la, ra, CreatedRequest), StartView(sb, lb, rb, CreatedReply);
    StartsUnsent(sb, lb, rb);
    KemMaterialFits(lib, config, x);
    FirstExchangeCompletes(lib, config, x, va, vb, unset);
    RequestRegistered(lib, config, sa, la, ra, x.pdataA, x.key, ha) by {
      assert lib.pem(sa.locals[la].certificate).Some?;
    }
    var o1 := MakeRequest(lib, config, x.a, lib.pem(x.a.certificate).value, x.pdataA, Some(x.key), va);
    var request := BeginRequest(lib, config, sa, la, ra, x.pdataA, Some(x.key), ha);
    assert request.message == o1.message && o1.message.Some?;
    var t1 := o1.message.value;
    ReplyRegistered(lib, config, sb, t1, rb, lb, x.pdataB, x.nowB, x.coins, unset, x.signB, hb);
    var o2 := AnswerRequest(lib, config, x.b, x.trustedB, x.nowB, t1, x.pdataB, x.coins, unset, x.signB, vb);
    AnswerKeeps(lib, config, x.b, x.trustedB, x.nowB, t1, x.pdataB, x.coins, unset, x.signB, vb);
    if o2.result == PendingMessage {
      var reply := BeginReply(lib, config, sb, t1, rb, lb, x.pdataB, x.nowB, x.coins, unset, x.signB, hb);
      var t2 := o2.message.value;
      ProcessRegistered(lib, config, request.state, t2, ha, la, ra, CreatedRequest, o1.view, x.nowA, expiryB, eventA, x.signA, x.a,
                        x.trustedA);
      var o3 := ProcessReply(lib, config, x.a, x.trustedA, x.nowA, t2, true, x.signA, o1.view);
      if o3.result == OkFinal {
        ProcessRegistered(lib, config, reply.state, o3.message.value, hb, lb, rb, CreatedReply, o2.view, x.nowB, expiryA, eventB,
                          x.signB, x.b, x.trustedB);
      }
    }
  }

  lemma StartsUnsent(s: State, l: int, r: int)
    requires FirstTime(s, l, r)
    ensures NothingSentYet(StartView(s, l, r, CreatedReply).handshake)
  {
  }
}
