# Verified model of the post-quantum authentication plugins

The repository holds two DDS Security authentication plugins that run the same
three-message handshake (request, reply, final) over a key encapsulation
mechanism, with ML-DSA signatures: an adapter for OpenDDS in C++ and one for
CycloneDDS in C. This project models both in Dafny and proves what their
handshakes achieve.

`dafny verify dfyconfig.toml` checks the whole project.

## How the model is laid out

Each plugin is described twice. A function for each call of the SPI gives the
new state, the result and the token as values, with every branch of the source
(`Protocol`, `PqHandshake`, `PqState`). Classes with the source's tables and
pointers implement these functions step by step (`Plugin`; `PqObjects`,
`PqTokens`, `Registry`). The theorems about runs are stated on the functions,
and hold of the objects because every method is proved equal to its function.

OpenDDS adapter:

- `Octets`, `Xcdr`, `Transcript`: octet sequences, the XCDR version 1 big-endian
  encoding (DDS-XTypes 1.3, section 7.4.1) and the octets that are hashed and
  signed.
- `Environment`: what the libraries contribute, as arbitrary functions.
- `Protocol`, `Plugin`: the plugin as functions and as a class.
- `Acceptance`: exactly when each call succeeds, in terms of the octets in the
  tokens and of the answers of the libraries.
- `Invariant`, `Network`, `Agreement`: what every call keeps; any number of
  plugins on a hostile network; the goals of the handshake over whole runs.
- `HonestRun`: two plugins on an honest channel, with arbitrary AuthRequest
  traffic.

CycloneDDS adapter, post-quantum build:

- `PqHandshake`, `PqRun`: the tokens, the validator and the builders on values;
  the first exchange on the objects of one handshake.
- `PqState`, `PqInvariant`, `PqExchange`: the plugin as functions on its
  registry; what every call keeps; the first exchange on two whole instances.
- `PqAcceptance`, `PqCalls`, `PqRelease`: exactly when each call succeeds and what
  it leaves; from first contact to a shared secret; what is behind each secret and
  each expiry event.
- `PqObjects`, `PqTokens`, `Registry`: heap objects, the validator and the
  builders on them, and the plugin with its hash tables and cascading removal.

Both: `Guids` (role order and adjusted GUID, DDS Security section 9.3.3),
`Algorithms` (names on the wire and KEM sizes), `Expiry` (certificate expiry in
64 bits), `Assumptions` (the assumptions of the honest-run theorems can be met).

## What is assumed of the libraries

Hashes, signatures, certificates and the KEM are arbitrary functions. A theorem
that needs more says so in its `requires`, by one of these names:

- `Network.NoForgery`: if a signature verifies under an honest key over some
  octets, a plugin has signed those octets with that key. The injectivity of the
  encoding turns this into a statement about sessions.
- `Network.FreshKey`, `Network.FreshCiphertext`: generated KEM keys and
  ciphertexts were not used before.
- `Agreement.NoCollision`: no two octet strings that were hashed in the run have
  the same hash.
- `Environment.KemCorrect`: decapsulation undoes encapsulation.
- `HonestRun.Workable`, `PqRun.Proper`: in an honest run, signing gives
  signatures that verify, the KEM works on the generated key, and each side's
  credentials pass the checks of the other. The module `Assumptions` shows that
  both can be met, the latter for every configuration with a supported KEM.

## Where the code does less than one might expect

- An OpenDDS handshake between honest plugins does not complete for every order
  of AuthRequest delivery. If a side first announces its challenge after it has
  already drawn another one for a message, and the announcement arrives first,
  the peer refuses the genuine message. `HonestRun.LateAnnouncementFails` gives
  the run and `HonestRun.HonestRunCompletes` the exact condition.
- `get_certificate_expiry` stays within 64 bits except for certificates that
  expired more than 9223372036 seconds ago; `Expiry.NoOverflowExactly` and
  `Expiry.LongExpiredOverflows`.
- The protocol document has the signatures bind both identities. In the
  CycloneDDS adapter the hashes of the credentials are part of the signed content
  only with the optional properties; `PqRun.ContentsSeparate` states what is bound
  in either case.

## Model

| member | source | states |
|---|---|---|
| `Agreement.HonestPeersAgree` | adapters/opendds/src/Authentication.cpp:531-614 | In every run of any number of plugins on a network that loses, repeats, reorders and invents tokens: whichever side completes a handshake with an honest peer, that peer has a handshake in the other role with the same hashes, challenges, public key, ciphertext, KEM and secret, and each names the certificate of the other |
| `Agreement.ReplierAgreement` | adapters/opendds/src/Authentication.cpp:597-610 | A replier that reaches OK with an honest peer has a partner at that peer: an initiator in OK_FINAL with the same session |
| `Agreement.InitiatorAgreement` | adapters/opendds/src/Authentication.cpp:547-595 | An initiator that reaches OK_FINAL with an honest peer has a partner at that peer: a replier that answered with the same session |
| `Agreement.InjectiveAgreement` | adapters/opendds/src/Authentication.cpp:482-496 | Partners pair up one to one over a whole run, although an announced challenge can serve several sessions |
| `Agreement.PartnersAgree` | adapters/opendds/src/Authentication.cpp:570-595 | Once the initiator has completed, both partners hold the same secret and KEM, name each other's certificate, and each certificate fits the GUID under which the other side knows its peer |
| `Agreement.LoggedSession` | adapters/opendds/src/Authentication.cpp:497-513 | Every signature that was made leads to the one handshake that made it, and binds that handshake's session in that handshake's role |
| `Agreement.CompletedForever` | adapters/opendds/src/Authentication.cpp:542-546 | Terminal states are absorbing for the rest of the run, and every later message for such a handle is refused without effect |
| `Agreement.EndsInItsRole` | adapters/opendds/src/Authentication.cpp:594-613 | In every run a handshake is pending, failed, or in the success state of its own role |
| `Agreement.DecapsulatedOnce` | adapters/opendds/src/Authentication.cpp:566-580 | A KEM key is decapsulated with at most once, is gone afterwards, and not before a reply signature verified under the stored certificate |
| `Agreement.ReleaseGate` | adapters/opendds/src/Authentication.cpp:616-645 | A secret or a peer credential token is handed out only for a handshake that completed in its role, with 32-byte challenges, the hash of its own credentials and of genuine ones of its peer (own CA and time, ML-DSA, same KEM, certificate and participant data for the GUID), and a peer signature that the libraries verified; what is handed out is this handshake's |
| `Agreement.ReleasedExactly` | adapters/opendds/src/Authentication.cpp:616-645 | A secret and a peer credential token are released for exactly the handshakes in the table that have completed |
| `Agreement.PeerWasGenuine` | adapters/opendds/src/Authentication.cpp:408-440 | In every state of a run a replier's handshake and a completed initiator's hold the hash, certificate and permissions of credentials that were genuine when they were checked |
| `Agreement.ReturnedAtOnce` | adapters/opendds/src/Authentication.cpp:672-689 | Returning a handle succeeds if it is in its table, and from that step of the run on nothing resolves or is released under it |
| `Agreement.ReturnedForever` | adapters/opendds/src/Authentication.cpp:672-689 | A handle that was given out and returned never resolves again, in any of the three tables |
| `Agreement.RunEvolves` | adapters/opendds/src/Authentication.cpp:180-192 | Between two points of a run handles only grow, fixed parts of identities and sessions stay, and history only grows |
| `Acceptance.AcceptsExactlyGenuine` | adapters/opendds/src/Authentication.cpp:408-440 | Credentials pass if and only if the certificate was valid under the own CA at that time, its algorithm is the named ML-DSA one, the KEM is the own one, the prefix of the GUID is 2^47 plus half of the digest, and the first GUID parameter of the participant data is the GUID |
| `Acceptance.ReplyAcceptedExactly` | adapters/opendds/src/Authentication.cpp:547-595 | OK_FINAL exactly for a reply with genuine credentials, fitting challenges and a signature that the libraries verify over the session, which the own key opens; the handshake then holds that session, secret and peer |
| `Acceptance.FinalAcceptedExactly` | adapters/opendds/src/Authentication.cpp:597-610 | OK exactly for a final message that the libraries verify over the session under the stored certificate |
| `Acceptance.RefusedForGood` | adapters/opendds/src/Authentication.cpp:531-614 | Any other message fails the handshake for good, and changes no other handshake and no identity |
| `Acceptance.RequestAnsweredExactly` | adapters/opendds/src/Authentication.cpp:442-529 | A reply is made exactly for a genuine request between live identities; then there is one new handshake, and the signature binds its session |
| `Acceptance.RefusedRequestLeavesNothing` | adapters/opendds/src/Authentication.cpp:442-529 | A refused request leaves no handshake and no signature |
| `Acceptance.RequestMadeExactly` | adapters/opendds/src/Authentication.cpp:348-406 | A request is made exactly between live identities with participant data, with the announced or drawn challenge and the generated key; otherwise nothing changes |
| `Acceptance.RemoteAcceptedExactly` | adapters/opendds/src/Authentication.cpp:292-346 | Success exactly for a compatible token, a proper AuthRequest and, under a known handle, the same participants; the side with the smaller GUID is told to send the request, and the announced challenge is stored |
| `Acceptance.RefusedRemote` | adapters/opendds/src/Authentication.cpp:292-346 | A refusal changes nothing, but for an identity whose AuthRequest is refused after it was found or inserted, which keeps its own challenge |
| `Acceptance.LocalAcceptedExactly` | adapters/opendds/src/Authentication.cpp:194-245 | Success exactly with an ML-DSA certificate, a derived GUID and an available KEM of the list, which the new identity then holds |
| `Acceptance.PermissionsAreSent` | adapters/opendds/src/Authentication.cpp:279-290 | The next request carries the permissions document that was set |
| `Plugin.LastSettingCounts` | adapters/opendds/src/Authentication.cpp:210-224 | The last KEM property of the participant decides; without one, the default |
| `Network.RunSound` | adapters/opendds/src/Authentication.cpp:292-614 | At every point of every run: each handshake is sound, each completed one with an honest peer rests on a signature of that peer, KEM keys and ciphertexts are used by one handshake each |
| `Network.StepKeeps` | adapters/opendds/src/Authentication.cpp:292-614 | One step of one plugin, with any token at all, keeps that invariant for all plugins |
| `Network.OctetsTellMessage` | adapters/opendds/src/Transcript.cpp:72-102 | If octets were signed, the message they encode was signed: the two transcripts cannot be taken for each other |
| `Network.CompletionVerifies` | adapters/opendds/src/Authentication.cpp:560-569 | The call that completes a handshake verified the peer's signature over the stored session in that call |
| `Network.BeginningDraws` | adapters/opendds/src/Authentication.cpp:374-404 | A new handshake has the next handle and the KEM material that this call drew |
| `Network.CallKeepsMaterial` | adapters/opendds/src/Authentication.cpp:531-614 | No call changes the role of a handshake, the public key of an initiator, or any part of a replier's session |
| `Network.CallKeepsUnique` | adapters/opendds/src/Authentication.cpp:482-496 | No call makes two handshakes share a public key or a ciphertext |
| `Invariant.ApplyKeeps` | adapters/opendds/src/Authentication.cpp:194-689 | Every call, with any arguments and on every exit, keeps the state invariant and only lets the state evolve |
| `Invariant.IdentityCallsKeep` | adapters/opendds/src/Authentication.cpp:194-346 | Calls on identities and returns keep every handshake sound |
| `Invariant.BeginRequestKeeps` | adapters/opendds/src/Authentication.cpp:348-406 | A request keeps the invariant: the new handshake has a generated key and the hash of its own credentials |
| `Invariant.BeginReplySound` | adapters/opendds/src/Authentication.cpp:442-529 | A reply's handshake holds an encapsulation for the request's key and hashes of checked credentials |
| `Invariant.BeginReplyKeeps` | adapters/opendds/src/Authentication.cpp:442-529 | A reply keeps the invariant, and its signature binds the session of the new handshake |
| `Invariant.ProcessReplySound` | adapters/opendds/src/Authentication.cpp:547-595 | Whatever the reply and wherever it fails, the initiator's handshake is left sound |
| `Invariant.ProcessReplyHistory` | adapters/opendds/src/Authentication.cpp:566-595 | Decapsulation happens after verification, and the final signature binds the stored session |
| `Invariant.ProcessKeeps` | adapters/opendds/src/Authentication.cpp:531-614 | Any message for any handle keeps the invariant |
| `Invariant.ProcessWellFormed` | adapters/opendds/src/Authentication.cpp:531-614 | Handles stay positive, below the counter and disjoint across the three tables |
| `Invariant.ValidateRemoteWellFormed` | adapters/opendds/src/Authentication.cpp:292-346 | The same for an identity that is inserted before its AuthRequest is checked |
| `Transcript.EncodeInjective` | adapters/opendds/src/Transcript.cpp:43-102 | Equal octets come from the same kind of message with the same arguments: each encoding is injective, and reply, final and credential-hash octets are never equal |
| `Transcript.BodyInjective` | adapters/opendds/src/Transcript.cpp:59-102 | A property list of a given role determines every field |
| `Xcdr.DeserializeOfSerialize` | protocol/pqsec-auth-v1.md:77-95 | Parsing XCDR1 big-endian octets, with alignment padding, gives back the property list |
| `Xcdr.SerializeInjective` | protocol/pqsec-auth-v1.md:77-95 | Different property lists have different octets |
| `Xcdr.ReadItemsOfItems` | protocol/pqsec-auth-v1.md:77-95 | Length-prefixed items can be read back at any offset, whatever follows |
| `Transcript.PropertyList.Append` | adapters/opendds/src/Transcript.cpp:43-50 | One propagating property is added at the end |
| `Transcript.PropertyList.AppendText` | adapters/opendds/src/Transcript.cpp:52-57 | The value carries its terminating NUL |
| `Transcript.PropertyList.AppendDomain` | adapters/opendds/src/Transcript.cpp:19-22 | The domain separator of a role: protocol name, then role name |
| `Transcript.CredentialProperties` | adapters/opendds/src/Transcript.cpp:59-70 | Builds exactly the list of a credential hash |
| `Transcript.ReplyTranscript` | adapters/opendds/src/Transcript.cpp:72-86 | Builds exactly the list of a reply |
| `Transcript.FinalTranscript` | adapters/opendds/src/Transcript.cpp:88-102 | Builds exactly the list of a final message |
| `Octets.StringValueOfTerminated` | adapters/opendds/src/Authentication.cpp:50-54 | `string_value` undoes the string form of `append` on NUL-free texts |
| `Octets.StringValueIsExact` | adapters/opendds/src/Authentication.cpp:50-54 | Octets read as a non-empty text exactly if they start with its terminated form and end with a NUL |
| `HonestRun.HonestRunCompletes` | adapters/opendds/src/Authentication.cpp:305-597 | For any announcement, delivery, repetition or loss of AuthRequests before and between the messages: the request is always made; the reply is accepted, and the whole handshake completes with equal secrets and challenges, if and only if no side has heard an announcement made after the announcer drew another challenge |
| `HonestRun.QuietRunCompletes` | adapters/opendds/src/Authentication.cpp:379-384 | If the AuthRequest traffic, in whatever order and with whatever losses, ends before the request, the handshake completes |
| `HonestRun.LateAnnouncementFails` | adapters/opendds/src/Authentication.cpp:476-481 | An announcement that is first made after the request and overtakes it makes the replier refuse a genuine request |
| `HonestRun.HeardChallenge` | adapters/opendds/src/Authentication.cpp:305-345 | What the peer has heard fits the challenge in use if and only if it was announced before the challenge was drawn, or nothing was heard |
| `HonestRun.FirstContact` | adapters/opendds/src/Authentication.cpp:292-346 | Two plugins that validate each other for the first time know each other under stable handles, and the one with the smaller GUID, and no other, is told to send the request |
| `HonestRun.AnswerStage` | adapters/opendds/src/Authentication.cpp:442-529 | The replier accepts a genuine request exactly if it has heard nothing or the challenge in it, and signs the right session |
| `HonestRun.ConcludeStage` | adapters/opendds/src/Authentication.cpp:547-595 | The initiator accepts a genuine reply exactly if it has heard nothing or the challenge in it, and then holds the replier's session and secret |
| `HonestRun.FinishStage` | adapters/opendds/src/Authentication.cpp:597-610 | The replier accepts the genuine final message and releases the secret |
| `HonestRun.ReceiveKeeps` | adapters/opendds/src/Authentication.cpp:322-345 | A delivery changes one remote identity in the way the AuthRequest says and nothing else |
| `HonestRun.RequestReadBack` | adapters/opendds/src/Authentication.cpp:386-404 | Every property of a request is read back as it was written |
| `HonestRun.ReplyReadBack` | adapters/opendds/src/Authentication.cpp:514-527 | Every property of a reply is read back as it was written |
| `Plugin.Authentication.ValidateLocalIdentity` | adapters/opendds/src/Authentication.cpp:194-245 | The new state, result and handle are those of the state machine; the last KEM setting decides |
| `Plugin.Authentication.SetPermissionsCredential` | adapters/opendds/src/Authentication.cpp:279-290 | The document replaces that of the live identity, and nothing else changes |
| `Plugin.Authentication.ValidateRemoteIdentity` | adapters/opendds/src/Authentication.cpp:292-346 | New state, result, handle and answer are those of the state machine on every exit, also where an inserted identity stays after a failure |
| `Plugin.Authentication.BeginHandshakeRequest` | adapters/opendds/src/Authentication.cpp:348-406 | New state, result, handle and token are those of the state machine on every exit |
| `Plugin.Authentication.BeginHandshakeReply` | adapters/opendds/src/Authentication.cpp:442-529 | New state, result, handle and token are those of the state machine on every exit |
| `Plugin.Authentication.ProcessHandshake` | adapters/opendds/src/Authentication.cpp:531-614 | New state, result and token are those of the state machine for every input |
| `Plugin.Authentication.GetSharedSecret` | adapters/opendds/src/Authentication.cpp:616-628 | Exactly the challenges and the secret of a live completed handshake |
| `Plugin.Authentication.GetAuthenticatedPeerCredentials` | adapters/opendds/src/Authentication.cpp:630-645 | Certificate and permissions, only of a live completed handshake with a certificate |
| `Plugin.Authentication.ReturnHandshakeHandle` | adapters/opendds/src/Authentication.cpp:672-680 | The handle leaves its table; unknown handles are refused |
| `Plugin.Authentication.ReturnIdentityHandle` | adapters/opendds/src/Authentication.cpp:682-689 | The handle leaves the table it is in; unknown handles are refused |
| `Plugin.Authentication.NextHandle` | adapters/opendds/src/Authentication.cpp:180-182 | Hands out the counter and advances it |
| `Plugin.ValidateRemoteCredentials` | adapters/opendds/src/Authentication.cpp:408-440 | A hash if and only if every check on the peer's credentials passes; certificate and permissions are stored only then |
| `Plugin.ConcludeAsInitiator` | adapters/opendds/src/Authentication.cpp:547-595 | The handshake after a reply, for each of the five ways in which the branch can end |
| `Plugin.ConcludeAsReplier` | adapters/opendds/src/Authentication.cpp:597-613 | OK if and only if the message is the final one for the stored session, signed by the stored certificate |
| `Plugin.CheckReply` | adapters/opendds/src/Authentication.cpp:553-568 | Accepts if and only if the challenges fit and the signature over the stored session verifies |
| `Plugin.HashCredentials` | adapters/opendds/src/Transcript.cpp:59-70 | The hash of the encoded credentials |
| `Guids.ComplementaryRoles` | adapters/cyclonedds/src/authentication.c:1347-1353 | For distinct GUIDs exactly one side is told to send the request, for equal ones neither |
| `Guids.SmallerSendsRequest` | adapters/cyclonedds/src/authentication.c:1347-1353 | A participant is told to send the request if and only if its GUID, read as a big-endian number, is smaller than the other |
| `Guids.LessIsNumeric` | adapters/opendds/src/Authentication.cpp:66-68 | The byte order is the order of the octets as big-endian numbers |
| `Guids.LessTrichotomy` | adapters/opendds/src/Authentication.cpp:66-68 | Of two distinct octet sequences of a length exactly one is less; none is less than itself |
| `Guids.LessTransitive` | adapters/opendds/src/Authentication.cpp:66-68 | The order is transitive |
| `Guids.AdjustedGuid` | adapters/cyclonedds/src/authentication.c:662-688 | The carry loop makes the first six octets, as a 48-bit number, 2^47 plus half of the first 48 digest bits, whatever the candidate; the candidate's digest and entity id follow |
| `Guids.AdjustedPrefixIsAdjusted` | adapters/cyclonedds/src/authentication.c:676-683 | Exactly one prefix has that value |
| `Guids.CertificateMatchesGuid` | adapters/opendds/src/Authentication.cpp:70-84 | Accepts exactly the GUIDs with that prefix, and none for a short digest |
| `Guids.KeyMatchesCertificate` | adapters/cyclonedds/src/authentication.c:1648-1668 | Recomputing from an all-zero candidate accepts exactly the same prefixes |
| `Expiry.GetCertificateExpiry` | adapters/cyclonedds/src/auth_utils.c:83-107 | The result is exact or DDS_NEVER, never before now for an unexpired certificate, and DDS_NEVER only when all but the last day of the time line is outlived |
| `Expiry.DaysLeftIsExact` | adapters/cyclonedds/src/auth_utils.c:96-106 | The two nested truncating divisions give the whole days left on the 64-bit time line |
| `Expiry.NoOverflowExactly` | adapters/cyclonedds/src/auth_utils.c:96-106 | No intermediate value overflows 64 bits if and only if the certificate did not expire more than 9223372036 seconds ago |
| `Expiry.UnexpiredNeverOverflows` | adapters/cyclonedds/src/auth_utils.c:96-106 | No unexpired certificate overflows |
| `Expiry.LongExpiredOverflows` | adapters/cyclonedds/src/auth_utils.c:96-106 | A certificate that expired 300 years ago does |
| `Algorithms.WireCodec` | adapters/cyclonedds/src/auth_algs.c:72-130 | Octets decode to a supported kind if and only if they are the name written for it, with or without a trailing NUL |
| `Algorithms.TablesCodec` | adapters/cyclonedds/src/auth_algs.c:17-36 | That holds for the signature table and the KEM table |
| `Algorithms.NamesOneRow` | adapters/cyclonedds/src/auth_algs.c:61-80 | Octets name at most one row of a table |
| `Algorithms.KemTableIsDistinct` | adapters/cyclonedds/src/auth_algs.c:17-28 | No two KEM rows share a name or a kind |
| `Algorithms.SignatureTableIsDistinct` | adapters/cyclonedds/src/auth_algs.c:30-36 | No two signature rows share a name or a kind |
| `Algorithms.KemsHaveSizes` | adapters/cyclonedds/src/auth_algs.c:154-183 | A kind has a public-key size, and a ciphertext size, exactly if it can be agreed on |
| `Algorithms.OctetsEqualString` | adapters/cyclonedds/src/auth_algs.c:61-70 | Equal if and only if the octets are the text, with or without its NUL |
| `Algorithms.FindWireKind` | adapters/cyclonedds/src/auth_algs.c:72-80 | The kind of the first row that the octets name |
| `Algorithms.FindByKind` | adapters/cyclonedds/src/auth_algs.c:51-59 | The first row of a kind |
| `Algorithms.FindSizes` | adapters/cyclonedds/src/auth_algs.c:166-173 | The first size row of a kind |
| `Algorithms.ValidateKemProperty` | adapters/cyclonedds/src/auth_utils.c:1630-1652 | Passes exactly material of the exact size of its kind |
| `PqExchange.FirstExchange` | adapters/cyclonedds/src/authentication.c:1375-3397 | On two whole instances, for all certificates, permissions, participant data, challenges and either setting of the optional properties: the four calls of a first exchange succeed exactly as far as the announced challenges are the ones in use; then both hand out the same secret with the same ordered challenges, and each the certificate and permissions of the other |
| `PqCalls.StrangersShareSecret` | adapters/cyclonedds/src/authentication.c:1207-3441 | Two instances that do not know each other: after each has validated the other, with the announcement delivered or lost, the four calls of the exchange all succeed, and both hand out the same secret with the challenges that they drew when they met |
| `PqCalls.FirstContact` | adapters/cyclonedds/src/authentication.c:1207-1373 | After two instances have validated each other, each expects the challenge that the other uses, and the one with the smaller GUID, and no other, is told to begin |
| `PqRun.FirstExchangeCompletes` | adapters/cyclonedds/src/authentication.c:1529-3333 | The same on the objects of one handshake, with exact token lengths 7/8, 10/12 and 5/7, and what each side has learned of the other |
| `PqRun.RequestAccepted` | adapters/cyclonedds/src/authentication.c:1848-2289 | The validator accepts an honest request if and only if its challenge is the announced one or none was announced |
| `PqRun.ReplyStage` | adapters/cyclonedds/src/authentication.c:2574-2843 | The replier's answer to an honest request, and that it fails exactly on the wrong challenge |
| `PqRun.ReplyAccepted` | adapters/cyclonedds/src/authentication.c:1848-2385 | The validator accepts an honest reply if and only if its challenge is the announced one or none was announced |
| `PqRun.FinalStage` | adapters/cyclonedds/src/authentication.c:3122-3333 | The initiator derives the shared secret from an honest reply and sends the honest final message |
| `PqRun.LastStage` | adapters/cyclonedds/src/authentication.c:3265-3333 | The replier accepts the honest final message and derives the same shared secret |
| `PqRun.CredentialsAccepted` | adapters/cyclonedds/src/authentication.c:1913-2025 | Credentials as a participant writes them pass every check of a peer with a common authority and KEM |
| `PqRun.RequestReadBack` | adapters/cyclonedds/src/authentication.c:1529-1597 | A request fills seven or eight places, and each property is read back as it was written |
| `PqRun.ReplyReadBack` | adapters/cyclonedds/src/authentication.c:2629-2843 | A reply fills ten or twelve places, and each property is read back as it was written |
| `PqRun.FinalReadBack` | adapters/cyclonedds/src/authentication.c:3122-3286 | A final message fills five or seven places, and each property is read back as it was written |
| `PqRun.ContentsSeparate` | adapters/cyclonedds/src/authentication.c:2307-2374 | A reply signature's content is never a final one's; either determines challenges and KEM material, and both hashes exactly if the optional properties are on |
| `PqInvariant.RunSound` | adapters/cyclonedds/src/authentication.c:226-3761 | In every state of every run of one instance: handles, GUID index, relations, handshakes and timers are consistent, and every remote identity is coherent |
| `PqRelease.ReplyProcessedExactly` | adapters/cyclonedds/src/authentication.c:3057-3348 | OK_FINAL exactly for a genuine reply to a handshake that a request made, which its key opens, if the expiry is known; then the signature verified under the certificate that the call leaves in the remote identity, over the reply content with this handshake's hashes and the token's challenges and KEM material, and the secret is that of the ciphertext |
| `PqRelease.FinalProcessedExactly` | adapters/cyclonedds/src/authentication.c:3265-3348 | OK exactly for a genuine final message to a handshake that a reply made; then the signature verified under the stored certificate over the final content with this handshake's hashes and the token's challenges and KEM material |
| `PqRelease.ReleasedSecret` | adapters/cyclonedds/src/authentication.c:3399-3441 | In every state of every run, behind a secret that is handed out there is a signature over its two challenges that verified under a checked certificate, and it is the digest of what the KEM gave |
| `PqRelease.RunBacked` | adapters/cyclonedds/src/authentication.c:226-3761 | In every state of every run, every shared secret is backed in that way |
| `PqRelease.PeerExpiryIsWatched` | adapters/cyclonedds/src/authentication.c:3335-3348 | A handshake that succeeds leaves a pending expiry event for the peer unless its certificate never expires: the earlier one, or else the new one; no other event changes, and none if the call fails |
| `PqRelease.OwnExpiryIsWatched` | adapters/cyclonedds/src/authentication.c:887-893 | A new local identity has the new expiry event unless its certificate never expires; a failed validation adds none |
| `PqRelease.DueEventIsUsed` | adapters/cyclonedds/src/authentication.c:629-651 | The identity that a due event names has no timer afterwards; all else stays |
| `PqAcceptance.CredentialsTakenExactly` | adapters/cyclonedds/src/authentication.c:1913-2025 | Credentials pass if and only if the certificate parses, chains to the own CA or a trusted one, is current, names its own and the local algorithm on the wire, and fits the participant data |
| `PqAcceptance.RequestValidExactly` | adapters/cyclonedds/src/authentication.c:1848-2455 | The validator accepts a request exactly if it is genuine, and then learns its certificate, algorithms, participant data and challenge |
| `PqAcceptance.ReplyValidExactly` | adapters/cyclonedds/src/authentication.c:1848-2455 | The validator accepts a reply exactly if it is genuine: among the rest it returns the own challenge, repeats no wrong hash, and its signature verifies over the reply content |
| `PqAcceptance.FinalValidExactly` | adapters/cyclonedds/src/authentication.c:1848-2455 | The validator accepts a final message exactly if its material and echoes fit and its signature verifies over the final content under the stored certificate |
| `PqAcceptance.ReplyConcludedExactly` | adapters/cyclonedds/src/authentication.c:3057-3348 | The same for the whole call on the objects of one handshake, with the secret that is shared |
| `PqAcceptance.FinalConcludedExactly` | adapters/cyclonedds/src/authentication.c:3265-3348 | The same for a final message; only the shared secret changes |
| `PqAcceptance.UnknownExpirySharesNothing` | adapters/cyclonedds/src/authentication.c:3335-3348 | If the expiry of the certificate is unknown no shared secret is left |
| `PqAcceptance.RequestAnsweredExactly` | adapters/cyclonedds/src/authentication.c:2558-2843 | An answer is made exactly for a genuine request; the ciphertext and the secret of an earlier answer are kept |
| `PqCalls.ReplyMadeExactly` | adapters/cyclonedds/src/authentication.c:2457-2872 | On the whole registry, also: the pair then has one handshake, with what was sent; a failure leaves no new handshake |
| `PqCalls.RequestMadeExactly` | adapters/cyclonedds/src/authentication.c:1375-1613 | A request is made exactly between registered identities with a key of the right size; the pair then has one handshake, with that key; a failure leaves no new handshake |
| `PqCalls.RemoteAcceptedExactly` | adapters/cyclonedds/src/authentication.c:1207-1373 | Success exactly for a compatible identity token, the same as before for a known GUID, and an AuthRequest that announces a challenge; the smaller GUID is told to begin, the own challenge is kept from the first time, and the answer announces it |
| `PqCalls.AnnouncedExactly` | adapters/cyclonedds/src/authentication.c:1102-1180 | A token announces exactly the 256-bit value of the first property whose name starts with `future_challenge` |
| `PqCalls.LocalAcceptedExactly` | adapters/cyclonedds/src/authentication.c:691-926 | Success exactly if everything loads and fits and the CA is listed; the trusted list is replaced even if a later step fails |
| `PqCalls.PermissionsAreSent` | adapters/cyclonedds/src/authentication.c:1010-1072 | The next request carries the permissions document that was set |
| `PqCalls.ReturnedHandshakeIsGone` | adapters/cyclonedds/src/authentication.c:3584-3625 | Success exactly for a registered handshake; nothing resolves under its handle afterwards, and all else is as before |
| `PqInvariant.ApplySound` | adapters/cyclonedds/src/authentication.c:226-3761 | Registry integrity and timer conservation survive every call on every exit |
| `PqInvariant.ApplyCoherent` | adapters/cyclonedds/src/authentication.c:1848-2455 | Remote-identity coherence survives every call on every exit |
| `PqInvariant.ValidateCoherent` | adapters/cyclonedds/src/authentication.c:2423-2455 | The validator leaves no certificate after a failed request or reply and a checked, matching one after success, although it stores it before the later checks |
| `PqInvariant.ProcessStepCoherent` | adapters/cyclonedds/src/authentication.c:3000-3397 | `process_handshake` leaves every remote identity coherent |
| `PqInvariant.BeginReplyCoherent` | adapters/cyclonedds/src/authentication.c:2457-2872 | `begin_handshake_reply` leaves every remote identity coherent |
| `PqInvariant.ValidateLocalSound` | adapters/cyclonedds/src/authentication.c:691-926 | A new local identity and its expiry event keep the registry sound |
| `PqInvariant.ValidateRemoteSound` | adapters/cyclonedds/src/authentication.c:1207-1373 | A new or known remote identity, with its relation, keeps the registry sound |
| `PqInvariant.BeginRequestSound` | adapters/cyclonedds/src/authentication.c:1375-1613 | A request keeps the registry sound on every exit, removing the handshake it made if it fails |
| `PqInvariant.BeginReplySound` | adapters/cyclonedds/src/authentication.c:2457-2872 | A reply keeps the registry sound on every exit, and a handshake that stays has the peer's challenge |
| `PqInvariant.ProcessSound` | adapters/cyclonedds/src/authentication.c:3000-3397 | Processing any message keeps the registry sound, with at most one expiry event for the peer |
| `PqInvariant.ReturnIdentitySound` | adapters/cyclonedds/src/authentication.c:3686-3761 | Returning an identity keeps the registry sound |
| `PqInvariant.ExpireSound` | adapters/cyclonedds/src/authentication.c:629-651 | An event that comes due leaves no timer behind |
| `PqInvariant.ReleasedCredentials` | adapters/cyclonedds/src/authentication.c:3443-3528 | In every state of every run, the credentials handed out for a handshake are those of its own remote identity, whose certificate chains to a configured authority and fits the stored participant data |
| `PqInvariant.ReturnIdentityExact` | adapters/cyclonedds/src/authentication.c:3627-3761 | After an identity is returned no relation, handshake, GUID entry or event names it, and everything that did not name it is as before |
| `PqInvariant.NoneLeft` | adapters/cyclonedds/src/authentication.c:520-534 | Removing the one handshake that `find_handshake` finds leaves none of the pair |
| `PqInvariant.ForgotLocal` | adapters/cyclonedds/src/authentication.c:3627-3659 | Forgetting its pair with every remote identity is forgetting a local identity |
| `PqInvariant.ForgotRemote` | adapters/cyclonedds/src/authentication.c:3661-3684 | Forgetting every pair of its link hash is forgetting a remote identity |
| `PqInvariant.OneEventPerIdentity` | adapters/cyclonedds/src/authentication.c:653-660 | No identity has two pending events, and no event names a removed identity |
| `PqTokens.ValidateToken` | adapters/cyclonedds/src/authentication.c:1848-2455 | The objects of the handshake and the verdict are those of the validator, whatever the token |
| `PqTokens.ValidateCredentials` | adapters/cyclonedds/src/authentication.c:1913-2025 | Verdict and stored certificate, permissions and hash, on every exit |
| `PqTokens.CheckMaterial` | adapters/cyclonedds/src/authentication.c:2027-2160 | Accepts exactly tokens whose KEM material, challenges and signature are there with the right sizes |
| `PqTokens.ValidateChallenge` | adapters/cyclonedds/src/authentication.c:2205-2223 | The peer's challenge must be the stored one; the first one seen is stored |
| `PqTokens.CheckEchoes` | adapters/cyclonedds/src/authentication.c:2225-2266 | Accepts exactly tokens whose optional hashes and returned challenge are those of the handshake |
| `PqTokens.CheckSignature` | adapters/cyclonedds/src/authentication.c:2280-2385 | Accepts exactly signatures over the laid-out content under the stored certificate |
| `PqTokens.BuildRequest` | adapters/cyclonedds/src/authentication.c:1529-1597 | The array is filled exactly, in order |
| `PqTokens.BuildReply` | adapters/cyclonedds/src/authentication.c:2629-2843 | The array is filled exactly, with the signature over the reply content last |
| `PqTokens.BuildFinal` | adapters/cyclonedds/src/authentication.c:3122-3286 | The array is filled exactly, in order |
| `PqTokens.RequestOn` | adapters/cyclonedds/src/authentication.c:1465-1597 | What a request makes of the objects of its handshake |
| `PqTokens.AnswerOn` | adapters/cyclonedds/src/authentication.c:2558-2843 | What an answer makes of the objects of its handshake, on every exit |
| `PqTokens.EncapsulateFor` | adapters/cyclonedds/src/authentication.c:2574-2602 | An existing ciphertext and secret are kept |
| `PqTokens.ProcessReplyOn` | adapters/cyclonedds/src/authentication.c:3057-3348 | What a reply makes of the objects of its handshake, on every exit |
| `PqTokens.ProcessFinalOn` | adapters/cyclonedds/src/authentication.c:3265-3348 | What a final message makes of the objects of its handshake, on every exit |
| `PqTokens.ConcludeOn` | adapters/cyclonedds/src/authentication.c:3309-3348 | The shared secret is kept only if the peer's expiry is known |
| `PqTokens.LoadCertificateFrom` | adapters/cyclonedds/src/authentication.c:1758-1817 | A certificate exactly if it parses, chains to an authority and is current |
| `Registry.Authentication.ValidateLocalIdentity` | adapters/cyclonedds/src/authentication.c:691-926 | New state, result and handle are those of the state machine on every exit |
| `Registry.Authentication.SetPermissionsCredential` | adapters/cyclonedds/src/authentication.c:1010-1072 | New state and result are those of the state machine |
| `Registry.Authentication.ReadAuthRequest` | adapters/cyclonedds/src/authentication.c:1102-1180 | The announced challenge, if the token carries an acceptable one |
| `Registry.Authentication.ValidateRemoteIdentity` | adapters/cyclonedds/src/authentication.c:1207-1373 | New state, result, handle and answer are those of the state machine on every exit |
| `Registry.Authentication.BeginHandshakeRequest` | adapters/cyclonedds/src/authentication.c:1375-1613 | New state, result, handle and token are those of the state machine on every exit |
| `Registry.Authentication.BeginHandshakeReply` | adapters/cyclonedds/src/authentication.c:2457-2872 | New state, result, handle and token are those of the state machine on every exit |
| `Registry.Authentication.ProcessHandshake` | adapters/cyclonedds/src/authentication.c:3000-3397 | New state, result and token are those of the state machine on every exit |
| `Registry.Authentication.SharedSecretOf` | adapters/cyclonedds/src/authentication.c:3399-3441 | The shared secret of a registered handshake, if it has one |
| `Registry.Authentication.PeerCredentialsOf` | adapters/cyclonedds/src/authentication.c:3443-3528 | Certificate and permissions of the peer of a registered handshake, if it has both |
| `Registry.Authentication.FindHandshakeObject` | adapters/cyclonedds/src/authentication.c:520-534 | Visiting the hash in any order finds the handshake of the pair if there is one |
| `Registry.Authentication.ReturnHandshakeHandle` | adapters/cyclonedds/src/authentication.c:3584-3625 | The handshake leaves the registry; a handle of another kind is refused |
| `Registry.Authentication.RemoveRelation` | adapters/cyclonedds/src/authentication.c:515-518 | The relation leaves its link hash, and all other pointers stay in step |
| `Registry.Authentication.InvalidateLocalRelatedObjects` | adapters/cyclonedds/src/authentication.c:3627-3659 | In any order of iteration the loop removes exactly the relations and handshakes of the local identity |
| `Registry.Authentication.InvalidateRemoteRelatedObjects` | adapters/cyclonedds/src/authentication.c:3661-3684 | In any order of iteration the loop removes exactly the relations and handshakes of the remote identity |
| `Registry.Authentication.ReturnIdentityHandle` | adapters/cyclonedds/src/authentication.c:3686-3761 | New state and result are those of the state machine |
| `Registry.Authentication.ValidityCallback` | adapters/cyclonedds/src/authentication.c:629-651 | The identity named by the event is reported and has no timer any more |
| `Registry.Authentication.WatchExpiry` | adapters/cyclonedds/src/authentication.c:3335-3348 | An event is added only if the remote identity has none and expires |
| `Registry.Authentication.HandleIntegrity` | adapters/cyclonedds/src/authentication.c:226-249 | Every registered object is under its own nonzero handle |
| `Registry.Authentication.GuidHashIntegrity` | adapters/cyclonedds/src/authentication.c:1274-1319 | The GUID hash is in bijection with the registered remote identities |
| `Registry.Authentication.LinkIntegrity` | adapters/cyclonedds/src/authentication.c:1281-1319 | Every relation is in its own remote's link hash under its local's handle, and both are registered |
| `Registry.Authentication.HandshakeIntegrity` | adapters/cyclonedds/src/authentication.c:1439-1456 | Every handshake points at registered objects, and no other is of the same pair |
| `Registry.Authentication.TimerIntegrity` | adapters/cyclonedds/src/authentication.c:653-660 | Pending events and nonzero timers of registered identities name each other |

## Left out

- Network.RunSound: the handle counter is an unbounded integer; `CORBA::Long` wrapping around after 2^31 handles is not modelled.
- Expiry.GetCertificateExpiry: requires that no intermediate value overflows; `Expiry.NoOverflowExactly` says for which certificates that is so.
- PqExchange.FirstExchange: a first, single exchange per pair only. Repeated requests regenerate the initiator's KEM key, and no agreement across such sessions is claimed.
- PqTokens.AnswerOn: on a handshake that already holds a ciphertext the source reads a pointer that it never set; the parameter `unset` stands for whatever is read there.
- Registry.Authentication.BeginHandshakeRequest: requires that `validate_remote_identity` has introduced the pair, where the source has `assert(relation)`; the same for `Registry.Authentication.BeginHandshakeReply`.
- Registry.Authentication.ReturnIdentityHandle: the expiry event is taken from the dispatcher together with the entries of the tables; the source does the two one after the other.
- Registry.Authentication.FindHandshakeObject: the hopscotch hash is a map, and iteration visits a snapshot of its keys in arbitrary order.
- Registry.Authentication.ValidityCallback: the listener is reduced to the handle that it is told.
- Plugin.Authentication.ValidateLocalIdentity: loading credentials, choosing a provider and deriving the GUID are parameters.
- Registry.Authentication.ValidateLocalIdentity: reading PEM files, the trusted CA directory and the CRL are parameters; the order of the checks and what stays behind on each exit is kept.
- PqHandshake: certificates are identified with their PEM contents through an arbitrary function; X.509 parsing and chain building are functions of the environment.
- SHA-256, ML-DSA, the KEM arithmetic and OpenSSL objects; erasing secrets from memory.
- Mutexes: every SPI call is one atomic step. Failed allocations appear only where the source's own error path has them (nonces, keys, signatures).
- The classical Diffie-Hellman build of the CycloneDDS adapter, which has the same shape.
- Identity and status tokens, `set_listener`, `get_identity_token` and the calls that free tokens: they copy data.
- Logging, benchmarking, the plugin loader, configuration files and the provider.
- DDS library look-ups (`TokenReader`, `DataHolder` searches, `memcmp`-based search by name) are modelled by what they find; their code is not part of this model. Whether a text property is written with its terminating NUL depends on such a library function, so `PqHandshake.Config.terminated` is left open and everything holds for both.
