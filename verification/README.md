# mcpose: the audit trail and the protocols that feed it

A Dafny model of the tamper-evident audit trail of mcpose and of the concurrent protocols around it, with
proofs about every input, every run and every reachable state.

- `Text`, `Json`, `JsonParser`, `Canonical`, `PrintedForm`: the canonical serializer, a parser for the form it
  prints (no whitespace, no escapes but its own), why equal texts mean equal documents, and what the text itself
  looks like: key order in UTF-16 code units, leaves, brackets and escapes.
- `ObjectGraph`: the serializer as it runs, a mutable set of enclosing objects around a recursion over
  object graphs that may be cyclic.
- `Digests`, `Merkle`, `MerkleTheorems`: the padded, domain-separated tree, built three ways, and its
  verifier. SHA-256 and HMAC are function parameters into 64 hex digits; they are not injective, so every
  binding theorem says "equal, or here are two different strings, hashed by the parties named, with one
  digest". Everything in the tree is hashed by three methods, each of which returns a record of its call, and
  every other method returns the records of the calls it makes.
- `Records`, `Chain`, `Verifier`: the covered fields of an event, the HMAC chain, the keyed verifier and the
  keyless check.
- `Manifest`, `Replay`: the signed payload, the manifest checks, and the end-to-end binding.
- `AuditProtocol`, `AuditInvariant`, `AuditTheorems`, `AuditDelivery`, `AuditBinding`, `AuditRecords`,
  `AuditScenarios`: the session protocol as a step relation, one step per await-free segment, over all
  interleavings of calls, closes, timers, signer and sink answers, and failures. `AuditMiddleware` is the same
  object in its own form, each segment a method on mutable maps, proved equal to its step.
- `SessionTable`, `SessionLimits`, `SessionAccounts`, `SessionShutdown`, `SessionAdmissions`, `SessionServer`: the
  HTTP session table, its cap, its books, its shutdown and what an admission takes, likewise as a step relation
  and as an object.
- `EventStore`, `Onion`, `EventId`, `Mesh`, `Delegation`: the event store behind per-session scopes,
  middleware composition, the cursor and name codecs, and the delegation chain across proxies.

What is hashed, signed, printed and recorded is said twice: by the definitions the theorems use, and again
without them, field by field, key by key or over the bare hash function (`PrintedForm`, `AuditRecords`,
`SessionAdmissions`, `Merkle.RootIsTree`, and the lemmas whose names end in `ByName`, `UnderKeys` or `Holds`).

`dafny verify dfyconfig.toml` checks everything.

## Where the code does less than it says

Each of these is modelled as the code has it, with a concrete run or input that shows it and the exact
condition under which the promise does hold.

- A signer or sink that throws before its first suspension, or a payload without a canonical text, leaves
  an ended attempt stored: its `finally` runs before the `??=` assignment. No later close retries
  (`AuditDelivery.StuckAfterRunExactlyWhen`, `AuditScenarios.SynchronousFailureStrands`).
- `sealed.delete` is by id: a delivery that succeeds after its id was reused and closed again drops the later
  session's undelivered manifest (`AuditDelivery.DeliveryLosesExactlyWhen`, `AuditScenarios.ReuseLosesManifest`).
- A straggler is reported with the words that its event is not in the manifest; when its event only waits
  for the sink, it is (`AuditTheorems.StragglerCoveredExactlyWhen`, `AuditScenarios.StragglerIsMisreported`).
- A session whose resume is being served when the server shuts down is admitted afterwards, and no teardown
  is started for it (`SessionShutdown.LiveAfterShutdown`, `SessionShutdown.ResumeIsLeftBehind`).
- A `maxSessions` that is not whole can be exceeded (`SessionLimits.CapHoldsExactlyForWholeLimits`,
  `SessionLimits.FractionalLimitOvershoots`).
- A fresh session whose `connect` fails leaves its proxy server open (`SessionAccounts.GivenUpExactlyWhen`,
  `SessionAccounts.FailedConnectLeavesServerOpen`).
- Backend keys `k` and `k_` expose one name, which routes to `k` (`Mesh.RouteUndoesNamespace`,
  `Mesh.KeyEndingInUnderscoreIsAmbiguous`).

## Model

| member | source | states |
|---|---|---|
| `Canonical.CanonicalExact` | packages/audit/src/chain.ts:20-85 | for all printable values, equal canonical texts exactly when the values are equal up to key order at every depth and undefined-valued keys; the text parses back to the sorted normal form |
| `Canonical.SameIffNormal` | packages/audit/src/chain.ts:77-81 | two values are the same document (defined without any order, as finite maps) exactly when their sorted normal forms are equal |
| `Canonical.KeyOrderTotal` | packages/audit/src/chain.ts:79 | the comparison the keys are sorted by is a strict total order on strings; which one is said by PrintedForm.KeyOrderIsUnitOrder |
| `Canonical.SortedUnique` | packages/audit/src/chain.ts:77-81 | two sorted member lists that bind the same keys to the same documents are one list, so sorting leaves nothing to chance |
| `Canonical.NormalBinds` | packages/audit/src/chain.ts:77-81 | the printed members are sorted and bind exactly the keys whose value is not undefined |
| `PrintedForm.KeyOrderIsUnitOrder` | packages/audit/src/chain.ts:79 | a key is sorted before another exactly when its UTF-16 code units are a proper prefix of the other's, or have the smaller unit at the first difference |
| `PrintedForm.PrintedKeysAscend` | packages/audit/src/chain.ts:77-85 | read back, the text of every value has the keys of every object, at every depth, in ascending order of code units |
| `PrintedForm.LeafTexts` | packages/audit/src/chain.ts:35-70 | the text of every value that is neither array nor object; strict mode has none for a BigInt, a function or symbol, or a cycle, and otherwise the same one |
| `PrintedForm.ArrayTexts` | packages/audit/src/chain.ts:71-73 | an array of two is its items' texts in order between brackets, with a comma and nothing else |
| `PrintedForm.ObjectTexts` | packages/audit/src/chain.ts:77-81 | an object of two members and an undefined one is the two members between braces, the key with the smaller units first |
| `PrintedForm.EscapeIsShortest` | packages/audit/src/chain.ts:46 | the escape of a character is the one shortest text a string literal can hold for it |
| `JsonParser.ParsePrint` | packages/audit/src/chain.ts:35-85 | reading the printed form back, escapes and all, recovers every printed document |
| `JsonParser.ValueRoundTrip` | packages/audit/src/chain.ts:42-81 | a printed value followed by any text that cannot extend it parses back to the value and leaves that text |
| `JsonParser.BodyRoundTrip` | packages/audit/src/chain.ts:46 | the escapes of a string literal are undone, whatever follows the closing quote |
| `ObjectGraph.Serializer.Serialize` | packages/audit/src/chain.ts:35-85 | on every finite, possibly cyclic graph the call ends, leaves the set of enclosing objects as it found it whether it returns or throws, and gives the text of the value the graph unfolds to |
| `ObjectGraph.Serializer.SerializeItems` | packages/audit/src/chain.ts:71-73 | an array's text is its items' texts in order, and it throws exactly if one of them does |
| `ObjectGraph.Serializer.SerializeSlots` | packages/audit/src/chain.ts:77-81 | an object's text is its defined members sorted by key, and it throws exactly if one of them does; in which direction is said by PrintedForm.SerializedKeysAscend |
| `PrintedForm.SerializedKeysAscend` | packages/audit/src/chain.ts:35-85 | whatever object graph is serialized, in either mode, its text read back has the keys of every object in ascending order of code units |
| `ObjectGraph.StrictThrowsIffOffence` | packages/audit/src/chain.ts:40-68 | strict mode throws exactly if some path through defined members and items leads to a BigInt, a function or symbol, or back to an enclosing object; when it returns, the total mode returns the same text |
| `ObjectGraph.UnfoldWellFormed` | packages/audit/src/chain.ts:63-84 | unfolding never gives an object with one key twice |
| `ObjectGraph.GraphsExact` | packages/audit/src/chain.ts:20-85 | exactness lifted to graphs: two graphs strict mode accepts have one text exactly when they unfold to the same document |
| `Merkle.ComputeMerkleRoot` | packages/audit/src/chain.ts:175-208 | the loop returns the tree root written out over the hash function, tags and all, and for no leaves the hash of the empty string; the record of its hashing calls is the tree's inputs, each once and in order |
| `Merkle.RootIsTree` | packages/audit/src/chain.ts:175-208 | the root by layers is the balanced tree, top down: h of `mcpose/v2/leaf\0` and the element for a leaf, h of `mcpose/v2/node\0`, left root and right root for a node, a side with no elements of its own repeating the side to its left |
| `Merkle.RootSplits` | packages/audit/src/chain.ts:186-208 | the root of n >= 2 elements is the node hash of the root of the first p, p the largest power of two below n, and of the tree over the rest padded to p by repetition |
| `Merkle.ComputeNextLayer` | packages/audit/src/chain.ts:186-197 | the layer above, an odd last node paired with itself; the record of the calls of nodeHash is one per pair, in order |
| `Merkle.ComputeLeaves` | packages/audit/src/chain.ts:178-180 | the hashed leaves; the record of the calls of leafHash is one per element, in order |
| `Merkle.ComputeMerkleProof` | packages/audit/src/chain.ts:210-238 | for an index in range the index, the siblings and the directions told from the top of the tree, for which the whole tree is hashed once; the RangeError for every other index, for which nothing is |
| `Merkle.ProofIsTree` | packages/audit/src/chain.ts:210-254 | the proof by layers is the proof from the top of the tree: at every level the other half's root and the side it stands on |
| `Merkle.ProofFromLayers` | packages/audit/src/chain.ts:240-254 | reading a proof off finished layers gives the siblings and directions of the recursive definition |
| `Merkle.ComputeMerkleRootAndProofs` | packages/audit/src/chain.ts:257-274 | the batch equals the tree root written out over the hash function and the single proof at every index; the record of its hashing calls is that of one tree, fewer than 2n + d of them for n leaves and proofs of length d, however many proofs it makes |
| `Merkle.VerifyMerkleProof` | packages/audit/src/chain.ts:286-317 | accepts exactly the proofs whose climb uses the directions of the index, has no hole, uses up the index and ends at the root; what it hashes is the climb, whole when it accepts and a part of it when it refuses |
| `MerkleTheorems.MerkleSound` | packages/audit/src/chain.ts:286-317 | an accepted proof of any length with any sibling strings, at a position inside the list, proves the element there, or the verifier and the tree hashed two different strings to one digest |
| `MerkleTheorems.MerkleSoundAnywhere` | packages/audit/src/chain.ts:286-317 | at any index, also past the end of the list, what an accepted proof proves is an element of the list, or two hashed strings collide |
| `MerkleTheorems.PaddingIsAccepted` | packages/audit/src/chain.ts:168-173 | of three leaves the last is proved at index 3 as well: a position means something only below the signed count |
| `MerkleTheorems.LevelsAlign` | packages/audit/src/chain.ts:175-184 | the leaf and node tags rule out proofs too short or too long: a walk of k steps that meets level m has k = m, or two hashed strings collide |
| `MerkleTheorems.PathsMeet` | packages/audit/src/chain.ts:299-312 | a walk of the right length passes through the tree nodes above its index down to the leaf, or two hashed strings collide |
| `MerkleTheorems.NodeSplit` | packages/audit/src/chain.ts:182-184 | the separator-free concatenation of a node splits one way only once one half is 64 long |
| `MerkleTheorems.MerkleComplete` | packages/audit/src/chain.ts:210-317 | every proof the tree hands out is accepted at its own position |
| `MerkleTheorems.RootAndCountBind` | packages/audit/src/chain.ts:170-173 | equal roots over lists of equal length mean equal lists, or two hashed strings collide |
| `MerkleTheorems.RootAloneDoesNotBind` | packages/audit/src/chain.ts:186-197 | for every odd list of three or more, appending a copy of the last leaf gives the same root |
| `Merkle.DepthBounds` | packages/audit/src/chain.ts:226-235 | the proof length d satisfies n <= 2^d, and 2^(d-1) < n for n >= 2 |
| `MerkleTheorems.BatchCost` | packages/audit/src/chain.ts:257-274 | one tree's hashing calls, which the batch makes and no others, stay below 2n + d, and d is logarithmic in n |
| `Chain.HashedIffFieldsPrintable` | packages/audit/src/chain.ts:155-166 | an event has a chain hash exactly when each of the eighteen fields, named one by one, has a canonical text |
| `Chain.SamePreimageByName` | packages/audit/src/chain.ts:109-166 | two preimages are the same document exactly when the previous hashes are equal and the eighteen fields, written out one by one, agree, an omitted field counting as undefined |
| `Chain.SameFieldsByName` | packages/audit/src/chain.ts:109-147 | two events' covered fields are the same document exactly when the eighteen fields, written out one by one, agree |
| `Chain.FieldsUnderKeys` | packages/audit/src/chain.ts:109-147 | each of the eighteen keys, by name, holds the event's own field |
| `Chain.NoOtherField` | packages/audit/src/chain.ts:109-147 | and nothing stands under any other key |
| `Chain.HashedTextHolds` | packages/audit/src/chain.ts:155-166 | a chain hash is the HMAC of a text that reads back as the domain `mcpose/v2/chain`, the previous hash, and each field of the event under its own key |
| `Chain.HexEqualIsEquality` | packages/audit/src/verify.ts:20-35 | against a digest the stored-hex comparison is string equality |
| `Chain.DecodingForgetsTail` | packages/audit/src/verify.ts:22-29 | decoding alone would not be: a hex string and the same string with any one more character decode alike |
| `Records.SameRecord` | packages/audit/src/chain.ts:109-147 | records over the same distinct keys are the same document exactly when they agree under every key, whichever omittable keys were left out |
| `Verifier.VerifyChain` | packages/audit/src/verify.ts:46-77 | valid exactly for a non-empty list chained throughout; otherwise the first index that is not chained onto the entries before, with the check that failed |
| `Verifier.ChainedExactlyLinks` | packages/audit/src/verify.ts:46-77 | a list is chained exactly when each entry has its own index and the hash of its fields over the entry before |
| `Verifier.ChainedByName` | packages/audit/src/verify.ts:46-77 | the same written out: the position is the index as a number, and the stored hash is that of the fields over the stored hash before, the empty string for the first |
| `Verifier.AuditHashText` | packages/audit/src/verify.ts:46-77 | the hash a verifier with the secret expects is the HMAC, under the key the secret gives for `mcpose/v2/chain`, of that text |
| `Verifier.SameEventsByName` | packages/audit/src/verify.ts:46-77 | what the binding theorems call the same events: equal chain hashes and the eighteen fields, written out, agreeing throughout |
| `Verifier.VerifyAuditChain` | packages/audit/src/verify.ts:46-77 | the same, under the chain key derived from the signing secret |
| `Verifier.ChainsBind` | packages/audit/src/verify.ts:46-77 | two verified chains that end in one hash have the same length and the same covered fields throughout, or two authenticated texts collide |
| `Verifier.HmacAuthenticates` | packages/audit/src/chain.ts:155-166 | the HMAC of the canonical preimage authenticates the previous hash and every covered field |
| `Verifier.VerifiedChainsBind` | packages/audit/src/verify.ts:46-77 | the binding for two lists verified under one signing secret |
| `Verifier.AssertAuditChainIntegrity` | packages/testing/src/index.ts:21-48 | accepts exactly non-empty lists with positions 0 to n-1 and distinct non-empty hashes; otherwise the first bad index and its fault |
| `Verifier.KeyedImpliesKeyless` | packages/testing/src/index.ts:10-19 | what the keyed check accepts the keyless check accepts, unless two entries of the chain collide |
| `Verifier.KeylessAcceptsForgery` | packages/testing/src/index.ts:10-48 | events renumbered and given hashes of the forger's choice pass the keyless check exactly when those hashes are distinct and not empty |
| `Verifier.KeyedRejectsForgery` | packages/audit/src/verify.ts:37-77 | and pass the keyed check exactly when every chosen hash is the one only the key gives for that event and the hash before |
| `Verifier.OtherSecretAcceptsExactlyWhen` | packages/audit/src/verify.ts:37-77 | a chain made under one secret is accepted under another exactly when the two chain keys give one HMAC on every preimage of it |
| `Manifest.PayloadExact` | packages/audit/src/middleware.ts:628-660 | two payload texts are equal exactly when the manifests agree on all nine fields, every proof included |
| `Manifest.SignableIffPayload` | packages/audit/src/middleware.ts:602-605 | a manifest has a payload exactly when its identity and proxy have a canonical text |
| `Manifest.SamePayload` | packages/audit/src/middleware.ts:628-660 | two payloads are the same document exactly when the manifests agree in every field; where each field stands is said by Manifest.PayloadByName |
| `Manifest.PayloadByName` | packages/audit/src/middleware.ts:628-660 | the payload is the domain `mcpose/v2/manifest` and the manifest, in which each of the nine keys, by name, holds the manifest's own field, and each proof its index, siblings and directions |
| `Manifest.PayloadTextHolds` | packages/audit/src/middleware.ts:628-660 | the signed text reads back as exactly that |
| `Replay.SignatureText` | packages/audit/src/verify.ts:83-92 | a signature is the HMAC of a text that reads back so |
| `Replay.VerifyManifestSignature` | packages/audit/src/verify.ts:83-92 | true exactly when the stored string is the hex signature of the payload; throws exactly when there is no payload |
| `Replay.AssertReplayManifestValid` | packages/testing/src/index.ts:59-94 | accepts exactly manifests with the right count, one proof per event, the recomputed root and every proof valid at its own index; otherwise the first failing check |
| `Replay.SealedMatches` | packages/audit/src/middleware.ts:554-570 | a manifest sealed from a list of events is accepted with that list |
| `Replay.ManifestBindsEvents` | packages/testing/src/index.ts:59-94 | two verified chains that count and hash to one manifest are the same events, or a hash or HMAC collided |
| `Replay.EndToEndBinding` | packages/audit/src/middleware.ts:554-609 | against any manifest with a signed payload, a list that passes the manifest check and the keyed chain check is the recorded list, or a hash or HMAC collided; so truncation, insertion, reordering and edits are excluded |
| `Replay.SignatureBinds` | packages/audit/src/verify.ts:83-92 | the same from an issued signature instead of the payload, with a third way out: two different payloads with one HMAC |
| `AuditInvariant.StepKeeps` | packages/audit/src/middleware.ts:195-625 | every await-free segment keeps the protocol invariant, whatever signer, sink, key store and clock do |
| `AuditInvariant.RunKeeps` | packages/audit/src/middleware.ts:195-625 | so it holds after every run from a state it holds in |
| `AuditInvariant.AppendInSession` | packages/audit/src/middleware.ts:404-457 | reading the position and appending in one segment continues the session's chain and gives the call its one event |
| `AuditInvariant.AdmitKeeps` | packages/audit/src/middleware.ts:279-311 | admission registers the call with the one unsealed session object of its id |
| `AuditInvariant.SettleKeeps` | packages/audit/src/middleware.ts:469-478 | the last call out wakes a waiting close |
| `AuditInvariant.SealKeeps` | packages/audit/src/middleware.ts:547-585 | sealing fixes the manifest of the events recorded so far and takes the session out of admission |
| `AuditInvariant.FinalizeKeeps` | packages/audit/src/middleware.ts:595-622 | an attempt starts only when none is stored, so at most one runs per sealed session |
| `AuditTheorems.SessionsAreChains` | packages/audit/src/middleware.ts:404-457 | in every reachable state each session's events form a valid chain at positions 0 to n-1 and prevChainHash is the last event's hash |
| `AuditTheorems.DeliveredManifestsVerify` | packages/audit/src/middleware.ts:554-616 | every manifest ever handed to the sink is accepted, with the events it was sealed from, by the chain check, the signature check and the manifest check |
| `AuditTheorems.DrainCompleteness` | packages/audit/src/middleware.ts:513-551 | in a run where no deadline fires, every manifest covers exactly the recorded events of all calls ever admitted to its session object, and all those calls have settled |
| `AuditTheorems.ManifestCoversCalls` | packages/audit/src/middleware.ts:517-551 | with deadlines allowed to fire: every call of the session is a reported straggler, or has settled and is covered exactly if its event was recorded |
| `AuditTheorems.SealReportsStragglers` | packages/audit/src/middleware.ts:524-536 | the calls reported at a seal are exactly those of the session not yet settled, and none when the deadline has not passed |
| `AuditTheorems.StragglerCoveredExactlyWhen` | packages/audit/src/middleware.ts:526-535 | a reported straggler's event is in the manifest all the same exactly when it had been appended and only waited for the sink |
| `AuditTheorems.EventsNameTheirCalls` | packages/audit/src/middleware.ts:713-717 | every event of a manifest carries the manifest's session id and the request id of the call that wrote it |
| `AuditTheorems.FirstSeenWins` | packages/audit/src/middleware.ts:290-302 | the call that opens a session object sets its identity, proxy and start for good, and an open id is never opened again |
| `AuditTheorems.EventsHaveCalls` | packages/audit/src/middleware.ts:453-456 | every event of a manifest is that of exactly one call of its session |
| `AuditRecords.RejectionsRecordedExactlyWhen` | packages/audit/src/middleware.ts:355-457 | over every run: a call is skipped exactly when its upstream rejected it and rejections are not recorded; an event is built, or fails to be, exactly when its upstream settled otherwise |
| `AuditRecords.SessionExactlyWhenNamed` | packages/audit/src/middleware.ts:279-311 | over every run: a call belongs to a session exactly when it came with a session id that is not empty |
| `AuditRecords.EventsAreDrafts` | packages/audit/src/middleware.ts:404-457 | each event of a manifest is the draft its own call's upstream settled with, but for the id, session, position and hash the middleware fills in |
| `AuditRecords.ManifestsSayWhatHappened` | packages/audit/src/middleware.ts:554-570 | every delivered manifest has the session id, identity, proxy and start of the call that opened its session, the closing time of the close that sealed it, and the count, root and proofs of its events as trees over the hash function |
| `AuditRecords.SealedExactlyWhen` | packages/audit/src/middleware.ts:513-585 | a step seals a session exactly when it is a close, or a turn of a drain loop, that finds no call in flight or the deadline passed, and an event recorded; sealed is the whole record, under its id |
| `AuditTheorems.DrainNeverStalls` | packages/audit/src/middleware.ts:524-546 | no lost wake-up: a close that waits while nothing is in flight has been woken |
| `AuditTheorems.SingleArtifact` | packages/audit/src/middleware.ts:588-622 | over any run, at most one successful signature per sealed session, one manifest however often it is delivered, and never two attempts at once |
| `AuditDelivery.ConcurrentClosesShare` | packages/audit/src/middleware.ts:498-511 | in every state the invariant allows, a close changes nothing exactly when it joins a drain or an attempt in progress, nothing is known of its id, or its entry is stuck |
| `AuditDelivery.RetryResumes` | packages/audit/src/middleware.ts:588-622 | when the step after a failed signing or delivery is a close of the id, it signs the same unsigned manifest if unsigned, and otherwise delivers the same signed one |
| `AuditDelivery.RetryableInEveryRun` | packages/audit/src/middleware.ts:588-622 | over whole runs: a sealed session whose entry leads to it, and none of whose attempts threw before it suspended, has an attempt running, or the next close of its id outside an open session starts one on the same artifact |
| `AuditDelivery.StuckExactlyWhen` | packages/audit/src/middleware.ts:599-621 | a step leaves an ended attempt stored, so that no retry starts, exactly when the attempt it starts throws before it first suspends |
| `AuditDelivery.StuckAfterRunExactlyWhen` | packages/audit/src/middleware.ts:599-621 | a run leaves a sealed session stuck exactly when one of its steps started an attempt for it that threw at once |
| `AuditDelivery.StuckRun` | packages/audit/src/middleware.ts:599-621 | and then no run whatever signs or delivers that session again |
| `AuditDelivery.ReleasedOnlyWhenDelivered` | packages/audit/src/middleware.ts:607-622 | in a run that never seals a session under an id whose delivery attempt is running, every sealed session is delivered, retained for a retry, or displaced with a report |
| `AuditDelivery.DeliveryLosesExactlyWhen` | packages/audit/src/middleware.ts:615 | a successful delivery loses another undelivered manifest exactly when its id leads to another sealed session by then |
| `AuditScenarios.HonestRunVerifies` | packages/audit/src/middleware.ts:498-622 | a concrete run of one call and one close that hands the sink a manifest all three verifiers accept |
| `AuditScenarios.SynchronousFailureStrands` | packages/audit/src/middleware.ts:599-621 | a concrete close whose signer throws at once, after which nothing signs or delivers the session |
| `AuditScenarios.StragglerIsMisreported` | packages/audit/src/middleware.ts:526-535 | a concrete run whose one call is reported as missing from the manifest that covers it |
| `AuditScenarios.ReuseLosesManifest` | packages/audit/src/middleware.ts:571-585 | a concrete run of an id reused under a running delivery, after which a manifest is neither delivered nor displaced and closing does nothing |
| `AuditBinding.SignedRunBindsEvents` | packages/audit/src/middleware.ts:554-616 | for any run and any manifest it signed, a list that passes the checks is the list recorded at the seal, or a hash or HMAC collided |
| `AuditMiddleware.Middleware.Admit` | packages/audit/src/middleware.ts:279-311 | the admission segment on the maps and objects is the admission step |
| `AuditMiddleware.Middleware.SettleUpstream` | packages/audit/src/middleware.ts:355-457 | the segment after the upstream call skips, fails to build or appends as the step says |
| `AuditMiddleware.Middleware.CloseSession` | packages/audit/src/middleware.ts:498-511 | joins, drains and seals, retries, or does nothing, as the step says |
| `AuditMiddleware.Middleware.Seal` | packages/audit/src/middleware.ts:547-585 | leaves the map, displaces an undelivered manifest of the id, and stores the new one |
| `AuditMiddleware.Middleware.StartAttempt` | packages/audit/src/middleware.ts:595-622 | stores one attempt, already ended when its first segment throws |
| `AuditMiddleware.Middleware.AnswerSigner` | packages/audit/src/middleware.ts:606-614 | keeps the signature and hands the manifest over in one segment, or ends the attempt |
| `AuditMiddleware.Middleware.AnswerDelivery` | packages/audit/src/middleware.ts:614-619 | releases the entry of the id on success, and ends the attempt either way |
| `AuditMiddleware.Middleware.ResumeClose` | packages/audit/src/middleware.ts:523-546 | one turn of the drain loop, re-checking what is in flight |
| `SessionLimits.SessionCap` | packages/core/src/core.ts:1787-1800 | in every reachable state, live sessions plus attempts past their check never exceed the limit rounded up, and never the limit itself when it is whole; the pending counter equals the open attempts |
| `SessionLimits.InitializeKeepsCap` | packages/core/src/core.ts:1943-1949 | checking with >= before counting keeps the cap |
| `SessionLimits.FoundKeepsCap` | packages/core/src/core.ts:1796-1800 | counting before checking with > keeps the same cap, because the attempt's own slot is among those counted |
| `SessionLimits.CapHoldsExactlyForWholeLimits` | packages/core/src/core.ts:1596-1600 | the limit holds in every run exactly when it is a whole number or Infinity |
| `SessionLimits.FractionalLimitOvershoots` | packages/core/src/core.ts:1943-1949 | for any other limit a burst of initializes overshoots it |
| `SessionLimits.SlotsReturn` | packages/core/src/core.ts:1826-1829 | when no attempt is open the pending counter is zero |
| `SessionAccounts.StepKeeps` | packages/core/src/core.ts:1682-1832 | every segment keeps the table's books: attempts, resumes, live sessions, teardowns and proxy servers agree |
| `SessionAccounts.AdmissionsBalance` | packages/core/src/core.ts:1682-1731 | admissions are the live sessions and the started teardowns, each exactly one of the two, and the close hook has run once in every teardown past its record |
| `SessionAccounts.OneResumePerId` | packages/core/src/core.ts:1766-1832 | at most one resume per id is in flight, and none that could admit an id already live |
| `SessionAccounts.ServersAccountedFor` | packages/core/src/core.ts:1820-1825 | live sessions have open proxy servers, and once everything has settled an open server is a live session's or a failed fresh connect's |
| `SessionAccounts.GivenUpExactlyWhen` | packages/core/src/core.ts:2023-2036 | a proxy server is given up by one step only, the failed connect of a fresh session |
| `SessionAccounts.FailedConnectLeavesServerOpen` | packages/core/src/core.ts:2023-2036 | a concrete run after which such a server is still open |
| `SessionServer.HttpSessions.Initialize` | packages/core/src/core.ts:1943-1949 | refused exactly when live sessions and pending slots have reached a finite limit, and then nothing changes; otherwise one more slot and one more attempt |
| `SessionServer.HttpSessions.Request` | packages/core/src/core.ts:1874-1886 | routed, joined to the resume in flight, or a new resume with its slot |
| `SessionServer.HttpSessions.AnswerRegistry` | packages/core/src/core.ts:1789-1810 | unknown exactly without a live record, refused exactly when sessions and slots exceed a finite limit, neither with a new server; otherwise one new server, built for the attempt |
| `SessionAdmissions.AdmittedOnlyIfCleared` | packages/core/src/core.ts:1784-1829 | over every run: a resume that is admitted, or can be, was answered with a live record while there was room, and its connect succeeded |
| `SessionAdmissions.ResumedOnlyFromRecord` | packages/core/src/core.ts:1789-1810 | over every run: a resume comes to have a server only through such an answer |
| `SessionServer.HttpSessions.AdmitSession` | packages/core/src/core.ts:1704-1731 | one more live session under the attempt's id |
| `SessionServer.HttpSessions.DestroySession` | packages/core/src/core.ts:1682-1697 | a live id leaves the table and one teardown starts, which waits for the registry's delete exactly when there is a registry and the record is not kept; any other id changes nothing |
| `SessionServer.HttpSessions.Close` | packages/core/src/core.ts:2056-2075 | the first shutdown starts one teardown for every session held, in the order returned, none of which waits for a delete, and touches no attempt, resume, slot or server; the second does nothing |
| `SessionShutdown.DestroyAllFrame` | packages/core/src/core.ts:2065-2067 | a shutdown leaves attempts, resumes, the pending counter and what is closed as they were |
| `SessionShutdown.DestroyAllStarts` | packages/core/src/core.ts:2060-2067 | every teardown a shutdown starts is that of a session held, past its record at once: the records are kept |
| `SessionShutdown.LiveAfterShutdown` | packages/core/src/core.ts:2056-2075 | in every later state the live sessions are exactly those admitted after the shutdown and not torn down since |
| `SessionShutdown.InFlightOutlivesShutdown` | packages/core/src/core.ts:1820-1829 | an attempt being served at the shutdown can still be admitted, whatever else has happened since, and no teardown is started for it |
| `SessionShutdown.ResumeIsLeftBehind` | packages/core/src/core.ts:2056-2075 | a concrete run that ends in such a session |
| `EventStore.InMemoryEventStore.StoreEvent` | packages/core/src/eventStore.ts:31-38 | the store holds exactly the last maxEvents events of its history; the id of an event is its number in that history, from 1 on |
| `EventStore.InMemoryEventStore.ReplayEventsAfter` | packages/core/src/eventStore.ts:44-57 | replays the cursor's stream after it from what is held, nothing for a cursor not held |
| `EventStore.ScopedReplayEventsAfter` | packages/core/src/eventStore.ts:87-90 | the scoped replay as a function of the history |
| `EventStore.ScopedReplayIsPrivate` | packages/core/src/eventStore.ts:62-92 | while the cursor's own event is held, a scoped replay sends exactly that session's later events on that stream, in order, as an unbounded private log would |
| `EventStore.OtherCursorsReplayNothing` | packages/core/src/eventStore.ts:68-70 | an evicted, unknown or foreign cursor replays nothing |
| `EventStore.ColonsLeak` | packages/core/src/eventStore.ts:76-78 | with a colon in a session id one session's events reach another |
| `Onion.EachLayerOnce` | packages/core/src/middleware.ts:43-57 | whatever the middleware call and when, each layer and the terminal handler run at most once, in increasing order |
| `Onion.Pipeline.Dispatch` | packages/core/src/middleware.ts:45-57 | one shared index is enough for layers that call next any number of times, fail, recover and change the world: a dispatch at or below it is rejected and changes nothing, one above it gives the pipeline in which each layer reaches the next once |
| `Onion.Compose` | packages/core/src/middleware.ts:39-61 | each call has its own index and its own context when none is passed, and comes to that nested pipeline |
| `Onion.ComposeFlattens` | packages/core/src/middleware.ts:39-61 | composing two compositions is composing their layers, for all such layers, contexts and worlds |
| `Onion.ComposedMeansLayers` | packages/core/src/middleware.ts:39-61 | a composition used as one middleware above others means its layers above them |
| `Onion.PipeFirstIsInnermost` | packages/core/src/middleware.ts:63-72 | in a pipe the first layer sits next to the handler |
| `EventId.ParseUndoesBuild` | packages/store-redis/src/index.ts:79-111 | parsing undoes building exactly for a non-empty stream id and an entry id Redis accepts, for every character of the stream id |
| `EventId.AcceptedExactlyWhen` | packages/store-redis/src/index.ts:79-100 | two runs of digits around a dash are an entry id exactly when each has 1 to 19 digits and is at most 2^63 - 1 |
| `EventId.ComponentRoundTrip` | packages/store-redis/src/index.ts:154-155 | decodeURIComponent undoes encodeURIComponent, by UTF-8 and section 2.1 of RFC 3986 |
| `EventId.LeftAlone` | packages/store-redis/src/index.ts:154-155 | letters, digits and nine marks stand for themselves in a cursor, and no other character does |
| `EventId.CharacterTexts` | packages/store-redis/src/index.ts:154-155 | how a character of one, two, three and four bytes is written |
| `EventId.CursorsInjective` | packages/store-redis/src/index.ts:154-155 | cursors of different events differ |
| `EventId.ReplayEventsAfter` | packages/store-redis/src/index.ts:179-199 | replays what follows the cursor's own entry, nothing when that entry is gone |
| `EventId.SentCursorsResume` | packages/store-redis/src/index.ts:190-197 | every cursor a replay sends parses back to its own event on the same stream |
| `Mesh.RouteUndoesNamespace` | packages/core/src/mesh.ts:95-155 | for a configured valid key, routing undoes namespacing exactly when the key does not end in an underscore and the name is not empty |
| `Mesh.KeyEndingInUnderscoreIsAmbiguous` | packages/core/src/mesh.ts:7-12 | keys k and k_ expose one name, and it routes to k |
| `Mesh.RoutedWasNamespaced` | packages/core/src/mesh.ts:145-155 | a name that routes is a configured key, two underscores and a name that is not empty, and the key ends at the first two underscores in a row |
| `Mesh.RouteUndoesUri` | packages/core/src/mesh.ts:103-135 | for a configured valid key, routing undoes the resource form exactly when the URI is not empty |
| `Mesh.RoutedUriWasNamespaced` | packages/core/src/mesh.ts:103-135 | a resource form that routes is `mcpose://`, a configured key, a slash and a URI that is not empty, and the key ends at the first slash |
| `Mesh.ListPages` | packages/core/src/mesh.ts:185-196 | one backend's exposed pages in order, or what its listing failed for; pages may differ from request to request |
| `Mesh.DrainedExactlyWhenItEnds` | packages/core/src/mesh.ts:167-196 | a backend contributes a complete list exactly when some page within the bound has no next cursor; otherwise it fails with what a request threw, or for want of an end |
| `Mesh.ListAcrossMesh` | packages/core/src/mesh.ts:174-204 | listings in declaration order under any way of exposing items, the failing backends reported with their reasons and contributing nothing |
| `Mesh.ListedRoutesBack` | packages/core/src/mesh.ts:145-204 | every tool or prompt of a mesh listing routes back to the backend it came from, by that backend's own name for it |
| `Mesh.ListedUrisRouteBack` | packages/core/src/mesh.ts:103-204 | and every resource, whatever the key of its backend ends in |
| `Delegation.ReadInboundDelegation` | packages/core/src/delegation.ts:123-171 | the loop with early returns reads a chain, no chain, or a rejection as the specification says |
| `Delegation.ReadUndoesSerialize` | packages/core/src/delegation.ts:98-171 | a serialized chain reads back emptied of roles and claims, and is rejected exactly when it exceeds 32 entries or an entry has no sub |
| `Delegation.WireByName` | packages/core/src/delegation.ts:98-114 | the payload holds version 1 and the entries in order, each with the sub, type, display name, time and source of its identity under those names |
| `Delegation.NothingElseOnWire` | packages/core/src/delegation.ts:98-114 | and an entry holds nothing else |
| `Delegation.EntryTakenExactlyWhen` | packages/core/src/delegation.ts:123-171 | an entry is taken exactly when it is an object with a non-empty sub and one of the three types |
| `Delegation.EntryTaken` | packages/core/src/delegation.ts:123-171 | what is taken of an entry: sub and source as given, a display name if it is a string, the timestamp if it is one and the time of receipt otherwise, no roles and no claims |
| `Delegation.IsoShapeFits` | packages/core/src/delegation.ts:38-39 | a timestamp has the right shape exactly when it is a date and time in fixed digits, a fraction of at least one digit or none, and Z or an offset |
| `Delegation.WireLosesOnlyPrivileges` | packages/core/src/delegation.ts:94-171 | for 1 to 32 well-formed entries the wire loses the roles and claims and nothing else |
| `Delegation.HopExtends` | packages/core/src/delegation.ts:188-224 | a proxy that reads a chain forwards it with its caller appended, unless the chain names the caller already |
| `Delegation.PathsAreShortAndLoopFree` | packages/core/src/delegation.ts:173-224 | a call travels a path of identity-resolving proxies exactly when all subs are distinct, at most 33 proxies are on it, and no sub before the last is empty; the chain then names the path in order |

## Left out

- SHA-256, HMAC and AES-GCM themselves, event-key derivation, erasable mode and the timing of comparisons.
- `toJSON`, getters that throw, sparse arrays, NaN, Infinity and lone surrogates in the serializer. A number
  is the text it prints as, and two numbers are compared by that text.
- A proof index is an integer; the fractional numbers a stored JSON document could hold there are not modelled.
- What an event says of its call beyond id, session, position and hash: outcome, tier, payload hashes and
  encryption are a draft the caller of a step supplies, so the branches that fill it in are not modelled.
- The caching of derived subkeys; a rejected derivation is the step that ends a call before its upstream call.
- Hooks that call back into `closeSession` synchronously while it runs.
- Session objects, calls, attempts, teardowns and proxy servers are numbered records in lists rather than heap
  objects, so aliasing is equality of numbers.
- Progress: the models say what is true of every run, not that a run goes on; the nearest to it is that a drain
  that can finish has been woken, and that a session not yet delivered can be retried.
- HTTP, sockets, headers, body limits and identity hooks beyond their outcome; timers beyond firing or not.
- In the session table: the random id of a fresh session is new and nobody asks for it before it is answered,
  and the transport initializes a session at most once and before its request ends. What the shared registry
  holds, and other instances, are outside: its answer is a parameter of the step.
- A replay interleaved with stores, and stores without `getStreamIdForEventId`.
- Onion.Pipeline.Dispatch: a layer awaits each call of `next` before it goes on, calls it a bounded number of
  times, and throws by settling to a rejection; calls a layer leaves unawaited or makes side by side appear
  only in `Onion.EachLayerOnce`, and so do other invocations that change the world between two awaits.
- Mesh.ListAcrossMesh: backends are asked one after the other; the code asks them side by side, which matters
  only to backends that affect each other.
- Redis itself: range queries are a parameter.
- In the delegation chain: which strings the platform's date parser takes for dates is a parameter, `roles` and
  `claims` are opaque lists, and a chain a host stamps itself is outside.
- The `createProxyServer` handlers, each settled by reading one branch; the policy and consent packages and
  hidden tools, fail-closed decisions settled by reading one chain of conditions each; the catalog sanitizer,
  which rests on the regular expression engine; telemetry and the Postgres store, which rest on libraries and
  on a database.
