# Verified model of the MQTT audit-evidence system

The system lets an MQTT publisher seal its records into signed, linked checkpoints (Merkle batches, hash chains or
one signature per record), lets witnesses cosign them, and lets an auditor decide offline, against a trust registry
and trusted anchors, whether a presented stream is the publisher's history. A second auditor compares deliveries
with the committed records under the QoS rules of MQTT 3.1.1 (OASIS standard, sections 4.3, 4.6, 3.8.4).

The model is written in Dafny 4.11; `dafny verify dfyconfig.toml` checks all of it. Code that changes state is
modelled as classes and methods with loops (arms, Merkle tree, hash chain, witness, subscriber verifier, auditors,
registry validation, trace generator); encoders and lookups are functions. Each method is proved against a
specification, and the theorems are lemmas about the specifications.

## Main results

* **Soundness, end to end.** Whatever evidence `audit_stream` accepts for a stream shows the serialised records that
  were sent at positions genesis.seq to latest.seq: none missing, added or changed, batch by batch up to order, and in
  the order sent exactly when they were numbered in that order (`RunHistory.AcceptedShowsTheRun`). This holds for
  every run of an A0, A3, A4, A5 or A6 arm, whatever numbers it is fed and however often a call raises and the caller
  goes on; for A3 the order is always the one sent. It rests on `Soundness.AcceptedIsSealed`, on
  `RunInvariant.AnyRunKeeps` over all runs, and on Merkle and chain binding. `LiveArm.LiveRunIsRun` ties the runs to the
  arm objects, whose every call is specified exactly, exceptions included.
* **Completeness, end to end.** What a run that ends in a flush has sealed is accepted against its generated registry
  and anchors if and only if its records were numbered 1, 2, 3, ... on its topic and the anchors are still valid
  (`Completeness.RunIsAcceptedExactly`); A1 runs verify but stay undecided (`NaiveArm.RunIsUndecided`); no run within
  the formats raises, so an arm's own witnesses never refuse it (`RunProgress.RunSucceeds`). The two results hold
  together: an honest run's own evidence, signed with working keys, meets every hypothesis of soundness
  (`Completeness.RunShowsItself`, and `NaiveArm.RunShowsItself` for A1).
* **No split view past a quorum**, over arbitrary interleaved witness runs (`Witness.NoSplitView`,
  `Witness.NoForkedHistories`). Honest numbered runs meet both hypotheses in every interleaving
  (`WitnessedRuns.ArmCannotFork`), so nobody can present another witnessed history of such a run
  (`WitnessedRuns.NobodyForksTheRun`).
* **Manipulated evidence.** Any other selection, repetition or arrangement of the items of an accepted history is
  rejected with a reason that condemns the history (`Manipulation.AnyOtherSelectionIsCondemned`). Over the corpus's
  evidence scenarios the delivery auditor faults the evidence exactly where the oracle flags an integrity violation and
  there is a second checkpoint (`Manipulation.EvidenceScenariosAgree`).
* **What each report means.** The codes of the stream auditor name the manipulation: over any selection of an accepted
  history's items, repeats, falls, gaps and a cut end are each reported exactly when they occur, and never as one
  another (`StreamReports.SelectionReports`); for any presented list, the first item out of place is reported by
  exactly what is wrong with it (`StreamReports.LinkReports`), and the end by how it lies to the latest anchor
  (`StreamReports.TailReports`). The same is done for tampered items and receipts (`Reports`), for altered and
  repeated wire payloads (`WireReports`), and for the decisions and the blame of the delivery auditor (`QosVerdicts`).
* **Batches and bytes.** Over every run a batch is sealed exactly when it is full (`Batches.AddsAreBatched`,
  `Batches.MessagesOfAdds`). Number fields are positional (`Bytes.BigEndianAt`), and `Examples` works out one
  encoding of each format byte by byte, one Merkle tree and one chain hash by hash.
* **QoS auditing.** Exactly-once in-order delivery at QoS 2, no return across application epochs, awareness only
  excuses, and agreement of the blind auditor with the causal oracle on every generated delivery case, in any context,
  *exactly* outside one decidable family (`Agreement.AgreesUnlessMisjudged`). Accepted evidence with an undisturbed
  trace is accepted exactly while the latest anchor is of age (`QosVerdicts.CleanIsAccepted`).
* **From application to subscriber.** When the stream auditor accepts a run's evidence and the delivery auditor accepts
  at QoS 2 against its records, the deliveries are the application's records, each once, ascending in number, which is
  the order published exactly when the application numbered them so (`EndToEnd.DeliveredAsPublished`).

## How the cryptography enters

`Crypto.Crypto` carries the hash, the signature verifier, the signers and the MAC as arbitrary functions. What a
theorem needs of them is a hypothesis, and every hypothesis against an adversary speaks of the inputs at hand only.
Collision-freedom is about a finite set of inputs that publisher and auditor really hashed (`Soundness.NoCollision`).
Unforgeability is about the presented items, receipts and payloads: if such a signature or tag verifies, its owner made
it for that very body (`Soundness.NothingForged`, `NaiveArm.NothingForged`, `Witness.MostlyHonest`,
`WireRuns.Unforged`). Neither contradicts that honest signatures verify, on all messages, which is what completeness
asks (`Crypto.SignsCorrectly`). Signing is a function of key and message, so a signer's randomness is not modelled.
Keys, chain seeds, clock readings, the random draw of the trace generator and the audit
time are parameters. Text is UTF-8 bytes; a float is its eight bytes with a concrete finiteness test.

## Where code and expectation differ

* The arms of Merkle type never check record numbers. A batch added as number 2, number 1 is sealed under the range
  1 to 2 in that order; presented so it is refused, but presented the other way round, each record with its proof, it
  is accepted (`OutOfOrder.ReorderedIsAccepted`). So acceptance shows the records, and shows their order exactly when
  they were numbered in it.
* After a seal in which some witness of an A6 arm cosigned and a later one raised, no batch is ever sealed again: the
  first witness has moved on and the arm has not (`LiveArm.NothingMoreIsSealed`).
* One record that an A1 arm refuses makes every later `flush` raise, because the record list has grown and the
  signature list has not (`NaiveArm.FlushSucceedsExactly`).
* The oracle and the QoS-aware auditor do not agree on all generated cases. Where two-hop QoS permits duplicates, a
  cross-epoch replay is a violation for the oracle, yet the auditor misses it when the trace stays within one
  application epoch, or when neither freshness nor order is required. Before a reconnect the auditor does not get to
  see the last deliveries, and misses what is forged, swapped or copied among them (`Agreement.HiddenTampering`).
  `Agreement.AgreesUnlessMisjudged` gives the exact condition and `Agreement.UnnoticedReplay` a concrete case.
* The replay loop starts its epoch maximum at -1 and `QoSContext` accepts any initial epoch, so with epochs below -1
  even legitimate duplicates look stale; the exact condition covers that too (`Agreement.CaughtRetransmission` is a
  concrete case, `Agreement.MisjudgedFromEpochZero` the simple form of the condition for all other contexts).
* A Merkle root does not determine the records: repeating the last record of an odd batch keeps it
  (`Merkle.OddBatchRepeated`). Two batches share a root exactly when filling them up to a power of two, by repeating
  the last subtree of each odd level, gives the same list (`Merkle.RootsEqualExactly`); with equal record counts, which
  the signed checkpoint range supplies, they are then equal (`Merkle.RootBinds`).
* `WireEnvelopeVerifier.verify` lets a ValueError escape for a MAC subscriber with an empty key id, on any payload
  addressed to it, and never else (`WireVerifier.RaisesExactly`; `WireVerifier.NamelessPayloadRaises` is one payload).
* `audit_evidence` and `audit_stream` end in an exception, instead of a verdict, exactly when the item at hand has its
  publisher in order but a checkpoint, record or receipt that cannot be serialised (`ItemAudit.AuditEvidence`,
  `StreamAudit.AuditStream`). A range that runs backwards (`ItemAudit.ReversedRangeRaises`) and a trusted next number
  past 32 bits (`StreamAudit.FarGenesisRaises`) are such inputs; evidence whose checkpoints, records and receipts all
  fit is always answered (`StreamAudit.SerializableIsJudged`).
* The delivery auditor divides by an `application_epoch_span` that nobody has validated: it raises exactly for a span
  of 0 with examined evidence and a delivery, and computes with negative spans (`QosAuditor.AuditDeliveries`).
* In the walk of `audit_stream` the code EPOCH_DUPLICATE can never arise: an epoch seen before is always found by the
  checks on the list, which stop the walk at its first item (`StreamReports.LinkReports`).
* A selection whose first item is not the history's first is reported with GENESIS_ANCHOR_MISMATCH and a gap, never
  with EPOCH_ROLLBACK; that code needs an item below the expected epoch that was not presented before
  (`StreamReports.SelectionReports`, `StreamReports.StartReports`).
* Splicing, or omitting the first checkpoint of, a history with one checkpoint leaves it unchanged in the bridge, yet
  the oracle flags it (`Manipulation.LoneCheckpointUnnoticed`).

## Model

| member | source | states |
|---|---|---|
| Text.StreamIdInjective | experiments/python/stream_identity.py:20-24 | equal stream identities name the same client and the same topic, for all UTF-8 strings, colons and digits included |
| Text.DecimalRoundTrip | experiments/python/stream_identity.py:20-24 | the decimal length prefix determines the length |
| Text.Utf8Exactly | experiments/python/stream_identity.py:20-24 | the bytes taken as text are exactly the encodings of sequences of Unicode scalar values |
| Examples.StreamIdExample | experiments/python/stream_identity.py:20-24 | one stream identity, byte by byte |
| Codec.ParseRecord | experiments/python/audit_verify.py:169-191 | succeeds exactly on encodings of a record and returns that record |
| Codec.DeserializeRecord | experiments/python/aapa_mqtt.py:67-93 | succeeds exactly on what `serialize` can write, so like the auditor's parser but with finite timestamps only |
| Codec.RecordRoundTrip | experiments/python/aapa_mqtt.py:48-65 | a serialised record decodes to itself |
| Codec.RecordBytesInjective | experiments/python/aapa_mqtt.py:48-65 | no byte string encodes two records |
| Bytes.BigEndianAt | experiments/python/aapa_mqtt.py:48-65 | in every number field byte i holds the digit of weight 256^(width - 1 - i): most significant byte first |
| Bytes.NumberConcat | experiments/python/aapa_mqtt.py:67-93 | reading is positional too: the number of a concatenation is the first part shifted by the length of the second |
| Bytes.FiniteIsExponent | experiments/python/aapa_mqtt.py:48-65 | a timestamp is finite exactly when its eleven exponent bits are not all one |
| Codec.RecordStartsWithNumber | experiments/python/aapa_mqtt.py:48-65 | a serialised record starts with its number, from the digit of weight 2^24 down to the remainder by 256 |
| Codec.CheckpointBodyInjective | experiments/python/aapa_mqtt.py:252-275 | a signed checkpoint body determines all eight fields |
| Codec.ReceiptBodyInjective | experiments/python/aapa_mqtt.py:305-327 | a signed witness body determines every field but signature and carried key |
| Fields.EncodeInjective | experiments/python/aapa_mqtt.py:252-275 | length-prefixed field lists of one shape decode uniquely, whatever follows |
| Examples.RecordExample | experiments/python/aapa_mqtt.py:48-65 | one record, byte by byte |
| Examples.CheckpointExample | experiments/python/aapa_mqtt.py:252-275 | one checkpoint body, byte by byte |
| Examples.ReceiptExample | experiments/python/aapa_mqtt.py:305-327 | one witness body, byte by byte, whatever signature and key it carries |
| Examples.RecordLimits | experiments/python/aapa_mqtt.py:48-65 | a record is refused exactly for a number, topic or payload past its field or a time that is not finite |
| Examples.CheckpointLimits | experiments/python/aapa_mqtt.py:252-275 | a checkpoint is refused exactly for a value past its field, a reversed range or such a time |
| Examples.ReceiptLimits | experiments/python/aapa_mqtt.py:305-327 | and so is a receipt |
| Wire.ParseEnvelope | experiments/python/aapa_mqtt.py:532-586 | succeeds exactly on version-1 encodings and returns the encoded envelope |
| Wire.EnvelopeRoundTrip | experiments/python/aapa_mqtt.py:527-586 | parse undoes serialize for every serialisable version-1 envelope |
| Wire.ParsedSerializesBack | experiments/python/aapa_mqtt.py:527-586 | serialize gives back the parsed payload when kind and identifiers are supported, and raises otherwise |
| Wire.EnvelopePrefixFree | experiments/python/aapa_mqtt.py:532-586 | no proper prefix of a serialised envelope parses |
| Wire.WireBodyInjective | experiments/python/aapa_mqtt.py:500-525 | a version-1 wire body determines everything it authenticates |
| Wire.SignedFormatsDisjoint | experiments/python/aapa_mqtt.py:252-525 | no byte string is in two of the three signed formats |
| Examples.EnvelopeExample | experiments/python/aapa_mqtt.py:500-530 | one envelope, byte by byte |
| Examples.EnvelopeLimits | experiments/python/aapa_mqtt.py:500-530 | an envelope is refused exactly for a value past its field, metadata beyond ASCII, an unknown kind or a missing identifier |
| Examples.MacNames | experiments/python/aapa_mqtt.py:777-826 | algorithm, key id and session id of a MAC envelope: the two halves of the key's hexadecimal fingerprint |
| Examples.SignatureNames | experiments/python/aapa_mqtt.py:785-826 | those of a signature envelope: the whole fingerprint, and no session |
| Merkle.InclusionProofClimbs | experiments/python/aapa_mqtt.py:194-223 | the proof of every leaf verifies against the root |
| Merkle.InclusionProofLength | experiments/python/aapa_mqtt.py:194-213 | a proof has ceil(log2 n) steps |
| Merkle.RootBinds | experiments/python/aapa_mqtt.py:154-183 | equally many records with one root are the same records, unless hashed inputs collide |
| Merkle.MembershipBinds | experiments/python/aapa_mqtt.py:194-223 | a record that verifies against a built root, with a proof of any shape, is one of the records |
| Merkle.OddBatchRepeated | experiments/python/aapa_mqtt.py:160-183 | the root does not determine the records: repeating the last record of an odd batch keeps it |
| Merkle.RootsEqualExactly | experiments/python/aapa_mqtt.py:160-183 | two batches of any sizes share a root exactly when their fillings to a power of two are the same list, unless hashed inputs collide |
| Merkle.ExpansionExtends | experiments/python/aapa_mqtt.py:166-171 | that filling begins with the batch itself |
| Examples.RootOfThree | experiments/python/aapa_mqtt.py:154-183 | the root over three records, hash by hash: leaf and node prefixes, left before right, the odd leaf repeated |
| Examples.ProofOfSecond | experiments/python/aapa_mqtt.py:194-223 | the proof of its second leaf, with the side of each sibling |
| MerkleTree.VerifyProof | experiments/python/aapa_mqtt.py:214-223 | true exactly when climbing the proof reaches the root |
| MerkleTree.MerkleTree.Build | experiments/python/aapa_mqtt.py:160-183 | the in-place padding of aliased levels leaves the root of the records |
| MerkleTree.MerkleTree.GetProof | experiments/python/aapa_mqtt.py:194-213 | on a built tree, the inclusion proof of the leaf; past the leaves it raises |
| MerkleTree.NativeMerkleTree.Build | experiments/cpp/aapa_crypto_bench.cpp:663-685 | the copying build returns the same root |
| MerkleTree.NativeMerkleTree.GetProof | experiments/cpp/aapa_crypto_bench.cpp:687-703 | and the same proofs |
| MerkleTree.BuildersAgree | experiments/cpp/aapa_crypto_bench.cpp:653-703 | both builders give one root and one proof per leaf for the same records |
| HashChain.HeadBinds | experiments/python/aapa_mqtt.py:104-130 | equal heads over equally many records have equal seed and records, unless hashed inputs collide |
| HashChain.LastRecordBinds | experiments/python/aapa_mqtt.py:104-130 | equal heads, of chains of any length, end in the same record |
| Examples.HeadOfTwo | experiments/python/aapa_mqtt.py:104-115 | the head over two records, hash by hash |
| HashChain.HashChain.Append | experiments/python/aapa_mqtt.py:109-115 | appends one link; the head is that of all records |
| HashChain.HashChain.VerifyFull | experiments/python/aapa_mqtt.py:125-130 | true exactly when the recomputed head is the expected one |
| Registry.Validate | experiments/python/trusted_registry.py:233-267 | accepts exactly the unambiguous registries: no two entries share a client, topic and epoch, ids and policies are unique and policies are backed |
| Registry.NeighboursDecide | experiments/python/trusted_registry.py:257-267 | comparing neighbours of sorted intervals decides overlap of all pairs |
| Registry.PublisherLookup | experiments/python/trusted_registry.py:371-381 | in an unambiguous registry `publisher_for` never raises and finds the one authorisation there is |
| Registry.Combine | experiments/python/trusted_registry.py:313-369 | the result is validated and has exactly the entries of the inputs; it raises exactly when every listing of that union is ambiguous |
| Registry.CombinePreservesLookups | experiments/python/trusted_registry.py:313-387 | a combined registry answers every query an input answered, with the same answer |
| Registry.CombineAddsNothing | experiments/python/trusted_registry.py:313-381 | and every publisher it authorises is authorised by an input |
| Trust.OnePublisherSpeaks | experiments/python/trusted_registry.py:79-81 | an entry answers for exactly its client and topic from its first epoch to its last, both included |
| Trust.TwoPublishers | experiments/python/trusted_registry.py:233-267 | two entries of one client and topic are admitted together exactly when one ends before the other begins |
| Generated.RegistryForGenerated | experiments/python/trusted_registry.py:390-463 | returns the registry of what the evidence shows, or raises exactly on no evidence, several keys, an unsupported arm or a bad entry |
| Generated.RegistryForIsUnambiguous | experiments/python/trusted_registry.py:390-463 | that registry always passes validation |
| Trust.GeneratedHolds | experiments/python/trusted_registry.py:390-463 | its publisher entry spans exactly the epochs shown; its policy is there for A6 only, names every witness entry, and asks for all unless told otherwise |
| Trust.EntriesExactly | experiments/python/trusted_registry.py:390-463 | its witness entries are those of the first receipt of each witness, for this stream from epoch 0 on |
| Trust.GeneratedExactly | experiments/python/trusted_registry.py:390-463 | its entries are admissible exactly for named publishers and witnesses with keys, epochs from 0 on and a quorum between one and the number of witnesses |
| Trust.GeneratedAnchors | experiments/python/audit_verify.py:808-866 | the generated anchors run from number 1 and epoch 0 after 32 zero bytes to the last checkpoint |
| Trust.FirstAnchorsCount | experiments/python/audit_verify.py:794-796 | of several anchors for one stream the first counts |
| Receipts.VerifyReceipts | experiments/python/audit_verify.py:459-530 | the whole answer: acceptance exactly when all receipts are vouched for by different witnesses with different keys and reach the required number, the first flaw of each receipt, the counts; it raises exactly at a receipt that cannot be serialised |
| Receipts.ReceiptReason | experiments/python/audit_verify.py:491-524 | the first rule a receipt breaks, judged against the witnesses and authorised keys that came before it |
| Receipts.NothingWrongIsAccepted | experiments/python/audit_verify.py:459-530 | no flaw and no shortfall is exactly what acceptance means |
| Receipts.AcceptedQuorum | experiments/python/audit_verify.py:459-530 | acceptance exhibits max(quorum, minimum) pairwise distinct ids and keys |
| Receipts.VouchedExactly | experiments/python/audit_verify.py:485-524 | a receipt is vouched for exactly when an authorised witness of the policy, with the carried key, signed this checkpoint's statement |
| Reports.OneMoreReceipt | experiments/python/audit_verify.py:485-530 | one more receipt after accepted ones: which single code each broken rule gets, and none exactly for a new witness with a new key and a valid signature |
| Receipts.NativeCount | experiments/cpp/aapa_crypto_bench.cpp:1119-1148 | the count is the number of registry keys behind good receipts; it raises exactly at a registered, uncounted receipt whose body cannot be written |
| Receipts.NativeVerifyReceipts | experiments/cpp/aapa_crypto_bench.cpp:1111-1149 | the native verdict is a function of the set of receipts |
| Receipts.AcceptedNatively | experiments/cpp/aapa_crypto_bench.cpp:1111-1149 | what the offline auditor accepts the native verifier accepts: carried keys, timestamps in the past and within the window if there is one, no pinned anchor |
| Receipts.NativeAcceptsExactly | experiments/cpp/aapa_crypto_bench.cpp:1111-1149 | acceptance is exactly the pinned anchor and minReceipts receipts about the checkpoint, under different registered keys, dated from now - window to now |
| Receipts.StaleReceiptsAreRefused | experiments/cpp/aapa_crypto_bench.cpp:1138-1141 | a list of receipts all older than the window is refused as soon as one is required |
| Receipts.WideningKeepsAcceptance | experiments/cpp/aapa_crypto_bench.cpp:1138-1141 | a wider window, or none, accepts whatever a narrower one does |
| ItemAudit.RecordStructureReasons | experiments/python/audit_verify.py:201-223 | one reason for each rule broken, of range, count, parsing, numbering and topic |
| ItemAudit.FittingStructure | experiments/python/audit_verify.py:201-223 | no such reason exactly when the records parse and carry the signed range in order and the signed topic |
| ItemAudit.AuditMerkle | experiments/python/audit_verify.py:352-381 | reports exactly the broken rules of structure, signature, proof count and proofs, and the number of proved records; raises exactly when the checkpoint cannot be serialised |
| ItemAudit.AuditHashChain | experiments/python/audit_verify.py:419-446 | reports exactly the broken rules of structure, signature and recomputed chain |
| ItemAudit.AuditNaive | experiments/python/audit_verify.py:384-416 | reports exactly the broken rules of structure, count, wire signature and record hash; raises exactly on a record too long for its length field |
| ItemAudit.CommitmentDecides | experiments/python/audit_verify.py:352-446 | none of these reasons and no exception is exactly the arm's commitment: signed, with proofs, chain or record hash that hold |
| ItemAudit.PublisherAuthorization | experiments/python/audit_verify.py:330-349 | finds exactly the entry that vouches for the item (epoch, scheme, no substituted key), or says which of these fails |
| ItemAudit.AuditEvidence | experiments/python/audit_verify.py:550-643 | the whole verdict: acceptance exactly when records, publisher, commitment and, for A6, receipts are accepted; reasons, flags, counts and key id; an exception exactly when publisher is in order and something cannot be serialised |
| ItemAudit.VerdictDecides | experiments/python/audit_verify.py:550-643 | the verdict accepts, and nothing raises, exactly when the item is accepted |
| ItemAudit.ReversedRangeRaises | experiments/python/audit_verify.py:550-643 | an item with a reversed range from an authorised publisher ends in an exception |
| Reports.AcceptedVerdict | experiments/python/audit_verify.py:550-643 | every field of the verdict on an accepted item: flags, counts, key id, witnesses found and required |
| Reports.PublisherReports | experiments/python/audit_verify.py:330-349 | which code an accepted item gets under another carried key, another arm, an empty registry or none |
| Reports.BadSignature | experiments/python/audit_verify.py:352-446 | with a signature that does not verify: PUBLISHER_SIGNATURE_INVALID and nothing else |
| Reports.ProofReports | experiments/python/audit_verify.py:352-381 | with proofs missing, one too many, or one that leads elsewhere: PROOF_COUNT_MISMATCH, MERKLE_PROOF_INVALID or both |
| Reports.LastRecordDropped | experiments/python/audit_verify.py:201-223 | without its last record: RECORD_COUNT_MISMATCH and RECORD_SEQUENCE_MISMATCH, and EMPTY_EVIDENCE if it was the only one |
| Reports.RecordsSwapped | experiments/python/audit_verify.py:201-223 | with two records swapped, proofs and all: RECORD_SEQUENCE_MISMATCH |
| Reports.RecordReplaced | experiments/python/audit_verify.py:201-381 | with a record replaced: RECORD_PARSE_ERROR, RECORD_SEQUENCE_MISMATCH or RECORD_TOPIC_MISMATCH for what the new one shows, and MERKLE_PROOF_INVALID unless it hashes alike |
| Reports.ChainReports | experiments/python/audit_verify.py:419-446 | an A3 item without its seed or with other chain values: HASH_CHAIN_INVALID |
| Reports.NaiveReports | experiments/python/audit_verify.py:384-416 | an A1 item with a bad signature or another end anchor: PUBLISHER_SIGNATURE_INVALID, RECORD_COMMITMENT_INVALID |
| Reports.Unwitnessed | experiments/python/audit_verify.py:459-530 | an A6 item whose stream no policy covers: WITNESS_POLICY_MISSING; one whose receipts were taken away: WITNESS_BELOW_QUORUM |
| StreamAudit.PresentedReasons | experiments/python/audit_verify.py:957-973 | one finding for each of: repeated epochs, falling epochs, falling ranges, a repeated anchor or record |
| StreamAudit.WalkStream | experiments/python/audit_verify.py:945-1039 | a fatal reason or an exception exactly when the stream is not one verified history from the genesis: the reasons and verdicts up to its first bad item, or the exception of that item; otherwise one transition per authorised key change |
| StreamAudit.LinkItem | experiments/python/audit_verify.py:975-1005 | the reasons against the item's place: stream, range, epoch, sequence, previous anchor, replayed anchor or record |
| StreamAudit.PlaceDecides | experiments/python/audit_verify.py:975-1005 | in a list without repeats, none of them exactly when the item continues the history |
| StreamAudit.JudgeTail | experiments/python/audit_verify.py:1041-1133 | outcome, reasons and completeness flags are decided by the trusted latest anchor: rollback, evidence after it, fork, stale, unprovable, no history binding or accept |
| StreamAudit.AuditStream | experiments/python/audit_verify.py:912-1133 | ACCEPT and INCONCLUSIVE each exactly when meant; a rejection reports the reasons, verdicts and counts that explain it; an exception exactly when the first bad item raises one |
| StreamAudit.FarGenesisRaises | experiments/python/audit_verify.py:912-1039 | a job whose trusted next number is 2^32, with one item so numbered, ends in an exception |
| StreamAudit.SerializableIsJudged | experiments/python/audit_verify.py:912-1133 | a stream whose checkpoints, records and receipts can be serialised never does |
| StreamAudit.ReportsRollback | experiments/python/audit_verify.py:1061-1069 | rollback is reported exactly when the stream verifies and the trusted latest anchor lies further on |
| StreamAudit.ReportsTransitions | experiments/python/audit_verify.py:1014-1022 | a key transition is reported exactly when the authorised key changes between neighbours |
| StreamReports.EarlyReports | experiments/python/audit_verify.py:912-956 | what is missing before the walk is the only thing reported: arm, registry, anchors, evidence, genesis |
| StreamReports.StartReports | experiments/python/audit_verify.py:975-1005 | whatever is wrong with the first item against the trusted genesis is reported: a lower epoch as EPOCH_ROLLBACK and EPOCH_REORDER, a higher one as EPOCH_GAP and MIDDLE_TRUNCATION, and so on |
| StreamReports.LinkReports | experiments/python/audit_verify.py:975-1005 | in a list without repeats or falls, the first item out of place is reported by exactly the codes that say what is wrong with it: stream, epoch, range, number, previous anchor, returning genesis anchor |
| StreamReports.SelectionReports | experiments/python/audit_verify.py:957-1085 | over any selection of an accepted history's items: repeats as EPOCH_DUPLICATE and DUPLICATE_CHECKPOINT, falls as EPOCH_REORDER, items left out before later ones as EPOCH_GAP, SEQUENCE_GAP and MIDDLE_TRUNCATION, the end left out as ROLLBACK_DETECTED, never EPOCH_ROLLBACK; each exactly then |
| StreamReports.SpliceReports | experiments/python/audit_verify.py:975-982 | a second checkpoint spliced in from elsewhere is reported as MIXED_STREAM and SPLICE_OR_FORK and as nothing else |
| StreamReports.TailReports | experiments/python/audit_verify.py:1041-1133 | a verified history against its latest anchor: ROLLBACK_DETECTED before it, EVIDENCE_AFTER_LATEST_ANCHOR past it, SPLICE_OR_FORK beside it, LATEST_ANCHOR_STALE after its expiry, each exactly then |
| StreamReports.OpenTailReports | experiments/python/audit_verify.py:1041-1060 | without a latest anchor: LATEST_ANCHOR_MISSING and TAIL_COMPLETENESS_UNPROVABLE, inconclusive |
| StreamReports.VerifiedFlags | experiments/python/audit_verify.py:1041-1133 | flags and counts of a verified history |
| StreamReports.RefusedFlags | experiments/python/audit_verify.py:889-909 | a history refused at item n counts the n items before it and their records, and claims no end |
| StreamAudit.NonTransferable | experiments/python/audit_verify.py:912-940 | no A2 stream ever verifies |
| Tiling.AcceptedTiles | experiments/python/audit_verify.py:945-1085 | an accepted stream has one item per epoch from genesis to latest and each sequence number once, in order |
| Tiling.CheckpointSequenceValid | experiments/python/audit_verify.py:230-255 | true exactly for a complete local stream: one identity, epochs 0, 1, ..., abutting ranges from 1, linked anchors |
| Tiling.VerifiedIsSequenceValid | experiments/python/audit_verify.py:230-255 | whatever verifies from the zero genesis passes `checkpoint_sequence_valid` |
| QosVerdicts.SequenceValidExactly | experiments/python/audit_verify.py:230-255 | `checkpoint_sequence_valid` asks exactly for what the delivery auditor's chain check does from the zero anchor, with epochs 0, 1, ... of one client |
| Tiling.PrefixVerifies | experiments/python/audit_verify.py:957-1039 | verification survives cutting the tail off |
| Tiling.TruncationIsRollback | experiments/python/audit_verify.py:1061-1085 | every proper prefix of a stream ending at the latest anchor is detected as rollback and never accepted |
| Soundness.AcceptedItemIsSealed | experiments/python/audit_verify.py:550-643 | an accepted item whose signature is not forged has the checkpoint sealed under its epoch and that batch's raw records up to order: the same list exactly when the batch was numbered in order, for A3 always |
| Soundness.VerifiedIsSealed | experiments/python/audit_verify.py:945-1039 | a verified stream is, item by item in that sense, a contiguous part of the sealed history from the genesis epoch on, whatever numbers were sealed |
| Soundness.AcceptedIsSealed | experiments/python/audit_verify.py:945-1085 | an accepted stream is that part up to the latest anchor; no selection, reordering or duplication of honest checkpoints is accepted |
| Soundness.OwnItemsAreGenuine | experiments/python/aapa_mqtt.py:1111-1134 | what a publisher sealed and signed itself is never counted as forged |
| Witness.CheckpointWitness.IssueReceipt | experiments/python/aapa_mqtt.py:723-745 | grants exactly what extends the anchor last cosigned for the stream, signs that statement, and moves only that anchor |
| Witness.LatestIsOwn | experiments/python/aapa_mqtt.py:709-745 | in an interleaved run of all witnesses, each holds what its own requests made of it |
| Witness.SignedInterleaved | experiments/python/aapa_mqtt.py:723-745 | and signs exactly what the witness object signs for its own requests |
| Witness.VouchedWasCosigned | experiments/python/audit_verify.py:479-525 | a vouched receipt that is genuine was granted in the run, with the same statement |
| Witness.LastGrant | experiments/python/aapa_mqtt.py:723-745 | in any run, an anchor held after a grant was put there by the last grant |
| Witness.QuorumsIntersect | experiments/python/trusted_registry.py:179-195 | two quorums of one policy share a witness outside the faulty ones when 2q > n + f |
| Witness.NoSplitView | experiments/python/aapa_mqtt.py:723-745 | over any interleaved run, two items from one anchor to different anchors both gather a quorum only if an honest witness cosigned one that returns there in between |
| Witness.NoForkedHistories | experiments/python/audit_verify.py:974-1039 | two witnessed streams verified from one genesis agree on every anchor both have, if honest witnesses do not return |
| WitnessedRuns.AskedInLockstep | experiments/python/aapa_mqtt.py:1248-1273 | after each seal every witness of the arm holds the arm's previous anchor |
| WitnessedRuns.ArmIsMostlyHonest | experiments/python/aapa_mqtt.py:1248-1273 | in every interleaving the receipts of an honest arm are genuine, so `NoSplitView` applies to working witnesses |
| WitnessedRuns.ArmNeverReturns | experiments/python/aapa_mqtt.py:1248-1273 | no witness of a run with new anchors ever goes back to an anchor it has left |
| WitnessedRuns.ArmCannotFork | experiments/python/aapa_mqtt.py:1248-1273 | a run numbered in order meets both hypotheses of `NoForkedHistories`, in every interleaving |
| WitnessedRuns.NobodyForksTheRun | experiments/python/audit_verify.py:974-1039 | any other stream that verifies against the run's registry, with receipts its witnesses gave, has the anchors the arm sealed |
| ArmSpec.WitnessNamesDiffer | experiments/python/aapa_mqtt.py:1219-1235 | the generated witness names are pairwise different |
| Arms.CollectReceipts | experiments/python/aapa_mqtt.py:1248-1273 | asks the witnesses in order up to the first that refuses: those before it hold the new anchor, the others what they held; whatever they held before |
| Arms.MerkleArm.BuildEvidence | experiments/python/aapa_mqtt.py:1248-1268 | root, checkpoint, signature, receipts and proofs are those of the open batch; the anchors its witnesses are left with, on an exception too |
| Arms.MerkleArm.SealCheckpoint | experiments/python/aapa_mqtt.py:1248-1273 | seals exactly the open batch and starts a new tree; on an exception batch, counters and anchor stay; the witnesses' anchors in both cases |
| Arms.MerkleArm.AddRecord | experiments/python/aapa_mqtt.py:1100-1109 | appends envelope and leaf, counts, and seals a full batch; on an exception, nothing if the record cannot be sent, else everything but the seal; the witnesses' anchors in both cases, and the object stays usable |
| Arms.MerkleArm.Flush | experiments/python/aapa_mqtt.py:1136-1138 | seals the open batch, if any, with the same outcomes |
| Arms.ChainArm.SealCheckpoint | experiments/python/aapa_mqtt.py:1040-1064 | seals the open chain and starts the next from the new seed; on an exception nothing changes |
| Arms.ChainArm.AddRecord | experiments/python/aapa_mqtt.py:1029-1038 | appends envelope and link, counts, and seals a full batch; on an exception, nothing if the record cannot be sent, else everything but the seal |
| Arms.ChainArm.Flush | experiments/python/aapa_mqtt.py:1066-1068 | seals the open chain, if any |
| Batches.RunBatches | experiments/python/aapa_mqtt.py:1029-1138 | over every run with N = max(1, batch size): fewer than N records are pending after every call, and no checkpoint has more than N |
| Batches.AddsAreBatched | experiments/python/aapa_mqtt.py:1029-1138 | a run of k adds has sealed k / N checkpoints of exactly N records and has k mod N pending |
| Batches.MessagesOfAdds | experiments/python/aapa_mqtt.py:1029-1138 | and its wire message number k, from 0, carries epoch k / N and the number of the record added |
| Batches.RunIsDated | experiments/python/aapa_mqtt.py:1040-1134 | over every run: each checkpoint carries the time of the call that sealed it, A3 chains start from the seed drawn at the seal before, and A6 receipts come one from each witness, in order, each with the next reading of the clock |
| LiveArm.LiveSteps | experiments/python/aapa_mqtt.py:1100-1138 | whatever the witnesses hold, a call of the arm succeeds as the arm alone would, or leaves all but the seal |
| LiveArm.LockstepPerforms | experiments/python/aapa_mqtt.py:1237-1277 | while the witnesses hold the arm's previous anchor, a call raises exactly when something does not serialise, and success keeps them there |
| LiveArm.LiveRunIsRun | experiments/python/aapa_mqtt.py:1100-1138 | every run of the arm objects, going on after exceptions or not, is a run that soundness covers |
| LiveArm.UndisturbedIsInStep | experiments/python/aapa_mqtt.py:1237-1277 | a run without exceptions leaves every witness at the arm's previous anchor |
| LiveArm.NothingMoreIsSealed | experiments/python/aapa_mqtt.py:1248-1273 | once a witness has moved past the arm, no later call seals anything |
| RunInvariant.StepKeeps | experiments/python/aapa_mqtt.py:1100-1138 | each call keeps the items linked, signed and committed, and adds exactly the given record |
| RunInvariant.RunKeeps | experiments/python/aapa_mqtt.py:1029-1138 | over every run without exceptions nothing is lost, duplicated or reordered between batches, and a final flush leaves nothing pending |
| RunInvariant.AnyRunKeeps | experiments/python/aapa_mqtt.py:1029-1138 | the same over every run that goes on after exceptions, for the records that were sent |
| RunInvariant.UndisturbedRun | experiments/python/aapa_mqtt.py:1029-1138 | a run without exceptions is one of those, and sends everything it is given |
| RunInvariant.RunIsNumbered | experiments/python/aapa_mqtt.py:1100-1138 | a run fed 1, 2, 3, ... produces records with these numbers |
| RunHistory.ItemRecordsFit | experiments/python/aapa_mqtt.py:1111-1134 | every sealed batch carries exactly the numbers of its signed range |
| RunHistory.RunSealsHistory | experiments/python/aapa_mqtt.py:1111-1134 | what a run seals, fed whatever numbers, is an honest history in the sense of the soundness theorem |
| RunHistory.AcceptedShowsTheRun | experiments/python/audit_verify.py:912-1133 | over every run, exceptions included: any accepted evidence for the stream shows the records sent at positions genesis.seq to latest.seq, each item those of its range up to order, and the whole in the order sent exactly when numbered in that order; for A3 always |
| RunHistory.AcceptedShowsNumberedRun | experiments/python/audit_verify.py:912-1133 | for a run that numbers its records 1, 2, 3, ...: records number genesis.seq to latest.seq as the application added them |
| OutOfOrder.ReorderedIsAccepted | experiments/python/aapa_mqtt.py:1100-1134 | record 2 added before record 1: refused as sealed, accepted the other way round, with nothing forged and no collision |
| RunProgress.RunSucceeds | experiments/python/aapa_mqtt.py:1237-1277 | no run within the formats raises; an arm's witnesses never refuse its checkpoints |
| Completeness.AnchorsAreNew | experiments/python/aapa_mqtt.py:1111-1134 | a run's end anchors are pairwise different and never the zero anchor |
| Completeness.RunWitnessEntries | experiments/python/trusted_registry.py:390-463 | the generated registry names exactly the arm's witnesses with their keys |
| Completeness.RunReceiptsAccepted | experiments/python/audit_verify.py:459-530 | the receipts an A6 arm collects meet any quorum up to the number of its witnesses |
| Completeness.RunIsAccepted | experiments/python/audit_verify.py:808-1133 | any interleaving of adds and flushes that numbers its records in order and ends in a flush is accepted against generated registry and anchors, with every record added |
| Completeness.RunIsAcceptedExactly | experiments/python/audit_verify.py:808-1133 | what a run that ends in a flush has sealed is accepted if and only if its records were numbered in order on its topic and the anchors are still valid |
| Completeness.RunShowsItself | experiments/python/audit_verify.py:912-1133 | an honest run's own evidence has every hypothesis of the end-to-end soundness theorem |
| NaiveArm.ArmA1.AddRecord | experiments/python/aapa_mqtt.py:937-940 | signs and sends record number j under epoch j, or raises exactly when an encoding does, and then only the record list has grown; also after earlier refusals |
| NaiveArm.ArmA1.AppendWireEnvelope | experiments/python/aapa_mqtt.py:794-826 | tag and message are those of the record's envelope |
| NaiveArm.ArmA1.Flush | experiments/python/aapa_mqtt.py:942-964 | one item per record since the last flush, linked by record hashes, up to the first record that has no signature left or does not serialise, and there it raises |
| NaiveArm.InStepExactly | experiments/python/aapa_mqtt.py:937-964 | there is a signature for every record exactly when none was refused, and then each item carries its own record's |
| NaiveArm.ItemShowsRecord | experiments/python/aapa_mqtt.py:942-964 | the item of a signed record shows that record, its number and its own time, linked to the hash of the record before |
| NaiveArm.FlushSucceedsExactly | experiments/python/aapa_mqtt.py:937-964 | after any calls, `flush` succeeds if and only if no record was ever refused |
| NaiveArm.RunIsUndecided | experiments/python/audit_verify.py:912-1133 | an A1 run verifies completely, every item accepted, yet is never accepted as history |
| NaiveArm.AcceptedWasSent | experiments/python/audit_verify.py:384-416 | an accepted A1 item whose signature is not forged shows the record signed under its epoch, whatever was refused |
| NaiveArm.VerifiedWasSent | experiments/python/audit_verify.py:912-1133 | a verified A1 stream shows, record by record, what the arm was given from the genesis epoch on |
| NaiveArm.RunShowsItself | experiments/python/audit_verify.py:912-1133 | an A1 run's own evidence has every hypothesis of that |
| WireVerifier.WireEnvelopeVerifier.Inspect | experiments/python/aapa_mqtt.py:621-656 | the checks that do not depend on earlier payloads give the first failing one |
| WireVerifier.WireEnvelopeVerifier.Verify | experiments/python/aapa_mqtt.py:621-670 | accepts exactly authentic, new payloads of the current or next epoch; a refused payload leaves no trace |
| WireVerifier.RaisesExactly | experiments/python/aapa_mqtt.py:644-648 | an exception escapes exactly for a MAC subscriber with an empty key id, on a payload addressed to it |
| WireVerifier.NamelessPayloadRaises | experiments/python/aapa_mqtt.py:644-648 | one such payload |
| WireVerifier.AcceptedAreOrderly | experiments/python/aapa_mqtt.py:658-670 | over any payloads, accepted identities are pairwise distinct and epochs never fall and rise by at most one |
| WireVerifier.EpochsFormInterval | experiments/python/aapa_mqtt.py:658-670 | the accepted epochs form an interval |
| WireVerifier.RefusedLeaveNoTrace | experiments/python/aapa_mqtt.py:658-670 | without the refused payloads the same payloads are accepted, into the same memory |
| WireVerifier.RefusedIsInvisible | experiments/python/aapa_mqtt.py:658-670 | dropping one refused payload changes no later memory, hence no later verdict |
| WireReports.OutOfTurn | experiments/python/aapa_mqtt.py:658-670 | after any run, an authentic payload is REPLAY_DUPLICATE exactly when its identity was accepted, EPOCH_ROLLBACK below the last accepted epoch, EPOCH_JUMP past the next one |
| WireReports.SecondTimeIsReplay | experiments/python/aapa_mqtt.py:658-670 | no payload is accepted twice, whatever comes in between |
| WireReports.AlteredEnvelope | experiments/python/aapa_mqtt.py:621-639 | which code each single changed field of an authentic envelope gets |
| WireReports.AlteredRecord | experiments/python/aapa_mqtt.py:634-641 | another record under the same number: TOPIC_MISMATCH for another topic, else left to the tag |
| WireReports.TagReports | experiments/python/aapa_mqtt.py:643-659 | an envelope addressed to the subscriber: what is answered for a missing key, a wrong tag and a good one, for both kinds |
| WireRuns.RunSends | experiments/python/aapa_mqtt.py:794-826 | over every run, one envelope per record in order, whose epochs never skip or fall |
| WireRuns.RunIsReceived | experiments/python/aapa_mqtt.py:833-843 | a run's wire messages with distinct numbers are all accepted, in order, by its own subscriber verifier |
| WireRuns.AcceptedIsSentOnce | experiments/python/aapa_mqtt.py:621-670 | if tags cannot be forged, each accepted payload is byte for byte an arm's message and none is accepted twice |
| WireRuns.SignedRunIsReceived | experiments/python/aapa_mqtt.py:937-940 | the same reception for an A1 arm, whose epochs count the records |
| QosSemantics.SemanticOracle | experiments/python/qos_semantics.py:129-220 | violation exactly when content was forged, order or delivery was owed and broken, or a duplicate was not permitted; ambiguous exactly when only unsettled |
| QosSemantics.FindDuplicate | experiments/python/qos_semantics.py:199-218 | keying by application epoch, number and digest finds exactly the messages delivered twice |
| Scenarios.OracleVerdicts | experiments/python/qos_semantics.py:129-220 | violation and ambiguity for every generated case, scenario by scenario: a loss an offline persistent session may still deliver, and a swap where no order was promised, are ambiguous |
| Scenarios.SingleCause | experiments/python/qos_semantics.py:129-220 | what each cause alone amounts to, while nothing arrives twice |
| QosAuditor.ChainBroken | experiments/python/evidence_auditor.py:512-535 | some checkpoint fails to continue the presented history |
| QosAuditor.CheckHistory | experiments/python/evidence_auditor.py:469-557 | failure exactly when the stream was rejected for integrity, the chain breaks, or it ends elsewhere than the fresh latest anchor |
| QosAuditor.CountWitnesses | experiments/python/evidence_auditor.py:559-581 | the number of first-come trusted witnesses, distinct by id and by key |
| QosAuditor.WalkDeliveries | experiments/python/evidence_auditor.py:608-648 | finds a cross-epoch replay, and an unexplained regression, exactly when there is one, for any span; raises exactly on a division by zero |
| QosAuditor.JudgeDeliveries | experiments/python/evidence_auditor.py:583-744 | detection and blame are exactly those of the delivery facts, in either mode and for any span |
| QosAuditor.AuditDeliveries | experiments/python/evidence_auditor.py:433-792 | detection, attribution and decision in the aware and the agnostic mode; an exception exactly for span 0 with examined evidence and a delivery |
| QosTheorems.AwarenessOnlyExcuses | experiments/python/evidence_auditor.py:665-782 | aware detection implies agnostic detection, agnostic accept implies aware accept, agnostic blame implies aware blame |
| QosTheorems.EpochsNeverFall | experiments/python/evidence_auditor.py:608-648 | on an ordered topic nothing undetected goes back to an application epoch that was left, at any QoS |
| QosTheorems.ExactlyOnceInOrder | experiments/python/evidence_auditor.py:583-777 | an aware accept at effective QoS 2 means the deliveries are the commitments in order of number, each once |
| QosTheorems.AcceptedShowsQuorum | experiments/python/evidence_auditor.py:559-581 | an accepted A6 evidence shows a quorum of trusted witnesses, different by name and key |
| QosTheorems.AcceptedHistoryPasses | experiments/python/evidence_auditor.py:509-557 | whatever `audit_stream` accepts from number 1 on passes the delivery auditor's own checkpoint checks |
| QosVerdicts.AcceptanceNeeds | experiments/python/evidence_auditor.py:750-778 | in neither mode is anything accepted without anchors, with a latest anchor older than its maximum age, or short of the A6 quorum |
| QosVerdicts.FreshAnchorDecides | experiments/python/evidence_auditor.py:537-557 | while the latest anchor is no older than that, a history that ends elsewhere is detected in both modes, whatever was delivered |
| QosVerdicts.LinkedHistoryFaults | experiments/python/evidence_auditor.py:469-557 | linked items from number 1 are faulted exactly for an integrity rejection or for ending elsewhere under an anchor of age |
| QosVerdicts.HistoryFaults | experiments/python/evidence_auditor.py:469-557 | any history is faulted exactly for that, or where its checkpoints do not tile the numbers from 1 on under rising epochs, linked anchors and one stream |
| QosVerdicts.UnboundEvidence | experiments/python/evidence_auditor.py:433-508 | without transferable, checked evidence nothing is detected, blamed or accepted; without a bound publisher it is detected and nobody blamed |
| QosVerdicts.CleanIsAccepted | experiments/python/evidence_auditor.py:433-792 | accepted evidence from number 1 with an undisturbed trace in full view is accepted, in both modes, exactly while the latest anchor is of age, and never detected |
| QosVerdicts.DifferentWitnessesCount | experiments/python/evidence_auditor.py:559-581 | where no name and no key comes twice, exactly the trusted receipts with valid signatures count |
| Manipulation.AnyOtherSelectionIsCondemned | experiments/python/audit_verify.py:945-1133 | any other selection or arrangement of an accepted history's items is rejected, with a reason beyond trust and availability |
| Manipulation.SpliceIsCondemned | experiments/python/crypto_evidence_bridge.py:165-167 | and so is a history whose second checkpoint is spliced |
| Manipulation.FewerIsAvailability | experiments/python/crypto_evidence_bridge.py:172-178 | a history with fewer receipts is accepted as before or only found to be below its quorum |
| Manipulation.CondemnedExactly | experiments/python/crypto_evidence_bridge.py:158-182 | over all evidence scenarios the stream verdict condemns exactly the manipulated histories, and nothing raises |
| Manipulation.EvidenceScenariosAgree | experiments/python/evidence_auditor.py:479-557 | the delivery auditor finds the evidence broken exactly where the oracle sees an integrity violation and there is a second checkpoint; what it detects is that or the deliveries, in both modes |
| Manipulation.LoneCheckpointUnnoticed | experiments/python/crypto_evidence_bridge.py:165-171 | with one checkpoint, splice and middle truncation are flagged by the oracle and noticed by nobody |
| EndToEnd.RowsAreRecords | experiments/python/evidence_auditor.py:296-317 | the committed rows read from a bundle are the numbers and hashes of its raw records |
| EndToEnd.DeliveredAsPublished | experiments/python/evidence_auditor.py:433-792 | over every run, both auditors' acceptance at QoS 2 means the deliveries are the records sent at positions genesis.seq to latest.seq, each once, ascending, and in the order sent exactly when numbered in it |
| TraceCorpus.GenerateTrace | experiments/python/trace_corpus.py:131-414 | the trace of a scenario: timeline, one mutation, causes and visibility; raises exactly on bad sizes |
| TraceCorpus.Mutate | experiments/python/trace_corpus.py:212-361 | the in-place edit of the delivery list, scenario by scenario |
| Scenarios.DeliveredNumbers | experiments/python/trace_corpus.py:212-361 | which numbers every scenario delivers, in which order: the replays copy message 1, the late retransmission message 2 |
| Scenarios.DeliveredContent | experiments/python/trace_corpus.py:212-361 | every delivery but the forged one carries what was committed under its number |
| Scenarios.DeliveredInSight | experiments/python/trace_corpus.py:349-366 | in a disconnection, and before a reconnect, exactly the numbers up to max(1, n - span) are visible |
| Agreement.RepeatedVerdict | experiments/python/evidence_auditor.py:608-741 | the aware verdict on one message delivered once more, anywhere after itself |
| Agreement.CopyVerdicts | experiments/python/trace_corpus.py:238-349 | detection and violation for every scenario that copies a delivery |
| Agreement.AgreesUnlessMisjudged | experiments/python/qos_semantics.py:129-220 | for every generated delivery case in any context with honest evidence, the aware auditor detects exactly when the oracle sees a violation, if and only if the case is not misjudged |
| Agreement.MisjudgedFromEpochZero | experiments/python/evidence_auditor.py:622-648 | where nothing is hidden and epochs start at -1 or later: misjudged exactly for a cross-epoch replay with permitted duplicates inside one epoch, or with neither freshness nor order required |
| Agreement.UnnoticedReplay | experiments/python/trace_corpus.py:256-261 | a concrete misjudged case: a QoS 1 replay in a one-epoch trace is a violation nobody notices |
| Agreement.CaughtRetransmission | experiments/python/trace_corpus.py:307-313 | a concrete one the other way: with epochs below -1 a legitimate retransmission is detected |
| Agreement.HiddenTampering | experiments/python/trace_corpus.py:363-366 | a concrete one out of sight: a payload changed behind the cut before a reconnect |
| QosVerdicts.AgnosticVerdicts | experiments/python/evidence_auditor.py:665-744 | without QoS awareness every generated case is detected but an undisturbed one in full view, and the broker blamed exactly for visible forgeries |
| QosVerdicts.BlameVerdicts | experiments/python/evidence_auditor.py:708-744 | with awareness the broker is blamed exactly for visible forgeries and, with an honest subscriber, for the copies and swaps that are detected; never for what is missing |
| QosVerdicts.DuplicateAtQos2 | experiments/python/evidence_auditor.py:708-744 | a duplicate at QoS 2 is detected, and laid at the broker's door exactly with an honest subscriber |

## Left out

- Agreement.AgreesUnlessMisjudged: the crypto bridge and the input projection enter as functions of the trace (`Bind`, `Shown`, `CommittedRecords`) plus the hypothesis that the evidence side is clean.
- QosAuditor.AuditDeliveries: reason codes and observed-fact counters are not modelled, only detection, attribution and decision.
- QosTheorems.ExactlyOnceInOrder: for the positive spans a `QoSContext` can have; under a negative span positions fall as numbers rise, so the auditor asks for another order.
- MerkleTree.MerkleTree.GetProof: negative indices, which Python counts from the end of each level; no caller passes one.
- QosSemantics.SemanticOracle: the MQTT status only; responsible party and witness status follow from action names by table lookup, and the evidence-integrity flag is `Manipulation.HistoryManipulated`.
- TraceCorpus.Mutate: only the scenarios that act on deliveries.
- TraceCorpus.GenerateTrace: the synthetic checkpoint and receipt events, which the real bundle replaces (`Manipulation`), and packet ids, DUP flags and retransmission marks, which neither oracle nor auditor reads.
- Manipulation.EvidenceScenariosAgree: a history with one checkpoint under rollback or tail truncation, where no bundle is left and the delivery auditor is shown the synthetic events; and split_view, which manipulates deliveries only.
- StreamAudit.AuditStream: elapsed times and the free-text limitations.
- ItemAudit.AuditEvidence: proof sizes, elapsed times and details strings.
- Arms.MerkleArm.SealCheckpoint: one class stands for A0, A4, A5 and A6, which differ only in signature scheme and witnesses.
- A2 beyond its rejection: its tags and session key never reach an auditor.
- The native stateful witness, which keeps one anchor instead of one per stream and would repeat the witness results for a single stream.
- Selective disclosure (`audit_selective_disclosure`), a per-record variant of the item audit.
- JSON and hex loading, `to_dict`, size accounting, command lines and file export.
- Key generation, KEM handshakes, liboqs and OpenSSL: parameters and hypotheses.
- Rounding of IEEE-754 values: timestamps are opaque bytes with a finiteness test, times in audit jobs are reals.
- MQTT clients, sockets, measurement runners, provenance and result packaging.
