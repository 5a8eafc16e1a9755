/** Evidence bundles, audit verdicts and trusted anchors (aapa_mqtt.py, audit_verify.py). */
module Evidence {
  import opened Prelude
  import opened Bytes
  import opened Text
  import opened Crypto
  import opened Codec
  import opened Merkle

  datatype Arm = A0 | A1 | A2 | A3 | A4 | A5 | A6 | OtherArm(name: string)

  /** `EXPECTED_SCHEME_BY_ARM`. */
  function ExpectedScheme(arm: Arm): Option<Scheme> {
    match arm
    case A0 => Some(Ed25519)
    case A1 => Some(MlDsa65)
    case A3 => Some(MlDsa65)
    case A4 => Some(MlDsa65)
    case A5 => Some(SlhDsa128f)
    case A6 => Some(MlDsa65)
    case A2 => None
    case OtherArm(_) => None
  }

  predicate UsesMerkle(arm: Arm) { arm in {A0, A4, A5, A6} }

  datatype Evidence = Evidence(
    checkpoint: Checkpoint, signature: Bytes, publicKey: Bytes, records: seq<Bytes>,
    proofs: Option<seq<Proof>>, chainValues: Option<seq<Bytes>>, chainSeed: Option<Bytes>,
    receipts: Option<seq<Receipt>>)

  /** Python's `field or []`. */
  function OrEmpty<T>(o: Option<seq<T>>): seq<T> { if o.Some? then o.value else [] }

  function StreamOf(ev: Evidence): Text { CanonicalStreamId(ev.checkpoint.clientId, ev.checkpoint.topic) }

  datatype Reason =
    | VERIFIED | REGISTRY_REQUIRED | ANCHOR_SET_REQUIRED | EMPTY_EVIDENCE
    | ARM_UNSUPPORTED | ARM_SCHEME_MISMATCH | NON_TRANSFERABLE_ARM
    | PUBLISHER_NOT_AUTHORIZED | PUBLISHER_KEY_SUBSTITUTION | PUBLISHER_SIGNATURE_INVALID
    | AUTHORIZED_KEY_TRANSITION | KEY_TRANSITION_UNAUTHORIZED
    | CHECKPOINT_RANGE_INVALID | RECORD_PARSE_ERROR | RECORD_COUNT_MISMATCH | RECORD_SEQUENCE_MISMATCH
    | RECORD_TOPIC_MISMATCH | RECORD_COMMITMENT_INVALID | PROOF_COUNT_MISMATCH | MERKLE_PROOF_INVALID
    | HASH_CHAIN_INVALID | HISTORY_BINDING_UNAVAILABLE
    | WITNESS_POLICY_MISSING | WITNESS_BELOW_QUORUM | WITNESS_UNTRUSTED | WITNESS_NOT_AUTHORIZED
    | WITNESS_KEY_SUBSTITUTION | WITNESS_DUPLICATE_ID | WITNESS_DUPLICATE_KEY | WITNESS_FIELDS_MISMATCH
    | WITNESS_SIGNATURE_INVALID
    | MIXED_STREAM | GENESIS_ANCHOR_REQUIRED | GENESIS_ANCHOR_MISMATCH
    | EPOCH_GAP | EPOCH_DUPLICATE | EPOCH_REORDER | EPOCH_ROLLBACK
    | SEQUENCE_GAP | SEQUENCE_DUPLICATE | SEQUENCE_REORDER | PREV_ANCHOR_MISMATCH
    | DUPLICATE_CHECKPOINT | SPLICE_OR_FORK | MIDDLE_TRUNCATION | CROSS_EPOCH_REPLAY
    | LATEST_ANCHOR_MISSING | TAIL_COMPLETENESS_UNPROVABLE | LATEST_ANCHOR_MISMATCH
    | ROLLBACK_DETECTED | EVIDENCE_AFTER_LATEST_ANCHOR | LATEST_ANCHOR_STALE

  /** Codes that only the stream auditor adds after all items were accepted. */
  predicate TailReason(r: Reason) {
    r in {AUTHORIZED_KEY_TRANSITION, LATEST_ANCHOR_MISSING, TAIL_COMPLETENESS_UNPROVABLE, LATEST_ANCHOR_MISMATCH,
          ROLLBACK_DETECTED, EVIDENCE_AFTER_LATEST_ANCHOR, LATEST_ANCHOR_STALE, HISTORY_BINDING_UNAVAILABLE}
  }

  predicate NoTailReason(reasons: seq<Reason>) {
    forall r :: r in reasons ==> !TailReason(r)
  }

  /** `_unique_reason_values`: first occurrences, in order. */
  function Unique(reasons: seq<Reason>): (u: seq<Reason>)
    ensures forall r :: r in u <==> r in reasons
    ensures Distinct(u)
  {
    if reasons == [] then []
    else
      var front := Unique(reasons[..|reasons| - 1]);
      var last := reasons[|reasons| - 1];
      assert reasons == reasons[..|reasons| - 1] + [last];
      if last in front then front else front + [last]
  }

  lemma SingleIsUnique(reason: Reason)
    ensures Unique([reason]) == [reason]
  {
    assert [reason][..0] == [];
    assert Unique([]) == [];
  }

  lemma NothingIsUnique()
    ensures forall reasons :: Unique(reasons) == [] <==> reasons == []
  {
    forall reasons: seq<Reason> | reasons != [] ensures Unique(reasons) != [] {
      assert reasons[0] in Unique(reasons);
    }
  }

  /** The reason, if there is cause for it. */
  function When(flaw: bool, reason: Reason): (reasons: seq<Reason>)
    ensures reasons == [] <==> !flaw
    ensures !TailReason(reason) ==> NoTailReason(reasons)
  {
    if flaw then [reason] else []
  }

  datatype Verdict = Accept | Reject | Inconclusive

  datatype AuditVerdict = AuditVerdict(
    checkpoint: Checkpoint, sigValid: bool, recordsValid: bool, totalRecords: nat, validRecords: nat,
    accepted: bool, outcome: Verdict, reasons: seq<Reason>, publisherKeyId: Option<Digest>,
    validWitnesses: nat, requiredWitnesses: int)

  /** A trusted position in a stream's history; for the genesis it names the next epoch and number. */
  datatype Position = Position(anchor: Bytes, epoch: int, seqNo: int, validUntil: Option<real>)

  datatype StreamAnchors = StreamAnchors(streamId: Text, genesis: Position, latest: Option<Position>)

  /** `AnchorSet.for_stream`: the first entry for the stream. */
  function AnchorsFor(anchors: seq<StreamAnchors>, streamId: Text): (a: Option<StreamAnchors>)
    ensures a.Some? ==> a.value in anchors && a.value.streamId == streamId
    ensures a.None? ==> forall x :: x in anchors ==> x.streamId != streamId
  {
    FirstWith(anchors, (a: StreamAnchors) => a.streamId, streamId)
  }
}
