/** What each way of tampering with accepted evidence is reported as. */
module Reports {
  import opened Prelude
  import opened Bytes
  import opened Text
  import opened Crypto
  import opened Codec
  import opened Merkle
  import HashChain
  import opened Registry
  import opened Evidence
  import opened Receipts
  import opened ItemAudit

  // ---- Receipts ----

  /** The same item with one more receipt. */
  function WithReceipt(ev: Evidence, r: Receipt): Evidence {
    ev.(receipts := Some(OrEmpty(ev.receipts) + [r]))
  }

  /** The receipt speaks about another checkpoint. */
  predicate AboutAnother(ckpt: Checkpoint, stream: Text, r: Receipt) {
    || r.streamId != stream || r.epoch != ckpt.epoch || r.seqStart != ckpt.seqStart || r.seqEnd != ckpt.seqEnd
    || r.prevAnchor != ckpt.prevAnchor || r.endAnchor != ckpt.endAnchor
  }

  /** The first rule that one more receipt after `receipts` breaks, if any. */
  ghost function ExtraCode(c: Crypto, reg: Registry, policy: WitnessPolicy, ev: Evidence, receipts: seq<Receipt>,
                           r: Receipt): Option<Reason>
  {
    var ckpt, stream, w := ev.checkpoint, StreamOf(ev), WitnessFor(reg, r.witnessId);
    if exists i :: 0 <= i < |receipts| && receipts[i].witnessId == r.witnessId then Some(WITNESS_DUPLICATE_ID)
    else if w.None? || r.witnessId !in policy.witnessIds then Some(WITNESS_UNTRUSTED)
    else if !w.value.Authorizes(stream, ckpt.epoch) then Some(WITNESS_NOT_AUTHORIZED)
    else if exists i :: 0 <= i < |receipts| && KeyIdOf(c, reg, receipts[i]) == c.hash(w.value.publicKey)
    then Some(WITNESS_DUPLICATE_KEY)
    else if r.publicKey != [] && r.publicKey != w.value.publicKey then Some(WITNESS_KEY_SUBSTITUTION)
    else if AboutAnother(ckpt, stream, r) then Some(WITNESS_FIELDS_MISMATCH)
    else if !ReceiptFits(r) || !VerifySignature(c, w.value.publicKey, ReceiptBody(r), r.signature, w.value.scheme)
    then Some(WITNESS_SIGNATURE_INVALID)
    else None
  }

  /**
   * One more receipt after accepted ones is accepted too if it is of a new witness with a new key, vouched for and
   * signed; otherwise exactly one reason names the first rule it breaks.
   */
  lemma OneMoreReceipt(c: Crypto, reg: Registry, ev: Evidence, q: Option<int>, r: Receipt)
    requires ReceiptsAccepted(c, reg, ev, q)
    ensures var code := ExtraCode(c, reg, PolicyFor(reg, StreamOf(ev)).value, ev, OrEmpty(ev.receipts), r);
      ReceiptReasons(c, reg, WithReceipt(ev, r), q) == if code.Some? then [code.value] else []
  {
    hide StreamOf, PolicyFor, AllVouched, FlawAt, ExtraCode, Flaws, Required;
    var receipts, policy := OrEmpty(ev.receipts), PolicyFor(reg, StreamOf(ev)).value;
    SameStreamOf(ev, WithReceipt(ev, r));
    FlawsOfMore(c, reg, policy, ev.checkpoint, receipts, r);
    ExtraFlaw(c, reg, policy, ev, receipts, r);
  }

  lemma SameStreamOf(a: Evidence, b: Evidence)
    requires a.checkpoint == b.checkpoint
    ensures StreamOf(a) == StreamOf(b)
  {}

  lemma FlawsOfMore(c: Crypto, reg: Registry, policy: WitnessPolicy, ckpt: Checkpoint, receipts: seq<Receipt>,
                    r: Receipt)
    requires AllVouched(c, reg, policy, ckpt, receipts)
    ensures var flaw := FlawAt(c, reg, policy, ckpt, receipts + [r], |receipts|);
      Flaws(c, reg, policy, ckpt, receipts + [r], |receipts| + 1) == if flaw.Some? then [flaw.value] else []
  {
    hide AllVouched, FlawAt;
    var more := receipts + [r];
    assert more[..|receipts|] == receipts;
    FlawlessIsVouched(c, reg, policy, ckpt, more, |receipts|);
  }

  /** The flaw of the extra receipt. */
  lemma ExtraFlaw(c: Crypto, reg: Registry, policy: WitnessPolicy, ev: Evidence, receipts: seq<Receipt>, r: Receipt)
    requires AllVouched(c, reg, policy, ev.checkpoint, receipts)
    ensures FlawAt(c, reg, policy, ev.checkpoint, receipts + [r], |receipts|)
      == ExtraCode(c, reg, policy, ev, receipts, r)
  {
    hide ReceiptFits, ReceiptBody, CanonicalStreamId, VerifySignature, Distinct;
    var more, n := receipts + [r], |receipts|;
    forall i | 0 <= i < n
      ensures more[i] == receipts[i]
      ensures forall key: Digest ::
        (BringsKey(c, reg, policy, ev.checkpoint, more[i], key) <==> KeyIdOf(c, reg, receipts[i]) == key)
    {
      assert receipts[i] in receipts && Vouched(c, reg, policy, ev.checkpoint, receipts[i]);
    }
  }

  // ---- The publisher ----

  /** Only this entry vouches for an accepted item. */
  lemma AcceptedVoucher(c: Crypto, arm: Arm, reg: Registry, ev: Evidence, q: Option<int>) returns (auth: PublisherAuth)
    requires Unambiguous(reg) && EvidenceAccepted(c, arm, reg, ev, q)
    ensures AuthorizationOf(reg, ev) == Some(auth) && auth in reg.publishers && PublisherVouches(arm, ev, auth)
    ensures RecordsFit(ev) && Committed(c, arm, auth, ev) && (arm == A6 ==> ReceiptsAccepted(c, reg, ev, q))
    ensures PublisherReasons(arm, Some(reg), ev) == []
  {
    hide RecordsFit, Committed, ReceiptsAccepted, PublisherVouches, PublisherReasons, AuthorizationOf;
    VoucherDecides(arm, reg, ev);
    auth := AuthorizationOf(reg, ev).value;
    AcceptedByTheVoucher(c, arm, reg, ev, q, auth);
  }

  /** Which signature scheme each arm is bound to. */
  lemma SchemesByArm(arm: Arm)
    ensures ExpectedScheme(arm) == (match arm
                                    case A0 => Some(Ed25519)
                                    case A5 => Some(SlhDsa128f)
                                    case A1 => Some(MlDsa65)
                                    case A3 => Some(MlDsa65)
                                    case A4 => Some(MlDsa65)
                                    case A6 => Some(MlDsa65)
                                    case _ => None)
  {}

  /** Another carried key or none, another arm, another registry: what an accepted item is then reported as. */
  lemma PublisherReports(c: Crypto, arm: Arm, reg: Registry, ev: Evidence, q: Option<int>, key: Bytes, other: Arm)
    requires Unambiguous(reg) && EvidenceAccepted(c, arm, reg, ev, q)
    ensures AuthorizationOf(reg, ev).Some?
    ensures key != [] && key != AuthorizationOf(reg, ev).value.publicKey ==>
      ItemReasons(c, arm, Some(reg), ev.(publicKey := key), q) == [PUBLISHER_KEY_SUBSTITUTION]
    ensures PublisherReasons(arm, Some(reg), ev.(publicKey := [])) == []
    ensures ExpectedScheme(other).None? ==> ItemReasons(c, other, Some(reg), ev, q) == [ARM_UNSUPPORTED]
    ensures ExpectedScheme(other).Some? && ExpectedScheme(other) != ExpectedScheme(arm) ==>
      ItemReasons(c, other, Some(reg), ev, q) == [ARM_SCHEME_MISMATCH]
    ensures ItemReasons(c, arm, None, ev, q) == [REGISTRY_REQUIRED]
    ensures ItemReasons(c, arm, Some(reg.(publishers := [])), ev, q)
      == [PUBLISHER_NOT_AUTHORIZED, KEY_TRANSITION_UNAUTHORIZED]
  {
    hide RecordsFit, Committed, ReceiptsAccepted, CommitmentReasons, ReceiptReasons, Unique, ExpectedScheme, Matches;
    var auth := AcceptedVoucher(c, arm, reg, ev, q);
    NobodyMatches(ev);
    var silent := ev.(publicKey := key);
    assert AuthorizationOf(reg, silent) == AuthorizationOf(reg, ev);
  }

  lemma NobodyMatches(ev: Evidence)
    ensures Matches([], ev.checkpoint.clientId, ev.checkpoint.topic, ev.checkpoint.epoch) == []
  {}

  /** A witnessed item whose stream no policy covers, or whose receipts were taken away. */
  lemma Unwitnessed(c: Crypto, reg: Registry, ev: Evidence, q: Option<int>)
    requires Unambiguous(reg) && EvidenceAccepted(c, A6, reg, ev, q)
    ensures ItemReasons(c, A6, Some(reg.(policies := [])), ev, q) == [WITNESS_POLICY_MISSING]
    ensures PolicyFor(reg, StreamOf(ev)).Some?
    ensures PolicyFor(reg, StreamOf(ev)).value.quorum > 0 ==>
      ItemReasons(c, A6, Some(reg), ev.(receipts := None), q) == [WITNESS_BELOW_QUORUM]
  {
    hide RecordsFit, Committed, CommitmentReasons, PublisherReasons, CanonicalStreamId, AuthorizationOf,
         EvidenceAccepted, ReceiptReasons, ReceiptsAccepted, PolicyFor;
    var auth := AcceptedVoucher(c, A6, reg, ev, q);
    CommitmentDecides(c, A6, auth, ev);
    var lonely, bare := reg.(policies := []), ev.(receipts := None);
    SamePublisher(reg, lonely, ev);
    SameItem(c, auth, reg, ev, bare);
    NoPolicy(c, lonely, ev, q);
    AcceptedWitnesses(c, reg, ev, q);
    NoReceipts(c, reg, bare, q);
    SingleIsUnique(WITNESS_POLICY_MISSING);
    SingleIsUnique(WITNESS_BELOW_QUORUM);
  }

  lemma SamePublisher(a: Registry, b: Registry, ev: Evidence)
    requires a.publishers == b.publishers
    ensures AuthorizationOf(a, ev) == AuthorizationOf(b, ev)
    ensures PublisherReasons(A6, Some(a), ev) == PublisherReasons(A6, Some(b), ev)
  {}

  lemma SameItem(c: Crypto, auth: PublisherAuth, reg: Registry, a: Evidence, b: Evidence)
    requires b == a.(receipts := b.receipts)
    ensures AuthorizationOf(reg, a) == AuthorizationOf(reg, b)
    ensures PublisherReasons(A6, Some(reg), a) == PublisherReasons(A6, Some(reg), b)
    ensures CommitmentReasons(c, A6, auth, a) == CommitmentReasons(c, A6, auth, b)
  {
    hide AuthorizationOf, Proves, VerifySignature, DecodedRecord;
    assert AuthorizationOf(reg, a) == AuthorizationOf(reg, b) by { SamePlace(reg, a, b); }
    SameStructure(a, b);
    SameProofs(c, auth, a, b);
  }

  lemma SamePlace(reg: Registry, a: Evidence, b: Evidence)
    requires a.checkpoint == b.checkpoint
    ensures AuthorizationOf(reg, a) == AuthorizationOf(reg, b)
  {}

  lemma SameProofs(c: Crypto, auth: PublisherAuth, a: Evidence, b: Evidence)
    requires b == a.(receipts := b.receipts)
    ensures CheckpointSigned(c, auth, a) <==> CheckpointSigned(c, auth, b)
    ensures EachProved(c, a) <==> EachProved(c, b)
  {
    hide Proves, VerifySignature;
  }

  lemma NoPolicy(c: Crypto, reg: Registry, ev: Evidence, q: Option<int>)
    requires reg.policies == []
    ensures ReceiptReasons(c, reg, ev, q) == [WITNESS_POLICY_MISSING]
  {
    hide StreamOf;
  }

  lemma NoReceipts(c: Crypto, reg: Registry, ev: Evidence, q: Option<int>)
    requires ev.receipts == None && PolicyFor(reg, StreamOf(ev)).Some?
    ensures PolicyFor(reg, StreamOf(ev)).value.quorum > 0 ==> ReceiptReasons(c, reg, ev, q) == [WITNESS_BELOW_QUORUM]
  {
    hide StreamOf, PolicyFor;
  }

  // ---- The commitment ----

  /** With the checkpoint, the carried key and the receipts unchanged, only the commitment is reported on. */
  lemma CommitmentReports(c: Crypto, arm: Arm, reg: Registry, ev: Evidence, other: Evidence, q: Option<int>)
    returns (auth: PublisherAuth)
    requires Unambiguous(reg) && EvidenceAccepted(c, arm, reg, ev, q)
    requires other.checkpoint == ev.checkpoint && other.publicKey == ev.publicKey && other.receipts == ev.receipts
    ensures AuthorizationOf(reg, ev) == Some(auth) && RecordsFit(ev) && Committed(c, arm, auth, ev)
    ensures ItemReasons(c, arm, Some(reg), other, q) == CommitmentReasons(c, arm, auth, other)
    ensures PublisherReasons(arm, Some(reg), ev) == []
  {
    hide RecordsFit, Committed, ReceiptsAccepted, CommitmentReasons, ReceiptReasons, Unique;
    auth := AcceptedVoucher(c, arm, reg, ev, q);
    if arm == A6 {
      NothingWrongIsAccepted(c, reg, ev, q);
      SameReceiptReasons(c, reg, ev, other, q);
      assert Unique([]) == [] by { NothingIsUnique(); }
    }
  }

  lemma SameReceiptReasons(c: Crypto, reg: Registry, a: Evidence, b: Evidence, q: Option<int>)
    requires a.checkpoint == b.checkpoint && a.receipts == b.receipts
    ensures ReceiptReasons(c, reg, a, q) == ReceiptReasons(c, reg, b, q)
  {}

  /** Everything the verdict on an accepted item says. */
  lemma AcceptedVerdict(c: Crypto, arm: Arm, reg: Registry, ev: Evidence, q: Option<int>)
    requires Unambiguous(reg) && EvidenceAccepted(c, arm, reg, ev, q)
    ensures AuthorizationOf(reg, ev).Some? && (arm == A6 ==> PolicyFor(reg, StreamOf(ev)).Some?)
    ensures var v := ItemVerdict(c, arm, Some(reg), ev, q);
      && v.checkpoint == ev.checkpoint && v.accepted && v.outcome == Accept && v.reasons == [VERIFIED]
      && v.sigValid && v.recordsValid && v.totalRecords == v.validRecords == |ev.records|
      && v.publisherKeyId == Some(c.hash(AuthorizationOf(reg, ev).value.publicKey))
      && (arm != A6 ==> v.validWitnesses == 0 && v.requiredWitnesses == 0)
      && (arm == A6 ==>
            var quorum, least := PolicyFor(reg, StreamOf(ev)).value.quorum, if q.Some? then q.value else 0;
            && v.validWitnesses == |OrEmpty(ev.receipts)|
            && v.requiredWitnesses == if least > quorum then least else quorum)
  {
    hide RecordsFit, Committed, CommitmentReasons, GoodRecords, PublisherReasons, Unique, StreamOf, AuthorizationOf,
         WitnessVerdict, ItemReasons, EvidenceAccepted;
    var auth := AcceptedVoucher(c, arm, reg, ev, q);
    CommitmentDecides(c, arm, auth, ev);
    CleanIsAllGood(c, arm, auth, ev);
    VerdictDecides(c, arm, reg, ev, q);
    if arm == A6 {
      AcceptedWitnesses(c, reg, ev, q);
    }
  }

  lemma AcceptedWitnesses(c: Crypto, reg: Registry, ev: Evidence, q: Option<int>)
    requires ReceiptsAccepted(c, reg, ev, q)
    ensures PolicyFor(reg, StreamOf(ev)).Some?
    ensures var w, quorum := WitnessVerdict(c, Some(reg), ev, q), PolicyFor(reg, StreamOf(ev)).value.quorum;
      var least := if q.Some? then q.value else 0;
      w.validDistinct == |OrEmpty(ev.receipts)| && w.required == if least > quorum then least else quorum
  {
    hide StreamOf, ReceiptReasons, Flaws;
    NothingWrongIsAccepted(c, reg, ev, q);
    NoFlawCounts(c, reg, PolicyFor(reg, StreamOf(ev)).value, ev, q);
  }

  lemma NoFlawCounts(c: Crypto, reg: Registry, policy: WitnessPolicy, ev: Evidence, q: Option<int>)
    requires PolicyFor(reg, StreamOf(ev)) == Some(policy) && ReceiptReasons(c, reg, ev, q) == []
    ensures Flaws(c, reg, policy, ev.checkpoint, OrEmpty(ev.receipts), |OrEmpty(ev.receipts)|) == []
  {
    hide Flaws, StreamOf;
  }

  /** A signature that does not verify. */
  lemma BadSignature(c: Crypto, arm: Arm, reg: Registry, ev: Evidence, q: Option<int>, signature: Bytes)
    requires Unambiguous(reg) && EvidenceAccepted(c, arm, reg, ev, q) && arm != A1
    requires CheckpointFits(ev.checkpoint) && AuthorizationOf(reg, ev).Some?
    requires var auth := AuthorizationOf(reg, ev).value;
      !VerifySignature(c, auth.publicKey, CheckpointBody(ev.checkpoint), signature, auth.scheme)
    ensures ItemReasons(c, arm, Some(reg), ev.(signature := signature), q) == [PUBLISHER_SIGNATURE_INVALID]
  {
    hide RecordsFit, VerifySignature, CheckpointBody, CheckpointFits, Proves, StructureReasons, ItemReasons,
         EvidenceAccepted;
    var other := ev.(signature := signature);
    var auth := CommitmentReports(c, arm, reg, ev, other, q);
    FittingStarts(ev);
    FittingStructure(ev);
    SameStructure(ev, other);
    MerkleOrChain(arm, auth, ev, c);
  }

  /** An accepted Merkle item has a proof for every record, and a record. */
  lemma EachHasProof(c: Crypto, arm: Arm, reg: Registry, ev: Evidence, q: Option<int>)
    requires EvidenceAccepted(c, arm, reg, ev, q) && UsesMerkle(arm)
    ensures |OrEmpty(ev.proofs)| == |ev.records| > 0
  {
    hide RecordAt, Proves, CheckpointSigned;
  }

  lemma MerkleOrChain(arm: Arm, auth: PublisherAuth, ev: Evidence, c: Crypto)
    requires Committed(c, arm, auth, ev) && arm != A1
    ensures UsesMerkle(arm) || arm == A3
  {}

  lemma SameStructure(a: Evidence, b: Evidence)
    requires a.checkpoint == b.checkpoint && a.records == b.records
    ensures StructureReasons(a) == StructureReasons(b)
  {
    hide Parses, RangeNumbered, SameTopic;
    SameParsing(a, b);
  }

  lemma SameParsing(a: Evidence, b: Evidence)
    requires a.checkpoint == b.checkpoint && a.records == b.records
    ensures Parses(a) <==> Parses(b)
    ensures Parses(a) ==> (RangeNumbered(a) <==> RangeNumbered(b)) && (SameTopic(a) <==> SameTopic(b))
  {
    hide DecodedRecord;
  }

  /** Proofs missing at the end, one too many, or one that leads elsewhere. */
  lemma ProofReports(c: Crypto, arm: Arm, reg: Registry, ev: Evidence, q: Option<int>, k: nat, p: Proof)
    requires Unambiguous(reg) && EvidenceAccepted(c, arm, reg, ev, q) && UsesMerkle(arm)
    requires k < |ev.records|
    ensures |OrEmpty(ev.proofs)| == |ev.records|
    ensures ItemReasons(c, arm, Some(reg), ev.(proofs := Some(OrEmpty(ev.proofs)[..k])), q)
      == [PROOF_COUNT_MISMATCH, MERKLE_PROOF_INVALID]
    ensures ItemReasons(c, arm, Some(reg), ev.(proofs := Some(OrEmpty(ev.proofs) + [p])), q) == [PROOF_COUNT_MISMATCH]
    ensures Climb(c.hash, LeafHash(c.hash, ev.records[k]), p) != ev.checkpoint.endAnchor ==>
      ItemReasons(c, arm, Some(reg), ev.(proofs := Some(OrEmpty(ev.proofs)[k := p])), q) == [MERKLE_PROOF_INVALID]
  {
    hide RecordsFit, VerifySignature, CheckpointBody, CheckpointFits, StructureReasons, ItemReasons, EvidenceAccepted,
         EachProved, Climb;
    EachHasProof(c, arm, reg, ev, q);
    var proofs := OrEmpty(ev.proofs);
    var fewer, more := ev.(proofs := Some(proofs[..k])), ev.(proofs := Some(proofs + [p]));
    var auth := CommitmentReports(c, arm, reg, ev, fewer, q);
    var auth' := CommitmentReports(c, arm, reg, ev, more, q);
    var moved := ev.(proofs := Some(proofs[k := p]));
    var auth'' := CommitmentReports(c, arm, reg, ev, moved, q);
    FittingStructure(ev);
    SameStructure(ev, fewer);
    SameStructure(ev, more);
    SameStructure(ev, moved);
    ProofsDecide(c, ev, k, p);
  }

  lemma ProofsDecide(c: Crypto, ev: Evidence, k: nat, p: Proof)
    requires ProofsHold(c, ev) && k < |ev.records|
    ensures var proofs := OrEmpty(ev.proofs);
      && !EachProved(c, ev.(proofs := Some(proofs[..k])))
      && EachProved(c, ev.(proofs := Some(proofs + [p])))
      && (Climb(c.hash, LeafHash(c.hash, ev.records[k]), p) != ev.checkpoint.endAnchor ==>
            !EachProved(c, ev.(proofs := Some(proofs[k := p]))))
  {
    hide Climb;
  }

  /** The last record left out, with its proof. */
  lemma LastRecordDropped(c: Crypto, arm: Arm, reg: Registry, ev: Evidence, q: Option<int>)
    requires Unambiguous(reg) && EvidenceAccepted(c, arm, reg, ev, q) && UsesMerkle(arm)
    ensures |OrEmpty(ev.proofs)| == |ev.records| > 0
    ensures var n := |ev.records| - 1;
      ItemReasons(c, arm, Some(reg), ev.(records := ev.records[..n], proofs := Some(OrEmpty(ev.proofs)[..n])), q)
        == [RECORD_COUNT_MISMATCH, RECORD_SEQUENCE_MISMATCH] + if n == 0 then [EMPTY_EVIDENCE] else []
  {
    hide VerifySignature, CheckpointBody, CheckpointFits, ItemReasons, EvidenceAccepted, RecordsFit, StructureReasons,
         EachProved;
    EachHasProof(c, arm, reg, ev, q);
    var n := |ev.records| - 1;
    var other := ev.(records := ev.records[..n], proofs := Some(OrEmpty(ev.proofs)[..n]));
    var auth := CommitmentReports(c, arm, reg, ev, other, q);
    DroppedStructure(ev, other);
    DroppedProof(c, ev, other);
  }

  lemma DroppedStructure(ev: Evidence, other: Evidence)
    requires RecordsFit(ev) && other.checkpoint == ev.checkpoint && other.records == ev.records[..|ev.records| - 1]
    ensures StructureReasons(other) == [RECORD_COUNT_MISMATCH, RECORD_SEQUENCE_MISMATCH]
  {
    hide DecodedRecord, RecordAt;
    RecordsParse(ev);
    assert Parses(other) && SameTopic(other) && !RangeNumbered(other);
  }

  lemma DroppedProof(c: Crypto, ev: Evidence, other: Evidence)
    requires ProofsHold(c, ev) && ev.records != [] && other.checkpoint == ev.checkpoint
    requires other.records == ev.records[..|ev.records| - 1]
    requires OrEmpty(other.proofs) == OrEmpty(ev.proofs)[..|ev.records| - 1]
    ensures EachProved(c, other)
  {
    hide Proves;
  }

  /** What fitting records say. */
  lemma RecordsParse(ev: Evidence)
    requires RecordsFit(ev)
    ensures Parses(ev) && RangeNumbered(ev) && SameTopic(ev)
  {
    forall i | 0 <= i < |ev.records|
      ensures DecodedRecord(ev.records[i]).Some?
        && DecodedRecord(ev.records[i]).value.seqNo == ev.checkpoint.seqStart + i
        && DecodedRecord(ev.records[i]).value.topic == ev.checkpoint.topic
    {
      assert RecordAt(ev.checkpoint, ev.records[i], i);
    }
  }

  /** Two records presented in each other's place, each with its proof. */
  lemma RecordsSwapped(c: Crypto, arm: Arm, reg: Registry, ev: Evidence, q: Option<int>, i: nat, j: nat)
    requires Unambiguous(reg) && EvidenceAccepted(c, arm, reg, ev, q) && UsesMerkle(arm)
    requires i < j < |ev.records|
    ensures |OrEmpty(ev.proofs)| == |ev.records|
    ensures var records, proofs := ev.records, OrEmpty(ev.proofs);
      ItemReasons(c, arm, Some(reg), ev.(records := records[i := records[j]][j := records[i]],
                                         proofs := Some(proofs[i := proofs[j]][j := proofs[i]])), q)
        == [RECORD_SEQUENCE_MISMATCH]
  {
    hide VerifySignature, CheckpointBody, CheckpointFits, ItemReasons, EvidenceAccepted, RecordAt, StructureReasons,
         EachProved;
    EachHasProof(c, arm, reg, ev, q);
    var records, proofs := ev.records, OrEmpty(ev.proofs);
    var other := ev.(records := records[i := records[j]][j := records[i]],
                     proofs := Some(proofs[i := proofs[j]][j := proofs[i]]));
    var auth := CommitmentReports(c, arm, reg, ev, other, q);
    SwappedStructure(ev, other, i, j);
    SwappedProofs(c, ev, other, i, j);
  }

  /** Where the other item has what this one has, with i and j exchanged. */
  predicate Exchanged<T(==)>(a: seq<T>, b: seq<T>, i: nat, j: nat)
    requires i < j < |a|
  {
    |b| == |a| && b[i] == a[j] && b[j] == a[i] && forall k :: 0 <= k < |a| && k != i && k != j ==> b[k] == a[k]
  }

  lemma SwappedStructure(ev: Evidence, other: Evidence, i: nat, j: nat)
    requires RecordsFit(ev) && i < j < |ev.records| && other.checkpoint == ev.checkpoint
    requires Exchanged(ev.records, other.records, i, j)
    ensures StructureReasons(other) == [RECORD_SEQUENCE_MISMATCH]
  {
    hide DecodedRecord, RecordAt;
    RecordsParse(ev);
    assert Parses(other) && SameTopic(other);
    assert DecodedRecord(other.records[i]).value.seqNo == ev.checkpoint.seqStart + j;
  }

  lemma SwappedProofs(c: Crypto, ev: Evidence, other: Evidence, i: nat, j: nat)
    requires ProofsHold(c, ev) && i < j < |ev.records| && other.checkpoint == ev.checkpoint
    requires Exchanged(ev.records, other.records, i, j) && Exchanged(OrEmpty(ev.proofs), OrEmpty(other.proofs), i, j)
    ensures EachProved(c, other)
  {
    hide Proves;
  }

  /** One record replaced: what the new one is, and whether the old proof still leads to the root. */
  lemma RecordReplaced(c: Crypto, arm: Arm, reg: Registry, ev: Evidence, q: Option<int>, i: nat, raw: Bytes)
    requires Unambiguous(reg) && EvidenceAccepted(c, arm, reg, ev, q) && UsesMerkle(arm)
    requires i < |ev.records|
    ensures |OrEmpty(ev.proofs)| == |ev.records|
    ensures var r := DecodedRecord(raw);
      ItemReasons(c, arm, Some(reg), ev.(records := ev.records[i := raw]), q)
        == (if r.None? then [RECORD_PARSE_ERROR]
            else (if r.value.seqNo != ev.checkpoint.seqStart + i then [RECORD_SEQUENCE_MISMATCH] else [])
                 + (if r.value.topic != ev.checkpoint.topic then [RECORD_TOPIC_MISMATCH] else []))
           + (if Climb(c.hash, LeafHash(c.hash, raw), OrEmpty(ev.proofs)[i]) != ev.checkpoint.endAnchor
              then [MERKLE_PROOF_INVALID] else [])
  {
    hide VerifySignature, CheckpointBody, CheckpointFits, ItemReasons, EvidenceAccepted, RecordAt, StructureReasons,
         EachProved, Climb;
    var other := ev.(records := ev.records[i := raw]);
    var auth := CommitmentReports(c, arm, reg, ev, other, q);
    ReplacedStructure(ev, i, raw);
    ReplacedProof(c, ev, i, raw);
  }

  lemma ReplacedStructure(ev: Evidence, i: nat, raw: Bytes)
    requires RecordsFit(ev) && i < |ev.records|
    ensures var r := DecodedRecord(raw);
      StructureReasons(ev.(records := ev.records[i := raw]))
        == if r.None? then [RECORD_PARSE_ERROR]
           else (if r.value.seqNo != ev.checkpoint.seqStart + i then [RECORD_SEQUENCE_MISMATCH] else [])
                + (if r.value.topic != ev.checkpoint.topic then [RECORD_TOPIC_MISMATCH] else [])
  {
    hide DecodedRecord, RecordAt;
    var other := ev.(records := ev.records[i := raw]);
    RecordsParse(ev);
    assert other.records[i] == raw;
    assert forall k :: 0 <= k < |ev.records| && k != i ==> other.records[k] == ev.records[k];
  }

  lemma ReplacedProof(c: Crypto, ev: Evidence, i: nat, raw: Bytes)
    requires ProofsHold(c, ev) && i < |ev.records|
    ensures EachProved(c, ev.(records := ev.records[i := raw])) <==>
      Climb(c.hash, LeafHash(c.hash, raw), OrEmpty(ev.proofs)[i]) == ev.checkpoint.endAnchor
  {
    hide Climb;
    var other := ev.(records := ev.records[i := raw]);
    assert other.records[i] == raw;
  }

  /** A hash chain without its seed, or with other values. */
  lemma ChainReports(c: Crypto, reg: Registry, ev: Evidence, q: Option<int>, values: seq<Digest>)
    requires Unambiguous(reg) && EvidenceAccepted(c, A3, reg, ev, q)
    ensures ItemReasons(c, A3, Some(reg), ev.(chainSeed := None), q) == [HASH_CHAIN_INVALID]
    ensures ev.chainValues != Some(values) ==>
      ItemReasons(c, A3, Some(reg), ev.(chainValues := Some(values)), q) == [HASH_CHAIN_INVALID]
  {
    hide RecordsFit, VerifySignature, CheckpointBody, CheckpointFits, StructureReasons, ItemReasons, EvidenceAccepted,
         HashChain.Head;
    var seedless, other := ev.(chainSeed := None), ev.(chainValues := Some(values));
    var auth := CommitmentReports(c, A3, reg, ev, seedless, q);
    var auth' := CommitmentReports(c, A3, reg, ev, other, q);
    FittingStructure(ev);
    SameStructure(ev, seedless);
    SameStructure(ev, other);
  }

  /** One signed record: a signature that does not verify, and an anchor that is not the record's hash. */
  lemma NaiveReports(c: Crypto, reg: Registry, ev: Evidence, q: Option<int>, signature: Bytes, anchor: Bytes)
    requires Unambiguous(reg) && EvidenceAccepted(c, A1, reg, ev, q)
    ensures |ev.records| == 1 && AuthorizationOf(reg, ev).Some?
    ensures var auth := AuthorizationOf(reg, ev).value;
      !VerifySignature(c, auth.publicKey, NaiveMessage(c, auth, ev, ev.records[0]), signature, auth.scheme) ==>
        ItemReasons(c, A1, Some(reg), ev.(signature := signature), q) == [PUBLISHER_SIGNATURE_INVALID]
    ensures anchor != c.hash(ev.records[0]) ==>
      ItemReasons(c, A1, Some(reg), ev.(checkpoint := ev.checkpoint.(endAnchor := anchor)), q)
        == [RECORD_COMMITMENT_INVALID]
  {
    hide RecordsFit, VerifySignature, StructureReasons, ItemReasons, EvidenceAccepted, NaiveMessage;
    var unsigned := ev.(signature := signature);
    var auth := CommitmentReports(c, A1, reg, ev, unsigned, q);
    FittingStructure(ev);
    SameStructure(ev, unsigned);
    SameNaiveMessage(c, auth, ev, unsigned);
    OtherAnchor(c, reg, ev, q, auth, anchor);
  }

  lemma SameNaiveMessage(c: Crypto, auth: PublisherAuth, a: Evidence, b: Evidence)
    requires a.checkpoint.epoch == b.checkpoint.epoch
    ensures forall raw: Bytes :: NaiveMessage(c, auth, a, raw) == NaiveMessage(c, auth, b, raw)
  {
    hide SignedEnvelope;
  }

  lemma OtherAnchor(c: Crypto, reg: Registry, ev: Evidence, q: Option<int>, auth: PublisherAuth, anchor: Bytes)
    requires PublisherReasons(A1, Some(reg), ev) == [] && AuthorizationOf(reg, ev) == Some(auth)
    requires RecordsFit(ev) && Committed(c, A1, auth, ev)
    ensures anchor != c.hash(ev.records[0]) ==>
      ItemReasons(c, A1, Some(reg), ev.(checkpoint := ev.checkpoint.(endAnchor := anchor)), q)
        == [RECORD_COMMITMENT_INVALID]
  {
    hide VerifySignature, NaiveMessage, StructureReasons, RecordsFit, Matches;
    var other := ev.(checkpoint := ev.checkpoint.(endAnchor := anchor));
    SameNaiveMessage(c, auth, ev, other);
    StillFits(ev, anchor);
    FittingStructure(other);
    assert AuthorizationOf(reg, other) == Some(auth);
  }

  lemma StillFits(ev: Evidence, anchor: Bytes)
    requires RecordsFit(ev)
    ensures RecordsFit(ev.(checkpoint := ev.checkpoint.(endAnchor := anchor)))
  {
    hide DecodedRecord;
    forall i | 0 <= i < |ev.records| ensures RecordAt(ev.checkpoint.(endAnchor := anchor), ev.records[i], i) {
      assert RecordAt(ev.checkpoint, ev.records[i], i);
    }
  }
}
