/** Auditing one checkpoint's evidence against the registry (audit_verify.audit_evidence). */
module ItemAudit {
  import opened Prelude
  import opened Bytes
  import opened Text
  import opened Crypto
  import opened Codec
  import opened Wire
  import opened Merkle
  import Tree = MerkleTree
  import HashChain
  import opened Registry
  import opened Evidence
  import opened Receipts

  // ---- What acceptance of one item means ----

  /** Record i parses, carries number seqStart + i and the checkpoint's topic. */
  ghost predicate RecordAt(ckpt: Checkpoint, raw: Bytes, i: nat) {
    var r := DecodedRecord(raw);
    r.Some? && r.value.seqNo == ckpt.seqStart + i && r.value.topic == ckpt.topic
  }

  ghost predicate RecordsFit(ev: Evidence) {
    && |ev.records| == ev.checkpoint.seqEnd - ev.checkpoint.seqStart + 1 > 0
    && forall i :: 0 <= i < |ev.records| ==> RecordAt(ev.checkpoint, ev.records[i], i)
  }

  predicate CheckpointSigned(c: Crypto, auth: PublisherAuth, ev: Evidence) {
    && CheckpointFits(ev.checkpoint)
    && VerifySignature(c, auth.publicKey, CheckpointBody(ev.checkpoint), ev.signature, auth.scheme)
  }

  /** Every record has a proof, and every proof climbs to the end anchor. */
  predicate ProofsHold(c: Crypto, ev: Evidence) {
    var proofs := OrEmpty(ev.proofs);
    && |proofs| == |ev.records|
    && forall i :: 0 <= i < |ev.records| ==>
        Proves(c.hash, LeafHash(c.hash, ev.records[i]), proofs[i], ev.checkpoint.endAnchor)
  }

  predicate ChainHolds(c: Crypto, ev: Evidence) {
    && ev.chainSeed.Some?
    && OrEmpty(ev.chainValues) == HashChain.Values(c.hash, ev.chainSeed.value, ev.records)
    && HashChain.Head(c.hash, ev.chainSeed.value, ev.records) == ev.checkpoint.endAnchor
  }

  lemma KeyNameIsAscii(prefix: Bytes, digest: Bytes)
    requires Ascii(prefix)
    ensures Ascii(prefix + Hex(digest)) && Utf8(prefix + Hex(digest))
  {
    AsciiIsUtf8(prefix + Hex(digest));
  }

  lemma LiteralIsUtf8(s: string)
    requires forall i :: 0 <= i < |s| ==> s[i] as int < 128
    ensures Utf8(Literal(s))
  {
    AsciiIsUtf8(Literal(s));
  }

  /** The envelope an A1 publisher signs for one record. */
  function SignedEnvelope(c: Crypto, publicKey: Bytes, epoch: int, seqNo: int, raw: Bytes): Envelope {
    LiteralIsUtf8("ML-DSA-65");
    KeyNameIsAscii(Literal("sig-"), c.hash(publicKey));
    Envelope(WIRE_VERSION, WIRE_AUTH_SIGNATURE, Literal("ML-DSA-65"), Literal("sig-") + Hex(c.hash(publicKey)), [],
             epoch, seqNo, raw, [])
  }

  /** The message whose signature A1 evidence has to carry; the empty message when none can be formed. */
  ghost function NaiveMessage(c: Crypto, auth: PublisherAuth, ev: Evidence, raw: Bytes): Bytes {
    var r := DecodedRecord(raw);
    if r.None? then []
    else
      var body := UnsignedBytes(SignedEnvelope(c, auth.publicKey, ev.checkpoint.epoch, r.value.seqNo, raw));
      if body.Ok? then body.value else []
  }

  ghost predicate NaiveSigned(c: Crypto, auth: PublisherAuth, ev: Evidence) {
    && |ev.records| == 1
    && VerifySignature(c, auth.publicKey, NaiveMessage(c, auth, ev, ev.records[0]), ev.signature, auth.scheme)
    && !RecordTooLong(ev)
  }

  /** `struct.pack` refuses a record over the u32 length field; that error is not caught. */
  predicate RecordTooLong(ev: Evidence) {
    |ev.records| > 0 && |ev.records[0]| > MAX_U32 && 0 <= ev.checkpoint.epoch <= MAX_U32
  }

  predicate NaiveCommitted(c: Crypto, ev: Evidence) {
    |ev.records| == 1 && ev.records[0] != [] && c.hash(ev.records[0]) == ev.checkpoint.endAnchor
  }

  /** The publisher entry that vouches for the item: right epoch, expected scheme, no substituted key. */
  predicate PublisherVouches(arm: Arm, ev: Evidence, auth: PublisherAuth) {
    && auth.Authorizes(ev.checkpoint.clientId, ev.checkpoint.topic, ev.checkpoint.epoch)
    && ExpectedScheme(arm) == Some(auth.scheme)
    && (ev.publicKey == [] || ev.publicKey == auth.publicKey)
  }

  /** The commitment and signature rules of the arm. */
  ghost predicate Committed(c: Crypto, arm: Arm, auth: PublisherAuth, ev: Evidence) {
    if UsesMerkle(arm) then CheckpointSigned(c, auth, ev) && ProofsHold(c, ev)
    else if arm == A3 then CheckpointSigned(c, auth, ev) && ChainHolds(c, ev)
    else if arm == A1 then NaiveSigned(c, auth, ev) && NaiveCommitted(c, ev)
    else false
  }

  ghost predicate EvidenceAccepted(c: Crypto, arm: Arm, reg: Registry, ev: Evidence, witnessQuorum: Option<int>) {
    && RecordsFit(ev)
    && (exists auth :: auth in reg.publishers && PublisherVouches(arm, ev, auth) && Committed(c, arm, auth, ev))
    && (arm == A6 ==> ReceiptsAccepted(c, reg, ev, witnessQuorum))
  }

  // ---- What is wrong with an item ----

  ghost predicate Parses(ev: Evidence) {
    forall i :: 0 <= i < |ev.records| ==> DecodedRecord(ev.records[i]).Some?
  }

  /** The parsed numbers are the signed range. */
  ghost predicate RangeNumbered(ev: Evidence)
    requires Parses(ev)
  {
    && |ev.records| == ev.checkpoint.seqEnd - ev.checkpoint.seqStart + 1
    && forall i :: 0 <= i < |ev.records| ==> DecodedRecord(ev.records[i]).value.seqNo == ev.checkpoint.seqStart + i
  }

  ghost predicate SameTopic(ev: Evidence)
    requires Parses(ev)
  {
    forall i :: 0 <= i < |ev.records| ==> DecodedRecord(ev.records[i]).value.topic == ev.checkpoint.topic
  }

  /** Range, count, parsing, numbering, topic. */
  ghost function StructureReasons(ev: Evidence): (reasons: seq<Reason>)
    ensures NoTailReason(reasons)
  {
    var ckpt := ev.checkpoint;
    if ckpt.seqEnd < ckpt.seqStart then [CHECKPOINT_RANGE_INVALID]
    else
      When(|ev.records| != ckpt.seqEnd - ckpt.seqStart + 1, RECORD_COUNT_MISMATCH)
      + if !Parses(ev) then [RECORD_PARSE_ERROR]
        else When(!RangeNumbered(ev), RECORD_SEQUENCE_MISMATCH) + When(!SameTopic(ev), RECORD_TOPIC_MISMATCH)
  }

  lemma FittingStructure(ev: Evidence)
    ensures StructureReasons(ev) == [] <==> RecordsFit(ev)
  {
    hide When;
    if RecordsFit(ev) {
      forall i | 0 <= i < |ev.records| ensures DecodedRecord(ev.records[i]).Some? {
        assert RecordAt(ev.checkpoint, ev.records[i], i);
      }
      forall i | 0 <= i < |ev.records|
        ensures DecodedRecord(ev.records[i]).value.seqNo == ev.checkpoint.seqStart + i
          && DecodedRecord(ev.records[i]).value.topic == ev.checkpoint.topic
      {
        assert RecordAt(ev.checkpoint, ev.records[i], i);
      }
    }
    if StructureReasons(ev) == [] {
      forall i | 0 <= i < |ev.records| ensures RecordAt(ev.checkpoint, ev.records[i], i) {}
    }
  }

  /** Every record has a proof that holds; surplus proofs are counted elsewhere. */
  predicate EachProved(c: Crypto, ev: Evidence) {
    var proofs := OrEmpty(ev.proofs);
    && |ev.records| <= |proofs|
    && forall i :: 0 <= i < |ev.records| ==>
        Proves(c.hash, LeafHash(c.hash, ev.records[i]), proofs[i], ev.checkpoint.endAnchor)
  }

  function CountProved(c: Crypto, ev: Evidence, n: nat): (count: nat)
    requires n <= |ev.records|
    ensures count <= n
  {
    if n == 0 then 0
    else
      CountProved(c, ev, n - 1)
      + if n - 1 < |OrEmpty(ev.proofs)|
           && Proves(c.hash, LeafHash(c.hash, ev.records[n - 1]), OrEmpty(ev.proofs)[n - 1], ev.checkpoint.endAnchor)
        then 1 else 0
  }

  /** All records count exactly when each is proved. */
  lemma {:induction false} CountingProofs(c: Crypto, ev: Evidence, n: nat)
    requires n <= |ev.records|
    ensures CountProved(c, ev, n) == n <==> n <= |OrEmpty(ev.proofs)| && forall i :: 0 <= i < n ==>
      Proves(c.hash, LeafHash(c.hash, ev.records[i]), OrEmpty(ev.proofs)[i], ev.checkpoint.endAnchor)
  {
    hide Proves;
    if n > 0 {
      CountingProofs(c, ev, n - 1);
    }
  }

  ghost function MerkleReasons(c: Crypto, auth: PublisherAuth, ev: Evidence): (reasons: seq<Reason>)
    ensures NoTailReason(reasons)
  {
    StructureReasons(ev) + When(!CheckpointSigned(c, auth, ev), PUBLISHER_SIGNATURE_INVALID)
    + When(ev.records == [], EMPTY_EVIDENCE) + When(|OrEmpty(ev.proofs)| != |ev.records|, PROOF_COUNT_MISMATCH)
    + When(!EachProved(c, ev), MERKLE_PROOF_INVALID)
  }

  ghost function NaiveReasons(c: Crypto, auth: PublisherAuth, ev: Evidence): (reasons: seq<Reason>)
    ensures NoTailReason(reasons)
  {
    StructureReasons(ev) + When(|ev.records| != 1, RECORD_COUNT_MISMATCH)
    + When(!NaiveBodySigned(c, auth, ev), PUBLISHER_SIGNATURE_INVALID)
    + When(!FirstRecordCommitted(c, ev), RECORD_COMMITMENT_INVALID)
  }

  ghost function ChainReasons(c: Crypto, auth: PublisherAuth, ev: Evidence): (reasons: seq<Reason>)
    ensures NoTailReason(reasons)
  {
    StructureReasons(ev) + When(!CheckpointSigned(c, auth, ev), PUBLISHER_SIGNATURE_INVALID)
    + When(!ChainHolds(c, ev), HASH_CHAIN_INVALID)
  }

  /** Signature and commitment, by arm. */
  ghost function CommitmentReasons(c: Crypto, arm: Arm, auth: PublisherAuth, ev: Evidence): (reasons: seq<Reason>)
    ensures NoTailReason(reasons)
  {
    if UsesMerkle(arm) then MerkleReasons(c, auth, ev)
    else if arm == A1 then NaiveReasons(c, auth, ev)
    else if arm == A3 then ChainReasons(c, auth, ev)
    else if arm == A2 then [NON_TRANSFERABLE_ARM]
    else [ARM_UNSUPPORTED]
  }

  function FirstRecord(ev: Evidence): Bytes { if |ev.records| > 0 then ev.records[0] else [] }

  ghost predicate NaiveBodySigned(c: Crypto, auth: PublisherAuth, ev: Evidence) {
    VerifySignature(c, auth.publicKey, NaiveMessage(c, auth, ev, FirstRecord(ev)), ev.signature, auth.scheme)
  }

  predicate FirstRecordCommitted(c: Crypto, ev: Evidence) {
    FirstRecord(ev) != [] && c.hash(FirstRecord(ev)) == ev.checkpoint.endAnchor
  }

  /** The commitment check ends in an exception: nothing to verify a signature against. */
  ghost predicate CommitmentRaises(arm: Arm, ev: Evidence) {
    if UsesMerkle(arm) || arm == A3 then !CheckpointFits(ev.checkpoint)
    else arm == A1 && DecodedRecord(FirstRecord(ev)).Some? && RecordTooLong(ev)
  }

  lemma CommitmentDecides(c: Crypto, arm: Arm, auth: PublisherAuth, ev: Evidence)
    ensures !CommitmentRaises(arm, ev) && CommitmentReasons(c, arm, auth, ev) == [] <==>
      RecordsFit(ev) && Committed(c, arm, auth, ev)
  {
    hide RecordsFit, VerifySignature, Proves, CheckpointFits, NaiveMessage, StructureReasons, When;
    FittingStructure(ev);
    if RecordsFit(ev) {
      FittingStarts(ev);
    }
  }

  lemma FittingStarts(ev: Evidence)
    requires RecordsFit(ev)
    ensures ev.records != [] && DecodedRecord(ev.records[0]).Some?
  {
    assert RecordAt(ev.checkpoint, ev.records[0], 0);
  }

  /** Whether the arm's signature verified. */
  ghost predicate SignatureHolds(c: Crypto, arm: Arm, auth: PublisherAuth, ev: Evidence) {
    if UsesMerkle(arm) || arm == A3 then CheckpointSigned(c, auth, ev) else arm == A1 && NaiveBodySigned(c, auth, ev)
  }

  /** How many records the arm's check found good. */
  ghost function GoodRecords(c: Crypto, arm: Arm, auth: PublisherAuth, ev: Evidence): nat {
    if UsesMerkle(arm) then CountProved(c, ev, |ev.records|)
    else if arm == A3 then if ChainHolds(c, ev) then |ev.records| else 0
    else if arm == A1 && NaiveReasons(c, auth, ev) == [] then 1 else 0
  }

  function AuthorizationOf(reg: Registry, ev: Evidence): Option<PublisherAuth> {
    var a := PublisherFor(reg, ev.checkpoint.clientId, ev.checkpoint.topic, ev.checkpoint.epoch);
    if a.Ok? then a.value else None
  }

  /** What is wrong with the publisher's entry, its scheme or the carried key. */
  function PublisherReasons(arm: Arm, registry: Option<Registry>, ev: Evidence): (reasons: seq<Reason>)
    ensures NoTailReason(reasons)
  {
    if registry.None? then [REGISTRY_REQUIRED]
    else
      var auth := AuthorizationOf(registry.value, ev);
      if auth.None? then [PUBLISHER_NOT_AUTHORIZED, KEY_TRANSITION_UNAUTHORIZED]
      else
        (if ExpectedScheme(arm).None? then [ARM_UNSUPPORTED]
         else When(auth.value.scheme != ExpectedScheme(arm).value, ARM_SCHEME_MISMATCH))
        + When(ev.publicKey != [] && ev.publicKey != auth.value.publicKey, PUBLISHER_KEY_SUBSTITUTION)
  }

  /** Everything wrong with an item: its publisher, or else its commitment and its receipts. */
  ghost function ItemReasons(c: Crypto, arm: Arm, registry: Option<Registry>, ev: Evidence, q: Option<int>)
    : (reasons: seq<Reason>)
    ensures NoTailReason(reasons)
  {
    var publisher := PublisherReasons(arm, registry, ev);
    if publisher != [] then publisher
    else
      CommitmentReasons(c, arm, AuthorizationOf(registry.value, ev).value, ev)
      + if arm == A6 then Unique(ReceiptReasons(c, registry.value, ev, q)) else []
  }

  /** When auditing an item ends in an exception: its publisher is in order, but something cannot be serialised. */
  ghost predicate ItemRaises(arm: Arm, registry: Option<Registry>, ev: Evidence) {
    && PublisherReasons(arm, registry, ev) == []
    && (CommitmentRaises(arm, ev)
        || (arm == A6 && exists i :: 0 <= i < |OrEmpty(ev.receipts)| && !ReceiptFits(OrEmpty(ev.receipts)[i])))
  }

  /** The whole verdict on an item. */
  ghost function ItemVerdict(c: Crypto, arm: Arm, registry: Option<Registry>, ev: Evidence, q: Option<int>)
    : AuditVerdict
  {
    var reasons := ItemReasons(c, arm, registry, ev, q);
    var auth := if registry.Some? then AuthorizationOf(registry.value, ev) else None;
    var keyId := if auth.Some? then Some(auth.value.KeyId(c)) else None;
    if PublisherReasons(arm, registry, ev) != [] then RejectedVerdict(ev, reasons, false, 0, keyId, 0, 0)
    else
      var good := GoodRecords(c, arm, auth.value, ev);
      var w := WitnessVerdict(c, registry, ev, q);
      var witnesses, required := if arm == A6 then w.validDistinct else 0, if arm == A6 then w.required else 0;
      if reasons != [] then
        RejectedVerdict(ev, reasons, SignatureHolds(c, arm, auth.value, ev), good, keyId, witnesses, required)
      else
        AuditVerdict(ev.checkpoint, true, true, |ev.records|, good, true, Accept, [VERIFIED], keyId, witnesses,
                     required)
  }

  // ---- The checks ----

  /** The parsing loop; it stops at the first record that does not parse. */
  method ParseRecords(ev: Evidence) returns (parsed: Option<seq<Record>>)
    ensures parsed.Some? <==> Parses(ev)
    ensures parsed.Some? ==> |parsed.value| == |ev.records|
    ensures parsed.Some? ==> forall k :: 0 <= k < |ev.records| ==> DecodedRecord(ev.records[k]) == Some(parsed.value[k])
  {
    var records: seq<Record> := [];
    for i := 0 to |ev.records|
      invariant |records| == i
      invariant forall k :: 0 <= k < i ==> DecodedRecord(ev.records[k]) == Some(records[k])
    {
      var r := ParseRecord(ev.records[i]);
      if r.None? { return None; }
      records := records + [r.value];
    }
    parsed := Some(records);
  }

  /** `_record_structure_reasons`. */
  method RecordStructureReasons(ev: Evidence) returns (reasons: seq<Reason>)
    ensures reasons == StructureReasons(ev)
  {
    hide Parses;
    var ckpt := ev.checkpoint;
    if ckpt.seqEnd < ckpt.seqStart { return [CHECKPOINT_RANGE_INVALID]; }
    reasons := [];
    if |ev.records| != ckpt.seqEnd - ckpt.seqStart + 1 {
      reasons := reasons + [RECORD_COUNT_MISMATCH];
    }
    var parsed := ParseRecords(ev);
    if parsed.None? { return reasons + [RECORD_PARSE_ERROR]; }
    var numbered, sameTopic := CompareRecords(ckpt, parsed.value);
    assert numbered <==> RangeNumbered(ev);
    assert sameTopic <==> SameTopic(ev);
    if !numbered {
      reasons := reasons + [RECORD_SEQUENCE_MISMATCH];
    }
    if !sameTopic {
      reasons := reasons + [RECORD_TOPIC_MISMATCH];
    }
  }

  /** The parsed numbers are `range(seq_start, seq_end + 1)`; every topic is the checkpoint's. */
  method CompareRecords(ckpt: Checkpoint, parsed: seq<Record>) returns (numbered: bool, sameTopic: bool)
    ensures numbered <==>
      (|parsed| == ckpt.seqEnd - ckpt.seqStart + 1
       && forall j :: 0 <= j < |parsed| ==> parsed[j].seqNo == ckpt.seqStart + j)
    ensures sameTopic <==> forall j :: 0 <= j < |parsed| ==> parsed[j].topic == ckpt.topic
  {
    numbered, sameTopic := true, true;
    for k := 0 to |parsed|
      invariant numbered <==> forall j :: 0 <= j < k ==> parsed[j].seqNo == ckpt.seqStart + j
      invariant sameTopic <==> forall j :: 0 <= j < k ==> parsed[j].topic == ckpt.topic
    {
      numbered := numbered && parsed[k].seqNo == ckpt.seqStart + k;
      sameTopic := sameTopic && parsed[k].topic == ckpt.topic;
    }
    numbered := numbered && |parsed| == ckpt.seqEnd - ckpt.seqStart + 1;
  }

  /** The proof loop. */
  method CountProofs(c: Crypto, ev: Evidence) returns (validCount: nat)
    ensures validCount == CountProved(c, ev, |ev.records|)
  {
    hide Proves;
    var proofs := OrEmpty(ev.proofs);
    validCount := 0;
    for i := 0 to |ev.records|
      invariant validCount == CountProved(c, ev, i)
    {
      if i < |proofs| {
        var leaf := c.hash([0] + ev.records[i]);
        assert leaf == LeafHash(c.hash, ev.records[i]);
        var ok := Tree.VerifyProof(c.hash, leaf, proofs[i], ev.checkpoint.endAnchor);
        if ok {
          validCount := validCount + 1;
        }
      }
    }
  }

  /** `_audit_merkle`; an unserialisable checkpoint raises. */
  method AuditMerkle(c: Crypto, ev: Evidence, auth: PublisherAuth)
    returns (raised: bool, signatureOk: bool, validCount: nat, reasons: seq<Reason>)
    ensures raised <==> !CheckpointFits(ev.checkpoint)
    ensures !raised ==> reasons == MerkleReasons(c, auth, ev)
    ensures !raised ==> (signatureOk <==> CheckpointSigned(c, auth, ev))
    ensures !raised ==> validCount == CountProved(c, ev, |ev.records|)
  {
    hide StructureReasons, VerifySignature, Proves, CheckpointFits;
    raised, signatureOk, validCount := false, false, 0;
    reasons := RecordStructureReasons(ev);
    var body := SerializeCheckpoint(ev.checkpoint);
    if body.Raised? {
      raised := true;
      return;
    }
    signatureOk := VerifySignature(c, auth.publicKey, body.value, ev.signature, auth.scheme);
    if !signatureOk {
      reasons := reasons + [PUBLISHER_SIGNATURE_INVALID];
    }
    var proofs := OrEmpty(ev.proofs);
    var total := |ev.records|;
    if total == 0 {
      reasons := reasons + [EMPTY_EVIDENCE];
    }
    if |proofs| != total {
      reasons := reasons + [PROOF_COUNT_MISMATCH];
    }
    validCount := CountProofs(c, ev);
    CountingProofs(c, ev, total);
    if validCount != total {
      reasons := reasons + [MERKLE_PROOF_INVALID];
    }
  }

  /** `_audit_hash_chain`. */
  method AuditHashChain(c: Crypto, ev: Evidence, auth: PublisherAuth)
    returns (raised: bool, signatureOk: bool, validCount: nat, reasons: seq<Reason>)
    ensures raised <==> !CheckpointFits(ev.checkpoint)
    ensures !raised ==> reasons == ChainReasons(c, auth, ev)
    ensures !raised ==> (signatureOk <==> CheckpointSigned(c, auth, ev))
    ensures !raised ==> validCount == if ChainHolds(c, ev) then |ev.records| else 0
  {
    hide StructureReasons, VerifySignature, CheckpointFits;
    raised, signatureOk, validCount := false, false, 0;
    reasons := RecordStructureReasons(ev);
    var body := SerializeCheckpoint(ev.checkpoint);
    if body.Raised? {
      raised := true;
      return;
    }
    signatureOk := VerifySignature(c, auth.publicKey, body.value, ev.signature, auth.scheme);
    if !signatureOk {
      reasons := reasons + [PUBLISHER_SIGNATURE_INVALID];
    }
    var values := OrEmpty(ev.chainValues);
    var chainOk := ev.chainSeed.Some? && |values| == |ev.records| + 1;
    if chainOk {
      var computed := RecomputeChain(c, ev.chainSeed.value, ev.records);
      chainOk := computed == values && computed[|computed| - 1] == ev.checkpoint.endAnchor;
      assert ev.records[..|ev.records|] == ev.records;
    }
    if !chainOk {
      reasons := reasons + [HASH_CHAIN_INVALID];
    }
    validCount := if chainOk then |ev.records| else 0;
  }

  method RecomputeChain(c: Crypto, seed: Bytes, records: seq<Bytes>) returns (computed: seq<Digest>)
    ensures computed == HashChain.Values(c.hash, seed, records)
  {
    var current := c.hash(seed);
    computed := [current];
    var i := 0;
    while i < |records|
      invariant 0 <= i <= |records| && |computed| == i + 1
      invariant current == HashChain.Head(c.hash, seed, records[..i])
      invariant forall k :: 0 <= k <= i ==> computed[k] == HashChain.Head(c.hash, seed, records[..k])
    {
      assert records[..i + 1][..i] == records[..i];
      current := c.hash(current + records[i]);
      computed := computed + [current];
      i := i + 1;
    }
  }

  /** The body whose signature A1 evidence has to carry; empty when none can be formed. */
  method NaiveBody(c: Crypto, ev: Evidence, auth: PublisherAuth) returns (raised: bool, body: Bytes)
    ensures raised <==> CommitmentRaises(A1, ev)
    ensures !raised ==> body == NaiveMessage(c, auth, ev, FirstRecord(ev))
  {
    hide UnsignedBytes, SignedEnvelope;
    raised, body := false, [];
    var raw := FirstRecord(ev);
    var parsed := ParseRecord(raw);
    if parsed.Some? {
      if RecordTooLong(ev) { return true, []; }
      var unsigned := UnsignedBytes(SignedEnvelope(c, auth.publicKey, ev.checkpoint.epoch, parsed.value.seqNo, raw));
      body := if unsigned.Ok? then unsigned.value else [];
    }
  }

  /** `_audit_a1`. */
  method AuditNaive(c: Crypto, ev: Evidence, auth: PublisherAuth)
    returns (raised: bool, signatureOk: bool, validCount: nat, reasons: seq<Reason>)
    ensures raised <==> CommitmentRaises(A1, ev)
    ensures !raised ==> reasons == NaiveReasons(c, auth, ev)
    ensures !raised ==> (signatureOk <==> NaiveBodySigned(c, auth, ev))
    ensures !raised ==> validCount == if reasons == [] then 1 else 0
  {
    hide StructureReasons, VerifySignature, NaiveMessage, CommitmentRaises;
    signatureOk, validCount := false, 0;
    reasons := RecordStructureReasons(ev);
    if |ev.records| != 1 {
      reasons := reasons + [RECORD_COUNT_MISMATCH];
    }
    var raw := if |ev.records| > 0 then ev.records[0] else [];
    var signedBody;
    raised, signedBody := NaiveBody(c, ev, auth);
    if raised { return; }
    signatureOk := VerifySignature(c, auth.publicKey, signedBody, ev.signature, auth.scheme);
    if !signatureOk {
      reasons := reasons + [PUBLISHER_SIGNATURE_INVALID];
    }
    var commitmentOk := raw != [] && c.hash(raw) == ev.checkpoint.endAnchor;
    if !commitmentOk {
      reasons := reasons + [RECORD_COMMITMENT_INVALID];
    }
    validCount := if reasons == [] then 1 else 0;
  }

  function RejectedVerdict(ev: Evidence, reasons: seq<Reason>, sigValid: bool, validRecords: nat,
                           keyId: Option<Digest>, witnesses: nat, required: int): AuditVerdict {
    AuditVerdict(ev.checkpoint, sigValid, false, |ev.records|, validRecords, false, Reject, Unique(reasons), keyId,
                 witnesses, required)
  }

  /** `_publisher_authorization` in a validated registry. */
  method PublisherAuthorization(ev: Evidence, arm: Arm, registry: Option<Registry>)
    returns (auth: Option<PublisherAuth>, reasons: seq<Reason>)
    requires registry.Some? ==> Unambiguous(registry.value)
    ensures reasons == PublisherReasons(arm, registry, ev)
    ensures auth == if registry.Some? then AuthorizationOf(registry.value, ev) else None
    ensures auth.None? ==> reasons != []
    ensures auth.Some? && reasons == [] ==>
      registry.Some? && auth.value in registry.value.publishers && PublisherVouches(arm, ev, auth.value)
    ensures registry.Some? ==>
      forall a :: a in registry.value.publishers && PublisherVouches(arm, ev, a) ==> auth == Some(a) && reasons == []
  {
    hide PublisherVouches, Matches, ExpectedScheme;
    if registry.None? { return None, [REGISTRY_REQUIRED]; }
    VoucherDecides(arm, registry.value, ev);
    var ckpt := ev.checkpoint;
    PublisherLookup(registry.value, ckpt.clientId, ckpt.topic, ckpt.epoch);
    auth := PublisherFor(registry.value, ckpt.clientId, ckpt.topic, ckpt.epoch).value;
    if auth.None? { return None, [PUBLISHER_NOT_AUTHORIZED, KEY_TRANSITION_UNAUTHORIZED]; }
    reasons := [];
    var expected := ExpectedScheme(arm);
    if expected.None? {
      reasons := reasons + [ARM_UNSUPPORTED];
    } else if auth.value.scheme != expected.value {
      reasons := reasons + [ARM_SCHEME_MISMATCH];
    }
    if ev.publicKey != [] && ev.publicKey != auth.value.publicKey {
      reasons := reasons + [PUBLISHER_KEY_SUBSTITUTION];
    }
  }

  /** The arm's commitment check. */
  method AuditCommitment(c: Crypto, ev: Evidence, arm: Arm, auth: PublisherAuth)
    returns (raised: bool, signatureOk: bool, validCount: nat, reasons: seq<Reason>)
    ensures raised <==> CommitmentRaises(arm, ev)
    ensures !raised ==> reasons == CommitmentReasons(c, arm, auth, ev)
    ensures !raised ==> (signatureOk <==> SignatureHolds(c, arm, auth, ev))
    ensures !raised ==> validCount == GoodRecords(c, arm, auth, ev)
  {
    hide MerkleReasons, NaiveReasons, ChainReasons, CheckpointSigned, NaiveBodySigned, ChainHolds, CountProved;
    if UsesMerkle(arm) {
      raised, signatureOk, validCount, reasons := AuditMerkle(c, ev, auth);
    } else if arm == A1 {
      raised, signatureOk, validCount, reasons := AuditNaive(c, ev, auth);
    } else if arm == A3 {
      raised, signatureOk, validCount, reasons := AuditHashChain(c, ev, auth);
    } else if arm == A2 {
      raised, signatureOk, validCount, reasons := false, false, 0, [NON_TRANSFERABLE_ARM];
    } else {
      raised, signatureOk, validCount, reasons := false, false, 0, [ARM_UNSUPPORTED];
    }
  }

  lemma AcceptedByTheVoucher(c: Crypto, arm: Arm, reg: Registry, ev: Evidence, q: Option<int>, auth: PublisherAuth)
    requires auth in reg.publishers && PublisherVouches(arm, ev, auth)
    requires forall a :: a in reg.publishers && PublisherVouches(arm, ev, a) ==> a == auth
    ensures EvidenceAccepted(c, arm, reg, ev, q) <==>
      RecordsFit(ev) && Committed(c, arm, auth, ev) && (arm == A6 ==> ReceiptsAccepted(c, reg, ev, q))
  {}

  /** A clean item shows all its records good. */
  lemma CleanIsAllGood(c: Crypto, arm: Arm, auth: PublisherAuth, ev: Evidence)
    requires RecordsFit(ev) && Committed(c, arm, auth, ev) && CommitmentReasons(c, arm, auth, ev) == []
    ensures GoodRecords(c, arm, auth, ev) == |ev.records|
  {
    hide RecordsFit, Proves, VerifySignature, MerkleReasons, NaiveReasons, ChainReasons;
    CountingProofs(c, ev, |ev.records|);
  }

  /** The verdict accepts exactly when the item is accepted; then nothing raises, and all its records are good. */
  lemma VerdictDecides(c: Crypto, arm: Arm, reg: Registry, ev: Evidence, q: Option<int>)
    requires Unambiguous(reg)
    ensures var v := ItemVerdict(c, arm, Some(reg), ev, q);
      && (!ItemRaises(arm, Some(reg), ev) && v.accepted <==> EvidenceAccepted(c, arm, reg, ev, q))
      && (v.outcome == Accept <==> v.accepted)
      && (v.accepted ==> v.reasons == [VERIFIED])
      && (!v.accepted ==> ItemReasons(c, arm, Some(reg), ev, q) != []
                          && v.reasons == Unique(ItemReasons(c, arm, Some(reg), ev, q)))
      && (EvidenceAccepted(c, arm, reg, ev, q) ==> v.validRecords == |ev.records|)
  {
    hide RecordsFit, Committed, ReceiptsAccepted, PublisherVouches, CommitmentReasons, ReceiptReasons, GoodRecords,
         CommitmentRaises, Unique, AuthorizationOf, ReceiptFits, SignatureHolds, WitnessVerdict, PublisherReasons;
    VoucherDecides(arm, reg, ev);
    if PublisherReasons(arm, Some(reg), ev) == [] {
      var auth := AuthorizationOf(reg, ev).value;
      AcceptedByTheVoucher(c, arm, reg, ev, q, auth);
      CommitmentDecides(c, arm, auth, ev);
      if arm == A6 {
        NothingIsUnique();
        NothingWrongIsAccepted(c, reg, ev, q);
        AcceptedReceiptsFit(c, reg, ev, q);
      }
      if EvidenceAccepted(c, arm, reg, ev, q) {
        CleanIsAllGood(c, arm, auth, ev);
      }
    }
  }

  /** No reason against the publisher exactly when an entry vouches for the item, and then it is the entry found. */
  lemma VoucherDecides(arm: Arm, reg: Registry, ev: Evidence)
    requires Unambiguous(reg)
    ensures PublisherReasons(arm, Some(reg), ev) == [] ==>
      var auth := AuthorizationOf(reg, ev);
      && auth.Some? && auth.value in reg.publishers && PublisherVouches(arm, ev, auth.value)
      && forall a :: a in reg.publishers && PublisherVouches(arm, ev, a) ==> a == auth.value
    ensures PublisherReasons(arm, Some(reg), ev) != [] ==>
      forall a :: a in reg.publishers ==> !PublisherVouches(arm, ev, a)
  {
    PublisherLookup(reg, ev.checkpoint.clientId, ev.checkpoint.topic, ev.checkpoint.epoch);
  }

  /** An entry that vouches for the item leaves nothing to say against the publisher. */
  lemma VouchedIsInOrder(arm: Arm, reg: Registry, ev: Evidence, auth: PublisherAuth)
    requires Unambiguous(reg) && auth in reg.publishers && PublisherVouches(arm, ev, auth)
    ensures PublisherReasons(arm, Some(reg), ev) == []
  {
    hide PublisherVouches, PublisherReasons, AuthorizationOf;
    VoucherDecides(arm, reg, ev);
  }

  /**
   * An input `audit_evidence` does not answer: a checkpoint whose range runs backwards, from an authorised publisher
   * of any arm that signs checkpoints.
   */
  lemma ReversedRangeRaises(arm: Arm, reg: Registry, ev: Evidence, auth: PublisherAuth)
    requires Unambiguous(reg) && auth in reg.publishers && PublisherVouches(arm, ev, auth) && arm != A1
    requires ev.checkpoint.seqStart > ev.checkpoint.seqEnd
    ensures ItemRaises(arm, Some(reg), ev)
  {
    hide PublisherReasons;
    VouchedIsInOrder(arm, reg, ev, auth);
  }

  /** Everything an audit may have to serialise again can be serialised. */
  predicate Serializable(ev: Evidence) {
    && CheckpointFits(ev.checkpoint) && !RecordTooLong(ev)
    && forall i :: 0 <= i < |OrEmpty(ev.receipts)| ==> ReceiptFits(OrEmpty(ev.receipts)[i])
  }

  /** Then the item is answered with a verdict, whatever else is wrong with it. */
  lemma SerializableIsAnswered(arm: Arm, registry: Option<Registry>, ev: Evidence)
    requires Serializable(ev)
    ensures !ItemRaises(arm, registry, ev)
  {
    hide PublisherReasons, CheckpointFits, ReceiptFits;
  }

  /** `audit_evidence`: the whole verdict, and an exception exactly when something cannot be serialised. */
  method AuditEvidence(c: Crypto, ev: Evidence, arm: Arm, registry: Option<Registry>, witnessQuorum: Option<int>)
    returns (r: Outcome<AuditVerdict>)
    requires registry.Some? ==> Unambiguous(registry.value)
    ensures r == if ItemRaises(arm, registry, ev) then Raised
                 else Ok(ItemVerdict(c, arm, registry, ev, witnessQuorum))
    ensures r.Ok? && r.value.accepted <==>
      registry.Some? && EvidenceAccepted(c, arm, registry.value, ev, witnessQuorum)
  {
    hide RecordsFit, Committed, ReceiptsAccepted, PublisherVouches, CommitmentReasons, PublisherReasons, ReceiptReasons,
         CommitmentRaises, Unique, AuthorizationOf, ReceiptFits, EvidenceAccepted, SignatureHolds, GoodRecords,
         ReceiptsRaise;
    if registry.Some? {
      VerdictDecides(c, arm, registry.value, ev, witnessQuorum);
    }
    var auth, authReasons := PublisherAuthorization(ev, arm, registry);
    if auth.None? || authReasons != [] {
      var keyId := if auth.Some? then Some(auth.value.KeyId(c)) else None;
      return Ok(RejectedVerdict(ev, authReasons, false, 0, keyId, 0, 0));
    }
    var raised, signatureOk, validCount, reasons := AuditCommitment(c, ev, arm, auth.value);
    if raised { return Raised; }
    var witnesses, required := 0, 0;
    if arm == A6 {
      var w := VerifyReceipts(c, registry, ev, witnessQuorum);
      RaisingIsUnfit(c, registry.value, ev);
      if w.Raised? { return Raised; }
      witnesses, required := w.value.validDistinct, w.value.required;
      NothingIsUnique();
      WitnessReasons(c, registry.value, ev, witnessQuorum);
      if !w.value.accepted {
        reasons := reasons + w.value.reasons;
      } else {
        assert reasons + [] == reasons;
      }
      var measurable := ReceiptsSerialize(OrEmpty(ev.receipts));
      if !measurable { return Raised; }
    }
    var keyId := Some(auth.value.KeyId(c));
    assert arm != A6 ==> reasons + [] == reasons;
    if reasons != [] {
      return Ok(RejectedVerdict(ev, reasons, signatureOk, validCount, keyId, witnesses, required));
    }
    r := Ok(AuditVerdict(ev.checkpoint, true, true, |ev.records|, validCount, true, Accept, [VERIFIED], keyId,
                         witnesses, required));
  }

  lemma WitnessReasons(c: Crypto, reg: Registry, ev: Evidence, q: Option<int>)
    ensures var w := WitnessVerdict(c, Some(reg), ev, q);
      && (w.accepted <==> ReceiptReasons(c, reg, ev, q) == [])
      && w.reasons == Unique(ReceiptReasons(c, reg, ev, q))
  {
    hide Flaws, Unique;
    if PolicyFor(reg, StreamOf(ev)).None? {
      SingleIsUnique(WITNESS_POLICY_MISSING);
    }
  }

  /** The receipt sizes are summed over every receipt, so each has to serialise. */
  method ReceiptsSerialize(receipts: seq<Receipt>) returns (ok: bool)
    ensures ok <==> forall i :: 0 <= i < |receipts| ==> ReceiptFits(receipts[i])
  {
    hide ReceiptFits;
    for i := 0 to |receipts|
      invariant forall k :: 0 <= k < i ==> ReceiptFits(receipts[k])
    {
      if SerializeReceipt(receipts[i]).Raised? {
        return false;
      }
    }
    ok := true;
  }

  lemma AcceptedReceiptsFit(c: Crypto, reg: Registry, ev: Evidence, q: Option<int>)
    ensures ReceiptsAccepted(c, reg, ev, q) ==>
      forall i :: 0 <= i < |OrEmpty(ev.receipts)| ==> ReceiptFits(OrEmpty(ev.receipts)[i])
  {
    hide ReceiptFits;
    if ReceiptsAccepted(c, reg, ev, q) {
      var receipts := OrEmpty(ev.receipts);
      forall i | 0 <= i < |receipts| ensures ReceiptFits(receipts[i]) {
        assert receipts[i] in receipts;
      }
    }
  }
}
