/** An arm seals whatever numbers it is fed: a batch added out of order, and how it can be presented. */
module OutOfOrder {
  import opened Prelude
  import opened Bytes
  import opened Text
  import opened Crypto
  import opened Codec
  import opened Merkle
  import opened Registry
  import opened Evidence
  import opened Receipts
  import opened ItemAudit
  import opened StreamAudit
  import opened Soundness
  import opened Generated
  import opened ArmSpec
  import opened RunInvariant
  import opened RunHistory
  import opened Completeness

  /** A two-record item, presented the other way round. */
  function Swapped(ev: Evidence): Evidence
    requires |ev.records| == 2 && ev.proofs.Some? && |ev.proofs.value| == 2
  {
    ev.(records := [ev.records[1], ev.records[0]], proofs := Some([ev.proofs.value[1], ev.proofs.value[0]]))
  }

  /** The run adds two records and flushes. */
  function TwoAdds(a: Record, b: Record, clock: Clock): seq<Call> {
    [AddRecord(a, clock, []), AddRecord(b, clock, []), FlushBatch(clock, [])]
  }

  lemma AfterSnoc(cfg: Config, seed: Bytes, calls: seq<Call>, call: Call)
    ensures After(cfg, seed, calls + [call])
      == if After(cfg, seed, calls).Raised? then Raised else Perform(cfg, After(cfg, seed, calls).value, call)
  {
    assert (calls + [call])[..|calls|] == calls;
  }

  lemma AddStays(cfg: Config, s: ArmState, call: Call)
    requires call.AddRecord? && Perform(cfg, s, call).Ok? && |s.pending| + 1 < cfg.batchSize
    ensures var t := Perform(cfg, s, call).value;
      t.sealed == s.sealed && |t.pending| == |s.pending| + 1
  {
    hide WireMessage, RecordBytes, RecordFits, Seal;
  }

  lemma FlushSeals(cfg: Config, s: ArmState, call: Call)
    requires call.FlushBatch? && Perform(cfg, s, call).Ok? && s.pending != [] && s.sealed == []
    ensures var t := Perform(cfg, s, call).value;
      |t.sealed| == 1 && t.pending == []
  {
    hide SealFits, SealedItem, Seal;
    SealResult(cfg, s, call.clock, call.nextSeed);
  }

  /** The run seals one item. */
  lemma TwoAddsSeal(cfg: Config, seed: Bytes, a: Record, b: Record, clock: Clock)
    requires cfg.batchSize > 2 && After(cfg, seed, TwoAdds(a, b, clock)).Ok?
    ensures var s := After(cfg, seed, TwoAdds(a, b, clock)).value;
      |s.sealed| == 1 && s.pending == []
  {
    hide After, Perform;
    var calls := TwoAdds(a, b, clock);
    assert calls == [] + [calls[0]] + [calls[1]] + [calls[2]];
    AfterSnoc(cfg, seed, [], calls[0]);
    AfterSnoc(cfg, seed, [] + [calls[0]], calls[1]);
    AfterSnoc(cfg, seed, [] + [calls[0]] + [calls[1]], calls[2]);
    NothingAfter(cfg, seed);
    var s0 := InitialState(seed);
    AddStays(cfg, s0, calls[0]);
    var s1 := Perform(cfg, s0, calls[0]).value;
    AddStays(cfg, s1, calls[1]);
    var s2 := Perform(cfg, s1, calls[1]).value;
    FlushSeals(cfg, s2, calls[2]);
  }

  lemma NothingAfter(cfg: Config, seed: Bytes)
    ensures After(cfg, seed, []) == Ok(InitialState(seed))
  {}

  /** What is known of the sealed item. */
  ghost predicate SealedPair(cfg: Config, ev: Evidence, a: Record, b: Record) {
    && ArmItem(cfg, ZERO_ANCHOR, 1, 0, ev) && UsesMerkle(cfg.arm)
    && |ev.records| == 2 && SerializedAre(ev.records, [a, b])
    && a.topic == cfg.topic && b.topic == cfg.topic
  }

  lemma SwappedFits(cfg: Config, ev: Evidence, a: Record, b: Record)
    requires SealedPair(cfg, ev, a, b) && a.seqNo == 2 && b.seqNo == 1 && |OrEmpty(ev.proofs)| == 2
    ensures RecordsFit(Swapped(ev)) && Swapped(ev).records != ev.records
  {
    hide HonestCommitment, GoodReceipts, CheckpointFits, SerializeRecord, DecodedRecord;
    SerializedIsDecoded([a, b][0], ev.records[0]);
    SerializedIsDecoded([a, b][1], ev.records[1]);
    var shown := Swapped(ev);
    assert RecordAt(shown.checkpoint, shown.records[0], 0) && RecordAt(shown.checkpoint, shown.records[1], 1);
  }

  lemma SwappedProofsHold(cfg: Config, ev: Evidence, a: Record, b: Record)
    requires SealedPair(cfg, ev, a, b)
    ensures |OrEmpty(ev.proofs)| == 2 && ProofsHold(cfg.c, Swapped(ev))
  {
    hide GoodReceipts, CheckpointFits, SerializedAre, Root, InclusionProof, Leaves, Proves, LeafHash;
    HonestProofsHold(cfg.c, ev);
    assert Proves(cfg.c.hash, LeafHash(cfg.c.hash, ev.records[0]), ev.proofs.value[0], ev.checkpoint.endAnchor);
    assert Proves(cfg.c.hash, LeafHash(cfg.c.hash, ev.records[1]), ev.proofs.value[1], ev.checkpoint.endAnchor);
  }

  lemma SwappedIsAccepted(cfg: Config, ev: Evidence, a: Record, b: Record, quorum: Option<int>, q: Option<int>,
                          inputs: set<Bytes>)
    requires HonestSetup(cfg) && SealedPair(cfg, ev, a, b) && a.seqNo == 2 && b.seqNo == 1
    requires QuorumReached(cfg, quorum) && QuorumReached(cfg, q)
    requires CollisionFree(cfg.c.hash, inputs) && forall k :: k in cfg.witnessKeys ==> k in inputs
    ensures |ev.records| == 2 && |OrEmpty(ev.proofs)| == 2
    ensures EvidenceAccepted(cfg.c, cfg.arm, RunRegistry(cfg, 1, quorum), Swapped(ev), q)
  {
    hide RecordsFit, CheckpointFits, GoodReceipts, ProofsHold, CheckpointSigned, ReceiptsAccepted, SignsCorrectly,
         HonestCommitment, CanonicalStreamId, SerializedAre;
    SwappedProofsHold(cfg, ev, a, b);
    SwappedFits(cfg, ev, a, b);
    var shown, reg := Swapped(ev), RunRegistry(cfg, 1, quorum);
    var auth := reg.publishers[0];
    SignedItem(cfg, shown, auth);
    assert PublisherVouches(cfg.arm, shown, auth) && Committed(cfg.c, cfg.arm, auth, shown);
    if cfg.arm == A6 {
      SwappedReceipts(cfg, ev);
      RunReceiptsAccepted(cfg, 1, quorum, q, shown, inputs);
    }
  }

  lemma SwappedReceipts(cfg: Config, ev: Evidence)
    requires GoodReceipts(cfg, ev) && |ev.records| == 2 && ev.proofs.Some? && |ev.proofs.value| == 2
    ensures GoodReceipts(cfg, Swapped(ev))
  {
    hide GoodReceipt;
  }

  /** Nothing forged and nothing hashed anew: the presented item is made of what the publisher sealed. */
  lemma SwappedIsOwn(cfg: Config, reg: Registry, ev: Evidence, inputs: set<Bytes>)
    requires |ev.records| == 2 && ev.proofs.Some? && |ev.proofs.value| == 2 && UsesMerkle(cfg.arm)
    requires NoCollision(cfg.c, cfg.arm, [ev], [ev], inputs)
    ensures NothingForged(cfg.c, reg, cfg.client, cfg.topic, [ev], [Swapped(ev)])
    ensures NoCollision(cfg.c, cfg.arm, [ev], [Swapped(ev)], inputs)
  {
    hide CheckpointFits, CheckpointBody, VerifySignature, HonestMessage, CheckInputs, BuildInputs;
    OwnItemsAreGenuine(cfg.c, reg, cfg.client, cfg.topic, [ev]);
    assert Genuine(cfg.c, reg, cfg.client, cfg.topic, [ev], [ev][0]);
    assert AuditHashed(cfg.c, cfg.arm, [ev][0], inputs);
    assert CheckInputs(cfg.c.hash, ev.records[0], ev.proofs.value[0]) <= inputs;
    assert CheckInputs(cfg.c.hash, ev.records[1], ev.proofs.value[1]) <= inputs;
  }

  /** One fitting item with new hashes repeats nothing. */
  lemma PairRepeatsNothing(c: Crypto, ev: Evidence, inputs: set<Bytes>)
    requires RecordsFit(ev) && CollisionFree(c.hash, inputs) && forall r :: r in ev.records ==> r in inputs
    ensures NothingRepeats(c, [ev])
  {
    hide RecordAt;
    assert [ev][..0] == [];
    assert AllRecords([ev]) == ev.records;
    FittingIsDistinct(ev);
    forall i, j | 0 <= i < j < |ev.records| ensures Hashes(c, ev.records)[i] != Hashes(c, ev.records)[j] {
      assert ev.records[i] in inputs && ev.records[j] in inputs;
    }
  }

  lemma TwoAdded(a: Record, b: Record, clock: Clock)
    ensures Added(TwoAdds(a, b, clock)) == [a, b]
  {
    var calls := TwoAdds(a, b, clock);
    assert calls[..2] == [calls[0], calls[1]] && calls[..2][..1] == [calls[0]] && calls[..2][..1][..0] == [];
    assert Added(calls[..2][..1]) == [a];
    assert Added(calls[..2]) == [a, b];
  }

  lemma PairIsSealed(cfg: Config, seed: Bytes, a: Record, b: Record, clock: Clock)
    requires cfg.Supported() && UsesMerkle(cfg.arm) && cfg.batchSize > 2 && After(cfg, seed, TwoAdds(a, b, clock)).Ok?
    requires a.topic == cfg.topic && b.topic == cfg.topic
    ensures var s := After(cfg, seed, TwoAdds(a, b, clock)).value;
      Keeps(cfg, s) && s.pending == [] && |s.sealed| == 1 && SealedPair(cfg, s.sealed[0], a, b)
  {
    hide After, TwoAdds, ArmItem, SerializedAre, Added;
    TwoAddsSeal(cfg, seed, a, b, clock);
    RunKeeps(cfg, seed, TwoAdds(a, b, clock));
    TwoAdded(a, b, clock);
    var s := After(cfg, seed, TwoAdds(a, b, clock)).value;
    assert ItemInPlace(cfg, s.sealed, 0);
    assert s.sealed[..0] == [];
    assert Produced(s) == s.sealed[0].records;
    SerializedLength(s.sealed[0].records, [a, b]);
  }

  /**
   * Record number 2 is added before record number 1. What the arm seals is refused as it stands; presented the other
   * way round, each record with its proof, it is accepted against the very same registry and anchors. Nothing is
   * forged and no hash collides, so acceptance does show the records added, but not the order they were added in.
   */
  lemma ReorderedIsAccepted(cfg: Config, seed: Bytes, a: Record, b: Record, clock: Clock, quorum: Option<int>,
                            q: Option<int>, validUntil: Option<real>, auditTime: real, inputs: set<Bytes>)
    requires HonestSetup(cfg) && UsesMerkle(cfg.arm) && cfg.batchSize > 2
    requires a.seqNo == 2 && b.seqNo == 1 && a.topic == cfg.topic && b.topic == cfg.topic
    requires After(cfg, seed, TwoAdds(a, b, clock)).Ok?
    requires GoodHashes(cfg, After(cfg, seed, TwoAdds(a, b, clock)).value.sealed, inputs)
    requires QuorumReached(cfg, quorum) && QuorumReached(cfg, q)
    requires validUntil.Some? ==> auditTime <= validUntil.value
    ensures var sealed := After(cfg, seed, TwoAdds(a, b, clock)).value.sealed;
      && |sealed| == 1 && |sealed[0].records| == 2 && |OrEmpty(sealed[0].proofs)| == 2
      && var job := GeneratedJob(cfg, sealed, quorum, q, validUntil, auditTime);
      var other := job.(evs := [Swapped(sealed[0])]);
      && !job.Accepted(cfg.c)
      && other.Accepted(cfg.c) && other.evs[0].records != sealed[0].records
      && NothingForged(cfg.c, job.registry.value, cfg.client, cfg.topic, sealed, other.evs)
      && NoCollision(cfg.c, cfg.arm, sealed, other.evs, inputs)
  {
    hide After, TwoAdds, Keeps, SignsCorrectly, RegistryFor, RunRegistry, AuditHashed, EvidenceAccepted, NothingForged,
         NothingRepeats, SealHashed, RecordsFit, InOrder, SealedPair, LinkedAt, SerializedAre, CanonicalStreamId,
         AllRecords;
    PairIsSealed(cfg, seed, a, b, clock);
    var s := After(cfg, seed, TwoAdds(a, b, clock)).value;
    var ev := s.sealed[0];
    assert s.sealed == [ev];
    RegistryOfRun(cfg, s, quorum);
    SwappedIsAccepted(cfg, ev, a, b, quorum, q, inputs);
    SwappedFits(cfg, ev, a, b);
    PairIsLinked(cfg, ev, a, b, inputs);
    SwappedIsOwn(cfg, RunRegistry(cfg, 1, quorum), ev, inputs);
    OutOfOrderCalls(cfg, a, b, clock);
    if GeneratedJob(cfg, s.sealed, quorum, q, validUntil, auditTime).Accepted(cfg.c) {
      OnlyDisciplinedIsAccepted(cfg, seed, TwoAdds(a, b, clock), quorum, q, validUntil, auditTime);
    }
  }

  lemma OutOfOrderCalls(cfg: Config, a: Record, b: Record, clock: Clock)
    requires a.seqNo == 2
    ensures !InOrder(cfg, TwoAdds(a, b, clock))
  {
    var calls := TwoAdds(a, b, clock);
    assert calls[0].AddRecord? && calls[..0] == [];
  }

  /** The anchor is a hash of something hashed, so it is not the zero anchor. */
  lemma PairAnchorIsNew(cfg: Config, ev: Evidence, a: Record, b: Record, inputs: set<Bytes>)
    requires SealedPair(cfg, ev, a, b) && GoodHashes(cfg, [ev], inputs)
    ensures ev.checkpoint.endAnchor != ZERO_ANCHOR
  {
    hide SealHashed, AuditHashed, SerializedAre, CanonicalStreamId, AllProofs, GoodReceipts, CheckpointFits, AllRecords,
         Root, Leaves;
    assert SealHashed(cfg.c, cfg.arm, [ev][0], inputs);
    var x := AnchorIsHash(cfg.c, cfg.arm, ev, inputs);
  }

  lemma PairIsLinked(cfg: Config, ev: Evidence, a: Record, b: Record, inputs: set<Bytes>)
    requires SealedPair(cfg, ev, a, b) && a.seqNo == 2 && b.seqNo == 1 && |OrEmpty(ev.proofs)| == 2
    requires GoodHashes(cfg, [ev], inputs)
    ensures LinkedAt(GENESIS, [Swapped(ev)], 0) && NothingRepeats(cfg.c, [Swapped(ev)])
  {
    hide SealHashed, AuditHashed, SerializedAre, CanonicalStreamId, HonestCommitment, GoodReceipts, CheckpointFits,
         NothingRepeats, RecordsFit, StreamOf;
    SwappedFits(cfg, ev, a, b);
    PairAnchorIsNew(cfg, ev, a, b, inputs);
    LoneRecords(ev);
    hide AllRecords;
    PairRepeatsNothing(cfg.c, Swapped(ev), inputs);
  }

  lemma LoneRecords(ev: Evidence)
    ensures AllRecords([ev]) == ev.records
  {
    assert [ev][..0] == [];
  }
}
