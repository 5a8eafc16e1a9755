/** The arm objects of aapa_mqtt.py, each proved to follow the arm state machine. */
module Arms {
  import opened Prelude
  import opened Bytes
  import opened Text
  import opened Crypto
  import opened Codec
  import opened Merkle
  import Tree = MerkleTree
  import Chain = HashChain
  import opened Evidence
  import opened Witness
  import opened ArmSpec
  import opened LiveArm

  // ---- Witnesses of an A6 arm ----

  /** The object is the arm's witness number i. */
  ghost predicate Attends(cfg: Config, w: CheckpointWitness, i: nat)
    requires i < |cfg.witnessKeys|
    reads w
  {
    w.Valid() && w.c == cfg.c && w.witnessId == WitnessName(i) && w.publicKey == cfg.witnessKeys[i]
  }

  /** The witness objects match the configuration. */
  ghost predicate Attended(cfg: Config, witnesses: seq<CheckpointWitness>)
    reads witnesses
  {
    && |witnesses| == |cfg.witnessKeys| && Distinct(witnesses)
    && forall i :: 0 <= i < |witnesses| ==> Attends(cfg, witnesses[i], i)
  }

  /** What each witness last cosigned for the arm's stream. */
  ghost function Held(cfg: Config, witnesses: seq<CheckpointWitness>): (held: seq<Bytes>)
    reads witnesses
    ensures |held| == |witnesses|
  {
    seq(|witnesses|, i requires 0 <= i < |witnesses| reads witnesses => witnesses[i].Latest(cfg.StreamId()))
  }

  /** The arm's witness number i, holding this anchor for the arm's stream. */
  ghost predicate Holds(cfg: Config, w: CheckpointWitness, i: nat, anchor: Bytes)
    requires i < |cfg.witnessKeys|
    reads w
  {
    Attends(cfg, w, i) && w.Latest(cfg.StreamId()) == anchor
  }

  /** One witness of the arm: it cosigns what extends its anchor and can be serialised. */
  method Cosign(cfg: Config, w: CheckpointWitness, i: nat, ckpt: Checkpoint, clock: Clock, ghost anchor: Bytes)
    returns (ok: bool, receipt: Receipt)
    requires i < |cfg.witnessKeys| && Holds(cfg, w, i, anchor)
    requires ckpt.clientId == cfg.client && ckpt.topic == cfg.topic
    modifies w
    ensures ok <==> anchor == ckpt.prevAnchor && CanCosign(cfg, ckpt, clock, i)
    ensures Holds(cfg, w, i, if ok then ckpt.endAnchor else anchor)
    ensures ok ==> receipt == SignedReceipt(cfg, ckpt, clock, i)
  {
    hide ReceiptFits, ReceiptBody, CanonicalStreamId, WitnessName, LatestAfter, Grants;
    var r := w.IssueReceipt(ckpt, clock(i + 1));
    if r.Raised? {
      return false, Draft([], [], ckpt, clock(i + 1));
    }
    assert r.value == r.value.(signature := []).(signature := r.value.signature);
    return true, r.value;
  }

  /** `[w.issue_receipt(ckpt) for w in self._witnesses]`: up to the first witness that refuses. */
  method CollectReceipts(cfg: Config, witnesses: seq<CheckpointWitness>, ckpt: Checkpoint, clock: Clock)
    returns (ok: bool, receipts: seq<Receipt>)
    requires Attended(cfg, witnesses)
    requires ckpt.clientId == cfg.client && ckpt.topic == cfg.topic
    modifies witnesses
    ensures Attended(cfg, witnesses)
    ensures |receipts| == Cosigners(cfg, ckpt, clock, old(Held(cfg, witnesses)), 0)
    ensures Held(cfg, witnesses) == Moved(old(Held(cfg, witnesses)), ckpt.endAnchor, |receipts|)
    ensures ok <==> |receipts| == |witnesses|
    ensures ok ==> receipts == SignedReceipts(cfg, ckpt, clock)
  {
    hide CanCosign, SignedReceipt, Attends, CanonicalStreamId, Cosigners;
    ghost var held := Held(cfg, witnesses);
    ok, receipts := AskInTurn(cfg, witnesses, ckpt, clock, held);
    assert Held(cfg, witnesses) == Moved(held, ckpt.endAnchor, |receipts|);
  }

  /** The loop, witness by witness. */
  method AskInTurn(cfg: Config, witnesses: seq<CheckpointWitness>, ckpt: Checkpoint, clock: Clock,
                   ghost held: seq<Bytes>)
    returns (ok: bool, receipts: seq<Receipt>)
    requires Distinct(witnesses) && |witnesses| == |cfg.witnessKeys| == |held|
    requires forall j :: 0 <= j < |witnesses| ==> Holds(cfg, witnesses[j], j, held[j])
    requires ckpt.clientId == cfg.client && ckpt.topic == cfg.topic
    modifies witnesses
    ensures |receipts| == Cosigners(cfg, ckpt, clock, held, 0) && (ok <==> |receipts| == |witnesses|)
    ensures forall j :: 0 <= j < |witnesses| ==>
      Holds(cfg, witnesses[j], j, Moved(held, ckpt.endAnchor, |receipts|)[j])
    ensures forall j :: 0 <= j < |receipts| ==> receipts[j] == SignedReceipt(cfg, ckpt, clock, j)
  {
    hide CanCosign, SignedReceipt, Holds, Cosigners;
    receipts := [];
    for i := 0 to |witnesses|
      invariant |receipts| == i
      invariant forall j :: 0 <= j < i ==> receipts[j] == SignedReceipt(cfg, ckpt, clock, j)
      invariant Cosigners(cfg, ckpt, clock, held, 0) == Cosigners(cfg, ckpt, clock, held, i)
      invariant forall j :: 0 <= j < i ==> Holds(cfg, witnesses[j], j, ckpt.endAnchor)
      invariant forall j :: i <= j < |witnesses| ==> Holds(cfg, witnesses[j], j, held[j])
    {
      CosignersStep(cfg, ckpt, clock, held, i);
      var cosigned, receipt := Cosign(cfg, witnesses[i], i, ckpt, clock, held[i]);
      if !cosigned {
        return false, receipts;
      }
      receipts := receipts + [receipt];
    }
    CosignersStep(cfg, ckpt, clock, held, |witnesses|);
    ok := true;
  }

  lemma CosignersStep(cfg: Config, ckpt: Checkpoint, clock: Clock, held: seq<Bytes>, i: nat)
    requires i <= |held| == |cfg.witnessKeys|
    ensures Cosigners(cfg, ckpt, clock, held, i)
      == if i < |held| && held[i] == ckpt.prevAnchor && CanCosign(cfg, ckpt, clock, i)
         then Cosigners(cfg, ckpt, clock, held, i + 1) else i
  {
    hide CanCosign;
  }

  /** The witness list an A6 arm creates. */
  method MakeWitnesses(cfg: Config) returns (ws: seq<CheckpointWitness>)
    ensures Attended(cfg, ws) && fresh(ws)
    ensures Held(cfg, ws) == seq(|cfg.witnessKeys|, i => ZERO_ANCHOR)
  {
    hide WitnessName, CanonicalStreamId, LatestAfter;
    ws := [];
    for i := 0 to |cfg.witnessKeys|
      invariant |ws| == i && fresh(ws) && Distinct(ws)
      invariant forall j :: 0 <= j < i ==> Attends(cfg, ws[j], j) && ws[j].Latest(cfg.StreamId()) == ZERO_ANCHOR
    {
      var w := new CheckpointWitness(cfg.c, WitnessName(i), cfg.witnessKeys[i]);
      ws := ws + [w];
    }
  }

  // ---- A0, A4, A5, A6 ----

  class MerkleArm {
    const cfg: Config
    const witnesses: seq<CheckpointWitness>
    var records: seq<Record>
    var checkpoints: seq<Evidence>
    var wireMessages: seq<Bytes>
    var prevAnchor: Bytes
    var merkle: Tree.MerkleTree
    var epoch: nat
    var batchCount: nat
    var epochCount: nat

    ghost function State(): ArmState
      reads this, merkle
    {
      ArmState(checkpoints, merkle.records, batchCount, [], wireMessages)
    }

    /** The arm and what its witnesses hold. */
    ghost function Whole(): Live
      reads this, merkle, witnesses
    {
      Live(State(), Held(cfg, witnesses))
    }

    /** What every call keeps, whether it raises or not. */
    ghost predicate Valid()
      reads this, merkle, merkle.tree, witnesses
    {
      && cfg.Supported() && UsesMerkle(cfg.arm)
      && merkle.Valid() && merkle.h == cfg.c.hash
      && prevAnchor == PrevAnchor(checkpoints) && epoch == |checkpoints| && epochCount == |merkle.records|
      && epochCount <= batchCount
      && Attended(cfg, witnesses)
    }

    constructor (cfg: Config)
      requires cfg.Supported() && UsesMerkle(cfg.arm)
      ensures this.cfg == cfg && Valid() && records == [] && Whole() == InitialLive(cfg, [])
      ensures fresh(merkle) && fresh(merkle.tree) && fresh(witnesses)
    {
      hide Attended, Held;
      var ws := MakeWitnesses(cfg);
      this.cfg, witnesses := cfg, ws;
      records, checkpoints, wireMessages := [], [], [];
      prevAnchor, epoch, batchCount, epochCount := ZERO_ANCHOR, 0, 0, 0;
      merkle := new Tree.MerkleTree(cfg.c.hash);
    }

    /** Root, checkpoint, signature, receipts and proofs for the open batch. */
    method BuildEvidence(clock: Clock) returns (r: Outcome<Evidence>)
      requires Valid() && merkle.records != []
      modifies merkle, witnesses
      ensures Valid() && State() == old(State())
      ensures var done := SealLive(cfg, old(Whole()), clock, []);
        && Held(cfg, witnesses) == done.after.held && (r.Ok? <==> done.ok)
        && (r.Ok? ==> CheckpointFits(NextCheckpoint(cfg, State(), clock))
                      && r.value == SealedItem(cfg, State(), clock))
    {
      hide CheckpointFits, CheckpointBody, CanCosign, SignedReceipts, AllProofs, Root, Leaves, Attends, Held,
           Cosigners, Moved, CanonicalStreamId, Tree.Stored, Tree.IsTop;
      var root := merkle.Build();
      var seqEnd := batchCount;
      var seqStart := seqEnd - epochCount + 1;
      var ckpt := Checkpoint(cfg.client, cfg.topic, epoch, seqStart, seqEnd, prevAnchor, root, clock(0));
      assert ckpt == NextCheckpoint(cfg, State(), clock);
      var body := SerializeCheckpoint(ckpt);
      if body.Raised? { return Raised; }
      var signature := cfg.c.sign(cfg.publicKey, body.value);
      var issued, receipts := CollectReceipts(cfg, witnesses, ckpt, clock);
      if !issued { return Raised; }
      var proofs := CollectProofs();
      r := Ok(Evidence(ckpt, signature, cfg.publicKey, merkle.records, Some(proofs), None, None,
                       if cfg.arm == A6 then Some(receipts) else None));
    }

    /** `_seal_checkpoint`; on an exception nothing is sealed, though some witnesses may have cosigned. */
    method SealCheckpoint(clock: Clock) returns (ok: bool)
      requires Valid() && merkle.records != []
      modifies this, merkle, witnesses
      ensures Valid() && records == old(records)
      ensures Done(Whole(), ok) == SealLive(cfg, old(Whole()), clock, [])
      ensures if ok then fresh(merkle) else merkle == old(merkle)
    {
      hide Attended, Held, SealedItem, CheckpointFits, NextCheckpoint, SealLive, Tree.Stored, Tree.IsTop;
      WitnessCount();
      SealLiveLeaves(cfg, Whole(), clock, []);
      var evidence := BuildEvidence(clock);
      if evidence.Raised? { return false; }
      StartBatch(evidence.value);
      ok := true;
    }

    lemma WitnessCount()
      requires Valid()
      ensures |witnesses| == |cfg.witnessKeys|
    {}

    /** The end of `_seal_checkpoint`: the evidence is kept, and the next batch starts from its anchor. */
    method StartBatch(evidence: Evidence)
      requires Valid()
      modifies this
      ensures Valid() && records == old(records) && fresh(merkle)
      ensures State() == old(State()).(sealed := old(checkpoints) + [evidence], pending := [])
    {
      hide Attended;
      checkpoints := checkpoints + [evidence];
      prevAnchor := evidence.checkpoint.endAnchor;
      merkle := new Tree.MerkleTree(cfg.c.hash);
      epoch := epoch + 1;
      epochCount := 0;
    }

    /** The part of `add_record` before the seal. */
    method Append(record: Record) returns (ok: bool)
      requires Valid()
      modifies this, merkle
      ensures Valid() && records == old(records) + [record]
      ensures ok <==> Sendable(cfg, old(State()), record)
      ensures State() == Grown(cfg, old(State()), record) && Held(cfg, witnesses) == old(Held(cfg, witnesses))
      ensures merkle == old(merkle) && merkle.tree == old(merkle.tree)
    {
      hide Attended, Held, SealFits, SealedItem, Leaves, Tree.IsTop, Tree.Stored, WireMessage, RecordBytes,
           RecordFits;
      records := records + [record];
      var raw := SerializeRecord(record);
      if raw.Raised? { return false; }
      var message := WireMessage(cfg.c, cfg.macKey, epoch, record.seqNo, raw.value);
      if message.Raised? { return false; }
      wireMessages := wireMessages + [message.value];
      merkle.Append(raw.value);
      batchCount := batchCount + 1;
      epochCount := epochCount + 1;
      ok := true;
    }

    /** `add_record`: envelope, leaf, counters, and a seal when the batch is full; a failed seal leaves the rest. */
    method AddRecord(record: Record, clock: Clock) returns (ok: bool)
      requires Valid()
      modifies this, merkle, witnesses
      ensures Valid() && records == old(records) + [record]
      ensures Done(Whole(), ok) == AddLive(cfg, old(Whole()), record, clock, [])
      ensures fresh(merkle) || merkle == old(merkle)
    {
      hide Grown, Sendable, SealLive, Attended, Held;
      GrownPending(cfg, State(), record);
      UnsentIsUnchanged(cfg, State(), record);
      ok := Append(record);
      if ok && epochCount >= cfg.batchSize {
        ok := SealCheckpoint(clock);
      }
    }

    /** `flush`. */
    method Flush(clock: Clock) returns (ok: bool)
      requires Valid()
      modifies this, merkle, witnesses
      ensures Valid() && records == old(records)
      ensures Done(Whole(), ok) == FlushLive(cfg, old(Whole()), clock, [])
      ensures fresh(merkle) || merkle == old(merkle)
    {
      hide SealLive, Attended, Held;
      ok := true;
      if epochCount > 0 {
        ok := SealCheckpoint(clock);
      }
    }

    method CollectProofs() returns (proofs: seq<Proof>)
      requires merkle.Valid() && merkle.built && merkle.h == cfg.c.hash
      ensures proofs == AllProofs(cfg.c.hash, merkle.records)
    {
      hide InclusionProof, Tree.Stored, Tree.IsTop, Tree.Level;
      proofs := [];
      for i := 0 to |merkle.records|
        invariant |proofs| == i
        invariant forall j :: 0 <= j < i ==>
          proofs[j] == InclusionProof(cfg.c.hash, Leaves(cfg.c.hash, merkle.records), j)
      {
        var proof := merkle.ClimbLevels(i);
        proofs := proofs + [proof];
      }
    }
  }

  // ---- A3 ----

  class ChainArm {
    const cfg: Config
    var records: seq<Record>
    var checkpoints: seq<Evidence>
    var wireMessages: seq<Bytes>
    var prevAnchor: Bytes
    var chain: Chain.HashChain
    var epoch: nat
    var batchCount: nat
    var epochCount: nat

    ghost function State(): ArmState
      reads this, chain
    {
      ArmState(checkpoints, chain.records, batchCount, chain.seed, wireMessages)
    }

    ghost predicate Valid()
      reads this, chain
    {
      && cfg.Supported() && cfg.arm == A3
      && chain.Valid() && chain.h == cfg.c.hash
      && prevAnchor == PrevAnchor(checkpoints) && epoch == |checkpoints| && epochCount == |chain.records|
      && epochCount <= batchCount
    }

    constructor (cfg: Config, seed: Bytes)
      requires cfg.Supported() && cfg.arm == A3
      ensures this.cfg == cfg && Valid() && State() == InitialState(seed) && fresh(chain)
    {
      this.cfg := cfg;
      records, checkpoints, wireMessages := [], [], [];
      prevAnchor, epoch, batchCount, epochCount := ZERO_ANCHOR, 0, 0, 0;
      chain := new Chain.HashChain(cfg.c.hash, seed);
    }

    /** `_seal_checkpoint`; the next chain starts from a fresh random seed. */
    method SealCheckpoint(clock: Clock, nextSeed: Bytes) returns (ok: bool)
      requires Valid() && chain.records != []
      modifies this
      ensures ok <==> Seal(cfg, old(State()), clock, nextSeed).Ok?
      ensures ok ==> Valid() && Seal(cfg, old(State()), clock, nextSeed) == Ok(State()) && fresh(chain)
      ensures !ok ==> Valid() && State() == old(State()) && chain == old(chain)
      ensures records == old(records)
    {
      hide CheckpointFits, CheckpointBody, Chain.Head, Chain.Values;
      var seqEnd := batchCount;
      var seqStart := seqEnd - epochCount + 1;
      var head := chain.CurrentHead();
      var ckpt := Checkpoint(cfg.client, cfg.topic, epoch, seqStart, seqEnd, prevAnchor, head, clock(0));
      assert ckpt == NextCheckpoint(cfg, State(), clock);
      var body := SerializeCheckpoint(ckpt);
      if body.Raised? { return false; }
      var signature := cfg.c.sign(cfg.publicKey, body.value);
      var evidence := Evidence(ckpt, signature, cfg.publicKey, chain.records, None, Some(chain.chain), Some(chain.seed),
                               None);
      checkpoints := checkpoints + [evidence];
      prevAnchor := head;
      chain := new Chain.HashChain(cfg.c.hash, nextSeed);
      epoch := epoch + 1;
      epochCount := 0;
      ok := true;
    }

    /** The part of `add_record` before the seal. */
    method Append(record: Record) returns (ok: bool)
      requires Valid()
      modifies this, chain
      ensures records == old(records) + [record]
      ensures ok <==> Sendable(cfg, old(State()), record)
      ensures Valid() && State() == Grown(cfg, old(State()), record) && chain == old(chain)
    {
      hide Chain.Values, Chain.Head, WireMessage, RecordBytes, RecordFits;
      records := records + [record];
      var raw := SerializeRecord(record);
      if raw.Raised? { return false; }
      var message := WireMessage(cfg.c, cfg.macKey, epoch, record.seqNo, raw.value);
      if message.Raised? { return false; }
      wireMessages := wireMessages + [message.value];
      var _ := chain.Append(raw.value);
      batchCount := batchCount + 1;
      epochCount := epochCount + 1;
      ok := true;
    }

    /** `add_record`; after a failed seal the record stays in the open batch, and the arm goes on. */
    method AddRecord(record: Record, clock: Clock, nextSeed: Bytes) returns (ok: bool)
      requires Valid()
      modifies this, chain
      ensures records == old(records) + [record]
      ensures ok <==> Add(cfg, old(State()), record, clock, nextSeed).Ok?
      ensures Valid() && (ok ==> Add(cfg, old(State()), record, clock, nextSeed) == Ok(State()))
      ensures chain == old(chain) || fresh(chain)
      ensures !ok ==> State() == Grown(cfg, old(State()), record) && chain == old(chain)
    {
      hide Grown, Sendable, Seal;
      GrownPending(cfg, State(), record);
      ok := Append(record);
      if ok && epochCount >= cfg.batchSize {
        ok := SealCheckpoint(clock, nextSeed);
      }
    }

    method Flush(clock: Clock, nextSeed: Bytes) returns (ok: bool)
      requires Valid()
      modifies this
      ensures ok <==> ArmSpec.Flush(cfg, old(State()), clock, nextSeed).Ok?
      ensures Valid() && (ok ==> ArmSpec.Flush(cfg, old(State()), clock, nextSeed) == Ok(State()))
      ensures chain == old(chain) || fresh(chain)
      ensures !ok ==> State() == old(State()) && chain == old(chain)
      ensures records == old(records)
    {
      hide SealFits, SealedItem;
      ok := true;
      if epochCount > 0 {
        ok := SealCheckpoint(clock, nextSeed);
      }
    }
  }

  /** A record that can be sent joins the open batch. */
  lemma GrownPending(cfg: Config, s: ArmState, record: Record)
    ensures Sendable(cfg, s, record) ==> |Grown(cfg, s, record).pending| == |s.pending| + 1
  {
    hide WireMessage, RecordFits, RecordBytes;
  }
}
