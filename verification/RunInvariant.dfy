/** What every run of a checkpoint-signing arm keeps: linked, signed, committed items and conserved records. */
module RunInvariant {
  import opened Prelude
  import opened Bytes
  import opened Text
  import opened Codec
  import opened Merkle
  import HashChain
  import opened Evidence
  import opened ItemAudit
  import opened StreamAudit
  import opened Tiling
  import opened Witness
  import opened ArmSpec

  /** Witness i's receipt about the checkpoint, signed by witness i at some time. */
  ghost predicate GoodReceipt(cfg: Config, ckpt: Checkpoint, i: nat, r: Receipt)
    requires i < |cfg.witnessKeys|
  {
    && r.(signature := []) == Draft(WitnessName(i), cfg.witnessKeys[i], ckpt, r.ts)
    && ReceiptFits(r) && r.signature == cfg.c.sign(cfg.witnessKeys[i], ReceiptBody(r))
  }

  ghost predicate GoodReceipts(cfg: Config, ev: Evidence) {
    if cfg.arm != A6 then ev.receipts == None
    else
      && ev.receipts.Some? && |ev.receipts.value| == |cfg.witnessKeys|
      && forall i :: 0 <= i < |cfg.witnessKeys| ==> GoodReceipt(cfg, ev.checkpoint, i, ev.receipts.value[i])
  }

  /** The end anchor and the proof material of an honestly committed batch. */
  ghost predicate HonestCommitment(cfg: Config, ev: Evidence) {
    if cfg.arm == A3 then
      && ev.chainSeed.Some? && ev.checkpoint.endAnchor == HashChain.Head(cfg.c.hash, ev.chainSeed.value, ev.records)
      && ev.chainValues == Some(HashChain.Values(cfg.c.hash, ev.chainSeed.value, ev.records))
    else
      && ev.records != [] && ev.checkpoint.endAnchor == Root(cfg.c.hash, Leaves(cfg.c.hash, ev.records))
      && ev.proofs == Some(AllProofs(cfg.c.hash, ev.records))
  }

  /** Item number e of the arm, starting at `prev` and at record number `first`. */
  ghost predicate ArmItem(cfg: Config, prev: Bytes, first: int, e: nat, ev: Evidence) {
    var ckpt := ev.checkpoint;
    && ckpt.clientId == cfg.client && ckpt.topic == cfg.topic && ckpt.epoch == e
    && ckpt.prevAnchor == prev && ckpt.seqStart == first && ckpt.seqEnd == first + |ev.records| - 1
    && ev.records != [] && CheckpointFits(ckpt)
    && ev.publicKey == cfg.publicKey && ev.signature == cfg.c.sign(cfg.publicKey, CheckpointBody(ckpt))
    && HonestCommitment(cfg, ev) && GoodReceipts(cfg, ev)
  }

  ghost predicate ItemInPlace(cfg: Config, sealed: seq<Evidence>, e: nat)
    requires e < |sealed|
  {
    ArmItem(cfg, PrevAnchor(sealed[..e]), |AllRecords(sealed[..e])| + 1, e, sealed[e])
  }

  /** The invariant: items in place, and the counter counts every record sealed or pending. */
  ghost predicate Keeps(cfg: Config, s: ArmState) {
    && (forall e :: 0 <= e < |s.sealed| ==> ItemInPlace(cfg, s.sealed, e))
    && s.total == |AllRecords(s.sealed)| + |s.pending|
  }

  /** All records ever added, in order. */
  function Produced(s: ArmState): seq<Bytes> { AllRecords(s.sealed) + s.pending }

  lemma AllRecordsSnoc(sealed: seq<Evidence>, ev: Evidence)
    ensures AllRecords(sealed + [ev]) == AllRecords(sealed) + ev.records
  {
    assert (sealed + [ev])[..|sealed|] == sealed;
  }

  lemma InPlaceSnoc(cfg: Config, sealed: seq<Evidence>, ev: Evidence)
    requires forall e :: 0 <= e < |sealed| ==> ItemInPlace(cfg, sealed, e)
    requires ArmItem(cfg, PrevAnchor(sealed), |AllRecords(sealed)| + 1, |sealed|, ev)
    ensures forall e :: 0 <= e < |sealed| + 1 ==> ItemInPlace(cfg, sealed + [ev], e)
  {
    hide ArmItem;
    var more := sealed + [ev];
    forall e | 0 <= e < |more| ensures ItemInPlace(cfg, more, e) {
      if e < |sealed| {
        assert more[..e] == sealed[..e];
        assert ItemInPlace(cfg, sealed, e);
      } else {
        assert more[..e] == sealed;
      }
    }
  }

  lemma SealedReceiptsAreGood(cfg: Config, s: ArmState, clock: Clock)
    requires cfg.Supported() && s.pending != [] && SealFits(cfg, s, clock)
    ensures GoodReceipts(cfg, SealedItem(cfg, s, clock))
  {
    hide CheckpointFits, CheckpointBody, EndAnchor, AllProofs, StatementFits;
    if cfg.arm == A6 {
      var ev := SealedItem(cfg, s, clock);
      var rs := SignedReceipts(cfg, ev.checkpoint, clock);
      assert ev.receipts == Some(rs);
      forall i | 0 <= i < |cfg.witnessKeys| ensures GoodReceipt(cfg, ev.checkpoint, i, rs[i]) {
        SignedReceiptIsGood(cfg, ev.checkpoint, clock, i);
      }
    }
  }

  lemma SignedReceiptIsGood(cfg: Config, ckpt: Checkpoint, clock: Clock, i: nat)
    requires i < |cfg.witnessKeys| && CanCosign(cfg, ckpt, clock, i)
    ensures GoodReceipt(cfg, ckpt, i, SignedReceipt(cfg, ckpt, clock, i))
  {
    hide StatementFits, WitnessName, StatementFields, CanonicalStreamId;
    var d, r := Draft(WitnessName(i), cfg.witnessKeys[i], ckpt, clock(i + 1)), SignedReceipt(cfg, ckpt, clock, i);
    assert ReceiptStatement(d) == ReceiptStatement(r);
  }

  /** The sealed item stands in its place. */
  lemma SealedIsArmItem(cfg: Config, s: ArmState, clock: Clock)
    requires cfg.Supported() && Keeps(cfg, s) && s.pending != [] && SealFits(cfg, s, clock)
    ensures ArmItem(cfg, PrevAnchor(s.sealed), |AllRecords(s.sealed)| + 1, |s.sealed|, SealedItem(cfg, s, clock))
  {
    hide ItemInPlace, CheckpointFits, CheckpointBody, AllProofs, SignedReceipts, CanCosign, GoodReceipts, PrevAnchor,
         AllRecords, Root, HashChain.Head, HashChain.Values, Leaves;
    SealedReceiptsAreGood(cfg, s, clock);
  }

  /** Sealing appends the item and empties the batch. */
  lemma SealResult(cfg: Config, s: ArmState, clock: Clock, nextSeed: Bytes)
    requires s.pending != [] && Seal(cfg, s, clock, nextSeed).Ok?
    ensures SealFits(cfg, s, clock) && CheckpointFits(NextCheckpoint(cfg, s, clock))
    ensures SealedItem(cfg, s, clock).records == s.pending
    ensures Seal(cfg, s, clock, nextSeed).value
      == s.(sealed := s.sealed + [SealedItem(cfg, s, clock)], pending := [], seed := nextSeed)
  {
    hide CheckpointFits, CheckpointBody, AllProofs, SignedReceipts, CanCosign, EndAnchor, HashChain.Values;
  }

  lemma SealKeeps(cfg: Config, s: ArmState, clock: Clock, nextSeed: Bytes)
    requires cfg.Supported() && Keeps(cfg, s) && s.pending != [] && Seal(cfg, s, clock, nextSeed).Ok?
    ensures var t := Seal(cfg, s, clock, nextSeed).value;
      Keeps(cfg, t) && Produced(t) == Produced(s) && t.pending == []
  {
    hide ItemInPlace, ArmItem, SealFits, SealedItem, Seal, PrevAnchor, AllRecords, CheckpointFits, NextCheckpoint;
    SealResult(cfg, s, clock, nextSeed);
    var ev := SealedItem(cfg, s, clock);
    SealedIsArmItem(cfg, s, clock);
    AllRecordsSnoc(s.sealed, ev);
    InPlaceSnoc(cfg, s.sealed, ev);
  }

  /** Every step keeps the invariant and adds exactly the record it was given. */
  lemma StepKeeps(cfg: Config, s: ArmState, call: Call)
    requires cfg.Supported() && Keeps(cfg, s) && Perform(cfg, s, call).Ok?
    ensures var t := Perform(cfg, s, call).value;
      && Keeps(cfg, t)
      && (call.FlushBatch? ==> Produced(t) == Produced(s) && t.pending == [])
      && (call.AddRecord? ==> Produced(t) == Produced(s) + [RecordBytes(call.record)])
  {
    hide ItemInPlace, WireMessage, SealFits, SealedItem, RecordBytes;
    match call {
      case AddRecord(record, clock, nextSeed) =>
        var raw := RecordBytes(record);
        var message := WireMessage(cfg.c, cfg.macKey, |s.sealed|, record.seqNo, raw);
        var grown := s.(pending := s.pending + [raw], total := s.total + 1, wire := s.wire + [message.value]);
        assert Produced(grown) == Produced(s) + [raw];
        if |grown.pending| >= cfg.batchSize {
          SealKeeps(cfg, grown, clock, nextSeed);
        }
      case FlushBatch(clock, nextSeed) =>
        if s.pending != [] {
          SealKeeps(cfg, s, clock, nextSeed);
        }
    }
  }

  /** The records a run adds, serialised, in call order. */
  function Added(calls: seq<Call>): seq<Record> {
    if calls == [] then []
    else
      var n := |calls| - 1;
      Added(calls[..n]) + if calls[n].AddRecord? then [calls[n].record] else []
  }

  ghost predicate SerializedAre(raws: seq<Bytes>, records: seq<Record>) {
    |raws| == |records| && forall k :: 0 <= k < |raws| ==> SerializeRecord(records[k]) == Ok(raws[k])
  }

  /** The serialised records. */
  function Raws(records: seq<Record>): seq<Bytes> {
    seq(|records|, k requires 0 <= k < |records| => Raw(records[k]))
  }

  /** A step keeps the invariant and adds exactly the record that was sent, exception or not. */
  lemma AnyStepKeeps(cfg: Config, s: ArmState, call: Call, t: ArmState)
    requires cfg.Supported() && Keeps(cfg, s) && Steps(cfg, s, call, t)
    ensures Keeps(cfg, t)
    ensures Produced(t) == Produced(s)
      + if call.AddRecord? && Sendable(cfg, s, call.record) then [RecordBytes(call.record)] else []
  {
    hide ItemInPlace, WireMessage, SealFits, SealedItem, RecordBytes, AllRecords;
    if Perform(cfg, s, call) == Ok(t) {
      StepKeeps(cfg, s, call);
      PerformedIsSendable(cfg, s, call);
      assert Produced(s) + [] == Produced(s);
    } else {
      LeftKeeps(cfg, s, call);
    }
  }

  lemma PerformedIsSendable(cfg: Config, s: ArmState, call: Call)
    requires Perform(cfg, s, call).Ok?
    ensures call.AddRecord? ==> Sendable(cfg, s, call.record)
  {
    hide WireMessage, SealFits, SealedItem, RecordBytes;
  }

  lemma LeftKeeps(cfg: Config, s: ArmState, call: Call)
    requires Keeps(cfg, s)
    ensures Keeps(cfg, Left(cfg, s, call))
    ensures Produced(Left(cfg, s, call)) == Produced(s)
      + if call.AddRecord? && Sendable(cfg, s, call.record) then [RecordBytes(call.record)] else []
  {
    hide ItemInPlace, WireMessage, RecordBytes, AllRecords;
    assert Produced(s) + [] == Produced(s);
    if call.AddRecord? && Sendable(cfg, s, call.record) {
      var raw := RecordBytes(call.record);
      assert AllRecords(s.sealed) + (s.pending + [raw]) == AllRecords(s.sealed) + s.pending + [raw];
    }
  }

  /** Over every run, going on after exceptions or not: the invariant holds, and what was sent is what is there. */
  lemma {:induction false} AnyRunKeeps(cfg: Config, seed: Bytes, calls: seq<Call>, states: seq<ArmState>)
    requires cfg.Supported() && Runs(cfg, seed, calls, states)
    ensures Keeps(cfg, states[|calls|])
    ensures SerializedAre(Produced(states[|calls|]), SentRecords(cfg, calls, states))
  {
    hide Keeps, Steps, Sendable, RecordBytes, RecordFits, Produced;
    if calls == [] {
      NothingKeeps(cfg, seed);
    } else {
      var n := |calls| - 1;
      var front := states[..n + 1];
      assert Runs(cfg, seed, calls[..n], front);
      AnyRunKeeps(cfg, seed, calls[..n], front);
      assert front[n] == states[n];
      AnyStepKeeps(cfg, states[n], calls[n], states[n + 1]);
      if calls[n].AddRecord? && Sendable(cfg, states[n], calls[n].record) {
        SendableSerializes(cfg, states[n], calls[n].record);
      }
    }
  }

  lemma SendableSerializes(cfg: Config, s: ArmState, record: Record)
    requires Sendable(cfg, s, record)
    ensures SerializeRecord(record) == Ok(RecordBytes(record))
  {
    hide WireMessage;
  }

  /**
   * Over every run: the invariant holds, no record is lost, duplicated or reordered between batches, and a run
   * that ends in a flush leaves nothing pending.
   */
  lemma {:induction false} RunKeeps(cfg: Config, seed: Bytes, calls: seq<Call>)
    requires cfg.Supported() && After(cfg, seed, calls).Ok?
    ensures var s := After(cfg, seed, calls).value;
      && Keeps(cfg, s)
      && SerializedAre(Produced(s), Added(calls))
      && (calls != [] && calls[|calls| - 1].FlushBatch? ==> s.pending == [])
  {
    hide Keeps, Perform, RecordBytes, RecordFits;
    if calls == [] {
      NothingKeeps(cfg, seed);
    } else {
      var n := |calls| - 1;
      RunKeeps(cfg, seed, calls[..n]);
      var s := After(cfg, seed, calls[..n]).value;
      StepKeeps(cfg, s, calls[n]);
      if calls[n].AddRecord? {
        StepSerializes(cfg, s, calls[n]);
      }
    }
  }

  /** The states a run without exceptions goes through. */
  function StatesOf(cfg: Config, seed: Bytes, calls: seq<Call>): (states: seq<ArmState>)
    requires After(cfg, seed, calls).Ok?
    ensures |states| == |calls| + 1 && states[|calls|] == After(cfg, seed, calls).value
  {
    if calls == [] then [InitialState(seed)]
    else StatesOf(cfg, seed, calls[..|calls| - 1]) + [After(cfg, seed, calls).value]
  }

  /** It is one of the runs that may go on after exceptions, and everything added was sent. */
  lemma {:induction false} UndisturbedRun(cfg: Config, seed: Bytes, calls: seq<Call>)
    requires After(cfg, seed, calls).Ok?
    ensures Runs(cfg, seed, calls, StatesOf(cfg, seed, calls))
    ensures SentRecords(cfg, calls, StatesOf(cfg, seed, calls)) == Added(calls)
  {
    hide Perform, Sendable, Left;
    if calls != [] {
      var n := |calls| - 1;
      var states, front := StatesOf(cfg, seed, calls), StatesOf(cfg, seed, calls[..n]);
      UndisturbedRun(cfg, seed, calls[..n]);
      assert states[..n + 1] == front;
      forall k | 0 <= k < |calls| ensures Steps(cfg, states[k], calls[k], states[k + 1]) {
        if k < n {
          assert Steps(cfg, front[k], calls[..n][k], front[k + 1]);
        }
      }
      PerformedIsSendable(cfg, states[n], calls[n]);
    }
  }

  lemma NothingKeeps(cfg: Config, seed: Bytes)
    ensures Keeps(cfg, InitialState(seed)) && Produced(InitialState(seed)) == []
  {}

  lemma StepSerializes(cfg: Config, s: ArmState, call: Call)
    requires call.AddRecord? && Perform(cfg, s, call).Ok?
    ensures SerializeRecord(call.record) == Ok(RecordBytes(call.record))
  {
    hide WireMessage, SealFits, SealedItem;
  }

  lemma {:induction false} InOrderNumbers(cfg: Config, calls: seq<Call>)
    requires InOrder(cfg, calls)
    ensures |Added(calls)| == CountAdds(calls)
    ensures forall k :: 0 <= k < |Added(calls)| ==>
      Added(calls)[k].seqNo == k + 1 && Added(calls)[k].topic == cfg.topic
  {
    if calls != [] {
      var n := |calls| - 1;
      forall k | 0 <= k < n ensures calls[..n][k] == calls[k] && calls[..n][..k] == calls[..k] {}
      InOrderNumbers(cfg, calls[..n]);
    }
  }

  /** Only disciplined calls add records so numbered. */
  lemma {:induction false} NumbersInOrder(cfg: Config, calls: seq<Call>)
    requires forall k :: 0 <= k < |Added(calls)| ==>
      Added(calls)[k].seqNo == k + 1 && Added(calls)[k].topic == cfg.topic
    ensures InOrder(cfg, calls) && |Added(calls)| == CountAdds(calls)
  {
    if calls != [] {
      var n := |calls| - 1;
      assert forall k :: 0 <= k < |Added(calls[..n])| ==> Added(calls[..n])[k] == Added(calls)[k];
      NumbersInOrder(cfg, calls[..n]);
      if calls[n].AddRecord? {
        assert Added(calls)[|Added(calls[..n])|] == calls[n].record;
      }
      hide Added, CountAdds;
      InOrderSnoc(cfg, calls);
    }
  }

  lemma InOrderSnoc(cfg: Config, calls: seq<Call>)
    requires calls != [] && InOrder(cfg, calls[..|calls| - 1])
    requires var n := |calls| - 1;
      calls[n].AddRecord? ==>
        calls[n].record.seqNo == CountAdds(calls[..n]) + 1 && calls[n].record.topic == cfg.topic
    ensures InOrder(cfg, calls)
  {
    hide CountAdds;
    var n := |calls| - 1;
    forall k | 0 <= k < |calls| && calls[k].AddRecord?
      ensures calls[k].record.seqNo == CountAdds(calls[..k]) + 1 && calls[k].record.topic == cfg.topic
    {
      if k < n {
        assert calls[..n][k] == calls[k] && calls[..n][..k] == calls[..k];
      }
    }
  }

  /** A disciplined run produces records numbered 1, 2, 3, ... on the arm's topic. */
  lemma RunIsNumbered(cfg: Config, seed: Bytes, calls: seq<Call>)
    requires cfg.Supported() && After(cfg, seed, calls).Ok? && InOrder(cfg, calls)
    ensures Numbered(Produced(After(cfg, seed, calls).value), 1, cfg.topic)
  {
    hide After, Keeps, RecordBytes, RecordFits, InOrder;
    RunKeeps(cfg, seed, calls);
    InOrderNumbers(cfg, calls);
    var raws, records := Produced(After(cfg, seed, calls).value), Added(calls);
    forall k | 0 <= k < |raws| ensures IsNumber(raws[k], 1 + k, cfg.topic) {
      SerializedIsDecoded(records[k], raws[k]);
    }
  }

  lemma SerializedIsDecoded(r: Record, raw: Bytes)
    requires SerializeRecord(r) == Ok(raw)
    ensures DecodedRecord(raw) == Some(r)
  {
    RecordRoundTrip(r);
  }
}
