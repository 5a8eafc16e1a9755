/** When a batch is full: how many records every sealed item holds, and under which epoch each message is sent. */
module Batches {
  import opened Prelude
  import opened Bytes
  import opened Codec
  import opened Evidence
  import opened WireVerifier
  import opened ArmSpec
  import opened RunInvariant
  import opened WireRuns

  /** A full batch; an arm created with a size below one seals every record by itself. */
  function BatchOf(cfg: Config): (n: int)
    ensures n >= 1 && (cfg.batchSize >= 1 ==> n == cfg.batchSize)
  {
    Max(1, cfg.batchSize)
  }

  /** The open batch is not full, and no sealed one is empty or overfull. */
  predicate BatchesFit(cfg: Config, s: ArmState) {
    && |s.pending| < BatchOf(cfg)
    && forall e :: 0 <= e < |s.sealed| ==> 1 <= |s.sealed[e].records| <= BatchOf(cfg)
  }

  /** An add seals exactly when it completes the batch; a flush seals whatever is open. */
  lemma StepBatches(cfg: Config, s: ArmState, call: Call)
    requires Perform(cfg, s, call).Ok? && |s.pending| < BatchOf(cfg)
    ensures var t, full := Perform(cfg, s, call).value, |s.pending| + 1 == BatchOf(cfg);
      && (call.AddRecord? && !full ==> t.sealed == s.sealed && |t.pending| == |s.pending| + 1)
      && (call.AddRecord? && full ==>
            && t.pending == [] && |t.sealed| == |s.sealed| + 1 && t.sealed[..|s.sealed|] == s.sealed
            && |t.sealed[|s.sealed|].records| == |s.pending| + 1)
      && (call.FlushBatch? && s.pending == [] ==> t == s)
      && (call.FlushBatch? && s.pending != [] ==>
            && t.pending == [] && |t.sealed| == |s.sealed| + 1 && t.sealed[..|s.sealed|] == s.sealed
            && |t.sealed[|s.sealed|].records| == |s.pending|)
  {
    hide WireMessage, RecordBytes, RecordFits, Seal;
    match call {
      case AddRecord(record, clock, nextSeed) =>
        var grown := Grown(cfg, s, record);
        if Seal(cfg, grown, clock, nextSeed).Ok? {
          SealResult(cfg, grown, clock, nextSeed);
        }
      case FlushBatch(clock, nextSeed) =>
        if s.pending != [] {
          SealResult(cfg, s, clock, nextSeed);
        }
    }
  }

  /** Over every run: fewer records than a batch are open, and every sealed item holds one to N records. */
  lemma {:induction false} RunBatches(cfg: Config, seed: Bytes, calls: seq<Call>)
    requires After(cfg, seed, calls).Ok?
    ensures var s, n := After(cfg, seed, calls).value, Max(1, cfg.batchSize);
      && |s.pending| < n && forall e :: 0 <= e < |s.sealed| ==> 1 <= |s.sealed[e].records| <= n
  {
    hide Perform;
    if calls != [] {
      RunBatches(cfg, seed, calls[..|calls| - 1]);
      StepBatches(cfg, After(cfg, seed, calls[..|calls| - 1]).value, calls[|calls| - 1]);
    }
  }

  predicate OnlyAdds(calls: seq<Call>) { forall k :: 0 <= k < |calls| ==> calls[k].AddRecord? }

  /** Without flushes, every sealed item is full and the remainder is open. */
  predicate FullBatches(cfg: Config, s: ArmState, adds: nat) {
    var n := BatchOf(cfg);
    && adds == n * |s.sealed| + |s.pending| && |s.pending| < n
    && forall e :: 0 <= e < |s.sealed| ==> |s.sealed[e].records| == n
  }

  lemma OneMoreFull(cfg: Config, s: ArmState, t: ArmState, adds: nat)
    requires FullBatches(cfg, s, adds)
    requires if |s.pending| + 1 == BatchOf(cfg)
             then && t.pending == [] && |t.sealed| == |s.sealed| + 1 && t.sealed[..|s.sealed|] == s.sealed
                  && |t.sealed[|s.sealed|].records| == |s.pending| + 1
             else t.sealed == s.sealed && |t.pending| == |s.pending| + 1
    ensures FullBatches(cfg, t, adds + 1)
  {
    var n, m := BatchOf(cfg), |s.sealed|;
    if |s.pending| + 1 == n {
      assert n * (m + 1) == n * m + n;
      forall e | 0 <= e < |t.sealed| ensures |t.sealed[e].records| == n {
        assert e < m ==> t.sealed[e] == t.sealed[..m][e];
      }
    }
  }

  lemma {:induction false} AddsFill(cfg: Config, seed: Bytes, calls: seq<Call>)
    requires After(cfg, seed, calls).Ok? && OnlyAdds(calls)
    ensures FullBatches(cfg, After(cfg, seed, calls).value, |calls|) && CountAdds(calls) == |calls|
  {
    hide Perform, BatchOf;
    if calls == [] {
      assert BatchOf(cfg) >= 1;
    } else {
      var k := |calls| - 1;
      assert forall i :: 0 <= i < k ==> calls[..k][i] == calls[i];
      AddsFill(cfg, seed, calls[..k]);
      var s := After(cfg, seed, calls[..k]).value;
      StepBatches(cfg, s, calls[k]);
      OneMoreFull(cfg, s, After(cfg, seed, calls).value, k);
    }
  }

  /**
   * In a run of adds only, with N = max(1, batch size): every sealed item holds exactly N records, there is one for
   * every N records added, and the rest is open.
   */
  lemma AddsAreBatched(cfg: Config, seed: Bytes, calls: seq<Call>)
    requires After(cfg, seed, calls).Ok? && OnlyAdds(calls)
    ensures BatchOf(cfg) == Max(1, cfg.batchSize)
    ensures var s, n := After(cfg, seed, calls).value, Max(1, cfg.batchSize);
      && |s.sealed| == CountAdds(calls) / n && |s.pending| == CountAdds(calls) % n
      && forall e :: 0 <= e < |s.sealed| ==> |s.sealed[e].records| == n
  {
    hide After, CountAdds;
    AddsFill(cfg, seed, calls);
    var s := After(cfg, seed, calls).value;
    QuotientOf(|s.sealed|, BatchOf(cfg), |s.pending|);
  }

  /** And record k travels under epoch k / N. */
  lemma {:induction false} AddsAreSentInEpochs(cfg: Config, seed: Bytes, calls: seq<Call>)
    requires After(cfg, seed, calls).Ok? && OnlyAdds(calls)
    ensures |Outbox(cfg, seed, calls)| == |calls|
    ensures forall k :: 0 <= k < |calls| ==>
      Outbox(cfg, seed, calls)[k].epoch == k / BatchOf(cfg) && Outbox(cfg, seed, calls)[k].record == calls[k].record
  {
    hide Perform, After, CountAdds, BatchOf, OnlyAdds;
    if calls != [] {
      var n := |calls| - 1;
      FrontOfAdds(cfg, seed, calls);
      AddsAreSentInEpochs(cfg, seed, calls[..n]);
      AddsAreBatched(cfg, seed, calls[..n]);
      AddsAreCounted(calls[..n]);
    }
  }

  lemma FrontOfAdds(cfg: Config, seed: Bytes, calls: seq<Call>)
    requires After(cfg, seed, calls).Ok? && OnlyAdds(calls) && calls != []
    ensures After(cfg, seed, calls[..|calls| - 1]).Ok? && OnlyAdds(calls[..|calls| - 1])
    ensures calls[|calls| - 1].AddRecord?
    ensures forall i :: 0 <= i < |calls| - 1 ==> calls[..|calls| - 1][i] == calls[i]
  {
    hide Perform;
    assert forall i :: 0 <= i < |calls| - 1 ==> calls[..|calls| - 1][i] == calls[i];
  }

  lemma {:induction false} AddsAreCounted(calls: seq<Call>)
    requires OnlyAdds(calls)
    ensures CountAdds(calls) == |calls|
  {
    if calls != [] {
      assert forall i :: 0 <= i < |calls| - 1 ==> calls[..|calls| - 1][i] == calls[i];
      AddsAreCounted(calls[..|calls| - 1]);
    }
  }

  /** So wire message k of such a run carries epoch k / N and the number of record k. */
  lemma MessagesOfAdds(cfg: Config, seed: Bytes, calls: seq<Call>, k: nat)
    requires After(cfg, seed, calls).Ok? && OnlyAdds(calls) && k < |calls|
    ensures |After(cfg, seed, calls).value.wire| == |calls|
    ensures IdentityOf(After(cfg, seed, calls).value.wire[k]) == (k / Max(1, cfg.batchSize), calls[k].record.seqNo)
  {
    hide CountAdds, After, IsMessage, Outbox, Authentic, IdentityOf;
    RunSends(cfg, seed, calls);
    AddsAreSentInEpochs(cfg, seed, calls);
    MessageIsAuthentic(cfg, None, Outbox(cfg, seed, calls)[k], After(cfg, seed, calls).value.wire[k]);
  }

  // ---- What the sealing call contributes ----

  /** The calls of a run that sealed something, in order. */
  function SealCalls(cfg: Config, seed: Bytes, calls: seq<Call>): seq<Call>
    requires After(cfg, seed, calls).Ok?
  {
    if calls == [] then []
    else
      var n := |calls| - 1;
      SealCalls(cfg, seed, calls[..n])
      + if |After(cfg, seed, calls).value.sealed| > |After(cfg, seed, calls[..n]).value.sealed| then [calls[n]] else []
  }

  /** A sealing call dates the checkpoint and gives the next chain its seed; the sealed chain keeps the seed it had. */
  lemma SealedByCall(cfg: Config, s: ArmState, call: Call)
    requires Perform(cfg, s, call).Ok?
    ensures var t := Perform(cfg, s, call).value;
      if t.sealed == s.sealed then t.seed == s.seed
      else
        && |t.sealed| == |s.sealed| + 1 && t.sealed[..|s.sealed|] == s.sealed && t.seed == call.nextSeed
        && t.sealed[|s.sealed|].checkpoint.ts == call.clock(0)
        && (cfg.arm == A3 ==> t.sealed[|s.sealed|].chainSeed == Some(s.seed))
        && (cfg.arm == A6 ==> Cosigned(cfg, call.clock, t.sealed[|s.sealed|]))
  {
    hide WireMessage, RecordBytes, RecordFits, CheckpointFits, CheckpointBody, EndAnchor, AllProofs, ReceiptFits,
         ReceiptBody;
  }

  /** One receipt of each witness, in order, each with the next reading of the clock. */
  predicate Cosigned(cfg: Config, clock: Clock, ev: Evidence) {
    && ev.receipts.Some? && |ev.receipts.value| == |cfg.witnessKeys|
    && forall i :: 0 <= i < |cfg.witnessKeys| ==>
         var r := ev.receipts.value[i];
         r.witnessId == WitnessName(i) && r.publicKey == cfg.witnessKeys[i] && r.ts == clock(i + 1)
  }

  /** Item e carries the time of the call that sealed it, and a chain the seed drawn at the seal before. */
  predicate SealedBy(cfg: Config, seed: Bytes, seals: seq<Call>, s: ArmState) {
    && |seals| == |s.sealed| && s.seed == SeedAfter(seed, seals, |seals|)
    && forall e :: 0 <= e < |seals| ==> Dated(cfg, seed, seals, s.sealed[e], e)
  }

  predicate Dated(cfg: Config, seed: Bytes, seals: seq<Call>, ev: Evidence, e: nat)
    requires e < |seals|
  {
    && ev.checkpoint.ts == seals[e].clock(0) && (cfg.arm == A3 ==> ev.chainSeed == Some(SeedAfter(seed, seals, e)))
    && (cfg.arm == A6 ==> Cosigned(cfg, seals[e].clock, ev))
  }

  /** The seed in use after e seals. */
  function SeedAfter(seed: Bytes, seals: seq<Call>, e: nat): Bytes
    requires e <= |seals|
  {
    if e == 0 then seed else seals[e - 1].nextSeed
  }

  lemma SealedBySnoc(cfg: Config, seed: Bytes, seals: seq<Call>, s: ArmState, t: ArmState, call: Call)
    requires SealedBy(cfg, seed, seals, s)
    requires |t.sealed| == |s.sealed| + 1 && t.sealed[..|s.sealed|] == s.sealed && t.seed == call.nextSeed
    requires t.sealed[|s.sealed|].checkpoint.ts == call.clock(0)
    requires cfg.arm == A3 ==> t.sealed[|s.sealed|].chainSeed == Some(s.seed)
    requires cfg.arm == A6 ==> Cosigned(cfg, call.clock, t.sealed[|s.sealed|])
    ensures SealedBy(cfg, seed, seals + [call], t)
  {
    hide Cosigned;
    var more := seals + [call];
    forall e | 0 <= e < |more| ensures Dated(cfg, seed, more, t.sealed[e], e) {
      if e < |seals| {
        assert Dated(cfg, seed, seals, s.sealed[e], e) && t.sealed[e] == s.sealed[e];
        StillDated(cfg, seed, seals, call, s.sealed[e], e);
      }
    }
  }

  lemma StillDated(cfg: Config, seed: Bytes, seals: seq<Call>, call: Call, ev: Evidence, e: nat)
    requires e < |seals| && Dated(cfg, seed, seals, ev, e)
    ensures Dated(cfg, seed, seals + [call], ev, e)
  {
    hide Cosigned;
  }

  lemma {:induction false} RunIsSealedBy(cfg: Config, seed: Bytes, calls: seq<Call>)
    requires After(cfg, seed, calls).Ok?
    ensures SealedBy(cfg, seed, SealCalls(cfg, seed, calls), After(cfg, seed, calls).value)
  {
    hide Perform, SealedBy, Cosigned;
    if calls == [] {
      NothingSealedBy(cfg, seed);
    } else {
      var n := |calls| - 1;
      RunIsSealedBy(cfg, seed, calls[..n]);
      var s, t := After(cfg, seed, calls[..n]).value, After(cfg, seed, calls).value;
      SealedByCall(cfg, s, calls[n]);
      var seals := SealCalls(cfg, seed, calls[..n]);
      if t.sealed == s.sealed {
        assert SealCalls(cfg, seed, calls) == seals;
        StillSealedBy(cfg, seed, seals, s, t);
      } else {
        SealedBySnoc(cfg, seed, seals, s, t, calls[n]);
      }
    }
  }

  lemma NothingSealedBy(cfg: Config, seed: Bytes)
    ensures SealedBy(cfg, seed, [], InitialState(seed))
  {}

  lemma StillSealedBy(cfg: Config, seed: Bytes, seals: seq<Call>, s: ArmState, t: ArmState)
    requires SealedBy(cfg, seed, seals, s) && t.sealed == s.sealed && t.seed == s.seed
    ensures SealedBy(cfg, seed, seals, t)
  {}

  /**
   * Over every run: item e carries the clock reading of the call that sealed it, an A3 chain starts from the arm's
   * first seed, then from the one drawn at each seal, and A6 receipts follow in order, each with the next reading.
   */
  lemma RunIsDated(cfg: Config, seed: Bytes, calls: seq<Call>, e: nat)
    requires After(cfg, seed, calls).Ok? && e < |After(cfg, seed, calls).value.sealed|
    ensures var sealed, seals := After(cfg, seed, calls).value.sealed, SealCalls(cfg, seed, calls);
      && |seals| == |sealed| && sealed[e].checkpoint.ts == seals[e].clock(0)
      && (cfg.arm == A3 ==> sealed[e].chainSeed == Some(if e == 0 then seed else seals[e - 1].nextSeed))
      && (cfg.arm == A6 ==> Cosigned(cfg, seals[e].clock, sealed[e]))
  {
    hide After, SealCalls, Cosigned;
    RunIsSealedBy(cfg, seed, calls);
    assert Dated(cfg, seed, SealCalls(cfg, seed, calls), After(cfg, seed, calls).value.sealed[e], e);
  }
}
