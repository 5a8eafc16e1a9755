/** An arm together with its witnesses, exceptions included: what each call does whatever the witnesses hold. */
module LiveArm {
  import opened Prelude
  import opened Bytes
  import opened Crypto
  import opened Codec
  import opened ArmSpec

  /** The arm, and the anchor each of its witnesses last cosigned for the arm's stream. */
  datatype Live = Live(arm: ArmState, held: seq<Bytes>)

  /** Witness i grants the checkpoint: it extends what the witness holds, and the statement serialises. */
  predicate Willing(cfg: Config, ckpt: Checkpoint, clock: Clock, held: seq<Bytes>, i: nat)
    requires i < |held| == |cfg.witnessKeys|
  {
    held[i] == ckpt.prevAnchor && CanCosign(cfg, ckpt, clock, i)
  }

  /** The witnesses are asked in order, up to the first that refuses: where it stands, counting from i. */
  function Cosigners(cfg: Config, ckpt: Checkpoint, clock: Clock, held: seq<Bytes>, i: nat): (k: nat)
    requires i <= |held| == |cfg.witnessKeys|
    ensures i <= k <= |held|
    ensures forall j :: i <= j < k ==> Willing(cfg, ckpt, clock, held, j)
    ensures k < |held| ==> !Willing(cfg, ckpt, clock, held, k)
    decreases |held| - i
  {
    if i < |held| && Willing(cfg, ckpt, clock, held, i) then Cosigners(cfg, ckpt, clock, held, i + 1) else i
  }

  /** Those before k have moved on. */
  function Moved(held: seq<Bytes>, anchor: Bytes, k: nat): seq<Bytes> {
    seq(|held|, i requires 0 <= i < |held| => if i < k then anchor else held[i])
  }

  /** A call, and whether it ended without an exception. */
  datatype Done = Done(after: Live, ok: bool)

  /** `_seal_checkpoint`: a refusing witness stops the seal, but those asked before it have cosigned. */
  function SealLive(cfg: Config, v: Live, clock: Clock, nextSeed: Bytes): Done
    requires v.arm.pending != [] && |v.held| == |cfg.witnessKeys|
  {
    var ckpt := NextCheckpoint(cfg, v.arm, clock);
    if !CheckpointFits(ckpt) then Done(v, false)
    else
      var k := Cosigners(cfg, ckpt, clock, v.held, 0);
      var held := Moved(v.held, ckpt.endAnchor, k);
      if k < |v.held| then Done(Live(v.arm, held), false)
      else
        var sealed := v.arm.sealed + [SealedItem(cfg, v.arm, clock)];
        Done(Live(v.arm.(sealed := sealed, pending := [], seed := nextSeed), held), true)
  }

  function AddLive(cfg: Config, v: Live, record: Record, clock: Clock, nextSeed: Bytes): Done
    requires |v.held| == |cfg.witnessKeys|
  {
    var grown := Grown(cfg, v.arm, record);
    if !Sendable(cfg, v.arm, record) then Done(v, false)
    else if |grown.pending| >= cfg.batchSize then SealLive(cfg, v.(arm := grown), clock, nextSeed)
    else Done(v.(arm := grown), true)
  }

  function FlushLive(cfg: Config, v: Live, clock: Clock, nextSeed: Bytes): Done
    requires |v.held| == |cfg.witnessKeys|
  {
    if v.arm.pending == [] then Done(v, true) else SealLive(cfg, v, clock, nextSeed)
  }

  function PerformLive(cfg: Config, v: Live, call: Call): (d: Done)
    requires |v.held| == |cfg.witnessKeys|
    ensures |d.after.held| == |v.held|
  {
    match call
    case AddRecord(record, clock, nextSeed) => AddLive(cfg, v, record, clock, nextSeed)
    case FlushBatch(clock, nextSeed) => FlushLive(cfg, v, clock, nextSeed)
  }

  /** What a seal leaves: the sealed item appended and the batch empty, or the arm as it was. */
  lemma SealLiveLeaves(cfg: Config, v: Live, clock: Clock, nextSeed: Bytes)
    requires v.arm.pending != [] && |v.held| == |cfg.witnessKeys|
    ensures var d := SealLive(cfg, v, clock, nextSeed);
      && (d.ok ==> CheckpointFits(NextCheckpoint(cfg, v.arm, clock)))
      && d.after.arm == if d.ok then v.arm.(sealed := v.arm.sealed + [SealedItem(cfg, v.arm, clock)], pending := [],
                                            seed := nextSeed)
                        else v.arm
  {
    hide CheckpointFits, SealedItem, NextCheckpoint, Cosigners;
  }

  // ---- Against the arm alone ----

  lemma SealLiveCases(cfg: Config, v: Live, clock: Clock, nextSeed: Bytes)
    requires v.arm.pending != [] && |v.held| == |cfg.witnessKeys|
    ensures var d := SealLive(cfg, v, clock, nextSeed);
      && (d.ok ==> Seal(cfg, v.arm, clock, nextSeed) == Ok(d.after.arm))
      && (!d.ok ==> d.after.arm == v.arm)
  {
    hide CheckpointFits, CanCosign, SealedItem, NextCheckpoint;
    AllWilling(cfg, NextCheckpoint(cfg, v.arm, clock), clock, v.held);
  }

  /** If all witnesses cosign, the checkpoint's statement serialises for each of them. */
  lemma AllWilling(cfg: Config, ckpt: Checkpoint, clock: Clock, held: seq<Bytes>)
    requires |held| == |cfg.witnessKeys|
    ensures Cosigners(cfg, ckpt, clock, held, 0) == |held| <==>
      forall i :: 0 <= i < |held| ==> held[i] == ckpt.prevAnchor && CanCosign(cfg, ckpt, clock, i)
  {
    hide CanCosign;
    assert forall i :: 0 <= i < |held| ==>
      (Willing(cfg, ckpt, clock, held, i) <==> held[i] == ckpt.prevAnchor && CanCosign(cfg, ckpt, clock, i));
  }

  lemma GrownIsPending(cfg: Config, s: ArmState, record: Record)
    ensures Sendable(cfg, s, record) ==> Grown(cfg, s, record).pending != []
  {
    hide WireMessage;
  }

  /** Whatever the witnesses hold, a call is a step of the arm: it succeeds, or it leaves all but the seal. */
  lemma LiveSteps(cfg: Config, v: Live, call: Call)
    requires |v.held| == |cfg.witnessKeys|
    ensures var d := PerformLive(cfg, v, call);
      && Steps(cfg, v.arm, call, d.after.arm)
      && (d.ok ==> Perform(cfg, v.arm, call) == Ok(d.after.arm))
      && (!d.ok ==> d.after.arm == Left(cfg, v.arm, call))
  {
    hide Seal, SealLive, Sendable, Grown;
    match call {
      case AddRecord(record, clock, nextSeed) =>
        GrownIsPending(cfg, v.arm, record);
        var grown := v.(arm := Grown(cfg, v.arm, record));
        if grown.arm.pending != [] {
          SealLiveCases(cfg, grown, clock, nextSeed);
        }
        UnsentIsUnchanged(cfg, v.arm, record);
      case FlushBatch(clock, nextSeed) =>
        if v.arm.pending != [] {
          SealLiveCases(cfg, v, clock, nextSeed);
        }
    }
  }

  lemma UnsentIsUnchanged(cfg: Config, s: ArmState, record: Record)
    ensures !Sendable(cfg, s, record) ==> Grown(cfg, s, record) == s
  {
    hide Sendable;
  }

  // ---- Lockstep ----

  /** Every witness holds the arm's previous anchor. */
  predicate InStep(v: Live) {
    forall i :: 0 <= i < |v.held| ==> v.held[i] == PrevAnchor(v.arm.sealed)
  }

  /** In lockstep no witness refuses what serialises, and a successful call keeps them in lockstep. */
  lemma LockstepSeals(cfg: Config, v: Live, clock: Clock, nextSeed: Bytes)
    requires v.arm.pending != [] && |v.held| == |cfg.witnessKeys| && InStep(v)
    ensures var d := SealLive(cfg, v, clock, nextSeed);
      && (d.ok <==> Seal(cfg, v.arm, clock, nextSeed).Ok?)
      && (d.ok ==> InStep(d.after))
  {
    hide CheckpointFits, CanCosign, EndAnchor, SealedItem;
    var ckpt := NextCheckpoint(cfg, v.arm, clock);
    AllWilling(cfg, ckpt, clock, v.held);
    if CheckpointFits(ckpt) {
      SealedCheckpoint(cfg, v.arm, clock);
    }
  }

  lemma SealedCheckpoint(cfg: Config, s: ArmState, clock: Clock)
    requires s.pending != [] && CheckpointFits(NextCheckpoint(cfg, s, clock))
    ensures SealedItem(cfg, s, clock).checkpoint == NextCheckpoint(cfg, s, clock)
  {
    hide CheckpointFits;
  }

  lemma LockstepPerforms(cfg: Config, v: Live, call: Call)
    requires |v.held| == |cfg.witnessKeys| && InStep(v)
    ensures var d := PerformLive(cfg, v, call);
      && (d.ok <==> Perform(cfg, v.arm, call).Ok?)
      && (d.ok ==> Perform(cfg, v.arm, call) == Ok(d.after.arm) && InStep(d.after))
  {
    hide SealLive, Seal, Sendable, PrevAnchor;
    LiveSteps(cfg, v, call);
    match call {
      case AddRecord(record, clock, nextSeed) =>
        GrownIsPending(cfg, v.arm, record);
        if Sendable(cfg, v.arm, record) {
          LockstepSeals(cfg, v.(arm := Grown(cfg, v.arm, record)), clock, nextSeed);
        }
      case FlushBatch(clock, nextSeed) =>
        if v.arm.pending != [] {
          LockstepSeals(cfg, v, clock, nextSeed);
        }
    }
  }

  // ---- Whole runs ----

  function InitialLive(cfg: Config, seed: Bytes): Live {
    Live(InitialState(seed), seq(|cfg.witnessKeys|, i => ZERO_ANCHOR))
  }

  /** The live arm before each call, and at the end, whatever raised in between. */
  function LiveRun(cfg: Config, seed: Bytes, calls: seq<Call>): (vs: seq<Live>)
    ensures |vs| == |calls| + 1 && forall k :: 0 <= k < |vs| ==> |vs[k].held| == |cfg.witnessKeys|
  {
    if calls == [] then [InitialLive(cfg, seed)]
    else
      var n := |calls| - 1;
      var front := LiveRun(cfg, seed, calls[..n]);
      front + [PerformLive(cfg, front[n], calls[n]).after]
  }

  function ArmsOf(vs: seq<Live>): seq<ArmState> {
    seq(|vs|, k requires 0 <= k < |vs| => vs[k].arm)
  }

  /** Every run of the live arm is one of the runs that soundness speaks of. */
  lemma {:induction false} LiveRunIsRun(cfg: Config, seed: Bytes, calls: seq<Call>)
    ensures Runs(cfg, seed, calls, ArmsOf(LiveRun(cfg, seed, calls)))
  {
    hide PerformLive, Steps;
    var states := ArmsOf(LiveRun(cfg, seed, calls));
    if calls != [] {
      var n := |calls| - 1;
      var front := LiveRun(cfg, seed, calls[..n]);
      LiveRunIsRun(cfg, seed, calls[..n]);
      forall k | 0 <= k < |calls| ensures Steps(cfg, states[k], calls[k], states[k + 1]) {
        if k < n {
          assert Steps(cfg, ArmsOf(front)[k], calls[..n][k], ArmsOf(front)[k + 1]);
        } else {
          LiveSteps(cfg, front[n], calls[n]);
        }
      }
    }
  }

  /** A run without exceptions is the arm's run, its witnesses in lockstep throughout. */
  lemma {:induction false} UndisturbedIsInStep(cfg: Config, seed: Bytes, calls: seq<Call>)
    requires After(cfg, seed, calls).Ok?
    ensures var v := LiveRun(cfg, seed, calls)[|calls|]; v.arm == After(cfg, seed, calls).value && InStep(v)
  {
    hide PerformLive, Perform;
    if calls != [] {
      var n := |calls| - 1;
      UndisturbedIsInStep(cfg, seed, calls[..n]);
      LockstepPerforms(cfg, LiveRun(cfg, seed, calls[..n])[n], calls[n]);
    }
  }

  // ---- A witness that has moved on ----

  /** Witness i does not hold the arm's previous anchor. */
  predicate Ahead(v: Live, i: nat) {
    i < |v.held| && v.held[i] != PrevAnchor(v.arm.sealed)
  }

  lemma AheadRefuses(cfg: Config, v: Live, clock: Clock, nextSeed: Bytes, i: nat)
    requires v.arm.pending != [] && |v.held| == |cfg.witnessKeys| && Ahead(v, i)
    ensures var d := SealLive(cfg, v, clock, nextSeed); !d.ok && d.after.arm == v.arm && d.after.held[i] == v.held[i]
  {
    hide CheckpointFits, CanCosign, EndAnchor, SealedItem;
    var ckpt := NextCheckpoint(cfg, v.arm, clock);
    assert !Willing(cfg, ckpt, clock, v.held, i);
  }

  /**
   * An arm one of whose witnesses has moved on never seals again: a partial failure is for good, whatever is called
   * afterwards. Records still join the open batch, and every flush of them raises.
   */
  lemma AheadForGood(cfg: Config, v: Live, call: Call, i: nat)
    requires |v.held| == |cfg.witnessKeys| && Ahead(v, i)
    ensures var d := PerformLive(cfg, v, call);
      && d.after.arm.sealed == v.arm.sealed && d.after.held[i] == v.held[i] && Ahead(d.after, i)
      && (call.FlushBatch? ==> (d.ok <==> v.arm.pending == []))
  {
    hide SealLive, Sendable, PrevAnchor;
    match call {
      case AddRecord(record, clock, nextSeed) =>
        GrownKeepsSealed(cfg, v.arm, record);
        var grown := v.(arm := Grown(cfg, v.arm, record));
        if grown.arm.pending != [] {
          AheadRefuses(cfg, grown, clock, nextSeed, i);
        }
      case FlushBatch(clock, nextSeed) =>
        if v.arm.pending != [] {
          AheadRefuses(cfg, v, clock, nextSeed, i);
        }
    }
  }

  lemma GrownKeepsSealed(cfg: Config, s: ArmState, record: Record)
    ensures Grown(cfg, s, record).sealed == s.sealed
  {
    hide Sendable, WireMessage;
  }

  /** So over the rest of any run nothing more is sealed. */
  lemma {:induction false} NothingMoreIsSealed(cfg: Config, seed: Bytes, calls: seq<Call>, m: nat, i: nat)
    requires m <= |calls| && Ahead(LiveRun(cfg, seed, calls[..m])[m], i)
    ensures var v, w := LiveRun(cfg, seed, calls[..m])[m], LiveRun(cfg, seed, calls)[|calls|];
      w.arm.sealed == v.arm.sealed && Ahead(w, i)
  {
    hide PerformLive, Ahead;
    if m < |calls| {
      var n := |calls| - 1;
      assert calls[..n][..m] == calls[..m];
      NothingMoreIsSealed(cfg, seed, calls[..n], m, i);
      AheadIsIndex(LiveRun(cfg, seed, calls[..n])[n], i);
      AheadForGood(cfg, LiveRun(cfg, seed, calls[..n])[n], calls[n], i);
    } else {
      assert calls[..m] == calls;
    }
  }

  lemma AheadIsIndex(v: Live, i: nat)
    requires Ahead(v, i)
    ensures i < |v.held|
  {}
}
