/** What an accepted stream covers: consecutive epochs, every sequence number once, up to the trusted end. */
module Tiling {
  import opened Prelude
  import opened Bytes
  import opened Text
  import opened Crypto
  import opened Codec
  import opened Registry
  import opened Evidence
  import opened Receipts
  import opened ItemAudit
  import opened StreamAudit

  ghost predicate IsNumber(raw: Bytes, n: int, topic: Text) {
    DecodedRecord(raw).Some? && DecodedRecord(raw).value.seqNo == n && DecodedRecord(raw).value.topic == topic
  }

  /** Record k of the whole stream carries number first + k and the topic. */
  ghost predicate Numbered(records: seq<Bytes>, first: int, topic: Text) {
    forall k :: 0 <= k < |records| ==> IsNumber(records[k], first + k, topic)
  }

  lemma NumberedConcat(a: seq<Bytes>, b: seq<Bytes>, first: int, topic: Text)
    requires Numbered(a, first, topic) && Numbered(b, first + |a|, topic)
    ensures Numbered(a + b, first, topic)
  {
    forall k | 0 <= k < |a + b| ensures IsNumber((a + b)[k], first + k, topic) {
      if k < |a| {
        assert (a + b)[k] == a[k];
      } else {
        assert IsNumber(b[k - |a|], first + |a| + (k - |a|), topic);
      }
    }
  }

  lemma FittingIsNumbered(ev: Evidence)
    requires RecordsFit(ev)
    ensures Numbered(ev.records, ev.checkpoint.seqStart, ev.checkpoint.topic)
    ensures |ev.records| == ev.checkpoint.seqEnd - ev.checkpoint.seqStart + 1
  {
    forall k | 0 <= k < |ev.records|
      ensures IsNumber(ev.records[k], ev.checkpoint.seqStart + k, ev.checkpoint.topic)
    {
      assert RecordAt(ev.checkpoint, ev.records[k], k);
    }
  }

  ghost predicate LinkedAll(genesis: Position, evs: seq<Evidence>) {
    forall i :: 0 <= i < |evs| ==> LinkedAt(genesis, evs, i) && RecordsFit(evs[i])
  }

  lemma LinkedPrefix(genesis: Position, evs: seq<Evidence>, n: nat)
    requires n <= |evs| && LinkedAll(genesis, evs)
    ensures LinkedAll(genesis, evs[..n])
  {
    hide RecordsFit, StreamOf;
    forall i | 0 <= i < n ensures LinkedAt(genesis, evs[..n], i) && RecordsFit(evs[..n][i]) {
      assert LinkedAt(genesis, evs, i);
    }
  }

  /** Linked items with fitting records hold each number from the genesis on exactly once, in order. */
  lemma {:induction false} LinkedRecordsAreNumbered(genesis: Position, evs: seq<Evidence>)
    requires LinkedAll(genesis, evs)
    ensures |AllRecords(evs)| == ExpectedSeq(genesis, evs, |evs|) - genesis.seqNo
    ensures evs != [] ==> Numbered(AllRecords(evs), genesis.seqNo, evs[0].checkpoint.topic)
  {
    if evs != [] {
      var n := |evs| - 1;
      LinkedPrefix(genesis, evs, n);
      LinkedRecordsAreNumbered(genesis, evs[..n]);
      assert LinkedAt(genesis, evs, n) && RecordsFit(evs[n]);
      FittingIsNumbered(evs[n]);
      SameStreamSameTopic(evs[n], evs[0]);
      assert ExpectedSeq(genesis, evs[..n], n) == ExpectedSeq(genesis, evs, n);
      NumberedConcat(AllRecords(evs[..n]), evs[n].records, genesis.seqNo, evs[0].checkpoint.topic);
    }
  }

  lemma SameStreamSameTopic(a: Evidence, b: Evidence)
    requires StreamOf(a) == StreamOf(b)
    ensures a.checkpoint.clientId == b.checkpoint.clientId && a.checkpoint.topic == b.checkpoint.topic
  {
    StreamIdInjective(a.checkpoint.clientId, a.checkpoint.topic, b.checkpoint.clientId, b.checkpoint.topic);
  }

  lemma VerifiedIsLinked(c: Crypto, job: Job)
    requires job.Verified(c)
    ensures job.evs != [] && LinkedAll(job.Anchors().value.genesis, job.evs)
  {
    hide Committed, ReceiptsAccepted;
    var genesis := job.Anchors().value.genesis;
    forall i | 0 <= i < |job.evs| ensures LinkedAt(genesis, job.evs, i) && RecordsFit(job.evs[i]) {
      assert LinkedAt(genesis, job.evs, i);
      assert EvidenceAccepted(c, job.arm, job.registry.value, job.evs[i], job.witnessQuorum);
    }
  }
  /**
   * An accepted stream tiles the anchored range: one item per epoch from the genesis to the latest anchor, one
   * record per sequence number in between, in order.
   */
  lemma AcceptedTiles(c: Crypto, job: Job)
    requires job.Accepted(c)
    ensures var genesis, latest := job.Anchors().value.genesis, job.Anchors().value.latest.value;
      && |job.evs| == latest.epoch - genesis.epoch + 1
      && (forall i :: 0 <= i < |job.evs| ==> job.evs[i].checkpoint.epoch == genesis.epoch + i)
      && |AllRecords(job.evs)| == latest.seqNo - genesis.seqNo + 1
      && Numbered(AllRecords(job.evs), genesis.seqNo, job.evs[0].checkpoint.topic)
  {
    hide StreamVerified, Numbered, RecordsFit;
    VerifiedIsLinked(c, job);
    var genesis := job.Anchors().value.genesis;
    LinkedRecordsAreNumbered(genesis, job.evs);
    forall i | 0 <= i < |job.evs| ensures job.evs[i].checkpoint.epoch == genesis.epoch + i {
      assert LinkedAt(genesis, job.evs, i);
    }
  }

  // ---- The structural helper for locally generated streams ----

  predicate FollowsLocally(evs: seq<Evidence>, i: nat)
    requires i < |evs|
  {
    var ckpt := evs[i].checkpoint;
    && ckpt.clientId == evs[0].checkpoint.clientId && ckpt.topic == evs[0].checkpoint.topic
    && ckpt.epoch == i && ckpt.seqStart <= ckpt.seqEnd
    && ckpt.seqStart == (if i == 0 then 1 else evs[i - 1].checkpoint.seqEnd + 1)
    && ckpt.prevAnchor == (if i == 0 then ZERO_ANCHOR else evs[i - 1].checkpoint.endAnchor)
  }

  /** A complete local stream: one identity, epochs 0, 1, ..., abutting ranges from 1, anchors linked from zero. */
  predicate SequenceValid(evs: seq<Evidence>) {
    evs != [] && forall i :: 0 <= i < |evs| ==> FollowsLocally(evs, i)
  }

  /** `checkpoint_sequence_valid`. */
  method CheckpointSequenceValid(evs: seq<Evidence>) returns (ok: bool)
    ensures ok <==> SequenceValid(evs)
  {
    if evs == [] { return false; }
    var client, topic := evs[0].checkpoint.clientId, evs[0].checkpoint.topic;
    var previousAnchor: Bytes, expectedEpoch, expectedSeq := ZERO_ANCHOR, 0, 1;
    for i := 0 to |evs|
      invariant forall k :: 0 <= k < i ==> FollowsLocally(evs, k)
      invariant previousAnchor == if i == 0 then ZERO_ANCHOR else evs[i - 1].checkpoint.endAnchor
      invariant expectedEpoch == i
      invariant expectedSeq == if i == 0 then 1 else evs[i - 1].checkpoint.seqEnd + 1
    {
      var ckpt := evs[i].checkpoint;
      ghost var follows := FollowsLocally(evs, i);
      if ckpt.clientId != client || ckpt.topic != topic { return false; }
      if ckpt.epoch != expectedEpoch || ckpt.seqStart != expectedSeq { return false; }
      if ckpt.prevAnchor != previousAnchor || ckpt.seqEnd < ckpt.seqStart { return false; }
      previousAnchor := ckpt.endAnchor;
      expectedEpoch := expectedEpoch + 1;
      expectedSeq := ckpt.seqEnd + 1;
    }
    ok := true;
  }

  /** From the zero genesis, whatever verifies is a structurally complete local stream. */
  lemma VerifiedIsSequenceValid(c: Crypto, job: Job)
    requires job.Verified(c)
    requires var g := job.Anchors().value.genesis; g.anchor == ZERO_ANCHOR && g.epoch == 0 && g.seqNo == 1
    ensures SequenceValid(job.evs)
  {
    hide StreamVerified, RecordsFit;
    VerifiedIsLinked(c, job);
    var genesis := job.Anchors().value.genesis;
    forall i | 0 <= i < |job.evs|
      ensures job.evs[i].checkpoint.clientId == job.evs[0].checkpoint.clientId
        && job.evs[i].checkpoint.topic == job.evs[0].checkpoint.topic
    {
      assert LinkedAt(genesis, job.evs, i);
      SameStreamSameTopic(job.evs[i], job.evs[0]);
    }
    assert forall i :: 0 <= i < |job.evs| ==> LinkedAt(genesis, job.evs, i);
  }

  // ---- Truncation ----

  lemma {:induction false} PrefixOfAllRecords(evs: seq<Evidence>, n: nat)
    requires n <= |evs|
    ensures AllRecords(evs[..n]) <= AllRecords(evs)
  {
    if n < |evs| {
      PrefixRecords(evs, n);
    } else {
      assert evs[..n] == evs;
    }
  }

  lemma LinkedCut(genesis: Position, evs: seq<Evidence>, i: nat, n: nat)
    requires i < n <= |evs|
    ensures LinkedAt(genesis, evs[..n], i) <==> LinkedAt(genesis, evs, i)
  {
    hide StreamOf;
  }

  lemma NothingRepeatsCut(c: Crypto, evs: seq<Evidence>, n: nat)
    requires n <= |evs| && NothingRepeats(c, evs)
    ensures NothingRepeats(c, evs[..n])
  {
    PrefixOfAllRecords(evs, n);
    var kept, all := AllRecords(evs[..n]), AllRecords(evs);
    assert EndAnchors(evs[..n]) == EndAnchors(evs)[..n];
    assert Hashes(c, kept) == Hashes(c, all)[..|kept|];
  }

  lemma StreamCut(c: Crypto, arm: Arm, reg: Registry, genesis: Position, evs: seq<Evidence>, q: Option<int>, n: nat)
    requires n <= |evs| && StreamVerified(c, arm, reg, genesis, evs, q)
    ensures StreamVerified(c, arm, reg, genesis, evs[..n], q)
  {
    hide EvidenceAccepted, LinkedAt, NothingRepeats;
    NothingRepeatsCut(c, evs, n);
    forall i | 0 <= i < n ensures LinkedAt(genesis, evs[..n], i) && EvidenceAccepted(c, arm, reg, evs[..n][i], q) {
      LinkedCut(genesis, evs, i, n);
    }
  }

  /** Verification survives cutting the tail off. */
  lemma PrefixVerifies(c: Crypto, job: Job, n: nat)
    requires job.Verified(c) && 0 < n <= |job.evs|
    ensures job.(evs := job.evs[..n]).Verified(c)
    ensures job.(evs := job.evs[..n]).Anchors() == job.Anchors()
  {
    hide StreamVerified, StreamOf;
    assert job.evs[..n][0] == job.evs[0];
    StreamCut(c, job.arm, job.registry.value, job.Anchors().value.genesis, job.evs, job.witnessQuorum, n);
  }

  /**
   * Tail truncation is always noticed: every proper non-empty prefix of a stream that ends at the trusted latest
   * anchor is found to be rolled back, and without a latest anchor no stream is ever accepted.
   */
  lemma TruncationIsRollback(c: Crypto, job: Job, n: nat)
    requires job.Verified(c) && job.Anchors().value.latest.Some? && EndsAt(job.evs, job.Anchors().value.latest.value)
    requires 0 < n < |job.evs|
    ensures job.(evs := job.evs[..n]).RolledBack(c) && !job.(evs := job.evs[..n]).Accepted(c)
  {
    hide StreamVerified, RecordsFit, StreamOf;
    PrefixVerifies(c, job, n);
    VerifiedIsLinked(c, job);
    var genesis := job.Anchors().value.genesis;
    assert LinkedAt(genesis, job.evs, n - 1) && LinkedAt(genesis, job.evs, |job.evs| - 1);
  }
}
