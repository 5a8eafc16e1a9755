/** What each way of presenting, cutting or rearranging a history is reported as. */
module StreamReports {
  import opened Prelude
  import opened Bytes
  import opened Crypto
  import opened Codec
  import opened Registry
  import opened Evidence
  import opened ItemAudit
  import opened StreamAudit
  import opened Tiling
  import opened Manipulation

  // ---- Before the walk ----

  /** The first thing missing is the only thing reported. */
  lemma EarlyReports(c: Crypto, job: Job, v: StreamVerdict)
    requires Judged(c, job, v)
    ensures job.arm == A2 ==> v.reasons == [NON_TRANSFERABLE_ARM]
    ensures job.arm != A2 && job.registry.None? ==> v.reasons == [REGISTRY_REQUIRED]
    ensures job.arm != A2 && job.registry.Some? && job.anchors.None? ==> v.reasons == [ANCHOR_SET_REQUIRED]
    ensures job.arm != A2 && job.registry.Some? && job.anchors.Some? && job.evs == [] ==>
      v.reasons == [EMPTY_EVIDENCE]
    ensures job.arm != A2 && job.registry.Some? && job.anchors.Some? && job.evs != [] && job.Anchors().None? ==>
      v.reasons == [GENESIS_ANCHOR_REQUIRED]
  {
    hide StreamVerified, Diagnosed, ReportsEnd, StreamOf;
  }

  // ---- The end of a verified history ----

  /** The last checkpoint against the trusted latest anchor. */
  lemma TailReports(c: Crypto, job: Job, v: StreamVerdict)
    requires job.Verified(c) && job.evs != [] && job.Anchors().value.latest.Some? && Judged(c, job, v)
    ensures var last, latest := job.evs[|job.evs| - 1].checkpoint, job.Anchors().value.latest.value;
      var before := last.epoch < latest.epoch || last.seqEnd < latest.seqNo;
      var after := last.epoch > latest.epoch || last.seqEnd > latest.seqNo;
      var expired := latest.validUntil.Some? && job.auditTime > latest.validUntil.value;
      && (ROLLBACK_DETECTED in v.reasons <==> before)
      && (EVIDENCE_AFTER_LATEST_ANCHOR in v.reasons <==> after && !before)
      && (SPLICE_OR_FORK in v.reasons <==> !before && !after && last.endAnchor != latest.anchor)
      && (LATEST_ANCHOR_MISMATCH in v.reasons <==> before || (!after && last.endAnchor != latest.anchor))
      && (LATEST_ANCHOR_STALE in v.reasons <==> !before && !after && last.endAnchor == latest.anchor && expired)
      && (HISTORY_BINDING_UNAVAILABLE in v.reasons <==>
            !before && !after && last.endAnchor == latest.anchor && !expired && job.arm == A1)
      && (VERIFIED in v.reasons <==>
            !before && !after && last.endAnchor == latest.anchor && !expired && job.arm != A1)
  {
    hide StreamVerified, Diagnosed, StreamOf, Transitions, Verdicts, AllRecords, Unique;
  }

  /** Without a trusted latest anchor the end is unprovable. */
  lemma OpenTailReports(c: Crypto, job: Job, v: StreamVerdict)
    requires job.Verified(c) && job.Anchors().value.latest.None? && Judged(c, job, v)
    ensures LATEST_ANCHOR_MISSING in v.reasons && TAIL_COMPLETENESS_UNPROVABLE in v.reasons
    ensures VERIFIED !in v.reasons && v.outcome == Inconclusive
  {
    hide StreamVerified, Diagnosed, StreamOf, Transitions, Verdicts, AllRecords, Unique;
    var tail := TailReasons(job.evs, job.arm, None, job.auditTime);
    assert tail[0] in tail && tail[1] in tail;
  }

  // ---- The first item ----

  /** Whatever is wrong with where the first item stands against the trusted genesis is reported. */
  lemma StartReports(c: Crypto, job: Job, v: StreamVerdict, r: Reason)
    requires EarlyReason(job).None? && Judged(c, job, v)
    requires StartFault(job.evs[0].checkpoint, job.Anchors().value.genesis, r)
    ensures r in v.reasons && v.outcome == Reject
  {
    hide PlaceReasons, ListReasons, StreamVerified, ReportsEnd, Unique, Transitions, ItemReasons, StartFault, Diagnosed;
    PlaceOfFirst(c, job.Anchors().value.genesis, job.evs, r);
    if job.Verified(c) {
      VerifiedFirst(c, job);
    } else {
      FirstPlaceIsReported(c, job, job.Anchors().value.genesis, v, r);
    }
  }

  /** The reasons against an item of the stream, part by part. */
  lemma PlaceParts(c: Crypto, genesis: Position, evs: seq<Evidence>, n: nat, r: Reason)
    requires n < |evs| && StreamOf(evs[n]) == StreamOf(evs[0])
    ensures var ckpt, seen := evs[n].checkpoint, SeenAfter(c, genesis, evs, n);
      r in PlaceReasons(c, genesis, evs, n) <==>
        || (r == CHECKPOINT_RANGE_INVALID && ckpt.seqEnd < ckpt.seqStart)
        || r in EpochReasons(ckpt.epoch, genesis.epoch + n, seen.epochs)
        || r in RangeReasons(ckpt.seqStart, ckpt.seqEnd, ExpectedSeq(genesis, evs, n), seen.ranges)
        || r in PrevReasons(ckpt.prevAnchor, ExpectedPrev(genesis, evs, n), n == 0)
        || (r == CROSS_EPOCH_REPLAY && Replays(ckpt, Hashes(c, evs[n].records), seen.anchors, seen.hashes))
  {
    hide StreamOf, SeenAfter, Replays, Hashes, EpochReasons, RangeReasons, PrevReasons, ExpectedSeq, ExpectedPrev;
  }

  /** Which code an unexpected epoch gets: seen before, too low, or too high. */
  lemma EpochCodes(epoch: int, expected: int, seen: set<int>, r: Reason)
    ensures r in EpochReasons(epoch, expected, seen) <==>
      if epoch == expected then false
      else if epoch in seen then r == EPOCH_DUPLICATE || r == DUPLICATE_CHECKPOINT
      else if epoch < expected then r == EPOCH_REORDER || r == EPOCH_ROLLBACK
      else r == EPOCH_GAP || r == MIDDLE_TRUNCATION
  {}

  lemma RangeCodes(seqStart: int, seqEnd: int, expected: int, seen: set<(int, int)>, r: Reason)
    ensures r in RangeReasons(seqStart, seqEnd, expected, seen) <==>
      if seqStart == expected then false
      else if (seqStart, seqEnd) in seen then r == SEQUENCE_DUPLICATE || r == DUPLICATE_CHECKPOINT
      else if seqStart < expected then r == SEQUENCE_REORDER
      else r == SEQUENCE_GAP || r == MIDDLE_TRUNCATION
  {}

  lemma PrevCodes(prev: Bytes, expected: Bytes, first: bool, r: Reason)
    ensures r in PrevReasons(prev, expected, first) <==>
      (prev != expected
       && (r == PREV_ANCHOR_MISMATCH || r == SPLICE_OR_FORK || (first && r == GENESIS_ANCHOR_MISMATCH)))
  {}

  /** What each code says about the first item. */
  predicate StartFault(first: Checkpoint, genesis: Position, r: Reason) {
    || (first.epoch < genesis.epoch && (r == EPOCH_ROLLBACK || r == EPOCH_REORDER))
    || (first.epoch > genesis.epoch && (r == EPOCH_GAP || r == MIDDLE_TRUNCATION))
    || (first.seqStart < genesis.seqNo && r == SEQUENCE_REORDER)
    || (first.seqStart > genesis.seqNo && (r == SEQUENCE_GAP || r == MIDDLE_TRUNCATION))
    || (first.prevAnchor != genesis.anchor
        && (r == PREV_ANCHOR_MISMATCH || r == SPLICE_OR_FORK || r == GENESIS_ANCHOR_MISMATCH))
    || (first.seqEnd < first.seqStart && r == CHECKPOINT_RANGE_INVALID)
    || (first.endAnchor == genesis.anchor && r == CROSS_EPOCH_REPLAY)
  }

  /** Before the first item nothing but the genesis anchor has been seen. */
  lemma FirstParts(c: Crypto, genesis: Position, evs: seq<Evidence>, r: Reason)
    requires evs != []
    ensures r in PlaceReasons(c, genesis, evs, 0) <==> InFirstParts(evs[0].checkpoint, genesis, r)
  {
    hide PlaceReasons, SeenAfter, StreamOf, Hashes, EpochReasons, RangeReasons, PrevReasons, Replays;
    SeenStart(c, genesis, evs);
    PlaceParts(c, genesis, evs, 0, r);
    ReplaysGenesis(evs[0].checkpoint, Hashes(c, evs[0].records), genesis.anchor);
  }

  predicate InFirstParts(first: Checkpoint, genesis: Position, r: Reason) {
    || (r == CHECKPOINT_RANGE_INVALID && first.seqEnd < first.seqStart)
    || r in EpochReasons(first.epoch, genesis.epoch, {})
    || r in RangeReasons(first.seqStart, first.seqEnd, genesis.seqNo, {})
    || r in PrevReasons(first.prevAnchor, genesis.anchor, true)
    || (r == CROSS_EPOCH_REPLAY && first.endAnchor == genesis.anchor)
  }

  /** The reasons against the first item's place. */
  lemma PlaceOfFirst(c: Crypto, genesis: Position, evs: seq<Evidence>, r: Reason)
    requires evs != []
    ensures r in PlaceReasons(c, genesis, evs, 0) <==> StartFault(evs[0].checkpoint, genesis, r)
  {
    hide PlaceReasons, InFirstParts, StartFault;
    FirstParts(c, genesis, evs, r);
    PartsAreFaults(evs[0].checkpoint, genesis, r);
  }

  lemma PartsAreFaults(first: Checkpoint, genesis: Position, r: Reason)
    ensures InFirstParts(first, genesis, r) <==> StartFault(first, genesis, r)
  {
    hide EpochReasons, RangeReasons, PrevReasons;
    EpochCodes(first.epoch, genesis.epoch, {}, r);
    RangeCodes(first.seqStart, first.seqEnd, genesis.seqNo, {}, r);
    PrevCodes(first.prevAnchor, genesis.anchor, true, r);
  }

  lemma ReplaysGenesis(ckpt: Checkpoint, hashes: seq<Digest>, anchor: Bytes)
    ensures Replays(ckpt, hashes, {anchor}, {}) <==> ckpt.endAnchor == anchor
  {}

  /** The first item of a verified stream is in its place. */
  lemma VerifiedFirst(c: Crypto, job: Job)
    requires job.Verified(c)
    ensures job.evs != [] && PlaceReasons(c, job.Anchors().value.genesis, job.evs, 0) == []
  {
    hide PlaceReasons, NothingRepeats, StreamOf, EvidenceAccepted;
    PlaceDecides(c, job.Anchors().value.genesis, job.evs, 0);
    assert LinkedAt(job.Anchors().value.genesis, job.evs, 0);
  }

  /** If the first item is out of place, what is wrong with its place is reported. */
  lemma FirstPlaceIsReported(c: Crypto, job: Job, genesis: Position, v: StreamVerdict, r: Reason)
    requires EarlyReason(job).None? && !job.Verified(c) && Judged(c, job, v) && job.evs != []
    requires genesis == job.Anchors().value.genesis && r in PlaceReasons(c, genesis, job.evs, 0)
    ensures r in v.reasons
  {
    hide PlaceReasons, ListReasons, StreamVerified, ReportsEnd, Unique, Transitions, ItemReasons, EvidenceAccepted,
         NothingRepeats, Verdicts, CountAccepted, SumAccepted, LinkedAt, ItemRaises;
    var evs := job.evs;
    var reasons :| JobExplains(c, job, reasons, v.verdicts) && v.reasons == Unique(reasons);
    if ListReasons(c, evs) == [] {
      var n :| 0 <= n < |evs|
        && StopsAt(c, job.arm, job.registry.value, genesis, evs, job.witnessQuorum, n, reasons, v.verdicts);
      FineListRepeatsNothing(c, evs);
      PlaceDecides(c, genesis, evs, 0);
      assert n == 0;
    }
  }

  lemma FineListRepeatsNothing(c: Crypto, evs: seq<Evidence>)
    requires ListReasons(c, evs) == []
    ensures NothingRepeats(c, evs)
  {
    hide NothingRepeats, Epochs, Starts, Descends;
  }

  // ---- Selections of an accepted history ----

  /** An item of an accepted stream, by its epoch. */
  lemma ItemByEpoch(c: Crypto, job: Job, ev: Evidence)
    requires job.Accepted(c) && ev in job.evs
    ensures 0 <= IndexIn(job, ev) < |job.evs| && job.evs[IndexIn(job, ev)] == ev
    ensures LinkedAt(job.Anchors().value.genesis, job.evs, IndexIn(job, ev))
    ensures EvidenceAccepted(c, job.arm, job.registry.value, ev, job.witnessQuorum)
    ensures StreamOf(ev) == StreamOf(job.evs[0])
  {
    hide EvidenceAccepted, StreamOf, StreamVerified, LinkedAt, RecordsFit, EndsAt, Stale;
    var k := ItemOfStream(c, job, ev);
    VerifiedIsLinked(c, job);
  }

  function IndexIn(job: Job, ev: Evidence): int
    requires job.Anchors().Some?
  {
    ev.checkpoint.epoch - job.Anchors().value.genesis.epoch
  }

  lemma NextRange(genesis: Position, evs: seq<Evidence>, j: nat)
    requires j < |evs| && LinkedAll(genesis, evs)
    ensures evs[j].checkpoint.seqStart <= evs[j].checkpoint.seqEnd
    ensures j > 0 ==> evs[j].checkpoint.seqStart == evs[j - 1].checkpoint.seqEnd + 1
  {
    hide RecordsFit, StreamOf;
    assert LinkedAt(genesis, evs, j);
  }

  lemma {:induction false} RangesAscend(genesis: Position, evs: seq<Evidence>, i: nat, j: nat)
    requires i < j < |evs| && LinkedAll(genesis, evs)
    ensures evs[i].checkpoint.seqEnd < evs[j].checkpoint.seqStart
    ensures evs[i].checkpoint.seqStart < evs[j].checkpoint.seqStart
    decreases j
  {
    hide LinkedAll;
    NextRange(genesis, evs, i);
    NextRange(genesis, evs, j);
    NextRange(genesis, evs, j - 1);
    if i < j - 1 {
      RangesAscend(genesis, evs, i, j - 1);
    }
  }

  lemma {:induction false} RecordsConcat(a: seq<Evidence>, b: seq<Evidence>)
    ensures AllRecords(a + b) == AllRecords(a) + AllRecords(b)
  {
    if b == [] {
      assert a + b == a;
    } else {
      var n := |b| - 1;
      RecordsConcat(a, b[..n]);
      assert (a + b)[..|a + b| - 1] == a + b[..n];
      Associative(AllRecords(a), AllRecords(b[..n]), b[n].records);
    }
  }

  lemma RecordsWithout(all: seq<Evidence>, k: nat)
    requires k < |all|
    ensures multiset(AllRecords(all)) == multiset(AllRecords(all[..k] + all[k + 1..])) + multiset(all[k].records)
  {
    var a, b, x := AllRecords(all[..k]), AllRecords(all[k + 1..]), all[k].records;
    assert AllRecords(all) == a + x + b by { RecordsInThree(all, k); }
    assert AllRecords(all[..k] + all[k + 1..]) == a + b by { RecordsConcat(all[..k], all[k + 1..]); }
    hide AllRecords;
    MultisetOfConcat(a + x, b);
    MultisetOfConcat(a, x);
    MultisetOfConcat(a, b);
  }

  lemma RecordsInThree(all: seq<Evidence>, k: nat)
    requires k < |all|
    ensures AllRecords(all) == AllRecords(all[..k]) + all[k].records + AllRecords(all[k + 1..])
  {
    hide AllRecords;
    assert all == all[..k + 1] + all[k + 1..];
    RecordsConcat(all[..k + 1], all[k + 1..]);
    PrefixRecords(all, k);
  }

  /** Different items of a list have no more records than the list. */
  lemma {:induction false} RecordsOfSome(evs: seq<Evidence>, all: seq<Evidence>)
    requires Distinct(evs) && forall ev :: ev in evs ==> ev in all
    ensures multiset(AllRecords(evs)) <= multiset(AllRecords(all))
  {
    if evs != [] {
      var n := |evs| - 1;
      assert evs[n] in all;
      var k :| 0 <= k < |all| && all[k] == evs[n];
      var rest := all[..k] + all[k + 1..];
      assert evs == evs[..n] + [evs[n]];
      forall ev | ev in evs[..n] ensures ev in rest {
        assert ev in evs;
        var j :| 0 <= j < |all| && all[j] == ev;
        assert ev != evs[n];
        assert j < k ==> rest[j] == ev;
        assert j > k ==> rest[j - 1] == ev;
      }
      RecordsOfSome(evs[..n], rest);
      RecordsWithout(all, k);
      MultisetOfConcat(AllRecords(evs[..n]), evs[n].records);
    }
  }

  lemma TwiceCounts<T>(s: seq<T>, i: nat, j: nat)
    requires i < j < |s| && s[i] == s[j]
    ensures multiset(s)[s[i]] >= 2
  {
    assert s == s[..j] + [s[j]] + s[j + 1..];
    assert s[i] in s[..j];
  }

  /** Where nothing repeats, no part repeats. */
  lemma PartRepeatsNothing(c: Crypto, part: seq<Bytes>, all: seq<Bytes>)
    requires Distinct(Hashes(c, all)) && multiset(part) <= multiset(all)
    ensures Distinct(Hashes(c, part))
  {
    assert Distinct(all) by {
      forall i, j | 0 <= i < j < |all| ensures all[i] != all[j] {
        assert Hashes(c, all)[i] != Hashes(c, all)[j];
      }
    }
    forall i, j | 0 <= i < j < |part| ensures Hashes(c, part)[i] != Hashes(c, part)[j] {
      assert part[i] in multiset(all) && part[j] in multiset(all);
      var k :| 0 <= k < |all| && all[k] == part[i];
      var l :| 0 <= l < |all| && all[l] == part[j];
      if part[i] == part[j] {
        TwiceCounts(part, i, j);
        DistinctCounts(all, part[i]);
      } else {
        assert Hashes(c, all)[k] != Hashes(c, all)[l];
      }
    }
  }

  /** Different items of an accepted stream repeat no anchor and no record. */
  lemma SelectionRepeatsNothing(c: Crypto, job: Job, evs: seq<Evidence>)
    requires job.Accepted(c) && Distinct(evs) && forall ev :: ev in evs ==> ev in job.evs
    ensures NothingRepeats(c, evs)
  {
    hide StreamOf, EvidenceAccepted, LinkedAt, AllRecords, Hashes, EndsAt, Stale, GoodPrefix;
    RecordsOfSome(evs, job.evs);
    PartRepeatsNothing(c, AllRecords(evs), AllRecords(job.evs));
    forall i, j | 0 <= i < j < |evs| ensures EndAnchors(evs)[i] != EndAnchors(evs)[j] {
      ItemByEpoch(c, job, evs[i]);
      ItemByEpoch(c, job, evs[j]);
      assert EndAnchors(job.evs)[IndexIn(job, evs[i])] == evs[i].checkpoint.endAnchor;
      assert EndAnchors(job.evs)[IndexIn(job, evs[j])] == evs[j].checkpoint.endAnchor;
    }
  }

  /** A non-empty choice of items of an accepted stream, in any order, any of them any number of times. */
  ghost predicate Selects(c: Crypto, job: Job, evs: seq<Evidence>) {
    && job.Accepted(c) && Unambiguous(job.registry.value)
    && evs != [] && forall ev :: ev in evs ==> ev in job.evs
  }

  predicate Falls(evs: seq<Evidence>) {
    exists i :: 0 <= i < |evs| - 1 && evs[i + 1].checkpoint.epoch < evs[i].checkpoint.epoch
  }

  /** Epochs rise from each item to the next. */
  predicate Rises(evs: seq<Evidence>) {
    forall i :: 0 <= i < |evs| - 1 ==> evs[i].checkpoint.epoch < evs[i + 1].checkpoint.epoch
  }

  /** What the checks on the list say, code by code. */
  lemma ListCodes(c: Crypto, evs: seq<Evidence>, r: Reason)
    ensures r in ListReasons(c, evs) <==>
      || (!Distinct(Epochs(evs)) && (r == EPOCH_DUPLICATE || r == DUPLICATE_CHECKPOINT))
      || (Descends(Epochs(evs)) && r == EPOCH_REORDER)
      || (Descends(Starts(evs)) && r == SEQUENCE_REORDER)
      || (!NothingRepeats(c, evs) && r == CROSS_EPOCH_REPLAY)
  {
    hide NothingRepeats, Epochs, Starts, Descends, Distinct;
  }

  lemma EpochsFall(evs: seq<Evidence>)
    ensures Descends(Epochs(evs)) <==> Falls(evs)
  {
    if Falls(evs) {
      var i :| 0 <= i < |evs| - 1 && evs[i + 1].checkpoint.epoch < evs[i].checkpoint.epoch;
      assert Epochs(evs)[i + 1] < Epochs(evs)[i];
    }
    if Descends(Epochs(evs)) {
      var i :| 0 <= i < |evs| - 1 && Epochs(evs)[i + 1] < Epochs(evs)[i];
      assert evs[i + 1].checkpoint.epoch < evs[i].checkpoint.epoch;
    }
  }

  /** Items of one accepted stream compare alike by epoch, by number, and as items. */
  lemma SelectionOrder(c: Crypto, job: Job, a: Evidence, b: Evidence)
    requires job.Accepted(c) && a in job.evs && b in job.evs
    ensures a.checkpoint.epoch == b.checkpoint.epoch <==> a == b
    ensures a.checkpoint.epoch < b.checkpoint.epoch <==> a.checkpoint.seqStart < b.checkpoint.seqStart
    ensures a.checkpoint.epoch < b.checkpoint.epoch ==> a.checkpoint.seqEnd < b.checkpoint.seqStart
  {
    hide EvidenceAccepted, StreamOf, LinkedAt, EndsAt, Stale, StreamVerified, LinkedAll;
    ItemByEpoch(c, job, a);
    ItemByEpoch(c, job, b);
    VerifiedIsLinked(c, job);
    var i, j := IndexIn(job, a), IndexIn(job, b);
    if i < j {
      RangesAscend(job.Anchors().value.genesis, job.evs, i, j);
    } else if j < i {
      RangesAscend(job.Anchors().value.genesis, job.evs, j, i);
    }
  }

  /** The checks on a selection as a list find what was repeated and what was moved back. */
  lemma SelectionAsList(c: Crypto, job: Job, evs: seq<Evidence>)
    requires Selects(c, job, evs)
    ensures Distinct(Epochs(evs)) <==> Distinct(evs)
    ensures NothingRepeats(c, evs) <==> Distinct(evs)
    ensures Descends(Starts(evs)) <==> Falls(evs)
  {
    hide NothingRepeats, StreamVerified, EndsAt, Stale;
    forall i, j | 0 <= i < j < |evs| ensures Epochs(evs)[i] == Epochs(evs)[j] <==> evs[i] == evs[j] {
      assert evs[i] in evs && evs[j] in evs;
      SelectionOrder(c, job, evs[i], evs[j]);
    }
    forall i | 0 <= i < |evs| - 1
      ensures Starts(evs)[i + 1] < Starts(evs)[i] <==> evs[i + 1].checkpoint.epoch < evs[i].checkpoint.epoch
    {
      assert evs[i] in evs && evs[i + 1] in evs;
      SelectionOrder(c, job, evs[i + 1], evs[i]);
    }
    if Distinct(evs) {
      SelectionRepeatsNothing(c, job, evs);
    } else {
      RepeatedItemRepeats(c, evs);
    }
    StartsFall(evs);
  }

  lemma RepeatedItemRepeats(c: Crypto, evs: seq<Evidence>)
    requires !Distinct(evs)
    ensures !NothingRepeats(c, evs)
  {
    hide AllRecords, Hashes;
    var i, j :| 0 <= i < j < |evs| && evs[i] == evs[j];
    assert EndAnchors(evs)[i] == EndAnchors(evs)[j];
  }

  lemma StartsFall(evs: seq<Evidence>)
    requires forall i :: 0 <= i < |evs| - 1 ==>
      (Starts(evs)[i + 1] < Starts(evs)[i] <==> evs[i + 1].checkpoint.epoch < evs[i].checkpoint.epoch)
    ensures Descends(Starts(evs)) <==> Falls(evs)
  {
    if Falls(evs) {
      var i :| 0 <= i < |evs| - 1 && evs[i + 1].checkpoint.epoch < evs[i].checkpoint.epoch;
      assert Starts(evs)[i + 1] < Starts(evs)[i];
    }
    if Descends(Starts(evs)) {
      var i :| 0 <= i < |evs| - 1 && Starts(evs)[i + 1] < Starts(evs)[i];
      assert evs[i + 1].checkpoint.epoch < evs[i].checkpoint.epoch;
    }
  }

  /** A list that neither repeats nor falls rises. */
  lemma RisesExactly(c: Crypto, job: Job, evs: seq<Evidence>)
    requires Selects(c, job, evs)
    ensures Rises(evs) <==> Distinct(evs) && !Falls(evs)
    ensures Rises(evs) <==> ListReasons(c, evs) == []
  {
    hide NothingRepeats, StreamVerified, EndsAt, Stale, Epochs, Starts, ListReasons, Descends;
    SelectionAsList(c, job, evs);
    EpochsFall(evs);
    if Rises(evs) {
      forall i, j | 0 <= i < j < |evs| ensures evs[i] != evs[j] { RisesFar(evs, i, j); }
    }
    if Distinct(evs) && !Falls(evs) {
      forall i | 0 <= i < |evs| - 1 ensures evs[i].checkpoint.epoch < evs[i + 1].checkpoint.epoch {
        assert evs[i] in evs && evs[i + 1] in evs;
        SelectionOrder(c, job, evs[i], evs[i + 1]);
      }
    }
    assert ListReasons(c, evs) == [] <==>
      Distinct(Epochs(evs)) && !Descends(Epochs(evs)) && !Descends(Starts(evs)) && NothingRepeats(c, evs);
  }

  lemma {:induction false} RisesFar(evs: seq<Evidence>, i: nat, j: nat)
    requires Rises(evs) && i < j < |evs|
    ensures evs[i].checkpoint.epoch < evs[j].checkpoint.epoch
    decreases j
  {
    if i < j - 1 {
      RisesFar(evs, i, j - 1);
    }
  }

  // ---- A selection that repeats or falls ----

  /** The list is reported on, and the place of its first item. */
  lemma FaultyListReports(c: Crypto, job: Job, v: StreamVerdict, r: Reason)
    requires EarlyReason(job).None? && Judged(c, job, v) && ListReasons(c, job.evs) != []
    ensures v.outcome == Reject
    ensures r in v.reasons <==>
      r in ListReasons(c, job.evs) || StartFault(job.evs[0].checkpoint, job.Anchors().value.genesis, r)
  {
    hide PlaceReasons, ListReasons, ReportsEnd, Unique, StartFault, StopsAt, NothingRepeats, GoodPrefix;
    FaultyListIsUnverified(c, job);
    var genesis, evs := job.Anchors().value.genesis, job.evs;
    var reasons :| JobExplains(c, job, reasons, v.verdicts) && v.reasons == Unique(reasons);
    PlaceOfFirst(c, genesis, evs, r);
    InUnique(reasons, r);
  }

  lemma InUnique(reasons: seq<Reason>, r: Reason)
    ensures r in Unique(reasons) <==> r in reasons
  {}

  lemma FaultyListIsUnverified(c: Crypto, job: Job)
    requires EarlyReason(job).None? && ListReasons(c, job.evs) != []
    ensures !job.Verified(c)
  {
    hide ListReasons, NothingRepeats, GoodPrefix;
    VerifiedIsPresentedFine(c, job.arm, job.registry.value, job.Anchors().value.genesis, job.evs, job.witnessQuorum);
  }

  // ---- A selection that leaves something out ----

  /** Up to n the selection is the stream; item n is a later one. */
  ghost predicate SkipsAt(job: Job, evs: seq<Evidence>, n: nat)
    requires job.Anchors().Some?
  {
    && n < |evs| && n < |job.evs| && evs[..n] == job.evs[..n]
    && n < IndexIn(job, evs[n]) < |job.evs|
  }

  /** The reasons against an item that comes too early. */
  predicate SkipFault(first: bool, r: Reason) {
    || r == EPOCH_GAP || r == SEQUENCE_GAP || r == MIDDLE_TRUNCATION || r == PREV_ANCHOR_MISMATCH
    || r == SPLICE_OR_FORK || (first && r == GENESIS_ANCHOR_MISMATCH)
  }

  /** Nothing of the item that comes too early has been seen. */
  lemma SkippedIsUnseen(c: Crypto, job: Job, evs: seq<Evidence>, n: nat)
    requires Selects(c, job, evs) && SkipsAt(job, evs, n)
    ensures var ckpt, seen := evs[n].checkpoint, SeenAfter(c, job.Anchors().value.genesis, evs, n);
      && ckpt.epoch !in seen.epochs && (ckpt.seqStart, ckpt.seqEnd) !in seen.ranges
      && (NothingRepeats(c, evs) ==> !Replays(ckpt, Hashes(c, evs[n].records), seen.anchors, seen.hashes))
  {
    hide StreamVerified, EndsAt, Stale, NothingRepeats, AllRecords, Hashes, Replays;
    forall k | 0 <= k < n
      ensures evs[k].checkpoint.epoch < evs[n].checkpoint.epoch
      ensures evs[k].checkpoint.seqStart < evs[n].checkpoint.seqStart
    {
      assert evs[k] == evs[..n][k] == job.evs[..n][k] == job.evs[k];
      assert evs[k] in evs && evs[n] in evs;
      OwnIndex(c, job, k);
      SelectionOrder(c, job, evs[k], evs[n]);
    }
    if NothingRepeats(c, evs) {
      RepeatsOnlyGenesis(c, job.Anchors().value.genesis, evs, n);
      assert evs[n] in evs;
      NotTheGenesis(c, job, evs[n]);
    }
  }

  lemma OwnIndex(c: Crypto, job: Job, k: nat)
    requires job.Accepted(c) && k < |job.evs|
    ensures IndexIn(job, job.evs[k]) == k && job.evs[k] in job.evs
  {
    hide StreamOf, EvidenceAccepted, EndsAt, Stale, StreamVerified, RecordsFit;
    VerifiedIsLinked(c, job);
    assert LinkedAt(job.Anchors().value.genesis, job.evs, k);
  }

  lemma NotTheGenesis(c: Crypto, job: Job, ev: Evidence)
    requires job.Accepted(c) && ev in job.evs
    ensures ev.checkpoint.endAnchor != job.Anchors().value.genesis.anchor
  {
    hide StreamOf, EvidenceAccepted, StreamVerified, EndsAt, Stale;
    ItemByEpoch(c, job, ev);
  }

  /** How an accepted item starts: one past the item before it, at that item's anchor. */
  lemma ItemStarts(c: Crypto, job: Job, k: nat)
    requires job.Accepted(c) && k < |job.evs|
    ensures var ckpt, genesis := job.evs[k].checkpoint, job.Anchors().value.genesis;
      && ckpt.epoch == genesis.epoch + k && ckpt.seqStart <= ckpt.seqEnd
      && ckpt.seqStart == ExpectedSeq(genesis, job.evs, k) && ckpt.prevAnchor == ExpectedPrev(genesis, job.evs, k)
  {
    hide StreamOf, EvidenceAccepted, EndsAt, Stale, StreamVerified, RecordsFit;
    VerifiedIsLinked(c, job);
    assert LinkedAt(job.Anchors().value.genesis, job.evs, k);
  }

  /** Its epoch and number are too high. */
  lemma SkippedIsAhead(c: Crypto, job: Job, evs: seq<Evidence>, n: nat)
    requires Selects(c, job, evs) && SkipsAt(job, evs, n)
    ensures var ckpt, genesis := evs[n].checkpoint, job.Anchors().value.genesis;
      && ckpt.seqStart <= ckpt.seqEnd && ckpt.epoch > genesis.epoch + n && ckpt.seqStart > ExpectedSeq(genesis, evs, n)
  {
    hide StreamVerified, EndsAt, Stale, StreamOf, LinkedAt, EvidenceAccepted;
    assert evs[n] in evs;
    ItemByEpoch(c, job, evs[n]);
    ItemStarts(c, job, IndexIn(job, evs[n]));
    ItemStarts(c, job, n);
    OwnIndex(c, job, n);
    SelectionOrder(c, job, job.evs[n], evs[n]);
    SameBefore(job, evs, n);
  }

  lemma SameBefore(job: Job, evs: seq<Evidence>, n: nat)
    requires n < |evs| && n < |job.evs| && evs[..n] == job.evs[..n]
    ensures n > 0 ==> evs[n - 1] == job.evs[n - 1]
  {
    if n > 0 {
      assert evs[n - 1] == evs[..n][n - 1] && job.evs[n - 1] == job.evs[..n][n - 1];
    }
  }

  /** And it starts from an anchor that is not the last one seen. */
  lemma SkippedIsUnlinked(c: Crypto, job: Job, evs: seq<Evidence>, n: nat)
    requires Selects(c, job, evs) && SkipsAt(job, evs, n)
    ensures evs[n].checkpoint.prevAnchor != ExpectedPrev(job.Anchors().value.genesis, evs, n)
  {
    hide StreamVerified, EndsAt, Stale, StreamOf, LinkedAt, EvidenceAccepted;
    assert evs[n] in evs;
    ItemByEpoch(c, job, evs[n]);
    var m := IndexIn(job, evs[n]);
    ItemStarts(c, job, m);
    SameBefore(job, evs, n);
    if n > 0 {
      AnchorsApart(c, job, n - 1, m - 1);
    } else {
      OwnIndex(c, job, m - 1);
      NotTheGenesis(c, job, job.evs[m - 1]);
    }
  }

  lemma AnchorsApart(c: Crypto, job: Job, i: nat, j: nat)
    requires job.Verified(c) && i < j < |job.evs|
    ensures job.evs[i].checkpoint.endAnchor != job.evs[j].checkpoint.endAnchor
  {
    hide GoodPrefix, AllRecords, Hashes;
    assert EndAnchors(job.evs)[i] != EndAnchors(job.evs)[j];
  }

  /** The parts of the reasons against an unseen item that comes too early. */
  lemma AheadParts(ckpt: Checkpoint, epoch: int, seqNo: int, prev: Bytes, seen: Seen, first: bool, r: Reason)
    requires ckpt.epoch > epoch && ckpt.seqStart > seqNo && ckpt.prevAnchor != prev
    requires ckpt.epoch !in seen.epochs && (ckpt.seqStart, ckpt.seqEnd) !in seen.ranges
    ensures (r in EpochReasons(ckpt.epoch, epoch, seen.epochs)
             || r in RangeReasons(ckpt.seqStart, ckpt.seqEnd, seqNo, seen.ranges)
             || r in PrevReasons(ckpt.prevAnchor, prev, first))
      <==> SkipFault(first, r)
  {
    hide EpochReasons, RangeReasons, PrevReasons;
    EpochCodes(ckpt.epoch, epoch, seen.epochs, r);
    RangeCodes(ckpt.seqStart, ckpt.seqEnd, seqNo, seen.ranges, r);
    PrevCodes(ckpt.prevAnchor, prev, first, r);
  }

  lemma SkipReasons(c: Crypto, job: Job, evs: seq<Evidence>, n: nat, r: Reason)
    requires Selects(c, job, evs) && SkipsAt(job, evs, n) && NothingRepeats(c, evs)
    ensures r in PlaceReasons(c, job.Anchors().value.genesis, evs, n) <==> SkipFault(n == 0, r)
  {
    hide PlaceReasons, SeenAfter, StreamOf, Hashes, EpochReasons, RangeReasons, PrevReasons, Replays, StreamVerified,
         EndsAt, Stale, NothingRepeats, LinkedAt, EvidenceAccepted, SkipFault, ExpectedSeq, ExpectedPrev;
    var genesis := job.Anchors().value.genesis;
    SameStreamItems(c, job, evs, n);
    SkippedIsUnseen(c, job, evs, n);
    SkippedIsAhead(c, job, evs, n);
    SkippedIsUnlinked(c, job, evs, n);
    PlaceParts(c, genesis, evs, n, r);
    AheadParts(evs[n].checkpoint, genesis.epoch + n, ExpectedSeq(genesis, evs, n), ExpectedPrev(genesis, evs, n),
               SeenAfter(c, genesis, evs, n), n == 0, r);
  }

  lemma SameStreamItems(c: Crypto, job: Job, evs: seq<Evidence>, n: nat)
    requires Selects(c, job, evs) && n < |evs|
    ensures StreamOf(evs[n]) == StreamOf(evs[0]) == StreamOf(job.evs[0])
  {
    hide StreamVerified, EndsAt, Stale, StreamOf, LinkedAt, EvidenceAccepted;
    assert evs[n] in evs && evs[0] in evs;
    ItemByEpoch(c, job, evs[n]);
    ItemByEpoch(c, job, evs[0]);
  }

  /** A rising selection that is not a first part of the stream skips somewhere. */
  lemma {:induction false} FirstSkip(c: Crypto, job: Job, evs: seq<Evidence>, n: nat) returns (k: nat)
    requires Selects(c, job, evs) && Rises(evs) && n <= |evs| && n <= |job.evs| && evs[..n] == job.evs[..n]
    requires !(evs <= job.evs)
    ensures SkipsAt(job, evs, k)
    decreases |evs| - n
  {
    hide Selects, Rises, EndsAt, Stale;
    var index := RisingIndex(c, job, evs, n);
    if evs[n] == job.evs[n] {
      assert evs[..n + 1] == evs[..n] + [evs[n]] && job.evs[..n + 1] == job.evs[..n] + [job.evs[n]];
      k := FirstSkip(c, job, evs, n + 1);
    } else {
      k := n;
    }
  }

  /** In a rising selection item n stands at n or later in the stream. */
  lemma RisingIndex(c: Crypto, job: Job, evs: seq<Evidence>, n: nat) returns (m: nat)
    requires Selects(c, job, evs) && Rises(evs) && n <= |evs| && n <= |job.evs| && evs[..n] == job.evs[..n]
    requires !(evs <= job.evs)
    ensures n < |evs| && n <= m < |job.evs| && m == IndexIn(job, evs[n]) && job.evs[m] == evs[n]
  {
    hide EndsAt, Stale, StreamVerified, EvidenceAccepted, StreamOf, LinkedAt;
    assert evs[..|evs|] == evs && job.evs[..n] <= job.evs;
    assert evs[n] in evs;
    ItemByEpoch(c, job, evs[n]);
    m := IndexIn(job, evs[n]);
    if n > 0 {
      assert evs[n - 1] == evs[..n][n - 1] == job.evs[..n][n - 1] == job.evs[n - 1];
      OwnIndex(c, job, n - 1);
      assert evs[n - 1].checkpoint.epoch < evs[n].checkpoint.epoch;
    }
  }

  /** The walk over a rising selection stops at its first skip, and reports it. */
  lemma SkipIsReported(c: Crypto, job: Job, evs: seq<Evidence>, n: nat, v: StreamVerdict, r: Reason)
    requires Selects(c, job, evs) && Rises(evs) && SkipsAt(job, evs, n) && Judged(c, job.(evs := evs), v)
    ensures v.outcome == Reject
    ensures r != AUTHORIZED_KEY_TRANSITION ==> (r in v.reasons <==> SkipFault(n == 0, r))
  {
    hide PlaceReasons, ListReasons, ReportsEnd, Unique, Transitions, ItemReasons, EvidenceAccepted, NothingRepeats,
         Verdicts, CountAccepted, SumAccepted, LinkedAt, ItemRaises, EndsAt, Stale, SkipFault, Rises, SkipsAt, StreamOf;
    var other, genesis := job.(evs := evs), job.Anchors().value.genesis;
    SameStreamItems(c, job, evs, 0);
    SameStreamJob(c, job, evs);
    RisesExactly(c, job, evs);
    FineListRepeatsNothing(c, evs);
    SkipBreaks(c, job, evs, n);
    var reasons :| JobExplains(c, other, reasons, v.verdicts) && v.reasons == Unique(reasons);
    var k :| 0 <= k < |evs|
      && StopsAt(c, job.arm, job.registry.value, genesis, evs, job.witnessQuorum, k, reasons, v.verdicts);
    StopsAtSkip(c, job, evs, n, k);
    SkipReasons(c, job, evs, n, r);
    SkipFaultIsSome(c, job, evs, n);
    InUnique(reasons, r);
  }

  lemma SkipFaultIsSome(c: Crypto, job: Job, evs: seq<Evidence>, n: nat)
    requires Selects(c, job, evs) && SkipsAt(job, evs, n) && NothingRepeats(c, evs)
    ensures PlaceReasons(c, job.Anchors().value.genesis, evs, n) != []
  {
    hide PlaceReasons, Selects, SkipsAt, NothingRepeats;
    SkipReasons(c, job, evs, n, EPOCH_GAP);
  }

  /** The skipping item is not linked. */
  lemma SkipBreaks(c: Crypto, job: Job, evs: seq<Evidence>, n: nat)
    requires Selects(c, job, evs) && SkipsAt(job, evs, n)
    ensures n < |evs| && !LinkedAt(job.Anchors().value.genesis, evs, n)
    ensures job.(evs := evs).Anchors() == job.Anchors() ==> !job.(evs := evs).Verified(c)
  {
    hide EndsAt, Stale, StreamOf, EvidenceAccepted, NothingRepeats;
    SkippedIsAhead(c, job, evs, n);
  }

  /** Everything before it is in place and accepted, and so it is where the walk stops. */
  lemma StopsAtSkip(c: Crypto, job: Job, evs: seq<Evidence>, n: nat, k: nat)
    requires Selects(c, job, evs) && SkipsAt(job, evs, n) && NothingRepeats(c, evs) && k < |evs|
    requires GoodPrefix(c, job.arm, job.registry.value, job.Anchors().value.genesis, evs, job.witnessQuorum, k)
    requires PlaceReasons(c, job.Anchors().value.genesis, evs, k) == [] ==>
      !EvidenceAccepted(c, job.arm, job.registry.value, evs[k], job.witnessQuorum)
    ensures k == n
  {
    hide EndsAt, Stale, StreamOf, EvidenceAccepted, NothingRepeats, PlaceReasons, LinkedAt, StreamVerified;
    SkipBreaks(c, job, evs, n);
    if k < n {
      LinkedBefore(c, job, evs, n, k);
      PlaceDecides(c, job.Anchors().value.genesis, evs, k);
      assert evs[k] in evs;
      ItemByEpoch(c, job, evs[k]);
    }
  }

  lemma LinkedBefore(c: Crypto, job: Job, evs: seq<Evidence>, n: nat, k: nat)
    requires Selects(c, job, evs) && SkipsAt(job, evs, n) && k < n
    ensures LinkedAt(job.Anchors().value.genesis, evs, k)
  {
    hide EndsAt, Stale, StreamOf, EvidenceAccepted, NothingRepeats, RecordsFit, StreamVerified;
    VerifiedIsLinked(c, job);
    assert LinkedAt(job.Anchors().value.genesis, job.evs, k);
    assert forall i :: 0 <= i < n ==> evs[i] == evs[..n][i] && job.evs[i] == job.evs[..n][i];
  }

  /** The codes for repetition, for order, for gaps and for the cut end. */
  predicate Listed(r: Reason) {
    || r == EPOCH_DUPLICATE || r == DUPLICATE_CHECKPOINT || r == CROSS_EPOCH_REPLAY
    || r == EPOCH_REORDER || r == SEQUENCE_REORDER || r == EPOCH_ROLLBACK || r == ROLLBACK_DETECTED
    || r == EPOCH_GAP || r == SEQUENCE_GAP || r == MIDDLE_TRUNCATION || r == PREV_ANCHOR_MISMATCH
    || r == SPLICE_OR_FORK || r == GENESIS_ANCHOR_MISMATCH
  }

  /** A first part of the stream verifies, and only its end is reported on. */
  lemma PartIsReported(c: Crypto, job: Job, evs: seq<Evidence>, v: StreamVerdict, r: Reason)
    requires Selects(c, job, evs) && evs <= job.evs && Judged(c, job.(evs := evs), v) && Listed(r)
    ensures r in v.reasons <==> r == ROLLBACK_DETECTED && evs != job.evs
  {
    hide Judged, EvidenceAccepted, NothingRepeats, StreamOf, StreamVerified, EndsAt, EndsBefore, Stale, Listed;
    var n, part := |evs|, job.(evs := evs);
    assert evs == job.evs[..n];
    PrefixVerifies(c, job, n);
    EndOfPart(c, job, n);
    PartTail(c, part, v, r);
    if n == |job.evs| {
      assert evs == job.evs;
      NotBeforeItsEnd(evs, job.Anchors().value.latest.value);
    }
  }

  lemma NotBeforeItsEnd(evs: seq<Evidence>, latest: Position)
    requires EndsAt(evs, latest)
    ensures !EndsBefore(evs, latest)
  {}

  /** The end of a part lies before the end of the stream, or is it. */
  lemma EndOfPart(c: Crypto, job: Job, n: nat)
    requires job.Accepted(c) && 0 < n <= |job.evs|
    ensures var latest := job.Anchors().value.latest.value;
      if n < |job.evs| then EndsBefore(job.evs[..n], latest) else EndsAt(job.evs[..n], latest)
  {
    hide EvidenceAccepted, NothingRepeats, StreamOf, StreamVerified, Stale, RecordsFit;
    if n < |job.evs| {
      OwnIndex(c, job, n - 1);
      OwnIndex(c, job, |job.evs| - 1);
    } else {
      assert job.evs[..n] == job.evs;
    }
  }

  /** What is reported of a verified stream that ends at or before the latest anchor. */
  lemma PartTail(c: Crypto, job: Job, v: StreamVerdict, r: Reason)
    requires job.Verified(c) && job.evs != [] && job.Anchors().value.latest.Some? && Judged(c, job, v) && Listed(r)
    requires EndsBefore(job.evs, job.Anchors().value.latest.value) || EndsAt(job.evs, job.Anchors().value.latest.value)
    ensures r in v.reasons <==> r == ROLLBACK_DETECTED && EndsBefore(job.evs, job.Anchors().value.latest.value)
  {
    hide StreamVerified, Diagnosed, StreamOf, Verdicts, AllRecords, Unique, Listed;
    var seen := Transitions(c, job.registry.value, job.evs, |job.evs|);
    var tail := TailReasons(job.evs, job.arm, job.Anchors().value.latest, job.auditTime);
    hide Transitions, TailReasons;
    TailCodes(job.evs, job.arm, job.Anchors().value.latest.value, job.auditTime, r);
    InUnique(seen + tail, r);
    assert r != AUTHORIZED_KEY_TRANSITION by { NotATransition(r); }
    assert r in seen + tail <==> r in seen || r in tail;
  }

  lemma NotATransition(r: Reason)
    requires Listed(r)
    ensures r != AUTHORIZED_KEY_TRANSITION
  {}

  lemma TailCodes(evs: seq<Evidence>, arm: Arm, latest: Position, auditTime: real, r: Reason)
    requires evs != [] && (EndsBefore(evs, latest) || EndsAt(evs, latest)) && Listed(r)
    ensures r in TailReasons(evs, arm, Some(latest), auditTime) <==> r == ROLLBACK_DETECTED && EndsBefore(evs, latest)
  {}

  /**
   * What each code says about a selection: repetitions and items moved back by the codes for repetition and order,
   * items left out before a later one as gaps, items left out at the end as a rollback of the history, and nothing as
   * a rollback of epochs.
   */
  ghost predicate SelectionFault(evs: seq<Evidence>, all: seq<Evidence>, r: Reason)
    requires evs != [] && all != []
  {
    var skips := if Rises(evs) then !(evs <= all) else evs[0] != all[0];
    || (!Distinct(evs) && (r == EPOCH_DUPLICATE || r == DUPLICATE_CHECKPOINT || r == CROSS_EPOCH_REPLAY))
    || (Falls(evs) && (r == EPOCH_REORDER || r == SEQUENCE_REORDER))
    || (skips && (r == EPOCH_GAP || r == SEQUENCE_GAP || r == MIDDLE_TRUNCATION || r == PREV_ANCHOR_MISMATCH
                  || r == SPLICE_OR_FORK))
    || (evs[0] != all[0] && r == GENESIS_ANCHOR_MISMATCH)
    || (evs < all && r == ROLLBACK_DETECTED)
  }

  /** Any selection of the items of an accepted history is reported by the codes that name what was done to it. */
  lemma SelectionReports(c: Crypto, job: Job, evs: seq<Evidence>, v: StreamVerdict, r: Reason)
    requires Selects(c, job, evs) && Judged(c, job.(evs := evs), v) && Listed(r)
    ensures evs != [] && job.evs != []
    ensures r in v.reasons <==> SelectionFault(evs, job.evs, r)
  {
    hide Judged, ListReasons, Distinct, Falls, Rises, Selects, SkipFault, SelectionFault;
    SomethingSelected(c, job, evs);
    RisesExactly(c, job, evs);
    FaultsByCase(evs, job.evs, r);
    if !Rises(evs) {
      FaultySelection(c, job, evs, v, r);
    } else if evs <= job.evs {
      PartIsReported(c, job, evs, v, r);
    } else {
      SkippingSelection(c, job, evs, v, r);
    }
  }

  lemma FaultsByCase(evs: seq<Evidence>, all: seq<Evidence>, r: Reason)
    requires evs != [] && all != [] && Listed(r)
    ensures !Rises(evs) && !(evs <= all) ==>
      (SelectionFault(evs, all, r) <==>
        || (!Distinct(evs) && (r == EPOCH_DUPLICATE || r == DUPLICATE_CHECKPOINT || r == CROSS_EPOCH_REPLAY))
        || (Falls(evs) && (r == EPOCH_REORDER || r == SEQUENCE_REORDER))
        || (evs[0] != all[0] && SkipFault(true, r)))
    ensures Rises(evs) && Distinct(evs) && !Falls(evs) && evs <= all ==>
      (SelectionFault(evs, all, r) <==> r == ROLLBACK_DETECTED && evs != all)
    ensures Rises(evs) && Distinct(evs) && !Falls(evs) && !(evs <= all) ==>
      (SelectionFault(evs, all, r) <==> SkipFault(evs[0] != all[0], r))
  {
    hide Rises, Distinct, Falls;
  }

  lemma SomethingSelected(c: Crypto, job: Job, evs: seq<Evidence>)
    requires Selects(c, job, evs)
    ensures evs != [] && job.evs != []
  {
    hide StreamVerified, EndsAt, Stale;
    assert evs[0] in evs;
  }

  lemma SkippingSelection(c: Crypto, job: Job, evs: seq<Evidence>, v: StreamVerdict, r: Reason)
    requires Selects(c, job, evs) && Judged(c, job.(evs := evs), v) && Rises(evs) && !(evs <= job.evs) && Listed(r)
    ensures r in v.reasons <==> SkipFault(evs[0] != job.evs[0], r)
  {
    hide Judged, Selects, Rises, Listed, SkipFault;
    var n := FirstSkip(c, job, evs, 0);
    SkipIsReported(c, job, evs, n, v, r);
    SkipsAtStart(c, job, evs, n);
    NotATransition(r);
  }

  lemma SkipsAtStart(c: Crypto, job: Job, evs: seq<Evidence>, n: nat)
    requires Selects(c, job, evs) && SkipsAt(job, evs, n)
    ensures evs[0] != job.evs[0] <==> n == 0
  {
    hide StreamVerified, EndsAt, Stale, StreamOf;
    if n > 0 {
      assert evs[0] == evs[..n][0] && job.evs[0] == job.evs[..n][0];
    } else {
      OwnIndex(c, job, 0);
    }
  }

  lemma FaultySelection(c: Crypto, job: Job, evs: seq<Evidence>, v: StreamVerdict, r: Reason)
    requires Selects(c, job, evs) && Judged(c, job.(evs := evs), v) && !Rises(evs)
    ensures !(evs <= job.evs)
    ensures r in v.reasons <==>
      || (!Distinct(evs) && (r == EPOCH_DUPLICATE || r == DUPLICATE_CHECKPOINT || r == CROSS_EPOCH_REPLAY))
      || (Falls(evs) && (r == EPOCH_REORDER || r == SEQUENCE_REORDER))
      || (evs[0] != job.evs[0] && SkipFault(true, r))
  {
    hide Judged, ListReasons, Distinct, Falls, Rises, NothingRepeats, Epochs, Starts, StreamVerified, EndsAt, Stale,
         StreamOf, StartFault, Descends, SkipFault;
    RisesExactly(c, job, evs);
    SameStreamItems(c, job, evs, 0);
    SameStreamJob(c, job, evs);
    FaultyListReports(c, job.(evs := evs), v, r);
    ListCodes(c, evs, r);
    SelectionAsList(c, job, evs);
    EpochsFall(evs);
    SelectedStart(c, job, evs, r);
    PartRises(c, job, evs);
  }

  lemma PartRises(c: Crypto, job: Job, evs: seq<Evidence>)
    requires job.Accepted(c)
    ensures evs <= job.evs ==> Rises(evs)
  {
    hide StreamVerified, EndsAt, Stale, StreamOf;
    if evs <= job.evs {
      forall i | 0 <= i < |evs| - 1 ensures evs[i].checkpoint.epoch < evs[i + 1].checkpoint.epoch {
        OwnIndex(c, job, i);
        OwnIndex(c, job, i + 1);
      }
    }
  }

  /** A selection that starts with another item than the stream starts with a gap. */
  lemma SelectedStart(c: Crypto, job: Job, evs: seq<Evidence>, r: Reason)
    requires Selects(c, job, evs)
    ensures StartFault(evs[0].checkpoint, job.Anchors().value.genesis, r) <==>
      evs[0] != job.evs[0] && SkipFault(true, r)
  {
    hide StreamVerified, EndsAt, Stale, StreamOf, LinkedAt, EvidenceAccepted;
    assert evs[0] in evs;
    var m := ItemOfStream(c, job, evs[0]);
    ItemStarts(c, job, m);
    NotTheGenesis(c, job, evs[0]);
    OwnIndex(c, job, 0);
    if m > 0 {
      assert SkipsAt(job, evs, 0);
      SkippedIsAhead(c, job, evs, 0);
      SkippedIsUnlinked(c, job, evs, 0);
    }
  }

  // ---- The first item out of place ----

  /** What each code says about an item: another stream, or a place other than the next one of its own. */
  predicate LinkFault(genesis: Position, evs: seq<Evidence>, n: nat, r: Reason)
    requires n < |evs|
  {
    var ckpt, epoch, seqNo := evs[n].checkpoint, genesis.epoch + n, ExpectedSeq(genesis, evs, n);
    var repeated := RangeSeen(evs, n);
    if StreamOf(evs[n]) != StreamOf(evs[0]) then r == MIXED_STREAM || r == SPLICE_OR_FORK
    else
      || (ckpt.epoch < epoch && (r == EPOCH_REORDER || r == EPOCH_ROLLBACK))
      || (ckpt.epoch > epoch && (r == EPOCH_GAP || r == MIDDLE_TRUNCATION))
      || (ckpt.seqStart != seqNo && repeated && (r == SEQUENCE_DUPLICATE || r == DUPLICATE_CHECKPOINT))
      || (ckpt.seqStart < seqNo && !repeated && r == SEQUENCE_REORDER)
      || (ckpt.seqStart > seqNo && !repeated && (r == SEQUENCE_GAP || r == MIDDLE_TRUNCATION))
      || (ckpt.prevAnchor != ExpectedPrev(genesis, evs, n)
          && (r == PREV_ANCHOR_MISMATCH || r == SPLICE_OR_FORK || (n == 0 && r == GENESIS_ANCHOR_MISMATCH)))
      || (ckpt.seqEnd < ckpt.seqStart && r == CHECKPOINT_RANGE_INVALID)
      || (ckpt.endAnchor == genesis.anchor && r == CROSS_EPOCH_REPLAY)
  }

  /** An earlier item has the same range. */
  predicate RangeSeen(evs: seq<Evidence>, n: nat)
    requires n < |evs|
  {
    exists k :: 0 <= k < n && evs[k].checkpoint.seqStart == evs[n].checkpoint.seqStart
                && evs[k].checkpoint.seqEnd == evs[n].checkpoint.seqEnd
  }

  /** In a list that neither repeats nor goes back, the first item out of place is reported, and only it. */
  lemma LinkReports(c: Crypto, job: Job, n: nat, v: StreamVerdict, r: Reason)
    requires EarlyReason(job).None? && Judged(c, job, v) && ListReasons(c, job.evs) == [] && n < |job.evs|
    requires GoodPrefix(c, job.arm, job.registry.value, job.Anchors().value.genesis, job.evs, job.witnessQuorum, n)
    requires !LinkedAt(job.Anchors().value.genesis, job.evs, n) && r != AUTHORIZED_KEY_TRANSITION
    ensures v.outcome == Reject
    ensures r in v.reasons <==> LinkFault(job.Anchors().value.genesis, job.evs, n, r)
  {
    hide PlaceReasons, ListReasons, ReportsEnd, Unique, Transitions, ItemReasons, EvidenceAccepted, NothingRepeats,
         Verdicts, CountsRejected, LinkedAt, ItemRaises, EndsAt, Stale, LinkFault, StreamOf, Judged, GoodPrefix;
    var genesis, evs := job.Anchors().value.genesis, job.evs;
    var reasons := StopsThere(c, job, genesis, n, v);
    LinkFaults(c, genesis, evs, n, r);
    InUnique(reasons, r);
  }

  /** There the walk stops. */
  lemma StopsThere(c: Crypto, job: Job, genesis: Position, n: nat, v: StreamVerdict) returns (reasons: seq<Reason>)
    requires EarlyReason(job).None? && Judged(c, job, v) && ListReasons(c, job.evs) == [] && n < |job.evs|
    requires genesis == job.Anchors().value.genesis
    requires GoodPrefix(c, job.arm, job.registry.value, genesis, job.evs, job.witnessQuorum, n)
    requires !LinkedAt(genesis, job.evs, n)
    ensures v.outcome == Reject && v.reasons == Unique(reasons) && CountsRejected(v, StreamOf(job.evs[0]))
    ensures PlaceReasons(c, genesis, job.evs, n) != []
    ensures StopsAt(c, job.arm, job.registry.value, genesis, job.evs, job.witnessQuorum, n, reasons, v.verdicts)
  {
    hide PlaceReasons, ListReasons, ReportsEnd, Unique, Transitions, ItemReasons, EvidenceAccepted, NothingRepeats,
         Verdicts, CountsRejected, LinkedAt, ItemRaises, EndsAt, Stale, StreamOf;
    FineListRepeatsNothing(c, job.evs);
    PlaceDecides(c, genesis, job.evs, n);
    reasons :| JobExplains(c, job, reasons, v.verdicts) && v.reasons == Unique(reasons);
    var k :| 0 <= k < |job.evs|
      && StopsAt(c, job.arm, job.registry.value, genesis, job.evs, job.witnessQuorum, k, reasons, v.verdicts);
    if k < n {
      PlaceDecides(c, genesis, job.evs, k);
    }
  }

  /** The reasons against the place of an item of a list that neither repeats nor goes back. */
  lemma LinkFaults(c: Crypto, genesis: Position, evs: seq<Evidence>, n: nat, r: Reason)
    requires n < |evs| && ListReasons(c, evs) == []
    ensures r in PlaceReasons(c, genesis, evs, n) <==> LinkFault(genesis, evs, n, r)
  {
    hide StreamOf, SeenAfter, Hashes, LinkReasons, NothingRepeats, Replays, ListReasons, ExpectedSeq, ExpectedPrev,
         EpochReasons, RangeReasons, PrevReasons, LinkFault;
    if StreamOf(evs[n]) == StreamOf(evs[0]) {
      FineListRepeatsNothing(c, evs);
      RepeatsOnlyGenesis(c, genesis, evs, n);
      PlaceParts(c, genesis, evs, n, r);
      EpochIsNew(c, genesis, evs, n);
      RangesSeen(c, genesis, evs, n);
      CodesAreFaults(genesis, evs, n, SeenAfter(c, genesis, evs, n), r);
    } else {
      ElsewhereFault(genesis, evs, n, r);
    }
  }

  lemma ElsewhereFault(genesis: Position, evs: seq<Evidence>, n: nat, r: Reason)
    requires n < |evs| && StreamOf(evs[n]) != StreamOf(evs[0])
    ensures LinkFault(genesis, evs, n, r) <==> r == MIXED_STREAM || r == SPLICE_OR_FORK
  {
    hide StreamOf;
  }

  lemma CodesAreFaults(genesis: Position, evs: seq<Evidence>, n: nat, seen: Seen, r: Reason)
    requires n < |evs| && StreamOf(evs[n]) == StreamOf(evs[0]) && evs[n].checkpoint.epoch !in seen.epochs
    requires (evs[n].checkpoint.seqStart, evs[n].checkpoint.seqEnd) in seen.ranges <==> RangeSeen(evs, n)
    ensures LinkFault(genesis, evs, n, r) <==>
      var ckpt := evs[n].checkpoint;
      || (r == CHECKPOINT_RANGE_INVALID && ckpt.seqEnd < ckpt.seqStart)
      || r in EpochReasons(ckpt.epoch, genesis.epoch + n, seen.epochs)
      || r in RangeReasons(ckpt.seqStart, ckpt.seqEnd, ExpectedSeq(genesis, evs, n), seen.ranges)
      || r in PrevReasons(ckpt.prevAnchor, ExpectedPrev(genesis, evs, n), n == 0)
      || (r == CROSS_EPOCH_REPLAY && ckpt.endAnchor == genesis.anchor)
  {
    hide StreamOf, EpochReasons, RangeReasons, PrevReasons, ExpectedSeq, ExpectedPrev, RangeSeen;
    var ckpt := evs[n].checkpoint;
    EpochCodes(ckpt.epoch, genesis.epoch + n, seen.epochs, r);
    RangeCodes(ckpt.seqStart, ckpt.seqEnd, ExpectedSeq(genesis, evs, n), seen.ranges, r);
    PrevCodes(ckpt.prevAnchor, ExpectedPrev(genesis, evs, n), n == 0, r);
  }

  lemma EpochIsNew(c: Crypto, genesis: Position, evs: seq<Evidence>, n: nat)
    requires n < |evs| && ListReasons(c, evs) == []
    ensures evs[n].checkpoint.epoch !in SeenAfter(c, genesis, evs, n).epochs
  {
    hide NothingRepeats, Hashes, Starts;
    forall k | 0 <= k < n ensures evs[k].checkpoint.epoch != evs[n].checkpoint.epoch {
      assert Epochs(evs)[k] != Epochs(evs)[n];
    }
  }

  lemma RangesSeen(c: Crypto, genesis: Position, evs: seq<Evidence>, n: nat)
    requires n < |evs|
    ensures (evs[n].checkpoint.seqStart, evs[n].checkpoint.seqEnd) in SeenAfter(c, genesis, evs, n).ranges
      <==> RangeSeen(evs, n)
  {
    hide NothingRepeats, Hashes;
    var range := (evs[n].checkpoint.seqStart, evs[n].checkpoint.seqEnd);
    assert forall k :: 0 <= k < n ==> evs[..n][k] == evs[k];
    if RangeSeen(evs, n) {
      var k :| 0 <= k < n && evs[k].checkpoint.seqStart == evs[n].checkpoint.seqStart
               && evs[k].checkpoint.seqEnd == evs[n].checkpoint.seqEnd;
      assert RangesOf(evs[..n])[k] == range;
    }
  }

  /** A second checkpoint moved to another stream is reported as that. */
  lemma SpliceReports(c: Crypto, job: Job, v: StreamVerdict, r: Reason)
    requires job.Accepted(c) && |job.evs| > 1 && r != AUTHORIZED_KEY_TRANSITION
    requires Judged(c, job.(evs := MutatedEvidence(Splice, job.evs)), v)
    ensures v.outcome == Reject && (r in v.reasons <==> r == MIXED_STREAM || r == SPLICE_OR_FORK)
  {
    hide StreamOf, StreamVerified, EndsAt, Stale, Judged, ListReasons, LinkedAt, LinkFault, GoodPrefix,
         MutatedEvidence;
    var evs, genesis := MutatedEvidence(Splice, job.evs), job.Anchors().value.genesis;
    SplicedStart(c, job);
    ElsewhereIsUnlinked(genesis, evs, 1);
    ElsewhereFault(genesis, evs, 1, r);
    LinkReports(c, job.(evs := evs), 1, v, r);
  }

  lemma SplicedStart(c: Crypto, job: Job)
    requires job.Accepted(c) && |job.evs| > 1
    ensures var evs := MutatedEvidence(Splice, job.evs);
      && EarlyReason(job.(evs := evs)).None? && job.(evs := evs).Anchors() == job.Anchors()
      && |evs| > 1 && StreamOf(evs[1]) != StreamOf(evs[0]) && ListReasons(c, evs) == []
      && GoodPrefix(c, job.arm, job.registry.value, job.Anchors().value.genesis, evs, job.witnessQuorum, 1)
  {
    hide StreamOf, EvidenceAccepted, StreamVerified, EndsAt, Stale, SplicedItem, ListReasons, LinkedAt;
    SameStreamJob(c, job, MutatedEvidence(Splice, job.evs));
    SplicedIsElsewhere(job.evs[1]);
    VerifiedStream(c, job, 1);
    var k := ItemOfStream(c, job, job.evs[0]);
    SplicedList(c, job);
  }

  lemma ElsewhereIsUnlinked(genesis: Position, evs: seq<Evidence>, n: nat)
    requires n < |evs| && StreamOf(evs[n]) != StreamOf(evs[0])
    ensures !LinkedAt(genesis, evs, n)
  {}

  /** The checks on the list do not look at the stream of an item. */
  lemma SplicedList(c: Crypto, job: Job)
    requires job.Accepted(c) && |job.evs| > 1
    ensures var evs := MutatedEvidence(Splice, job.evs);
      ListReasons(c, evs) == [] && LinkedAt(job.Anchors().value.genesis, evs, 0)
  {
    hide StreamOf, EvidenceAccepted, EndsAt, Stale, ListReasons, NothingRepeats, SplicedItem;
    VerifiedIsPresentedFine(c, job.arm, job.registry.value, job.Anchors().value.genesis, job.evs, job.witnessQuorum);
    SplicedLists(c, job.evs);
    assert LinkedAt(job.Anchors().value.genesis, job.evs, 0);
  }

  lemma SplicedLists(c: Crypto, evs: seq<Evidence>)
    requires 1 < |evs|
    ensures ListReasons(c, evs[1 := SplicedItem(evs[1])]) == ListReasons(c, evs)
  {
    hide StreamOf, AllRecords, Hashes, Distinct, Descends;
    var spliced := evs[1 := SplicedItem(evs[1])];
    assert Epochs(spliced) == Epochs(evs) && Starts(spliced) == Starts(evs) && EndAnchors(spliced) == EndAnchors(evs);
    SplicedRecords(evs, |evs|);
    assert spliced[..|spliced|] == spliced && evs[..|evs|] == evs;
  }

  lemma {:induction false} SplicedRecords(evs: seq<Evidence>, n: nat)
    requires 1 < |evs| && n <= |evs|
    ensures AllRecords(evs[1 := SplicedItem(evs[1])][..n]) == AllRecords(evs[..n])
  {
    if n > 0 {
      SplicedRecords(evs, n - 1);
      var spliced := evs[1 := SplicedItem(evs[1])];
      assert spliced[..n][..n - 1] == spliced[..n - 1] && evs[..n][..n - 1] == evs[..n - 1];
    }
  }

  // ---- Counts and flags ----

  /** What is said of a verified history beside its reasons. */
  lemma VerifiedFlags(c: Crypto, job: Job, v: StreamVerdict)
    requires job.Verified(c) && job.evs != [] && job.Anchors().value.latest.Some? && Judged(c, job, v)
    ensures var last, latest := job.evs[|job.evs| - 1].checkpoint, job.Anchors().value.latest.value;
      var atLatest := last.epoch == latest.epoch && last.seqEnd == latest.seqNo && last.endAnchor == latest.anchor;
      && v.startedFromAnchor && (v.endedAtLatest <==> atLatest)
      && (v.tailComplete <==> atLatest && (latest.validUntil == None || job.auditTime <= latest.validUntil.value))
      && v.streamId == Some(StreamOf(job.evs[0]))
      && |v.verdicts| == |job.evs| == v.verifiedCheckpoints && v.verifiedRecords == |AllRecords(job.evs)|
  {
    hide StreamVerified, Diagnosed, StreamOf, Transitions, TailReasons, ItemVerdict, AllRecords, Unique;
  }

  /** What is said of one whose item n is out of place: the items before it are counted, and no more. */
  lemma RefusedFlags(c: Crypto, job: Job, n: nat, v: StreamVerdict)
    requires EarlyReason(job).None? && Judged(c, job, v) && ListReasons(c, job.evs) == [] && n < |job.evs|
    requires GoodPrefix(c, job.arm, job.registry.value, job.Anchors().value.genesis, job.evs, job.witnessQuorum, n)
    requires !LinkedAt(job.Anchors().value.genesis, job.evs, n) && Unambiguous(job.registry.value)
    ensures v.startedFromAnchor && !v.tailComplete && !v.endedAtLatest && v.streamId == Some(StreamOf(job.evs[0]))
    ensures v.verifiedCheckpoints == n && v.verifiedRecords == |AllRecords(job.evs[..n])|
  {
    hide PlaceReasons, ListReasons, ReportsEnd, Unique, Transitions, ItemReasons, EvidenceAccepted, NothingRepeats,
         LinkedAt, ItemRaises, EndsAt, Stale, StreamOf, Verdicts, CountAccepted, SumAccepted, Judged, GoodPrefix;
    var genesis, evs := job.Anchors().value.genesis, job.evs;
    var reasons := StopsThere(c, job, genesis, n, v);
    GoodCounts(c, job.arm, job.registry.value, genesis, evs, job.witnessQuorum, n);
  }

  /** Accepted items are counted with all their records. */
  lemma {:induction false} GoodCounts(c: Crypto, arm: Arm, reg: Registry, genesis: Position, evs: seq<Evidence>,
                                      q: Option<int>, n: nat)
    requires n <= |evs| && GoodPrefix(c, arm, reg, genesis, evs, q, n) && Unambiguous(reg)
    ensures var verdicts := Verdicts(c, arm, reg, evs, q, n);
      CountAccepted(verdicts) == n && SumAccepted(verdicts) == |AllRecords(evs[..n])|
  {
    hide EvidenceAccepted, LinkedAt, ItemVerdict, Verdicts, CountAccepted, SumAccepted, AllRecords;
    if n == 0 {
      NothingCounted(c, arm, reg, evs, q);
    } else {
      GoodCounts(c, arm, reg, genesis, evs, q, n - 1);
      VerdictsSnoc(c, arm, reg, evs, q, n - 1);
      AcceptedCounts(c, arm, reg, evs[n - 1], q);
      CountsGrow(Verdicts(c, arm, reg, evs, q, n - 1), ItemVerdict(c, arm, Some(reg), evs[n - 1], q));
      PrefixRecords(evs, n - 1);
    }
  }

  lemma NothingCounted(c: Crypto, arm: Arm, reg: Registry, evs: seq<Evidence>, q: Option<int>)
    ensures CountAccepted(Verdicts(c, arm, reg, evs, q, 0)) == 0
    ensures SumAccepted(Verdicts(c, arm, reg, evs, q, 0)) == |AllRecords(evs[..0])| == 0
  {}

  lemma AcceptedCounts(c: Crypto, arm: Arm, reg: Registry, ev: Evidence, q: Option<int>)
    requires Unambiguous(reg) && EvidenceAccepted(c, arm, reg, ev, q)
    ensures ItemVerdict(c, arm, Some(reg), ev, q).accepted
    ensures ItemVerdict(c, arm, Some(reg), ev, q).validRecords == |ev.records|
  {
    hide EvidenceAccepted, ItemVerdict;
    VerdictDecides(c, arm, reg, ev, q);
  }

  lemma CountsGrow(before: seq<AuditVerdict>, last: AuditVerdict)
    requires last.accepted
    ensures CountAccepted(before + [last]) == CountAccepted(before) + 1
    ensures SumAccepted(before + [last]) == SumAccepted(before) + last.validRecords
  {
    assert (before + [last])[..|before|] == before;
  }
}
