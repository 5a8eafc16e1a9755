/** Manipulated evidence: the delivery auditor faults the history exactly where the oracle calls it manipulated. */
module Manipulation {
  import opened Prelude
  import opened Bytes
  import opened Text
  import opened Crypto
  import opened Codec
  import opened Registry
  import opened Evidence
  import opened Receipts
  import opened ItemAudit
  import opened StreamAudit
  import opened Tiling
  import opened QosAuditor
  import opened QosTheorems

  // ---- Any other selection of accepted items ----

  /** What the delivery auditor is told of a stream verdict. */
  ghost predicate ShowsVerdict(h: History, v: StreamVerdict) {
    && h.outcome == (match v.outcome
                     case Accept => AcceptedStream
                     case Reject => RejectedStream
                     case Inconclusive => InconclusiveStream)
    && h.cryptoReasons == Elements(v.reasons)
  }

  /** A rejection with a reason that is more than missing trust or availability. */
  predicate Condemned(v: StreamVerdict) {
    v.outcome == Reject && exists r :: r in v.reasons && r !in AVAILABILITY
  }

  lemma CondemnedIsFailure(h: History, v: StreamVerdict)
    requires ShowsVerdict(h, v) && Condemned(v)
    ensures CheckpointFailure(h)
  {
    var r :| r in v.reasons && r !in AVAILABILITY;
    assert r in h.cryptoReasons;
  }

  /** Reasons about the history itself, not about missing trust or availability. */
  predicate OfHistory(reasons: seq<Reason>) { forall r :: r in reasons ==> r !in AVAILABILITY }

  lemma OfHistoryConcat(a: seq<Reason>, b: seq<Reason>)
    requires OfHistory(a) && OfHistory(b)
    ensures OfHistory(a + b)
  {
    hide AVAILABILITY;
  }

  lemma EpochIsOfHistory(epoch: int, expected: int, seen: set<int>)
    ensures OfHistory(EpochReasons(epoch, expected, seen))
  {}

  lemma RangeIsOfHistory(seqStart: int, seqEnd: int, expected: int, seen: set<(int, int)>)
    ensures OfHistory(RangeReasons(seqStart, seqEnd, expected, seen))
  {}

  lemma PrevIsOfHistory(prev: Bytes, expected: Bytes, first: bool)
    ensures OfHistory(PrevReasons(prev, expected, first))
  {}

  lemma OneIsOfHistory(flaw: bool)
    ensures OfHistory(When(flaw, CHECKPOINT_RANGE_INVALID)) && OfHistory(When(flaw, CROSS_EPOCH_REPLAY))
    ensures OfHistory(When(flaw, EPOCH_REORDER)) && OfHistory(When(flaw, SEQUENCE_REORDER))
    ensures OfHistory([MIXED_STREAM, SPLICE_OR_FORK]) && OfHistory([EPOCH_DUPLICATE, DUPLICATE_CHECKPOINT])
    ensures OfHistory([])
  {}

  /** Whatever is wrong with the place of an item is of the history. */
  lemma PlaceIsOfHistory(c: Crypto, genesis: Position, evs: seq<Evidence>, n: nat)
    requires n < |evs|
    ensures OfHistory(PlaceReasons(c, genesis, evs, n))
  {
    hide StreamOf, SeenAfter, Replays, Hashes, OfHistory, When, EpochReasons, RangeReasons, PrevReasons;
    OneIsOfHistory(true);
    if StreamOf(evs[n]) == StreamOf(evs[0]) {
      var ckpt, seen := evs[n].checkpoint, SeenAfter(c, genesis, evs, n);
      var range := When(ckpt.seqEnd < ckpt.seqStart, CHECKPOINT_RANGE_INVALID);
      var epoch := EpochReasons(ckpt.epoch, genesis.epoch + n, seen.epochs);
      var start := RangeReasons(ckpt.seqStart, ckpt.seqEnd, ExpectedSeq(genesis, evs, n), seen.ranges);
      var prev := PrevReasons(ckpt.prevAnchor, ExpectedPrev(genesis, evs, n), n == 0);
      OneIsOfHistory(ckpt.seqEnd < ckpt.seqStart);
      OneIsOfHistory(Replays(ckpt, Hashes(c, evs[n].records), seen.anchors, seen.hashes));
      EpochIsOfHistory(ckpt.epoch, genesis.epoch + n, seen.epochs);
      RangeIsOfHistory(ckpt.seqStart, ckpt.seqEnd, ExpectedSeq(genesis, evs, n), seen.ranges);
      PrevIsOfHistory(ckpt.prevAnchor, ExpectedPrev(genesis, evs, n), n == 0);
      OfHistoryConcat(range, epoch);
      OfHistoryConcat(range + epoch, start);
      OfHistoryConcat(range + epoch + start, prev);
      OfHistoryConcat(range + epoch + start + prev,
                      When(Replays(ckpt, Hashes(c, evs[n].records), seen.anchors, seen.hashes), CROSS_EPOCH_REPLAY));
    }
  }

  /** And so is whatever is wrong with the list. */
  lemma ListIsOfHistory(c: Crypto, evs: seq<Evidence>)
    ensures OfHistory(ListReasons(c, evs))
  {
    hide NothingRepeats, Epochs, Starts, Descends, Distinct, OfHistory, When;
    OneIsOfHistory(Descends(Epochs(evs)));
    OneIsOfHistory(Descends(Starts(evs)));
    OneIsOfHistory(!NothingRepeats(c, evs));
    var twice := if Distinct(Epochs(evs)) then [] else [EPOCH_DUPLICATE, DUPLICATE_CHECKPOINT];
    var epochs, starts := When(Descends(Epochs(evs)), EPOCH_REORDER), When(Descends(Starts(evs)), SEQUENCE_REORDER);
    OfHistoryConcat(twice, epochs);
    OfHistoryConcat(twice + epochs, starts);
    OfHistoryConcat(twice + epochs + starts, When(!NothingRepeats(c, evs), CROSS_EPOCH_REPLAY));
  }

  /** Every item would be accepted in its place. */
  ghost predicate ItemsAcceptable(c: Crypto, job: Job)
    requires EarlyReason(job).None?
  {
    forall n :: 0 <= n < |job.evs| && PlaceReasons(c, job.Anchors().value.genesis, job.evs, n) == []
      ==> EvidenceAccepted(c, job.arm, job.registry.value, job.evs[n], job.witnessQuorum)
  }

  /** Such a stream is answered, and if it does not verify, condemned for the places of its items. */
  lemma MisplacedIsCondemned(c: Crypto, job: Job)
    requires EarlyReason(job).None? && Unambiguous(job.registry.value) && ItemsAcceptable(c, job)
    ensures !JobRaises(c, job)
    ensures !job.Verified(c) ==> forall v :: Judged(c, job, v) ==> Condemned(v)
  {
    hide PlaceReasons, EvidenceAccepted, ItemRaises, StreamVerified, ReportsEnd, AVAILABILITY, Condemned;
    forall n | 0 <= n < |job.evs|
      ensures !RaisesAt(c, job.arm, job.registry.value, job.Anchors().value.genesis, job.evs, job.witnessQuorum, n)
    {
      if ItemRaises(job.arm, job.registry, job.evs[n]) {
        RaisingIsRefused(c, job.arm, job.registry.value, job.evs[n], job.witnessQuorum);
      }
    }
    if !job.Verified(c) {
      forall v | Judged(c, job, v) ensures Condemned(v) {
        MisplacedVerdict(c, job, v);
      }
    }
  }

  lemma MisplacedVerdict(c: Crypto, job: Job, v: StreamVerdict)
    requires EarlyReason(job).None? && ItemsAcceptable(c, job) && v.outcome == Reject && Diagnosed(c, job, v)
    ensures Condemned(v)
  {
    hide PlaceReasons, ListReasons, EvidenceAccepted, ItemRaises, GoodPrefix, Transitions, ItemReasons, Verdicts,
         AVAILABILITY, Unique, CountAccepted, SumAccepted;
    var genesis, evs := job.Anchors().value.genesis, job.evs;
    var reasons :| JobExplains(c, job, reasons, v.verdicts) && v.reasons == Unique(reasons);
    if ListReasons(c, evs) != [] {
      ListIsOfHistory(c, evs);
      assert ListReasons(c, evs)[0] in reasons;
    } else {
      var n :| 0 <= n < |evs|
        && StopsAt(c, job.arm, job.registry.value, genesis, evs, job.witnessQuorum, n, reasons, v.verdicts);
      PlaceIsOfHistory(c, genesis, evs, n);
      assert PlaceReasons(c, genesis, evs, n)[0] in reasons;
    }
  }

  /** Presenting other items of the same stream changes neither anchors nor what is decided before the walk. */
  lemma SameStreamJob(c: Crypto, job: Job, evs: seq<Evidence>)
    requires job.Accepted(c) && evs != [] && StreamOf(evs[0]) == StreamOf(job.evs[0])
    ensures job.(evs := evs).Anchors() == job.Anchors() && EarlyReason(job.(evs := evs)).None?
  {
    hide StreamVerified, StreamOf;
    if job.arm == A2 {
      NonTransferable(c, job);
    }
  }

  /** Items of an accepted stream stand at the index their epoch says. */
  lemma ItemOfStream(c: Crypto, job: Job, ev: Evidence) returns (k: nat)
    requires job.Accepted(c) && ev in job.evs
    ensures k < |job.evs| && job.evs[k] == ev && ev.checkpoint.epoch == job.Anchors().value.genesis.epoch + k
    ensures EvidenceAccepted(c, job.arm, job.registry.value, ev, job.witnessQuorum)
    ensures StreamOf(ev) == StreamOf(job.evs[0])
  {
    hide EvidenceAccepted, StreamOf;
    k :| 0 <= k < |job.evs| && job.evs[k] == ev;
    assert LinkedAt(job.Anchors().value.genesis, job.evs, k);
  }

  /** If a selection of the items verifies, it is the stream up to some item. */
  lemma VerifiedSelectionIsPrefix(c: Crypto, job: Job, evs: seq<Evidence>)
    requires job.Accepted(c) && evs != [] && forall ev :: ev in evs ==> ev in job.evs
    requires job.(evs := evs).Verified(c)
    ensures |evs| <= |job.evs| && evs == job.evs[..|evs|]
  {
    hide StreamOf, StreamVerified, EvidenceAccepted;
    var k0 := ItemOfStream(c, job, evs[0]);
    SameStreamJob(c, job, evs);
    forall i | 0 <= i < |evs| ensures i < |job.evs| && evs[i] == job.evs[i] {
      var k := ItemOfStream(c, job, evs[i]);
      VerifiedEpoch(c, job.(evs := evs), i);
    }
    var last := ItemOfStream(c, job, evs[|evs| - 1]);
    VerifiedEpoch(c, job.(evs := evs), |evs| - 1);
  }

  lemma VerifiedEpoch(c: Crypto, job: Job, i: nat)
    requires job.Verified(c) && i < |job.evs|
    ensures job.evs[i].checkpoint.epoch == job.Anchors().value.genesis.epoch + i
  {
    hide StreamOf, EvidenceAccepted, NothingRepeats;
    assert LinkedAt(job.Anchors().value.genesis, job.evs, i);
  }

  /**
   * Whatever an adversary makes of the items of an accepted stream - leaving some out, repeating, reordering them, in
   * any way but presenting all of them in order - is answered with a rejection that condemns the history.
   */
  lemma AnyOtherSelectionIsCondemned(c: Crypto, job: Job, evs: seq<Evidence>)
    requires job.Accepted(c) && Unambiguous(job.registry.value)
    requires evs != [] && evs != job.evs && forall ev :: ev in evs ==> ev in job.evs
    ensures !JobRaises(c, job.(evs := evs))
    ensures forall v :: Judged(c, job.(evs := evs), v) ==> Condemned(v)
  {
    hide StreamOf, EvidenceAccepted, StreamVerified, EndsAt, Stale, PlaceReasons, Judged, Condemned, JobRaises;
    var other := job.(evs := evs);
    var k0 := ItemOfStream(c, job, evs[0]);
    SameStreamJob(c, job, evs);
    forall n | 0 <= n < |evs|
      ensures EvidenceAccepted(c, job.arm, job.registry.value, evs[n], job.witnessQuorum)
    {
      var k := ItemOfStream(c, job, evs[n]);
    }
    MisplacedIsCondemned(c, other);
    if other.Verified(c) {
      VerifiedSelectionIsPrefix(c, job, evs);
      CutIsCondemned(c, job, |evs|);
    }
  }

  /** A verified part that ends early is condemned as a rollback. */
  lemma CutIsCondemned(c: Crypto, job: Job, n: nat)
    requires job.Accepted(c) && 0 < n < |job.evs|
    ensures forall v :: Judged(c, job.(evs := job.evs[..n]), v) ==> Condemned(v)
  {
    hide StreamOf, StreamVerified, EndsAt, EndsBefore, Stale, Diagnosed, ReportsEnd;
    var other := job.(evs := job.evs[..n]);
    TruncationIsRollback(c, job, n);
    forall v | Judged(c, other, v) ensures Condemned(v) {
      RolledBackIsRejected(c, other);
      ReportsRollback(c, other, v);
    }
  }

  lemma RolledBackIsRejected(c: Crypto, job: Job)
    requires job.RolledBack(c)
    ensures !job.Accepted(c) && !job.Undecided(c)
  {
    hide StreamVerified, Stale;
  }

  // ---- The scenarios of the corpus ----

  datatype EvidenceScenario =
    | Splice | Rollback | MiddleTruncation | TailTruncation | WitnessUnavailable | BelowQuorum | ExpiredAnchor

  /** The oracle's `evidence_integrity_violation`. */
  predicate HistoryManipulated(sc: EvidenceScenario) {
    sc in {Splice, Rollback, MiddleTruncation, TailTruncation}
  }

  const FOREIGN_ANCHOR: Bytes := [
    255, 255, 255, 255, 255, 255, 255, 255, 255, 255, 255, 255, 255, 255, 255, 255,
    255, 255, 255, 255, 255, 255, 255, 255, 255, 255, 255, 255, 255, 255, 255, 255]

  function SplicedTopic(topic: Text): Text {
    LiteralIsUtf8("/spliced");
    Utf8Concat(topic, Literal("/spliced"));
    topic + Literal("/spliced")
  }

  function SplicedItem(ev: Evidence): Evidence {
    ev.(checkpoint := ev.checkpoint.(topic := SplicedTopic(ev.checkpoint.topic), prevAnchor := FOREIGN_ANCHOR))
  }

  /** The first n receipts only. */
  function Witnessed(ev: Evidence, n: nat): Evidence {
    var receipts := OrEmpty(ev.receipts);
    ev.(receipts := Some(if |receipts| < n then receipts else receipts[..n]))
  }

  function AllWitnessed(evs: seq<Evidence>, n: nat): seq<Evidence> {
    seq(|evs|, i requires 0 <= i < |evs| => Witnessed(evs[i], n))
  }

  /** `_mutated_evidence`. */
  function MutatedEvidence(sc: EvidenceScenario, evs: seq<Evidence>): seq<Evidence> {
    match sc
    case Splice => if |evs| > 1 then evs[1 := SplicedItem(evs[1])] else evs
    case Rollback => if evs == [] then [] else evs[..|evs| - 1]
    case TailTruncation => if evs == [] then [] else evs[..|evs| - 1]
    case MiddleTruncation => if |evs| > 1 then evs[1..] else evs
    case WitnessUnavailable => AllWitnessed(evs, 0)
    case BelowQuorum => AllWitnessed(evs, 1)
    case ExpiredAnchor => evs
  }

  /** Anchors whose latest position was valid until just before the audit. */
  function Expired(a: StreamAnchors, auditTime: real): StreamAnchors {
    a.(latest := if a.latest.Some? then Some(a.latest.value.(validUntil := Some(auditTime - 1.0))) else None)
  }

  /** The job `verify_real_crypto_case` audits: manipulated evidence, the anchors of the whole history. */
  function ManipulatedJob(sc: EvidenceScenario, job: Job): Job
    requires job.Anchors().Some?
  {
    var a := job.Anchors().value;
    job.(evs := MutatedEvidence(sc, job.evs),
         anchors := Some([if sc == ExpiredAnchor then Expired(a, job.auditTime) else a]))
  }

  /** What the delivery auditor is shown of such a case. */
  ghost predicate ShowsCase(h: History, sc: EvidenceScenario, job: Job, v: StreamVerdict)
    requires job.Anchors().Some?
  {
    ShowsVerdict(h, v) && ShowsHistory(h, MutatedEvidence(sc, job.evs), job.Anchors().value)
  }

  // ---- Splicing ----

  lemma SplicedIsElsewhere(ev: Evidence)
    ensures StreamOf(SplicedItem(ev)) != StreamOf(ev)
  {
    hide CanonicalStreamId;
    var ckpt := ev.checkpoint;
    assert |SplicedTopic(ckpt.topic)| == |ckpt.topic| + 8;
    if StreamOf(SplicedItem(ev)) == StreamOf(ev) {
      StreamIdInjective(ckpt.clientId, SplicedTopic(ckpt.topic), ckpt.clientId, ckpt.topic);
    }
  }

  /** A spliced second checkpoint is condemned. */
  lemma SpliceIsCondemned(c: Crypto, job: Job)
    requires job.Accepted(c) && Unambiguous(job.registry.value) && |job.evs| > 1
    ensures var spliced := job.(evs := MutatedEvidence(Splice, job.evs));
      !JobRaises(c, spliced) && forall v :: Judged(c, spliced, v) ==> Condemned(v)
  {
    hide StreamOf, EvidenceAccepted, StreamVerified, EndsAt, Stale, Judged, Condemned, JobRaises, SplicedItem,
         LinkReasons;
    var evs := MutatedEvidence(Splice, job.evs);
    var spliced := job.(evs := evs);
    SameStreamJob(c, job, evs);
    SplicedIsElsewhere(job.evs[1]);
    var k1 := ItemOfStream(c, job, job.evs[1]);
    forall n | 0 <= n < |evs| && n != 1
      ensures EvidenceAccepted(c, job.arm, job.registry.value, evs[n], job.witnessQuorum)
    {
      var k := ItemOfStream(c, job, job.evs[n]);
    }
    assert PlaceReasons(c, job.Anchors().value.genesis, evs, 1) != [];
    MisplacedIsCondemned(c, spliced);
    if spliced.Verified(c) {
      VerifiedStream(c, spliced, 1);
    }
  }

  lemma VerifiedStream(c: Crypto, job: Job, i: nat)
    requires job.Verified(c) && i < |job.evs|
    ensures StreamOf(job.evs[i]) == StreamOf(job.evs[0])
  {
    hide StreamOf, EvidenceAccepted, NothingRepeats;
    assert LinkedAt(job.Anchors().value.genesis, job.evs, i);
  }

  // ---- Missing receipts ----

  /** The first receipts of accepted ones have no flaw; they only may be too few. */
  lemma FewReceipts(c: Crypto, reg: Registry, ev: Evidence, q: Option<int>, n: nat)
    requires ReceiptsAccepted(c, reg, ev, q)
    ensures var few, policy := Witnessed(ev, n), PolicyFor(reg, StreamOf(ev)).value;
      ReceiptReasons(c, reg, few, q)
        == if |OrEmpty(few.receipts)| < Required(policy, q) then [WITNESS_BELOW_QUORUM] else []
  {
    hide Vouched, KeyIdOf, Flaws, StreamOf;
    var few, policy := Witnessed(ev, n), PolicyFor(reg, StreamOf(ev)).value;
    var all, rs := OrEmpty(ev.receipts), OrEmpty(few.receipts);
    assert StreamOf(few) == StreamOf(ev) by { SameCheckpointSameStream(ev, few); }
    PrefixVouched(c, reg, policy, ev.checkpoint, all, |rs|);
    assert rs == all[..|rs|] && rs[..|rs|] == rs;
    FlawlessIsVouched(c, reg, policy, ev.checkpoint, rs, |rs|);
  }

  lemma SameCheckpointSameStream(a: Evidence, b: Evidence)
    requires a.checkpoint == b.checkpoint
    ensures StreamOf(a) == StreamOf(b)
  {}

  lemma PrefixVouched(c: Crypto, reg: Registry, policy: WitnessPolicy, ckpt: Checkpoint, all: seq<Receipt>, n: nat)
    requires n <= |all| && AllVouched(c, reg, policy, ckpt, all)
    ensures AllVouched(c, reg, policy, ckpt, all[..n])
  {
    hide Vouched, KeyIdOf;
    var rs := all[..n];
    forall i, j | 0 <= i < j < n
      ensures Ids(rs)[i] != Ids(rs)[j] && KeyIds(c, reg, rs)[i] != KeyIds(c, reg, rs)[j]
    {
      assert Ids(all)[i] != Ids(all)[j] && KeyIds(c, reg, all)[i] != KeyIds(c, reg, all)[j];
    }
  }

  /** The number of receipts the item's policy demands. */
  function Demanded(job: Job, ev: Evidence): int
    requires job.registry.Some?
  {
    var policy := PolicyFor(job.registry.value, StreamOf(ev));
    if job.arm == A6 && policy.Some? then Required(policy.value, job.witnessQuorum) else 0
  }

  /** An accepted item with fewer receipts is answered, and at worst found to be below its quorum. */
  lemma FewerIsBelowQuorum(c: Crypto, job: Job, ev: Evidence, n: nat)
    requires job.registry.Some? && Unambiguous(job.registry.value) && job.arm != A1
    requires EvidenceAccepted(c, job.arm, job.registry.value, ev, job.witnessQuorum)
    ensures var few, reg, q := Witnessed(ev, n), job.registry.value, job.witnessQuorum;
      && !ItemRaises(job.arm, Some(reg), few)
      && ItemReasons(c, job.arm, Some(reg), few, q)
           == (if |OrEmpty(few.receipts)| < Demanded(job, ev) then [WITNESS_BELOW_QUORUM] else [])
      && (EvidenceAccepted(c, job.arm, reg, few, q) <==> |OrEmpty(few.receipts)| >= Demanded(job, ev))
  {
    hide EvidenceAccepted, ItemReasons, ItemRaises, ReceiptReasons, StreamOf, ReceiptsAccepted, PolicyFor, Unique;
    var few, reg, q := Witnessed(ev, n), job.registry.value, job.witnessQuorum;
    FewerKeepsRest(c, job.arm, reg, ev, q, n);
    if job.arm == A6 {
      AcceptedReceipts(c, job.arm, reg, ev, q);
      FewReceipts(c, reg, ev, q, n);
      AcceptedPolicy(c, reg, ev, q);
      SingleIsUnique(WITNESS_BELOW_QUORUM);
      assert Unique([]) == [] by { NothingIsUnique(); }
    }
    ReasonsDecide(c, job.arm, reg, few, q);
  }

  /** Without an exception, an item is accepted exactly when there is nothing to say against it. */
  lemma ReasonsDecide(c: Crypto, arm: Arm, reg: Registry, ev: Evidence, q: Option<int>)
    requires Unambiguous(reg) && !ItemRaises(arm, Some(reg), ev)
    ensures ItemReasons(c, arm, Some(reg), ev, q) == [] <==> EvidenceAccepted(c, arm, reg, ev, q)
  {
    hide EvidenceAccepted, ItemReasons, ItemRaises, Unique, PublisherReasons, GoodRecords;
    VerdictDecides(c, arm, reg, ev, q);
    if ItemReasons(c, arm, Some(reg), ev, q) == [] {
      EmptyVerdict(c, arm, reg, ev, q);
    }
  }

  lemma AcceptedReceipts(c: Crypto, arm: Arm, reg: Registry, ev: Evidence, q: Option<int>)
    requires EvidenceAccepted(c, arm, reg, ev, q)
    ensures arm == A6 ==> ReceiptsAccepted(c, reg, ev, q)
  {}

  lemma AcceptedPolicy(c: Crypto, reg: Registry, ev: Evidence, q: Option<int>)
    requires ReceiptsAccepted(c, reg, ev, q)
    ensures PolicyFor(reg, StreamOf(ev)).Some?
  {}

  /** Receipts do not matter to publisher and commitment. */
  lemma FewerKeepsRest(c: Crypto, arm: Arm, reg: Registry, ev: Evidence, q: Option<int>, n: nat)
    requires Unambiguous(reg) && arm != A1 && EvidenceAccepted(c, arm, reg, ev, q)
    ensures var few := Witnessed(ev, n);
      && !ItemRaises(arm, Some(reg), few)
      && ItemReasons(c, arm, Some(reg), few, q)
           == if arm == A6 then Unique(ReceiptReasons(c, reg, few, q)) else []
  {
    hide Unique, ReceiptReasons, RecordsFit, Committed, CommitmentReasons, CommitmentRaises, PublisherReasons,
         PublisherVouches, AuthorizationOf, ReceiptsAccepted, ReceiptFits;
    var few := Witnessed(ev, n);
    VoucherDecides(arm, reg, ev);
    SamePublisher(arm, reg, ev, n);
    var auth := AuthorizationOf(reg, ev).value;
    AcceptedByTheVoucher(c, arm, reg, ev, q, auth);
    SameCommitment(c, arm, auth, ev, n);
    CommitmentDecides(c, arm, auth, few);
    if arm == A6 {
      AcceptedReceiptsFit(c, reg, ev, q);
      assert forall i :: 0 <= i < |OrEmpty(few.receipts)| ==> OrEmpty(few.receipts)[i] == OrEmpty(ev.receipts)[i];
    }
  }

  lemma SamePublisher(arm: Arm, reg: Registry, ev: Evidence, n: nat)
    ensures PublisherReasons(arm, Some(reg), Witnessed(ev, n)) == PublisherReasons(arm, Some(reg), ev)
    ensures AuthorizationOf(reg, Witnessed(ev, n)) == AuthorizationOf(reg, ev)
  {}

  lemma SameCommitment(c: Crypto, arm: Arm, auth: PublisherAuth, ev: Evidence, n: nat)
    requires arm != A1 && RecordsFit(ev) && Committed(c, arm, auth, ev)
    ensures RecordsFit(Witnessed(ev, n)) && Committed(c, arm, auth, Witnessed(ev, n))
  {
    hide VerifySignature, CheckpointBody, CheckpointFits, RecordAt;
  }

  lemma EmptyVerdict(c: Crypto, arm: Arm, reg: Registry, ev: Evidence, q: Option<int>)
    requires ItemReasons(c, arm, Some(reg), ev, q) == []
    ensures ItemVerdict(c, arm, Some(reg), ev, q).accepted
  {
    hide PublisherReasons, CommitmentReasons, ReceiptReasons, Unique, GoodRecords, WitnessVerdict;
  }

  lemma DemandedOfStream(job: Job, a: Evidence, b: Evidence)
    requires job.registry.Some? && StreamOf(a) == StreamOf(b)
    ensures Demanded(job, a) == Demanded(job, b)
  {}

  /** The items with fewer receipts stand where they stood, with the same records. */
  lemma FewerAreLinked(c: Crypto, job: Job, n: nat)
    requires job.Accepted(c)
    ensures var fewer := job.(evs := AllWitnessed(job.evs, n));
      && fewer.Anchors() == job.Anchors() && EarlyReason(fewer).None?
      && LinkedAll(job.Anchors().value.genesis, fewer.evs) && NothingRepeats(c, fewer.evs)
      && EndsAt(fewer.evs, job.Anchors().value.latest.value)
  {
    hide StreamVerified, CanonicalStreamId, RecordsFit, Stale, LinkedAll, NothingRepeats;
    var evs := AllWitnessed(job.evs, n);
    VerifiedIsLinked(c, job);
    SameCheckpointSameStream(job.evs[0], evs[0]);
    SameStreamJob(c, job, evs);
    FewerLinkedAll(job.Anchors().value.genesis, job.evs, n);
    VerifiedRepeatsNothing(c, job);
    FewerRepeatNothing(c, job.evs, n);
  }

  lemma FewerLinkedAll(genesis: Position, evs: seq<Evidence>, n: nat)
    requires LinkedAll(genesis, evs)
    ensures LinkedAll(genesis, AllWitnessed(evs, n))
  {
    hide LinkedAt, RecordAt, Witnessed;
    var fewer := AllWitnessed(evs, n);
    forall i | 0 <= i < |evs|
      ensures fewer[i].checkpoint == evs[i].checkpoint && fewer[i].records == evs[i].records
    {
      WitnessedKeepsRest(evs[i], n);
    }
    forall i | 0 <= i < |evs| ensures LinkedAt(genesis, fewer, i) && RecordsFit(fewer[i]) {
      assert LinkedAt(genesis, evs, i) && RecordsFit(evs[i]);
      SameCheckpointsSameLink(genesis, evs, fewer, i);
    }
  }

  lemma WitnessedKeepsRest(ev: Evidence, n: nat)
    ensures Witnessed(ev, n).checkpoint == ev.checkpoint && Witnessed(ev, n).records == ev.records
  {}

  lemma SameCheckpointsSameLink(genesis: Position, evs: seq<Evidence>, others: seq<Evidence>, i: nat)
    requires i < |evs| == |others| && forall k :: 0 <= k < |evs| ==> others[k].checkpoint == evs[k].checkpoint
    requires LinkedAt(genesis, evs, i)
    ensures LinkedAt(genesis, others, i)
  {
    hide StreamOf;
    SameCheckpointSameStream(evs[i], others[i]);
    SameCheckpointSameStream(evs[0], others[0]);
  }

  lemma FewerRepeatNothing(c: Crypto, evs: seq<Evidence>, n: nat)
    requires NothingRepeats(c, evs)
    ensures NothingRepeats(c, AllWitnessed(evs, n))
  {
    hide AllRecords, Hashes;
    SameRecords(evs, n);
    assert EndAnchors(AllWitnessed(evs, n)) == EndAnchors(evs);
  }

  lemma VerifiedRepeatsNothing(c: Crypto, job: Job)
    requires job.Verified(c)
    ensures NothingRepeats(c, job.evs)
  {
    hide GoodPrefix, NothingRepeats;
  }

  lemma {:induction false} SameRecords(evs: seq<Evidence>, n: nat)
    ensures AllRecords(AllWitnessed(evs, n)) == AllRecords(evs)
  {
    if evs != [] {
      var m := |evs| - 1;
      SameRecords(evs[..m], n);
      assert AllWitnessed(evs, n)[..m] == AllWitnessed(evs[..m], n);
    }
  }

  /** Cut to n receipts, each item is accepted exactly when the stream's policy demands no more. */
  lemma EnoughExactly(c: Crypto, job: Job, n: nat, i: nat)
    requires job.Accepted(c) && Unambiguous(job.registry.value) && i < |job.evs|
    ensures EvidenceAccepted(c, job.arm, job.registry.value, AllWitnessed(job.evs, n)[i], job.witnessQuorum)
      <==> Demanded(job, job.evs[0]) <= n
  {
    hide EvidenceAccepted, StreamOf, Demanded, StreamVerified, ItemReasons, ItemRaises, EndsAt, Stale;
    var k := ItemOfStream(c, job, job.evs[i]);
    FewerIsBelowQuorum(c, job, job.evs[i], n);
    DemandedOfStream(job, job.evs[i], job.evs[0]);
    EnoughIsDemanded(c, job, job.evs[i]);
  }

  lemma EnoughIsDemanded(c: Crypto, job: Job, ev: Evidence)
    requires job.registry.Some?
    requires EvidenceAccepted(c, job.arm, job.registry.value, ev, job.witnessQuorum)
    ensures |OrEmpty(ev.receipts)| >= Demanded(job, ev)
  {
    hide RecordsFit, Committed, PublisherVouches, AllVouched;
  }

  /** Evidence with fewer receipts is answered: accepted as before, or found to be below its quorum and no more. */
  lemma FewerIsAvailability(c: Crypto, job: Job, n: nat)
    requires job.Accepted(c) && Unambiguous(job.registry.value)
    ensures var fewer := job.(evs := AllWitnessed(job.evs, n));
      && !JobRaises(c, fewer)
      && forall v :: Judged(c, fewer, v) ==>
           v.outcome == Accept || (v.outcome == Reject && v.reasons == [WITNESS_BELOW_QUORUM])
  {
    hide LinkedAt, EvidenceAccepted, ItemRaises, NothingRepeats, EndsAt, Stale, Demanded, Diagnosed, ReportsEnd,
         PlaceReasons, ListReasons, RecordsFit;
    var fewer, genesis := job.(evs := AllWitnessed(job.evs, n)), job.Anchors().value.genesis;
    FewerAreLinked(c, job, n);
    forall i | 0 <= i < |job.evs|
      ensures EvidenceAccepted(c, job.arm, job.registry.value, fewer.evs[i], job.witnessQuorum)
        <==> Demanded(job, job.evs[0]) <= n
      ensures !ItemRaises(job.arm, job.registry, fewer.evs[i])
    {
      EnoughExactly(c, job, n, i);
      FewerAnswered(c, job, n, i);
    }
    if Demanded(job, job.evs[0]) <= n {
      assert fewer.Accepted(c);
    } else {
      assert fewer.evs != [] && !LinkedAndAccepted(c, fewer, 0);
      forall v | Judged(c, fewer, v) ensures v.outcome == Reject && v.reasons == [WITNESS_BELOW_QUORUM] {
        BelowQuorumVerdict(c, job, n, v);
      }
    }
  }

  ghost predicate LinkedAndAccepted(c: Crypto, job: Job, i: nat)
    requires EarlyReason(job).None? && i < |job.evs|
  {
    && LinkedAt(job.Anchors().value.genesis, job.evs, i)
    && EvidenceAccepted(c, job.arm, job.registry.value, job.evs[i], job.witnessQuorum)
  }

  lemma FewerAnswered(c: Crypto, job: Job, n: nat, i: nat)
    requires job.Accepted(c) && Unambiguous(job.registry.value) && i < |job.evs|
    ensures !ItemRaises(job.arm, job.registry, AllWitnessed(job.evs, n)[i])
  {
    hide EvidenceAccepted, StreamOf, Demanded, StreamVerified, ItemReasons, ItemRaises, EndsAt, Stale;
    var k := ItemOfStream(c, job, job.evs[i]);
    FewerIsBelowQuorum(c, job, job.evs[i], n);
  }

  /** The first item stops the walk. */
  lemma BelowQuorumVerdict(c: Crypto, job: Job, n: nat, v: StreamVerdict)
    requires job.Accepted(c) && Unambiguous(job.registry.value) && Demanded(job, job.evs[0]) > n
    requires Judged(c, job.(evs := AllWitnessed(job.evs, n)), v)
    ensures v.outcome == Reject && v.reasons == [WITNESS_BELOW_QUORUM]
  {
    hide EvidenceAccepted, LinkedAt, NothingRepeats, EndsAt, Stale, Demanded, ReportsEnd, PlaceReasons, ListReasons,
         ItemReasons, ItemRaises, Unique, Verdicts, CountAccepted, SumAccepted, RecordsFit;
    var fewer, genesis := job.(evs := AllWitnessed(job.evs, n)), job.Anchors().value.genesis;
    FewerAreLinked(c, job, n);
    EnoughExactly(c, job, n, 0);
    assert !LinkedAndAccepted(c, fewer, 0);
    assert !fewer.Verified(c);
    var reasons :| JobExplains(c, fewer, reasons, v.verdicts) && v.reasons == Unique(reasons);
    LinkedListIsFine(c, fewer);
    var m :| 0 <= m < |fewer.evs|
      && StopsAt(c, fewer.arm, fewer.registry.value, genesis, fewer.evs, fewer.witnessQuorum, m, reasons, v.verdicts);
    PlaceDecides(c, genesis, fewer.evs, m);
    FirstReasons(c, job, n);
    assert m == 0;
    SingleIsUnique(WITNESS_BELOW_QUORUM);
    assert [] + [WITNESS_BELOW_QUORUM] == [WITNESS_BELOW_QUORUM];
  }

  lemma FirstReasons(c: Crypto, job: Job, n: nat)
    requires job.Accepted(c) && Unambiguous(job.registry.value) && Demanded(job, job.evs[0]) > n
    ensures ItemReasons(c, job.arm, job.registry, AllWitnessed(job.evs, n)[0], job.witnessQuorum)
      == [WITNESS_BELOW_QUORUM]
  {
    hide EvidenceAccepted, StreamOf, Demanded, StreamVerified, ItemReasons, ItemRaises, EndsAt, Stale;
    var k := ItemOfStream(c, job, job.evs[0]);
    FewerIsBelowQuorum(c, job, job.evs[0], n);
  }

  /** Linked items that repeat nothing leave nothing to say about the list. */
  lemma LinkedListIsFine(c: Crypto, job: Job)
    requires job.Anchors().Some? && LinkedAll(job.Anchors().value.genesis, job.evs) && NothingRepeats(c, job.evs)
    ensures ListReasons(c, job.evs) == []
  {
    hide NothingRepeats, StreamOf, RecordsFit;
    var genesis := job.Anchors().value.genesis;
    forall i | 0 <= i < |job.evs| ensures job.evs[i].checkpoint.epoch == genesis.epoch + i {
      assert LinkedAt(genesis, job.evs, i);
    }
    forall i | 0 < i < |job.evs|
      ensures job.evs[i - 1].checkpoint.seqStart <= job.evs[i].checkpoint.seqStart
    {
      assert LinkedAt(genesis, job.evs, i - 1) && LinkedAt(genesis, job.evs, i);
    }
  }

  // ---- All scenarios ----

  /** An anchor set reduced to the entry that is used. */
  lemma SoleAnchors(c: Crypto, job: Job)
    requires job.Accepted(c)
    ensures var a := job.Anchors().value; var sole := job.(anchors := Some([a]));
      sole.Accepted(c) && sole.Anchors() == Some(a)
  {
    hide StreamVerified, StreamOf, EndsAt, Stale;
  }

  /** With an expired latest anchor a complete history stays undecided. */
  lemma ExpiredIsUndecided(c: Crypto, job: Job)
    requires job.Accepted(c) && Unambiguous(job.registry.value)
    ensures var other := ManipulatedJob(ExpiredAnchor, job);
      && !JobRaises(c, other) && forall v :: Judged(c, other, v) ==> v.outcome == Inconclusive
  {
    hide StreamVerified, StreamOf, Diagnosed, ReportsEnd, StreamRaises;
    var other := ManipulatedJob(ExpiredAnchor, job);
    assert other.Anchors() == Some(Expired(job.Anchors().value, job.auditTime));
    assert other.Undecided(c);
    VerifiedIsNotRaised(c, other.arm, other.registry.value, other.Anchors().value.genesis, other.evs,
                        other.witnessQuorum);
  }

  /** The untouched job, presented with the anchors used. */
  lemma UntouchedIsAccepted(c: Crypto, job: Job)
    requires job.Accepted(c) && Unambiguous(job.registry.value)
    ensures !JobRaises(c, job) && forall v :: Judged(c, job, v) ==> v.outcome == Accept
  {
    hide StreamVerified, StreamOf, Diagnosed, ReportsEnd, StreamRaises, EndsAt, Stale;
    VerifiedIsNotRaised(c, job.arm, job.registry.value, job.Anchors().value.genesis, job.evs, job.witnessQuorum);
  }

  /** A verdict without condemnation, as the delivery auditor sees it. */
  predicate Harmless(v: StreamVerdict) { v.outcome != Reject || v.reasons == [WITNESS_BELOW_QUORUM] }

  /** The oracle's flag, where there is a second checkpoint to tamper with. */
  predicate ShowsManipulation(sc: EvidenceScenario, evs: seq<Evidence>) {
    HistoryManipulated(sc) && |evs| > 1
  }

  /** The stream verdict condemns exactly the manipulated histories, and never ends in an exception. */
  lemma CondemnedExactly(c: Crypto, sc: EvidenceScenario, job: Job)
    requires job.Accepted(c) && Unambiguous(job.registry.value) && MutatedEvidence(sc, job.evs) != []
    ensures var other := ManipulatedJob(sc, job);
      && !JobRaises(c, other)
      && forall v :: Judged(c, other, v) ==>
           if ShowsManipulation(sc, job.evs) then Condemned(v) else Harmless(v)
  {
    hide StreamVerified, StreamOf, EndsAt, Stale, Judged, JobRaises, Condemned, SplicedItem, AllWitnessed, Expired;
    var base := job.(anchors := Some([job.Anchors().value]));
    SoleAnchors(c, job);
    UntouchedIsAccepted(c, base);
    match sc {
      case Splice =>
        if |job.evs| > 1 {
          SpliceIsCondemned(c, base);
        }
      case Rollback => CutEnd(c, base);
      case TailTruncation => CutEnd(c, base);
      case MiddleTruncation =>
        if |job.evs| > 1 {
          AnyOtherSelectionIsCondemned(c, base, job.evs[1..]);
        }
      case WitnessUnavailable => FewerIsAvailability(c, base, 0);
      case BelowQuorum => FewerIsAvailability(c, base, 1);
      case ExpiredAnchor => ExpiredIsUndecided(c, job);
    }
  }

  lemma CutEnd(c: Crypto, job: Job)
    requires job.Accepted(c) && Unambiguous(job.registry.value) && |job.evs| > 1
    ensures var cut := job.(evs := job.evs[..|job.evs| - 1]);
      !JobRaises(c, cut) && forall v :: Judged(c, cut, v) ==> Condemned(v)
  {
    hide StreamVerified, StreamOf, EndsAt, Stale, Judged, JobRaises, Condemned;
    AnyOtherSelectionIsCondemned(c, job, job.evs[..|job.evs| - 1]);
  }

  /** What is presented otherwise is linked up to the trusted latest anchor, as it was sealed. */
  lemma HarmlessIsLinked(c: Crypto, sc: EvidenceScenario, job: Job)
    requires job.Accepted(c) && !ShowsManipulation(sc, job.evs) && MutatedEvidence(sc, job.evs) != []
    ensures var evs := MutatedEvidence(sc, job.evs);
      LinkedAll(job.Anchors().value.genesis, evs) && EndsAt(evs, job.Anchors().value.latest.value)
  {
    hide StreamVerified, StreamOf, EndsAt, Stale, LinkedAll, NothingRepeats;
    VerifiedIsLinked(c, job);
    if sc == WitnessUnavailable {
      FewerAreLinked(c, job, 0);
    } else if sc == BelowQuorum {
      FewerAreLinked(c, job, 1);
    }
  }

  /**
   * For every evidence scenario of the corpus, on every accepted history that starts at number one: the delivery
   * auditor finds the evidence itself broken exactly where the oracle sees an integrity violation and there is a
   * second checkpoint; so what it detects is that, or something about the deliveries, in both modes.
   */
  lemma EvidenceScenariosAgree(c: Crypto, sc: EvidenceScenario, job: Job, v: StreamVerdict, inp: AuditorInput,
                               aware: bool)
    requires job.Accepted(c) && Unambiguous(job.registry.value) && job.Anchors().value.genesis.seqNo == 1
    requires MutatedEvidence(sc, job.evs) != []
    requires Judged(c, ManipulatedJob(sc, job), v) && ShowsCase(inp.history, sc, job, v)
    ensures CheckpointFailure(inp.history) <==> ShowsManipulation(sc, job.evs)
    ensures Bindable(inp.history) && IdentityBound(inp.history) ==>
      (Detected(inp, aware) <==> ShowsManipulation(sc, job.evs) || DeliveryAnomaly(inp, aware))
  {
    hide StreamVerified, StreamOf, EndsAt, Stale, Judged, Condemned, CheckpointFailure, DeliveryAnomaly,
         MutatedEvidence, ManipulatedJob, ShowsHistory, LinkedAll;
    CondemnedExactly(c, sc, job);
    if ShowsManipulation(sc, job.evs) {
      CondemnedIsFailure(inp.history, v);
    } else {
      HarmlessIsLinked(c, sc, job);
      LinkedHistoryPasses(inp.history, MutatedEvidence(sc, job.evs), job.Anchors().value);
      HarmlessReasons(inp.history, v);
    }
  }

  lemma HarmlessReasons(h: History, v: StreamVerdict)
    requires ShowsVerdict(h, v) && Harmless(v)
    ensures h.outcome == RejectedStream ==> h.cryptoReasons <= AVAILABILITY
  {}

  /**
   * The disagreement: splicing, or omitting the first checkpoint of, a history with one checkpoint changes nothing,
   * and what the oracle flags is not noticed.
   */
  lemma LoneCheckpointUnnoticed(c: Crypto, sc: EvidenceScenario, job: Job, v: StreamVerdict, h: History)
    requires job.Accepted(c) && Unambiguous(job.registry.value) && job.Anchors().value.genesis.seqNo == 1
    requires |job.evs| == 1 && sc in {Splice, MiddleTruncation}
    requires Judged(c, ManipulatedJob(sc, job), v) && ShowsCase(h, sc, job, v)
    ensures HistoryManipulated(sc) && MutatedEvidence(sc, job.evs) == job.evs && !CheckpointFailure(h)
  {
    hide StreamVerified, StreamOf, EndsAt, Stale, Judged, CheckpointFailure, ManipulatedJob, ShowsHistory, LinkedAll;
    CondemnedExactly(c, sc, job);
    HarmlessIsLinked(c, sc, job);
    LinkedHistoryPasses(h, MutatedEvidence(sc, job.evs), job.Anchors().value);
    HarmlessReasons(h, v);
  }
}
