/** Auditing a whole presented stream against trusted anchors (audit_verify.audit_stream). */
module StreamAudit {
  import opened Prelude
  import opened Bytes
  import opened Text
  import opened Crypto
  import opened Codec
  import opened Registry
  import opened Evidence
  import opened ItemAudit

  // ---- What the auditor decides ----

  function Epochs(evs: seq<Evidence>): seq<int> {
    seq(|evs|, i requires 0 <= i < |evs| => evs[i].checkpoint.epoch)
  }

  function EndAnchors(evs: seq<Evidence>): seq<Bytes> {
    seq(|evs|, i requires 0 <= i < |evs| => evs[i].checkpoint.endAnchor)
  }

  function Hashes(c: Crypto, records: seq<Bytes>): seq<Digest> {
    seq(|records|, i requires 0 <= i < |records| => HashOf(c, records[i]))
  }

  function HashOf(c: Crypto, raw: Bytes): Digest { c.hash(raw) }

  /** The raw records of all items, in presented order. */
  function AllRecords(evs: seq<Evidence>): seq<Bytes> {
    if evs == [] then [] else AllRecords(evs[..|evs| - 1]) + evs[|evs| - 1].records
  }

  function ExpectedPrev(genesis: Position, evs: seq<Evidence>, i: nat): Bytes
    requires i <= |evs|
  {
    if i == 0 then genesis.anchor else evs[i - 1].checkpoint.endAnchor
  }

  function ExpectedSeq(genesis: Position, evs: seq<Evidence>, i: nat): int
    requires i <= |evs|
  {
    if i == 0 then genesis.seqNo else evs[i - 1].checkpoint.seqEnd + 1
  }

  /** Item i continues the history: stream, epoch, sequence number, previous anchor, and a new end anchor. */
  predicate LinkedAt(genesis: Position, evs: seq<Evidence>, i: nat)
    requires i < |evs|
  {
    var ckpt := evs[i].checkpoint;
    && StreamOf(evs[i]) == StreamOf(evs[0])
    && ckpt.seqStart <= ckpt.seqEnd
    && ckpt.epoch == genesis.epoch + i
    && ckpt.seqStart == ExpectedSeq(genesis, evs, i)
    && ckpt.prevAnchor == ExpectedPrev(genesis, evs, i)
    && ckpt.endAnchor != genesis.anchor
  }

  /** The first n items are accepted links of one chain from the genesis anchor. */
  ghost predicate GoodPrefix(c: Crypto, arm: Arm, reg: Registry, genesis: Position, evs: seq<Evidence>,
                             q: Option<int>, n: nat)
    requires n <= |evs|
  {
    forall i :: 0 <= i < n ==> LinkedAt(genesis, evs, i) && EvidenceAccepted(c, arm, reg, evs[i], q)
  }

  /** No end anchor and no record occurs twice. */
  ghost predicate NothingRepeats(c: Crypto, evs: seq<Evidence>) {
    Distinct(EndAnchors(evs)) && Distinct(Hashes(c, AllRecords(evs)))
  }

  ghost predicate StreamVerified(c: Crypto, arm: Arm, reg: Registry, genesis: Position, evs: seq<Evidence>,
                                 q: Option<int>) {
    GoodPrefix(c, arm, reg, genesis, evs, q, |evs|) && NothingRepeats(c, evs)
  }

  predicate EndsAt(evs: seq<Evidence>, latest: Position) {
    && evs != []
    && var last := evs[|evs| - 1].checkpoint;
    && last.epoch == latest.epoch && last.seqEnd == latest.seqNo && last.endAnchor == latest.anchor
  }

  predicate EndsBefore(evs: seq<Evidence>, latest: Position) {
    evs != [] && var last := evs[|evs| - 1].checkpoint; last.epoch < latest.epoch || last.seqEnd < latest.seqNo
  }

  predicate Stale(latest: Position, auditTime: real) {
    latest.validUntil.Some? && auditTime > latest.validUntil.value
  }

  /** One auditing job: everything `audit_stream` is given. */
  datatype Job = Job(
    evs: seq<Evidence>, arm: Arm, registry: Option<Registry>, anchors: Option<seq<StreamAnchors>>,
    auditTime: real, witnessQuorum: Option<int>)
  {
    function Anchors(): Option<StreamAnchors> {
      if anchors.Some? && evs != [] then AnchorsFor(anchors.value, StreamOf(evs[0])) else None
    }

    predicate LatestIsCurrent() {
      Anchors().Some? && Anchors().value.latest.Some? && !Stale(Anchors().value.latest.value, auditTime)
    }

    /** The presented items form one verified history from the trusted genesis. */
    ghost predicate Verified(c: Crypto) {
      && registry.Some? && Anchors().Some?
      && StreamVerified(c, arm, registry.value, Anchors().value.genesis, evs, witnessQuorum)
    }

    ghost predicate Accepted(c: Crypto) {
      && Verified(c) && arm != A1 && Anchors().value.latest.Some?
      && var latest := Anchors().value.latest.value;
      EndsAt(evs, latest) && !Stale(latest, auditTime)
    }

    /** Verified, but nothing or nothing current says where the history ends, or the arm binds no history. */
    ghost predicate Undecided(c: Crypto) {
      && Verified(c)
      && var latest := Anchors().value.latest;
      latest.None? || (EndsAt(evs, latest.value) && (Stale(latest.value, auditTime) || arm == A1))
    }

    /** Verified, but the trusted latest anchor lies further on. */
    ghost predicate RolledBack(c: Crypto) {
      Verified(c) && Anchors().value.latest.Some? && EndsBefore(evs, Anchors().value.latest.value)
    }
  }

  function KeyAt(c: Crypto, reg: Registry, ev: Evidence): Option<Digest> {
    var a := PublisherFor(reg, ev.checkpoint.clientId, ev.checkpoint.topic, ev.checkpoint.epoch);
    if a.Ok? && a.value.Some? then Some(a.value.value.KeyId(c)) else None
  }

  /** Two neighbouring items are signed under different authorised keys. */
  ghost predicate KeyChanges(c: Crypto, reg: Registry, evs: seq<Evidence>, n: nat)
    requires n <= |evs|
  {
    exists i :: 0 < i < n && KeyAt(c, reg, evs[i - 1]) != KeyAt(c, reg, evs[i])
  }

  datatype StreamVerdict = StreamVerdict(
    outcome: Verdict, reasons: seq<Reason>, streamId: Option<Text>, verdicts: seq<AuditVerdict>,
    verifiedCheckpoints: nat, verifiedRecords: nat, tailComplete: bool, startedFromAnchor: bool, endedAtLatest: bool)

  // ---- Small facts ----

  predicate Fatal(reasons: seq<Reason>) { exists r :: r in reasons && r != AUTHORIZED_KEY_TRANSITION }

  function SumAccepted(verdicts: seq<AuditVerdict>): nat {
    if verdicts == [] then 0
    else
      var last := verdicts[|verdicts| - 1];
      SumAccepted(verdicts[..|verdicts| - 1]) + if last.accepted then last.validRecords else 0
  }

  function CountAccepted(verdicts: seq<AuditVerdict>): nat {
    if verdicts == [] then 0
    else CountAccepted(verdicts[..|verdicts| - 1]) + if verdicts[|verdicts| - 1].accepted then 1 else 0
  }

  /** Consecutive epochs and abutting ranges cannot trip the checks on the presented list. */
  lemma LinkedIsOrdered(genesis: Position, evs: seq<Evidence>)
    requires forall i :: 0 <= i < |evs| ==> LinkedAt(genesis, evs, i)
    ensures Distinct(Epochs(evs)) && !Descends(Epochs(evs)) && !Descends(Starts(evs))
  {
    forall i | 0 <= i < |evs| ensures Epochs(evs)[i] == genesis.epoch + i { assert LinkedAt(genesis, evs, i); }
    forall i | 0 <= i < |evs| - 1 ensures Starts(evs)[i] <= Starts(evs)[i + 1] {
      assert LinkedAt(genesis, evs, i) && LinkedAt(genesis, evs, i + 1);
    }
  }

  function Starts(evs: seq<Evidence>): seq<int> {
    seq(|evs|, i requires 0 <= i < |evs| => evs[i].checkpoint.seqStart)
  }

  predicate Descends(s: seq<int>) { exists i :: 0 <= i < |s| - 1 && s[i + 1] < s[i] }

  /** `len(s) != len(set(s))`. */
  method HasDuplicates<T(==)>(s: seq<T>) returns (dup: bool)
    ensures dup <==> !Distinct(s)
  {
    var seen: set<T> := {};
    for i := 0 to |s|
      invariant forall x :: x in seen <==> x in s[..i]
      invariant Distinct(s[..i])
    {
      assert s[..i + 1] == s[..i] + [s[i]];
      if s[i] in seen {
        var j :| 0 <= j < i && s[j] == s[i];
        return true;
      }
      seen := seen + {s[i]};
    }
    assert s[..|s|] == s;
    dup := false;
  }

  method CollectRecords(evs: seq<Evidence>) returns (raws: seq<Bytes>)
    ensures raws == AllRecords(evs)
  {
    raws := [];
    for i := 0 to |evs|
      invariant raws == AllRecords(evs[..i])
    {
      assert evs[..i + 1][..i] == evs[..i];
      raws := raws + evs[i].records;
    }
    assert evs[..|evs|] == evs;
  }

  /** Everything wrong with the presented list as a whole. */
  ghost function ListReasons(c: Crypto, evs: seq<Evidence>): (reasons: seq<Reason>)
    ensures reasons == [] <==>
      Distinct(Epochs(evs)) && !Descends(Epochs(evs)) && !Descends(Starts(evs)) && NothingRepeats(c, evs)
    ensures NoTailReason(reasons)
  {
    (if Distinct(Epochs(evs)) then [] else [EPOCH_DUPLICATE, DUPLICATE_CHECKPOINT])
    + When(Descends(Epochs(evs)), EPOCH_REORDER) + When(Descends(Starts(evs)), SEQUENCE_REORDER)
    + When(!NothingRepeats(c, evs), CROSS_EPOCH_REPLAY)
  }

  /** The checks on the presented list as a whole. */
  method PresentedReasons(c: Crypto, evs: seq<Evidence>) returns (reasons: seq<Reason>)
    ensures reasons == ListReasons(c, evs)
  {
    hide Distinct, Epochs, Starts, NothingRepeats, Descends;
    reasons := [];
    var epochTwice := HasDuplicates(Epochs(evs));
    if epochTwice {
      reasons := reasons + [EPOCH_DUPLICATE, DUPLICATE_CHECKPOINT];
    }
    if Descends(Epochs(evs)) {
      reasons := reasons + [EPOCH_REORDER];
    }
    if Descends(Starts(evs)) {
      reasons := reasons + [SEQUENCE_REORDER];
    }
    var repeated := FindRepeats(c, evs);
    if repeated {
      reasons := reasons + [CROSS_EPOCH_REPLAY];
    }
  }

  /** The part of these checks that looks for an end anchor or a record presented twice. */
  method FindRepeats(c: Crypto, evs: seq<Evidence>) returns (repeated: bool)
    ensures repeated <==> !NothingRepeats(c, evs)
  {
    hide Distinct, EndAnchors, Hashes;
    var raws := CollectRecords(evs);
    var anchorTwice := HasDuplicates(EndAnchors(evs));
    var recordTwice := HasDuplicates(Hashes(c, raws));
    repeated := anchorTwice || recordTwice;
  }

  /** What the loop remembers of the items it accepted. */
  datatype Seen = Seen(epochs: set<int>, ranges: set<(int, int)>, anchors: set<Bytes>, hashes: set<Digest>)

  /** Why the epoch is not the expected one. */
  function EpochReasons(epoch: int, expected: int, seen: set<int>): (reasons: seq<Reason>)
    ensures (reasons == [] <==> epoch == expected) && NoTailReason(reasons)
  {
    if epoch == expected then []
    else if epoch in seen then [EPOCH_DUPLICATE, DUPLICATE_CHECKPOINT]
    else if epoch < expected then [EPOCH_REORDER, EPOCH_ROLLBACK]
    else [EPOCH_GAP, MIDDLE_TRUNCATION]
  }

  /** Why the range does not start at the expected number. */
  function RangeReasons(seqStart: int, seqEnd: int, expected: int, seen: set<(int, int)>): (reasons: seq<Reason>)
    ensures (reasons == [] <==> seqStart == expected) && NoTailReason(reasons)
  {
    if seqStart == expected then []
    else if (seqStart, seqEnd) in seen then [SEQUENCE_DUPLICATE, DUPLICATE_CHECKPOINT]
    else if seqStart < expected then [SEQUENCE_REORDER]
    else [SEQUENCE_GAP, MIDDLE_TRUNCATION]
  }

  function PrevReasons(prev: Bytes, expected: Bytes, first: bool): (reasons: seq<Reason>)
    ensures (reasons == [] <==> prev == expected) && NoTailReason(reasons)
  {
    if prev == expected then []
    else [PREV_ANCHOR_MISMATCH, SPLICE_OR_FORK] + if first then [GENESIS_ANCHOR_MISMATCH] else []
  }

  /** The item brings back an anchor or a record. */
  predicate Replays(ckpt: Checkpoint, hashes: seq<Digest>, anchors: set<Bytes>, seen: set<Digest>) {
    ckpt.endAnchor in anchors || exists i :: 0 <= i < |hashes| && hashes[i] in seen
  }

  /** The link checks on one item; the sets only pick the reason, except for repeated anchors and records. */
  function LinkReasons(ckpt: Checkpoint, hashes: seq<Digest>, expectedPrev: Bytes, expectedEpoch: int, expectedSeq: int,
                       seen: Seen, first: bool): (reasons: seq<Reason>)
    ensures reasons == [] <==>
      (ckpt.seqStart <= ckpt.seqEnd && ckpt.epoch == expectedEpoch && ckpt.seqStart == expectedSeq
       && ckpt.prevAnchor == expectedPrev && !Replays(ckpt, hashes, seen.anchors, seen.hashes))
    ensures NoTailReason(reasons)
  {
    When(ckpt.seqEnd < ckpt.seqStart, CHECKPOINT_RANGE_INVALID)
    + EpochReasons(ckpt.epoch, expectedEpoch, seen.epochs)
    + RangeReasons(ckpt.seqStart, ckpt.seqEnd, expectedSeq, seen.ranges)
    + PrevReasons(ckpt.prevAnchor, expectedPrev, first)
    + When(Replays(ckpt, hashes, seen.anchors, seen.hashes), CROSS_EPOCH_REPLAY)
  }

  function StreamReject(reasons: seq<Reason>, streamId: Option<Text>, verdicts: seq<AuditVerdict>, started: bool)
    : StreamVerdict {
    StreamVerdict(Reject, Unique(reasons), streamId, verdicts, CountAccepted(verdicts), SumAccepted(verdicts),
                  false, started, false)
  }

  function RangesOf(evs: seq<Evidence>): seq<(int, int)> {
    seq(|evs|, i requires 0 <= i < |evs| => (evs[i].checkpoint.seqStart, evs[i].checkpoint.seqEnd))
  }

  /** Epochs, ranges, anchors and record hashes of the first n items, and the genesis anchor. */
  function SeenAfter(c: Crypto, genesis: Position, evs: seq<Evidence>, n: nat): Seen
    requires n <= |evs|
  {
    Seen(Elements(Epochs(evs[..n])), Elements(RangesOf(evs[..n])), {genesis.anchor} + Elements(EndAnchors(evs[..n])),
         Elements(Hashes(c, AllRecords(evs[..n]))))
  }

  /** While nothing repeats in the presented list, only the genesis anchor can still come back. */
  lemma RepeatsOnlyGenesis(c: Crypto, genesis: Position, evs: seq<Evidence>, n: nat)
    requires n < |evs| && NothingRepeats(c, evs)
    ensures var ckpt, seen := evs[n].checkpoint, SeenAfter(c, genesis, evs, n);
      Replays(ckpt, Hashes(c, evs[n].records), seen.anchors, seen.hashes) <==> ckpt.endAnchor == genesis.anchor
  {
    var anchors := EndAnchors(evs);
    forall k | 0 <= k < n ensures EndAnchors(evs[..n])[k] != evs[n].checkpoint.endAnchor {
      assert anchors[k] != anchors[n];
    }
    PrefixRecords(evs, n);
    var before, all := AllRecords(evs[..n]), AllRecords(evs);
    forall j, k | 0 <= j < |before| && 0 <= k < |evs[n].records|
      ensures Hashes(c, before)[j] != Hashes(c, evs[n].records)[k]
    {
      assert all[j] == before[j] && all[|before| + k] == evs[n].records[k];
      assert Hashes(c, all)[j] != Hashes(c, all)[|before| + k];
    }
  }

  /** The records of the first n items, followed by those of item n, start the record list. */
  lemma {:induction false} PrefixRecords(evs: seq<Evidence>, n: nat)
    requires n < |evs|
    ensures AllRecords(evs[..n]) + evs[n].records == AllRecords(evs[..n + 1])
    ensures AllRecords(evs[..n + 1]) <= AllRecords(evs)
    decreases |evs| - n
  {
    assert evs[..n + 1][..n] == evs[..n];
    if n + 1 == |evs| {
      assert evs[..n + 1] == evs;
    } else {
      PrefixRecords(evs, n + 1);
    }
  }

  lemma SeenGrows(c: Crypto, genesis: Position, evs: seq<Evidence>, n: nat)
    requires n < |evs|
    ensures var seen, ckpt := SeenAfter(c, genesis, evs, n), evs[n].checkpoint;
      SeenAfter(c, genesis, evs, n + 1)
        == Seen(seen.epochs + {ckpt.epoch}, seen.ranges + {(ckpt.seqStart, ckpt.seqEnd)},
                seen.anchors + {ckpt.endAnchor}, seen.hashes + Elements(Hashes(c, evs[n].records)))
  {
    hide Elements, AllRecords, Hashes;
    var ckpt, less := evs[n].checkpoint, evs[..n];
    SeenLists(evs, n);
    ElementsConcat(Epochs(less), [ckpt.epoch]);
    ElementsConcat(RangesOf(less), [(ckpt.seqStart, ckpt.seqEnd)]);
    ElementsConcat(EndAnchors(less), [ckpt.endAnchor]);
    ElementsOne(ckpt.epoch);
    ElementsOne((ckpt.seqStart, ckpt.seqEnd));
    ElementsOne(ckpt.endAnchor);
    SeenHashes(c, evs, n);
    ElementsConcat(Hashes(c, AllRecords(less)), Hashes(c, evs[n].records));
  }

  lemma SeenLists(evs: seq<Evidence>, n: nat)
    requires n < |evs|
    ensures var ckpt, more, less := evs[n].checkpoint, evs[..n + 1], evs[..n];
      && Epochs(more) == Epochs(less) + [ckpt.epoch]
      && RangesOf(more) == RangesOf(less) + [(ckpt.seqStart, ckpt.seqEnd)]
      && EndAnchors(more) == EndAnchors(less) + [ckpt.endAnchor]
  {}

  lemma SeenHashes(c: Crypto, evs: seq<Evidence>, n: nat)
    requires n < |evs|
    ensures Hashes(c, AllRecords(evs[..n + 1])) == Hashes(c, AllRecords(evs[..n])) + Hashes(c, evs[n].records)
  {
    hide AllRecords;
    PrefixRecords(evs, n);
  }

  lemma ElementsOne<T>(x: T)
    ensures Elements([x]) == {x}
  {}

  lemma ElementsConcat<T>(a: seq<T>, b: seq<T>)
    ensures Elements(a + b) == Elements(a) + Elements(b)
  {}

  lemma SeenStart(c: Crypto, genesis: Position, evs: seq<Evidence>)
    ensures SeenAfter(c, genesis, evs, 0) == Seen({}, {}, {genesis.anchor}, {})
  {
    assert Epochs(evs[..0]) == [] && RangesOf(evs[..0]) == [] && EndAnchors(evs[..0]) == [];
    assert Hashes(c, AllRecords(evs[..0])) == [];
  }

  lemma GoodGrows(c: Crypto, arm: Arm, reg: Registry, genesis: Position, evs: seq<Evidence>, q: Option<int>, n: nat)
    requires n < |evs|
    ensures GoodPrefix(c, arm, reg, genesis, evs, q, n + 1) <==>
      GoodPrefix(c, arm, reg, genesis, evs, q, n)
      && LinkedAt(genesis, evs, n) && EvidenceAccepted(c, arm, reg, evs[n], q)
    ensures GoodPrefix(c, arm, reg, genesis, evs, q, |evs|) ==> GoodPrefix(c, arm, reg, genesis, evs, q, n + 1)
  {
    hide EvidenceAccepted, LinkedAt;
  }

  /** An accepted item has exactly one authorised key. */
  lemma AcceptedHasKey(c: Crypto, arm: Arm, reg: Registry, ev: Evidence, q: Option<int>)
    requires Unambiguous(reg) && EvidenceAccepted(c, arm, reg, ev, q)
    ensures var ckpt := ev.checkpoint;
      PublisherFor(reg, ckpt.clientId, ckpt.topic, ckpt.epoch).Ok?
      && PublisherFor(reg, ckpt.clientId, ckpt.topic, ckpt.epoch).value.Some?
  {
    PublisherLookup(reg, ev.checkpoint.clientId, ev.checkpoint.topic, ev.checkpoint.epoch);
  }

  /** The three running expectations before item n. */
  predicate ExpectedAt(genesis: Position, evs: seq<Evidence>, n: nat, prev: Bytes, epoch: int, seqNo: int)
    requires n <= |evs|
  {
    prev == ExpectedPrev(genesis, evs, n) && epoch == genesis.epoch + n && seqNo == ExpectedSeq(genesis, evs, n)
  }

  lemma ExpectedStarts(genesis: Position, evs: seq<Evidence>)
    ensures ExpectedAt(genesis, evs, 0, genesis.anchor, genesis.epoch, genesis.seqNo)
  {}

  /** Everything wrong with the place of item n in the stream. */
  function PlaceReasons(c: Crypto, genesis: Position, evs: seq<Evidence>, n: nat): (reasons: seq<Reason>)
    requires n < |evs|
    ensures NoTailReason(reasons)
  {
    if StreamOf(evs[n]) != StreamOf(evs[0]) then [MIXED_STREAM, SPLICE_OR_FORK]
    else
      LinkReasons(evs[n].checkpoint, Hashes(c, evs[n].records), ExpectedPrev(genesis, evs, n), genesis.epoch + n,
                  ExpectedSeq(genesis, evs, n), SeenAfter(c, genesis, evs, n), n == 0)
  }

  /** Without repeats, these checks decide whether the item is linked. */
  lemma PlaceDecides(c: Crypto, genesis: Position, evs: seq<Evidence>, n: nat)
    requires n < |evs| && NothingRepeats(c, evs)
    ensures PlaceReasons(c, genesis, evs, n) == [] <==> LinkedAt(genesis, evs, n)
  {
    hide NothingRepeats, StreamOf, SeenAfter, Replays, Hashes;
    RepeatsOnlyGenesis(c, genesis, evs, n);
  }

  /** The stream check and the link checks on item i. */
  method LinkItem(c: Crypto, genesis: Position, evs: seq<Evidence>, i: nat, expectedPrev: Bytes, expectedEpoch: int,
                  expectedSeq: int, seen: Seen, first: bool)
    returns (reasons: seq<Reason>)
    requires i < |evs| && seen == SeenAfter(c, genesis, evs, i) && (first <==> i == 0)
    requires ExpectedAt(genesis, evs, i, expectedPrev, expectedEpoch, expectedSeq)
    ensures reasons == PlaceReasons(c, genesis, evs, i)
  {
    hide SeenAfter, StreamOf, Hashes, Replays, EpochReasons, RangeReasons, PrevReasons;
    if StreamOf(evs[i]) != StreamOf(evs[0]) {
      return [MIXED_STREAM, SPLICE_OR_FORK];
    }
    var ckpt, hashes := evs[i].checkpoint, Hashes(c, evs[i].records);
    reasons := [];
    if ckpt.seqEnd < ckpt.seqStart {
      reasons := reasons + [CHECKPOINT_RANGE_INVALID];
    }
    reasons := reasons + EpochReasons(ckpt.epoch, expectedEpoch, seen.epochs);
    reasons := reasons + RangeReasons(ckpt.seqStart, ckpt.seqEnd, expectedSeq, seen.ranges);
    reasons := reasons + PrevReasons(ckpt.prevAnchor, expectedPrev, first);
    if Replays(ckpt, hashes, seen.anchors, seen.hashes) {
      reasons := reasons + [CROSS_EPOCH_REPLAY];
    }
  }

  // ---- Key transitions and the loop ----

  /** One transition per authorised key change among the first n items. */
  function Transitions(c: Crypto, reg: Registry, evs: seq<Evidence>, n: nat): (t: seq<Reason>)
    requires n <= |evs|
    ensures forall r :: r in t ==> r == AUTHORIZED_KEY_TRANSITION
  {
    if n == 0 then []
    else
      Transitions(c, reg, evs, n - 1)
      + if n > 1 && KeyAt(c, reg, evs[n - 2]) != KeyAt(c, reg, evs[n - 1]) then [AUTHORIZED_KEY_TRANSITION] else []
  }

  lemma KeyChangesGrow(c: Crypto, reg: Registry, evs: seq<Evidence>, n: nat)
    requires 0 < n <= |evs|
    ensures KeyChanges(c, reg, evs, n) <==>
      KeyChanges(c, reg, evs, n - 1) || (n > 1 && KeyAt(c, reg, evs[n - 2]) != KeyAt(c, reg, evs[n - 1]))
  {
    hide KeyAt;
    if n > 1 && KeyAt(c, reg, evs[n - 2]) != KeyAt(c, reg, evs[n - 1]) {
      assert 0 < n - 1 < n && KeyAt(c, reg, evs[n - 1 - 1]) != KeyAt(c, reg, evs[n - 1]);
    }
  }

  lemma {:induction false} TransitionsTell(c: Crypto, reg: Registry, evs: seq<Evidence>, n: nat)
    requires n <= |evs|
    ensures Transitions(c, reg, evs, n) != [] <==> KeyChanges(c, reg, evs, n)
  {
    if n > 0 {
      hide KeyAt, KeyChanges;
      TransitionsTell(c, reg, evs, n - 1);
      KeyChangesGrow(c, reg, evs, n);
    }
  }

  /** The verdicts on the first n items. */
  ghost function Verdicts(c: Crypto, arm: Arm, reg: Registry, evs: seq<Evidence>, q: Option<int>, n: nat)
    : seq<AuditVerdict>
    requires n <= |evs|
  {
    seq(n, i requires 0 <= i < n => ItemVerdict(c, arm, Some(reg), evs[i], q))
  }

  lemma VerdictsSnoc(c: Crypto, arm: Arm, reg: Registry, evs: seq<Evidence>, q: Option<int>, n: nat)
    requires n < |evs|
    ensures Verdicts(c, arm, reg, evs, q, n + 1)
      == Verdicts(c, arm, reg, evs, q, n) + [ItemVerdict(c, arm, Some(reg), evs[n], q)]
  {
    hide ItemVerdict;
  }

  /** The state of the checkpoint loop before item `n`, as long as nothing fatal was found. */
  ghost predicate WalkedTo(c: Crypto, arm: Arm, reg: Registry, genesis: Position, evs: seq<Evidence>, q: Option<int>,
                           n: nat, reasons: seq<Reason>, verdicts: seq<AuditVerdict>, previousKey: Option<Digest>)
    requires n <= |evs|
  {
    && GoodPrefix(c, arm, reg, genesis, evs, q, n)
    && verdicts == Verdicts(c, arm, reg, evs, q, n)
    && CountAccepted(verdicts) == n && SumAccepted(verdicts) == |AllRecords(evs[..n])|
    && reasons == Transitions(c, reg, evs, n)
    && (if n == 0 then previousKey == None else previousKey == KeyAt(c, reg, evs[n - 1]) && previousKey.Some?)
  }

  lemma WalkStarts(c: Crypto, arm: Arm, reg: Registry, genesis: Position, evs: seq<Evidence>, q: Option<int>)
    ensures WalkedTo(c, arm, reg, genesis, evs, q, 0, [], [], None)
  {
    assert evs[..0] == [];
  }

  lemma WalkGrows(c: Crypto, arm: Arm, reg: Registry, genesis: Position, evs: seq<Evidence>, q: Option<int>,
                  n: nat, reasons: seq<Reason>, verdicts: seq<AuditVerdict>, previousKey: Option<Digest>,
                  verdict: AuditVerdict, key: Digest)
    requires n < |evs| && WalkedTo(c, arm, reg, genesis, evs, q, n, reasons, verdicts, previousKey)
    requires LinkedAt(genesis, evs, n) && EvidenceAccepted(c, arm, reg, evs[n], q)
    requires verdict == ItemVerdict(c, arm, Some(reg), evs[n], q)
    requires verdict.accepted && verdict.validRecords == |evs[n].records| && KeyAt(c, reg, evs[n]) == Some(key)
    ensures var more := if previousKey.Some? && key != previousKey.value then [AUTHORIZED_KEY_TRANSITION] else [];
      WalkedTo(c, arm, reg, genesis, evs, q, n + 1, reasons + more, verdicts + [verdict], Some(key))
  {
    hide EvidenceAccepted, LinkedAt, KeyAt, GoodPrefix, AllRecords, ItemVerdict, Verdicts;
    VerdictsSnoc(c, arm, reg, evs, q, n);
    VerdictsLength(c, arm, reg, evs, q, n);
    assert (verdicts + [verdict])[..n] == verdicts;
    PrefixRecords(evs, n);
    GoodGrows(c, arm, reg, genesis, evs, q, n);
  }

  lemma VerdictsLength(c: Crypto, arm: Arm, reg: Registry, evs: seq<Evidence>, q: Option<int>, n: nat)
    requires n <= |evs|
    ensures |Verdicts(c, arm, reg, evs, q, n)| == n
  {}

  /** The loop stops at item n: everything before is good, and these are the reasons and the verdicts so far. */
  ghost predicate StopsAt(c: Crypto, arm: Arm, reg: Registry, genesis: Position, evs: seq<Evidence>, q: Option<int>,
                          n: nat, reasons: seq<Reason>, verdicts: seq<AuditVerdict>)
    requires n < |evs|
  {
    && GoodPrefix(c, arm, reg, genesis, evs, q, n)
    && var place := PlaceReasons(c, genesis, evs, n);
    && (place == [] ==> !EvidenceAccepted(c, arm, reg, evs[n], q) && !ItemRaises(arm, Some(reg), evs[n]))
    && reasons == Transitions(c, reg, evs, n)
        + (if place != [] then place else Unique(ItemReasons(c, arm, Some(reg), evs[n], q)))
    && verdicts == Verdicts(c, arm, reg, evs, q, if place != [] then n else n + 1)
  }

  /** Why a presented stream does not verify: the list as a whole and its first item, or the first bad item. */
  ghost predicate Explains(c: Crypto, arm: Arm, reg: Registry, genesis: Position, evs: seq<Evidence>, q: Option<int>,
                           reasons: seq<Reason>, verdicts: seq<AuditVerdict>)
    requires evs != []
  {
    if ListReasons(c, evs) != []
    then reasons == ListReasons(c, evs) + PlaceReasons(c, genesis, evs, 0) && verdicts == []
    else exists n :: 0 <= n < |evs| && StopsAt(c, arm, reg, genesis, evs, q, n, reasons, verdicts)
  }

  /** The loop reaches item n, finds it in its place, and auditing it ends in an exception. */
  ghost predicate RaisesAt(c: Crypto, arm: Arm, reg: Registry, genesis: Position, evs: seq<Evidence>, q: Option<int>,
                           n: nat)
    requires n < |evs|
  {
    && GoodPrefix(c, arm, reg, genesis, evs, q, n) && PlaceReasons(c, genesis, evs, n) == []
    && ItemRaises(arm, Some(reg), evs[n])
  }

  /** When auditing a stream ends in an exception. */
  ghost predicate StreamRaises(c: Crypto, arm: Arm, reg: Registry, genesis: Position, evs: seq<Evidence>,
                               q: Option<int>)
  {
    ListReasons(c, evs) == [] && exists n :: 0 <= n < |evs| && RaisesAt(c, arm, reg, genesis, evs, q, n)
  }

  /** An item whose audit raises is not accepted. */
  lemma RaisingIsRefused(c: Crypto, arm: Arm, reg: Registry, ev: Evidence, q: Option<int>)
    requires Unambiguous(reg) && ItemRaises(arm, Some(reg), ev)
    ensures !EvidenceAccepted(c, arm, reg, ev, q)
  {
    hide ItemRaises, EvidenceAccepted, ItemVerdict;
    VerdictDecides(c, arm, reg, ev, q);
  }

  /** The loop cannot both raise at one item and stop at another, or run through. */
  lemma RaisesOnlyAtStop(c: Crypto, arm: Arm, reg: Registry, genesis: Position, evs: seq<Evidence>, q: Option<int>,
                         m: nat, n: nat)
    requires Unambiguous(reg) && m < |evs| && n <= |evs| && GoodPrefix(c, arm, reg, genesis, evs, q, n)
    ensures RaisesAt(c, arm, reg, genesis, evs, q, m) ==> n <= m
  {
    hide ItemRaises, EvidenceAccepted, LinkedAt;
    if RaisesAt(c, arm, reg, genesis, evs, q, m) {
      RaisingIsRefused(c, arm, reg, evs[m], q);
    }
  }

  /** What stops the loop at item n without an exception excludes an exception anywhere. */
  lemma StopIsNotRaised(c: Crypto, arm: Arm, reg: Registry, genesis: Position, evs: seq<Evidence>, q: Option<int>,
                        n: nat)
    requires Unambiguous(reg) && n < |evs| && ListReasons(c, evs) == []
    requires GoodPrefix(c, arm, reg, genesis, evs, q, n)
    requires !(LinkedAt(genesis, evs, n) && EvidenceAccepted(c, arm, reg, evs[n], q))
    requires PlaceReasons(c, genesis, evs, n) == [] ==> !ItemRaises(arm, Some(reg), evs[n])
    ensures !StreamRaises(c, arm, reg, genesis, evs, q)
  {
    hide ItemRaises, EvidenceAccepted, LinkedAt, ListReasons, PlaceReasons;
    forall m | 0 <= m < |evs| && RaisesAt(c, arm, reg, genesis, evs, q, m) ensures m == n {
      RaisesOnlyAtStop(c, arm, reg, genesis, evs, q, m, n);
    }
  }

  lemma VerifiedIsNotRaised(c: Crypto, arm: Arm, reg: Registry, genesis: Position, evs: seq<Evidence>, q: Option<int>)
    requires Unambiguous(reg) && StreamVerified(c, arm, reg, genesis, evs, q)
    ensures !StreamRaises(c, arm, reg, genesis, evs, q)
  {
    hide RaisesAt, GoodPrefix, ListReasons;
    forall m | 0 <= m < |evs| ensures !RaisesAt(c, arm, reg, genesis, evs, q, m) {
      RaisesOnlyAtStop(c, arm, reg, genesis, evs, q, m, |evs|);
    }
  }

  /** A missing link or an item that is not accepted breaks verification. */
  lemma BadItem(c: Crypto, arm: Arm, reg: Registry, genesis: Position, evs: seq<Evidence>, q: Option<int>, n: nat)
    requires n < |evs| && !(LinkedAt(genesis, evs, n) && EvidenceAccepted(c, arm, reg, evs[n], q))
    ensures !StreamVerified(c, arm, reg, genesis, evs, q)
  {}

  lemma VerifiedIsPresentedFine(
      c: Crypto, arm: Arm, reg: Registry, genesis: Position, evs: seq<Evidence>, q: Option<int>)
    ensures StreamVerified(c, arm, reg, genesis, evs, q) ==>
      Distinct(Epochs(evs)) && !Descends(Epochs(evs)) && !Descends(Starts(evs)) && NothingRepeats(c, evs)
  {
    hide EvidenceAccepted;
    if StreamVerified(c, arm, reg, genesis, evs, q) {
      LinkedIsOrdered(genesis, evs);
    }
  }

  lemma TransitionsAreNotFatal(c: Crypto, reg: Registry, evs: seq<Evidence>, n: nat)
    requires n <= |evs|
    ensures !Fatal(Transitions(c, reg, evs, n))
  {}

  lemma FatalReasons(reasons: seq<Reason>, more: seq<Reason>)
    requires NoTailReason(more)
    ensures Fatal(reasons + more) <==> Fatal(reasons) || more != []
  {
    assert forall r :: r in reasons + more <==> r in reasons || r in more;
    if more != [] {
      assert more[0] in more;
    }
  }

  /** Audit one item and look up the key it was accepted under. */
  method JudgeItem(c: Crypto, ev: Evidence, arm: Arm, reg: Registry, q: Option<int>)
    returns (raised: bool, verdict: AuditVerdict, key: Option<Digest>)
    requires Unambiguous(reg)
    ensures raised <==> ItemRaises(arm, Some(reg), ev)
    ensures !raised ==> verdict == ItemVerdict(c, arm, Some(reg), ev, q)
    ensures key.Some? <==> EvidenceAccepted(c, arm, reg, ev, q)
    ensures key.Some? ==> !raised && key == KeyAt(c, reg, ev)
    ensures key.Some? ==> verdict.accepted && verdict.validRecords == |ev.records|
    ensures !raised && key.None? ==> verdict.reasons == Unique(ItemReasons(c, arm, Some(reg), ev, q)) != []
    ensures !raised && key.None? ==> !verdict.accepted && NoTailReason(verdict.reasons)
  {
    hide EvidenceAccepted, ItemReasons, ItemRaises, ItemVerdict;
    NothingIsUnique();
    VerdictDecides(c, arm, reg, ev, q);
    var audited := AuditEvidence(c, ev, arm, Some(reg), q);
    verdict := RejectedVerdict(ev, [], false, 0, None, 0, 0);
    if audited.Raised? { return true, verdict, None; }
    verdict := audited.value;
    if !verdict.accepted { return false, verdict, None; }
    AcceptedHasKey(c, arm, reg, ev, q);
    var ckpt := ev.checkpoint;
    var authorization := PublisherFor(reg, ckpt.clientId, ckpt.topic, ckpt.epoch).value.value;
    return false, verdict, Some(authorization.KeyId(c));
  }

  lemma ExpectedGrows(genesis: Position, evs: seq<Evidence>, n: nat)
    requires n < |evs| && LinkedAt(genesis, evs, n)
    ensures var ckpt := evs[n].checkpoint;
      ExpectedAt(genesis, evs, n + 1, ckpt.endAnchor, ckpt.epoch + 1, ckpt.seqEnd + 1)
  {}

  lemma WalkVerifies(c: Crypto, arm: Arm, reg: Registry, genesis: Position, evs: seq<Evidence>, q: Option<int>,
                     reasons: seq<Reason>, verdicts: seq<AuditVerdict>, previousKey: Option<Digest>)
    requires WalkedTo(c, arm, reg, genesis, evs, q, |evs|, reasons, verdicts, previousKey) && NothingRepeats(c, evs)
    ensures StreamVerified(c, arm, reg, genesis, evs, q) && reasons == Transitions(c, reg, evs, |evs|)
    ensures verdicts == Verdicts(c, arm, reg, evs, q, |evs|)
    ensures |verdicts| == CountAccepted(verdicts) == |evs| && SumAccepted(verdicts) == |AllRecords(evs)|
  {
    hide EvidenceAccepted, LinkedAt, ItemVerdict;
    assert evs[..|evs|] == evs;
  }

  /** Item n is out of place. */
  lemma PlaceStops(c: Crypto, arm: Arm, reg: Registry, genesis: Position, evs: seq<Evidence>, q: Option<int>, n: nat,
                   reasons: seq<Reason>, verdicts: seq<AuditVerdict>, previousKey: Option<Digest>)
    requires n < |evs| && WalkedTo(c, arm, reg, genesis, evs, q, n, reasons, verdicts, previousKey)
    requires Unambiguous(reg) && ListReasons(c, evs) == [] && PlaceReasons(c, genesis, evs, n) != []
    ensures Explains(c, arm, reg, genesis, evs, q, reasons + PlaceReasons(c, genesis, evs, n), verdicts)
    ensures !StreamVerified(c, arm, reg, genesis, evs, q) && !StreamRaises(c, arm, reg, genesis, evs, q)
  {
    hide GoodPrefix, EvidenceAccepted, ItemReasons, LinkedAt, ListReasons, PlaceReasons, Verdicts, StreamRaises;
    assert StopsAt(c, arm, reg, genesis, evs, q, n, reasons + PlaceReasons(c, genesis, evs, n), verdicts);
    ListIsFine(c, evs);
    PlaceDecides(c, genesis, evs, n);
    BadItem(c, arm, reg, genesis, evs, q, n);
    StopIsNotRaised(c, arm, reg, genesis, evs, q, n);
  }

  /** Item n is in its place, and refused. */
  lemma RefusalStops(c: Crypto, arm: Arm, reg: Registry, genesis: Position, evs: seq<Evidence>, q: Option<int>, n: nat,
                     reasons: seq<Reason>, verdicts: seq<AuditVerdict>, previousKey: Option<Digest>, more: seq<Reason>,
                     verdict: AuditVerdict)
    requires n < |evs| && WalkedTo(c, arm, reg, genesis, evs, q, n, reasons, verdicts, previousKey)
    requires Unambiguous(reg) && ListReasons(c, evs) == [] && PlaceReasons(c, genesis, evs, n) == []
    requires !EvidenceAccepted(c, arm, reg, evs[n], q) && !ItemRaises(arm, Some(reg), evs[n])
    requires more == Unique(ItemReasons(c, arm, Some(reg), evs[n], q))
    requires verdict == ItemVerdict(c, arm, Some(reg), evs[n], q)
    ensures Explains(c, arm, reg, genesis, evs, q, reasons + more, verdicts + [verdict])
    ensures !StreamVerified(c, arm, reg, genesis, evs, q) && !StreamRaises(c, arm, reg, genesis, evs, q)
  {
    hide GoodPrefix, EvidenceAccepted, ItemReasons, LinkedAt, ListReasons, PlaceReasons, Verdicts, StreamRaises,
         ItemVerdict, ItemRaises;
    VerdictsSnoc(c, arm, reg, evs, q, n);
    assert StopsAt(c, arm, reg, genesis, evs, q, n, reasons + more, verdicts + [verdict]);
    BadItem(c, arm, reg, genesis, evs, q, n);
    StopIsNotRaised(c, arm, reg, genesis, evs, q, n);
  }

  /** Item n is in its place, and its audit raises. */
  lemma RaiseStops(c: Crypto, arm: Arm, reg: Registry, genesis: Position, evs: seq<Evidence>, q: Option<int>, n: nat,
                   reasons: seq<Reason>, verdicts: seq<AuditVerdict>, previousKey: Option<Digest>)
    requires n < |evs| && WalkedTo(c, arm, reg, genesis, evs, q, n, reasons, verdicts, previousKey)
    requires Unambiguous(reg) && ListReasons(c, evs) == [] && PlaceReasons(c, genesis, evs, n) == []
    requires ItemRaises(arm, Some(reg), evs[n])
    ensures !StreamVerified(c, arm, reg, genesis, evs, q) && StreamRaises(c, arm, reg, genesis, evs, q)
  {
    hide GoodPrefix, EvidenceAccepted, LinkedAt, ListReasons, PlaceReasons, ItemRaises;
    assert RaisesAt(c, arm, reg, genesis, evs, q, n);
    RaisingIsRefused(c, arm, reg, evs[n], q);
    BadItem(c, arm, reg, genesis, evs, q, n);
  }

  /** A list with findings is rejected after its first item was placed. */
  lemma ListStops(c: Crypto, arm: Arm, reg: Registry, genesis: Position, evs: seq<Evidence>, q: Option<int>)
    requires evs != [] && ListReasons(c, evs) != []
    ensures Explains(c, arm, reg, genesis, evs, q, ListReasons(c, evs) + PlaceReasons(c, genesis, evs, 0), [])
    ensures !StreamVerified(c, arm, reg, genesis, evs, q) && !StreamRaises(c, arm, reg, genesis, evs, q)
  {
    hide PlaceReasons;
    VerifiedIsPresentedFine(c, arm, reg, genesis, evs, q);
  }

  /** What the loop found after placing item n is fatal unless the list and the place are fine. */
  lemma PlacedFatal(c: Crypto, arm: Arm, reg: Registry, genesis: Position, evs: seq<Evidence>, q: Option<int>, n: nat,
                    presented: seq<Reason>, walked: seq<Reason>, verdicts: seq<AuditVerdict>,
                    previousKey: Option<Digest>)
    requires n < |evs| && presented == ListReasons(c, evs) && (presented != [] ==> n == 0) && Unambiguous(reg)
    requires WalkedTo(c, arm, reg, genesis, evs, q, n, walked, verdicts, previousKey)
    ensures var found := presented + walked + PlaceReasons(c, genesis, evs, n);
      && (Fatal(found) <==> presented != [] || PlaceReasons(c, genesis, evs, n) != [])
      && (Fatal(found) ==>
            Explains(c, arm, reg, genesis, evs, q, found, verdicts)
            && !StreamVerified(c, arm, reg, genesis, evs, q) && !StreamRaises(c, arm, reg, genesis, evs, q))
      && (!Fatal(found) ==> found == walked && LinkedAt(genesis, evs, n))
  {
    hide GoodPrefix, ListReasons, PlaceReasons, LinkedAt, Explains, StreamVerified, EvidenceAccepted, KeyAt, Fatal,
         CountAccepted, SumAccepted, AllRecords, StreamRaises, ItemVerdict;
    var place := PlaceReasons(c, genesis, evs, n);
    TransitionsAreNotFatal(c, reg, evs, n);
    FatalReasons([], presented);
    FatalReasons(presented + walked, place);
    NothingIsFatal();
    assert [] + presented == presented && presented + [] == presented;
    if presented != [] {
      assert presented + walked + place == presented + place && verdicts == [];
      ListStops(c, arm, reg, genesis, evs, q);
    } else {
      assert presented + walked + place == walked + place && walked + [] == walked && presented + walked == walked;
      ListIsFine(c, evs);
      PlaceDecides(c, genesis, evs, n);
      if place != [] {
        PlaceStops(c, arm, reg, genesis, evs, q, n, walked, verdicts, previousKey);
      }
    }
  }

  lemma NothingIsFatal()
    ensures !Fatal([])
  {}

  lemma ListIsFine(c: Crypto, evs: seq<Evidence>)
    requires ListReasons(c, evs) == []
    ensures NothingRepeats(c, evs)
  {}

  lemma StopIsFatal(c: Crypto, reg: Registry, evs: seq<Evidence>, n: nat, more: seq<Reason>)
    requires n <= |evs| && more != [] && NoTailReason(more)
    ensures Fatal(Transitions(c, reg, evs, n) + more)
  {
    FatalReasons(Transitions(c, reg, evs, n), more);
  }

  /**
   * The checkpoint loop. `presented` are the findings on the list as a whole; a fatal reason stops the loop, and
   * there is one exactly when the stream does not verify.
   */
  method WalkStream(c: Crypto, evs: seq<Evidence>, arm: Arm, reg: Registry, genesis: Position, q: Option<int>,
                    presented: seq<Reason>)
    returns (raised: bool, reasons: seq<Reason>, verdicts: seq<AuditVerdict>)
    requires evs != [] && Unambiguous(reg) && presented == ListReasons(c, evs)
    ensures raised <==> StreamRaises(c, arm, reg, genesis, evs, q)
    ensures !raised ==> (Fatal(reasons) <==> !StreamVerified(c, arm, reg, genesis, evs, q))
    ensures raised ==> !StreamVerified(c, arm, reg, genesis, evs, q)
    ensures !raised && Fatal(reasons) ==> Explains(c, arm, reg, genesis, evs, q, reasons, verdicts)
    ensures !raised && !Fatal(reasons) ==>
      && verdicts == Verdicts(c, arm, reg, evs, q, |evs|) && reasons == Transitions(c, reg, evs, |evs|)
      && |verdicts| == CountAccepted(verdicts) == |evs| && SumAccepted(verdicts) == |AllRecords(evs)|
  {
    hide EvidenceAccepted, NothingRepeats, LinkedAt, GoodPrefix, SeenAfter, StreamVerified, WalkedTo, Hashes,
         KeyAt, CountAccepted, SumAccepted, AllRecords, ExpectedAt, PlaceReasons, ItemReasons, Explains, Transitions,
         ListReasons, Fatal, NoTailReason, Unique, StreamRaises, ItemRaises, ItemVerdict, Verdicts;
    raised, reasons, verdicts := false, presented, [];
    var expectedPrev, expectedEpoch, expectedSeq := genesis.anchor, genesis.epoch, genesis.seqNo;
    var previousKey: Option<Digest> := None;
    var seen := Seen({}, {}, {genesis.anchor}, {});
    ghost var walked: seq<Reason> := [];
    SeenStart(c, genesis, evs);
    ExpectedStarts(genesis, evs);
    WalkStarts(c, arm, reg, genesis, evs, q);
    var i := 0;
    while i < |evs|
      invariant 0 <= i <= |evs| && |verdicts| == i
      invariant reasons == presented + walked && (presented != [] ==> i == 0)
      invariant WalkedTo(c, arm, reg, genesis, evs, q, i, walked, verdicts, previousKey)
      invariant seen == SeenAfter(c, genesis, evs, i)
      invariant ExpectedAt(genesis, evs, i, expectedPrev, expectedEpoch, expectedSeq)
    {
      var ckpt := evs[i].checkpoint;
      var link := LinkItem(c, genesis, evs, i, expectedPrev, expectedEpoch, expectedSeq, seen, verdicts == []);
      PlacedFatal(c, arm, reg, genesis, evs, q, i, presented, walked, verdicts, previousKey);
      reasons := reasons + link;
      if Fatal(reasons) { return; }
      var unserialisable, verdict, accepted := JudgeItem(c, evs[i], arm, reg, q);
      if unserialisable {
        RaiseStops(c, arm, reg, genesis, evs, q, i, walked, verdicts, previousKey);
        return true, reasons, verdicts;
      }
      if accepted.None? {
        RefusalStops(c, arm, reg, genesis, evs, q, i, walked, verdicts, previousKey, verdict.reasons, verdict);
        WalkedReasons(c, arm, reg, genesis, evs, q, i, walked, verdicts, previousKey);
        StopIsFatal(c, reg, evs, i, verdict.reasons);
        return false, reasons + verdict.reasons, verdicts + [verdict];
      }
      var key := accepted.value;
      WalkGrows(c, arm, reg, genesis, evs, q, i, walked, verdicts, previousKey, verdict, key);
      verdicts := verdicts + [verdict];
      ghost var more := if previousKey.Some? && key != previousKey.value then [AUTHORIZED_KEY_TRANSITION] else [];
      if previousKey.Some? && key != previousKey.value {
        reasons := reasons + [AUTHORIZED_KEY_TRANSITION];
      }
      walked := walked + more;
      previousKey := Some(key);
      SeenGrows(c, genesis, evs, i);
      seen := Seen(seen.epochs + {ckpt.epoch}, seen.ranges + {(ckpt.seqStart, ckpt.seqEnd)},
                   seen.anchors + {ckpt.endAnchor}, seen.hashes + Elements(Hashes(c, evs[i].records)));
      ExpectedGrows(genesis, evs, i);
      expectedPrev, expectedEpoch, expectedSeq := ckpt.endAnchor, ckpt.epoch + 1, ckpt.seqEnd + 1;
      i := i + 1;
    }
    assert reasons == walked;
    ListIsFine(c, evs);
    WalkVerifies(c, arm, reg, genesis, evs, q, walked, verdicts, previousKey);
    VerifiedIsNotRaised(c, arm, reg, genesis, evs, q);
    TransitionsAreNotFatal(c, reg, evs, |evs|);
  }

  lemma WalkedReasons(c: Crypto, arm: Arm, reg: Registry, genesis: Position, evs: seq<Evidence>, q: Option<int>,
                      n: nat, reasons: seq<Reason>, verdicts: seq<AuditVerdict>, previousKey: Option<Digest>)
    requires n <= |evs| && WalkedTo(c, arm, reg, genesis, evs, q, n, reasons, verdicts, previousKey)
    ensures reasons == Transitions(c, reg, evs, n)
  {}

  predicate EndsAfter(evs: seq<Evidence>, latest: Position) {
    && evs != [] && !EndsBefore(evs, latest)
    && var last := evs[|evs| - 1].checkpoint; last.epoch > latest.epoch || last.seqEnd > latest.seqNo
  }

  /** What the end of a verified stream tells. */
  function TailReasons(evs: seq<Evidence>, arm: Arm, latest: Option<Position>, auditTime: real): (reasons: seq<Reason>)
    ensures AUTHORIZED_KEY_TRANSITION !in reasons
    ensures ROLLBACK_DETECTED in reasons <==> latest.Some? && EndsBefore(evs, latest.value)
  {
    if latest.None? then [LATEST_ANCHOR_MISSING, TAIL_COMPLETENESS_UNPROVABLE]
    else if EndsBefore(evs, latest.value) then [LATEST_ANCHOR_MISMATCH, ROLLBACK_DETECTED]
    else if EndsAfter(evs, latest.value) then [EVIDENCE_AFTER_LATEST_ANCHOR]
    else if !EndsAt(evs, latest.value) then [LATEST_ANCHOR_MISMATCH, SPLICE_OR_FORK]
    else if Stale(latest.value, auditTime) then [LATEST_ANCHOR_STALE]
    else if arm == A1 then [HISTORY_BINDING_UNAVAILABLE]
    else [VERIFIED]
  }

  /** The verdict on a verified stream, from its end and the trusted latest anchor. */
  method JudgeTail(evs: seq<Evidence>, arm: Arm, latest: Option<Position>, auditTime: real, streamId: Text,
                   reasons: seq<Reason>, verdicts: seq<AuditVerdict>)
    returns (v: StreamVerdict)
    requires evs != [] && CountAccepted(verdicts) == |verdicts|
    ensures v.outcome == Accept <==>
      latest.Some? && EndsAt(evs, latest.value) && !Stale(latest.value, auditTime) && arm != A1
    ensures v.outcome == Inconclusive <==>
      latest.None? || (EndsAt(evs, latest.value) && (Stale(latest.value, auditTime) || arm == A1))
    ensures v.reasons == Unique(reasons + TailReasons(evs, arm, latest, auditTime))
    ensures v.verdicts == verdicts && v.verifiedCheckpoints == |verdicts|
    ensures v.verifiedRecords == SumAccepted(verdicts)
    ensures v.startedFromAnchor && v.streamId == Some(streamId)
    ensures v.endedAtLatest <==> latest.Some? && EndsAt(evs, latest.value)
    ensures v.tailComplete <==> latest.Some? && EndsAt(evs, latest.value) && !Stale(latest.value, auditTime)
  {
    var known := StreamVerdict(Inconclusive, [], Some(streamId), verdicts, |verdicts|, SumAccepted(verdicts),
                               false, true, false);
    if latest.None? {
      return known.(reasons := Unique(reasons + [LATEST_ANCHOR_MISSING, TAIL_COMPLETENESS_UNPROVABLE]));
    }
    var last := evs[|evs| - 1].checkpoint;
    if last.epoch < latest.value.epoch || last.seqEnd < latest.value.seqNo {
      return StreamReject(reasons + [LATEST_ANCHOR_MISMATCH, ROLLBACK_DETECTED], Some(streamId), verdicts, true);
    }
    if last.epoch > latest.value.epoch || last.seqEnd > latest.value.seqNo {
      return StreamReject(reasons + [EVIDENCE_AFTER_LATEST_ANCHOR], Some(streamId), verdicts, true);
    }
    if last.endAnchor != latest.value.anchor {
      return StreamReject(reasons + [LATEST_ANCHOR_MISMATCH, SPLICE_OR_FORK], Some(streamId), verdicts, true);
    }
    if latest.value.validUntil.Some? && auditTime > latest.value.validUntil.value {
      return known.(reasons := Unique(reasons + [LATEST_ANCHOR_STALE]), endedAtLatest := true);
    }
    if arm == A1 {
      return known.(reasons := Unique(reasons + [HISTORY_BINDING_UNAVAILABLE]), endedAtLatest := true,
                    tailComplete := true);
    }
    v := known.(outcome := Accept, reasons := Unique(reasons + [VERIFIED]), endedAtLatest := true,
                tailComplete := true);
  }

  /** The rejections before any checkpoint is looked at. */
  function EarlyReason(job: Job): Option<Reason> {
    if job.arm == A2 then Some(NON_TRANSFERABLE_ARM)
    else if job.registry.None? then Some(REGISTRY_REQUIRED)
    else if job.anchors.None? then Some(ANCHOR_SET_REQUIRED)
    else if job.evs == [] then Some(EMPTY_EVIDENCE)
    else if job.Anchors().None? then Some(GENESIS_ANCHOR_REQUIRED)
    else None
  }

  /** The job's reasons and verdicts explain why its stream does not verify. */
  ghost predicate JobExplains(c: Crypto, job: Job, reasons: seq<Reason>, verdicts: seq<AuditVerdict>)
    requires EarlyReason(job).None?
  {
    Explains(c, job.arm, job.registry.value, job.Anchors().value.genesis, job.evs, job.witnessQuorum, reasons, verdicts)
  }

  /** The counts and flags of a rejection are those of its verdicts. */
  predicate CountsRejected(v: StreamVerdict, streamId: Text) {
    && v.verifiedCheckpoints == CountAccepted(v.verdicts) && v.verifiedRecords == SumAccepted(v.verdicts)
    && v.startedFromAnchor && !v.tailComplete && !v.endedAtLatest && v.streamId == Some(streamId)
  }

  /** What is reported of a stream that does not verify: the reasons and verdicts that explain it. */
  ghost predicate Diagnosed(c: Crypto, job: Job, v: StreamVerdict)
    requires EarlyReason(job).None?
  {
    && (exists reasons :: JobExplains(c, job, reasons, v.verdicts) && v.reasons == Unique(reasons))
    && CountsRejected(v, StreamOf(job.evs[0]))
  }

  /** When auditing the job ends in an exception. */
  ghost predicate JobRaises(c: Crypto, job: Job) {
    && EarlyReason(job).None?
    && StreamRaises(c, job.arm, job.registry.value, job.Anchors().value.genesis, job.evs, job.witnessQuorum)
  }

  /** A stream all of whose items can be serialised is answered with a verdict. */
  lemma SerializableIsJudged(c: Crypto, job: Job)
    requires forall i :: 0 <= i < |job.evs| ==> Serializable(job.evs[i])
    ensures !JobRaises(c, job)
  {
    hide Serializable, ItemRaises, GoodPrefix, PlaceReasons, ListReasons;
    forall i | 0 <= i < |job.evs| && job.registry.Some? ensures !ItemRaises(job.arm, job.registry, job.evs[i]) {
      SerializableIsAnswered(job.arm, job.registry, job.evs[i]);
    }
  }

  /**
   * An input `audit_stream` does not answer: a trusted genesis whose next number is past the u32 field, and one
   * item from an authorised publisher, in its place, with that number.
   */
  lemma FarGenesisRaises(c: Crypto, job: Job, auth: PublisherAuth)
    requires EarlyReason(job).None? && job.arm != A1 && |job.evs| == 1 && |job.evs[0].records| == 1
    requires Unambiguous(job.registry.value) && auth in job.registry.value.publishers
    requires PublisherVouches(job.arm, job.evs[0], auth)
    requires var genesis, ckpt := job.Anchors().value.genesis, job.evs[0].checkpoint;
      && genesis.seqNo == MAX_U32 + 1 && ckpt.seqStart == ckpt.seqEnd == genesis.seqNo
      && ckpt.epoch == genesis.epoch && ckpt.prevAnchor == genesis.anchor && ckpt.endAnchor != genesis.anchor
    ensures JobRaises(c, job)
  {
    hide PublisherReasons, PlaceReasons, ListReasons, StreamOf, PublisherVouches;
    var evs, genesis := job.evs, job.Anchors().value.genesis;
    VouchedIsInOrder(job.arm, job.registry.value, evs[0], auth);
    VouchedScheme(job.arm, evs[0], auth);
    SingleRepeatsNothing(c, evs);
    PlaceDecides(c, genesis, evs, 0);
    assert RaisesAt(c, job.arm, job.registry.value, genesis, evs, job.witnessQuorum, 0);
  }

  lemma VouchedScheme(arm: Arm, ev: Evidence, auth: PublisherAuth)
    requires PublisherVouches(arm, ev, auth)
    ensures UsesMerkle(arm) || arm == A3 || arm == A1
  {}

  /** One item with one record: nothing to say against the list. */
  lemma SingleRepeatsNothing(c: Crypto, evs: seq<Evidence>)
    requires |evs| == 1 && |evs[0].records| == 1
    ensures NothingRepeats(c, evs) && ListReasons(c, evs) == []
  {
    assert evs[..0] == [];
    assert AllRecords(evs) == evs[0].records;
  }

  /** What is reported of a verified stream. */
  ghost predicate ReportsEnd(c: Crypto, job: Job, v: StreamVerdict)
    requires EarlyReason(job).None?
  {
    var latest := job.Anchors().value.latest;
    && v.reasons == Unique(Transitions(c, job.registry.value, job.evs, |job.evs|)
                           + TailReasons(job.evs, job.arm, latest, job.auditTime))
    && v.verdicts == Verdicts(c, job.arm, job.registry.value, job.evs, job.witnessQuorum, |job.evs|)
    && v.verifiedCheckpoints == |job.evs| && v.verifiedRecords == |AllRecords(job.evs)| && v.startedFromAnchor
    && v.streamId == Some(StreamOf(job.evs[0]))
    && (v.endedAtLatest <==> latest.Some? && EndsAt(job.evs, latest.value))
    && (v.tailComplete <==> latest.Some? && EndsAt(job.evs, latest.value) && !Stale(latest.value, job.auditTime))
  }

  /** The verdict on a job: each outcome says exactly what it is meant to say, and the reasons say why. */
  ghost predicate Judged(c: Crypto, job: Job, v: StreamVerdict) {
    && (v.outcome == Accept <==> job.Accepted(c))
    && (v.outcome == Inconclusive <==> job.Undecided(c))
    && (EarlyReason(job).Some? ==>
          v.outcome == Reject && v.reasons == [EarlyReason(job).value] && v.verdicts == [])
    && (EarlyReason(job).None? && !job.Verified(c) ==> v.outcome == Reject && Diagnosed(c, job, v))
    && (job.Verified(c) ==> EarlyReason(job).None? && ReportsEnd(c, job, v))
  }

  /** `audit_stream`. */
  method AuditStream(c: Crypto, job: Job) returns (r: Outcome<StreamVerdict>)
    requires job.registry.Some? ==> Unambiguous(job.registry.value)
    ensures r.Raised? <==> JobRaises(c, job)
    ensures r.Ok? ==> Judged(c, job, r.value)
    ensures job.Verified(c) ==> r.Ok?
  {
    hide StreamVerified, EndsAt, EndsBefore, EndsAfter, Stale, AllRecords, CountAccepted, SumAccepted, Unique,
         TailReasons, ListReasons, Explains, Transitions, Fatal, Verdicts, StreamRaises;
    var evs := job.evs;
    if job.arm == A2 {
      NonTransferable(c, job);
      SingleIsUnique(NON_TRANSFERABLE_ARM);
      return Ok(StreamReject([NON_TRANSFERABLE_ARM], None, [], false));
    }
    if job.registry.None? {
      SingleIsUnique(REGISTRY_REQUIRED);
      return Ok(StreamReject([REGISTRY_REQUIRED], None, [], false));
    }
    if job.anchors.None? {
      SingleIsUnique(ANCHOR_SET_REQUIRED);
      return Ok(StreamReject([ANCHOR_SET_REQUIRED], None, [], false));
    }
    if evs == [] {
      SingleIsUnique(EMPTY_EVIDENCE);
      return Ok(StreamReject([EMPTY_EVIDENCE], None, [], false));
    }
    var streamId := StreamOf(evs[0]);
    var anchors := AnchorsFor(job.anchors.value, streamId);
    if anchors.None? {
      SingleIsUnique(GENESIS_ANCHOR_REQUIRED);
      return Ok(StreamReject([GENESIS_ANCHOR_REQUIRED], Some(streamId), [], false));
    }
    var genesis := anchors.value.genesis;
    var presented := PresentedReasons(c, evs);
    var raised, reasons, verdicts :=
      WalkStream(c, evs, job.arm, job.registry.value, genesis, job.witnessQuorum, presented);
    if raised { return Raised; }
    if Fatal(reasons) {
      assert JobExplains(c, job, reasons, verdicts);
      return Ok(StreamReject(reasons, Some(streamId), verdicts, true));
    }
    var v := JudgeTail(evs, job.arm, anchors.value.latest, job.auditTime, streamId, reasons, verdicts);
    r := Ok(v);
  }

  /** The report of a verified stream names a key transition exactly when the authorised key changes. */
  lemma ReportsTransitions(c: Crypto, job: Job, v: StreamVerdict)
    requires EarlyReason(job).None? && ReportsEnd(c, job, v)
    ensures AUTHORIZED_KEY_TRANSITION in v.reasons <==> KeyChanges(c, job.registry.value, job.evs, |job.evs|)
  {
    hide KeyChanges, Stale, EndsAt, TailReasons, Transitions, AllRecords, Unique;
    var t := Transitions(c, job.registry.value, job.evs, |job.evs|);
    TransitionsTell(c, job.registry.value, job.evs, |job.evs|);
    if t != [] {
      assert t[0] in t;
    }
  }

  /** Codes that say nothing about the end of a stream. */
  predicate Untailed(reasons: seq<Reason>) {
    forall r :: r in reasons ==> r == AUTHORIZED_KEY_TRANSITION || !TailReason(r)
  }

  lemma UntailedConcat(a: seq<Reason>, b: seq<Reason>)
    requires Untailed(a) && Untailed(b)
    ensures Untailed(a + b)
  {
    hide TailReason;
  }

  lemma UntailedTransitions(c: Crypto, reg: Registry, evs: seq<Evidence>, n: nat, more: seq<Reason>)
    requires n <= |evs| && NoTailReason(more)
    ensures Untailed(Transitions(c, reg, evs, n)) && Untailed(more) && Untailed(Unique(more))
  {
    hide TailReason, Transitions, Unique;
  }

  lemma ExplainedIsUntailed(c: Crypto, arm: Arm, reg: Registry, genesis: Position, evs: seq<Evidence>, q: Option<int>,
                            reasons: seq<Reason>, verdicts: seq<AuditVerdict>)
    requires evs != [] && Explains(c, arm, reg, genesis, evs, q, reasons, verdicts)
    ensures Untailed(reasons)
  {
    hide ListReasons, PlaceReasons, ItemReasons, GoodPrefix, EvidenceAccepted, Transitions, NoTailReason, Unique,
         Untailed;
    if ListReasons(c, evs) != [] {
      UntailedTransitions(c, reg, evs, 0, ListReasons(c, evs));
      UntailedTransitions(c, reg, evs, 0, PlaceReasons(c, genesis, evs, 0));
      UntailedConcat(ListReasons(c, evs), PlaceReasons(c, genesis, evs, 0));
    } else {
      var n :| 0 <= n < |evs| && StopsAt(c, arm, reg, genesis, evs, q, n, reasons, verdicts);
      var place, item := PlaceReasons(c, genesis, evs, n), ItemReasons(c, arm, Some(reg), evs[n], q);
      UntailedTransitions(c, reg, evs, n, place);
      UntailedTransitions(c, reg, evs, n, item);
      UntailedConcat(Transitions(c, reg, evs, n), if place != [] then place else Unique(item));
    }
  }

  /** Rollback is reported exactly when the stream verifies and the trusted latest anchor lies further on. */
  lemma ReportsRollback(c: Crypto, job: Job, v: StreamVerdict)
    requires EarlyReason(job).None?
    requires if job.Verified(c) then ReportsEnd(c, job, v) else Diagnosed(c, job, v)
    ensures ROLLBACK_DETECTED in v.reasons <==> job.RolledBack(c)
  {
    hide StreamVerified, Stale, EndsAt, EndsBefore, Explains, TailReasons, Transitions, AllRecords, Unique;
    if !job.Verified(c) {
      var reasons :| JobExplains(c, job, reasons, v.verdicts) && v.reasons == Unique(reasons);
      ExplainedIsUntailed(c, job.arm, job.registry.value, job.Anchors().value.genesis, job.evs, job.witnessQuorum,
                          reasons, v.verdicts);
    }
  }

  lemma NoA2Accepted(c: Crypto, reg: Registry, ev: Evidence, q: Option<int>)
    ensures !EvidenceAccepted(c, A2, reg, ev, q)
  {}

  /** No A2 stream ever verifies. */
  lemma NonTransferable(c: Crypto, job: Job)
    requires job.arm == A2
    ensures !job.Verified(c)
  {
    hide EvidenceAccepted;
    if job.registry.Some? && job.evs != [] {
      NoA2Accepted(c, job.registry.value, job.evs[0], job.witnessQuorum);
    }
  }
}
