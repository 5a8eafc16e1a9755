/** What the delivery auditor's verdicts mean, over every list of deliveries. */
module QosTheorems {
  import opened Prelude
  import opened Bytes
  import opened Text
  import opened Crypto
  import opened Evidence
  import ItemAudit
  import opened StreamAudit
  import opened Tiling
  import opened QosSemantics
  import opened QosAuditor

  // ---- Awareness only removes detections ----

  /** A cross-epoch replay is a duplicate. */
  lemma CrossingIsDuplicate(ctx: QosContext, ds: seq<Delivery>)
    requires Crosses(ctx, ds)
    ensures Duplicated(ds)
  {
    var i :| 0 <= i < |ds| && CrossesAt(ctx, ds, i);
    var j :| 0 <= j < i && KeyOf(ds[j]) == KeyOf(ds[i]);
  }

  /** On every input: what the aware auditor detects the agnostic one detects, and so on for the other verdicts. */
  lemma AwarenessOnlyExcuses(inp: AuditorInput)
    ensures Detected(inp, true) ==> Detected(inp, false)
    ensures Accepts(inp, false) ==> Accepts(inp, true)
    ensures BlamesBroker(inp, false) ==> BlamesBroker(inp, true)
  {
    hide CheckpointFailure, ContentAnomaly, Missing, Duplicated, Crosses, Unexplained;
    var ds := SortByOrder(inp.deliveries);
    if Crosses(inp.context, ds) {
      CrossingIsDuplicate(inp.context, ds);
    }
  }

  // ---- No delivery goes back across an application epoch ----

  lemma {:induction false} EpochBeforeBounds(ctx: QosContext, ds: seq<Delivery>, n: nat, j: nat)
    requires j < n <= |ds|
    ensures ctx.ApplicationEpoch(ds[j].seqNo) <= EpochBefore(ctx, ds, n)
  {
    if j < n - 1 {
      EpochBeforeBounds(ctx, ds, n - 1, j);
    }
  }

  lemma NeighbourEpochs(ctx: QosContext, ds: seq<Delivery>, i: nat)
    requires 0 < i < |ds| && !Unexplained(ctx, ds)
    ensures ctx.ApplicationEpoch(ds[i - 1].seqNo) <= ctx.ApplicationEpoch(ds[i].seqNo)
  {
    assert !UnexplainedAt(ctx, ds, i);
    if RegressesAt(ctx, ds, i) {
      assert !CrossesAt(ctx, ds, i);
      EpochBeforeBounds(ctx, ds, i, i - 1);
    }
  }

  lemma {:induction false} EpochsClimb(ctx: QosContext, ds: seq<Delivery>, i: nat, j: nat)
    requires i <= j < |ds| && !Unexplained(ctx, ds)
    ensures ctx.ApplicationEpoch(ds[i].seqNo) <= ctx.ApplicationEpoch(ds[j].seqNo)
  {
    hide Unexplained;
    if i < j {
      EpochsClimb(ctx, ds, i, j - 1);
      NeighbourEpochs(ctx, ds, j);
    }
  }

  /** On an ordered topic nothing undetected goes back to an application epoch that was left, at any QoS. */
  lemma EpochsNeverFall(inp: AuditorInput, i: nat, j: nat)
    requires inp.context.ordered && Bindable(inp.history) && !Detected(inp, true)
    requires i <= j < |SortByOrder(inp.deliveries)|
    ensures var ds := SortByOrder(inp.deliveries);
      inp.context.ApplicationEpoch(ds[i].seqNo) <= inp.context.ApplicationEpoch(ds[j].seqNo)
  {
    hide CheckpointFailure, ContentAnomaly, Missing, Duplicated, Crosses, Unexplained;
    EpochsClimb(inp.context, SortByOrder(inp.deliveries), i, j);
  }

  // ---- Exactly once, in order ----

  /** Number and content. */
  type Message = (int, Bytes)

  function DeliveredMessages(ds: seq<Delivery>): seq<Message> {
    seq(|ds|, i requires 0 <= i < |ds| => (ds[i].seqNo, ds[i].digest))
  }

  function CommittedMessages(cs: seq<Commitment>): seq<Message> {
    seq(|cs|, i requires 0 <= i < |cs| => (cs[i].seqNo, cs[i].digest))
  }

  predicate Ascending(ms: seq<Message>) { forall i, j :: 0 <= i < j < |ms| ==> ms[i].0 < ms[j].0 }

  predicate DistinctNumbers(cs: seq<Commitment>) { forall i, j :: 0 <= i < j < |cs| ==> cs[i].seqNo != cs[j].seqNo }

  /** With distinct numbers, the dictionary of commitments is the list. */
  lemma {:induction false} MapIsList(cs: seq<Commitment>)
    requires DistinctNumbers(cs)
    ensures forall i :: 0 <= i < |cs| ==>
      (cs[i].epoch, cs[i].seqNo) in CommittedMap(cs) && CommittedMap(cs)[(cs[i].epoch, cs[i].seqNo)] == cs[i].digest
    ensures forall k :: k in CommittedMap(cs) ==>
      exists i :: 0 <= i < |cs| && k == (cs[i].epoch, cs[i].seqNo)
  {
    if cs != [] {
      var n := |cs| - 1;
      MapIsList(cs[..n]);
      forall k | k in CommittedMap(cs) ensures exists i :: 0 <= i < |cs| && k == (cs[i].epoch, cs[i].seqNo) {
        if k in CommittedMap(cs[..n]) {
          var i :| 0 <= i < n && k == (cs[..n][i].epoch, cs[..n][i].seqNo);
          assert k == (cs[i].epoch, cs[i].seqNo);
        } else {
          assert k == (cs[n].epoch, cs[n].seqNo);
        }
      }
    }
  }

  /** Ascending lists with the same elements are the same list. */
  lemma {:induction false} AscendingUnique(a: seq<Message>, b: seq<Message>)
    requires Ascending(a) && Ascending(b) && forall m :: m in a <==> m in b
    ensures a == b
  {
    FirstIsMember(a);
    FirstIsMember(b);
    if a != [] && b != [] {
      var m, n := |a| - 1, |b| - 1;
      assert a[m] in b && b[n] in a;
      LastIsGreatest(a, b[n]);
      LastIsGreatest(b, a[m]);
      assert a[m] == b[n] by { SameNumberSameMessage(a, a[m], b[n]); }
      forall x ensures x in a[..m] <==> x in b[..n] {
        FrontHas(a, x);
        FrontHas(b, x);
      }
      AscendingUnique(a[..m], b[..n]);
      assert a == a[..m] + [a[m]] && b == b[..n] + [b[n]];
    }
  }

  lemma FirstIsMember(a: seq<Message>)
    ensures a != [] ==> a[0] in a
  {}

  lemma LastIsGreatest(a: seq<Message>, x: Message)
    requires Ascending(a) && x in a
    ensures x.0 <= a[|a| - 1].0
  {
    var i :| 0 <= i < |a| && a[i] == x;
  }

  lemma SameNumberSameMessage(a: seq<Message>, x: Message, y: Message)
    requires Ascending(a) && x in a && y in a && x.0 == y.0
    ensures x == y
  {
    var i :| 0 <= i < |a| && a[i] == x;
    var j :| 0 <= j < |a| && a[j] == y;
  }

  lemma FrontHas(a: seq<Message>, x: Message)
    requires Ascending(a) && a != []
    ensures x in a[..|a| - 1] <==> x in a && x != a[|a| - 1]
  {
    var n := |a| - 1;
    if x in a[..n] {
      var i :| 0 <= i < n && a[i] == x;
      assert a[i].0 < a[n].0;
    }
    if x in a && x != a[n] {
      var i :| 0 <= i < |a| && a[i] == x;
      assert a[..n][i] == x;
    }
  }

  /** No anomaly, no permitted repeat: keys are distinct and numbers never fall. */
  predicate CleanDeliveries(ds: seq<Delivery>, cm: map<Key, Bytes>) {
    && (forall i :: 0 <= i < |ds| ==> KeyOf(ds[i]) in cm && ds[i].digest == cm[KeyOf(ds[i])])
    && (forall k :: k in cm ==> Delivered(ds, k))
    && (forall i, j :: 0 <= i < j < |ds| ==> KeyOf(ds[i]) != KeyOf(ds[j]))
    && (forall i :: 0 < i < |ds| ==> ds[i - 1].seqNo <= ds[i].seqNo)
  }

  lemma NoAnomalyIsClean(ctx: QosContext, ds: seq<Delivery>, cm: map<Key, Bytes>)
    requires ctx.span >= 1 && !ctx.DuplicatePermitted()
    requires !ContentAnomaly(ds, cm) && !Missing(ds, cm) && !Duplicated(ds) && !Unexplained(ctx, ds)
    ensures CleanDeliveries(ds, cm)
  {
    hide Delivered, CrossesAt, Divergent;
    forall i | 0 < i < |ds| ensures ds[i - 1].seqNo <= ds[i].seqNo {
      assert !UnexplainedAt(ctx, ds, i);
      PositionOrder(ctx, ds[i].seqNo, ds[i - 1].seqNo);
    }
  }

  lemma UndetectedIsClean(inp: AuditorInput)
    requires inp.context.span >= 1 && Bindable(inp.history) && !Detected(inp, true)
    requires inp.context.effectiveQos == 2 && inp.context.connected && inp.context.ordered
    ensures CleanDeliveries(SortByOrder(inp.deliveries), CommittedMap(inp.committed))
  {
    hide CheckpointFailure, ContentAnomaly, Missing, Duplicated, Crosses, Unexplained, CleanDeliveries;
    NoAnomalyIsClean(inp.context, SortByOrder(inp.deliveries), CommittedMap(inp.committed));
  }

  lemma {:induction false} NumbersClimb(ds: seq<Delivery>, i: nat, j: nat)
    requires i <= j < |ds| && forall k :: 0 < k < |ds| ==> ds[k - 1].seqNo <= ds[k].seqNo
    ensures ds[i].seqNo <= ds[j].seqNo
  {
    if i < j {
      NumbersClimb(ds, i, j - 1);
    }
  }

  /** Distinct keys under distinct committed numbers are distinct numbers. */
  lemma CleanAscends(ds: seq<Delivery>, cs: seq<Commitment>)
    requires DistinctNumbers(cs) && CleanDeliveries(ds, CommittedMap(cs))
    ensures Ascending(DeliveredMessages(ds))
  {
    hide CommittedMap, DistinctNumbers;
    forall i, j | 0 <= i < j < |ds| ensures ds[i].seqNo < ds[j].seqNo {
      NumbersClimb(ds, i, j);
      var p := CleanIsCommitted(ds, cs, i);
      var q := CleanIsCommitted(ds, cs, j);
      if cs[p].seqNo == cs[q].seqNo {
        SameNumberSameRow(cs, p, q);
      }
    }
  }

  /** Where a clean delivery is committed. */
  lemma CleanIsCommitted(ds: seq<Delivery>, cs: seq<Commitment>, i: nat) returns (p: nat)
    requires DistinctNumbers(cs) && CleanDeliveries(ds, CommittedMap(cs)) && i < |ds|
    ensures p < |cs| && KeyOf(ds[i]) == (cs[p].epoch, cs[p].seqNo) && ds[i].digest == cs[p].digest
  {
    hide CommittedMap, DistinctNumbers;
    MapIsList(cs);
    var k := KeyOf(ds[i]);
    assert k in CommittedMap(cs);
    p :| 0 <= p < |cs| && KeyOf(ds[i]) == (cs[p].epoch, cs[p].seqNo);
  }

  lemma SameNumberSameRow(cs: seq<Commitment>, p: nat, q: nat)
    requires DistinctNumbers(cs) && p < |cs| && q < |cs| && cs[p].seqNo == cs[q].seqNo
    ensures p == q
  {}

  lemma CleanHasAll(ds: seq<Delivery>, cs: seq<Commitment>, m: Message)
    requires DistinctNumbers(cs) && CleanDeliveries(ds, CommittedMap(cs))
    ensures m in DeliveredMessages(ds) <==> m in CommittedMessages(cs)
  {
    hide CommittedMap, DistinctNumbers;
    var dm, cmm := DeliveredMessages(ds), CommittedMessages(cs);
    if m in dm {
      var i :| 0 <= i < |dm| && dm[i] == m;
      var p := CleanIsCommitted(ds, cs, i);
      assert cmm[p] == m;
    }
    if m in cmm {
      MapIsList(cs);
      var p :| 0 <= p < |cmm| && cmm[p] == m;
      assert Delivered(ds, (cs[p].epoch, cs[p].seqNo));
      var i :| 0 <= i < |ds| && KeyOf(ds[i]) == (cs[p].epoch, cs[p].seqNo);
      assert dm[i] == m;
    }
  }

  lemma SameMembers(a: seq<Commitment>, b: seq<Commitment>)
    requires multiset(a) == multiset(b)
    ensures forall m :: m in CommittedMessages(a) <==> m in CommittedMessages(b)
  {
    HasMessages(a, b);
    HasMessages(b, a);
  }

  lemma HasMessages(a: seq<Commitment>, b: seq<Commitment>)
    requires multiset(a) == multiset(b)
    ensures forall m :: m in CommittedMessages(a) ==> m in CommittedMessages(b)
  {
    forall m | m in CommittedMessages(a) ensures m in CommittedMessages(b) {
      var i :| 0 <= i < |a| && CommittedMessages(a)[i] == m;
      assert a[i] in multiset(b);
      var j :| 0 <= j < |b| && b[j] == a[i];
      assert CommittedMessages(b)[j] == m;
    }
  }

  /**
   * Exactly once, in order. If the aware auditor accepts at effective QoS 2, with a connected subscriber and an
   * ordered topic, then what was delivered, in delivery order, is what was committed, in order of number: the same
   * messages, each once. `inOrder` is any listing of the commitments by ascending number.
   */
  lemma ExactlyOnceInOrder(inp: AuditorInput, inOrder: seq<Commitment>)
    requires inp.context.span >= 1 && Accepts(inp, true)
    requires inp.context.effectiveQos == 2 && inp.context.connected && inp.context.ordered
    requires DistinctNumbers(inp.committed)
    requires multiset(inOrder) == multiset(inp.committed) && Ascending(CommittedMessages(inOrder))
    ensures DeliveredMessages(SortByOrder(inp.deliveries)) == CommittedMessages(inOrder)
  {
    hide Detected, CleanDeliveries, CommittedMap, Ascending, DistinctNumbers;
    var ds := SortByOrder(inp.deliveries);
    UndetectedIsClean(inp);
    CleanAscends(ds, inp.committed);
    forall m ensures m in DeliveredMessages(ds) <==> m in CommittedMessages(inOrder) {
      CleanHasAll(ds, inp.committed, m);
      SameMembers(inp.committed, inOrder);
    }
    AscendingUnique(DeliveredMessages(ds), CommittedMessages(inOrder));
  }

  // ---- Witnesses ----

  predicate AllDiffer(c: seq<WitnessSighting>) {
    forall i, j :: 0 <= i < j < |c| ==> c[i].witnessId != c[j].witnessId && c[i].keyId != c[j].keyId
  }

  /** An accepted A6 evidence shows a quorum of trusted witnesses with pairwise different names and keys. */
  lemma AcceptedShowsQuorum(inp: AuditorInput, aware: bool)
    requires Accepts(inp, aware) && inp.history.arm == A6
    ensures |Counted(inp.history.receipts)| >= inp.history.quorum && AllDiffer(Counted(inp.history.receipts))
    ensures forall r :: r in Counted(inp.history.receipts) ==>
      r in inp.history.receipts && r.trusted && r.signatureValid
  {
    hide Detected;
    CountedDiffer(inp.history.receipts);
  }

  lemma DifferSnoc(c: seq<WitnessSighting>, r: WitnessSighting)
    requires AllDiffer(c) && !SightedId(c, r.witnessId) && !SightedKey(c, r.keyId)
    ensures AllDiffer(c + [r])
  {
    var more := c + [r];
    assert more[|c|] == r && forall i :: 0 <= i < |c| ==> more[i] == c[i];
  }

  lemma {:induction false} CountedDiffer(receipts: seq<WitnessSighting>)
    ensures AllDiffer(Counted(receipts))
    ensures forall r :: r in Counted(receipts) ==> r in receipts && r.trusted && r.signatureValid
  {
    if receipts != [] {
      hide AllDiffer;
      var n := |receipts| - 1;
      CountedDiffer(receipts[..n]);
      var front, r := Counted(receipts[..n]), receipts[n];
      if r.trusted && r.signatureValid && !SightedId(front, r.witnessId) && !SightedKey(front, r.keyId) {
        DifferSnoc(front, r);
      }
    }
  }

  // ---- The stream auditor and this auditor agree on honest evidence ----

  /** One checkpoint row; a bundle carries one stream identity, that of its first item. */
  function Projected(streamId: Text, ev: Evidence): Presented {
    Presented(streamId, ev.checkpoint.topic, ev.checkpoint.epoch, ev.checkpoint.seqStart, ev.checkpoint.seqEnd,
              ev.checkpoint.prevAnchor, ev.checkpoint.endAnchor)
  }

  /** The checkpoint rows of an evidence bundle. */
  function Projections(evs: seq<Evidence>): seq<Presented> {
    seq(|evs|, i requires 0 <= i < |evs| => Projected(StreamOf(evs[0]), evs[i]))
  }

  /** What the bundle and the anchors say, as this auditor sees them. */
  predicate ShowsHistory(h: History, evs: seq<Evidence>, anchors: StreamAnchors) {
    && h.checkpoints == Projections(evs) && h.genesis == Some(anchors.genesis.anchor)
    && anchors.latest.Some? && h.latest.Some?
    && h.latest.value.anchor == anchors.latest.value.anchor && h.latest.value.epoch == anchors.latest.value.epoch
    && h.latest.value.seqEnd == anchors.latest.value.seqNo
  }

  /** Linked items from number 1 up to the latest anchor pass this auditor's own checkpoint checks. */
  lemma LinkedHistoryPasses(h: History, evs: seq<Evidence>, anchors: StreamAnchors)
    requires evs != [] && LinkedAll(anchors.genesis, evs) && anchors.genesis.seqNo == 1
    requires ShowsHistory(h, evs, anchors) && EndsAt(evs, anchors.latest.value)
    ensures CheckpointFailure(h) <==> h.outcome == RejectedStream && !(h.cryptoReasons <= AVAILABILITY)
  {
    hide LinkedAll, LinkedAt, BreaksChain, CanonicalStreamId;
    forall i | 0 <= i < |h.checkpoints| ensures !BreaksChain(anchors.genesis.anchor, h.checkpoints, i) {
      ItemContinues(anchors.genesis, evs, i);
    }
  }

  /** Whatever `audit_stream` accepts from number 1 on passes them. */
  lemma AcceptedHistoryPasses(c: Crypto, job: Job, h: History)
    requires job.Accepted(c) && job.Anchors().value.genesis.seqNo == 1 && h.outcome == AcceptedStream
    requires ShowsHistory(h, job.evs, job.Anchors().value)
    ensures !CheckpointFailure(h)
  {
    hide StreamVerified, LinkedAt, EndsAt, ShowsHistory, CheckpointFailure;
    VerifiedIsLinked(c, job);
    LinkedHistoryPasses(h, job.evs, job.Anchors().value);
  }

  lemma ItemContinues(genesis: Position, evs: seq<Evidence>, i: nat)
    requires i < |evs| && LinkedAll(genesis, evs) && genesis.seqNo == 1
    ensures !BreaksChain(genesis.anchor, Projections(evs), i)
  {
    hide LinkedAll, LinkedAt, Projections, StreamOf;
    LinkFields(genesis, evs, i);
    ProjectedAt(evs, i);
    ProjectedAt(evs, 0);
    if i > 0 {
      LinkFields(genesis, evs, i - 1);
      ProjectedAt(evs, i - 1);
    }
  }

  lemma LinkFields(genesis: Position, evs: seq<Evidence>, i: nat)
    requires i < |evs| && LinkedAll(genesis, evs)
    ensures var ckpt := evs[i].checkpoint;
      && StreamOf(evs[i]) == StreamOf(evs[0]) && ckpt.topic == evs[0].checkpoint.topic
      && ckpt.epoch == genesis.epoch + i && ckpt.seqStart == ExpectedSeq(genesis, evs, i)
      && ckpt.prevAnchor == ExpectedPrev(genesis, evs, i)
  {
    hide StreamOf, ItemAudit.RecordsFit;
    assert LinkedAt(genesis, evs, i);
    SameStreamSameTopic(evs[i], evs[0]);
  }

  lemma ProjectedAt(evs: seq<Evidence>, i: nat)
    requires i < |evs|
    ensures |Projections(evs)| == |evs| && Projections(evs)[i] == Projected(StreamOf(evs[0]), evs[i])
  {}
}
