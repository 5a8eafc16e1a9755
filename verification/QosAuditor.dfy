/** The scenario-blind auditor of deliveries against committed evidence (evidence_auditor.audit_evidence). */
module QosAuditor {
  import opened Prelude
  import opened Bytes
  import opened Text
  import opened Evidence
  import opened QosSemantics

  // ---- What the auditor is given ----

  datatype StreamOutcome = AcceptedStream | RejectedStream | InconclusiveStream | OtherOutcome

  datatype Presented = Presented(
    streamId: Text, topic: Text, epoch: int, seqStart: int, seqEnd: int, prevAnchor: Bytes, endAnchor: Bytes)

  datatype LatestAnchor = LatestAnchor(epoch: int, seqEnd: int, anchor: Bytes, age: int, maxAge: int)

  datatype WitnessSighting = WitnessSighting(witnessId: Text, keyId: Bytes, trusted: bool, signatureValid: bool)

  /** Everything the auditor knows about the evidence itself. */
  datatype History = History(
    arm: Arm, transferable: bool, cryptoPerformed: bool, outcome: StreamOutcome, cryptoReasons: set<Reason>,
    registryPresent: bool, keyMatch: bool, authorized: bool, genesis: Option<Bytes>, checkpoints: seq<Presented>,
    latest: Option<LatestAnchor>, receipts: seq<WitnessSighting>, quorum: int)

  /** Commitment epoch and number. */
  type Key = (int, int)

  datatype Commitment = Commitment(epoch: int, seqNo: int, digest: Bytes)
  datatype Delivery = Delivery(epoch: int, seqNo: int, digest: Bytes, order: int)

  function KeyOf(d: Delivery): Key { (d.epoch, d.seqNo) }

  datatype AuditorInput = AuditorInput(
    history: History, committed: seq<Commitment>, deliveries: seq<Delivery>, context: QosContext,
    honestSubscriber: bool, freshnessRequired: bool)

  // ---- The evidence side ----

  const AVAILABILITY: set<Reason> := {
    REGISTRY_REQUIRED, ANCHOR_SET_REQUIRED, GENESIS_ANCHOR_REQUIRED, LATEST_ANCHOR_MISSING,
    TAIL_COMPLETENESS_UNPROVABLE, LATEST_ANCHOR_STALE, WITNESS_BELOW_QUORUM, WITNESS_POLICY_MISSING,
    WITNESS_UNTRUSTED}

  /** Checkpoint i does not continue the presented history. */
  predicate BreaksChain(genesis: Bytes, cs: seq<Presented>, i: nat)
    requires i < |cs|
  {
    || cs[i].prevAnchor != (if i == 0 then genesis else cs[i - 1].endAnchor)
    || cs[i].streamId != cs[0].streamId || cs[i].topic != cs[0].topic
    || (i > 0 && cs[i].epoch <= cs[i - 1].epoch && cs[i - 1].epoch >= 0)
    || cs[i].seqStart != (if i == 0 then 0 else cs[i - 1].seqEnd) + 1
  }

  predicate StaleAnchor(h: History) { h.latest.Some? && h.latest.value.age > h.latest.value.maxAge }

  predicate EndsElsewhere(h: History) {
    h.latest.Some? && !StaleAnchor(h)
    && (h.checkpoints == []
        || var last := h.checkpoints[|h.checkpoints| - 1];
           !(h.latest.value.anchor == last.endAnchor && h.latest.value.epoch == last.epoch
             && h.latest.value.seqEnd == last.seqEnd))
  }

  /** The evidence itself is broken. */
  predicate CheckpointFailure(h: History) {
    || (h.outcome == RejectedStream && !(h.cryptoReasons <= AVAILABILITY))
    || (h.genesis.Some? && exists i :: 0 <= i < |h.checkpoints| && BreaksChain(h.genesis.value, h.checkpoints, i))
    || EndsElsewhere(h)
  }

  /** Transferable, cryptographically checked evidence under a known registry. */
  predicate Bindable(h: History) { h.transferable && h.cryptoPerformed && h.registryPresent }

  predicate IdentityBound(h: History) { h.keyMatch && h.authorized }

  /** First come, first counted, by identity and by key. */
  function Counted(receipts: seq<WitnessSighting>): (c: seq<WitnessSighting>) {
    if receipts == [] then []
    else
      var n := |receipts| - 1;
      var front, r := Counted(receipts[..n]), receipts[n];
      if r.trusted && r.signatureValid && !SightedId(front, r.witnessId) && !SightedKey(front, r.keyId)
      then front + [r] else front
  }

  predicate SightedId(rs: seq<WitnessSighting>, id: Text) { exists i :: 0 <= i < |rs| && rs[i].witnessId == id }
  predicate SightedKey(rs: seq<WitnessSighting>, key: Bytes) { exists i :: 0 <= i < |rs| && rs[i].keyId == key }

  predicate QuorumMissing(h: History) { h.arm == A6 && |Counted(h.receipts)| < h.quorum }

  // ---- The delivery side: facts about the deliveries in delivery order ----

  function CommittedMap(cs: seq<Commitment>): map<Key, Bytes> {
    if cs == [] then map[]
    else var c := cs[|cs| - 1]; CommittedMap(cs[..|cs| - 1])[(c.epoch, c.seqNo) := c.digest]
  }

  predicate Delivered(ds: seq<Delivery>, k: Key) { exists i :: 0 <= i < |ds| && KeyOf(ds[i]) == k }

  predicate Uncommitted(ds: seq<Delivery>, cm: map<Key, Bytes>) {
    exists i :: 0 <= i < |ds| && KeyOf(ds[i]) !in cm
  }

  predicate Altered(ds: seq<Delivery>, cm: map<Key, Bytes>) {
    exists i :: 0 <= i < |ds| && KeyOf(ds[i]) in cm && ds[i].digest != cm[KeyOf(ds[i])]
  }

  predicate Divergent(ds: seq<Delivery>) {
    exists i, j :: 0 <= i < j < |ds| && KeyOf(ds[i]) == KeyOf(ds[j]) && ds[i].digest != ds[j].digest
  }

  predicate Missing(ds: seq<Delivery>, cm: map<Key, Bytes>) { exists k :: k in cm && !Delivered(ds, k) }

  predicate Duplicated(ds: seq<Delivery>) {
    exists i, j :: 0 <= i < j < |ds| && KeyOf(ds[i]) == KeyOf(ds[j])
  }

  predicate RepeatAt(ds: seq<Delivery>, i: nat)
    requires i < |ds|
  {
    exists j :: 0 <= j < i && KeyOf(ds[j]) == KeyOf(ds[i])
  }

  /** Positions compare by application epoch first, then by number. */
  predicate Precedes(ctx: QosContext, a: int, b: int) {
    var p, q := ctx.ApplicationEpoch(a), ctx.ApplicationEpoch(b);
    p < q || (p == q && a < b)
  }

  /** The position falls at i, compared with its neighbour only. */
  predicate RegressesAt(ctx: QosContext, ds: seq<Delivery>, i: nat)
    requires i < |ds|
  {
    i > 0 && Precedes(ctx, ds[i].seqNo, ds[i - 1].seqNo)
  }

  /** The highest application epoch before delivery n; the count starts at -1. */
  function EpochBefore(ctx: QosContext, ds: seq<Delivery>, n: nat): int
    requires n <= |ds|
  {
    if n == 0 then -1 else Max(EpochBefore(ctx, ds, n - 1), ctx.ApplicationEpoch(ds[n - 1].seqNo))
  }

  /** A repeat from an application epoch that was already left. */
  predicate CrossesAt(ctx: QosContext, ds: seq<Delivery>, i: nat)
    requires i < |ds|
  {
    RepeatAt(ds, i) && ctx.ApplicationEpoch(ds[i].seqNo) < EpochBefore(ctx, ds, i)
  }

  predicate Crosses(ctx: QosContext, ds: seq<Delivery>) {
    exists i :: 0 <= i < |ds| && CrossesAt(ctx, ds, i)
  }

  /** A fall that no permitted repeat within its epoch explains. */
  predicate UnexplainedAt(ctx: QosContext, ds: seq<Delivery>, i: nat)
    requires i < |ds|
  {
    RegressesAt(ctx, ds, i) && !(RepeatAt(ds, i) && ctx.DuplicatePermitted() && !CrossesAt(ctx, ds, i))
  }

  predicate Unexplained(ctx: QosContext, ds: seq<Delivery>) {
    exists i :: 0 <= i < |ds| && UnexplainedAt(ctx, ds, i)
  }

  /** Loss is a broken promise: at QoS above 0 with a connected subscriber. */
  predicate OwesDelivery(ctx: QosContext) { ctx.effectiveQos != 0 && ctx.connected }

  // ---- The verdict ----

  /** Something other than what was committed reached the subscriber. */
  predicate ContentAnomaly(ds: seq<Delivery>, cm: map<Key, Bytes>) {
    Uncommitted(ds, cm) || Altered(ds, cm) || Divergent(ds)
  }

  predicate DeliveryAnomaly(inp: AuditorInput, aware: bool) {
    var ctx, ds, cm := inp.context, SortByOrder(inp.deliveries), CommittedMap(inp.committed);
    || ContentAnomaly(ds, cm)
    || (Missing(ds, cm) && (aware ==> OwesDelivery(ctx)))
    || (Duplicated(ds) && (aware ==> !ctx.DuplicatePermitted()))
    || (Crosses(ctx, ds) && aware && inp.freshnessRequired)
    || (Unexplained(ctx, ds) && (aware ==> ctx.ordered))
  }

  predicate Detected(inp: AuditorInput, aware: bool) {
    && Bindable(inp.history)
    && (!IdentityBound(inp.history) || CheckpointFailure(inp.history) || DeliveryAnomaly(inp, aware))
  }

  /** What the deliveries show is laid at the broker's door. */
  predicate DeliveryBlame(inp: AuditorInput, aware: bool) {
    var ctx, ds, cm := inp.context, SortByOrder(inp.deliveries), CommittedMap(inp.committed);
    || ContentAnomaly(ds, cm)
    || (aware && inp.honestSubscriber
        && ((Duplicated(ds) && !ctx.DuplicatePermitted())
            || (Crosses(ctx, ds) && inp.freshnessRequired)
            || (Unexplained(ctx, ds) && ctx.ordered)))
  }

  predicate BlamesBroker(inp: AuditorInput, aware: bool) {
    && Bindable(inp.history) && IdentityBound(inp.history)
    && (CheckpointFailure(inp.history) || DeliveryBlame(inp, aware))
  }

  predicate Accepts(inp: AuditorInput, aware: bool) {
    var h := inp.history;
    && Bindable(h) && !Detected(inp, aware)
    && !QuorumMissing(h) && h.latest.Some? && !StaleAnchor(h) && h.genesis.Some?
    && h.outcome == AcceptedStream && h.checkpoints != []
  }

  datatype Decision = AcceptEvidence | RejectEvidence | DetectAnomaly | Undecided

  datatype AuditorResult = AuditorResult(decision: Decision, detected: bool, broker: bool)

  // ---- Delivery order ----

  /** Stable insertion by delivery order. */
  function InsertByOrder(x: Delivery, s: seq<Delivery>): (r: seq<Delivery>)
    ensures |r| == |s| + 1
    ensures multiset(r) == multiset(s) + multiset{x}
  {
    if s == [] || s[|s| - 1].order <= x.order then s + [x]
    else
      var n := |s| - 1;
      assert s == s[..n] + [s[n]];
      InsertByOrder(x, s[..n]) + [s[n]]
  }

  /** `sorted(..., key=delivery_order)`. */
  function SortByOrder(s: seq<Delivery>): (r: seq<Delivery>)
    ensures |r| == |s| && multiset(r) == multiset(s)
  {
    if s == [] then []
    else
      var n := |s| - 1;
      assert s == s[..n] + [s[n]];
      InsertByOrder(s[n], SortByOrder(s[..n]))
  }

  predicate InDeliveryOrder(s: seq<Delivery>) { forall i, j :: 0 <= i < j < |s| ==> s[i].order <= s[j].order }

  lemma {:induction false} InsertKeepsOrder(x: Delivery, s: seq<Delivery>)
    requires InDeliveryOrder(s)
    ensures InDeliveryOrder(InsertByOrder(x, s))
  {
    if s != [] && s[|s| - 1].order > x.order {
      var n := |s| - 1;
      InsertKeepsOrder(x, s[..n]);
      var r := InsertByOrder(x, s[..n]);
      assert s == s[..n] + [s[n]];
      forall i | 0 <= i < |r| ensures r[i].order <= s[n].order {
        assert r[i] in multiset(r);
      }
      hide InsertByOrder;
      LastInOrder(r, s[n]);
    } else {
      LastInOrder(s, x);
    }
  }

  lemma LastInOrder(s: seq<Delivery>, x: Delivery)
    requires InDeliveryOrder(s) && forall i :: 0 <= i < |s| ==> s[i].order <= x.order
    ensures InDeliveryOrder(s + [x])
  {}

  lemma {:induction false} SortOrders(s: seq<Delivery>)
    ensures InDeliveryOrder(SortByOrder(s))
  {
    if s != [] {
      SortOrders(s[..|s| - 1]);
      InsertKeepsOrder(s[|s| - 1], SortByOrder(s[..|s| - 1]));
    }
  }

  lemma InsertLast(x: Delivery, s: seq<Delivery>)
    requires s != [] ==> s[|s| - 1].order <= x.order
    ensures InsertByOrder(x, s) == s + [x]
  {}

  lemma {:induction false} SortedStays(s: seq<Delivery>)
    requires InDeliveryOrder(s)
    ensures SortByOrder(s) == s
  {
    hide InsertByOrder;
    if s != [] {
      var n := |s| - 1;
      SortedStays(s[..n]);
      InsertLast(s[n], s[..n]);
      assert s == s[..n] + [s[n]];
    }
  }

  // ---- The checks ----

  /** The loop over the presented checkpoints. */
  method ChainBroken(genesis: Bytes, cs: seq<Presented>) returns (broken: bool)
    ensures broken <==> exists i :: 0 <= i < |cs| && BreaksChain(genesis, cs, i)
  {
    broken := false;
    if cs == [] { return; }
    var expectedPrev, previousEpoch, previousEnd := genesis, -1, 0;
    for k := 0 to |cs|
      invariant broken <==> exists i :: 0 <= i < k && BreaksChain(genesis, cs, i)
      invariant expectedPrev == if k == 0 then genesis else cs[k - 1].endAnchor
      invariant previousEpoch == if k == 0 then -1 else cs[k - 1].epoch
      invariant previousEnd == if k == 0 then 0 else cs[k - 1].seqEnd
    {
      ghost var before := broken;
      var c := cs[k];
      if c.prevAnchor != expectedPrev {
        broken := true;
      }
      if c.streamId != cs[0].streamId || c.topic != cs[0].topic {
        broken := true;
      }
      if c.epoch <= previousEpoch && previousEpoch >= 0 {
        broken := true;
      }
      if c.seqStart != previousEnd + 1 {
        broken := true;
      }
      assert broken <==> before || BreaksChain(genesis, cs, k);
      expectedPrev, previousEpoch, previousEnd := c.endAnchor, c.epoch, c.seqEnd;
    }
  }

  /** The evidence checks up to the latest anchor. */
  method CheckHistory(h: History) returns (failure: bool)
    ensures failure <==> CheckpointFailure(h)
  {
    hide BreaksChain;
    failure := h.outcome == RejectedStream && !(h.cryptoReasons <= AVAILABILITY);
    if h.genesis.Some? {
      var broken := ChainBroken(h.genesis.value, h.checkpoints);
      failure := failure || broken;
    }
    if h.latest.Some? && h.latest.value.age <= h.latest.value.maxAge {
      if h.checkpoints == [] {
        failure := true;
      } else {
        var last := h.checkpoints[|h.checkpoints| - 1];
        if !(h.latest.value.anchor == last.endAnchor && h.latest.value.epoch == last.epoch
             && h.latest.value.seqEnd == last.seqEnd) {
          failure := true;
        }
      }
    }
  }

  /** The witness-counting loop. */
  method CountWitnesses(receipts: seq<WitnessSighting>) returns (valid: nat)
    ensures valid == |Counted(receipts)|
  {
    var ids: set<Text>, keys: set<Bytes> := {}, {};
    valid := 0;
    for k := 0 to |receipts|
      invariant valid == |Counted(receipts[..k])|
      invariant forall id :: id in ids <==> SightedId(Counted(receipts[..k]), id)
      invariant forall key :: key in keys <==> SightedKey(Counted(receipts[..k]), key)
    {
      assert receipts[..k + 1][..k] == receipts[..k];
      var r := receipts[k];
      ghost var front := Counted(receipts[..k]);
      if r.trusted && r.signatureValid && r.witnessId !in ids && r.keyId !in keys {
        SightedSnoc(front, r);
        ids, keys, valid := ids + {r.witnessId}, keys + {r.keyId}, valid + 1;
      }
    }
    assert receipts[..|receipts|] == receipts;
  }

  lemma SightedSnoc(rs: seq<WitnessSighting>, r: WitnessSighting)
    ensures forall id :: SightedId(rs + [r], id) <==> SightedId(rs, id) || id == r.witnessId
    ensures forall key :: SightedKey(rs + [r], key) <==> SightedKey(rs, key) || key == r.keyId
  {
    var more := rs + [r];
    assert more[|rs|] == r && forall i :: 0 <= i < |rs| ==> more[i] == rs[i];
  }

  method CommittedByKey(cs: seq<Commitment>) returns (m: map<Key, Bytes>)
    ensures m == CommittedMap(cs)
  {
    m := map[];
    for i := 0 to |cs|
      invariant m == CommittedMap(cs[..i])
    {
      assert cs[..i + 1][..i] == cs[..i];
      m := m[(cs[i].epoch, cs[i].seqNo) := cs[i].digest];
    }
    assert cs[..|cs|] == cs;
  }

  /** The deliveries under one key, in order. */
  function Under(ds: seq<Delivery>, k: Key): seq<Delivery> {
    if ds == [] then []
    else Under(ds[..|ds| - 1], k) + if KeyOf(ds[|ds| - 1]) == k then [ds[|ds| - 1]] else []
  }

  predicate DeliveredTwice(ds: seq<Delivery>, k: Key) {
    exists i, j :: 0 <= i < j < |ds| && KeyOf(ds[i]) == k && KeyOf(ds[j]) == k
  }

  lemma DeliveredSnoc(ds: seq<Delivery>, d: Delivery, k: Key)
    ensures Delivered(ds + [d], k) <==> Delivered(ds, k) || k == KeyOf(d)
    ensures DeliveredTwice(ds + [d], k) <==> DeliveredTwice(ds, k) || (Delivered(ds, k) && k == KeyOf(d))
  {
    var n, more := |ds|, ds + [d];
    assert more[n] == d && forall i :: 0 <= i < n ==> more[i] == ds[i];
    if Delivered(ds, k) && k == KeyOf(d) {
      var i :| 0 <= i < n && KeyOf(ds[i]) == k;
      assert KeyOf(more[i]) == k && KeyOf(more[n]) == k;
    }
    if DeliveredTwice(more, k) {
      var i, j :| 0 <= i < j < n + 1 && KeyOf(more[i]) == k && KeyOf(more[j]) == k;
      assert KeyOf(ds[i]) == k;
      assert j < n ==> KeyOf(ds[j]) == k;
    }
  }

  lemma {:induction false} UnderHas(ds: seq<Delivery>, k: Key)
    ensures forall d :: d in Under(ds, k) <==> d in ds && KeyOf(d) == k
    ensures Under(ds, k) != [] <==> Delivered(ds, k)
    ensures |Under(ds, k)| > 1 <==> DeliveredTwice(ds, k)
  {
    if ds != [] {
      hide Delivered, DeliveredTwice, KeyOf;
      var n := |ds| - 1;
      UnderHas(ds[..n], k);
      assert ds == ds[..n] + [ds[n]];
      DeliveredSnoc(ds[..n], ds[n], k);
    } else {
      assert !Delivered(ds, k) && !DeliveredTwice(ds, k);
    }
  }

  method GroupByKey(ds: seq<Delivery>) returns (groups: map<Key, seq<Delivery>>)
    ensures forall k :: k in groups <==> Delivered(ds, k)
    ensures forall k :: k in groups ==> groups[k] == Under(ds, k)
  {
    hide Delivered, DeliveredTwice;
    groups := map[];
    assert forall k :: !Delivered(ds[..0], k) by { NothingDelivered(); }
    for i := 0 to |ds|
      invariant forall k :: k in groups <==> Delivered(ds[..i], k)
      invariant forall k :: k in groups ==> groups[k] == Under(ds[..i], k)
    {
      assert ds[..i + 1][..i] == ds[..i];
      var key := KeyOf(ds[i]);
      assert ds[..i + 1] == ds[..i] + [ds[i]];
      forall k { DeliveredSnoc(ds[..i], ds[i], k); }
      UnderHas(ds[..i], key);
      groups := groups[key := (if key in groups then groups[key] else []) + [ds[i]]];
    }
    assert ds[..|ds|] == ds;
  }

  lemma NothingDelivered()
    ensures forall k :: !Delivered([], k)
  {}

  predicate SomeAltered(items: seq<Delivery>, digest: Bytes) {
    exists i :: 0 <= i < |items| && items[i].digest != digest
  }

  function DigestsOf(items: seq<Delivery>): set<Bytes> { set d: Delivery | d in items :: d.digest }

  lemma TwoDigests(items: seq<Delivery>)
    ensures |DigestsOf(items)| > 1 <==> exists i, j :: 0 <= i < j < |items| && items[i].digest != items[j].digest
  {
    if items != [] {
      var first := items[0].digest;
      assert first in DigestsOf(items);
      if forall i :: 0 <= i < |items| ==> items[i].digest == first {
        assert DigestsOf(items) == {first};
      } else {
        var i :| 0 <= i < |items| && items[i].digest != first;
        assert {first, items[i].digest} <= DigestsOf(items);
        SubsetCardinality({first, items[i].digest}, DigestsOf(items));
        assert 0 < i && items[0].digest != items[i].digest;
      }
    }
  }

  lemma AlteredUnder(ds: seq<Delivery>, k: Key, digest: Bytes)
    ensures SomeAltered(Under(ds, k), digest) <==> exists d :: d in ds && KeyOf(d) == k && d.digest != digest
  {
    UnderHas(ds, k);
    assert SomeAltered(Under(ds, k), digest) <==> exists d :: d in Under(ds, k) && d.digest != digest;
  }

  predicate DifferAt(ds: seq<Delivery>, i: nat, j: nat)
    requires i < |ds| && j < |ds|
  {
    ds[i].digest != ds[j].digest
  }

  /** In some order, two deliveries with the digests of a and b. */
  lemma FindPair(ds: seq<Delivery>, a: Delivery, b: Delivery) returns (i: nat, j: nat)
    requires a in ds && b in ds && a.digest != b.digest
    ensures i < j < |ds| && DifferAt(ds, i, j)
    ensures (ds[i] == a && ds[j] == b) || (ds[i] == b && ds[j] == a)
  {
    i :| 0 <= i < |ds| && ds[i] == a;
    j :| 0 <= j < |ds| && ds[j] == b;
    if j < i {
      i, j := j, i;
    }
  }

  predicate DivergentKey(ds: seq<Delivery>, k: Key) {
    exists i, j :: 0 <= i < j < |ds| && DifferAt(ds, i, j) && KeyOf(ds[i]) == k && KeyOf(ds[j]) == k
  }

  /** Deliveries under one key differ in content exactly when two deliveries with that key do. */
  lemma DivergentUnder(ds: seq<Delivery>, k: Key)
    ensures |DigestsOf(Under(ds, k))| > 1 <==> DivergentKey(ds, k)
  {
    hide DeliveredTwice, DigestsOf, Under, KeyOf;
    var items := Under(ds, k);
    UnderHas(ds, k);
    TwoDigests(items);
    if |DigestsOf(items)| > 1 {
      var i, j :| 0 <= i < j < |items| && items[i].digest != items[j].digest;
      var p, q := FindPair(ds, items[i], items[j]);
    }
    if DivergentKey(ds, k) {
      var i, j :| 0 <= i < j < |ds| && DifferAt(ds, i, j) && KeyOf(ds[i]) == k && KeyOf(ds[j]) == k;
      var p, q := FindPair(items, ds[i], ds[j]);
      assert items[p].digest != items[q].digest;
    }
  }

  ghost predicate Grouped(ds: seq<Delivery>, groups: map<Key, seq<Delivery>>) {
    && (forall k :: k in groups <==> Delivered(ds, k))
    && forall k :: k in groups ==> groups[k] == Under(ds, k)
  }

  method FindUncommitted(ds: seq<Delivery>, cm: map<Key, Bytes>, groups: map<Key, seq<Delivery>>)
    returns (found: bool)
    requires Grouped(ds, groups)
    ensures found <==> Uncommitted(ds, cm)
  {
    hide Under;
    var uncommitted := set k | k in groups && k !in cm;
    if Uncommitted(ds, cm) {
      var i :| 0 <= i < |ds| && KeyOf(ds[i]) !in cm;
      assert KeyOf(ds[i]) in uncommitted;
    }
    found := uncommitted != {};
  }

  method FindAltered(ds: seq<Delivery>, cm: map<Key, Bytes>, groups: map<Key, seq<Delivery>>) returns (found: bool)
    requires Grouped(ds, groups)
    ensures found <==> Altered(ds, cm)
  {
    hide Under, SomeAltered;
    var altered := set k | k in groups && k in cm && SomeAltered(groups[k], cm[k]);
    forall k | k in groups && k in cm
      ensures k in altered <==> exists d :: d in ds && KeyOf(d) == k && d.digest != cm[k]
    {
      AlteredUnder(ds, k, cm[k]);
    }
    if Altered(ds, cm) {
      var i :| 0 <= i < |ds| && KeyOf(ds[i]) in cm && ds[i].digest != cm[KeyOf(ds[i])];
      assert ds[i] in ds && KeyOf(ds[i]) in altered;
    }
    found := altered != {};
  }

  method FindDivergent(ds: seq<Delivery>, groups: map<Key, seq<Delivery>>) returns (found: bool)
    requires Grouped(ds, groups)
    ensures found <==> Divergent(ds)
  {
    hide Under, DigestsOf;
    var divergent := set k | k in groups && |DigestsOf(groups[k])| > 1;
    forall k | k in groups ensures k in divergent <==> DivergentKey(ds, k) {
      DivergentUnder(ds, k);
    }
    if Divergent(ds) {
      var i, j :| 0 <= i < j < |ds| && KeyOf(ds[i]) == KeyOf(ds[j]) && ds[i].digest != ds[j].digest;
      assert DifferAt(ds, i, j);
      assert KeyOf(ds[i]) in divergent;
    }
    if divergent != {} {
      var k :| k in divergent;
      var i, j :| 0 <= i < j < |ds| && DifferAt(ds, i, j) && KeyOf(ds[i]) == k && KeyOf(ds[j]) == k;
    }
    found := divergent != {};
  }

  method FindGapsAndRepeats(ds: seq<Delivery>, cm: map<Key, Bytes>, groups: map<Key, seq<Delivery>>)
    returns (missing: bool, duplicated: bool)
    requires Grouped(ds, groups)
    ensures missing <==> Missing(ds, cm)
    ensures duplicated <==> Duplicated(ds)
  {
    hide Under, Delivered, Missing, Duplicated;
    var absent := set k | k in cm && k !in groups;
    var repeated := set k | k in groups && |groups[k]| > 1;
    AbsentIsMissing(ds, cm, groups, absent);
    RepeatedIsDuplicated(ds, groups, repeated);
    missing, duplicated := absent != {}, repeated != {};
  }

  lemma AbsentIsMissing(ds: seq<Delivery>, cm: map<Key, Bytes>, groups: map<Key, seq<Delivery>>, absent: set<Key>)
    requires Grouped(ds, groups) && absent == set k | k in cm && k !in groups
    ensures absent != {} <==> Missing(ds, cm)
  {
    hide Under, Delivered;
    if Missing(ds, cm) {
      var k :| k in cm && !Delivered(ds, k);
      assert k in absent;
    }
  }

  lemma RepeatedIsDuplicated(ds: seq<Delivery>, groups: map<Key, seq<Delivery>>, repeated: set<Key>)
    requires Grouped(ds, groups) && repeated == set k | k in groups && |groups[k]| > 1
    ensures repeated != {} <==> Duplicated(ds)
  {
    hide Under;
    forall k | k in groups { UnderHas(ds, k); }
    if Duplicated(ds) {
      var i, j :| 0 <= i < j < |ds| && KeyOf(ds[i]) == KeyOf(ds[j]);
      assert DeliveredTwice(ds, KeyOf(ds[i]));
      assert KeyOf(ds[i]) in repeated;
    }
  }

  /** For a positive span that is the comparison of numbers. */
  lemma PositionOrder(ctx: QosContext, a: int, b: int)
    requires ctx.span >= 1
    ensures Precedes(ctx, a, b) <==> a < b
  {
    if a < b {
      EpochsGrow(ctx, a, b);
    } else {
      EpochsGrow(ctx, b, a);
    }
  }

  /** Indexes at which the (application epoch, number) position falls. */
  method RegressionIndexes(ctx: QosContext, ds: seq<Delivery>) returns (indexes: set<int>)
    ensures indexes == set i | 0 <= i < |ds| && RegressesAt(ctx, ds, i)
  {
    indexes := {};
    var k := 1;
    while k < |ds|
      invariant 1 <= k && (k <= |ds| || ds == [])
      invariant indexes == set i | 0 <= i < k && i < |ds| && RegressesAt(ctx, ds, i)
    {
      var p, q := ctx.ApplicationEpoch(ds[k].seqNo), ctx.ApplicationEpoch(ds[k - 1].seqNo);
      if p < q || (p == q && ds[k].seqNo < ds[k - 1].seqNo) {
        indexes := indexes + {k};
      }
      k := k + 1;
    }
  }

  /** The replay and regression loop; positions divide by the span, which nobody has validated. */
  method WalkDeliveries(ctx: QosContext, ds: seq<Delivery>)
    returns (raised: bool, crosses: bool, unexplained: bool)
    ensures raised <==> ctx.span == 0 && ds != []
    ensures !raised ==> (crosses <==> Crosses(ctx, ds))
    ensures !raised ==> (unexplained <==> Unexplained(ctx, ds))
  {
    hide RegressesAt;
    if ctx.span == 0 && ds != [] { return true, false, false; }
    var regressions := RegressionIndexes(ctx, ds);
    var seen: set<Key>, maxEpoch: int := {}, -1;
    var crossing: set<int>, explained: set<int> := {}, {};
    for k := 0 to |ds|
      invariant forall key :: key in seen <==> exists j :: 0 <= j < k && KeyOf(ds[j]) == key
      invariant maxEpoch == EpochBefore(ctx, ds, k)
      invariant crossing == set i | 0 <= i < k && CrossesAt(ctx, ds, i)
      invariant explained == set i | 0 <= i < k && RegressesAt(ctx, ds, i) && !UnexplainedAt(ctx, ds, i)
    {
      var key, epoch := KeyOf(ds[k]), ctx.ApplicationEpoch(ds[k].seqNo);
      var isRepeat := key in seen;
      assert isRepeat <==> RepeatAt(ds, k);
      var crossesEpoch := isRepeat && epoch < maxEpoch;
      if crossesEpoch {
        crossing := crossing + {k};
      }
      if k in regressions && isRepeat && ctx.DuplicatePermitted() && !crossesEpoch {
        explained := explained + {k};
      }
      seen := seen + {key};
      maxEpoch := Max(maxEpoch, epoch);
    }
    raised, crosses := false, crossing != {};
    assert crosses <==> Crosses(ctx, ds) by {
      if Crosses(ctx, ds) {
        var i :| 0 <= i < |ds| && CrossesAt(ctx, ds, i);
        assert i in crossing;
      }
    }
    unexplained := regressions - explained != {};
    assert unexplained <==> Unexplained(ctx, ds) by {
      if Unexplained(ctx, ds) {
        var i :| 0 <= i < |ds| && UnexplainedAt(ctx, ds, i);
        assert i in regressions - explained;
      }
      if i :| i in regressions - explained {
        assert UnexplainedAt(ctx, ds, i);
      }
    }
  }

  lemma AnomalyKinds(ds: seq<Delivery>, cm: map<Key, Bytes>)
    ensures ContentAnomaly(ds, cm) <==> Uncommitted(ds, cm) || Altered(ds, cm) || Divergent(ds)
  {
    hide Uncommitted, Altered, Divergent;
  }

  /** The rules that turn delivery facts into a verdict. */
  method JudgeDeliveries(inp: AuditorInput, aware: bool, failure: bool)
    returns (raised: bool, detected: bool, broker: bool)
    ensures raised <==> inp.context.span == 0 && inp.deliveries != []
    ensures !raised ==> (detected <==> failure || DeliveryAnomaly(inp, aware))
    ensures !raised ==> (broker <==> failure || DeliveryBlame(inp, aware))
  {
    hide SortByOrder, ContentAnomaly, Uncommitted, Altered, Divergent, Missing, Duplicated, Crosses, Unexplained,
         Delivered, Under;
    var ctx, ds := inp.context, SortByOrder(inp.deliveries);
    var cm := CommittedByKey(inp.committed);
    var groups := GroupByKey(ds);
    var uncommitted := FindUncommitted(ds, cm, groups);
    var altered := FindAltered(ds, cm, groups);
    var divergent := FindDivergent(ds, groups);
    var content := uncommitted || altered || divergent;
    assert content <==> ContentAnomaly(ds, cm) by { AnomalyKinds(ds, cm); }
    var missing, duplicated := FindGapsAndRepeats(ds, cm, groups);
    var crosses, unexplained;
    raised, crosses, unexplained := WalkDeliveries(ctx, ds);
    detected, broker := failure, failure;
    if raised { return; }
    if content {
      detected, broker := true, true;
    }
    if missing {
      if !aware {
        detected := true;
      } else if ctx.effectiveQos != 0 && ctx.connected {
        detected := true;
      }
    }
    if duplicated && !(aware && ctx.DuplicatePermitted()) {
      detected := true;
      if aware && inp.honestSubscriber {
        broker := true;
      }
    }
    if aware && inp.freshnessRequired && crosses {
      detected := true;
      if inp.honestSubscriber {
        broker := true;
      }
    }
    if unexplained && (!aware || ctx.ordered) {
      detected := true;
      if aware && inp.honestSubscriber {
        broker := true;
      }
    }
  }

  /** The evidence is examined, and some delivery's position would be divided by zero. */
  predicate DividesByZero(inp: AuditorInput) {
    Bindable(inp.history) && IdentityBound(inp.history) && inp.context.span == 0 && inp.deliveries != []
  }

  /** `audit_evidence`, in its aware and its agnostic mode; it raises exactly on a division by zero. */
  method AuditDeliveries(inp: AuditorInput, aware: bool) returns (r: Outcome<AuditorResult>)
    ensures r.Raised? <==> DividesByZero(inp)
    ensures r.Ok? ==> (r.value.detected <==> Detected(inp, aware))
    ensures r.Ok? ==> (r.value.broker <==> BlamesBroker(inp, aware))
    ensures r.Ok? ==> (r.value.decision == AcceptEvidence <==> Accepts(inp, aware))
    ensures r.Ok? ==> (r.value.decision == RejectEvidence <==> Bindable(inp.history) && !IdentityBound(inp.history))
    ensures r.Ok? ==> (r.value.decision == DetectAnomaly <==> Detected(inp, aware) && IdentityBound(inp.history))
  {
    hide CheckpointFailure, DeliveryAnomaly, DeliveryBlame, Counted;
    var h := inp.history;
    if !h.transferable || !h.cryptoPerformed || !h.registryPresent {
      return Ok(AuditorResult(Undecided, false, false));
    }
    if !h.keyMatch || !h.authorized { return Ok(AuditorResult(RejectEvidence, true, false)); }
    var failure := CheckHistory(h);
    var quorumMissing := false;
    if h.arm == A6 {
      var valid := CountWitnesses(h.receipts);
      quorumMissing := valid < h.quorum;
    }
    var raised, detected, broker := JudgeDeliveries(inp, aware, failure);
    if raised { return Raised; }
    var freshnessUnproven := h.latest.None? || h.latest.value.age > h.latest.value.maxAge || h.genesis.None?;
    var decision :=
      if detected then DetectAnomaly
      else if quorumMissing || freshnessUnproven || h.outcome != AcceptedStream || h.checkpoints == [] then Undecided
      else AcceptEvidence;
    r := Ok(AuditorResult(decision, detected, broker));
  }
}
