/** Where the blind, QoS-aware auditor agrees with the oracle on generated traces, and exactly where it does not. */
module Agreement {
  import opened Prelude
  import opened Bytes
  import opened QosSemantics
  import opened QosAuditor
  import opened TraceCorpus

  // ---- From a trace to the auditor's input ----

  /** The real records a case is bound to: commitment epoch and digest per number, and rehashed foreign digests. */
  datatype Template = Template(epochOf: int -> int, digestOf: int -> Bytes, alteredOf: (int, Bytes) -> Bytes)

  /** `bind_trace_to_crypto` on one delivery. */
  function Bind(tpl: Template, ctx: QosContext, dg: Digests, n: nat, e: DeliveryEvent): DeliveryEvent
    requires ctx.span >= 1
  {
    if !(1 <= e.seqNo <= n) then e
    else
      e.(epoch := tpl.epochOf(e.seqNo),
         digest := if e.digest == EventFor(ctx, dg, e.seqNo).digest then tpl.digestOf(e.seqNo)
                   else tpl.alteredOf(e.seqNo, e.digest))
  }

  function BindAll(tpl: Template, ctx: QosContext, dg: Digests, n: nat, es: seq<DeliveryEvent>): seq<DeliveryEvent>
    requires ctx.span >= 1
  {
    seq(|es|, i requires 0 <= i < |es| => Bind(tpl, ctx, dg, n, es[i]))
  }

  /** `construct_auditor_input`: the visible deliveries, each with its place in the timeline. */
  function Shown(es: seq<DeliveryEvent>): seq<Delivery> {
    if es == [] then []
    else
      var k := |es| - 1;
      Shown(es[..k])
      + if es[k].visible then [Delivery(es[k].epoch, es[k].seqNo, es[k].digest, k)] else []
  }

  /** Everything committed: one record per number. */
  function CommittedRecords(tpl: Template, n: nat): seq<Commitment> {
    seq(n, i requires 0 <= i < n => Commitment(tpl.epochOf(i + 1), i + 1, tpl.digestOf(i + 1)))
  }

  /** One generated case. */
  datatype Case = Case(sc: Scenario, ctx: QosContext, dg: Digests, n: nat, middle: nat, tpl: Template) {
    predicate Valid() { Generable(ctx, n, middle) }

    /** The digests of a case do not coincide: a tampered payload is not the published one, before and after binding. */
    ghost predicate GoodDigests() {
      forall seqNo :: 1 <= seqNo <= n ==> TamperShows(seqNo)
    }

    predicate TamperShows(seqNo: int) {
      ctx.span >= 1
      && var epoch := ctx.ApplicationEpoch(seqNo);
      && dg(epoch, seqNo, Tampered) != dg(epoch, seqNo, Plain)
      && tpl.alteredOf(seqNo, dg(epoch, seqNo, Tampered)) != tpl.digestOf(seqNo)
    }

    /** The bound deliveries. */
    function Events(): seq<DeliveryEvent>
      requires Valid()
    {
      BindAll(tpl, ctx, dg, n, TraceOf(sc, ctx, dg, n, middle).deliveries)
    }

    /** What the oracle says. */
    predicate Violates()
      requires Valid()
    {
      Violated(ctx, Cause(sc), Events())
    }

    function Input(h: History, honest: bool, freshness: bool): AuditorInput
      requires Valid()
    {
      AuditorInput(h, CommittedRecords(tpl, n), Shown(Events()), ctx, honest, freshness)
    }
  }

  // ---- Lists of numbers ----

  /** Deliveries of committed content, given by their numbers. */
  function Carrying(tpl: Template, ns: seq<int>): seq<Delivery> {
    seq(|ns|, i requires 0 <= i < |ns| => Delivery(tpl.epochOf(ns[i]), ns[i], tpl.digestOf(ns[i]), i))
  }

  function UpTo(n: nat): seq<int> { seq(n, i requires 0 <= i < n => i + 1) }

  predicate Within(ns: seq<int>, n: nat) { forall i :: 0 <= i < |ns| ==> 1 <= ns[i] <= n }

  /** A permitted repeat of number s after numbers up to p looks like one from an epoch already left. */
  predicate LooksStale(ctx: QosContext, s: int, p: int)
    requires ctx.span >= 1
  {
    ctx.ApplicationEpoch(s) < Max(-1, ctx.ApplicationEpoch(p))
  }

  lemma {:induction false} CommittedLookup(tpl: Template, n: nat)
    ensures forall s :: 1 <= s <= n ==>
      (tpl.epochOf(s), s) in CommittedMap(CommittedRecords(tpl, n))
      && CommittedMap(CommittedRecords(tpl, n))[(tpl.epochOf(s), s)] == tpl.digestOf(s)
    ensures forall k :: k in CommittedMap(CommittedRecords(tpl, n)) ==> 1 <= k.1 <= n && k.0 == tpl.epochOf(k.1)
  {
    if n > 0 {
      CommittedLookup(tpl, n - 1);
      var cs := CommittedRecords(tpl, n);
      assert cs[..n - 1] == CommittedRecords(tpl, n - 1);
    }
  }

  /** Some committed number is not delivered. */
  predicate Gap(ns: seq<int>, n: nat) { exists t :: 1 <= t <= n && t !in ns }

  predicate Repeats(ns: seq<int>) { exists i, j :: 0 <= i < j < |ns| && ns[i] == ns[j] }

  lemma CommittedAt(tpl: Template, n: nat, t: int)
    requires 1 <= t <= n
    ensures var cm := CommittedMap(CommittedRecords(tpl, n));
      (tpl.epochOf(t), t) in cm && cm[(tpl.epochOf(t), t)] == tpl.digestOf(t)
  {
    hide CommittedMap, CommittedRecords;
    CommittedLookup(tpl, n);
  }

  /** Committed content shows no content anomaly. */
  lemma CarryingContent(tpl: Template, n: nat, ns: seq<int>)
    requires Within(ns, n)
    ensures !ContentAnomaly(Carrying(tpl, ns), CommittedMap(CommittedRecords(tpl, n)))
  {
    hide CommittedMap, CommittedRecords;
    var ds, cm := Carrying(tpl, ns), CommittedMap(CommittedRecords(tpl, n));
    forall i | 0 <= i < |ds| ensures KeyOf(ds[i]) in cm && ds[i].digest == cm[KeyOf(ds[i])] {
      CommittedAt(tpl, n, ns[i]);
    }
  }

  /** Its gaps are those of the numbers. */
  lemma CarryingGap(tpl: Template, n: nat, ns: seq<int>)
    requires Within(ns, n)
    ensures Missing(Carrying(tpl, ns), CommittedMap(CommittedRecords(tpl, n))) <==> Gap(ns, n)
  {
    hide CommittedMap, CommittedRecords;
    CommittedLookup(tpl, n);
    var ds, cm := Carrying(tpl, ns), CommittedMap(CommittedRecords(tpl, n));
    forall t | 1 <= t <= n ensures Delivered(ds, (tpl.epochOf(t), t)) <==> t in ns {
      if t in ns {
        var i :| 0 <= i < |ns| && ns[i] == t;
        assert KeyOf(ds[i]) == (tpl.epochOf(t), t);
      }
    }
    if Gap(ns, n) {
      var t :| 1 <= t <= n && t !in ns;
      assert (tpl.epochOf(t), t) in cm;
    }
  }

  /** Its repeats are those of the numbers. */
  lemma CarryingRepeats(tpl: Template, ns: seq<int>)
    ensures Duplicated(Carrying(tpl, ns)) <==> Repeats(ns)
  {
    var ds := Carrying(tpl, ns);
    if Repeats(ns) {
      var i, j :| 0 <= i < j < |ns| && ns[i] == ns[j];
      assert KeyOf(ds[i]) == KeyOf(ds[j]);
    }
  }

  /** The aware verdict on committed content. */
  predicate NumbersDetected(ctx: QosContext, tpl: Template, n: nat, ns: seq<int>, freshness: bool)
    requires ctx.span >= 1
  {
    var ds := Carrying(tpl, ns);
    || (Gap(ns, n) && OwesDelivery(ctx))
    || (Repeats(ns) && !ctx.DuplicatePermitted())
    || (Crosses(ctx, ds) && freshness)
    || (Unexplained(ctx, ds) && ctx.ordered)
  }

  /** Honest evidence: examined, with nothing wrong with the checkpoints. */
  predicate HonestHistory(h: History) { Bindable(h) && IdentityBound(h) && !CheckpointFailure(h) }

  /** What is shown has the faults of the numbers it carries. */
  lemma ShownFacts(c: Case, ns: seq<int>)
    requires c.Valid() && Within(ns, c.n) && SameContent(Shown(c.Events()), Carrying(c.tpl, ns))
    ensures var ds, cs := SortByOrder(Shown(c.Events())), Carrying(c.tpl, ns);
      var cm := CommittedMap(CommittedRecords(c.tpl, c.n));
      && !ContentAnomaly(ds, cm) && (Missing(ds, cm) <==> Gap(ns, c.n)) && (Duplicated(ds) <==> Repeats(ns))
      && (Crosses(c.ctx, ds) <==> Crosses(c.ctx, cs)) && (Unexplained(c.ctx, ds) <==> Unexplained(c.ctx, cs))
  {
    hide ContentAnomaly, Missing, Duplicated, Crosses, Unexplained, CommittedMap, Carrying, Shown, Gap, Repeats,
         SameContent, CommittedRecords, Case.Events;
    var ds, cs, cm := Shown(c.Events()), Carrying(c.tpl, ns), CommittedMap(CommittedRecords(c.tpl, c.n));
    ShownIsSorted(c.Events());
    SortedStays(ds);
    SameContentBack(ds, cs);
    ContentFollows(ds, cs, cm);
    ContentFollows(cs, ds, cm);
    OrderFollows(c.ctx, ds, cs);
    OrderFollows(c.ctx, cs, ds);
    CarryingContent(c.tpl, c.n, ns);
    CarryingGap(c.tpl, c.n, ns);
    CarryingRepeats(c.tpl, ns);
  }

  /** The verdict on what is shown is that on the numbers it carries. */
  lemma ShownVerdict(c: Case, h: History, honest: bool, freshness: bool, ns: seq<int>)
    requires c.Valid() && HonestHistory(h) && Within(ns, c.n)
    requires SameContent(Shown(c.Events()), Carrying(c.tpl, ns))
    ensures Detected(c.Input(h, honest, freshness), true) <==> NumbersDetected(c.ctx, c.tpl, c.n, ns, freshness)
  {
    hide ContentAnomaly, Missing, Duplicated, Crosses, Unexplained, CommittedMap, CheckpointFailure, Carrying, Shown,
         Gap, Repeats, SameContent, CommittedRecords, Case.Events, SortByOrder;
    ShownFacts(c, ns);
  }

  // ---- Places in the timeline do not matter, only the order ----

  /** The same deliveries in the same order, at whatever places of the timeline. */
  predicate SameContent(a: seq<Delivery>, b: seq<Delivery>) {
    |a| == |b| && forall i :: 0 <= i < |a| ==> SameDelivery(a[i], b[i])
  }

  predicate SameDelivery(a: Delivery, b: Delivery) {
    KeyOf(a) == KeyOf(b) && a.digest == b.digest
  }

  lemma SameContentBack(a: seq<Delivery>, b: seq<Delivery>)
    requires SameContent(a, b)
    ensures SameContent(b, a)
  {
    forall i | 0 <= i < |b| ensures SameDelivery(b[i], a[i]) {
      assert SameDelivery(a[i], b[i]);
    }
  }

  lemma ContentFollows(a: seq<Delivery>, b: seq<Delivery>, cm: map<Key, Bytes>)
    requires SameContent(a, b)
    ensures ContentAnomaly(a, cm) ==> ContentAnomaly(b, cm)
    ensures Missing(a, cm) ==> Missing(b, cm)
    ensures Duplicated(a) ==> Duplicated(b)
  {
    hide Divergent, Delivered, Uncommitted, Altered;
    OneFollows(a, b, cm);
    TwoFollow(a, b);
    if Missing(a, cm) {
      var k :| k in cm && !Delivered(a, k);
      MissingFollows(a, b, k);
    }
  }

  lemma OneFollows(a: seq<Delivery>, b: seq<Delivery>, cm: map<Key, Bytes>)
    requires SameContent(a, b)
    ensures Uncommitted(a, cm) ==> Uncommitted(b, cm)
    ensures Altered(a, cm) ==> Altered(b, cm)
  {
    if Uncommitted(a, cm) {
      var i :| 0 <= i < |a| && KeyOf(a[i]) !in cm;
      assert SameDelivery(a[i], b[i]);
    }
    if Altered(a, cm) {
      var i :| 0 <= i < |a| && KeyOf(a[i]) in cm && a[i].digest != cm[KeyOf(a[i])];
      assert SameDelivery(a[i], b[i]);
    }
  }

  lemma TwoFollow(a: seq<Delivery>, b: seq<Delivery>)
    requires SameContent(a, b)
    ensures Divergent(a) ==> Divergent(b)
    ensures Duplicated(a) ==> Duplicated(b)
  {
    if Divergent(a) {
      var i, j :| 0 <= i < j < |a| && KeyOf(a[i]) == KeyOf(a[j]) && a[i].digest != a[j].digest;
      assert SameDelivery(a[i], b[i]) && SameDelivery(a[j], b[j]);
    }
    if Duplicated(a) {
      var i, j :| 0 <= i < j < |a| && KeyOf(a[i]) == KeyOf(a[j]);
      assert SameDelivery(a[i], b[i]) && SameDelivery(a[j], b[j]);
    }
  }

  lemma MissingFollows(a: seq<Delivery>, b: seq<Delivery>, k: Key)
    requires SameContent(a, b)
    ensures Delivered(b, k) ==> Delivered(a, k)
  {
    if Delivered(b, k) {
      var i :| 0 <= i < |b| && KeyOf(b[i]) == k;
      assert SameDelivery(a[i], b[i]);
    }
  }

  lemma {:induction false} EpochBeforeFollows(ctx: QosContext, a: seq<Delivery>, b: seq<Delivery>, n: nat)
    requires SameContent(a, b) && n <= |a|
    ensures EpochBefore(ctx, a, n) == EpochBefore(ctx, b, n)
  {
    if n > 0 {
      EpochBeforeFollows(ctx, a, b, n - 1);
      assert SameDelivery(a[n - 1], b[n - 1]);
    }
  }

  lemma PlaceFollows(ctx: QosContext, a: seq<Delivery>, b: seq<Delivery>, i: nat)
    requires SameContent(a, b) && i < |a|
    ensures CrossesAt(ctx, a, i) <==> CrossesAt(ctx, b, i)
    ensures UnexplainedAt(ctx, a, i) <==> UnexplainedAt(ctx, b, i)
  {
    hide EpochBefore, Precedes;
    EpochBeforeFollows(ctx, a, b, i);
    assert SameDelivery(a[i], b[i]);
    assert forall j :: 0 <= j < i ==> SameDelivery(a[j], b[j]);
  }

  lemma OrderFollows(ctx: QosContext, a: seq<Delivery>, b: seq<Delivery>)
    requires SameContent(a, b)
    ensures Crosses(ctx, a) ==> Crosses(ctx, b)
    ensures Unexplained(ctx, a) ==> Unexplained(ctx, b)
  {
    hide CrossesAt, UnexplainedAt;
    if Crosses(ctx, a) {
      var i :| 0 <= i < |a| && CrossesAt(ctx, a, i);
      PlaceFollows(ctx, a, b, i);
    }
    if Unexplained(ctx, a) {
      var i :| 0 <= i < |a| && UnexplainedAt(ctx, a, i);
      PlaceFollows(ctx, a, b, i);
    }
  }

  /** Deliveries are shown in the order of the timeline. */
  lemma {:induction false} ShownIsSorted(es: seq<DeliveryEvent>)
    ensures InDeliveryOrder(Shown(es)) && forall i :: 0 <= i < |Shown(es)| ==> Shown(es)[i].order < |es|
  {
    if es != [] {
      ShownIsSorted(es[..|es| - 1]);
    }
  }

  /** A visible event is shown. */
  lemma {:induction false} VisibleIsShown(es: seq<DeliveryEvent>, k: nat) returns (i: nat)
    requires k < |es| && es[k].visible
    ensures i < |Shown(es)| && Shown(es)[i] == Delivery(es[k].epoch, es[k].seqNo, es[k].digest, k)
  {
    if k == |es| - 1 {
      i := |Shown(es)| - 1;
    } else {
      i := VisibleIsShown(es[..|es| - 1], k);
    }
  }

  // ---- Shapes of deliveries ----

  lemma AscendingNumbersFacts(ctx: QosContext, tpl: Template, ns: seq<int>)
    requires ctx.span >= 1 && forall i, j :: 0 <= i < j < |ns| ==> ns[i] < ns[j]
    ensures !Crosses(ctx, Carrying(tpl, ns)) && !Unexplained(ctx, Carrying(tpl, ns))
  {
    var ds := Carrying(tpl, ns);
    forall i | 0 <= i < |ns| ensures !RepeatAt(ds, i) && !RegressesAt(ctx, ds, i) {
      if i > 0 {
        PositionOrder(ctx, ns[i], ns[i - 1]);
      }
    }
  }

  /** Ascending numbers are only ever detected for a gap. */
  lemma AscendingVerdict(ctx: QosContext, tpl: Template, n: nat, ns: seq<int>, freshness: bool)
    requires ctx.span >= 1 && forall i, j :: 0 <= i < j < |ns| ==> ns[i] < ns[j]
    ensures NumbersDetected(ctx, tpl, n, ns, freshness) <==> Gap(ns, n) && OwesDelivery(ctx)
  {
    hide Crosses, Unexplained;
    AscendingNumbersFacts(ctx, tpl, ns);
  }

  /** 1..n with number s delivered once more after number p. */
  function Repeated(n: nat, s: nat, p: nat): seq<int>
    requires p <= n
  {
    Inserted(UpTo(n), p, s)
  }

  predicate RepeatShape(ns: seq<int>, n: nat, s: nat, p: nat) {
    |ns| == n + 1 && forall i :: 0 <= i <= n ==> ns[i] == if i < p then i + 1 else if i == p then s else i
  }

  lemma RepeatedHasShape(n: nat, s: nat, p: nat)
    requires 1 <= s <= p <= n
    ensures RepeatShape(Repeated(n, s, p), n, s, p)
  {}

  lemma {:induction false} EpochBeforeUpTo(ctx: QosContext, ds: seq<Delivery>, p: nat)
    requires ctx.span >= 1 && p <= |ds| && forall i :: 0 <= i < p ==> ds[i].seqNo == i + 1
    ensures EpochBefore(ctx, ds, p) == if p == 0 then -1 else Max(-1, ctx.ApplicationEpoch(p))
  {
    if p > 0 {
      EpochBeforeUpTo(ctx, ds, p - 1);
      EpochsGrow(ctx, p - 1, p);
    }
  }

  lemma RepeatedWalk(ctx: QosContext, tpl: Template, n: nat, s: nat, p: nat)
    requires ctx.span >= 1 && 1 <= s <= p <= n
    ensures var ds := Carrying(tpl, Repeated(n, s, p));
      && (Crosses(ctx, ds) <==> LooksStale(ctx, s, p))
      && (Unexplained(ctx, ds) <==> s < p && !(ctx.DuplicatePermitted() && !LooksStale(ctx, s, p)))
  {
    hide Repeated, LooksStale, EpochBefore;
    var ns := Repeated(n, s, p);
    var ds := Carrying(tpl, ns);
    RepeatedHasShape(n, s, p);
    ShapeWalk(ctx, ds, n, s, p);
    EpochBeforeUpTo(ctx, ds, p);
    assert CrossesAt(ctx, ds, p) <==> LooksStale(ctx, s, p) by { StaleMeans(ctx, s, p); }
    assert UnexplainedAt(ctx, ds, p) <==> s < p && !(ctx.DuplicatePermitted() && !LooksStale(ctx, s, p));
  }

  lemma StaleMeans(ctx: QosContext, s: int, p: int)
    requires ctx.span >= 1
    ensures LooksStale(ctx, s, p) <==> ctx.ApplicationEpoch(s) < Max(-1, ctx.ApplicationEpoch(p))
  {}

  /** Only the copy repeats, and only it can fall. */
  lemma ShapeWalk(ctx: QosContext, ds: seq<Delivery>, n: nat, s: nat, p: nat)
    requires ctx.span >= 1 && 1 <= s <= p <= n && |ds| == n + 1
    requires forall i :: 0 <= i <= n ==> ds[i].seqNo == if i < p then i + 1 else if i == p then s else i
    requires KeyOf(ds[s - 1]) == KeyOf(ds[p])
    ensures forall i :: 0 <= i <= n ==> (RepeatAt(ds, i) <==> i == p)
    ensures forall i :: 0 <= i <= n ==> (RegressesAt(ctx, ds, i) <==> i == p && s < p)
  {
    hide Precedes;
    forall i | 0 < i <= n { PositionOrder(ctx, ds[i].seqNo, ds[i - 1].seqNo); }
    forall i | 0 <= i <= n && i != p ensures !RepeatAt(ds, i) {
      forall j | 0 <= j < i ensures KeyOf(ds[j]) != KeyOf(ds[i]) {}
    }
  }

  /** The aware verdict on 1..k, one of them twice, where n are committed; a shortfall must not be owed. */
  lemma RepeatedVerdict(ctx: QosContext, tpl: Template, n: nat, k: nat, s: nat, p: nat, freshness: bool)
    requires ctx.span >= 1 && 1 <= s <= p <= k <= n && (k == n || !OwesDelivery(ctx))
    ensures Within(Repeated(k, s, p), n)
    ensures NumbersDetected(ctx, tpl, n, Repeated(k, s, p), freshness) <==>
      (!ctx.DuplicatePermitted() || (LooksStale(ctx, s, p) && (freshness || (ctx.ordered && s < p))))
  {
    hide Crosses, Unexplained, Repeated, LooksStale, Carrying;
    var ns := Repeated(k, s, p);
    RepeatedHasShape(k, s, p);
    RepeatedWalk(ctx, tpl, k, s, p);
    assert ns[s - 1] == ns[p];
    forall t | 1 <= t <= k ensures t in ns {
      assert ns[if t <= p then t - 1 else t] == t;
    }
  }

  /** 1..n with two neighbours swapped. */
  function Swapped(n: nat, m: nat): seq<int>
    requires 1 <= m < n
  {
    UpTo(n)[m - 1 := m + 1][m := m]
  }

  lemma SwappedWalk(ctx: QosContext, tpl: Template, n: nat, m: nat)
    requires ctx.span >= 1 && 1 <= m < n
    ensures var ds := Carrying(tpl, Swapped(n, m)); !Crosses(ctx, ds) && Unexplained(ctx, ds)
  {
    var ds := Carrying(tpl, Swapped(n, m));
    forall i | 0 <= i < n ensures !RepeatAt(ds, i) {}
    PositionOrder(ctx, m, m + 1);
    assert UnexplainedAt(ctx, ds, m);
  }

  lemma SwappedVerdict(ctx: QosContext, tpl: Template, n: nat, k: nat, m: nat, freshness: bool)
    requires ctx.span >= 1 && 1 <= m < k <= n && (k == n || !OwesDelivery(ctx))
    ensures Within(Swapped(k, m), n)
    ensures NumbersDetected(ctx, tpl, n, Swapped(k, m), freshness) <==> ctx.ordered
  {
    hide Crosses, Unexplained, Carrying;
    SwappedWalk(ctx, tpl, k, m);
    var ns := Swapped(k, m);
    forall t | 1 <= t <= k ensures t in ns {
      assert ns[if t == m + 1 then m - 1 else if t == m then m else t - 1] == t;
    }
  }

  // ---- What a case shows ----

  /** An event of committed content. */
  function HonestEvent(tpl: Template, seqNo: int): DeliveryEvent {
    DeliveryEvent(tpl.epochOf(seqNo), seqNo, tpl.digestOf(seqNo), true)
  }

  /** The highest number whose delivery an auditor gets to see; before a reconnect, that is what came before the cut. */
  function SeenUpTo(c: Case): int {
    if c.ctx.phase == BeforeReconnect then DisconnectCut(c.n, c.ctx.span) else c.n + 10_000
  }

  /** The numbers up to that one. */
  function SeenOnly(ns: seq<int>, seen: int): (r: seq<int>) {
    if ns == [] then []
    else
      var n := |ns| - 1;
      SeenOnly(ns[..n], seen) + if ns[n] <= seen then [ns[n]] else []
  }

  function VisibleNumbers(es: seq<DeliveryEvent>): seq<int> {
    if es == [] then []
    else
      var n := |es| - 1;
      VisibleNumbers(es[..n]) + if es[n].visible then [es[n].seqNo] else []
  }

  /** Visible events of committed content show their numbers. */
  lemma {:induction false} ShownNumbers(tpl: Template, es: seq<DeliveryEvent>)
    requires forall i :: 0 <= i < |es| && es[i].visible ==> es[i] == HonestEvent(tpl, es[i].seqNo)
    ensures SameContent(Shown(es), Carrying(tpl, VisibleNumbers(es)))
  {
    if es != [] {
      var n := |es| - 1;
      ShownNumbers(tpl, es[..n]);
      if es[n].visible {
        var ds, ns := Shown(es[..n]), VisibleNumbers(es[..n]);
        CarryingSnoc(tpl, ns, es[n].seqNo);
        OneMoreSame(ds, Carrying(tpl, ns), Delivery(es[n].epoch, es[n].seqNo, es[n].digest, n),
                    Delivery(es[n].epoch, es[n].seqNo, es[n].digest, |ns|));
      }
    }
  }

  lemma CarryingSnoc(tpl: Template, ns: seq<int>, s: int)
    ensures Carrying(tpl, ns + [s]) == Carrying(tpl, ns) + [Delivery(tpl.epochOf(s), s, tpl.digestOf(s), |ns|)]
  {}

  lemma OneMoreSame(a: seq<Delivery>, b: seq<Delivery>, x: Delivery, y: Delivery)
    requires SameContent(a, b) && SameDelivery(x, y)
    ensures SameContent(a + [x], b + [y])
  {}

  /** Events with these numbers, visible up to `seen`. */
  lemma {:induction false} VisibleAreSeen(es: seq<DeliveryEvent>, ns: seq<int>, seen: int)
    requires |es| == |ns|
    requires forall i :: 0 <= i < |es| ==> es[i].seqNo == ns[i] && (es[i].visible <==> ns[i] <= seen)
    ensures VisibleNumbers(es) == SeenOnly(ns, seen)
  {
    if es != [] {
      VisibleAreSeen(es[..|es| - 1], ns[..|es| - 1], seen);
    }
  }

  // ---- What is left of a list of numbers ----

  lemma {:induction false} SeenConcat(a: seq<int>, b: seq<int>, seen: int)
    ensures SeenOnly(a + b, seen) == SeenOnly(a, seen) + SeenOnly(b, seen)
  {
    if b == [] {
      assert a + b == a;
    } else {
      var n := |b| - 1;
      SeenConcat(a, b[..n], seen);
      assert (a + b)[..|a + b| - 1] == a + b[..n];
    }
  }

  lemma {:induction false} SeenAll(ns: seq<int>, seen: int)
    requires forall i :: 0 <= i < |ns| ==> ns[i] <= seen
    ensures SeenOnly(ns, seen) == ns
  {
    if ns != [] {
      var n := |ns| - 1;
      SeenAll(ns[..n], seen);
      assert ns == ns[..n] + [ns[n]];
    }
  }

  lemma {:induction false} SeenAscends(ns: seq<int>, seen: int)
    requires forall i, j :: 0 <= i < j < |ns| ==> ns[i] < ns[j]
    ensures forall x :: x in SeenOnly(ns, seen) <==> x in ns && x <= seen
    ensures forall i, j :: 0 <= i < j < |SeenOnly(ns, seen)| ==> SeenOnly(ns, seen)[i] < SeenOnly(ns, seen)[j]
  {
    if ns != [] {
      var n := |ns| - 1;
      SeenAscends(ns[..n], seen);
      assert ns == ns[..n] + [ns[n]];
      var front := SeenOnly(ns[..n], seen);
      forall i | 0 <= i < |front| ensures front[i] < ns[n] {
        assert front[i] in front;
        var k :| 0 <= k < n && ns[..n][k] == front[i];
      }
    }
  }

  lemma {:induction false} SeenFirst(n: nat, seen: nat)
    ensures SeenOnly(UpTo(n), seen) == UpTo(Min(n, seen))
  {
    hide UpTo;
    UpToSnoc(n);
    if n > 0 {
      hide SeenOnly;
      SeenFirst(n - 1, seen);
      SeenSnoc(UpTo(n - 1), n, seen);
      UpToSnoc(Min(n, seen));
    }
  }

  lemma UpToSnoc(n: nat)
    ensures if n == 0 then UpTo(n) == [] else UpTo(n) == UpTo(n - 1) + [n]
  {}

  lemma SeenSnoc(ns: seq<int>, x: int, seen: int)
    ensures SeenOnly(ns + [x], seen) == SeenOnly(ns, seen) + if x <= seen then [x] else []
  {
    assert (ns + [x])[..|ns|] == ns;
  }

  /** What is left of the numbers after p. */
  lemma SeenRest(n: nat, p: nat, seen: nat)
    requires p <= n
    ensures UpTo(n) == UpTo(p) + UpTo(n)[p..]
    ensures SeenOnly(UpTo(n)[p..], seen) == UpTo(Min(n, seen))[Min(p, seen)..]
  {
    assert UpTo(n) == UpTo(p) + UpTo(n)[p..];
    SeenConcat(UpTo(p), UpTo(n)[p..], seen);
    SeenFirst(n, seen);
    SeenFirst(p, seen);
    var k := Min(n, seen);
    assert UpTo(k) == UpTo(Min(p, seen)) + UpTo(k)[Min(p, seen)..];
    SplitConcat(UpTo(Min(p, seen)), SeenOnly(UpTo(n)[p..], seen), UpTo(Min(p, seen)), UpTo(k)[Min(p, seen)..]);
  }

  lemma SeenRepeated(n: nat, s: nat, p: nat, seen: nat)
    requires 1 <= s <= p <= n
    ensures SeenOnly(Repeated(n, s, p), seen)
      == if s <= seen then Repeated(Min(n, seen), s, Min(p, seen)) else UpTo(Min(n, seen))
  {
    hide SeenOnly, UpTo;
    var k := Min(n, seen);
    SeenRest(n, p, seen);
    UpToLength(n);
    UpToLength(p);
    UpToLength(k);
    assert UpTo(n)[..p] == UpTo(p);
    SeenConcat(UpTo(p) + [s], UpTo(n)[p..], seen);
    SeenConcat(UpTo(p), [s], seen);
    SeenFirst(p, seen);
    SeenOne(s, seen);
    SeenRest(k, Min(p, seen), seen);
    UpToLength(Min(p, seen));
    assert UpTo(k)[..Min(p, seen)] == UpTo(Min(p, seen));
  }

  lemma UpToLength(n: nat)
    ensures |UpTo(n)| == n
  {}

  lemma SeenOne(s: int, seen: int)
    ensures SeenOnly([s], seen) == if s <= seen then [s] else []
  {
    assert [s][..0] == [];
    assert SeenOnly([], seen) == [];
  }

  lemma SeenSwapped(n: nat, m: nat, seen: nat)
    requires 1 <= m < n
    ensures SeenOnly(Swapped(n, m), seen)
      == if m + 1 <= seen then Swapped(Min(n, seen), m) else UpTo(Min(n, seen))
  {
    hide SeenOnly;
    var k, rest := Min(n, seen), UpTo(n)[m + 1..];
    assert Swapped(n, m) == UpTo(m - 1) + [m + 1] + [m] + rest;
    SeenConcat(UpTo(m - 1) + [m + 1] + [m], rest, seen);
    SeenConcat(UpTo(m - 1) + [m + 1], [m], seen);
    SeenConcat(UpTo(m - 1), [m + 1], seen);
    SeenFirst(m - 1, seen);
    SeenOne(m + 1, seen);
    SeenOne(m, seen);
    SeenRest(n, m + 1, seen);
    if m + 1 <= seen {
      assert Swapped(k, m) == UpTo(m - 1) + [m + 1] + [m] + UpTo(k)[m + 1..];
    } else {
      assert UpTo(k)[Min(m + 1, seen)..] == [];
    }
  }

  // ---- The events of a case ----

  /** The events of the case carry the numbers of this list. */
  predicate Carries(c: Case, ns: seq<int>)
    requires c.Valid()
  {
    var ms := Mutated(c.sc, c.ctx, c.dg, c.n, c.middle);
    |ms| == |ns| && forall i :: 0 <= i < |ns| ==> ms[i] == EventFor(c.ctx, c.dg, ns[i])
  }

  /** Bound and veiled, they carry committed content, visible up to the cut. */
  lemma EventsCarry(c: Case, ns: seq<int>)
    requires c.Valid() && c.sc != Disconnect && Carries(c, ns) && Within(ns, c.n)
    ensures |c.Events()| == |ns|
    ensures forall i :: 0 <= i < |ns| ==>
      c.Events()[i] == HonestEvent(c.tpl, ns[i]).(visible := ns[i] <= SeenUpTo(c))
    ensures SameContent(Shown(c.Events()), Carrying(c.tpl, SeenOnly(ns, SeenUpTo(c))))
  {
    hide Mutated, Cause, SameContent, Carrying, Shown;
    var es := c.Events();
    assert forall i :: 0 <= i < |ns| ==> es[i] == HonestEvent(c.tpl, ns[i]).(visible := ns[i] <= SeenUpTo(c));
    VisibleAreSeen(es, ns, SeenUpTo(c));
    ShownNumbers(c.tpl, es);
  }

  lemma TwiceIsRepeats(tpl: Template, es: seq<DeliveryEvent>, ns: seq<int>)
    requires |es| == |ns|
    requires forall i :: 0 <= i < |ns| ==> es[i].(visible := true) == HonestEvent(tpl, ns[i])
    ensures QosSemantics.DeliveredTwice(es) <==> Repeats(ns)
  {
    forall i | 0 <= i < |ns| ensures es[i].seqNo == ns[i] && es[i].digest == tpl.digestOf(ns[i]) {
      assert es[i].(visible := true) == HonestEvent(tpl, ns[i]);
    }
    if Repeats(ns) {
      var i, j :| 0 <= i < j < |ns| && ns[i] == ns[j];
      assert SameMessage(es[i], es[j]);
    }
    if QosSemantics.DeliveredTwice(es) {
      var i, j :| 0 <= i < j < |es| && SameMessage(es[i], es[j]);
      assert ns[i] == ns[j];
    }
  }

  // ---- Copies ----

  /** The number copied, and the number after which its copy arrives. */
  function CopyNumbers(c: Case): (nat, nat)
    requires c.Valid() && CopyAt(c.sc, c.ctx, c.n, c.middle).Some?
  {
    var (source, at) := CopyAt(c.sc, c.ctx, c.n, c.middle).value;
    (source + 1, if at < source + 1 then source + 1 else at)
  }

  lemma InsertedIndex<T>(s: seq<T>, at: nat, x: T, i: nat)
    requires at <= |s| && i <= |s|
    ensures |Inserted(s, at, x)| == |s| + 1
    ensures Inserted(s, at, x)[i] == if i < at then s[i] else if i == at then x else s[i - 1]
  {}

  lemma CopyCarries(c: Case)
    requires c.Valid() && CopyAt(c.sc, c.ctx, c.n, c.middle).Some?
    ensures var (s, p) := CopyNumbers(c);
      1 <= s <= p <= c.n && Carries(c, Repeated(c.n, s, p)) && (c.sc == CrossReplay ==> s < p)
  {
    hide Inserted;
    var base := Timeline(c.ctx, c.dg, c.n);
    var (s, p) := CopyNumbers(c);
    var (source, at) := CopyAt(c.sc, c.ctx, c.n, c.middle).value;
    var ns := Repeated(c.n, s, p);
    forall i | 0 <= i <= c.n
      ensures |ns| == c.n + 1 == |Inserted(base, at, base[source])|
      ensures Inserted(base, at, base[source])[i] == EventFor(c.ctx, c.dg, ns[i])
    {
      InsertedIndex(base, at, base[source], i);
      InsertedIndex(UpTo(c.n), p, s, i);
    }
    InsertedIndex(base, at, base[source], 0);
    InsertedIndex(UpTo(c.n), p, s, 0);
  }

  /** The aware auditor catches a permitted duplicate: it looks stale, and staleness or order matters. */
  predicate Caught(c: Case, freshness: bool)
    requires c.Valid() && CopyAt(c.sc, c.ctx, c.n, c.middle).Some?
  {
    var (s, p) := CopyNumbers(c);
    var q := Min(p, SeenUpTo(c));
    LooksStale(c.ctx, s, q) && (freshness || (c.ctx.ordered && s < q))
  }

  /** What the scenario does to number k or later shows, or it happens behind the cut. */
  predicate Veils(c: Case, k: int) { k > SeenUpTo(c) }

  /**
   * The cases the auditor gets wrong: duplicates that two-hop QoS permits, and it catches although they are
   * legitimate, or does not catch although they cross an epoch; and, before a reconnect, violations whose deliveries
   * it does not get to see.
   */
  predicate Misjudged(c: Case, freshness: bool)
    requires c.Valid()
  {
    if CopyAt(c.sc, c.ctx, c.n, c.middle).Some? then
      if Veils(c, CopyNumbers(c).0) then c.sc == CrossReplay || !c.ctx.DuplicatePermitted()
      else c.ctx.DuplicatePermitted() && (Caught(c, freshness) <==> c.sc != CrossReplay)
    else if c.sc == Tamper then Veils(c, c.middle + 1)
    else if c.sc == Inject then Veils(c, c.n + 10_000)
    else c.sc == Reorder && c.ctx.ordered && Veils(c, c.middle + 1)
  }

  /** Nothing is hidden where delivery is owed. */
  lemma OwedIsSeen(c: Case)
    requires c.Valid()
    ensures 1 <= SeenUpTo(c) && (Min(c.n, SeenUpTo(c)) == c.n || !OwesDelivery(c.ctx))
  {}

  lemma CopyVerdicts(c: Case, h: History, honest: bool, freshness: bool)
    requires c.Valid() && HonestHistory(h) && CopyAt(c.sc, c.ctx, c.n, c.middle).Some?
    ensures Detected(c.Input(h, honest, freshness), true) <==>
      !Veils(c, CopyNumbers(c).0) && (!c.ctx.DuplicatePermitted() || Caught(c, freshness))
    ensures c.Violates() <==> c.sc == CrossReplay || !c.ctx.DuplicatePermitted()
  {
    hide Detected, Repeated, LooksStale, NumbersDetected, Shown, Carrying, TraceOf, Carries, CheckpointFailure,
         QosSemantics.DeliveredTwice, SeenOnly, SameContent, SeenUpTo, UpTo, OwesDelivery;
    var (s, p) := CopyNumbers(c);
    var ns, seen := Repeated(c.n, s, p), SeenUpTo(c);
    CopyCarries(c);
    CopySeen(c, freshness);
    EventsCarry(c, ns);
    ShownVerdict(c, h, honest, freshness, SeenOnly(ns, seen));
    TwiceIsRepeats(c.tpl, c.Events(), ns);
    RepeatedHasShape(c.n, s, p);
    assert ns[s - 1] == ns[p];
  }

  /** The verdict on what is left of a copying scenario. */
  lemma CopySeen(c: Case, freshness: bool)
    requires c.Valid() && CopyAt(c.sc, c.ctx, c.n, c.middle).Some?
    ensures var (s, p) := CopyNumbers(c);
      && 1 <= s <= p <= c.n
      && Within(SeenOnly(Repeated(c.n, s, p), SeenUpTo(c)), c.n) && Within(Repeated(c.n, s, p), c.n)
      && (NumbersDetected(c.ctx, c.tpl, c.n, SeenOnly(Repeated(c.n, s, p), SeenUpTo(c)), freshness) <==>
          !Veils(c, s) && (!c.ctx.DuplicatePermitted() || Caught(c, freshness)))
  {
    hide NumbersDetected, SeenOnly, Repeated, LooksStale, Carries, OwesDelivery, SeenUpTo;
    var (s, p) := CopyNumbers(c);
    var seen := SeenUpTo(c);
    var k := Min(c.n, seen);
    CopyCarries(c);
    OwedIsSeen(c);
    SeenRepeated(c.n, s, p, seen);
    RepeatedHasShape(c.n, s, p);
    if s <= seen {
      RepeatedVerdict(c.ctx, c.tpl, c.n, k, s, Min(p, seen), freshness);
    } else {
      AscendingVerdict(c.ctx, c.tpl, c.n, UpTo(k), freshness);
      FullIsOwed(c, k);
    }
  }

  /** A part of the numbers leaves a gap that is not owed. */
  lemma FullIsOwed(c: Case, k: nat)
    requires c.Valid() && k == Min(c.n, SeenUpTo(c))
    ensures !(Gap(UpTo(k), c.n) && OwesDelivery(c.ctx))
  {
    if k == c.n {
      forall t | 1 <= t <= c.n ensures t in UpTo(k) { assert UpTo(k)[t - 1] == t; }
    }
  }

  // ---- Gaps, swaps and clean traces ----

  /** The numbers of a case that neither copies nor forges. */
  function PlainNumbers(c: Case): seq<int>
    requires c.Valid()
  {
    if c.sc == Delete then Removed(UpTo(c.n), DeletedAt(c.ctx, c.n, c.middle))
    else if c.sc == Qos0Loss then Removed(UpTo(c.n), c.middle)
    else if c.sc == Reorder then Swapped(c.n, c.middle)
    else UpTo(c.n)
  }

  lemma RemovedIndex<T>(s: seq<T>, at: nat, i: nat)
    requires at < |s| && i < |s| - 1
    ensures |Removed(s, at)| == |s| - 1 && Removed(s, at)[i] == if i < at then s[i] else s[i + 1]
  {}

  /** The index at which a losing scenario strikes. */
  function LostAt(c: Case): int { if c.sc == Delete then DeletedAt(c.ctx, c.n, c.middle) else c.middle }

  lemma RemovedCarries(c: Case)
    requires c.Valid() && c.sc in {Delete, Qos0Loss}
    ensures var ns, at := PlainNumbers(c), LostAt(c);
      && 1 <= at < c.n && Carries(c, ns) && |ns| == c.n - 1
      && forall i :: 0 <= i < |ns| ==> ns[i] == if i < at then i + 1 else i + 2
  {
    hide Removed;
    var base, ns, at := Timeline(c.ctx, c.dg, c.n), PlainNumbers(c), LostAt(c);
    RemovedIndex(base, at, 0);
    RemovedIndex(UpTo(c.n), at, 0);
    forall i | 0 <= i < c.n - 1
      ensures ns[i] == if i < at then i + 1 else i + 2
      ensures Removed(base, at)[i] == EventFor(c.ctx, c.dg, ns[i])
    {
      RemovedIndex(base, at, i);
      RemovedIndex(UpTo(c.n), at, i);
    }
  }

  lemma SwappedCarries(c: Case)
    requires c.Valid() && c.sc == Reorder
    ensures var ns, m := PlainNumbers(c), c.middle;
      && Carries(c, ns) && |ns| == c.n
      && forall i :: 0 <= i < |ns| ==> ns[i] == if i == m - 1 then m + 1 else if i == m then m else i + 1
  {}

  lemma PlainCarries(c: Case)
    requires c.Valid() && c.sc in {Clean, Delayed, Delete, Qos0Loss, Reorder}
    ensures Carries(c, PlainNumbers(c)) && Within(PlainNumbers(c), c.n) && !Repeats(PlainNumbers(c))
  {
    var ns := PlainNumbers(c);
    if c.sc in {Delete, Qos0Loss} {
      hide PlainNumbers, Carries, LostAt;
      RemovedCarries(c);
    } else if c.sc == Reorder {
      hide PlainNumbers, Carries;
      SwappedCarries(c);
    }
  }

  lemma PlainAscends(c: Case)
    requires c.Valid() && c.sc in {Clean, Delayed, Delete, Qos0Loss}
    ensures var ns := PlainNumbers(c);
      && (forall i, j :: 0 <= i < j < |ns| ==> ns[i] < ns[j]) && (forall i :: 0 <= i < |ns| ==> 1 <= ns[i] <= c.n)
      && (Gap(ns, c.n) <==> c.sc in {Delete, Qos0Loss})
  {
    var ns := PlainNumbers(c);
    if c.sc in {Delete, Qos0Loss} {
      hide PlainNumbers, Carries, LostAt;
      RemovedCarries(c);
      assert LostAt(c) + 1 !in ns;
    } else {
      forall t | 1 <= t <= c.n ensures t in ns { assert ns[t - 1] == t; }
    }
  }

  /** What is left of an ascending list is detected exactly when it lacks something that is owed. */
  lemma GapVerdict(c: Case, freshness: bool)
    requires c.Valid() && c.sc in {Clean, Delayed, Delete, Qos0Loss}
    ensures NumbersDetected(c.ctx, c.tpl, c.n, SeenOnly(PlainNumbers(c), SeenUpTo(c)), freshness) <==>
      c.sc in {Delete, Qos0Loss} && OwesDelivery(c.ctx)
  {
    hide PlainNumbers, NumbersDetected, SeenOnly, Gap;
    var ns, seen := PlainNumbers(c), SeenUpTo(c);
    PlainAscends(c);
    SeenAscends(ns, seen);
    AscendingVerdict(c.ctx, c.tpl, c.n, SeenOnly(ns, seen), freshness);
    if OwesDelivery(c.ctx) {
      SeenAll(ns, seen);
    }
  }

  lemma SeenWithin(ns: seq<int>, n: nat, seen: int)
    requires Within(ns, n)
    ensures Within(SeenOnly(ns, seen), n)
  {
    forall i | 0 <= i < |SeenOnly(ns, seen)| ensures 1 <= SeenOnly(ns, seen)[i] <= n {
      SeenIsMember(ns, seen, i);
    }
  }

  lemma {:induction false} SeenIsMember(ns: seq<int>, seen: int, i: nat)
    requires i < |SeenOnly(ns, seen)|
    ensures SeenOnly(ns, seen)[i] in ns
  {
    if i < |SeenOnly(ns[..|ns| - 1], seen)| {
      SeenIsMember(ns[..|ns| - 1], seen, i);
    }
  }

  lemma PlainVerdicts(c: Case, h: History, honest: bool, freshness: bool)
    requires c.Valid() && HonestHistory(h)
    requires c.sc in {Clean, Delayed, Delete, Qos0Loss, Reorder}
    ensures (Detected(c.Input(h, honest, freshness), true) <==> c.Violates()) <==> !Misjudged(c, freshness)
  {
    hide Detected, NumbersDetected, Shown, Carrying, TraceOf, Carries, CheckpointFailure, PlainNumbers, SeenUpTo,
         QosSemantics.DeliveredTwice, Repeats, SeenOnly, SameContent, Case.Events;
    var ns, seen := PlainNumbers(c), SeenUpTo(c);
    PlainCarries(c);
    EventsCarry(c, ns);
    SeenWithin(ns, c.n, seen);
    ShownVerdict(c, h, honest, freshness, SeenOnly(ns, seen));
    TwiceIsRepeats(c.tpl, c.Events(), ns);
    if c.sc == Reorder {
      ReorderVerdict(c, freshness);
    } else {
      GapVerdict(c, freshness);
    }
  }

  /** A swap is noticed on an ordered topic, unless the later of the two numbers is behind the cut. */
  lemma ReorderVerdict(c: Case, freshness: bool)
    requires c.Valid() && c.sc == Reorder
    ensures NumbersDetected(c.ctx, c.tpl, c.n, SeenOnly(PlainNumbers(c), SeenUpTo(c)), freshness) <==>
      c.ctx.ordered && !Veils(c, c.middle + 1)
  {
    hide NumbersDetected, SeenOnly, Gap, OwesDelivery, SeenUpTo, UpTo;
    var seen := SeenUpTo(c);
    var k := Min(c.n, seen);
    PlainReorder(c);
    OwedIsSeen(c);
    SeenSwapped(c.n, c.middle, seen);
    if c.middle + 1 <= seen {
      SwappedVerdict(c.ctx, c.tpl, c.n, k, c.middle, freshness);
    } else {
      UpToAscends(k);
      AscendingVerdict(c.ctx, c.tpl, c.n, UpTo(k), freshness);
      FullIsOwed(c, k);
    }
  }

  lemma UpToAscends(n: nat)
    ensures forall i, j :: 0 <= i < j < |UpTo(n)| ==> UpTo(n)[i] < UpTo(n)[j]
  {}

  lemma PlainReorder(c: Case)
    requires c.Valid() && c.sc == Reorder
    ensures PlainNumbers(c) == Swapped(c.n, c.middle)
  {}

  // ---- A disconnected tail ----

  lemma DisconnectVeils(c: Case)
    requires c.Valid() && c.sc == Disconnect
    ensures var es, cut := c.Events(), DisconnectCut(c.n, c.ctx.span);
      && |es| == c.n && forall i :: 0 <= i < c.n ==> es[i] == HonestEvent(c.tpl, i + 1).(visible := i < cut)
  {}

  lemma DisconnectEvents(c: Case)
    requires c.Valid() && c.sc == Disconnect
    ensures var es, cut := c.Events(), DisconnectCut(c.n, c.ctx.span);
      && 1 <= cut < c.n && |es| == c.n && SameContent(Shown(es), Carrying(c.tpl, UpTo(cut)))
      && forall i :: 0 <= i < c.n ==> es[i].(visible := true) == HonestEvent(c.tpl, i + 1)
  {
    hide Case.Events, Shown, Carrying, SameContent;
    var es, cut := c.Events(), DisconnectCut(c.n, c.ctx.span);
    DisconnectVeils(c);
    VisibleAreSeen(es, UpTo(c.n), cut);
    ShownNumbers(c.tpl, es);
    SeenFirst(c.n, cut);
  }

  lemma DisconnectVerdicts(c: Case, h: History, honest: bool, freshness: bool)
    requires c.Valid() && HonestHistory(h) && c.sc == Disconnect
    ensures Detected(c.Input(h, honest, freshness), true) <==> c.Violates()
  {
    hide Detected, NumbersDetected, Shown, Carrying, TraceOf, CheckpointFailure, SameContent, Case.Events;
    var cut := DisconnectCut(c.n, c.ctx.span);
    DisconnectEvents(c);
    ShownVerdict(c, h, honest, freshness, UpTo(cut));
    AscendingVerdict(c.ctx, c.tpl, c.n, UpTo(cut), freshness);
    assert c.n !in UpTo(cut);
    assert !QosSemantics.DeliveredTwice(c.Events()) by {
      TwiceIsRepeats(c.tpl, c.Events(), UpTo(c.n));
    }
  }

  // ---- Forged content ----

  /** The forged delivery, and what all others carry. */
  lemma TamperedEvents(c: Case)
    requires c.Valid() && c.sc == Tamper
    ensures |c.Events()| == c.n
    ensures forall i :: 0 <= i < c.n ==>
      c.Events()[i].seqNo == i + 1 && (c.Events()[i].visible <==> i + 1 <= SeenUpTo(c))
    ensures forall i :: 0 <= i < c.n && i != c.middle && c.Events()[i].visible ==>
      c.Events()[i] == HonestEvent(c.tpl, i + 1)
  {}

  /** The delivered list before binding and veiling. */
  lemma InjectedList(c: Case)
    requires c.Valid() && c.sc == Inject
    ensures var ms := Mutated(c.sc, c.ctx, c.dg, c.n, c.middle);
      && |ms| == c.n + 1 && ms[c.middle] == InjectedEvent(c.ctx, c.dg, c.n)
      && forall i :: 0 <= i <= c.n && i != c.middle ==>
           ms[i] == EventFor(c.ctx, c.dg, if i < c.middle then i + 1 else i)
  {}

  lemma InjectedEvents(c: Case)
    requires c.Valid() && c.sc == Inject
    ensures |c.Events()| == c.n + 1
    ensures forall i :: 0 <= i <= c.n ==>
      var s := if i < c.middle then i + 1 else if i == c.middle then c.n + 10_000 else i;
      c.Events()[i].seqNo == s && (c.Events()[i].visible <==> s <= SeenUpTo(c))
    ensures forall i :: 0 <= i <= c.n && i != c.middle && c.Events()[i].visible ==>
      c.Events()[i] == HonestEvent(c.tpl, c.Events()[i].seqNo)
  {
    hide Mutated, Cause;
    InjectedList(c);
  }

  lemma TamperedIsAltered(c: Case)
    requires c.Valid() && c.sc == Tamper && c.GoodDigests()
    ensures var e := c.Events()[c.middle];
      |c.Events()| == c.n && e.epoch == c.tpl.epochOf(c.middle + 1) && e.seqNo == c.middle + 1
      && e.digest != c.tpl.digestOf(c.middle + 1)
  {
    assert c.TamperShows(c.middle + 1);
  }

  /** A visible forgery is an anomaly. */
  lemma VisibleForgery(c: Case)
    requires c.Valid() && c.sc in {Tamper, Inject} && c.GoodDigests() && |c.Events()| > c.middle
    requires c.Events()[c.middle].visible
    ensures ContentAnomaly(SortByOrder(Shown(c.Events())), CommittedMap(CommittedRecords(c.tpl, c.n)))
  {
    hide Shown, CommittedMap, CommittedRecords, Case.Events, Case.GoodDigests, SortByOrder;
    var es, cm := c.Events(), CommittedMap(CommittedRecords(c.tpl, c.n));
    ShownIsSorted(es);
    SortedStays(Shown(es));
    var i := VisibleIsShown(es, c.middle);
    if c.sc == Tamper {
      TamperedIsAltered(c);
      CommittedAt(c.tpl, c.n, c.middle + 1);
      assert Altered(Shown(es), cm);
    } else {
      InjectedEvents(c);
      CommittedLookup(c.tpl, c.n);
      assert KeyOf(Shown(es)[i]) !in cm;
      assert Uncommitted(Shown(es), cm);
    }
  }

  /** A forgery behind the cut leaves the honest numbers before it. */
  lemma HiddenForgery(c: Case)
    requires c.Valid() && c.sc in {Tamper, Inject} && |c.Events()| > c.middle && !c.Events()[c.middle].visible
    ensures var cut := SeenUpTo(c);
      1 <= cut < c.n && !OwesDelivery(c.ctx) && SameContent(Shown(c.Events()), Carrying(c.tpl, UpTo(cut)))
  {
    hide Shown, Carrying, SameContent, Case.Events, SeenOnly;
    var es, seen := c.Events(), SeenUpTo(c);
    if c.sc == Tamper {
      TamperedEvents(c);
      VisibleAreSeen(es, UpTo(c.n), seen);
    } else {
      InjectedEvents(c);
      var ns := Inserted(UpTo(c.n), c.middle, c.n + 10_000);
      forall i | 0 <= i <= c.n
        ensures |ns| == c.n + 1
        ensures ns[i] == if i < c.middle then i + 1 else if i == c.middle then c.n + 10_000 else i
      {
        InsertedIndex(UpTo(c.n), c.middle, c.n + 10_000, i);
      }
      InsertedIndex(UpTo(c.n), c.middle, c.n + 10_000, 0);
      VisibleAreSeen(es, ns, seen);
      SeenInserted(c.n, c.middle, c.n + 10_000, seen);
    }
    ShownNumbers(c.tpl, es);
    SeenFirst(c.n, seen);
  }

  lemma SeenInserted(n: nat, at: nat, s: int, seen: nat)
    requires at <= n && s > seen
    ensures SeenOnly(Inserted(UpTo(n), at, s), seen) == SeenOnly(UpTo(n), seen)
  {
    hide SeenOnly;
    var all := UpTo(n);
    SeenConcat(all[..at] + [s], all[at..], seen);
    SeenConcat(all[..at], [s], seen);
    SeenOne(s, seen);
    SeenConcat(all[..at], all[at..], seen);
    assert all[..at] + all[at..] == all;
  }

  lemma ForgedVerdicts(c: Case, h: History, honest: bool, freshness: bool)
    requires c.Valid() && HonestHistory(h) && c.sc in {Tamper, Inject} && c.GoodDigests()
    ensures c.Violates()
    ensures Detected(c.Input(h, honest, freshness), true) <==> !Misjudged(c, freshness)
  {
    hide Shown, CheckpointFailure, CommittedMap, CommittedRecords, Case.Events, Case.GoodDigests, SortByOrder,
         ContentAnomaly, SameContent, Carrying, NumbersDetected, Missing, Duplicated, Crosses, Unexplained;
    ForgedPlace(c);
    if c.Events()[c.middle].visible {
      VisibleForgery(c);
    } else {
      HiddenForgery(c);
      UpToAscends(SeenUpTo(c));
      ShownVerdict(c, h, honest, freshness, UpTo(SeenUpTo(c)));
      AscendingVerdict(c.ctx, c.tpl, c.n, UpTo(SeenUpTo(c)), freshness);
    }
  }

  lemma ForgedPlace(c: Case)
    requires c.Valid() && c.sc in {Tamper, Inject}
    ensures |c.Events()| > c.middle
    ensures c.Events()[c.middle].visible <==> !Veils(c, if c.sc == Tamper then c.middle + 1 else c.n + 10_000)
  {
    hide Case.Events;
    if c.sc == Tamper {
      TamperedEvents(c);
    } else {
      InjectedEvents(c);
    }
  }

  // ---- The theorem ----

  /**
   * For every generated case, in any context, with honest evidence, the aware auditor detects exactly when the oracle
   * sees a violation, unless the case is one of the misjudged ones, and then it never agrees.
   */
  lemma AgreesUnlessMisjudged(c: Case, h: History, honest: bool, freshness: bool)
    requires c.Valid() && c.GoodDigests() && HonestHistory(h)
    ensures (Detected(c.Input(h, honest, freshness), true) <==> c.Violates()) <==> !Misjudged(c, freshness)
  {
    hide Detected, Case.GoodDigests, Case.Events, CheckpointFailure, Caught, Violated, Veils;
    if CopyAt(c.sc, c.ctx, c.n, c.middle).Some? {
      CopyVerdicts(c, h, honest, freshness);
    } else if c.sc == Disconnect {
      DisconnectVerdicts(c, h, honest, freshness);
    } else if c.sc in {Tamper, Inject} {
      ForgedVerdicts(c, h, honest, freshness);
    } else {
      PlainVerdicts(c, h, honest, freshness);
    }
  }

  /** A copy within its own epoch never looks stale once epochs start at -1 or later. */
  lemma StaleFrom(ctx: QosContext, s: int, p: int)
    requires ctx.span >= 1 && ctx.initialEpoch >= -1 && 1 <= s <= p
    ensures LooksStale(ctx, s, p) <==> ctx.ApplicationEpoch(s) < ctx.ApplicationEpoch(p)
  {
    EpochsGrow(ctx, 1, s);
    EpochsGrow(ctx, s, p);
    assert ctx.ApplicationEpoch(1) == ctx.initialEpoch;
  }

  lemma LaterEpoch(ctx: QosContext, n: nat)
    requires ctx.span >= 1 && n >= 1
    ensures ctx.ApplicationEpoch(1) < ctx.ApplicationEpoch(n) <==> n > ctx.span
  {
    if n > ctx.span {
      EpochsGrow(ctx, ctx.span + 1, n);
      assert ctx.ApplicationEpoch(ctx.span + 1) == ctx.initialEpoch + 1;
    } else {
      EpochsGrow(ctx, 1, n);
    }
  }

  /**
   * Where nothing is hidden, for epochs that start at -1 or later, as in every context the corpus uses, one family is
   * misjudged: a cross-epoch replay where duplicates are permitted, and either the trace stays within one epoch or
   * neither freshness nor order is asked for.
   */
  lemma MisjudgedFromEpochZero(c: Case, freshness: bool)
    requires c.Valid() && c.ctx.initialEpoch >= -1 && c.ctx.phase != BeforeReconnect
    ensures Misjudged(c, freshness) <==>
      (c.sc == CrossReplay && c.ctx.DuplicatePermitted()
       && (c.n <= c.ctx.span || (!freshness && !c.ctx.ordered)))
  {
    hide LooksStale;
    if CopyAt(c.sc, c.ctx, c.n, c.middle).Some? {
      var (s, p) := CopyNumbers(c);
      CopyCarries(c);
      StaleFrom(c.ctx, s, p);
      if c.sc == CrossReplay {
        LaterEpoch(c.ctx, c.n);
      } else if c.sc in {Replay, LateDuplicate} {
        EpochsGrow(c.ctx, s, p);
      }
    }
  }

  /** The agreement fails: at QoS 1, a replay in a trace of one epoch is a violation nobody notices. */
  lemma UnnoticedReplay(h: History, dg: Digests, tpl: Template) returns (c: Case)
    requires HonestHistory(h)
    ensures c.Valid() && c.ctx.connected && c.Violates() && !Detected(c.Input(h, true, true), true)
  {
    hide Detected, Case.Events, CheckpointFailure, Caught;
    c := Case(CrossReplay, QosContext(1, 1, 1, PersistentSession, true, true, false, 0, 4, true, Connected),
              dg, 4, 1, tpl);
    MisjudgedFromEpochZero(c, true);
    CopyVerdicts(c, h, true, true);
  }

  /** And the other way, with epochs below -1: a legitimate retransmission, right after the original, is detected. */
  lemma CaughtRetransmission(h: History, dg: Digests, tpl: Template) returns (c: Case)
    requires HonestHistory(h)
    ensures c.Valid() && c.ctx.connected && c.sc == Qos1Duplicate && c.ctx.DuplicatePermitted()
    ensures !c.Violates() && Detected(c.Input(h, true, true), true)
  {
    hide Detected, Case.Events, CheckpointFailure;
    c := Case(Qos1Duplicate, QosContext(1, 1, 1, PersistentSession, true, true, false, -5, 4, true, Connected),
              dg, 4, 1, tpl);
    assert LooksStale(c.ctx, 2, 2);
    CopyVerdicts(c, h, true, true);
  }

  /** And out of sight: before a reconnect, tampering with a delivery behind the cut is a violation nobody notices. */
  lemma HiddenTampering(h: History, dg: Digests, tpl: Template) returns (c: Case)
    requires HonestHistory(h)
    ensures c.Valid() && c.sc == Tamper && c.ctx.phase == BeforeReconnect
    ensures c.GoodDigests() ==> c.Violates() && !Detected(c.Input(h, true, true), true)
  {
    hide Detected, Case.Events, CheckpointFailure, Case.GoodDigests;
    c := Case(Tamper, QosContext(1, 1, 1, PersistentSession, true, false, true, 0, 4, true, BeforeReconnect),
              dg, 8, 5, tpl);
    if c.GoodDigests() {
      ForgedVerdicts(c, h, true, true);
    }
  }
}
