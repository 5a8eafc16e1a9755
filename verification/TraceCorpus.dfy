/** Generated delivery traces: a clean timeline, and one mutation per scenario (trace_corpus.generate_trace). */
module TraceCorpus {
  import opened Prelude
  import opened Bytes
  import opened QosSemantics

  /** The scenarios that act on deliveries. */
  datatype Scenario =
    | Clean | Tamper | Delete | Inject | Duplicate | Replay | Reorder | CrossReplay
    | Qos0Loss | Qos1Duplicate | Qos1ToQos0Duplicate | LateDuplicate | Disconnect | Delayed

  datatype Suffix = Plain | Tampered | Injected

  /** `_digest_payload` of one case: epoch, number, suffix. */
  type Digests = (int, int, Suffix) -> Bytes

  datatype Trace = Trace(published: seq<DeliveryEvent>, actions: set<Action>, deliveries: seq<DeliveryEvent>)

  // ---- The trace of a scenario ----

  function EventFor(ctx: QosContext, dg: Digests, seqNo: int): DeliveryEvent
    requires ctx.span >= 1
  {
    var epoch := ctx.ApplicationEpoch(seqNo);
    DeliveryEvent(epoch, seqNo, dg(epoch, seqNo, Plain), true)
  }

  /** Numbers 1..n, published and, before any mutation, delivered. */
  function Timeline(ctx: QosContext, dg: Digests, n: nat): seq<DeliveryEvent>
    requires ctx.span >= 1
  {
    seq(n, i requires 0 <= i < n => EventFor(ctx, dg, i + 1))
  }

  function Inserted<T>(s: seq<T>, at: nat, x: T): seq<T>
    requires at <= |s|
  {
    s[..at] + [x] + s[at..]
  }

  function Removed<T>(s: seq<T>, at: nat): seq<T>
    requires at < |s|
  {
    s[..at] + s[at + 1..]
  }

  function DisconnectCut(n: nat, interval: int): int { Max(1, n - interval) }

  /** The position a deletion strikes. */
  function DeletedAt(ctx: QosContext, n: nat, middle: nat): int {
    if ctx.phase == BeforeReconnect then Max(DisconnectCut(n, ctx.span), middle) else middle
  }

  predicate Generable(ctx: QosContext, n: nat, middle: nat) {
    ctx.Valid() && n >= 4 && ctx.span >= 2 && 1 <= middle < n - 1
  }

  /** Where the copy of an already delivered message lands, for the scenarios that copy one. */
  function CopyAt(sc: Scenario, ctx: QosContext, n: nat, middle: nat): Option<(nat, nat)>
    requires Generable(ctx, n, middle)
  {
    match sc
    case Duplicate => Some((middle, middle + 1))
    case Qos1Duplicate => Some((middle, middle + 1))
    case Qos1ToQos0Duplicate => Some((middle, middle + 1))
    case Replay => Some((0, Min(ctx.span - 1, n)))
    case LateDuplicate => Some((1, Min(ctx.span - 1, n)))
    case CrossReplay => Some((0, n))
    case _ => None
  }

  function InjectedEvent(ctx: QosContext, dg: Digests, n: nat): DeliveryEvent {
    var number := n + 10_000;
    DeliveryEvent(ctx.initialEpoch, number, dg(ctx.initialEpoch, number, Injected), true)
  }

  function TamperedEvent(dg: Digests, e: DeliveryEvent): DeliveryEvent {
    e.(digest := dg(e.epoch, e.seqNo, Tampered))
  }

  /** What the subscriber gets. */
  function Mutated(sc: Scenario, ctx: QosContext, dg: Digests, n: nat, middle: nat): seq<DeliveryEvent>
    requires Generable(ctx, n, middle)
  {
    var base := Timeline(ctx, dg, n);
    if CopyAt(sc, ctx, n, middle).Some? then
      var (source, at) := CopyAt(sc, ctx, n, middle).value;
      Inserted(base, at, base[source])
    else
      match sc
      case Tamper => base[middle := TamperedEvent(dg, base[middle])]
      case Delete => Removed(base, DeletedAt(ctx, n, middle))
      case Qos0Loss => Removed(base, middle)
      case Inject => Inserted(base, middle, InjectedEvent(ctx, dg, n))
      case Reorder => base[middle - 1 := base[middle]][middle := base[middle - 1]]
      case _ => base
  }

  function Cause(sc: Scenario): set<Action> {
    match sc
    case Clean => {}
    case Tamper => {ModifyPayload}
    case Delete => {DropRecord}
    case Inject => {InjectRecord}
    case Duplicate => {DuplicateRecord}
    case Replay => {ReplayRecord}
    case Reorder => {ReorderDelivery}
    case CrossReplay => {CrossEpochReplay}
    case Qos0Loss => {DropRecord}
    case Qos1Duplicate => {LegitimateRetransmission}
    case Qos1ToQos0Duplicate => {LegitimateDowngradeDuplicate}
    case LateDuplicate => {LegitimateLateRetransmission}
    case Disconnect => {SubscriberDisconnect, DeliveryNotObserved}
    case Delayed => {DelayDelivery}
  }

  /** Which deliveries an auditor does not get to see. */
  predicate Hidden(sc: Scenario, ctx: QosContext, n: nat, i: nat, e: DeliveryEvent) {
    if sc == Disconnect then i >= DisconnectCut(n, ctx.span)
    else ctx.phase == BeforeReconnect && e.seqNo > DisconnectCut(n, ctx.span)
  }

  function Veiled(sc: Scenario, ctx: QosContext, n: nat, i: nat, e: DeliveryEvent): DeliveryEvent {
    if Hidden(sc, ctx, n, i, e) then e.(visible := false) else e
  }

  function TraceOf(sc: Scenario, ctx: QosContext, dg: Digests, n: nat, middle: nat): Trace
    requires Generable(ctx, n, middle)
  {
    var ds := Mutated(sc, ctx, dg, n, middle);
    Trace(Timeline(ctx, dg, n), Cause(sc), seq(|ds|, i requires 0 <= i < |ds| => Veiled(sc, ctx, n, i, ds[i])))
  }

  // ---- The generator ----

  /** The publishing loop. */
  method BuildTimeline(ctx: QosContext, dg: Digests, n: nat, interval: int) returns (published: seq<DeliveryEvent>)
    requires ctx.span >= 1 && interval == ctx.span
    ensures published == Timeline(ctx, dg, n)
  {
    published := [];
    for k := 0 to n
      invariant published == Timeline(ctx, dg, k)
    {
      var seqNo := k + 1;
      var epoch := ctx.initialEpoch + (seqNo - 1) / interval;
      published := published + [DeliveryEvent(epoch, seqNo, dg(epoch, seqNo, Plain), true)];
    }
  }

  /** The scenario's edit of the delivery list. */
  method Mutate(sc: Scenario, ctx: QosContext, dg: Digests, n: nat, interval: int, middle: nat,
                base: seq<DeliveryEvent>)
    returns (deliveries: seq<DeliveryEvent>, actions: set<Action>)
    requires Generable(ctx, n, middle) && interval == ctx.span && base == Timeline(ctx, dg, n)
    ensures deliveries == Mutated(sc, ctx, dg, n, middle) && actions == Cause(sc)
  {
    hide Timeline, Inserted, Removed, InjectedEvent;
    assert |base| == n by { TimelineLength(ctx, dg, n); }
    deliveries, actions := base, {};
    match sc {
      case Clean =>
      case Tamper =>
        var target := deliveries[middle];
        deliveries := deliveries[middle := target.(digest := dg(target.epoch, target.seqNo, Tampered))];
        actions := {ModifyPayload};
      case Delete =>
        var at := middle;
        if ctx.phase == BeforeReconnect {
          at := Max(DisconnectCut(n, interval), at);
        }
        deliveries := Removed(deliveries, at);
        actions := {DropRecord};
      case Inject =>
        deliveries := Inserted(deliveries, middle, InjectedEvent(ctx, dg, n));
        actions := {InjectRecord};
      case Duplicate =>
        deliveries := Inserted(deliveries, middle + 1, deliveries[middle]);
        actions := {DuplicateRecord};
      case Replay =>
        deliveries := Inserted(deliveries, Min(interval - 1, |deliveries|), deliveries[0]);
        actions := {ReplayRecord};
      case Reorder =>
        var earlier, later := deliveries[middle - 1], deliveries[middle];
        deliveries := deliveries[middle - 1 := later];
        deliveries := deliveries[middle := earlier];
        actions := {ReorderDelivery};
      case CrossReplay =>
        AppendIsInsert(deliveries, deliveries[0]);
        deliveries := deliveries + [deliveries[0]];
        actions := {CrossEpochReplay};
      case Qos0Loss =>
        deliveries := Removed(deliveries, middle);
        actions := {DropRecord};
      case Qos1Duplicate =>
        deliveries := Inserted(deliveries, middle + 1, deliveries[middle]);
        actions := {LegitimateRetransmission};
      case Qos1ToQos0Duplicate =>
        deliveries := Inserted(deliveries, middle + 1, deliveries[middle]);
        actions := {LegitimateDowngradeDuplicate};
      case LateDuplicate =>
        deliveries := Inserted(deliveries, Min(interval - 1, |deliveries|), deliveries[Min(1, |deliveries| - 1)]);
        actions := {LegitimateLateRetransmission};
      case Disconnect =>
        actions := {SubscriberDisconnect, DeliveryNotObserved};
      case Delayed =>
        actions := {DelayDelivery};
    }
  }

  lemma AppendIsInsert<T>(s: seq<T>, x: T)
    ensures s + [x] == Inserted(s, |s|, x)
  {}

  lemma TimelineLength(ctx: QosContext, dg: Digests, n: nat)
    requires ctx.span >= 1
    ensures |Timeline(ctx, dg, n)| == n
  {}

  /** The loops that hide deliveries from auditors. */
  method Veil(sc: Scenario, ctx: QosContext, n: nat, cut: int, deliveries: seq<DeliveryEvent>)
    returns (veiled: seq<DeliveryEvent>)
    requires cut == DisconnectCut(n, ctx.span) && ctx.span >= 1
    ensures |veiled| == |deliveries|
    ensures forall i :: 0 <= i < |deliveries| ==> veiled[i] == Veiled(sc, ctx, n, i, deliveries[i])
  {
    veiled := deliveries;
    if sc == Disconnect {
      for i := 0 to |deliveries|
        invariant |veiled| == |deliveries|
        invariant forall j :: 0 <= j < i ==> veiled[j] == Veiled(sc, ctx, n, j, deliveries[j])
        invariant forall j :: i <= j < |deliveries| ==> veiled[j] == deliveries[j]
      {
        if i >= cut {
          veiled := veiled[i := veiled[i].(visible := false)];
        }
      }
    } else if ctx.phase == BeforeReconnect {
      for i := 0 to |deliveries|
        invariant |veiled| == |deliveries|
        invariant forall j :: 0 <= j < i ==> veiled[j] == Veiled(sc, ctx, n, j, deliveries[j])
        invariant forall j :: i <= j < |deliveries| ==> veiled[j] == deliveries[j]
      {
        if veiled[i].seqNo > cut {
          veiled := veiled[i := veiled[i].(visible := false)];
        }
      }
    }
  }

  /** `generate_trace`; `middle` is the random draw from 1..n-2. */
  method GenerateTrace(sc: Scenario, ctx: QosContext, dg: Digests, n: nat, interval: int, middle: nat)
    returns (r: Outcome<Trace>)
    requires ctx.Valid() && (n >= 4 ==> 1 <= middle < n - 1)
    ensures r.Ok? <==> n >= 4 && interval >= 2 && interval == ctx.span
    ensures r.Ok? ==> r.value == TraceOf(sc, ctx, dg, n, middle)
  {
    hide Timeline, Mutated, Cause, Veiled;
    if n < 4 || interval < 2 { return Raised; }
    if interval != ctx.span { return Raised; }
    var published := BuildTimeline(ctx, dg, n, interval);
    var deliveries, actions := Mutate(sc, ctx, dg, n, interval, middle, published);
    var veiled := Veil(sc, ctx, n, DisconnectCut(n, interval), deliveries);
    r := Ok(Trace(published, actions, veiled));
  }
}
