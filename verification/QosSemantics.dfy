/** MQTT two-hop delivery contexts and the ground-truth oracle, which sees causes (qos_semantics.py). */
module QosSemantics {
  import opened Prelude
  import opened Bytes

  datatype SessionMode = CleanSession | PersistentSession
  datatype Phase = Connected | BeforeReconnect | AfterReconnect

  /** The state of the two delivery hops, publisher to broker and broker to subscriber. */
  datatype QosContext = QosContext(
    publisherQos: int, requestedQos: int, effectiveQos: int, session: SessionMode, sessionPresent: bool,
    connected: bool, reconnects: bool, initialEpoch: int, span: int, ordered: bool, phase: Phase)
  {
    /** `__post_init__`. */
    predicate Valid() {
      && publisherQos in {0, 1, 2} && requestedQos in {0, 1, 2} && effectiveQos in {0, 1, 2}
      && effectiveQos <= publisherQos && effectiveQos <= requestedQos
      && (session == CleanSession ==> !sessionPresent)
      && (phase == BeforeReconnect ==> !connected) && (phase == AfterReconnect ==> connected)
      && span >= 1
    }

    /** An application may see a message twice: at QoS 1, or at QoS 0 downgraded from a QoS 1 publication. */
    predicate DuplicatePermitted() { effectiveQos == 1 || (publisherQos == 1 && effectiveQos == 0) }

    function ApplicationEpoch(seqNo: int): int { initialEpoch + FloorDiv(seqNo - 1, span) }
  }

  /** Integer division that rounds down; a zero divisor raises before any result of it is used. */
  function FloorDiv(x: int, d: int): int { if d > 0 then x / d else if d < 0 then (-x) / (-d) else 0 }

  /** Application epochs grow with the number, and within a span they stay. */
  lemma EpochsGrow(ctx: QosContext, a: int, b: int)
    requires ctx.span >= 1 && a <= b
    ensures ctx.ApplicationEpoch(a) <= ctx.ApplicationEpoch(b)
    ensures 1 <= a && b <= ctx.span ==> ctx.ApplicationEpoch(a) == ctx.ApplicationEpoch(b) == ctx.initialEpoch
  {
    DivideMonotone(a - 1, b - 1, ctx.span);
    if 1 <= a && b <= ctx.span {
      DivideSmall(a - 1, ctx.span);
      DivideSmall(b - 1, ctx.span);
    }
  }

  lemma DivideSmall(x: int, d: int)
    requires 0 <= x < d
    ensures x / d == 0
  {}

  lemma DivideMonotone(x: int, y: int, d: int)
    requires d >= 1 && x <= y
    ensures x / d <= y / d
  {
    QuotientMonotone(d, x / d, x % d, y / d, y % d);
  }

  /** Causes in a timeline; the action names on checkpoints, witnesses and anchors never reach the delivery rules. */
  datatype Action =
    | ModifyPayload | InjectRecord | ReplayRecord | CrossEpochReplay | ReorderDelivery | DropRecord
    | DeliveryNotObserved | DuplicateRecord | LegitimateRetransmission | LegitimateDowngradeDuplicate
    | LegitimateLateRetransmission | SubscriberDisconnect | DelayDelivery

  /** A delivery as the timeline records it; `visible` says whether an auditor gets to see it. */
  datatype DeliveryEvent = DeliveryEvent(epoch: int, seqNo: int, digest: Bytes, visible: bool)

  datatype Status = Compliant | Violation | Ambiguous

  /** Two deliveries carry the same application message. */
  predicate DeliveredTwice(deliveries: seq<DeliveryEvent>) {
    exists i, j :: 0 <= i < j < |deliveries| && SameMessage(deliveries[i], deliveries[j])
  }

  predicate SameMessage(a: DeliveryEvent, b: DeliveryEvent) { a.seqNo == b.seqNo && a.digest == b.digest }

  predicate Lost(actions: set<Action>) { DropRecord in actions || DeliveryNotObserved in actions }

  /** The delivery contract was broken. */
  predicate Violated(ctx: QosContext, actions: set<Action>, deliveries: seq<DeliveryEvent>) {
    || ModifyPayload in actions || InjectRecord in actions
    || (ReplayRecord in actions && !ctx.DuplicatePermitted())
    || CrossEpochReplay in actions
    || (ReorderDelivery in actions && ctx.ordered)
    || (Lost(actions) && ctx.effectiveQos != 0 && ctx.connected)
    || (DeliveredTwice(deliveries) && !ctx.DuplicatePermitted())
  }

  /** Nothing is broken yet, but something may still arrive, or no order was promised. */
  predicate Unsettled(ctx: QosContext, actions: set<Action>) {
    || (ReorderDelivery in actions && !ctx.ordered)
    || (Lost(actions) && ctx.effectiveQos != 0 && !ctx.connected && ctx.session == PersistentSession)
  }

  /** The loop over `seen`, which keys deliveries by application epoch, number and digest. */
  method FindDuplicate(ctx: QosContext, deliveries: seq<DeliveryEvent>) returns (found: bool)
    requires ctx.span >= 1
    ensures found <==> DeliveredTwice(deliveries)
  {
    var seen: map<(int, int, Bytes), DeliveryEvent> := map[];
    var pairs: seq<(DeliveryEvent, DeliveryEvent)> := [];
    for k := 0 to |deliveries|
      invariant forall e, s, d :: (e, s, d) in seen <==>
        exists i :: 0 <= i < k && deliveries[i].seqNo == s && deliveries[i].digest == d && e == ctx.ApplicationEpoch(s)
      invariant pairs != [] <==> exists i, j :: 0 <= i < j < k && SameMessage(deliveries[i], deliveries[j])
    {
      var event := deliveries[k];
      var key := (ctx.ApplicationEpoch(event.seqNo), event.seqNo, event.digest);
      if key in seen {
        pairs := pairs + [(seen[key], event)];
        var i :| 0 <= i < k && deliveries[i].seqNo == event.seqNo && deliveries[i].digest == event.digest;
        assert SameMessage(deliveries[i], deliveries[k]);
      } else {
        seen := seen[key := event];
      }
    }
    found := pairs != [];
  }

  /** `semantic_oracle`, as far as the MQTT status goes. */
  method SemanticOracle(ctx: QosContext, actions: set<Action>, deliveries: seq<DeliveryEvent>) returns (status: Status)
    requires ctx.Valid()
    ensures status == Violation <==> Violated(ctx, actions, deliveries)
    ensures status == Ambiguous <==> !Violated(ctx, actions, deliveries) && Unsettled(ctx, actions)
  {
    hide DeliveredTwice;
    status := Compliant;
    if ModifyPayload in actions || InjectRecord in actions {
      status := Violation;
    }
    if ReplayRecord in actions && !ctx.DuplicatePermitted() {
      status := Violation;
    }
    if CrossEpochReplay in actions {
      status := Violation;
    }
    if ReorderDelivery in actions {
      if ctx.ordered {
        status := Violation;
      } else if status == Compliant {
        status := Ambiguous;
      }
    }
    if Lost(actions) && ctx.effectiveQos != 0 {
      if !ctx.connected {
        if ctx.session == PersistentSession && status == Compliant {
          status := Ambiguous;
        }
      } else {
        status := Violation;
      }
    }
    var duplicated := FindDuplicate(ctx, deliveries);
    if duplicated && !ctx.DuplicatePermitted() {
      status := Violation;
    }
  }
}
