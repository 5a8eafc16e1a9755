/** What each generated scenario delivers, and what the oracle says of it. */
module Scenarios {
  import opened QosSemantics
  import opened TraceCorpus
  import opened Agreement

  // ---- What is delivered ----

  /** Numbers 1..n, and after `at` of them number s once more. */
  predicate Copied(es: seq<DeliveryEvent>, n: nat, s: int, at: int) {
    |es| == n + 1 && forall i :: 0 <= i <= n ==> es[i].seqNo == if i < at then i + 1 else if i == at then s else i
  }

  /** Numbers 1..n without the one at index `at`. */
  predicate Lacks(es: seq<DeliveryEvent>, n: nat, at: int) {
    |es| == n - 1 && forall i :: 0 <= i < n - 1 ==> es[i].seqNo == if i < at then i + 1 else i + 2
  }

  predicate InOrder(es: seq<DeliveryEvent>, n: nat) {
    |es| == n && forall i :: 0 <= i < n ==> es[i].seqNo == i + 1
  }

  predicate Swaps(es: seq<DeliveryEvent>, n: nat, m: int) {
    |es| == n && forall i :: 0 <= i < n ==> es[i].seqNo == if i == m - 1 then m + 1 else if i == m then m else i + 1
  }

  /** Which numbers each scenario delivers, in which order; the copy is of message 1, 2 or the drawn one. */
  lemma DeliveredNumbers(c: Case)
    requires c.Valid()
    ensures var es, n, m, span := c.Events(), c.n, c.middle, c.ctx.span;
      match c.sc
      case Clean => InOrder(es, n)
      case Delayed => InOrder(es, n)
      case Disconnect => InOrder(es, n)
      case Tamper => InOrder(es, n)
      case Inject => Copied(es, n, n + 10_000, m)
      case Duplicate => Copied(es, n, m + 1, m + 1)
      case Qos1Duplicate => Copied(es, n, m + 1, m + 1)
      case Qos1ToQos0Duplicate => Copied(es, n, m + 1, m + 1)
      case Replay => Copied(es, n, 1, if span - 1 < n then span - 1 else n)
      case LateDuplicate => Copied(es, n, 2, if span - 1 < n then span - 1 else n)
      case CrossReplay => Copied(es, n, 1, n)
      case Delete =>
        Lacks(es, n, if c.ctx.phase == BeforeReconnect && n - span > m then n - span else m)
      case Qos0Loss => Lacks(es, n, m)
      case Reorder => Swaps(es, n, m)
  {
    hide Case.Events;
    match c.sc {
      case Inject => InjectedEvents(c);
      case Tamper => TamperedEvents(c);
      case Disconnect => DisconnectVeils(c);
      case Clean => PlainEvents(c);
      case Delayed => PlainEvents(c);
      case Delete => RemovedEvents(c);
      case Qos0Loss => RemovedEvents(c);
      case Reorder => SwappedEvents(c);
      case _ => CopiedEvents(c);
    }
  }

  lemma PlainEvents(c: Case)
    requires c.Valid() && c.sc in {Clean, Delayed}
    ensures InOrder(c.Events(), c.n)
  {
    hide Case.Events, Carries;
    PlainCarries(c);
    EventsCarry(c, PlainNumbers(c));
  }

  lemma RemovedEvents(c: Case)
    requires c.Valid() && c.sc in {Delete, Qos0Loss}
    ensures Lacks(c.Events(), c.n, LostAt(c))
  {
    hide Case.Events, Carries;
    PlainCarries(c);
    RemovedCarries(c);
    EventsCarry(c, PlainNumbers(c));
  }

  lemma SwappedEvents(c: Case)
    requires c.Valid() && c.sc == Reorder
    ensures Swaps(c.Events(), c.n, c.middle)
  {
    hide Case.Events, Carries;
    PlainCarries(c);
    SwappedCarries(c);
    EventsCarry(c, PlainNumbers(c));
  }

  lemma CopiedEvents(c: Case)
    requires c.Valid() && CopyAt(c.sc, c.ctx, c.n, c.middle).Some?
    ensures var (source, at) := CopyAt(c.sc, c.ctx, c.n, c.middle).value;
      Copied(c.Events(), c.n, source + 1, at)
  {
    hide Case.Events, Carries;
    var (s, p) := CopyNumbers(c);
    CopyCarries(c);
    RepeatedHasShape(c.n, s, p);
    EventsCarry(c, Repeated(c.n, s, p));
  }

  /** Every delivery but the forged one carries what was committed under its number. */
  lemma DeliveredContent(c: Case, i: nat)
    requires c.Valid() && i < |c.Events()| && !(c.sc in {Tamper, Inject} && i == c.middle)
    ensures var e := c.Events()[i]; e.epoch == c.tpl.epochOf(e.seqNo) && e.digest == c.tpl.digestOf(e.seqNo)
  {
    hide Case.Events, Carries, PlainNumbers;
    if c.sc in {Tamper, Inject} {
      ForgedContent(c, i);
    } else if c.sc == Disconnect {
      DisconnectVeils(c);
    } else if CopyAt(c.sc, c.ctx, c.n, c.middle).Some? {
      var (s, p) := CopyNumbers(c);
      CopyCarries(c);
      RepeatedHasShape(c.n, s, p);
      EventsCarry(c, Repeated(c.n, s, p));
    } else {
      PlainCarries(c);
      EventsCarry(c, PlainNumbers(c));
    }
  }

  lemma ForgedContent(c: Case, i: nat)
    requires c.Valid() && i < |c.Events()| && c.sc in {Tamper, Inject} && i != c.middle
    ensures var e := c.Events()[i]; e.epoch == c.tpl.epochOf(e.seqNo) && e.digest == c.tpl.digestOf(e.seqNo)
  {}

  /** Before a reconnect, and in a disconnection, an auditor sees the first max(1, n - span) numbers. */
  lemma DeliveredInSight(c: Case, i: nat)
    requires c.Valid() && i < |c.Events()|
    ensures var e, cut := c.Events()[i], if c.n - c.ctx.span > 1 then c.n - c.ctx.span else 1;
      e.visible <==> (c.sc == Disconnect || c.ctx.phase == BeforeReconnect ==> e.seqNo <= cut)
  {
    hide Case.Events, Carries, PlainNumbers;
    if c.sc == Disconnect {
      DisconnectVeils(c);
    } else if c.sc == Tamper {
      TamperedEvents(c);
    } else if c.sc == Inject {
      InjectedEvents(c);
    } else if CopyAt(c.sc, c.ctx, c.n, c.middle).Some? {
      var (s, p) := CopyNumbers(c);
      CopyCarries(c);
      RepeatedHasShape(c.n, s, p);
      EventsCarry(c, Repeated(c.n, s, p));
    } else {
      PlainCarries(c);
      EventsCarry(c, PlainNumbers(c));
    }
  }

  // ---- What the oracle says ----

  /** A message is delivered twice exactly by the copying scenarios, unless its forged digest happens to collide. */
  lemma DeliveredTwiceExactly(c: Case)
    requires c.Valid() && c.sc !in {Tamper, Inject}
    ensures DeliveredTwice(c.Events()) <==> CopyAt(c.sc, c.ctx, c.n, c.middle).Some?
  {
    hide Case.Events, Carries, PlainNumbers, DeliveredTwice, Repeats;
    if c.sc == Disconnect {
      DisconnectEvents(c);
      TwiceIsRepeats(c.tpl, c.Events(), UpTo(c.n));
      NoRepeatUpTo(c.n);
    } else if CopyAt(c.sc, c.ctx, c.n, c.middle).Some? {
      var (s, p) := CopyNumbers(c);
      CopyCarries(c);
      RepeatedHasShape(c.n, s, p);
      EventsCarry(c, Repeated(c.n, s, p));
      TwiceIsRepeats(c.tpl, c.Events(), Repeated(c.n, s, p));
      CopyRepeats(Repeated(c.n, s, p), c.n, s, p);
    } else {
      PlainCarries(c);
      EventsCarry(c, PlainNumbers(c));
      TwiceIsRepeats(c.tpl, c.Events(), PlainNumbers(c));
    }
  }

  lemma NoRepeatUpTo(n: nat)
    ensures !Repeats(UpTo(n))
  {}

  lemma CopyRepeats(ns: seq<int>, n: nat, s: nat, p: nat)
    requires RepeatShape(ns, n, s, p) && 1 <= s <= p <= n
    ensures Repeats(ns)
  {
    assert ns[s - 1] == ns[p];
  }

  /**
   * The oracle's verdict on every generated case, from its causes and deliveries: forgeries and cross-epoch replays
   * always violate, other copies where no duplicate is permitted, losses where delivery is owed, reordering where
   * order is; a loss that an offline persistent session may still deliver, and a reordering where no order was
   * promised, are ambiguous.
   */
  lemma OracleVerdicts(c: Case)
    requires c.Valid()
    ensures var ctx := c.ctx;
      var permitted := ctx.effectiveQos == 1 || (ctx.publisherQos == 1 && ctx.effectiveQos == 0);
      c.Violates() <==>
        match c.sc
        case Clean => false
        case Delayed => false
        case Tamper => true
        case Inject => true
        case CrossReplay => true
        case Delete => ctx.effectiveQos != 0 && ctx.connected
        case Qos0Loss => ctx.effectiveQos != 0 && ctx.connected
        case Disconnect => ctx.effectiveQos != 0 && ctx.connected
        case Reorder => ctx.ordered
        case _ => !permitted
    ensures (!c.Violates() && Unsettled(c.ctx, Cause(c.sc))) <==>
      || (c.sc == Reorder && !c.ctx.ordered)
      || (c.sc in {Delete, Qos0Loss, Disconnect} && c.ctx.effectiveQos != 0 && !c.ctx.connected
          && c.ctx.session == PersistentSession)
  {
    hide Case.Events, DeliveredTwice;
    if c.sc !in {Tamper, Inject} {
      DeliveredTwiceExactly(c);
    }
  }

  /** What the oracle makes of each cause alone, while no message arrives twice. */
  lemma SingleCause(ctx: QosContext, a: Action, ds: seq<DeliveryEvent>)
    requires !DeliveredTwice(ds)
    ensures var owed := ctx.effectiveQos != 0 && ctx.connected;
      var permitted := ctx.effectiveQos == 1 || (ctx.publisherQos == 1 && ctx.effectiveQos == 0);
      Violated(ctx, {a}, ds) <==>
        match a
        case ModifyPayload => true
        case InjectRecord => true
        case CrossEpochReplay => true
        case ReplayRecord => !permitted
        case ReorderDelivery => ctx.ordered
        case DropRecord => owed
        case DeliveryNotObserved => owed
        case _ => false
    ensures Unsettled(ctx, {a}) <==>
      || (a == ReorderDelivery && !ctx.ordered)
      || ((a == DropRecord || a == DeliveryNotObserved) && ctx.effectiveQos != 0 && !ctx.connected
          && ctx.session == PersistentSession)
  {
    hide DeliveredTwice;
  }

  /** A message that arrives twice violates wherever no duplicate is permitted, whatever the causes. */
  lemma TwiceViolates(ctx: QosContext, actions: set<Action>, ds: seq<DeliveryEvent>, i: nat, j: nat)
    requires i < j < |ds| && ds[i].seqNo == ds[j].seqNo && ds[i].digest == ds[j].digest
    requires !(ctx.effectiveQos == 1 || (ctx.publisherQos == 1 && ctx.effectiveQos == 0))
    ensures Violated(ctx, actions, ds)
  {
    assert SameMessage(ds[i], ds[j]);
  }
}
