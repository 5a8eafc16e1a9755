/** What the delivery auditor decides: its conditions for accepting, and its verdicts on every generated case. */
module QosVerdicts {
  import opened Prelude
  import opened Bytes
  import opened Crypto
  import opened Evidence
  import opened StreamAudit
  import opened Tiling
  import opened QosSemantics
  import opened QosAuditor
  import opened QosTheorems
  import opened TraceCorpus
  import opened Agreement
  import opened Scenarios

  // ---- The latest anchor ----

  /** Nothing is accepted without anchors, with an aged latest anchor, or short of the witness quorum. */
  lemma AcceptanceNeeds(inp: AuditorInput, aware: bool)
    requires Accepts(inp, aware)
    ensures var h := inp.history;
      && h.transferable && h.cryptoPerformed && h.registryPresent && h.keyMatch && h.authorized
      && h.genesis.Some? && h.latest.Some? && h.latest.value.age <= h.latest.value.maxAge
      && h.outcome == AcceptedStream && h.checkpoints != []
      && (h.arm == A6 ==> |Counted(h.receipts)| >= h.quorum)
  {
    hide CheckpointFailure, DeliveryAnomaly, Counted;
  }

  /** The last checkpoint shown is the one the latest anchor names. */
  predicate EndsAtLatest(h: History)
    requires h.latest.Some?
  {
    && h.checkpoints != []
    && var last := h.checkpoints[|h.checkpoints| - 1];
    && last.endAnchor == h.latest.value.anchor && last.epoch == h.latest.value.epoch
    && last.seqEnd == h.latest.value.seqEnd
  }

  /** While the latest anchor is of age, a history that ends elsewhere is detected, whatever was delivered. */
  lemma FreshAnchorDecides(inp: AuditorInput, aware: bool)
    requires var h := inp.history;
      h.transferable && h.cryptoPerformed && h.registryPresent && h.latest.Some? && !EndsAtLatest(h)
    requires inp.history.latest.value.age <= inp.history.latest.value.maxAge
    ensures Detected(inp, aware) && CheckpointFailure(inp.history) && !Accepts(inp, aware)
    ensures inp.history.keyMatch && inp.history.authorized ==> BlamesBroker(inp, aware)
  {
    hide DeliveryAnomaly, DeliveryBlame, BreaksChain;
  }

  /** Linked items from number 1, under a genesis and a latest anchor that may be any. */
  ghost predicate ShowsLinked(h: History, evs: seq<Evidence>, genesis: Position) {
    && evs != [] && LinkedAll(genesis, evs) && genesis.seqNo == 1
    && h.checkpoints == Projections(evs) && h.genesis == Some(genesis.anchor) && h.latest.Some?
  }

  /** Of such a history only two things are faulted: an earlier rejection, and its end under an anchor of age. */
  lemma LinkedHistoryFaults(h: History, evs: seq<Evidence>, genesis: Position)
    requires ShowsLinked(h, evs, genesis)
    ensures CheckpointFailure(h) <==>
      || (h.outcome == RejectedStream && exists r :: r in h.cryptoReasons && r !in AVAILABILITY)
      || (h.latest.value.age <= h.latest.value.maxAge && !EndsAtLatest(h))
  {
    hide LinkedAll, BreaksChain, Projections, AVAILABILITY;
    assert |Projections(evs)| == |evs| by { ProjectedAt(evs, 0); }
    forall i | 0 <= i < |h.checkpoints| ensures !BreaksChain(genesis.anchor, h.checkpoints, i) {
      ItemContinues(genesis, evs, i);
    }
  }

  /** What a chain of checkpoints that passes the checks looks like: it tiles the numbers from 1 on, each once. */
  predicate Tiles(genesis: Bytes, cs: seq<Presented>) {
    && (cs != [] ==> cs[0].seqStart == 1 && cs[0].prevAnchor == genesis)
    && (forall i :: 0 < i < |cs| ==>
          && cs[i].seqStart == cs[i - 1].seqEnd + 1 && cs[i].prevAnchor == cs[i - 1].endAnchor
          && (cs[i - 1].epoch >= 0 ==> cs[i].epoch > cs[i - 1].epoch))
    && (forall i :: 0 <= i < |cs| ==> cs[i].streamId == cs[0].streamId && cs[i].topic == cs[0].topic)
  }

  /** The three ways evidence itself is found broken. */
  lemma HistoryFaults(h: History)
    ensures CheckpointFailure(h) <==>
      || (h.outcome == RejectedStream && exists r :: r in h.cryptoReasons && r !in AVAILABILITY)
      || (h.genesis.Some? && !Tiles(h.genesis.value, h.checkpoints))
      || (h.latest.Some? && h.latest.value.age <= h.latest.value.maxAge && !EndsAtLatest(h))
  {
    hide AVAILABILITY, Tiles, BreaksChain;
    if h.genesis.Some? {
      UnbrokenTiles(h.genesis.value, h.checkpoints);
    }
  }

  lemma UnbrokenTiles(genesis: Bytes, cs: seq<Presented>)
    ensures (exists i :: 0 <= i < |cs| && BreaksChain(genesis, cs, i)) <==> !Tiles(genesis, cs)
  {
    if forall i :: 0 <= i < |cs| ==> !BreaksChain(genesis, cs, i) {
      forall i | 0 <= i < |cs|
        ensures i == 0 ==> cs[i].seqStart == 1 && cs[i].prevAnchor == genesis
        ensures i > 0 ==> cs[i].seqStart == cs[i - 1].seqEnd + 1 && cs[i].prevAnchor == cs[i - 1].endAnchor
        ensures i > 0 && cs[i - 1].epoch >= 0 ==> cs[i].epoch > cs[i - 1].epoch
        ensures cs[i].streamId == cs[0].streamId && cs[i].topic == cs[0].topic
      {
        assert !BreaksChain(genesis, cs, i);
      }
    }
  }

  /** The helper check on a local stream asks for that from the zero anchor, with epochs 0, 1, ... of one client. */
  lemma SequenceValidExactly(evs: seq<Evidence>)
    requires evs != []
    ensures SequenceValid(evs) <==> Tiles(ZERO_ANCHOR, Projections(evs)) && CountsEpochs(evs)
  {
    hide Projections;
    ProjectedAt(evs, 0);
    forall i | 0 <= i < |evs| ensures FollowsLocally(evs, i) <==> TilesAt(evs, i) {
      ProjectedAt(evs, i);
      if i > 0 {
        ProjectedAt(evs, i - 1);
      }
    }
    TilesEverywhere(evs);
  }

  predicate CountsEpochs(evs: seq<Evidence>) {
    forall i :: 0 <= i < |evs| ==>
      var ckpt := evs[i].checkpoint;
      ckpt.epoch == i && ckpt.seqStart <= ckpt.seqEnd && ckpt.clientId == evs[0].checkpoint.clientId
  }

  predicate TilesAt(evs: seq<Evidence>, i: nat)
    requires i < |evs|
  {
    var ckpt, cs := evs[i].checkpoint, Projections(evs);
    && ckpt.epoch == i && ckpt.seqStart <= ckpt.seqEnd && ckpt.clientId == evs[0].checkpoint.clientId
    && ckpt.topic == evs[0].checkpoint.topic
    && cs[i].seqStart == (if i == 0 then 1 else cs[i - 1].seqEnd + 1)
    && cs[i].prevAnchor == (if i == 0 then ZERO_ANCHOR else cs[i - 1].endAnchor)
  }

  lemma TilesEverywhere(evs: seq<Evidence>)
    requires evs != []
    ensures (forall i :: 0 <= i < |evs| ==> TilesAt(evs, i)) <==>
      Tiles(ZERO_ANCHOR, Projections(evs)) && CountsEpochs(evs)
  {
    hide Projections;
    forall i | 0 <= i < |evs| { ProjectedAt(evs, i); }
    if forall i :: 0 <= i < |evs| ==> TilesAt(evs, i) {
      assert TilesAt(evs, 0);
      var cs := Projections(evs);
      forall i | 0 < i < |evs|
        ensures cs[i].seqStart == cs[i - 1].seqEnd + 1 && cs[i].prevAnchor == cs[i - 1].endAnchor
        ensures cs[i].epoch > cs[i - 1].epoch
      {
        assert TilesAt(evs, i) && TilesAt(evs, i - 1);
      }
      forall i | 0 <= i < |evs| ensures cs[i].streamId == cs[0].streamId && cs[i].topic == cs[0].topic {
        assert TilesAt(evs, i);
      }
      EpochsCounted(evs);
    }
    if Tiles(ZERO_ANCHOR, Projections(evs)) && CountsEpochs(evs) {
      forall i | 0 <= i < |evs| ensures TilesAt(evs, i) {
        assert Projections(evs)[i].topic == Projections(evs)[0].topic;
      }
    }
  }

  lemma EpochsCounted(evs: seq<Evidence>)
    requires forall i :: 0 <= i < |evs| ==> TilesAt(evs, i)
    ensures CountsEpochs(evs)
  {
    hide Projections;
    forall i | 0 <= i < |evs|
      ensures var ckpt := evs[i].checkpoint;
        ckpt.epoch == i && ckpt.seqStart <= ckpt.seqEnd && ckpt.clientId == evs[0].checkpoint.clientId
    {
      assert TilesAt(evs, i);
    }
  }

  /** Without transferable, checked evidence nothing is concluded; without a bound publisher it is rejected. */
  lemma UnboundEvidence(inp: AuditorInput, aware: bool)
    ensures var h := inp.history; var examined := h.transferable && h.cryptoPerformed && h.registryPresent;
      && (!examined ==> !Detected(inp, aware) && !BlamesBroker(inp, aware) && !Accepts(inp, aware))
      && (examined && !(h.keyMatch && h.authorized) ==>
            Detected(inp, aware) && !BlamesBroker(inp, aware) && !Accepts(inp, aware))
  {
    hide CheckpointFailure, DeliveryAnomaly, DeliveryBlame;
  }

  // ---- Witnesses and commitments that occur more than once ----

  /** Where no name and no key comes twice, every trusted receipt with a valid signature counts. */
  lemma {:induction false} DifferentWitnessesCount(receipts: seq<WitnessSighting>)
    requires AllDiffer(receipts)
    ensures forall r :: r in Counted(receipts) <==> r in receipts && r.trusted && r.signatureValid
  {
    if receipts != [] {
      var n := |receipts| - 1;
      DifferentWitnessesCount(receipts[..n]);
      assert receipts == receipts[..n] + [receipts[n]];
      var front := Counted(receipts[..n]);
      forall i | 0 <= i < |front| ensures front[i] in receipts[..n] { assert front[i] in front; }
    }
  }

  /** Of several commitments under one key the last one counts. */
  lemma {:induction false} LastCommitmentCounts(cs: seq<Commitment>, i: nat)
    requires i < |cs|
    requires forall j :: i < j < |cs| ==> (cs[j].epoch, cs[j].seqNo) != (cs[i].epoch, cs[i].seqNo)
    ensures (cs[i].epoch, cs[i].seqNo) in CommittedMap(cs)
    ensures CommittedMap(cs)[(cs[i].epoch, cs[i].seqNo)] == cs[i].digest
  {
    if i < |cs| - 1 {
      LastCommitmentCounts(cs[..|cs| - 1], i);
    }
  }

  // ---- Verdicts on what is shown, in both modes ----

  /** The faults an auditor without QoS awareness counts. */
  predicate NumbersNoticed(ctx: QosContext, tpl: Template, n: nat, ns: seq<int>)
    requires ctx.span >= 1
  {
    Gap(ns, n) || Repeats(ns) || Unexplained(ctx, Carrying(tpl, ns))
  }

  /** The faults that are laid at the broker's door, with an honest subscriber and QoS awareness. */
  predicate NumbersFaulted(ctx: QosContext, tpl: Template, ns: seq<int>, freshness: bool)
    requires ctx.span >= 1
  {
    || (Repeats(ns) && !ctx.DuplicatePermitted())
    || (Crosses(ctx, Carrying(tpl, ns)) && freshness)
    || (Unexplained(ctx, Carrying(tpl, ns)) && ctx.ordered)
  }

  lemma ShownNoticed(c: Case, h: History, honest: bool, freshness: bool, ns: seq<int>)
    requires c.Valid() && HonestHistory(h) && Within(ns, c.n)
    requires SameContent(Shown(c.Events()), Carrying(c.tpl, ns))
    ensures Detected(c.Input(h, honest, freshness), false) <==> NumbersNoticed(c.ctx, c.tpl, c.n, ns)
    ensures BlamesBroker(c.Input(h, honest, freshness), true) <==>
      honest && NumbersFaulted(c.ctx, c.tpl, ns, freshness)
    ensures !BlamesBroker(c.Input(h, honest, freshness), false)
  {
    hide ContentAnomaly, Missing, Duplicated, Crosses, Unexplained, CommittedMap, CheckpointFailure, Carrying, Shown,
         Gap, Repeats, SameContent, CommittedRecords, Case.Events, SortByOrder;
    ShownFacts(c, ns);
  }

  /** Every scenario that does not forge shows committed content. */
  lemma ShownCarries(c: Case)
    requires c.Valid() && c.sc !in {Tamper, Inject}
    ensures Within(SeenList(c), c.n) && SameContent(Shown(c.Events()), Carrying(c.tpl, SeenList(c)))
  {
    hide Case.Events, Carries, PlainNumbers, Shown, Carrying, SameContent, SeenOnly;
    if c.sc == Disconnect {
      DisconnectEvents(c);
      AllNumbers(c);
      SeenFirst(c.n, DisconnectCut(c.n, c.ctx.span));
    } else if CopyAt(c.sc, c.ctx, c.n, c.middle).Some? {
      var (s, p) := CopyNumbers(c);
      CopyCarries(c);
      RepeatedHasShape(c.n, s, p);
      SeenWithin(Repeated(c.n, s, p), c.n, SeenUpTo(c));
      EventsCarry(c, Repeated(c.n, s, p));
    } else {
      PlainCarries(c);
      SeenWithin(PlainNumbers(c), c.n, SeenUpTo(c));
      EventsCarry(c, PlainNumbers(c));
    }
  }

  lemma AllNumbers(c: Case)
    requires c.Valid() && c.sc == Disconnect
    ensures PlainNumbers(c) == UpTo(c.n)
  {}

  /** The numbers a case delivers, as a list. */
  function DeliveredList(c: Case): seq<int>
    requires c.Valid() && c.sc !in {Tamper, Inject}
  {
    if CopyAt(c.sc, c.ctx, c.n, c.middle).Some? then
      var (s, p) := CopyNumbers(c);
      CopyCarries(c);
      Repeated(c.n, s, p)
    else PlainNumbers(c)
  }

  /** What an auditor sees of them. */
  function SeenList(c: Case): seq<int>
    requires c.Valid() && c.sc !in {Tamper, Inject}
  {
    SeenOnly(DeliveredList(c), if c.sc == Disconnect then DisconnectCut(c.n, c.ctx.span) else SeenUpTo(c))
  }

  // ---- Copies ----

  /** The faults of 1..k with number s once more after p. */
  lemma CopyFaults(ctx: QosContext, tpl: Template, n: nat, k: nat, s: nat, p: nat, freshness: bool)
    requires ctx.span >= 1 && 1 <= s <= p <= k <= n
    ensures NumbersNoticed(ctx, tpl, n, Repeated(k, s, p))
    ensures NumbersFaulted(ctx, tpl, Repeated(k, s, p), freshness) <==>
      (!ctx.DuplicatePermitted() || (LooksStale(ctx, s, p) && (freshness || (ctx.ordered && s < p))))
  {
    hide Crosses, Unexplained, Repeated, LooksStale, Carrying;
    RepeatedHasShape(k, s, p);
    RepeatedWalk(ctx, tpl, k, s, p);
    CopyRepeats(Repeated(k, s, p), k, s, p);
  }

  lemma CopyFaulted(c: Case, freshness: bool)
    requires c.Valid() && CopyAt(c.sc, c.ctx, c.n, c.middle).Some?
    ensures NumbersNoticed(c.ctx, c.tpl, c.n, SeenList(c))
    ensures NumbersFaulted(c.ctx, c.tpl, SeenList(c), freshness) <==>
      !Veils(c, CopyNumbers(c).0) && (!c.ctx.DuplicatePermitted() || Caught(c, freshness))
  {
    hide NumbersNoticed, NumbersFaulted, SeenOnly, Repeated, LooksStale, Carries, SeenUpTo;
    var (s, p) := CopyNumbers(c);
    var seen := SeenUpTo(c);
    var k := Min(c.n, seen);
    CopyCarries(c);
    OwedIsSeen(c);
    SeenRepeated(c.n, s, p, seen);
    if s <= seen {
      CopyFaults(c.ctx, c.tpl, c.n, k, s, Min(p, seen), freshness);
    } else {
      PartFaults(c.ctx, c.tpl, c.n, k, freshness);
    }
  }

  /** 1..k shows no fault but what it lacks. */
  lemma PartFaults(ctx: QosContext, tpl: Template, n: nat, k: nat, freshness: bool)
    requires ctx.span >= 1 && k <= n
    ensures NumbersNoticed(ctx, tpl, n, UpTo(k)) <==> k < n
    ensures !NumbersFaulted(ctx, tpl, UpTo(k), freshness)
  {
    hide Crosses, Unexplained, Carrying;
    UpToAscends(k);
    AscendingNumbersFacts(ctx, tpl, UpTo(k));
    NoRepeatUpTo(k);
    if k < n {
      assert n !in UpTo(k);
    } else {
      forall t | 1 <= t <= n ensures t in UpTo(n) { assert UpTo(n)[t - 1] == t; }
    }
  }

  // ---- Gaps and swaps ----

  lemma GapFaulted(c: Case, freshness: bool)
    requires c.Valid() && c.sc in {Clean, Delayed, Delete, Qos0Loss, Disconnect}
    ensures NumbersNoticed(c.ctx, c.tpl, c.n, SeenList(c)) <==>
      c.sc in {Delete, Qos0Loss, Disconnect} || c.ctx.phase == BeforeReconnect
    ensures !NumbersFaulted(c.ctx, c.tpl, SeenList(c), freshness)
  {
    hide PlainNumbers, SeenOnly, Crosses, Unexplained, Carrying, NumbersNoticed, NumbersFaulted;
    if c.sc == Disconnect {
      AllNumbers(c);
      SeenFirst(c.n, DisconnectCut(c.n, c.ctx.span));
      PartFaults(c.ctx, c.tpl, c.n, DisconnectCut(c.n, c.ctx.span), freshness);
    } else {
      AscendingFaults(c, freshness);
    }
  }

  lemma AscendingFaults(c: Case, freshness: bool)
    requires c.Valid() && c.sc in {Clean, Delayed, Delete, Qos0Loss}
    ensures NumbersNoticed(c.ctx, c.tpl, c.n, SeenList(c)) <==>
      c.sc in {Delete, Qos0Loss} || c.ctx.phase == BeforeReconnect
    ensures !NumbersFaulted(c.ctx, c.tpl, SeenList(c), freshness)
  {
    hide PlainNumbers, SeenOnly, Crosses, Unexplained, Carrying;
    var ns, seen := PlainNumbers(c), SeenUpTo(c);
    PlainAscends(c);
    SeenAscends(ns, seen);
    AscendingNumbersFacts(c.ctx, c.tpl, SeenList(c));
    assert !Repeats(SeenList(c));
    if c.ctx.phase == BeforeReconnect {
      assert c.n !in SeenList(c);
    } else {
      SeenAll(ns, seen);
    }
  }

  lemma SwapFaulted(c: Case, freshness: bool)
    requires c.Valid() && c.sc == Reorder
    ensures NumbersNoticed(c.ctx, c.tpl, c.n, SeenList(c))
    ensures NumbersFaulted(c.ctx, c.tpl, SeenList(c), freshness) <==> c.ctx.ordered && !Veils(c, c.middle + 1)
  {
    hide NumbersNoticed, NumbersFaulted, SeenOnly, SeenUpTo, UpTo;
    var seen := SeenUpTo(c);
    var k := Min(c.n, seen);
    PlainReorder(c);
    OwedIsSeen(c);
    SeenSwapped(c.n, c.middle, seen);
    if c.middle + 1 <= seen {
      SwapFaults(c.ctx, c.tpl, c.n, k, c.middle, freshness);
    } else {
      PartFaults(c.ctx, c.tpl, c.n, k, freshness);
    }
  }

  lemma SwapFaults(ctx: QosContext, tpl: Template, n: nat, k: nat, m: nat, freshness: bool)
    requires ctx.span >= 1 && 1 <= m < k <= n
    ensures NumbersNoticed(ctx, tpl, n, Swapped(k, m))
    ensures NumbersFaulted(ctx, tpl, Swapped(k, m), freshness) <==> ctx.ordered
  {
    hide Crosses, Unexplained, Carrying;
    SwappedWalk(ctx, tpl, k, m);
    assert !Repeats(Swapped(k, m));
  }

  // ---- The verdicts ----

  /**
   * Without awareness of QoS everything but an undisturbed, fully visible trace is detected, and the broker is blamed
   * exactly for visible forgeries.
   */
  lemma AgnosticVerdicts(c: Case, h: History, honest: bool, freshness: bool)
    requires c.Valid() && c.GoodDigests() && HonestHistory(h)
    ensures Detected(c.Input(h, honest, freshness), false) <==>
      !(c.sc in {Clean, Delayed} && c.ctx.phase != BeforeReconnect)
    ensures BlamesBroker(c.Input(h, honest, freshness), false) <==>
      (c.sc == Tamper && !Veils(c, c.middle + 1)) || (c.sc == Inject && !Veils(c, c.n + 10_000))
  {
    hide Case.Events, CheckpointFailure, SeenList, NumbersNoticed, NumbersFaulted, Detected, BlamesBroker, Shown,
         Carrying, SameContent, Case.GoodDigests;
    if c.sc in {Tamper, Inject} {
      ForgeryVerdicts(c, h, honest, freshness);
    } else {
      ShownCarries(c);
      ShownNoticed(c, h, honest, freshness, SeenList(c));
      if CopyAt(c.sc, c.ctx, c.n, c.middle).Some? {
        CopyFaulted(c, freshness);
      } else if c.sc == Reorder {
        SwapFaulted(c, freshness);
      } else {
        GapFaulted(c, freshness);
      }
    }
  }

  /**
   * With awareness the broker is blamed for visible forgeries, and, if the subscriber is honest, for the copies and
   * the reordering that are detected; never for what is missing.
   */
  lemma BlameVerdicts(c: Case, h: History, honest: bool, freshness: bool)
    requires c.Valid() && c.GoodDigests() && HonestHistory(h)
    ensures BlamesBroker(c.Input(h, honest, freshness), true) <==>
      if c.sc == Tamper then !Veils(c, c.middle + 1)
      else if c.sc == Inject then !Veils(c, c.n + 10_000)
      else if CopyAt(c.sc, c.ctx, c.n, c.middle).Some? then
        honest && !Veils(c, CopyNumbers(c).0) && (!c.ctx.DuplicatePermitted() || Caught(c, freshness))
      else honest && c.sc == Reorder && c.ctx.ordered && !Veils(c, c.middle + 1)
  {
    hide Case.Events, CheckpointFailure, SeenList, NumbersNoticed, NumbersFaulted, BlamesBroker, Shown, Carrying,
         SameContent, Case.GoodDigests, Veils, Caught;
    if c.sc in {Tamper, Inject} {
      ForgeryVerdicts(c, h, honest, freshness);
    } else {
      ShownCarries(c);
      ShownNoticed(c, h, honest, freshness, SeenList(c));
      if CopyAt(c.sc, c.ctx, c.n, c.middle).Some? {
        CopyFaulted(c, freshness);
      } else if c.sc == Reorder {
        SwapFaulted(c, freshness);
      } else {
        GapFaulted(c, freshness);
      }
    }
  }

  lemma ForgeryVerdicts(c: Case, h: History, honest: bool, freshness: bool)
    requires c.Valid() && c.GoodDigests() && HonestHistory(h) && c.sc in {Tamper, Inject}
    ensures Detected(c.Input(h, honest, freshness), false)
    ensures forall aware :: BlamesBroker(c.Input(h, honest, freshness), aware) <==>
      !Veils(c, if c.sc == Tamper then c.middle + 1 else c.n + 10_000)
  {
    hide Case.Events, CheckpointFailure, Shown, Carrying, SameContent, Case.GoodDigests, ContentAnomaly, SortByOrder,
         CommittedMap, CommittedRecords, Missing, Duplicated, Crosses, Unexplained, NumbersNoticed, NumbersFaulted;
    ForgedPlace(c);
    if c.Events()[c.middle].visible {
      VisibleForgery(c);
    } else {
      var cut := SeenUpTo(c);
      HiddenForgery(c);
      PartFaults(c.ctx, c.tpl, c.n, cut, freshness);
      ShownNoticed(c, h, honest, freshness, UpTo(cut));
    }
  }

  /** A duplicate at QoS 2, in a context where all is seen, is laid at the broker's door if the subscriber is honest. */
  lemma DuplicateAtQos2(c: Case, h: History, honest: bool, freshness: bool)
    requires c.Valid() && c.GoodDigests() && HonestHistory(h) && c.ctx.phase != BeforeReconnect
    requires c.sc == Duplicate && c.ctx.effectiveQos == 2
    ensures Detected(c.Input(h, honest, freshness), true)
    ensures BlamesBroker(c.Input(h, honest, freshness), true) <==> honest
  {
    hide Case.Events, CheckpointFailure, Detected, BlamesBroker, Case.GoodDigests, Caught;
    BlameVerdicts(c, h, honest, freshness);
    CopyVerdicts(c, h, honest, freshness);
  }

  // ---- An undisturbed trace under accepted evidence ----

  /** What is said of the evidence beside its checkpoints and anchors: enough to accept it. */
  predicate WellSupported(h: History) {
    && h.transferable && h.cryptoPerformed && h.registryPresent && h.keyMatch && h.authorized
    && h.outcome == AcceptedStream && (h.arm == A6 ==> |Counted(h.receipts)| >= h.quorum)
  }

  /**
   * Accepted evidence from number 1 and an undisturbed trace in full view are accepted, in both modes, exactly while
   * the latest anchor is of age; after that the auditor is undecided and detects nothing.
   */
  lemma CleanIsAccepted(k: Crypto, job: Job, c: Case, h: History, honest: bool, freshness: bool, aware: bool)
    requires job.Accepted(k) && job.Anchors().value.genesis.seqNo == 1
    requires ShowsHistory(h, job.evs, job.Anchors().value) && WellSupported(h)
    requires c.Valid() && c.sc in {Clean, Delayed} && c.ctx.phase != BeforeReconnect
    ensures Accepts(c.Input(h, honest, freshness), aware) <==> h.latest.value.age <= h.latest.value.maxAge
    ensures !Detected(c.Input(h, honest, freshness), aware)
  {
    hide StreamVerified, EndsAt, Stale, CheckpointFailure, DeliveryAnomaly, Case.Events, Counted, StreamOf;
    AcceptedHistoryPasses(k, job, h);
    CleanIsQuiet(c, h, honest, freshness, aware);
    assert |h.checkpoints| == |job.evs|;
    SomethingAccepted(k, job);
  }

  lemma SomethingAccepted(k: Crypto, job: Job)
    requires job.Accepted(k)
    ensures job.evs != []
  {
    hide StreamVerified, StreamOf;
  }

  lemma CleanIsQuiet(c: Case, h: History, honest: bool, freshness: bool, aware: bool)
    requires c.Valid() && c.sc in {Clean, Delayed} && c.ctx.phase != BeforeReconnect && HonestHistory(h)
    ensures !Detected(c.Input(h, honest, freshness), aware)
  {
    hide Case.Events, CheckpointFailure, SeenList, NumbersNoticed, NumbersFaulted, Shown, Carrying, SameContent,
         DeliveryAnomaly;
    AwarenessOnlyExcuses(c.Input(h, honest, freshness));
    ShownCarries(c);
    ShownNoticed(c, h, honest, freshness, SeenList(c));
    GapFaulted(c, freshness);
  }
}
