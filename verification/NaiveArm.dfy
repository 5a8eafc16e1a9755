/** The A1 arm: one signed wire envelope per record, one checkpoint per record, no history binding. */
module NaiveArm {
  import opened Prelude
  import opened Bytes
  import opened Text
  import opened Crypto
  import opened Codec
  import opened Wire
  import opened Registry
  import opened Evidence
  import opened ItemAudit
  import opened StreamAudit
  import opened Generated
  import Completeness

  /** What an A1 arm object is created with. */
  datatype Naive = Naive(c: Crypto, client: Text, topic: Text, publicKey: Bytes) {
    function StreamId(): Text { CanonicalStreamId(client, topic) }
  }

  // ---- What the arm does with record number j ----

  function EnvelopeOf(cfg: Naive, j: nat, r: Record): Envelope {
    SignedEnvelope(cfg.c, cfg.publicKey, j, r.seqNo, Raw(r))
  }

  /** The message signed for the record; empty where `unsigned_bytes` raises. */
  function MessageOf(cfg: Naive, j: nat, r: Record): Bytes {
    var body := UnsignedBytes(EnvelopeOf(cfg, j, r));
    if body.Ok? then body.value else []
  }

  function SignatureOf(cfg: Naive, j: nat, r: Record): Bytes { cfg.c.sign(cfg.publicKey, MessageOf(cfg, j, r)) }

  function WireOf(cfg: Naive, j: nat, r: Record): Outcome<Bytes> {
    SerializeEnvelope(EnvelopeOf(cfg, j, r).(authenticator := SignatureOf(cfg, j, r)))
  }

  /** Record number j is signed. */
  predicate Signs(cfg: Naive, j: nat, r: Record) { SerializeRecord(r).Ok? && UnsignedBytes(EnvelopeOf(cfg, j, r)).Ok? }

  /** `add_record` succeeds on record number j: signed and sent. */
  predicate Signable(cfg: Naive, j: nat, r: Record) { Signs(cfg, j, r) && WireOf(cfg, j, r).Ok? }

  ghost predicate AllSignable(cfg: Naive, records: seq<Record>) {
    forall j :: 0 <= j < |records| ==> Signable(cfg, j, records[j])
  }

  function AnchorOf(cfg: Naive, r: Record): Digest { cfg.c.hash(Raw(r)) }

  function PrevOf(cfg: Naive, records: seq<Record>, e: nat): Digest
    requires e <= |records|
  {
    if e == 0 then ZERO_ANCHOR else AnchorOf(cfg, records[e - 1])
  }

  /** The evidence `flush` writes for record number e. */
  function Item(cfg: Naive, records: seq<Record>, e: nat): Evidence
    requires e < |records|
  {
    var r := records[e];
    Evidence(Checkpoint(cfg.client, cfg.topic, e, r.seqNo, r.seqNo, PrevOf(cfg, records, e), AnchorOf(cfg, r), r.ts),
             SignatureOf(cfg, e, r), cfg.publicKey, [Raw(r)], None, None, None, None)
  }

  function Items(cfg: Naive, records: seq<Record>, n: nat): seq<Evidence>
    requires n <= |records|
  {
    seq(n, e requires 0 <= e < n => Item(cfg, records, e))
  }

  // ---- Every state of the arm, refused records included ----

  /** The records it was given, the indices of those it signed and sent, and how many items it has flushed. */
  datatype NaiveState = NaiveState(records: seq<Record>, sent: seq<nat>, flushed: nat)

  /** What holds in every state: the sent records are those that can be, in order; one item at most for each. */
  ghost predicate Consistent(cfg: Naive, s: NaiveState) {
    && (forall k :: 0 <= k < |s.sent| ==> s.sent[k] < |s.records|)
    && (forall i, j :: 0 <= i < j < |s.sent| ==> s.sent[i] < s.sent[j])
    && (forall j :: 0 <= j < |s.records| ==> (j in s.sent <==> Signable(cfg, j, s.records[j])))
    && s.flushed <= |s.sent| <= |s.records|
  }

  /** The item `flush` writes at position e pairs record number e with the e-th signature, whosever that is. */
  function FlushedItem(cfg: Naive, s: NaiveState, e: nat): Evidence
    requires e < |s.sent| <= |s.records| && s.sent[e] < |s.records|
  {
    Item(cfg, s.records, e).(signature := SignatureOf(cfg, s.sent[e], s.records[s.sent[e]]))
  }

  ghost function FlushedItems(cfg: Naive, s: NaiveState): seq<Evidence>
    requires Consistent(cfg, s)
  {
    seq(s.flushed, e requires 0 <= e < s.flushed => FlushedItem(cfg, s, e))
  }

  /** One signature and one wire message for every record sent. */
  ghost predicate AreSigned(cfg: Naive, s: NaiveState, signatures: seq<Bytes>, wire: seq<Bytes>)
    requires Consistent(cfg, s)
  {
    && |signatures| == |wire| == |s.sent|
    && (forall k :: 0 <= k < |s.sent| ==> signatures[k] == SignatureOf(cfg, s.sent[k], s.records[s.sent[k]]))
    && (forall k :: 0 <= k < |s.sent| ==> Ok(wire[k]) == WireOf(cfg, s.sent[k], s.records[s.sent[k]]))
  }

  function AddTo(cfg: Naive, s: NaiveState, r: Record): NaiveState {
    NaiveState(s.records + [r], s.sent + if Signable(cfg, |s.records|, r) then [|s.records|] else [], s.flushed)
  }

  /** Where `flush` stops: past the last record, past the last signature, or at a record that does not serialise. */
  function FlushStop(records: seq<Record>, signatures: nat, e: nat): (stop: nat)
    ensures stop >= e && (e <= |records| ==> stop <= |records|) && (e <= signatures ==> stop <= signatures)
    decreases |records| - e
  {
    if e < |records| && e < signatures && SerializeRecord(records[e]).Ok?
    then FlushStop(records, signatures, e + 1) else e
  }

  function FlushTo(s: NaiveState): NaiveState { s.(flushed := FlushStop(s.records, |s.sent|, s.flushed)) }

  /** `flush` raises unless it gets through all records. */
  predicate FlushSucceeds(s: NaiveState) { FlushTo(s).flushed == |s.records| }

  // ---- The arm object ----

  datatype Signed = Signed(authenticator: Bytes, message: Bytes)

  class ArmA1 {
    const cfg: Naive
    var records: seq<Record>
    var checkpoints: seq<Evidence>
    var wireMessages: seq<Bytes>
    var signatures: seq<Bytes>
    var prevAnchor: Bytes
    var flushedCount: nat
    var epoch: nat
    ghost var sent: seq<nat>

    ghost function State(): NaiveState
      reads this
    {
      NaiveState(records, sent, flushedCount)
    }

    /** What every call keeps, whether it raises or not. */
    ghost predicate Valid()
      reads this
    {
      && Consistent(cfg, State()) && AreSigned(cfg, State(), signatures, wireMessages) && flushedCount == epoch
      && checkpoints == FlushedItems(cfg, State()) && prevAnchor == PrevOf(cfg, records, epoch)
    }

    constructor (cfg: Naive)
      ensures this.cfg == cfg && Valid() && State() == NaiveState([], [], 0)
    {
      this.cfg := cfg;
      records, checkpoints, wireMessages, signatures := [], [], [], [];
      prevAnchor, flushedCount, epoch := ZERO_ANCHOR, 0, 0;
      sent := [];
    }

    /** `add_record`: sign and send at once; the wire epoch is the record's index. */
    method AddRecord(record: Record) returns (ok: bool)
      requires Valid()
      modifies this
      ensures Valid() && State() == AddTo(cfg, old(State()), record)
      ensures ok <==> Signable(cfg, |old(records)|, record)
      ensures checkpoints == old(checkpoints) && prevAnchor == old(prevAnchor)
    {
      hide SignatureOf, AnchorOf, Signable, WireOf, Item, Consistent, FlushedItems, AreSigned, PrevOf;
      AddKeeps(cfg, State(), record);
      AddSigns(cfg, State(), record, signatures, wireMessages);
      assert sent + [] == sent;
      records := records + [record];
      var envelope := AppendWireEnvelope(record, |records| - 1);
      if envelope.Raised? { return false; }
      wireMessages := wireMessages + [envelope.value.message];
      signatures := signatures + [envelope.value.authenticator];
      sent := sent + [|records| - 1];
      ok := true;
    }

    /** `_append_wire_envelope` for a signature: the tag and the serialised envelope. */
    method AppendWireEnvelope(record: Record, index: nat) returns (r: Outcome<Signed>)
      ensures r.Ok? <==> Signable(cfg, index, record)
      ensures r.Ok? ==>
        r.value.authenticator == SignatureOf(cfg, index, record) && Ok(r.value.message) == WireOf(cfg, index, record)
    {
      hide RecordBytes, SignedEnvelope, UnsignedBytes, SerializeEnvelope;
      var raw := SerializeRecord(record);
      if raw.Raised? { return Raised; }
      var envelope := SignedEnvelope(cfg.c, cfg.publicKey, index, record.seqNo, raw.value);
      var body := UnsignedBytes(envelope);
      if body.Raised? { return Raised; }
      var authenticator := cfg.c.sign(cfg.publicKey, body.value);
      var message := SerializeEnvelope(envelope.(authenticator := authenticator));
      if message.Raised? { return Raised; }
      r := Ok(Signed(authenticator, message.value));
    }

    /** The evidence for the next record; there may be no signature left, or nothing to hash. */
    method NextItem() returns (r: Outcome<Evidence>)
      requires Valid() && flushedCount < |records|
      ensures r.Ok? <==> flushedCount < |sent| && SerializeRecord(records[flushedCount]).Ok?
      ensures r.Ok? ==> r.value == FlushedItem(cfg, State(), epoch)
      ensures r.Ok? ==> r.value.checkpoint.endAnchor == PrevOf(cfg, records, epoch + 1)
    {
      hide SignatureOf, AnchorOf, WireOf, Signable, RecordBytes;
      var rec := records[flushedCount];
      if flushedCount >= |signatures| { return Raised; }
      var signature := signatures[flushedCount];
      var raw := SerializeRecord(rec);
      if raw.Raised? { return Raised; }
      var anchor := HashOf(cfg.c, raw.value);
      assert anchor == AnchorOf(cfg, rec) by { AnchorIs(cfg, rec); }
      var ckpt := Checkpoint(cfg.client, cfg.topic, epoch, rec.seqNo, rec.seqNo, prevAnchor, anchor, rec.ts);
      r := Ok(Evidence(ckpt, signature, cfg.publicKey, [raw.value], None, None, None, None));
    }

    /** `flush`: one item per record since the last flush, up to the first that raises. */
    method Flush() returns (ok: bool)
      requires Valid()
      modifies this
      ensures Valid() && State() == FlushTo(old(State())) && (ok <==> FlushSucceeds(old(State())))
      ensures wireMessages == old(wireMessages) && signatures == old(signatures)
    {
      hide Consistent, AreSigned, FlushedItems, FlushedItem, PrevOf, SerializeRecord;
      FlushBounds(cfg, State());
      while flushedCount < |records|
        invariant Valid() && records == old(records) && sent == old(sent)
        invariant wireMessages == old(wireMessages) && signatures == old(signatures)
        invariant FlushTo(State()) == FlushTo(old(State()))
        decreases |records| - flushedCount
      {
        var ev := NextItem();
        if ev.Raised? { return false; }
        FlushKeeps(cfg, State(), signatures, wireMessages);
        checkpoints := checkpoints + [ev.value];
        prevAnchor := ev.value.checkpoint.endAnchor;
        epoch := epoch + 1;
        flushedCount := flushedCount + 1;
      }
      ok := true;
    }
  }

  lemma FlushBounds(cfg: Naive, s: NaiveState)
    requires Consistent(cfg, s)
    ensures s.flushed <= |s.sent| <= |s.records|
  {}

  lemma AddKeeps(cfg: Naive, s: NaiveState, r: Record)
    requires Consistent(cfg, s)
    ensures Consistent(cfg, AddTo(cfg, s, r)) && FlushedItems(cfg, AddTo(cfg, s, r)) == FlushedItems(cfg, s)
    ensures PrevOf(cfg, AddTo(cfg, s, r).records, s.flushed) == PrevOf(cfg, s.records, s.flushed)
  {
    hide Signable, SignatureOf, AnchorOf, Raw;
    var t := AddTo(cfg, s, r);
    forall j | 0 <= j < |t.records| ensures j in t.sent <==> Signable(cfg, j, t.records[j]) {
      if j < |s.records| {
        assert t.records[j] == s.records[j];
      }
    }
  }

  lemma AddSigns(cfg: Naive, s: NaiveState, r: Record, signatures: seq<Bytes>, wire: seq<Bytes>)
    requires Consistent(cfg, s) && Consistent(cfg, AddTo(cfg, s, r)) && AreSigned(cfg, s, signatures, wire)
    ensures var t, j := AddTo(cfg, s, r), |s.records|;
      if Signable(cfg, j, r)
      then forall m :: Ok(m) == WireOf(cfg, j, r) ==>
             AreSigned(cfg, t, signatures + [SignatureOf(cfg, j, r)], wire + [m])
      else AreSigned(cfg, t, signatures, wire)
  {
    hide Signable, SignatureOf, WireOf;
  }

  /** One more item. */
  lemma FlushKeeps(cfg: Naive, s: NaiveState, signatures: seq<Bytes>, wire: seq<Bytes>)
    requires Consistent(cfg, s) && s.flushed < |s.sent| && AreSigned(cfg, s, signatures, wire)
    ensures var t := s.(flushed := s.flushed + 1);
      && Consistent(cfg, t) && AreSigned(cfg, t, signatures, wire)
      && FlushedItems(cfg, t) == FlushedItems(cfg, s) + [FlushedItem(cfg, s, s.flushed)]
  {
    hide AreSigned, FlushedItems, FlushedItem, Signable;
    FlushItems(cfg, s);
    FlushSigns(cfg, s, signatures, wire);
  }

  lemma FlushItems(cfg: Naive, s: NaiveState)
    requires Consistent(cfg, s) && s.flushed < |s.sent|
    ensures var t := s.(flushed := s.flushed + 1);
      Consistent(cfg, t) && FlushedItems(cfg, t) == FlushedItems(cfg, s) + [FlushedItem(cfg, s, s.flushed)]
  {
    hide Signable, Item, SignatureOf;
  }

  lemma FlushSigns(cfg: Naive, s: NaiveState, signatures: seq<Bytes>, wire: seq<Bytes>)
    requires Consistent(cfg, s) && s.flushed < |s.sent| && AreSigned(cfg, s, signatures, wire)
    requires Consistent(cfg, s.(flushed := s.flushed + 1))
    ensures AreSigned(cfg, s.(flushed := s.flushed + 1), signatures, wire)
  {
    hide Signable, WireOf, SignatureOf;
  }

  lemma AnchorIs(cfg: Naive, r: Record)
    ensures HashOf(cfg.c, Raw(r)) == AnchorOf(cfg, r)
  {}

  // ---- Runs: when flush succeeds ----

  datatype NaiveCall = GiveRecord(record: Record) | FlushAll

  /** The state after any calls, whatever raised among them. */
  function AfterCalls(cfg: Naive, calls: seq<NaiveCall>): NaiveState {
    if calls == [] then NaiveState([], [], 0)
    else
      var s := AfterCalls(cfg, calls[..|calls| - 1]);
      match calls[|calls| - 1]
      case GiveRecord(record) => AddTo(cfg, s, record)
      case FlushAll => FlushTo(s)
  }

  function Given(calls: seq<NaiveCall>): seq<Record> {
    if calls == [] then []
    else
      var n := |calls| - 1;
      Given(calls[..n]) + if calls[n].GiveRecord? then [calls[n].record] else []
  }

  lemma {:induction false} CallsKeep(cfg: Naive, calls: seq<NaiveCall>)
    ensures Consistent(cfg, AfterCalls(cfg, calls)) && AfterCalls(cfg, calls).records == Given(calls)
  {
    hide Signable, FlushStop;
    if calls != [] {
      var n := |calls| - 1;
      CallsKeep(cfg, calls[..n]);
      if calls[n].GiveRecord? {
        AddKeeps(cfg, AfterCalls(cfg, calls[..n]), calls[n].record);
      }
    }
  }

  /** With a signature for every record, each record is signed by the signature of its own index. */
  lemma {:induction false} FullIsIdentity(sent: seq<nat>, n: nat, k: nat)
    requires |sent| == n && k < n && (forall i :: 0 <= i < n ==> sent[i] < n)
    requires forall i, j :: 0 <= i < j < n ==> sent[i] < sent[j]
    ensures sent[k] == k
  {
    AtLeastIndex(sent, k);
    AtMostIndex(sent, n, k);
  }

  lemma {:induction false} AtLeastIndex(sent: seq<nat>, k: nat)
    requires k < |sent| && forall i, j :: 0 <= i < j < |sent| ==> sent[i] < sent[j]
    ensures sent[k] >= k
  {
    if k > 0 {
      AtLeastIndex(sent, k - 1);
    }
  }

  lemma {:induction false} AtMostIndex(sent: seq<nat>, n: nat, k: nat)
    requires k < |sent| == n && (forall i :: 0 <= i < n ==> sent[i] < n)
    requires forall i, j :: 0 <= i < j < n ==> sent[i] < sent[j]
    ensures sent[k] <= k
    decreases n - k
  {
    if k < n - 1 {
      AtMostIndex(sent, n, k + 1);
    }
  }

  /** All records were sent exactly when none was refused; then the items are those of the records, in step. */
  lemma InStepExactly(cfg: Naive, s: NaiveState)
    requires Consistent(cfg, s)
    ensures |s.sent| == |s.records| <==> AllSignable(cfg, s.records)
    ensures AllSignable(cfg, s.records) ==> FlushedItems(cfg, s) == Items(cfg, s.records, s.flushed)
  {
    hide Signable, Item, SignatureOf;
    if |s.sent| == |s.records| {
      forall k | 0 <= k < |s.sent| ensures s.sent[k] == k { FullIsIdentity(s.sent, |s.sent|, k); }
      forall j | 0 <= j < |s.records| ensures Signable(cfg, j, s.records[j]) { assert s.sent[j] == j; }
      forall e | 0 <= e < s.flushed ensures FlushedItem(cfg, s, e) == Item(cfg, s.records, e) {
        ItemIsSignedInStep(cfg, s.records, e);
      }
    }
    if AllSignable(cfg, s.records) {
      AllSentCount(s.sent, |s.records|);
    }
  }

  lemma ItemIsSignedInStep(cfg: Naive, records: seq<Record>, e: nat)
    requires e < |records|
    ensures Item(cfg, records, e).signature == SignatureOf(cfg, e, records[e])
  {
    hide SignatureOf, AnchorOf, Raw;
  }

  lemma AllSentCount(sent: seq<nat>, n: nat)
    requires forall j: nat :: j < n ==> j in sent
    ensures |sent| >= n
  {
    var all: seq<nat> := seq(n, i requires 0 <= i < n => i);
    DistinctCardinality(all);
    DistinctCardinality(sent);
    SubsetCardinality(Elements(all), Elements(sent));
  }

  lemma {:induction false} FlushRunsThrough(cfg: Naive, records: seq<Record>, e: nat)
    requires AllSignable(cfg, records) && e <= |records|
    ensures FlushStop(records, |records|, e) == |records|
    decreases |records| - e
  {
    hide EnvelopeOf, RecordBytes, SerializeRecord, UnsignedBytes, WireOf;
    if e < |records| {
      assert Signable(cfg, e, records[e]);
      FlushRunsThrough(cfg, records, e + 1);
    }
  }

  /**
   * After any calls, `flush` succeeds if and only if no record was ever refused: one refused record leaves fewer
   * signatures than records for good, and every flush from then on raises.
   */
  lemma FlushSucceedsExactly(cfg: Naive, calls: seq<NaiveCall>)
    ensures FlushSucceeds(AfterCalls(cfg, calls)) <==> AllSignable(cfg, Given(calls))
  {
    hide AfterCalls, AllSignable;
    var s := AfterCalls(cfg, calls);
    CallsKeep(cfg, calls);
    InStepExactly(cfg, s);
    if AllSignable(cfg, Given(calls)) {
      FlushRunsThrough(cfg, s.records, s.flushed);
    }
  }

  // ---- Completeness: every item is accepted, and the stream is left undecided ----

  /** Records numbered 1, 2, 3, ... on the arm's topic. */
  ghost predicate InOrder(cfg: Naive, records: seq<Record>) {
    forall j :: 0 <= j < |records| ==> records[j].seqNo == j + 1 && records[j].topic == cfg.topic
  }

  /** No two records sent, and no record and a preimage of zero, hash alike. */
  ghost predicate GoodHashes(cfg: Naive, records: seq<Record>, inputs: set<Bytes>) {
    && CollisionFree(cfg.c.hash, inputs) && NeverZero(cfg.c.hash, inputs)
    && forall j :: 0 <= j < |records| ==> Raw(records[j]) in inputs
  }

  lemma RawIsDecoded(r: Record)
    requires RecordFits(r)
    ensures DecodedRecord(Raw(r)) == Some(r) && Raw(r) != []
  {
    RecordRoundTrip(r);
    FieldWidths();
  }

  function Authorisation(cfg: Naive, n: nat): PublisherAuth {
    PublisherAuth(cfg.client, cfg.topic, 0, Some(n - 1), cfg.publicKey, MlDsa65)
  }

  /** The auditor rebuilds the very message that was signed. */
  lemma ItemIsSigned(cfg: Naive, records: seq<Record>, e: nat, auth: PublisherAuth)
    requires e < |records| && Signable(cfg, e, records[e])
    requires auth.publicKey == cfg.publicKey && SignsCorrectly(cfg.c, cfg.publicKey, auth.scheme)
    ensures NaiveSigned(cfg.c, auth, Item(cfg, records, e)) && NaiveCommitted(cfg.c, Item(cfg, records, e))
  {
    hide RecordBytes, WireBody, SignedEnvelope, SerializeEnvelope;
    RawIsDecoded(records[e]);
    var ev := Item(cfg, records, e);
    assert NaiveMessage(cfg.c, auth, ev, ev.records[0]) == MessageOf(cfg, e, records[e]);
    assert |Raw(records[e])| <= MAX_U32 by { RecordIsShort(cfg, e, records[e]); }
  }

  lemma RecordIsShort(cfg: Naive, e: nat, r: Record)
    requires Signable(cfg, e, r)
    ensures |Raw(r)| <= MAX_U32
  {
    hide RecordBytes;
  }

  lemma ItemFits(cfg: Naive, records: seq<Record>, e: nat)
    requires e < |records| && Signable(cfg, e, records[e]) && InOrder(cfg, records)
    ensures RecordsFit(Item(cfg, records, e))
  {
    hide RecordBytes, SignedEnvelope, SignatureOf;
    RawIsDecoded(records[e]);
    var ev := Item(cfg, records, e);
    assert RecordAt(ev.checkpoint, ev.records[0], 0);
  }

  lemma RegistryOfItems(cfg: Naive, records: seq<Record>)
    requires records != []
    ensures var reg := RegistryFor(Items(cfg, records, |records|), A1, MlDsa65, None);
      reg.publishers == [Authorisation(cfg, |records|)] && reg.policies == []
  {
    hide Raw, SignatureOf, AnchorOf, WitnessEntries;
    Completeness.EpochsSpan(Items(cfg, records, |records|));
  }

  lemma {:induction false} RecordsOfItems(cfg: Naive, records: seq<Record>, n: nat)
    requires n <= |records|
    ensures |AllRecords(Items(cfg, records, n))| == n
    ensures forall j :: 0 <= j < n ==> AllRecords(Items(cfg, records, n))[j] == Raw(records[j])
  {
    hide Raw, SignatureOf, AnchorOf;
    if n > 0 {
      RecordsOfItems(cfg, records, n - 1);
      assert Items(cfg, records, n)[..n - 1] == Items(cfg, records, n - 1);
    }
  }

  /** Two records of the arm differ, so their hashes do. */
  lemma RecordsDiffer(cfg: Naive, records: seq<Record>, i: nat, j: nat, inputs: set<Bytes>)
    requires i < j < |records| && AllSignable(cfg, records) && InOrder(cfg, records)
    requires GoodHashes(cfg, records, inputs)
    ensures AnchorOf(cfg, records[i]) != AnchorOf(cfg, records[j])
  {
    hide RecordBytes, UnsignedBytes, WireOf;
    assert Signable(cfg, i, records[i]) && Signable(cfg, j, records[j]);
    RawIsDecoded(records[i]);
    RawIsDecoded(records[j]);
  }

  lemma NothingRepeatsInItems(cfg: Naive, records: seq<Record>, inputs: set<Bytes>)
    requires AllSignable(cfg, records) && InOrder(cfg, records) && GoodHashes(cfg, records, inputs)
    ensures NothingRepeats(cfg.c, Items(cfg, records, |records|))
  {
    hide Raw, SignatureOf, AllSignable, InOrder, GoodHashes;
    var evs := Items(cfg, records, |records|);
    RecordsOfItems(cfg, records, |records|);
    forall i, j | 0 <= i < j < |evs|
      ensures EndAnchors(evs)[i] != EndAnchors(evs)[j]
        && Hashes(cfg.c, AllRecords(evs))[i] != Hashes(cfg.c, AllRecords(evs))[j]
    {
      RecordsDiffer(cfg, records, i, j, inputs);
    }
  }

  lemma ItemFields(cfg: Naive, records: seq<Record>, e: nat)
    requires e < |records| && InOrder(cfg, records)
    ensures var ev := Items(cfg, records, |records|)[e];
      && StreamOf(ev) == cfg.StreamId() && ev.checkpoint.epoch == e
      && ev.checkpoint.seqStart == ev.checkpoint.seqEnd == e + 1
      && ev.checkpoint.prevAnchor == PrevOf(cfg, records, e) && ev.checkpoint.endAnchor == AnchorOf(cfg, records[e])
  {
    hide SignatureOf, CanonicalStreamId, Raw, AnchorOf, PrevOf;
  }

  lemma AnchorIsNotZero(cfg: Naive, records: seq<Record>, e: nat, inputs: set<Bytes>)
    requires e < |records| && GoodHashes(cfg, records, inputs)
    ensures AnchorOf(cfg, records[e]) != ZERO_ANCHOR
  {
    hide Raw;
    assert Raw(records[e]) in inputs;
  }

  lemma ItemIsLinked(cfg: Naive, records: seq<Record>, e: nat, inputs: set<Bytes>)
    requires e < |records| && InOrder(cfg, records) && GoodHashes(cfg, records, inputs)
    ensures LinkedAt(Completeness.GENESIS, Items(cfg, records, |records|), e)
  {
    hide Items, StreamOf, GoodHashes, InOrder, AnchorOf, CanonicalStreamId;
    ItemFields(cfg, records, e);
    ItemFields(cfg, records, 0);
    AnchorIsNotZero(cfg, records, e, inputs);
    if e > 0 {
      ItemFields(cfg, records, e - 1);
    }
  }

  lemma ItemIsAccepted(cfg: Naive, records: seq<Record>, e: nat, reg: Registry)
    requires e < |records| && AllSignable(cfg, records) && InOrder(cfg, records)
    requires SignsCorrectly(cfg.c, cfg.publicKey, MlDsa65)
    requires Authorisation(cfg, |records|) in reg.publishers
    ensures EvidenceAccepted(cfg.c, A1, reg, Item(cfg, records, e), None)
  {
    hide RecordsFit, NaiveSigned, NaiveCommitted, SignatureOf, AnchorOf, Raw, UnsignedBytes, WireOf;
    assert Signable(cfg, e, records[e]);
    ItemFits(cfg, records, e);
    ItemIsSigned(cfg, records, e, Authorisation(cfg, |records|));
    assert PublisherVouches(A1, Item(cfg, records, e), Authorisation(cfg, |records|));
  }

  /**
   * Completeness of A1, as far as it goes: every item is accepted and the stream is verified up to its last record,
   * yet the verdict stays undecided, because nothing signed links one record to the next.
   */
  lemma RunIsUndecided(cfg: Naive, records: seq<Record>, validUntil: Option<real>, auditTime: real, inputs: set<Bytes>)
    requires records != [] && AllSignable(cfg, records) && InOrder(cfg, records) && GoodHashes(cfg, records, inputs)
    requires SignsCorrectly(cfg.c, cfg.publicKey, MlDsa65)
    requires validUntil.Some? ==> auditTime <= validUntil.value
    ensures var evs := Items(cfg, records, |records|);
      var job := Job(evs, A1, Some(RegistryFor(evs, A1, MlDsa65, None)),
                     Some(AnchorsForGenerated(evs, validUntil).value), auditTime, None);
      && job.Verified(cfg.c) && job.Undecided(cfg.c) && !job.Accepted(cfg.c) && job.LatestIsCurrent()
      && |AllRecords(evs)| == |records|
  {
    hide EvidenceAccepted, NothingRepeats, LinkedAt, RegistryFor, SignatureOf, AllSignable, InOrder, GoodHashes;
    var evs := Items(cfg, records, |records|);
    RegistryOfItems(cfg, records);
    NothingRepeatsInItems(cfg, records, inputs);
    RecordsOfItems(cfg, records, |records|);
    forall e | 0 <= e < |evs|
      ensures LinkedAt(Completeness.GENESIS, evs, e)
        && EvidenceAccepted(cfg.c, A1, RegistryFor(evs, A1, MlDsa65, None), evs[e], None)
    {
      ItemIsLinked(cfg, records, e, inputs);
      ItemIsAccepted(cfg, records, e, RegistryFor(evs, A1, MlDsa65, None));
    }
    var job := Job(evs, A1, Some(RegistryFor(evs, A1, MlDsa65, None)),
                   Some(AnchorsForGenerated(evs, validUntil).value), auditTime, None);
    assert job.Anchors().value.genesis == Completeness.GENESIS;
  }

  // ---- Soundness: a verified A1 stream shows a contiguous part of what was sent ----

  /** Item e shows record e, at the record's own time, linked to the hash of the record before. */
  lemma ItemShowsRecord(cfg: Naive, records: seq<Record>, e: nat)
    requires AllSignable(cfg, records) && e < |records|
    ensures var ev := Item(cfg, records, e);
      && |ev.records| == 1 && DecodedRecord(ev.records[0]) == Some(records[e])
      && ev.checkpoint.ts == records[e].ts && ev.checkpoint.epoch == e
      && ev.checkpoint.seqStart == ev.checkpoint.seqEnd == records[e].seqNo
      && ev.publicKey == cfg.publicKey && ev.receipts == None
    ensures var before := if e == 0 then ZERO_ANCHOR else cfg.c.hash(Raw(records[e - 1]));
      Item(cfg, records, e).checkpoint.prevAnchor == before
  {
    hide SignatureOf, RecordBytes, DecodedRecord, WireOf, Signs, RecordFits;
    SignableFits(cfg, e, records[e]);
    RecordRoundTrip(records[e]);
  }

  lemma SignableFits(cfg: Naive, j: nat, r: Record)
    requires Signable(cfg, j, r)
    ensures RecordFits(r)
  {
    hide EnvelopeOf, WireOf;
  }

  /** The messages an A1 key signed. */
  ghost predicate Sent(cfg: Naive, records: seq<Record>, m: Bytes) {
    exists j :: 0 <= j < |records| && Signs(cfg, j, records[j]) && m == MessageOf(cfg, j, records[j])
  }

  /** If the item's signature verifies under a key registered for the stream, the arm signed that very message. */
  ghost predicate Genuine(cfg: Naive, reg: Registry, records: seq<Record>, ev: Evidence) {
    forall auth :: auth in reg.publishers && auth.clientId == cfg.client && auth.topic == cfg.topic ==>
      NaiveSigned(cfg.c, auth, ev) ==> Sent(cfg, records, NaiveMessage(cfg.c, auth, ev, ev.records[0]))
  }

  /** No presented item carries a forged signature. */
  ghost predicate NothingForged(cfg: Naive, reg: Registry, records: seq<Record>, evs: seq<Evidence>) {
    forall i :: 0 <= i < |evs| ==> Genuine(cfg, reg, records, evs[i])
  }

  /** Two signable envelopes with one body are one envelope. */
  lemma MessageBinds(a: Envelope, b: Envelope)
    requires UnsignedBytes(a).Ok? && UnsignedBytes(b).Ok? && UnsignedBytes(a).value == UnsignedBytes(b).value
    ensures a.epoch == b.epoch && a.record == b.record
  {
    hide WireBody;
    WireBodyInjective(a, b);
  }

  /** An accepted A1 item shows the record that was signed under its epoch. */
  lemma AcceptedWasSent(cfg: Naive, reg: Registry, records: seq<Record>, ev: Evidence, q: Option<int>)
    requires EvidenceAccepted(cfg.c, A1, reg, ev, q) && Genuine(cfg, reg, records, ev)
    requires ev.checkpoint.clientId == cfg.client && ev.checkpoint.topic == cfg.topic
    ensures 0 <= ev.checkpoint.epoch < |records| && ev.records == [Raw(records[ev.checkpoint.epoch])]
  {
    hide RecordsFit, SignedEnvelope, RecordBytes, UnsignedBytes, WireOf;
    var auth :| auth in reg.publishers && PublisherVouches(A1, ev, auth) && Committed(cfg.c, A1, auth, ev);
    var raw := ev.records[0];
    var m := NaiveMessage(cfg.c, auth, ev, raw);
    assert Sent(cfg, records, m);
    var j :| 0 <= j < |records| && Signs(cfg, j, records[j]) && m == MessageOf(cfg, j, records[j]);
    MessageIsNotEmpty(EnvelopeOf(cfg, j, records[j]));
    var shown := SignedEnvelope(cfg.c, auth.publicKey, ev.checkpoint.epoch, DecodedRecord(raw).value.seqNo, raw);
    MessageBinds(shown, EnvelopeOf(cfg, j, records[j]));
    EnvelopeFields(cfg.c, auth.publicKey, ev.checkpoint.epoch, DecodedRecord(raw).value.seqNo, raw);
    EnvelopeFields(cfg.c, cfg.publicKey, j, records[j].seqNo, Raw(records[j]));
  }

  lemma EnvelopeFields(c: Crypto, publicKey: Bytes, epoch: int, seqNo: int, raw: Bytes)
    ensures var e := SignedEnvelope(c, publicKey, epoch, seqNo, raw); e.epoch == epoch && e.record == raw
  {}

  lemma MessageIsNotEmpty(e: Envelope)
    requires UnsignedBytes(e).Ok?
    ensures UnsignedBytes(e).value != []
  {}

  /**
   * Even without history binding, a verified A1 stream shows, record by record, what was given from the genesis
   * epoch on, whatever was refused in between: the signed epoch is the record's index.
   */
  lemma VerifiedWasSent(cfg: Naive, job: Job, records: seq<Record>)
    requires job.arm == A1 && job.Verified(cfg.c) && StreamOf(job.evs[0]) == cfg.StreamId()
    requires NothingForged(cfg, job.registry.value, records, job.evs)
    ensures var first := job.Anchors().value.genesis.epoch;
      && 0 <= first && first + |job.evs| <= |records|
      && forall i :: 0 <= i < |job.evs| ==> job.evs[i].records == [Raw(records[first + i])]
  {
    hide EvidenceAccepted, Genuine, StreamOf, LinkedAt, NothingRepeats;
    var genesis := job.Anchors().value.genesis;
    forall i | 0 <= i < |job.evs|
      ensures 0 <= genesis.epoch + i < |records| && job.evs[i].records == [Raw(records[genesis.epoch + i])]
    {
      assert LinkedAt(genesis, job.evs, i);
      LinkedIdentity(cfg, genesis, job.evs, i);
      AcceptedWasSent(cfg, job.registry.value, records, job.evs[i], job.witnessQuorum);
    }
    var last := |job.evs| - 1;
    assert job.evs[0].records == [Raw(records[genesis.epoch + 0])];
    assert job.evs[last].records == [Raw(records[genesis.epoch + last])];
  }

  lemma LinkedIdentity(cfg: Naive, genesis: Position, evs: seq<Evidence>, i: nat)
    requires i < |evs| && LinkedAt(genesis, evs, i) && StreamOf(evs[0]) == cfg.StreamId()
    ensures evs[i].checkpoint.clientId == cfg.client && evs[i].checkpoint.topic == cfg.topic
    ensures evs[i].checkpoint.epoch == genesis.epoch + i
  {
    StreamIdInjective(evs[i].checkpoint.clientId, evs[i].checkpoint.topic, cfg.client, cfg.topic);
  }

  /** The auditor rebuilds the message that was signed, under the arm's key. */
  lemma OwnMessage(cfg: Naive, records: seq<Record>, e: nat, auth: PublisherAuth)
    requires e < |records| && Signable(cfg, e, records[e]) && auth.publicKey == cfg.publicKey
    ensures NaiveMessage(cfg.c, auth, Item(cfg, records, e), Raw(records[e])) == MessageOf(cfg, e, records[e])
  {
    hide RecordBytes, WireBody, SignedEnvelope, SerializeEnvelope;
    RawIsDecoded(records[e]);
  }

  /** The arm's own items are genuine where the registry holds the arm's key for the stream. */
  lemma OwnItemsAreGenuine(cfg: Naive, reg: Registry, records: seq<Record>)
    requires AllSignable(cfg, records)
    requires forall auth :: auth in reg.publishers ==> auth.publicKey == cfg.publicKey
    ensures NothingForged(cfg, reg, records, Items(cfg, records, |records|))
  {
    hide NaiveSigned, NaiveMessage, Raw, MessageOf, SignatureOf, AnchorOf, Signs, WireOf;
    var evs := Items(cfg, records, |records|);
    forall e | 0 <= e < |evs| ensures Genuine(cfg, reg, records, evs[e]) {
      forall auth | auth in reg.publishers {
        OwnMessage(cfg, records, e, auth);
      }
    }
  }

  /** The two results on A1 meet: a run's own evidence has every hypothesis of `VerifiedWasSent`. */
  lemma RunShowsItself(cfg: Naive, records: seq<Record>, validUntil: Option<real>, auditTime: real, inputs: set<Bytes>)
    requires records != [] && AllSignable(cfg, records) && InOrder(cfg, records) && GoodHashes(cfg, records, inputs)
    requires SignsCorrectly(cfg.c, cfg.publicKey, MlDsa65)
    requires validUntil.Some? ==> auditTime <= validUntil.value
    ensures var evs := Items(cfg, records, |records|);
      var job := Job(evs, A1, Some(RegistryFor(evs, A1, MlDsa65, None)),
                     Some(AnchorsForGenerated(evs, validUntil).value), auditTime, None);
      && job.Verified(cfg.c) && StreamOf(job.evs[0]) == cfg.StreamId()
      && NothingForged(cfg, job.registry.value, records, job.evs)
  {
    hide AllSignable, InOrder, GoodHashes, NothingForged, Raw, SignatureOf, AnchorOf, RegistryFor, StreamVerified;
    var evs := Items(cfg, records, |records|);
    RunIsUndecided(cfg, records, validUntil, auditTime, inputs);
    RegistryOfItems(cfg, records);
    OwnItemsAreGenuine(cfg, RegistryFor(evs, A1, MlDsa65, None), records);
  }
}
