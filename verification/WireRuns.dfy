/** Honest wire messages meet the subscriber: everything sent is accepted once, nothing else is accepted. */
module WireRuns {
  import opened Prelude
  import opened Bytes
  import opened Text
  import opened Crypto
  import opened Codec
  import opened Wire
  import opened ItemAudit
  import opened WireVerifier
  import opened ArmSpec
  import opened RunInvariant
  import NaiveArm

  // ---- MAC arms ----

  /** The subscriber of a MAC arm's session. */
  function ArmSubscriber(cfg: Config, topic: Option<Text>): Subscriber {
    var fingerprint := cfg.c.hash(cfg.macKey);
    Subscriber(cfg.c, WIRE_AUTH_MAC, MacAlgorithm(), MacKeyId(fingerprint), MacSessionId(fingerprint), Some(cfg.macKey),
               None, MlDsa65, topic)
  }

  /** What the arm wrote in one wire message. */
  datatype Sent = Sent(epoch: nat, record: Record)

  ghost predicate IsMessage(cfg: Config, sent: Sent, payload: Bytes) {
    && SerializeRecord(sent.record).Ok?
    && WireMessage(cfg.c, cfg.macKey, sent.epoch, sent.record.seqNo, RecordBytes(sent.record)) == Ok(payload)
  }

  /** What a run sends, in order. */
  function Outbox(cfg: Config, seed: Bytes, calls: seq<Call>): seq<Sent> {
    if calls == [] then []
    else
      var n := |calls| - 1;
      var before := After(cfg, seed, calls[..n]);
      Outbox(cfg, seed, calls[..n])
      + if calls[n].AddRecord? && before.Ok? then [Sent(|before.value.sealed|, calls[n].record)] else []
  }

  ghost predicate Messages(cfg: Config, outbox: seq<Sent>, payloads: seq<Bytes>) {
    |outbox| == |payloads| && forall k :: 0 <= k < |payloads| ==> IsMessage(cfg, outbox[k], payloads[k])
  }

  /** Epochs in the outbox walk forward one at a time. */
  ghost predicate Walks(outbox: seq<Sent>) {
    forall k :: 0 <= k < |outbox| - 1 ==> outbox[k].epoch <= outbox[k + 1].epoch <= outbox[k].epoch + 1
  }

  /** The open batch, if any, belongs to the epoch of the last message; otherwise at most one seal came after it. */
  ghost predicate InEpoch(s: ArmState, outbox: seq<Sent>) {
    if outbox == [] then s.pending == []
    else
      var last := outbox[|outbox| - 1].epoch;
      last <= |s.sealed| <= last + 1 && (s.pending != [] ==> |s.sealed| == last)
  }

  lemma WalksSnoc(outbox: seq<Sent>, sent: Sent)
    requires Walks(outbox)
    requires outbox != [] ==> outbox[|outbox| - 1].epoch <= sent.epoch <= outbox[|outbox| - 1].epoch + 1
    ensures Walks(outbox + [sent])
  {
    var more := outbox + [sent];
    assert forall k :: 0 <= k < |outbox| ==> more[k] == outbox[k];
  }

  lemma StepSends(cfg: Config, s: ArmState, call: Call)
    requires call.AddRecord? && Perform(cfg, s, call).Ok?
    ensures var t := Perform(cfg, s, call).value;
      && |t.wire| == |s.wire| + 1 && t.wire[..|s.wire|] == s.wire
      && IsMessage(cfg, Sent(|s.sealed|, call.record), t.wire[|s.wire|])
      && (if t.pending == [] then |t.sealed| == |s.sealed| + 1 else |t.sealed| == |s.sealed|)
  {
    hide WireMessage, SealFits, SealedItem, RecordBytes;
  }

  lemma FlushSends(cfg: Config, s: ArmState, call: Call)
    requires call.FlushBatch? && Perform(cfg, s, call).Ok?
    ensures var t := Perform(cfg, s, call).value;
      t.wire == s.wire && t.pending == [] && |t.sealed| == |s.sealed| + if s.pending == [] then 0 else 1
  {
    hide SealFits, SealedItem;
  }

  lemma MessagesSnoc(cfg: Config, outbox: seq<Sent>, payloads: seq<Bytes>, sent: Sent, payload: Bytes)
    requires Messages(cfg, outbox, payloads) && IsMessage(cfg, sent, payload)
    ensures Messages(cfg, outbox + [sent], payloads + [payload])
  {
    hide IsMessage;
  }

  /** The wire carries the outbox, whose epochs walk forward up to the open one. */
  ghost predicate Flows(cfg: Config, s: ArmState, outbox: seq<Sent>) {
    Messages(cfg, outbox, s.wire) && Walks(outbox) && InEpoch(s, outbox)
  }

  lemma NothingFlows(cfg: Config, seed: Bytes)
    ensures Flows(cfg, InitialState(seed), [])
  {}

  lemma AddFlows(cfg: Config, s: ArmState, outbox: seq<Sent>, call: Call)
    requires Flows(cfg, s, outbox) && call.AddRecord? && Perform(cfg, s, call).Ok?
    ensures Flows(cfg, Perform(cfg, s, call).value, outbox + [Sent(|s.sealed|, call.record)])
  {
    hide Perform, IsMessage, Walks;
    StepSends(cfg, s, call);
    var t, sent := Perform(cfg, s, call).value, Sent(|s.sealed|, call.record);
    assert t.wire == s.wire + [t.wire[|s.wire|]];
    WalksSnoc(outbox, sent);
    MessagesSnoc(cfg, outbox, s.wire, sent, t.wire[|s.wire|]);
  }

  lemma FlushFlows(cfg: Config, s: ArmState, outbox: seq<Sent>, call: Call)
    requires Flows(cfg, s, outbox) && call.FlushBatch? && Perform(cfg, s, call).Ok?
    ensures Flows(cfg, Perform(cfg, s, call).value, outbox)
  {
    hide Perform, Messages, Walks;
    FlushSends(cfg, s, call);
  }

  /** Over every run: the wire carries one message per added record, and its epochs never skip or fall. */
  lemma {:induction false} RunSends(cfg: Config, seed: Bytes, calls: seq<Call>)
    requires After(cfg, seed, calls).Ok?
    ensures Flows(cfg, After(cfg, seed, calls).value, Outbox(cfg, seed, calls))
    ensures |Outbox(cfg, seed, calls)| == |Added(calls)|
    ensures forall k :: 0 <= k < |Added(calls)| ==> Outbox(cfg, seed, calls)[k].record == Added(calls)[k]
  {
    hide Perform, Flows;
    if calls == [] {
      NothingFlows(cfg, seed);
    } else {
      var n := |calls| - 1;
      RunSends(cfg, seed, calls[..n]);
      var s := After(cfg, seed, calls[..n]).value;
      if calls[n].AddRecord? {
        AddFlows(cfg, s, Outbox(cfg, seed, calls[..n]), calls[n]);
      } else {
        FlushFlows(cfg, s, Outbox(cfg, seed, calls[..n]), calls[n]);
        assert Outbox(cfg, seed, calls) == Outbox(cfg, seed, calls[..n]);
      }
    }
  }

  /** The message is the encoding of the envelope with its tag. */
  lemma MessageDecodes(cfg: Config, sent: Sent, payload: Bytes) returns (e: Envelope)
    requires IsMessage(cfg, sent, payload)
    ensures UnsignedBytes(e).Ok? && DecodedEnvelope(payload) == Some(e)
    ensures e == MacEnvelope(cfg.c, cfg.macKey, sent.epoch, sent.record.seqNo, RecordBytes(sent.record))
                   .(authenticator := cfg.c.mac(cfg.macKey, UnsignedBytes(e).value))
  {
    hide WireBody, EnvelopeBytes, DecodedEnvelope, RecordBytes, HeaderFits, MacKeyId, MacSessionId, MacAlgorithm;
    var bare := MacEnvelope(cfg.c, cfg.macKey, sent.epoch, sent.record.seqNo, RecordBytes(sent.record));
    e := bare.(authenticator := cfg.c.mac(cfg.macKey, UnsignedBytes(bare).value));
    SameBody(bare, e);
    EnvelopeRoundTrip(e);
  }

  lemma SameBody(a: Envelope, b: Envelope)
    requires b == a.(authenticator := b.authenticator)
    ensures UnsignedBytes(a) == UnsignedBytes(b)
  {}

  lemma MessageIsAuthentic(cfg: Config, topic: Option<Text>, sent: Sent, payload: Bytes)
    requires IsMessage(cfg, sent, payload) && (topic.Some? ==> sent.record.topic == topic.value)
    ensures Authentic(ArmSubscriber(cfg, topic), payload)
    ensures IdentityOf(payload) == (sent.epoch, sent.record.seqNo)
  {
    hide WireBody, HeaderFits, DecodedEnvelope, RecordBytes, MacKeyId, MacSessionId;
    var e := MessageDecodes(cfg, sent, payload);
    SerializedIsDeserialized(sent.record);
  }

  /**
   * Every run of a MAC arm whose records have different numbers is received in full: its subscriber accepts each
   * wire message, in order.
   */
  lemma RunIsReceived(cfg: Config, seed: Bytes, calls: seq<Call>, topic: Option<Text>)
    requires After(cfg, seed, calls).Ok?
    requires forall i, j :: 0 <= i < j < |Added(calls)| ==> Added(calls)[i].seqNo != Added(calls)[j].seqNo
    requires topic.Some? ==> forall i :: 0 <= i < |Added(calls)| ==> Added(calls)[i].topic == topic.value
    ensures var wire := After(cfg, seed, calls).value.wire;
      Kept(ArmSubscriber(cfg, topic), wire) == wire && |wire| == |Added(calls)|
  {
    hide After, Authentic, IsMessage, Kept, ArmSubscriber;
    var wire, outbox := After(cfg, seed, calls).value.wire, Outbox(cfg, seed, calls);
    RunSends(cfg, seed, calls);
    forall k | 0 <= k < |wire|
      ensures Authentic(ArmSubscriber(cfg, topic), wire[k])
        && IdentityOf(wire[k]) == (outbox[k].epoch, outbox[k].record.seqNo)
    {
      MessageIsAuthentic(cfg, topic, outbox[k], wire[k]);
    }
    assert Orderly(Identities(wire));
    OrderlyIsAccepted(ArmSubscriber(cfg, topic), wire);
  }

  // ---- Nothing else is accepted ----

  /** Every tag that holds on a presented payload is one the arm made. */
  ghost predicate Unforged(cfg: Config, outbox: seq<Sent>, payload: Bytes) {
    var e := DecodedEnvelope(payload);
    (e.Some? && UnsignedBytes(e.value).Ok?
     && e.value.authenticator == cfg.c.mac(cfg.macKey, UnsignedBytes(e.value).value))
    ==> exists k :: 0 <= k < |outbox| && Bare(cfg, outbox[k], UnsignedBytes(e.value))
  }

  /** The body is the one authenticated for this message. */
  predicate Bare(cfg: Config, sent: Sent, body: Outcome<Bytes>) {
    body.Ok? && RecordFits(sent.record)
    && UnsignedBytes(MacEnvelope(cfg.c, cfg.macKey, sent.epoch, sent.record.seqNo, RecordBytes(sent.record))) == body
  }

  lemma AuthenticIsTagged(cfg: Config, topic: Option<Text>, payload: Bytes)
    requires Authentic(ArmSubscriber(cfg, topic), payload)
    ensures var e := DecodedEnvelope(payload);
      && e.Some? && UnsignedBytes(e.value).Ok? && IsEnvelope(payload, e.value)
      && e.value.authenticator == cfg.c.mac(cfg.macKey, UnsignedBytes(e.value).value)
  {
    hide WireBody, HeaderFits, EnvelopeFits, EnvelopeBytes, MacKeyId, MacSessionId, MacAlgorithm, MacName, Addressed;
  }

  /** One tagged body, one payload. */
  lemma BodyPinsPayload(payload: Bytes, other: Bytes, a: Envelope, b: Envelope)
    requires IsEnvelope(payload, a) && IsEnvelope(other, b)
    requires UnsignedBytes(a).Ok? && UnsignedBytes(a) == UnsignedBytes(b) && a.authenticator == b.authenticator
    ensures payload == other
  {
    hide HeaderFits, WireBody;
    WireBodyInjective(a, b);
  }

  /**
   * Over any run of payloads from anywhere, if tags cannot be forged: each accepted payload is byte for byte one
   * of the arm's messages, and none is accepted twice.
   */
  lemma AcceptedIsSentOnce(cfg: Config, seed: Bytes, calls: seq<Call>, topic: Option<Text>, payloads: seq<Bytes>)
    requires After(cfg, seed, calls).Ok?
    requires forall i :: 0 <= i < |payloads| ==> Unforged(cfg, Outbox(cfg, seed, calls), payloads[i])
    ensures var kept := Kept(ArmSubscriber(cfg, topic), payloads);
      Distinct(kept) && forall i :: 0 <= i < |kept| ==> kept[i] in After(cfg, seed, calls).value.wire
  {
    hide After, Authentic, Unforged, IdentityOf, IsMessage;
    var sub, wire := ArmSubscriber(cfg, topic), After(cfg, seed, calls).value.wire;
    var kept := Kept(sub, payloads);
    RunSends(cfg, seed, calls);
    KeptAreAuthentic(sub, payloads);
    AcceptedAreOrderly(sub, payloads);
    forall i | 0 <= i < |kept| ensures kept[i] in wire {
      assert kept[i] in payloads;
      AuthenticWasSent(cfg, Outbox(cfg, seed, calls), wire, topic, kept[i]);
    }
    forall i, j | 0 <= i < j < |kept| ensures kept[i] != kept[j] {
      assert Identities(kept)[i] != Identities(kept)[j];
    }
  }

  lemma AuthenticWasSent(cfg: Config, outbox: seq<Sent>, wire: seq<Bytes>, topic: Option<Text>, payload: Bytes)
    requires Messages(cfg, outbox, wire) && Unforged(cfg, outbox, payload)
    requires Authentic(ArmSubscriber(cfg, topic), payload)
    ensures payload in wire
  {
    hide IsMessage, UnsignedBytes, DecodedEnvelope, ArmSubscriber, RecordBytes, MacEnvelope, Authentic, IsEnvelope;
    AuthenticIsTagged(cfg, topic, payload);
    var e := DecodedEnvelope(payload).value;
    var k :| 0 <= k < |outbox| && Bare(cfg, outbox[k], UnsignedBytes(e));
    assert IsMessage(cfg, outbox[k], wire[k]);
    var sent := MessageDecodes(cfg, outbox[k], wire[k]);
    assert IsEnvelope(wire[k], sent) by { DecodedIsEnvelope(wire[k]); }
    var record := outbox[k].record;
    SameBody(MacEnvelope(cfg.c, cfg.macKey, outbox[k].epoch, record.seqNo, RecordBytes(record)), sent);
    BodyPinsPayload(payload, wire[k], e, sent);
  }

  lemma DecodedIsEnvelope(payload: Bytes)
    requires DecodedEnvelope(payload).Some?
    ensures IsEnvelope(payload, DecodedEnvelope(payload).value)
  {}

  lemma {:induction false} KeptAreAuthentic(sub: Subscriber, payloads: seq<Bytes>)
    ensures forall p :: p in Kept(sub, payloads) ==> p in payloads && Authentic(sub, p)
  {
    hide Authentic;
    if payloads != [] {
      KeptAreAuthentic(sub, payloads[..|payloads| - 1]);
    }
  }

  // ---- The signing arm ----

  /** The subscriber of an A1 arm. */
  function SignatureSubscriber(cfg: NaiveArm.Naive, topic: Option<Text>): Subscriber {
    var e := SignedEnvelope(cfg.c, cfg.publicKey, 0, 0, []);
    Subscriber(cfg.c, WIRE_AUTH_SIGNATURE, e.algorithm, e.keyId, [], None, Some(cfg.publicKey), MlDsa65, topic)
  }

  lemma SignedMessageIsAuthentic(cfg: NaiveArm.Naive, topic: Option<Text>, j: nat, r: Record, payload: Bytes)
    requires NaiveArm.Signable(cfg, j, r) && NaiveArm.WireOf(cfg, j, r) == Ok(payload)
    requires SignsCorrectly(cfg.c, cfg.publicKey, MlDsa65) && (topic.Some? ==> r.topic == topic.value)
    ensures Authentic(SignatureSubscriber(cfg, topic), payload) && IdentityOf(payload) == (j, r.seqNo)
  {
    hide WireBody, HeaderFits, DecodedEnvelope, RecordBytes, EnvelopeBytes;
    var bare := NaiveArm.EnvelopeOf(cfg, j, r);
    var e := bare.(authenticator := NaiveArm.SignatureOf(cfg, j, r));
    SameBody(bare, e);
    EnvelopeRoundTrip(e);
    SerializedIsDeserialized(r);
  }

  /** An A1 arm's wire messages are all accepted, in order: its epochs count the records. */
  lemma SignedRunIsReceived(cfg: NaiveArm.Naive, records: seq<Record>, wire: seq<Bytes>, topic: Option<Text>)
    requires NaiveArm.AllSignable(cfg, records) && |wire| == |records|
    requires forall j :: 0 <= j < |records| ==> Ok(wire[j]) == NaiveArm.WireOf(cfg, j, records[j])
    requires SignsCorrectly(cfg.c, cfg.publicKey, MlDsa65)
    requires topic.Some? ==> forall j :: 0 <= j < |records| ==> records[j].topic == topic.value
    ensures Kept(SignatureSubscriber(cfg, topic), wire) == wire
  {
    hide Authentic, IdentityOf, Kept, NaiveArm.WireOf, NaiveArm.Signable, SignatureSubscriber;
    forall j | 0 <= j < |wire|
      ensures Authentic(SignatureSubscriber(cfg, topic), wire[j]) && IdentityOf(wire[j]) == (j, records[j].seqNo)
    {
      SignedMessageIsAuthentic(cfg, topic, j, records[j], wire[j]);
    }
    assert Orderly(Identities(wire));
    OrderlyIsAccepted(SignatureSubscriber(cfg, topic), wire);
  }
}
