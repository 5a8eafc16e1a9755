/** The subscriber's stateful check of wire envelopes, over whole runs of payloads. */
module WireVerifier {
  import opened Prelude
  import opened Bytes
  import opened Text
  import opened Crypto
  import opened Codec
  import opened Wire

  /** How a subscriber is configured; `scheme` is the library algorithm that `algorithm` names. */
  datatype Subscriber = Subscriber(
    c: Crypto, authKind: int, algorithm: Text, keyId: Text, sessionId: Text, macKey: Option<Bytes>,
    publicKey: Option<Bytes>, scheme: Scheme, expectedTopic: Option<Text>)

  datatype Verdict =
    | VALID | WIRE_MALFORMED | AUTH_KIND_MISMATCH | ALGORITHM_MISMATCH | KEY_ID_MISMATCH | SESSION_ID_MISMATCH
    | RECORD_MALFORMED | SEQUENCE_BINDING_MISMATCH | TOPIC_MISMATCH | MAC_KEY_UNAVAILABLE | PUBLIC_KEY_UNAVAILABLE
    | AUTHENTICATOR_INVALID | REPLAY_DUPLICATE | EPOCH_ROLLBACK | EPOCH_JUMP
    | RAISED

  /** Epoch and number of a message. */
  type Identity = (int, int)

  /** What a subscriber remembers. */
  datatype View = View(seen: set<Identity>, maxEpoch: Option<int>)

  const FRESH := View({}, None)

  // ---- One payload ----

  /** The tag authenticates the body, for the configured kind. */
  predicate TagHolds(sub: Subscriber, e: Envelope) {
    var body := UnsignedBytes(e);
    && body.Ok?
    && if sub.authKind == WIRE_AUTH_MAC then
         sub.macKey.Some? && sub.algorithm == MacName() && e.authenticator == sub.c.mac(sub.macKey.value, body.value)
       else
         sub.publicKey.Some? && sub.c.verify(sub.publicKey.value, body.value, e.authenticator, sub.scheme)
  }

  function MacName(): (name: Text) {
    AsciiIsUtf8(Literal("HMAC-SHA256"));
    Literal("HMAC-SHA256")
  }

  /** The envelope names the subscriber's session and carries a record with its number and the expected topic. */
  ghost predicate Addressed(sub: Subscriber, e: Envelope) {
    && e.authKind == sub.authKind && e.algorithm == sub.algorithm && e.keyId == sub.keyId
    && e.sessionId == sub.sessionId
    && var r := DeserializedRecord(e.record);
    r.Some? && r.value.seqNo == e.seqNo && (sub.expectedTopic.Some? ==> r.value.topic == sub.expectedTopic.value)
  }

  /** An authentic payload: well-formed, addressed to this subscriber, with a tag that holds. */
  ghost predicate Authentic(sub: Subscriber, payload: Bytes) {
    var e := DecodedEnvelope(payload);
    e.Some? && Addressed(sub, e.value) && TagHolds(sub, e.value)
  }

  ghost function IdentityOf(payload: Bytes): Identity {
    var e := DecodedEnvelope(payload);
    if e.Some? then (e.value.epoch, e.value.seqNo) else (0, 0)
  }

  /** Not seen before, and in the current epoch or the next. */
  predicate Admits(v: View, id: Identity) {
    id !in v.seen && (v.maxEpoch.Some? ==> v.maxEpoch.value <= id.0 <= v.maxEpoch.value + 1)
  }

  ghost predicate Accepts(sub: Subscriber, v: View, payload: Bytes) {
    Authentic(sub, payload) && Admits(v, IdentityOf(payload))
  }

  /** The refusal that an authentic identity meets, in the order of the checks. */
  function AdmissionVerdict(v: View, id: Identity): (verdict: Verdict)
    ensures verdict == VALID <==> Admits(v, id)
  {
    if id in v.seen then REPLAY_DUPLICATE
    else if v.maxEpoch.Some? && id.0 < v.maxEpoch.value then EPOCH_ROLLBACK
    else if v.maxEpoch.Some? && id.0 > v.maxEpoch.value + 1 then EPOCH_JUMP
    else VALID
  }

  function Remember(v: View, id: Identity): View {
    View(v.seen + {id}, Some(if v.maxEpoch.Some? && v.maxEpoch.value > id.0 then v.maxEpoch.value else id.0))
  }

  ghost function Next(sub: Subscriber, v: View, payload: Bytes): View {
    if Accepts(sub, v, payload) then Remember(v, IdentityOf(payload)) else v
  }

  /** The first check an envelope fails before its tag. */
  ghost function AddressVerdict(sub: Subscriber, e: Envelope): (verdict: Verdict)
    ensures verdict == VALID <==> Addressed(sub, e)
  {
    var r := DeserializedRecord(e.record);
    if e.authKind != sub.authKind then AUTH_KIND_MISMATCH
    else if e.algorithm != sub.algorithm then ALGORITHM_MISMATCH
    else if e.keyId != sub.keyId then KEY_ID_MISMATCH
    else if e.sessionId != sub.sessionId then SESSION_ID_MISMATCH
    else if r.None? then RECORD_MALFORMED
    else if r.value.seqNo != e.seqNo then SEQUENCE_BINDING_MISMATCH
    else if sub.expectedTopic.Some? && r.value.topic != sub.expectedTopic.value then TOPIC_MISMATCH
    else VALID
  }

  /** What the tag check answers; a MAC subscriber with an empty key id cannot form the body and raises. */
  function TagVerdict(sub: Subscriber, e: Envelope): (verdict: Verdict)
    ensures verdict == VALID <==> TagHolds(sub, e)
  {
    if TagHolds(sub, e) then VALID
    else if sub.authKind == WIRE_AUTH_MAC then
      if sub.algorithm != MacName() || sub.macKey.None? then MAC_KEY_UNAVAILABLE
      else if UnsignedBytes(e).Raised? then RAISED
      else AUTHENTICATOR_INVALID
    else if sub.publicKey.None? then PUBLIC_KEY_UNAVAILABLE
    else AUTHENTICATOR_INVALID
  }

  /** The first check a payload fails that does not depend on earlier payloads. */
  ghost function PayloadVerdict(sub: Subscriber, payload: Bytes): (verdict: Verdict)
    ensures verdict == VALID <==> Authentic(sub, payload)
  {
    var e := DecodedEnvelope(payload);
    if e.None? then WIRE_MALFORMED
    else if !Addressed(sub, e.value) then AddressVerdict(sub, e.value)
    else TagVerdict(sub, e.value)
  }

  /**
   * When `verify` lets an exception escape: exactly for a MAC subscriber with an empty key id, on a payload that is
   * addressed to it.
   */
  lemma RaisesExactly(sub: Subscriber, payload: Bytes)
    ensures PayloadVerdict(sub, payload) == RAISED <==>
      (DecodedEnvelope(payload).Some? && Addressed(sub, DecodedEnvelope(payload).value)
       && sub.authKind == WIRE_AUTH_MAC && sub.algorithm == MacName() && sub.macKey.Some? && sub.keyId == [])
  {
    hide WireBody, EnvelopeBytes, DeserializedRecord, MacName;
    assert MacName() != [] by { MacNameIsNotEmpty(); }
  }

  lemma MacNameIsNotEmpty()
    ensures MacName() != []
  {}

  /** One such subscriber ... */
  function NamelessSubscriber(c: Crypto, macKey: Bytes): Subscriber {
    Subscriber(c, WIRE_AUTH_MAC, MacName(), [], [], Some(macKey), None, MlDsa65, None)
  }

  /** ... and one such payload: record 1 with empty topic and payload, under an empty key id. */
  function NamelessEnvelope(): Envelope {
    Envelope(WIRE_VERSION, WIRE_AUTH_MAC, MacName(), [], [], 0, 1, RecordBytes(NamelessRecord()), [])
  }

  function NamelessRecord(): (r: Record)
    ensures RecordFits(r) && Finite(r.ts)
  {
    Record(1, [0, 0, 0, 0, 0, 0, 0, 0], [], [])
  }

  lemma NamelessFits()
    ensures EnvelopeFits(NamelessEnvelope())
  {
    assert |NamelessEnvelope().record| == 18;
  }

  lemma NamelessIsAddressed(c: Crypto, macKey: Bytes)
    ensures Addressed(NamelessSubscriber(c, macKey), NamelessEnvelope())
  {
    hide RecordBytes, MacName, DeserializedRecord;
    SerializedIsDeserialized(NamelessRecord());
  }

  lemma NamelessIsDecoded()
    requires EnvelopeFits(NamelessEnvelope())
    ensures DecodedEnvelope(EnvelopeBytes(NamelessEnvelope())) == Some(NamelessEnvelope())
  {
    var e := NamelessEnvelope();
    assert e.version == WIRE_VERSION && Ascii(e.algorithm) && e.keyId == [] && e.sessionId == [];
    hide NamelessEnvelope, EnvelopeBytes, EnvelopeLayout, DecodedEnvelope;
    EnvelopeHasLayout(e);
    Wire.LayoutIsDecoded(EnvelopeBytes(e), e);
  }

  lemma NamelessPayloadRaises(c: Crypto, macKey: Bytes)
    ensures EnvelopeFits(NamelessEnvelope())
    ensures PayloadVerdict(NamelessSubscriber(c, macKey), EnvelopeBytes(NamelessEnvelope())) == RAISED
  {
    NamelessFits();
    NamelessIsDecoded();
    NamelessIsAddressed(c, macKey);
    hide EnvelopeBytes, EnvelopeFits, Addressed, MacName, PayloadVerdict, NamelessEnvelope, DecodedEnvelope;
    RaisesExactly(NamelessSubscriber(c, macKey), EnvelopeBytes(NamelessEnvelope()));
  }

  // ---- The verifier object ----

  class WireEnvelopeVerifier {
    const sub: Subscriber
    var seen: set<Identity>
    var maxEpoch: Option<int>

    function Memory(): View
      reads this
    {
      View(seen, maxEpoch)
    }

    constructor (sub: Subscriber)
      ensures this.sub == sub && Memory() == FRESH
    {
      this.sub := sub;
      seen, maxEpoch := {}, None;
    }

    /** The checks up to the record and its binding to the envelope. */
    method CheckAddress(e: Envelope) returns (verdict: Verdict)
      ensures verdict == AddressVerdict(sub, e)
    {
      if e.authKind != sub.authKind { return AUTH_KIND_MISMATCH; }
      if e.algorithm != sub.algorithm { return ALGORITHM_MISMATCH; }
      if e.keyId != sub.keyId { return KEY_ID_MISMATCH; }
      if e.sessionId != sub.sessionId { return SESSION_ID_MISMATCH; }
      var record := DeserializeRecord(e.record);
      if record.None? { return RECORD_MALFORMED; }
      if record.value.seqNo != e.seqNo { return SEQUENCE_BINDING_MISMATCH; }
      if sub.expectedTopic.Some? && record.value.topic != sub.expectedTopic.value { return TOPIC_MISMATCH; }
      verdict := VALID;
    }

    /** The authenticator. */
    method CheckTag(e: Envelope) returns (verdict: Verdict)
      ensures verdict == TagVerdict(sub, e)
    {
      var body := UnsignedBytes(e);
      if sub.authKind == WIRE_AUTH_MAC {
        if sub.algorithm != MacName() || sub.macKey.None? { return MAC_KEY_UNAVAILABLE; }
        if body.Raised? { return RAISED; }
        if sub.c.mac(sub.macKey.value, body.value) != e.authenticator { return AUTHENTICATOR_INVALID; }
      } else {
        if sub.publicKey.None? { return PUBLIC_KEY_UNAVAILABLE; }
        if body.Raised? || !sub.c.verify(sub.publicKey.value, body.value, e.authenticator, sub.scheme) {
          return AUTHENTICATOR_INVALID;
        }
      }
      verdict := VALID;
    }

    /** Everything that does not depend on earlier payloads. */
    method Inspect(payload: Bytes) returns (verdict: Verdict, id: Identity)
      ensures verdict == PayloadVerdict(sub, payload)
      ensures verdict == VALID ==> id == IdentityOf(payload)
    {
      hide Addressed, TagHolds, DecodedEnvelope;
      var e := ParseEnvelope(payload);
      if e.None? { return WIRE_MALFORMED, (0, 0); }
      id := (e.value.epoch, e.value.seqNo);
      verdict := CheckAddress(e.value);
      if verdict == VALID {
        verdict := CheckTag(e.value);
      }
    }

    /** `verify`: accepts exactly what it should, and a refused payload leaves no trace. */
    method Verify(payload: Bytes) returns (verdict: Verdict)
      modifies this
      ensures verdict == VALID <==> Accepts(sub, old(Memory()), payload)
      ensures verdict == if Authentic(sub, payload) then AdmissionVerdict(old(Memory()), IdentityOf(payload))
                         else PayloadVerdict(sub, payload)
      ensures Memory() == Next(sub, old(Memory()), payload)
    {
      hide Authentic, IdentityOf;
      var id;
      verdict, id := Inspect(payload);
      if verdict != VALID { return; }
      if id in seen { return REPLAY_DUPLICATE; }
      if maxEpoch.Some? && id.0 < maxEpoch.value { return EPOCH_ROLLBACK; }
      if maxEpoch.Some? && id.0 > maxEpoch.value + 1 { return EPOCH_JUMP; }
      seen := seen + {id};
      maxEpoch := Some(if maxEpoch.None? || maxEpoch.value < id.0 then id.0 else maxEpoch.value);
    }
  }

  // ---- Runs ----

  ghost function ViewAfter(sub: Subscriber, payloads: seq<Bytes>): View {
    if payloads == [] then FRESH
    else Next(sub, ViewAfter(sub, payloads[..|payloads| - 1]), payloads[|payloads| - 1])
  }

  /** The payloads of a run that are accepted, in order. */
  ghost function Kept(sub: Subscriber, payloads: seq<Bytes>): seq<Bytes> {
    if payloads == [] then []
    else
      var n := |payloads| - 1;
      Kept(sub, payloads[..n])
      + if Accepts(sub, ViewAfter(sub, payloads[..n]), payloads[n]) then [payloads[n]] else []
  }

  ghost function Identities(payloads: seq<Bytes>): seq<Identity> {
    seq(|payloads|, i requires 0 <= i < |payloads| => IdentityOf(payloads[i]))
  }

  lemma IdentitiesSnoc(payloads: seq<Bytes>, p: Bytes)
    ensures Identities(payloads + [p]) == Identities(payloads) + [IdentityOf(p)]
  {}

  /** No identity twice; epochs never fall and never skip. */
  ghost predicate Orderly(ids: seq<Identity>) {
    && Distinct(ids)
    && forall i :: 0 <= i < |ids| - 1 ==> ids[i].0 <= ids[i + 1].0 <= ids[i].0 + 1
  }

  /** The memory is exactly the accepted identities and the last epoch. */
  ghost predicate Remembers(v: View, ids: seq<Identity>) {
    && (forall id :: id in v.seen <==> id in ids)
    && v.maxEpoch == if ids == [] then None else Some(ids[|ids| - 1].0)
  }

  lemma OrderlySnoc(ids: seq<Identity>, id: Identity)
    requires Orderly(ids)
    ensures Orderly(ids + [id]) <==> id !in ids && (ids != [] ==> ids[|ids| - 1].0 <= id.0 <= ids[|ids| - 1].0 + 1)
  {
    var more := ids + [id];
    assert more[|ids|] == id && forall i :: 0 <= i < |ids| ==> more[i] == ids[i];
    if Orderly(more) {
      forall i | 0 <= i < |ids| ensures ids[i] != id { assert more[i] != more[|ids|]; }
      if ids != [] {
        assert more[|ids| - 1].0 <= more[|ids| - 1 + 1].0;
      }
    }
  }

  /** Over every run of payloads: what is accepted has no repetition and walks forward one epoch at a time. */
  lemma {:induction false} AcceptedAreOrderly(sub: Subscriber, payloads: seq<Bytes>)
    ensures Orderly(Identities(Kept(sub, payloads)))
    ensures Remembers(ViewAfter(sub, payloads), Identities(Kept(sub, payloads)))
  {
    hide Authentic, IdentityOf, Orderly;
    if payloads == [] {
      assert Orderly([]) by { NothingIsOrderly(); }
    } else {
      var n := |payloads| - 1;
      AcceptedAreOrderly(sub, payloads[..n]);
      var kept, ids := Kept(sub, payloads[..n]), Identities(Kept(sub, payloads[..n]));
      if Accepts(sub, ViewAfter(sub, payloads[..n]), payloads[n]) {
        IdentitiesSnoc(kept, payloads[n]);
        OrderlySnoc(ids, IdentityOf(payloads[n]));
      } else {
        assert kept + [] == kept;
      }
    }
  }

  lemma NothingIsOrderly()
    ensures Orderly([])
  {}

  /** Every epoch between the first and the last accepted one was accepted: the epochs form an interval. */
  lemma {:induction false} EpochsFormInterval(ids: seq<Identity>, epoch: int) returns (k: nat)
    requires Orderly(ids) && ids != [] && ids[0].0 <= epoch <= ids[|ids| - 1].0
    ensures k < |ids| && ids[k].0 == epoch
    ensures forall i :: k < i < |ids| ==> epoch < ids[i].0
  {
    k := |ids| - 1;
    while ids[k].0 != epoch
      decreases k
      invariant 0 <= k < |ids| && epoch <= ids[k].0
      invariant forall i :: k < i < |ids| ==> epoch < ids[i].0
    {
      assert ids[k - 1].0 <= ids[k - 1 + 1].0 <= ids[k - 1].0 + 1;
      k := k - 1;
    }
  }

  /** Dropping every refused payload changes no verdict: what was accepted is accepted again. */
  lemma {:induction false} RefusedLeaveNoTrace(sub: Subscriber, payloads: seq<Bytes>)
    ensures ViewAfter(sub, Kept(sub, payloads)) == ViewAfter(sub, payloads)
    ensures Kept(sub, Kept(sub, payloads)) == Kept(sub, payloads)
  {
    hide Accepts;
    if payloads != [] {
      var n := |payloads| - 1;
      RefusedLeaveNoTrace(sub, payloads[..n]);
      var kept := Kept(sub, payloads[..n]);
      if Accepts(sub, ViewAfter(sub, payloads[..n]), payloads[n]) {
        assert (kept + [payloads[n]])[..|kept|] == kept;
      } else {
        assert kept + [] == kept;
      }
    }
  }

  /** Dropping one refused payload changes no later memory, hence no later verdict, its reason included. */
  lemma {:induction false} RefusedIsInvisible(sub: Subscriber, before: seq<Bytes>, p: Bytes, after: seq<Bytes>)
    requires !Accepts(sub, ViewAfter(sub, before), p)
    ensures ViewAfter(sub, before + [p] + after) == ViewAfter(sub, before + after)
  {
    hide Accepts;
    if after == [] {
      assert (before + [p] + after)[..|before|] == before && before + after == before;
    } else {
      var n := |after| - 1;
      RefusedIsInvisible(sub, before, p, after[..n]);
      var long, short := before + [p] + after, before + after;
      assert long[..|long| - 1] == before + [p] + after[..n] && short[..|short| - 1] == before + after[..n];
    }
  }

  /** Authentic payloads in orderly order are all accepted. */
  lemma {:induction false} OrderlyIsAccepted(sub: Subscriber, payloads: seq<Bytes>)
    requires forall i :: 0 <= i < |payloads| ==> Authentic(sub, payloads[i])
    requires Orderly(Identities(payloads))
    ensures Kept(sub, payloads) == payloads
  {
    hide Authentic, IdentityOf, Orderly;
    if payloads != [] {
      var n := |payloads| - 1;
      var front, last := payloads[..n], payloads[n];
      assert payloads == front + [last];
      IdentitiesSnoc(front, last);
      OrderlyPrefix(Identities(front), IdentityOf(last));
      OrderlyIsAccepted(sub, front);
      AcceptedAreOrderly(sub, front);
      OrderlySnoc(Identities(front), IdentityOf(last));
    }
  }

  lemma OrderlyPrefix(ids: seq<Identity>, id: Identity)
    requires Orderly(ids + [id])
    ensures Orderly(ids)
  {
    var more := ids + [id];
    forall i, j | 0 <= i < j < |ids| ensures ids[i] != ids[j] { assert more[i] != more[j]; }
    forall i | 0 <= i < |ids| - 1 ensures ids[i].0 <= ids[i + 1].0 <= ids[i].0 + 1 {
      assert more[i].0 <= more[i + 1].0 <= more[i].0 + 1;
    }
  }
}
