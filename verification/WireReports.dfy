/** What the subscriber answers to an altered payload, and to an authentic one out of turn. */
module WireReports {
  import opened Prelude
  import opened Bytes
  import opened Text
  import opened Codec
  import opened Wire
  import opened WireVerifier

  // ---- Out of turn ----

  /** The answer to an authentic payload after any run, from the identities accepted so far. */
  lemma OutOfTurn(sub: Subscriber, before: seq<Bytes>, id: Identity)
    ensures var ids, answer := Identities(Kept(sub, before)), AdmissionVerdict(ViewAfter(sub, before), id);
      && (answer == REPLAY_DUPLICATE <==> id in ids)
      && (answer == EPOCH_ROLLBACK <==> id !in ids && ids != [] && id.0 < ids[|ids| - 1].0)
      && (answer == EPOCH_JUMP <==> id !in ids && ids != [] && id.0 > ids[|ids| - 1].0 + 1)
      && (answer == VALID <==>
            id !in ids && (ids != [] ==> id.0 == ids[|ids| - 1].0 || id.0 == ids[|ids| - 1].0 + 1))
  {
    hide Identities, Kept, ViewAfter, Orderly;
    AcceptedAreOrderly(sub, before);
  }

  /** In particular no payload is accepted twice, whatever came in between. */
  lemma SecondTimeIsReplay(sub: Subscriber, before: seq<Bytes>, p: Bytes, between: seq<Bytes>)
    requires Accepts(sub, ViewAfter(sub, before), p)
    ensures AdmissionVerdict(ViewAfter(sub, before + [p] + between), IdentityOf(p)) == REPLAY_DUPLICATE
  {
    hide Accepts, IdentityOf;
    StaysSeen(sub, before, p, between);
  }

  lemma {:induction false} StaysSeen(sub: Subscriber, before: seq<Bytes>, p: Bytes, between: seq<Bytes>)
    requires Accepts(sub, ViewAfter(sub, before), p)
    ensures IdentityOf(p) in ViewAfter(sub, before + [p] + between).seen
  {
    hide Accepts, IdentityOf;
    var all := before + [p] + between;
    if between == [] {
      assert all[..|all| - 1] == before;
    } else {
      var n := |between| - 1;
      StaysSeen(sub, before, p, between[..n]);
      assert all[..|all| - 1] == before + [p] + between[..n];
    }
  }

  // ---- Altered payloads ----

  /** Which code each single change to an authentic envelope gets. */
  lemma AlteredEnvelope(sub: Subscriber, payload: Bytes, altered: Bytes)
    requires Authentic(sub, payload) && DecodedEnvelope(altered).Some?
    ensures var e, f, answer := DecodedEnvelope(payload).value, DecodedEnvelope(altered).value,
                                PayloadVerdict(sub, altered);
      && (f != e && f == e.(authKind := f.authKind) ==> answer == AUTH_KIND_MISMATCH)
      && (f != e && f == e.(algorithm := f.algorithm) ==> answer == ALGORITHM_MISMATCH)
      && (f != e && f == e.(keyId := f.keyId) ==> answer == KEY_ID_MISMATCH)
      && (f != e && f == e.(sessionId := f.sessionId) ==> answer == SESSION_ID_MISMATCH)
      && (f != e && f == e.(seqNo := f.seqNo) ==> answer == SEQUENCE_BINDING_MISMATCH)
      && (f == e.(record := f.record) && DeserializedRecord(f.record).None? ==> answer == RECORD_MALFORMED)
  {
    hide DecodedEnvelope, DeserializedRecord, TagHolds, TagVerdict;
  }

  /** A different record under the same number: another topic is named, anything else is left to the tag. */
  lemma AlteredRecord(sub: Subscriber, payload: Bytes, altered: Bytes, r: Record)
    requires Authentic(sub, payload) && DecodedEnvelope(altered).Some?
    requires var e, f := DecodedEnvelope(payload).value, DecodedEnvelope(altered).value;
      f == e.(record := f.record) && DeserializedRecord(f.record) == Some(r) && r.seqNo == e.seqNo
    ensures sub.expectedTopic.Some? && r.topic != sub.expectedTopic.value ==>
      PayloadVerdict(sub, altered) == TOPIC_MISMATCH
    ensures sub.expectedTopic.None? || r.topic == sub.expectedTopic.value ==>
      PayloadVerdict(sub, altered) == TagVerdict(sub, DecodedEnvelope(altered).value)
  {
    hide DecodedEnvelope, DeserializedRecord, TagHolds, TagVerdict;
  }

  /** What parses as no envelope is malformed. */
  lemma Unreadable(sub: Subscriber, payload: Bytes)
    requires DecodedEnvelope(payload).None?
    ensures PayloadVerdict(sub, payload) == WIRE_MALFORMED
  {
    hide DecodedEnvelope;
  }

  /** What the tag check answers to an envelope that is addressed to the subscriber. */
  lemma TagReports(sub: Subscriber, payload: Bytes)
    requires DecodedEnvelope(payload).Some? && Addressed(sub, DecodedEnvelope(payload).value)
    ensures var e, answer := DecodedEnvelope(payload).value, PayloadVerdict(sub, payload);
      if sub.authKind == WIRE_AUTH_MAC then
        if sub.algorithm != Literal("HMAC-SHA256") || sub.macKey.None? then answer == MAC_KEY_UNAVAILABLE
        else if e.keyId == [] then answer == RAISED
        else
          && UnsignedBytes(e).Ok?
          && answer == if e.authenticator == sub.c.mac(sub.macKey.value, UnsignedBytes(e).value) then VALID
                       else AUTHENTICATOR_INVALID
      else if sub.publicKey.None? then answer == PUBLIC_KEY_UNAVAILABLE
      else
        answer == if UnsignedBytes(e).Ok?
                     && sub.c.verify(sub.publicKey.value, UnsignedBytes(e).value, e.authenticator, sub.scheme)
                  then VALID else AUTHENTICATOR_INVALID
  {
    hide WireBody, EnvelopeBytes, DeserializedRecord;
    assert Literal("HMAC-SHA256") != [];
  }
}
