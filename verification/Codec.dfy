/** The byte formats of aapa_mqtt.py: records, checkpoint and witness bodies, wire envelopes. */
module Codec {
  import opened Prelude
  import opened Bytes
  import opened Text
  import opened Fields

  // ---- Records ----

  datatype Record = Record(seqNo: int, ts: Double, topic: Text, payload: Bytes)

  /** Every length and number fits its field. */
  predicate RecordFits(r: Record) {
    0 <= r.seqNo <= MAX_U32 && |r.topic| <= MAX_U16 && |r.payload| <= MAX_U32
  }

  function RecordBytes(r: Record): Bytes
    requires RecordFits(r)
  {
    U32(r.seqNo) + r.ts + U16(|r.topic|) + r.topic + U32(|r.payload|) + r.payload
  }

  /** `Record.serialize`: also refuses a non-finite timestamp. */
  function SerializeRecord(r: Record): Outcome<Bytes> {
    if RecordFits(r) && Finite(r.ts) then Ok(RecordBytes(r)) else Raised
  }

  /** The serialised record; empty where `serialize` refuses its fields. */
  function Raw(r: Record): Bytes { if RecordFits(r) then RecordBytes(r) else [] }

  predicate IsRecord(raw: Bytes, r: Record) { RecordFits(r) && RecordBytes(r) == raw }

  /** Where the fields of an encoded record lie. */
  predicate RecordLayout(raw: Bytes, r: Record) {
    && |raw| == 18 + |r.topic| + |r.payload|
    && Number(raw[..4]) == r.seqNo
    && raw[4..12] == r.ts
    && Number(raw[12..14]) == |r.topic|
    && raw[14..14 + |r.topic|] == r.topic
    && Number(raw[14 + |r.topic|..18 + |r.topic|]) == |r.payload|
    && raw[18 + |r.topic|..] == r.payload
  }

  lemma RecordHasLayout(r: Record)
    requires RecordFits(r)
    ensures RecordLayout(RecordBytes(r), r)
  {
    FieldWidths();
    ReadField(r.seqNo, 4);
    ReadField(|r.topic|, 2);
    ReadField(|r.payload|, 4);
    hide Number, BigEndian;
    SixParts(U32(r.seqNo), r.ts, U16(|r.topic|), r.topic, U32(|r.payload|), r.payload);
  }

  /** The parts of a concatenation, read back by their positions. */
  lemma SixParts(a: Bytes, b: Bytes, c: Bytes, d: Bytes, e: Bytes, f: Bytes)
    ensures var all, i, j, k := a + b + c + d + e + f, |a| + |b|, |a| + |b| + |c|, |a| + |b| + |c| + |d|;
      && |all| == k + |e| + |f| && all[..|a|] == a && all[|a|..i] == b && all[i..j] == c && all[j..k] == d
      && all[k..k + |e|] == e && all[k + |e|..] == f
  {}

  /** The number comes first, most significant byte first. */
  lemma RecordStartsWithNumber(r: Record)
    requires RecordFits(r)
    ensures |RecordBytes(r)| == 18 + |r.topic| + |r.payload|
    ensures RecordBytes(r)[0] == r.seqNo / 0x100_0000 && RecordBytes(r)[1] == r.seqNo / 0x1_0000 % 256
    ensures RecordBytes(r)[2] == r.seqNo / 0x100 % 256 && RecordBytes(r)[3] == r.seqNo % 256
  {
    FieldWidths();
    assert Pow256(3) == 256 * Pow256(2) && Pow256(0) == 1;
    BigEndianAt(r.seqNo, 4, 0);
    BigEndianAt(r.seqNo, 4, 1);
    BigEndianAt(r.seqNo, 4, 2);
    BigEndianAt(r.seqNo, 4, 3);
    hide BigEndian;
    var rest := r.ts + U16(|r.topic|) + r.topic + U32(|r.payload|) + r.payload;
    assert RecordBytes(r) == U32(r.seqNo) + rest;
  }

  /** A byte string with a record's layout is that record's encoding. */
  lemma LayoutIsRecord(raw: Bytes, r: Record)
    requires RecordLayout(raw, r)
    ensures IsRecord(raw, r)
  {
    FieldWidths();
    var t := |r.topic|;
    hide Number, BigEndian;
    var a, b, c := raw[..4], raw[12..14], raw[14 + t..18 + t];
    BigEndianOfNumber(a);
    BigEndianOfNumber(b);
    BigEndianOfNumber(c);
    assert RecordFits(r);
    assert raw == a + raw[4..12] + b + raw[14..14 + t] + c + raw[18 + t..];
    assert U32(r.seqNo) == a && U16(t) == b && U32(|r.payload|) == c;
  }

  /** No byte string encodes two records. */
  lemma RecordBytesInjective(a: Record, b: Record)
    requires RecordFits(a) && RecordFits(b)
    requires RecordBytes(a) == RecordBytes(b)
    ensures a == b
  {
    RecordHasLayout(a);
    RecordHasLayout(b);
  }

  /** The record a byte string encodes, if any: what `parse_record` has to find. */
  ghost function DecodedRecord(raw: Bytes): (r: Option<Record>)
    ensures r.Some? ==> IsRecord(raw, r.value)
    ensures r.None? ==> forall x :: !IsRecord(raw, x)
  {
    if exists x :: IsRecord(raw, x) then var x :| IsRecord(raw, x); Some(x) else None
  }

  /** The record that serialises to a byte string, if any: what `Record.deserialize` has to find. */
  ghost function DeserializedRecord(raw: Bytes): (r: Option<Record>)
    ensures r.Some? ==> SerializeRecord(r.value) == Ok(raw)
    ensures r.None? ==> forall x :: SerializeRecord(x) != Ok(raw)
  {
    var d := DecodedRecord(raw);
    assert forall x :: IsRecord(raw, x) ==> d.Some? && x == d.value by {
      forall x | IsRecord(raw, x) ensures d.Some? && x == d.value { RecordBytesInjective(x, d.value); }
    }
    assert forall x :: SerializeRecord(x) == Ok(raw) ==> IsRecord(raw, x);
    if d.Some? && Finite(d.value.ts) then d else None
  }

  /** Fields found in place are the decoded record. */
  lemma LayoutIsDecoded(raw: Bytes, r: Record)
    requires RecordLayout(raw, r)
    ensures DecodedRecord(raw) == Some(r)
  {
    LayoutIsRecord(raw, r);
    RecordBytesInjective(r, DecodedRecord(raw).value);
  }

  lemma DecodedHasLayout(raw: Bytes)
    ensures DecodedRecord(raw).Some? ==> RecordLayout(raw, DecodedRecord(raw).value)
  {
    if DecodedRecord(raw).Some? {
      RecordHasLayout(DecodedRecord(raw).value);
    }
  }

  /** Reading back what was written. */
  lemma RecordRoundTrip(r: Record)
    requires RecordFits(r)
    ensures DecodedRecord(RecordBytes(r)) == Some(r)
  {
    RecordHasLayout(r);
    LayoutIsDecoded(RecordBytes(r), r);
  }

  /** And what `serialize` wrote reads back in either parser. */
  lemma SerializedIsDeserialized(r: Record)
    requires SerializeRecord(r).Ok?
    ensures DeserializedRecord(RecordBytes(r)) == Some(r)
  {
    hide RecordBytes;
    RecordRoundTrip(r);
  }

  /** `audit_verify.parse_record`: succeeds exactly on encodings of records, and inverts them. */
  method ParseRecord(raw: Bytes) returns (r: Option<Record>)
    ensures r == DecodedRecord(raw)
  {
    hide Number, Utf8, RecordBytes, DecodedRecord;
    DecodedHasLayout(raw);
    if |raw| < 4 + 8 + 2 + 4 { return None; }
    var offset := 0;
    var seqNo := Number(raw[offset..offset + 4]);
    offset := offset + 4;
    var ts := raw[offset..offset + 8];
    offset := offset + 8;
    var topicLen := Number(raw[offset..offset + 2]);
    offset := offset + 2;
    if offset + topicLen + 4 > |raw| { return None; }
    var topic := raw[offset..offset + topicLen];
    if !Utf8(topic) { return None; }
    offset := offset + topicLen;
    var payloadLen := Number(raw[offset..offset + 4]);
    offset := offset + 4;
    if offset + payloadLen != |raw| { return None; }
    r := Some(Record(seqNo, ts, topic, raw[offset..]));
    LayoutIsDecoded(raw, r.value);
  }

  /** `Record.deserialize`: the other strict parser, which also refuses a non-finite timestamp. */
  method DeserializeRecord(raw: Bytes) returns (r: Option<Record>)
    ensures r == DeserializedRecord(raw)
  {
    hide Number, Utf8, RecordBytes, DecodedRecord;
    DecodedHasLayout(raw);
    if |raw| < 18 { return None; }
    var offset := 0;
    var seqNo := Number(raw[offset..offset + 4]);
    offset := offset + 4;
    var ts: Double := raw[offset..offset + 8];
    offset := offset + 8;
    if !Finite(ts) { return None; }
    var topicLen := Number(raw[offset..offset + 2]);
    offset := offset + 2;
    if offset + topicLen + 4 > |raw| { return None; }
    var topic := raw[offset..offset + topicLen];
    if !Utf8(topic) { return None; }
    offset := offset + topicLen;
    var payloadLen := Number(raw[offset..offset + 4]);
    offset := offset + 4;
    if offset + payloadLen != |raw| { return None; }
    r := Some(Record(seqNo, ts, topic, raw[offset..offset + payloadLen]));
    LayoutIsDecoded(raw, r.value);
  }

  // ---- Checkpoint and witness bodies ----

  datatype Checkpoint = Checkpoint(
    clientId: Text, topic: Text, epoch: int, seqStart: int, seqEnd: int,
    prevAnchor: Bytes, endAnchor: Bytes, ts: Double)

  datatype Receipt = Receipt(
    witnessId: Text, streamId: Text, epoch: int, seqStart: int, seqEnd: int,
    prevAnchor: Bytes, endAnchor: Bytes, ts: Double, signature: Bytes, publicKey: Bytes)

  const CHECKPOINT_DOMAIN: Bytes := Literal("AAPA-MQTT-CHECKPOINT-V2|")
  const WITNESS_DOMAIN: Bytes := Literal("AAPA-MQTT-WITNESS-V2|")

  /** The eight signed values; checkpoints and receipts write them alike behind their domains. */
  datatype Statement = Statement(
    name: Text, scope: Text, epoch: int, seqStart: int, seqEnd: int, prev: Bytes, end: Bytes, ts: Double)

  /** The checks of `serialize`, and the u16 length fields of `struct.pack`. */
  predicate StatementFits(s: Statement) {
    && |s.name| <= MAX_U16 && |s.scope| <= MAX_U16
    && 0 <= s.epoch <= MAX_U32
    && 0 <= s.seqStart <= s.seqEnd <= MAX_U32
    && Finite(s.ts)
    && |s.prev| <= MAX_U16 && |s.end| <= MAX_U16
  }

  function StatementFields(s: Statement): seq<Field>
    requires StatementFits(s)
  {
    [Sized(s.name, 2), Sized(s.scope, 2), Fixed(U32(s.epoch)), Fixed(U32(s.seqStart)), Fixed(U32(s.seqEnd)),
     Sized(s.prev, 2), Sized(s.end, 2), Fixed(s.ts)]
  }

  lemma U32Injective(m: nat, n: nat)
    requires m <= MAX_U32 && n <= MAX_U32 && U32(m) == U32(n)
    ensures m == n
  {
    FieldWidths();
    ReadField(m, 4);
    ReadField(n, 4);
  }

  lemma StatementInjective(a: Statement, b: Statement)
    requires StatementFits(a) && StatementFits(b)
    requires Encode(StatementFields(a)) == Encode(StatementFields(b))
    ensures a == b
  {
    var fa, fb := StatementFields(a), StatementFields(b);
    FieldWidths();
    assert Encode(fa) + [] == Encode(fa) && Encode(fb) + [] == Encode(fb);
    EncodeInjective(fa, [], fb, []);
    assert fa[0] == fb[0] && fa[1] == fb[1] && fa[2] == fb[2] && fa[3] == fb[3];
    assert fa[4] == fb[4] && fa[5] == fb[5] && fa[6] == fb[6] && fa[7] == fb[7];
    U32Injective(a.epoch, b.epoch);
    U32Injective(a.seqStart, b.seqStart);
    U32Injective(a.seqEnd, b.seqEnd);
  }

  function CheckpointStatement(c: Checkpoint): Statement {
    Statement(c.clientId, c.topic, c.epoch, c.seqStart, c.seqEnd, c.prevAnchor, c.endAnchor, c.ts)
  }

  predicate CheckpointFits(c: Checkpoint) { StatementFits(CheckpointStatement(c)) }

  function CheckpointBody(c: Checkpoint): Bytes
    requires CheckpointFits(c)
  {
    CHECKPOINT_DOMAIN + Encode(StatementFields(CheckpointStatement(c)))
  }

  /** `Checkpoint.serialize`. */
  function SerializeCheckpoint(c: Checkpoint): Outcome<Bytes> {
    if CheckpointFits(c) then Ok(CheckpointBody(c)) else Raised
  }

  function ReceiptStatement(r: Receipt): Statement {
    Statement(r.witnessId, r.streamId, r.epoch, r.seqStart, r.seqEnd, r.prevAnchor, r.endAnchor, r.ts)
  }

  predicate ReceiptFits(r: Receipt) { StatementFits(ReceiptStatement(r)) }

  function ReceiptBody(r: Receipt): Bytes
    requires ReceiptFits(r)
  {
    WITNESS_DOMAIN + Encode(StatementFields(ReceiptStatement(r)))
  }

  /** `WitnessReceipt.serialize`: the body without signature and key. */
  function SerializeReceipt(r: Receipt): Outcome<Bytes> {
    if ReceiptFits(r) then Ok(ReceiptBody(r)) else Raised
  }

  /** A checkpoint body determines all eight fields. */
  lemma CheckpointBodyInjective(a: Checkpoint, b: Checkpoint)
    requires CheckpointFits(a) && CheckpointFits(b)
    requires CheckpointBody(a) == CheckpointBody(b)
    ensures a == b
  {
    SplitConcat(CHECKPOINT_DOMAIN, Encode(StatementFields(CheckpointStatement(a))),
                CHECKPOINT_DOMAIN, Encode(StatementFields(CheckpointStatement(b))));
    StatementInjective(CheckpointStatement(a), CheckpointStatement(b));
  }

  /** A receipt body determines every field but the signature and the carried key. */
  lemma ReceiptBodyInjective(a: Receipt, b: Receipt)
    requires ReceiptFits(a) && ReceiptFits(b)
    requires ReceiptBody(a) == ReceiptBody(b)
    ensures a == b.(signature := a.signature, publicKey := a.publicKey)
  {
    SplitConcat(WITNESS_DOMAIN, Encode(StatementFields(ReceiptStatement(a))),
                WITNESS_DOMAIN, Encode(StatementFields(ReceiptStatement(b))));
    StatementInjective(ReceiptStatement(a), ReceiptStatement(b));
  }
}
