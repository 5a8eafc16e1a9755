/** One worked example of every encoding and commitment, byte by byte and hash by hash. */
module Examples {
  import opened Prelude
  import opened Bytes
  import opened Text
  import opened Fields
  import opened Crypto
  import opened Codec
  import opened Wire
  import opened Merkle
  import HashChain
  import opened ItemAudit
  import opened ArmSpec

  const ONE: Double := [63, 240, 0, 0, 0, 0, 0, 0]

  /** A small number in a field. */
  lemma SmallFields(n: nat)
    requires n < 256
    ensures U16(n) == [0, n] && U32(n) == [0, 0, 0, n] && U64(n) == [0, 0, 0, 0, 0, 0, 0, n]
  {
    assert n / 256 == 0;
    assert BigEndian(n / 256, 1) == [0] && BigEndian(n / 256, 3) == [0, 0, 0];
    ZeroField(7);
    assert BigEndian(0, 7) == [0, 0, 0, 0, 0, 0, 0];
  }

  lemma {:induction false} ZeroField(width: nat)
    ensures forall i :: 0 <= i < width ==> BigEndian(0, width)[i] == 0
  {
    if width > 0 {
      ZeroField(width - 1);
    }
  }

  /** "c", "t", "w" and so on. */
  function Letter(b: byte): Text
    requires b < 128
  {
    AsciiIsUtf8([b]);
    [b]
  }

  // ---- Records ----

  /** Number 258, time 1.0, topic t, two bytes of payload. */
  lemma RecordExample()
    ensures SerializeRecord(Record(258, ONE, Letter(116), [7, 8])) == Ok(
      [0, 0, 1, 2] + [63, 240, 0, 0, 0, 0, 0, 0] + [0, 1] + [116] + [0, 0, 0, 2] + [7, 8])
  {
    hide BigEndian;
    SmallFields(1);
    SmallFields(2);
    TwoBytes();
  }

  lemma TwoBytes()
    ensures U32(258) == [0, 0, 1, 2]
  {
    ZeroField(2);
    assert BigEndian(1, 3) == BigEndian(0, 2) + [1];
    assert BigEndian(258, 4) == BigEndian(1, 3) + [2];
  }

  // ---- Checkpoint and receipt bodies ----

  /** Eight fields: two sized, three numbers, two sized, one time. */
  lemma StatementBytes(s: Statement)
    requires StatementFits(s)
    ensures Encode(StatementFields(s))
      == (U16(|s.name|) + s.name) + ((U16(|s.scope|) + s.scope) + (U32(s.epoch) + (U32(s.seqStart) + (U32(s.seqEnd)
         + ((U16(|s.prev|) + s.prev) + ((U16(|s.end|) + s.end) + s.ts))))))
  {
    hide BigEndian;
    var fs := StatementFields(s);
    EncodeStep(fs);
    EncodeStep(fs[1..]);
    EncodeStep(fs[2..]);
    EncodeStep(fs[3..]);
    EncodeStep(fs[4..]);
    EncodeStep(fs[5..]);
    EncodeStep(fs[6..]);
    EncodeStep(fs[7..]);
    assert Encode(fs[8..]) == [];
    assert s.ts + [] == s.ts;
  }

  lemma EncodeStep(fs: seq<Field>)
    requires fs != []
    ensures Encode(fs) == Part(fs[0]) + Encode(fs[1..])
  {}

  function ExampleStatement(): Statement {
    Statement(Letter(99), Letter(116), 1, 2, 3, [9], [8, 7], ONE)
  }

  /** Names c and t, epoch 1, range 2 to 3, anchors of one and two bytes, time 1.0. */
  function ExampleFields(): Bytes {
    ([0, 1] + [99]) + (([0, 1] + [116]) + ([0, 0, 0, 1] + ([0, 0, 0, 2] + ([0, 0, 0, 3]
    + (([0, 1] + [9]) + (([0, 2] + [8, 7]) + [63, 240, 0, 0, 0, 0, 0, 0]))))))
  }

  lemma StatementExample()
    ensures StatementFits(ExampleStatement()) && Encode(StatementFields(ExampleStatement())) == ExampleFields()
  {
    hide BigEndian, Encode, StatementFields;
    SmallFields(1);
    SmallFields(2);
    SmallFields(3);
    StatementBytes(ExampleStatement());
  }

  /** AAPA-MQTT-CHECKPOINT-V2| and the eight fields. */
  lemma CheckpointExample()
    ensures SerializeCheckpoint(Checkpoint(Letter(99), Letter(116), 1, 2, 3, [9], [8, 7], ONE)) == Ok(
      [65, 65, 80, 65, 45, 77, 81, 84, 84, 45, 67, 72, 69, 67, 75, 80, 79, 73, 78, 84, 45, 86, 50, 124]
      + ExampleFields())
  {
    hide Encode, StatementFields, StatementFits, ExampleFields;
    StatementExample();
    assert CHECKPOINT_DOMAIN
      == [65, 65, 80, 65, 45, 77, 81, 84, 84, 45, 67, 72, 69, 67, 75, 80, 79, 73, 78, 84, 45, 86, 50, 124];
  }

  /** AAPA-MQTT-WITNESS-V2| and the same eight fields, without signature and key. */
  lemma ReceiptExample(signature: Bytes, publicKey: Bytes)
    ensures SerializeReceipt(Receipt(Letter(99), Letter(116), 1, 2, 3, [9], [8, 7], ONE, signature, publicKey)) == Ok(
      [65, 65, 80, 65, 45, 77, 81, 84, 84, 45, 87, 73, 84, 78, 69, 83, 83, 45, 86, 50, 124] + ExampleFields())
  {
    hide Encode, StatementFields, StatementFits, ExampleFields;
    StatementExample();
    assert WITNESS_DOMAIN
      == [65, 65, 80, 65, 45, 77, 81, 84, 84, 45, 87, 73, 84, 78, 69, 83, 83, 45, 86, 50, 124];
  }

  // ---- Wire envelopes ----

  /** Magic, version, kind, two zero bytes, epoch, number, four lengths, names, record, tag. */
  lemma EnvelopeExample()
    ensures SerializeEnvelope(Envelope(1, 2, Letter(97), Letter(107), [], 5, 6, [7], [8, 9])) == Ok(
      [65, 65, 80, 65, 1, 2, 0, 0] + [0, 0, 0, 5] + [0, 0, 0, 0, 0, 0, 0, 6] + [0, 1] + [0, 1] + [0, 0] + [0, 0, 0, 1]
      + ([97] + [107] + [] + [7]) + [0, 2] + [8, 9])
  {
    SmallFields(0);
    SmallFields(1);
    SmallFields(2);
    SmallFields(5);
    SmallFields(6);
    hide BigEndian;
    assert WIRE_MAGIC == [65, 65, 80, 65];
    assert WIRE_MAGIC + [1, 2, 0, 0] == [65, 65, 80, 65, 1, 2, 0, 0];
  }

  // ---- Names ----

  /** 1:c1:t */
  lemma StreamIdExample()
    ensures CanonicalStreamId(Letter(99), Letter(116)) == [49, 58, 99, 49, 58, 116]
  {}

  /** ab0f */
  lemma HexExample()
    ensures Hex([171, 15]) == [97, 98, 48, 102]
  {
    assert [171, 15][1..] == [15] && [15][1..] == [];
    assert Hex([15]) == [48, 102];
  }

  /** witness-01 and witness-10 */
  lemma WitnessNameExample()
    ensures WitnessName(0) == [119, 105, 116, 110, 101, 115, 115, 45, 48, 49]
    ensures WitnessName(9) == [119, 105, 116, 110, 101, 115, 115, 45, 49, 48]
  {
    assert Literal("witness-") == [119, 105, 116, 110, 101, 115, 115, 45];
    assert Padded2(10) == [49, 48];
  }

  /** HMAC-SHA256, and the two halves of the key's fingerprint after "mac-" and "session-". */
  lemma MacNames(c: Crypto, macKey: Bytes, epoch: int, seqNo: int, raw: Bytes)
    ensures var e, fingerprint := MacEnvelope(c, macKey, epoch, seqNo, raw), Hex(c.hash(macKey));
      && |fingerprint| == 64
      && e.algorithm == [72, 77, 65, 67, 45, 83, 72, 65, 50, 53, 54]
      && e.keyId == [109, 97, 99, 45] + fingerprint[..32]
      && e.sessionId == [115, 101, 115, 115, 105, 111, 110, 45] + fingerprint[32..]
      && e.version == 1 && e.authKind == 1 && e.epoch == epoch && e.seqNo == seqNo && e.record == raw
  {
    hide Hex, Literal;
    MacLiterals();
    assert Hex(c.hash(macKey))[..32] == Hex(c.hash(macKey))[0..32];
    assert Hex(c.hash(macKey))[32..] == Hex(c.hash(macKey))[32..64];
  }

  lemma MacLiterals()
    ensures Literal("HMAC-SHA256") == [72, 77, 65, 67, 45, 83, 72, 65, 50, 53, 54]
    ensures Literal("mac-") == [109, 97, 99, 45]
    ensures Literal("session-") == [115, 101, 115, 115, 105, 111, 110, 45]
  {}

  /** ML-DSA-65, and the whole fingerprint after "sig-"; no session. */
  lemma SignatureNames(c: Crypto, publicKey: Bytes, epoch: int, seqNo: int, raw: Bytes)
    ensures var e := SignedEnvelope(c, publicKey, epoch, seqNo, raw);
      && e.algorithm == [77, 76, 45, 68, 83, 65, 45, 54, 53]
      && e.keyId == [115, 105, 103, 45] + Hex(c.hash(publicKey)) && e.sessionId == []
      && e.version == 1 && e.authKind == 2 && e.epoch == epoch && e.seqNo == seqNo && e.record == raw
  {
    hide Hex;
    assert Literal("ML-DSA-65") == [77, 76, 45, 68, 83, 65, 45, 54, 53];
    assert Literal("sig-") == [115, 105, 103, 45];
  }

  // ---- What the formats refuse ----

  /** Exponent bits not all set: neither infinite nor undefined. */
  predicate IsFinite(ts: Double) { Number(ts[..2]) / 16 % 2048 != 2047 }

  /** A record is refused exactly for a number, topic or payload past its field, or a time that is not finite. */
  lemma RecordLimits(r: Record)
    ensures SerializeRecord(r).Ok? <==>
      0 <= r.seqNo < 4294967296 && |r.topic| < 65536 && |r.payload| < 4294967296 && IsFinite(r.ts)
  {
    hide RecordBytes, Number;
    FiniteIsExponent(r.ts);
  }

  /** A checkpoint is refused, besides, for a range that ends before it starts. */
  lemma CheckpointLimits(ckpt: Checkpoint)
    ensures SerializeCheckpoint(ckpt).Ok? <==>
      && |ckpt.clientId| < 65536 && |ckpt.topic| < 65536 && 0 <= ckpt.epoch < 4294967296
      && 0 <= ckpt.seqStart <= ckpt.seqEnd < 4294967296
      && |ckpt.prevAnchor| < 65536 && |ckpt.endAnchor| < 65536 && IsFinite(ckpt.ts)
  {
    hide Encode, Number;
    FiniteIsExponent(ckpt.ts);
  }

  lemma ReceiptLimits(r: Receipt)
    ensures SerializeReceipt(r).Ok? <==>
      && |r.witnessId| < 65536 && |r.streamId| < 65536 && 0 <= r.epoch < 4294967296
      && 0 <= r.seqStart <= r.seqEnd < 4294967296
      && |r.prevAnchor| < 65536 && |r.endAnchor| < 65536 && IsFinite(r.ts)
  {
    hide Encode, Number;
    FiniteIsExponent(r.ts);
  }

  /** An envelope is refused for a field out of bounds, metadata beyond ASCII, an unknown kind or a missing name. */
  lemma EnvelopeLimits(e: Envelope)
    ensures SerializeEnvelope(e).Ok? <==>
      && 0 <= e.version < 256 && (e.authKind == 1 || e.authKind == 2)
      && 0 < |e.algorithm| < 65536 && 0 < |e.keyId| < 65536 && |e.sessionId| < 65536
      && (forall i :: 0 <= i < |e.algorithm| ==> e.algorithm[i] < 128)
      && (forall i :: 0 <= i < |e.keyId| ==> e.keyId[i] < 128)
      && (forall i :: 0 <= i < |e.sessionId| ==> e.sessionId[i] < 128)
      && 0 <= e.epoch < 4294967296 && 0 <= e.seqNo < 18446744073709551616 && |e.record| < 4294967296
      && |e.authenticator| < 65536
  {
    hide WireBody;
  }

  // ---- Commitments ----

  /** The tree over three records: leaf and node prefixes, left before right, the odd leaf repeated. */
  lemma RootOfThree(h: Merkle.Hash, a: Bytes, b: Bytes, c: Bytes)
    ensures Root(h, Leaves(h, [a, b, c]))
      == h([1] + h([1] + h([0] + a) + h([0] + b)) + h([1] + h([0] + c) + h([0] + c)))
  {
    LevelsOfThree(h, a, b, c);
    var l := Leaves(h, [a, b, c]);
    hide Up;
    RootAbove(h, l);
    RootAbove(h, Up(h, l));
    assert Root(h, Up(h, Up(h, l))) == Up(h, Up(h, l))[0];
  }

  lemma RootAbove(h: Merkle.Hash, l: seq<Digest>)
    requires |l| > 1
    ensures Root(h, l) == Root(h, Up(h, l))
  {}

  lemma LevelsOfThree(h: Merkle.Hash, a: Bytes, b: Bytes, c: Bytes)
    ensures var leaves := [h([0] + a), h([0] + b), h([0] + c)];
      && Leaves(h, [a, b, c]) == leaves
      && Up(h, leaves) == [h([1] + leaves[0] + leaves[1]), h([1] + leaves[2] + leaves[2])]
      && Up(h, Up(h, leaves)) == [h([1] + Up(h, leaves)[0] + Up(h, leaves)[1])]
  {}

  /** The proof of its second record: the sibling on the left, then the other pair on the right. */
  lemma ProofOfSecond(h: Merkle.Hash, a: Bytes, b: Bytes, c: Bytes)
    ensures InclusionProof(h, Leaves(h, [a, b, c]), 1)
      == [Step(h([0] + a), false), Step(h([1] + h([0] + c) + h([0] + c)), true)]
  {
    LevelsOfThree(h, a, b, c);
    var l := Leaves(h, [a, b, c]);
    hide Up;
    ProofStep(h, l, 1);
    ProofStep(h, Up(h, l), 0);
    assert InclusionProof(h, Up(h, Up(h, l)), 0) == [];
  }

  lemma ProofStep(h: Merkle.Hash, l: seq<Digest>, i: nat)
    requires 1 < |l| && i < |l|
    ensures InclusionProof(h, l, i) == [Step(SiblingNode(l, i), i % 2 == 0)] + InclusionProof(h, Up(h, l), i / 2)
  {}

  lemma HeadOfTwo(h: HashChain.Hash, seed: Bytes, a: Bytes, b: Bytes)
    ensures HashChain.Head(h, seed, [a, b]) == h(h(h(seed) + a) + b)
  {
    assert [a, b][..1] == [a] && [a][..0] == [];
    assert HashChain.Head(h, seed, [a]) == h(h(seed) + a);
  }
}
