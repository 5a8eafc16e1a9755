/** The checkpoint-signing arms as one state machine: batches, seals, links, wire messages. */
module ArmSpec {
  import opened Prelude
  import opened Bytes
  import opened Text
  import opened Crypto
  import opened Codec
  import opened Wire
  import opened Merkle
  import HashChain
  import opened Evidence
  import opened ItemAudit
  import opened Witness

  /** The k-th reading of the clock within one call. */
  type Clock = nat -> Double

  /** What an arm object is created with; the keys come from key generation. */
  datatype Config = Config(
    c: Crypto, arm: Arm, client: Text, topic: Text, batchSize: int, publicKey: Bytes, macKey: Bytes,
    witnessKeys: seq<Bytes>)
  {
    /** A0, A3, A4, A5, or A6 with its witnesses. */
    predicate Supported() {
      (UsesMerkle(arm) || arm == A3) && (arm != A6 ==> witnessKeys == [])
    }

    function StreamId(): Text { CanonicalStreamId(client, topic) }
  }

  /**
   * `sealed` and `pending` are the checkpoints and the open batch, `total` the cumulative counter, `seed` the open
   * chain's seed (A3 only), `wire` the envelopes sent.
   */
  datatype ArmState = ArmState(
    sealed: seq<Evidence>, pending: seq<Bytes>, total: nat, seed: Bytes, wire: seq<Bytes>)

  function InitialState(seed: Bytes): ArmState { ArmState([], [], 0, seed, []) }

  // ---- Names ----

  /** `f"{n:02d}"`. */
  function Padded2(n: nat): (d: Bytes)
    ensures Digits(d)
  {
    if n < 10 then ['0' as int, n + '0' as int] else Decimal(n)
  }

  /** `f"witness-{i + 1:02d}"`. */
  function WitnessName(i: nat): Text {
    AsciiIsUtf8(Literal("witness-") + Padded2(i + 1));
    Literal("witness-") + Padded2(i + 1)
  }

  lemma WitnessNamesDiffer(i: nat, j: nat)
    requires WitnessName(i) == WitnessName(j)
    ensures i == j
  {
    hide Literal, Padded2;
    SplitConcat(Literal("witness-"), Padded2(i + 1), Literal("witness-"), Padded2(j + 1));
    Padded2Value(i + 1);
    Padded2Value(j + 1);
  }

  lemma Padded2Value(n: nat)
    ensures DecimalValue(Padded2(n)) == n
  {
    if n < 10 {
      var d := Padded2(n);
      assert d[..1] == ['0' as int] && d[..1][..0] == [];
      assert DecimalValue(d[..1]) == 0;
    } else {
      DecimalRoundTrip(n);
    }
  }

  // ---- Wire messages ----

  lemma NameIsText(prefix: Bytes, hex: Bytes, lo: nat, hi: nat)
    requires Ascii(prefix) && Ascii(hex) && lo <= hi <= |hex|
    ensures Ascii(prefix + hex[lo..hi]) && Utf8(prefix + hex[lo..hi])
  {
    AsciiIsUtf8(prefix + hex[lo..hi]);
  }

  function MacAlgorithm(): (name: Text)
    ensures Ascii(name) && |name| == 11
  {
    LiteralIsUtf8("HMAC-SHA256");
    Literal("HMAC-SHA256")
  }

  function MacKeyId(fingerprint: Digest): (name: Text)
    ensures Ascii(name) && |name| == 36
  {
    NameIsText(Literal("mac-"), Hex(fingerprint), 0, 32);
    Literal("mac-") + Hex(fingerprint)[0..32]
  }

  function MacSessionId(fingerprint: Digest): (name: Text)
    ensures Ascii(name) && |name| == 40
  {
    NameIsText(Literal("session-"), Hex(fingerprint), 32, 64);
    Literal("session-") + Hex(fingerprint)[32..64]
  }

  /** The envelope `_append_wire_envelope` fills in, without its tag. */
  function MacEnvelope(c: Crypto, macKey: Bytes, epoch: int, seqNo: int, raw: Bytes): Envelope {
    var fingerprint := c.hash(macKey);
    Envelope(WIRE_VERSION, WIRE_AUTH_MAC, MacAlgorithm(), MacKeyId(fingerprint), MacSessionId(fingerprint),
             epoch, seqNo, raw, [])
  }

  function WireMessage(c: Crypto, macKey: Bytes, epoch: int, seqNo: int, raw: Bytes): Outcome<Bytes> {
    var e := MacEnvelope(c, macKey, epoch, seqNo, raw);
    var body := UnsignedBytes(e);
    if body.Raised? then Raised else SerializeEnvelope(e.(authenticator := c.mac(macKey, body.value)))
  }

  // ---- Sealing ----

  function PrevAnchor(sealed: seq<Evidence>): Bytes {
    if sealed == [] then ZERO_ANCHOR else sealed[|sealed| - 1].checkpoint.endAnchor
  }

  function EndAnchor(cfg: Config, s: ArmState): Digest
    requires s.pending != []
  {
    if cfg.arm == A3 then HashChain.Head(cfg.c.hash, s.seed, s.pending)
    else Root(cfg.c.hash, Leaves(cfg.c.hash, s.pending))
  }

  function NextCheckpoint(cfg: Config, s: ArmState, clock: Clock): Checkpoint
    requires s.pending != []
  {
    Checkpoint(cfg.client, cfg.topic, |s.sealed|, s.total - |s.pending| + 1, s.total, PrevAnchor(s.sealed),
               EndAnchor(cfg, s), clock(0))
  }

  /** Witness i's signed receipt; witness i reads the clock after the checkpoint and the witnesses before it. */
  function SignedReceipt(cfg: Config, ckpt: Checkpoint, clock: Clock, i: nat): Receipt
    requires i < |cfg.witnessKeys|
  {
    var r := Draft(WitnessName(i), cfg.witnessKeys[i], ckpt, clock(i + 1));
    if ReceiptFits(r) then r.(signature := cfg.c.sign(cfg.witnessKeys[i], ReceiptBody(r))) else r
  }

  /** Witness i's statement about the checkpoint serialises. */
  predicate CanCosign(cfg: Config, ckpt: Checkpoint, clock: Clock, i: nat)
    requires i < |cfg.witnessKeys|
  {
    ReceiptFits(Draft(WitnessName(i), cfg.witnessKeys[i], ckpt, clock(i + 1)))
  }

  function SignedReceipts(cfg: Config, ckpt: Checkpoint, clock: Clock): seq<Receipt> {
    seq(|cfg.witnessKeys|, i requires 0 <= i < |cfg.witnessKeys| => SignedReceipt(cfg, ckpt, clock, i))
  }

  function AllProofs(h: Merkle.Hash, records: seq<Bytes>): seq<Proof> {
    seq(|records|, i requires 0 <= i < |records| => InclusionProof(h, Leaves(h, records), i))
  }

  /** The evidence that seals the open batch. */
  function SealedItem(cfg: Config, s: ArmState, clock: Clock): Evidence
    requires s.pending != [] && CheckpointFits(NextCheckpoint(cfg, s, clock))
  {
    var ckpt := NextCheckpoint(cfg, s, clock);
    var signature := cfg.c.sign(cfg.publicKey, CheckpointBody(ckpt));
    if cfg.arm == A3 then
      Evidence(ckpt, signature, cfg.publicKey, s.pending, None,
               Some(HashChain.Values(cfg.c.hash, s.seed, s.pending)), Some(s.seed), None)
    else
      Evidence(ckpt, signature, cfg.publicKey, s.pending, Some(AllProofs(cfg.c.hash, s.pending)), None, None,
               if cfg.arm == A6 then Some(SignedReceipts(cfg, ckpt, clock)) else None)
  }

  /** Checkpoint and receipts serialise. */
  predicate SealFits(cfg: Config, s: ArmState, clock: Clock)
    requires s.pending != []
  {
    var ckpt := NextCheckpoint(cfg, s, clock);
    && CheckpointFits(ckpt)
    && forall i :: 0 <= i < |cfg.witnessKeys| ==> CanCosign(cfg, ckpt, clock, i)
  }

  /** `_seal_checkpoint` on a non-empty batch. */
  function Seal(cfg: Config, s: ArmState, clock: Clock, nextSeed: Bytes): Outcome<ArmState>
    requires s.pending != []
  {
    if SealFits(cfg, s, clock)
    then Ok(s.(sealed := s.sealed + [SealedItem(cfg, s, clock)], pending := [], seed := nextSeed))
    else Raised
  }

  /** The record serialises, and so does its wire message. */
  predicate Sendable(cfg: Config, s: ArmState, record: Record) {
    && SerializeRecord(record).Ok?
    && WireMessage(cfg.c, cfg.macKey, |s.sealed|, record.seqNo, SerializeRecord(record).value).Ok?
  }

  /** `add_record` up to the seal: envelope sent, record in the open batch, counted; nothing if it cannot be sent. */
  function Grown(cfg: Config, s: ArmState, record: Record): ArmState {
    if !Sendable(cfg, s, record) then s
    else
      var raw := SerializeRecord(record).value;
      var message := WireMessage(cfg.c, cfg.macKey, |s.sealed|, record.seqNo, raw);
      s.(pending := s.pending + [raw], total := s.total + 1, wire := s.wire + [message.value])
  }

  /** `add_record`, with the seal it may trigger. */
  function Add(cfg: Config, s: ArmState, record: Record, clock: Clock, nextSeed: Bytes): Outcome<ArmState> {
    if !Sendable(cfg, s, record) then Raised
    else
      var grown := Grown(cfg, s, record);
      if |grown.pending| >= cfg.batchSize then Seal(cfg, grown, clock, nextSeed) else Ok(grown)
  }

  /** `flush`. */
  function Flush(cfg: Config, s: ArmState, clock: Clock, nextSeed: Bytes): Outcome<ArmState> {
    if s.pending == [] then Ok(s) else Seal(cfg, s, clock, nextSeed)
  }

  // ---- Runs ----

  datatype Call = AddRecord(record: Record, clock: Clock, nextSeed: Bytes) | FlushBatch(clock: Clock, nextSeed: Bytes)

  function Perform(cfg: Config, s: ArmState, call: Call): Outcome<ArmState> {
    match call
    case AddRecord(record, clock, nextSeed) => Add(cfg, s, record, clock, nextSeed)
    case FlushBatch(clock, nextSeed) => Flush(cfg, s, clock, nextSeed)
  }

  /** What a call leaves behind when it ends in an exception: everything but the seal. */
  function Left(cfg: Config, s: ArmState, call: Call): ArmState {
    match call
    case AddRecord(record, _, _) => Grown(cfg, s, record)
    case FlushBatch(_, _) => s
  }

  /**
   * One call of an arm whose caller may catch the exception and go on. A seal may fail although everything
   * serialises, when a witness has cosigned an earlier attempt.
   */
  predicate Steps(cfg: Config, s: ArmState, call: Call, t: ArmState) {
    Perform(cfg, s, call) == Ok(t) || t == Left(cfg, s, call)
  }

  /** A run that goes on after exceptions; `states[k]` is the arm before call k. */
  predicate Runs(cfg: Config, seed: Bytes, calls: seq<Call>, states: seq<ArmState>) {
    && |states| == |calls| + 1 && states[0] == InitialState(seed)
    && forall k :: 0 <= k < |calls| ==> Steps(cfg, states[k], calls[k], states[k + 1])
  }

  /** The records that were sent in such a run, in order: those whose `add_record` got past the envelope. */
  function SentRecords(cfg: Config, calls: seq<Call>, states: seq<ArmState>): seq<Record>
    requires |states| == |calls| + 1
  {
    if calls == [] then []
    else
      var n := |calls| - 1;
      SentRecords(cfg, calls[..n], states[..n + 1])
      + if calls[n].AddRecord? && Sendable(cfg, states[n], calls[n].record) then [calls[n].record] else []
  }

  /** A run without exceptions. */
  function After(cfg: Config, seed: Bytes, calls: seq<Call>): Outcome<ArmState> {
    if calls == [] then Ok(InitialState(seed))
    else
      var n := |calls| - 1;
      var s := After(cfg, seed, calls[..n]);
      if s.Raised? then Raised else Perform(cfg, s.value, calls[n])
  }

  function CountAdds(calls: seq<Call>): nat {
    if calls == [] then 0
    else CountAdds(calls[..|calls| - 1]) + if calls[|calls| - 1].AddRecord? then 1 else 0
  }

  /** The k-th record added carries number k and the arm's topic. */
  predicate InOrder(cfg: Config, calls: seq<Call>) {
    forall k :: 0 <= k < |calls| && calls[k].AddRecord? ==>
      calls[k].record.seqNo == CountAdds(calls[..k]) + 1 && calls[k].record.topic == cfg.topic
  }
}
