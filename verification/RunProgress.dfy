/** A run within the formats never raises: nothing is refused, least of all by the arm's own witnesses. */
module RunProgress {
  import opened Bytes
  import opened Text
  import opened Codec
  import opened Wire
  import opened Evidence
  import opened StreamAudit
  import opened ArmSpec
  import opened RunInvariant
  import Completeness

  /** Names fit the u16 length fields, and so do MAC tags. */
  ghost predicate NamesFit(cfg: Config) {
    && |cfg.client| <= MAX_U16 && |cfg.topic| <= MAX_U16 && |cfg.StreamId()| <= MAX_U16
    && (forall i :: 0 <= i < |cfg.witnessKeys| ==> |WitnessName(i)| <= MAX_U16)
    && forall m: Bytes {:trigger cfg.c.mac(cfg.macKey, m)} :: |cfg.c.mac(cfg.macKey, m)| <= MAX_U16
  }

  predicate ClockFits(cfg: Config, clock: Clock) {
    forall k :: 0 <= k <= |cfg.witnessKeys| ==> Finite(clock(k))
  }

  /** A call the formats can carry: finite clock readings, and a record that serialises. */
  predicate CallFits(cfg: Config, call: Call) {
    match call
    case AddRecord(record, clock, _) =>
      ClockFits(cfg, clock) && SerializeRecord(record).Ok? && |SerializeRecord(record).value| <= MAX_U32
    case FlushBatch(clock, _) => ClockFits(cfg, clock)
  }

  /** Every sealed batch holds a record, so epochs never outrun the record count. */
  lemma {:induction false} EpochsBelowRecords(cfg: Config, sealed: seq<Evidence>)
    requires forall e :: 0 <= e < |sealed| ==> ItemInPlace(cfg, sealed, e)
    ensures |sealed| <= |AllRecords(sealed)|
  {
    hide ItemInPlace;
    if sealed != [] {
      var n := |sealed| - 1;
      Completeness.PrefixInPlace(cfg, sealed, n);
      EpochsBelowRecords(cfg, sealed[..n]);
      ItemIsNotEmpty(cfg, sealed, n);
    }
  }

  lemma ItemIsNotEmpty(cfg: Config, sealed: seq<Evidence>, e: nat)
    requires e < |sealed| && ItemInPlace(cfg, sealed, e)
    ensures sealed[e].records != [] && |sealed[e].checkpoint.endAnchor| == 32
  {
    hide GoodReceipts, CheckpointFits;
  }

  lemma PrevAnchorFits(cfg: Config, s: ArmState)
    requires Keeps(cfg, s)
    ensures |PrevAnchor(s.sealed)| == 32 && |s.sealed| <= s.total - |s.pending|
  {
    hide ItemInPlace;
    EpochsBelowRecords(cfg, s.sealed);
    if s.sealed != [] {
      ItemIsNotEmpty(cfg, s.sealed, |s.sealed| - 1);
    }
  }

  lemma SealSucceeds(cfg: Config, s: ArmState, clock: Clock, nextSeed: Bytes)
    requires NamesFit(cfg) && ClockFits(cfg, clock)
    requires Keeps(cfg, s) && s.pending != [] && s.total <= MAX_U32
    ensures Seal(cfg, s, clock, nextSeed).Ok?
  {
    hide ItemInPlace, CanonicalStreamId, WitnessName, AllRecords, SealedItem, EndAnchor;
    PrevAnchorFits(cfg, s);
    var ckpt := NextCheckpoint(cfg, s, clock);
    assert |ckpt.endAnchor| == 32;
    forall i | 0 <= i < |cfg.witnessKeys| ensures CanCosign(cfg, ckpt, clock, i) {}
  }

  /** The arm's envelope has a body. */
  lemma MacEnvelopeFits(cfg: Config, epoch: nat, seqNo: nat, raw: Bytes)
    requires epoch <= MAX_U32 && seqNo <= MAX_U32 && |raw| <= MAX_U32
    ensures var e := MacEnvelope(cfg.c, cfg.macKey, epoch, seqNo, raw); HeaderFits(e) && Supported(e)
  {
    hide MacAlgorithm, MacKeyId, MacSessionId;
  }

  lemma WireSucceeds(cfg: Config, epoch: nat, seqNo: nat, raw: Bytes)
    requires NamesFit(cfg) && epoch <= MAX_U32 && seqNo <= MAX_U32 && |raw| <= MAX_U32
    ensures WireMessage(cfg.c, cfg.macKey, epoch, seqNo, raw).Ok?
  {
    MacEnvelopeFits(cfg, epoch, seqNo, raw);
    hide MacEnvelope, WireBody, EnvelopeBytes, CanonicalStreamId, WitnessName;
    var e := MacEnvelope(cfg.c, cfg.macKey, epoch, seqNo, raw);
    assert |cfg.c.mac(cfg.macKey, WireBody(e))| <= MAX_U16;
  }

  lemma StepSucceeds(cfg: Config, s: ArmState, call: Call)
    requires NamesFit(cfg) && CallFits(cfg, call) && Keeps(cfg, s)
    requires s.total < MAX_U32
    ensures Perform(cfg, s, call).Ok?
    ensures Perform(cfg, s, call).value.total == s.total + if call.AddRecord? then 1 else 0
  {
    hide NamesFit, ClockFits, WireMessage, SealFits, SealedItem, RecordBytes, ItemInPlace, AllRecords;
    match call {
      case AddRecord(record, clock, nextSeed) =>
        var raw := RecordBytes(record);
        PrevAnchorFits(cfg, s);
        WireSucceeds(cfg, |s.sealed|, record.seqNo, raw);
        var message := WireMessage(cfg.c, cfg.macKey, |s.sealed|, record.seqNo, raw);
        var grown := s.(pending := s.pending + [raw], total := s.total + 1, wire := s.wire + [message.value]);
        if |grown.pending| >= cfg.batchSize {
          SealSucceeds(cfg, grown, clock, nextSeed);
        }
      case FlushBatch(clock, nextSeed) =>
        if s.pending != [] {
          SealSucceeds(cfg, s, clock, nextSeed);
        }
    }
  }

  lemma {:induction false} FewerCalls(calls: seq<Call>)
    ensures CountAdds(calls) <= |calls|
  {
    if calls != [] {
      FewerCalls(calls[..|calls| - 1]);
    }
  }

  /**
   * No run within the formats raises: as long as the counter stays inside u32, every `add_record` and `flush`
   * succeeds, so in particular no witness of an A6 arm ever refuses a checkpoint.
   */
  lemma {:induction false} RunSucceeds(cfg: Config, seed: Bytes, calls: seq<Call>)
    requires cfg.Supported() && NamesFit(cfg) && CountAdds(calls) < MAX_U32
    requires forall k :: 0 <= k < |calls| ==> CallFits(cfg, calls[k])
    ensures After(cfg, seed, calls).Ok? && After(cfg, seed, calls).value.total == CountAdds(calls)
  {
    hide NamesFit, CallFits, Perform, Keeps;
    if calls != [] {
      var n := |calls| - 1;
      RunSucceeds(cfg, seed, calls[..n]);
      RunKeeps(cfg, seed, calls[..n]);
      StepSucceeds(cfg, After(cfg, seed, calls[..n]).value, calls[n]);
    }
  }
}
