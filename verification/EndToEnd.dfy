/** From the application to the subscriber: what both auditors' acceptance together says about deliveries. */
module EndToEnd {
  import opened Prelude
  import opened Bytes
  import opened Text
  import opened Crypto
  import opened Codec
  import opened Evidence
  import opened StreamAudit
  import opened Tiling
  import opened Soundness
  import opened QosAuditor
  import opened QosTheorems
  import opened ArmSpec
  import opened RunInvariant
  import opened RunHistory

  /** The number an auditor reads from a raw record; a record of less than four bytes has none. */
  function NumberOf(raw: Bytes): int { if |raw| >= 4 then Number(raw[..4]) else -1 }

  function Row(c: Crypto, epoch: int, raw: Bytes): Commitment { Commitment(epoch, NumberOf(raw), c.hash(raw)) }

  function Rows(c: Crypto, epoch: int, records: seq<Bytes>): seq<Commitment> {
    seq(|records|, i requires 0 <= i < |records| => Row(c, epoch, records[i]))
  }

  /** The committed records of an evidence bundle: checkpoint epoch, number and hash of each raw record. */
  function CommittedRows(c: Crypto, evs: seq<Evidence>): seq<Commitment> {
    if evs == [] then []
    else
      var last := evs[|evs| - 1];
      CommittedRows(c, evs[..|evs| - 1]) + Rows(c, last.checkpoint.epoch, last.records)
  }

  function RawMessage(c: Crypto, raw: Bytes): Message { (NumberOf(raw), c.hash(raw)) }

  function RawMessages(c: Crypto, raws: seq<Bytes>): seq<Message> {
    seq(|raws|, i requires 0 <= i < |raws| => RawMessage(c, raws[i]))
  }

  function PublishedMessage(c: Crypto, r: Record): Message
    requires RecordFits(r)
  {
    (r.seqNo, c.hash(RecordBytes(r)))
  }

  /** What the application published: number and hash of the serialised record. */
  function Published(c: Crypto, records: seq<Record>): seq<Message>
    requires forall i :: 0 <= i < |records| ==> RecordFits(records[i])
  {
    seq(|records|, i requires 0 <= i < |records| => PublishedMessage(c, records[i]))
  }

  /**
   * The deliveries are the published records, each once: ascending in number, and so in the order published exactly
   * when the application numbered its records in that order.
   */
  ghost predicate ArePublished(c: Crypto, ds: seq<Delivery>, records: seq<Record>, first: int) {
    && (forall i :: 0 <= i < |records| ==> RecordFits(records[i]))
    && Ascending(DeliveredMessages(ds))
    && multiset(DeliveredMessages(ds)) == multiset(Published(c, records))
    && (DeliveredMessages(ds) == Published(c, records) <==> InNumberOrder(records, first))
  }

  lemma {:induction false} RowsAreRecords(c: Crypto, evs: seq<Evidence>)
    ensures CommittedMessages(CommittedRows(c, evs)) == RawMessages(c, AllRecords(evs))
  {
    hide NumberOf;
    if evs != [] {
      var n := |evs| - 1;
      RowsAreRecords(c, evs[..n]);
      var epoch, records := evs[n].checkpoint.epoch, evs[n].records;
      MessagesConcat(c, CommittedRows(c, evs[..n]), Rows(c, epoch, records), AllRecords(evs[..n]), records);
      assert CommittedMessages(Rows(c, epoch, records)) == RawMessages(c, records);
    }
  }

  lemma MessagesConcat(c: Crypto, a: seq<Commitment>, b: seq<Commitment>, x: seq<Bytes>, y: seq<Bytes>)
    ensures CommittedMessages(a + b) == CommittedMessages(a) + CommittedMessages(b)
    ensures RawMessages(c, x + y) == RawMessages(c, x) + RawMessages(c, y)
  {
    hide NumberOf;
  }

  /** A serialised record begins with its number. */
  lemma NumberIsRead(r: Record, raw: Bytes)
    requires SerializeRecord(r) == Ok(raw)
    ensures RecordFits(r) && raw == RecordBytes(r) && NumberOf(raw) == r.seqNo
  {
    hide RecordBytes, Number;
    RecordHasLayout(r);
  }

  /** Serialised records show as what was published. */
  lemma SerializedMessages(c: Crypto, raws: seq<Bytes>, records: seq<Record>)
    requires SerializedAre(raws, records)
    ensures forall i :: 0 <= i < |records| ==> RecordFits(records[i])
    ensures RawMessages(c, raws) == Published(c, records)
  {
    hide RecordFits, RecordBytes, NumberOf, SerializeRecord;
    forall i | 0 <= i < |records|
      ensures RecordFits(records[i]) && raws[i] == RecordBytes(records[i]) && NumberOf(raws[i]) == records[i].seqNo
    {
      NumberIsRead(records[i], raws[i]);
    }
  }

  /** Numbered raw records show their numbers. */
  lemma NumberedMessages(c: Crypto, raws: seq<Bytes>, first: int, topic: Text)
    requires Numbered(raws, first, topic)
    ensures forall k :: 0 <= k < |raws| ==> RawMessages(c, raws)[k].0 == first + k
    ensures Ascending(RawMessages(c, raws))
  {
    hide IsNumber, NumberOf;
    forall k | 0 <= k < |raws| ensures NumberOf(raws[k]) == first + k {
      assert IsNumber(raws[k], first + k, topic);
      NumberIsShown(raws[k], first + k, topic);
    }
  }

  lemma NumberIsShown(raw: Bytes, n: int, topic: Text)
    requires IsNumber(raw, n, topic)
    ensures NumberOf(raw) == n
  {
    hide Number;
    DecodedHasLayout(raw);
  }

  /** Messages follow their records through any reordering. */
  lemma {:induction false} MessagesReorder(c: Crypto, a: seq<Bytes>, b: seq<Bytes>)
    requires multiset(a) == multiset(b)
    ensures multiset(RawMessages(c, a)) == multiset(RawMessages(c, b))
  {
    hide RawMessage;
    if a == [] {
      assert b == [] by { SameSize(a, b); }
    } else {
      var n := |a| - 1;
      var i, rest := Without(a, b);
      MessagesReorder(c, a[..n], rest);
      assert RawMessages(c, a) == RawMessages(c, a[..n]) + [RawMessage(c, a[n])];
      assert RawMessages(c, b) == RawMessages(c, b[..i]) + [RawMessage(c, b[i])] + RawMessages(c, b[i + 1..]);
      assert RawMessages(c, rest) == RawMessages(c, b[..i]) + RawMessages(c, b[i + 1..]);
    }
  }

  /** Taking the last element of one list out of a reordering of it. */
  lemma Without<T>(a: seq<T>, b: seq<T>) returns (i: nat, rest: seq<T>)
    requires a != [] && multiset(a) == multiset(b)
    ensures i < |b| && b[i] == a[|a| - 1] && rest == b[..i] + b[i + 1..]
    ensures multiset(rest) == multiset(a[..|a| - 1])
  {
    var n := |a| - 1;
    assert a[n] in multiset(b);
    i :| 0 <= i < |b| && b[i] == a[n];
    rest := b[..i] + b[i + 1..];
    MultisetWithout(b, i);
    MultisetWithout(a, n);
    assert a[..n] + a[n + 1..] == a[..n];
  }

  lemma AscendingIsDistinct(cs: seq<Commitment>)
    requires Ascending(CommittedMessages(cs))
    ensures DistinctNumbers(cs)
  {
    forall i, j | 0 <= i < j < |cs| ensures cs[i].seqNo != cs[j].seqNo {
      assert CommittedMessages(cs)[i].0 < CommittedMessages(cs)[j].0;
    }
  }

  /** What a shown range of records looks like to the delivery auditor. */
  lemma ShownMessages(c: Crypto, raws: seq<Bytes>, records: seq<Record>, first: int, topic: Text, ds: seq<Delivery>)
    requires Numbered(raws, first, topic) && SerializedAre(Raws(records), records)
    requires multiset(raws) == multiset(Raws(records))
    requires raws == Raws(records) <==> InNumberOrder(records, first)
    requires DeliveredMessages(ds) == RawMessages(c, raws)
    ensures ArePublished(c, ds, records, first)
  {
    hide Numbered, SerializedAre, RawMessages, RecordFits, RecordBytes, Raws, Ascending, DeliveredMessages;
    SerializedMessages(c, Raws(records), records);
    NumberedMessages(c, raws, first, topic);
    MessagesReorder(c, raws, Raws(records));
    if DeliveredMessages(ds) == Published(c, records) {
      MessagesSize(c, raws);
      forall k | 0 <= k < |records| ensures records[k].seqNo == first + k {
        assert Published(c, records)[k] == PublishedMessage(c, records[k]);
      }
    }
  }

  lemma MessagesSize(c: Crypto, raws: seq<Bytes>)
    ensures |RawMessages(c, raws)| == |raws|
  {}

  /**
   * From end to end, for every run. Let `audit_stream` accept evidence of a run, and let the aware auditor accept
   * deliveries at effective QoS 2, to a connected subscriber on an ordered topic, against the records of that
   * evidence. Then what was delivered is what the application published at positions genesis.seq to latest.seq, each
   * record once, in ascending number, which is the order published exactly when it numbered them so.
   */
  lemma DeliveredAsPublished(cfg: Config, seed: Bytes, calls: seq<Call>, states: seq<ArmState>, job: Job,
                             inputs: set<Bytes>, inp: AuditorInput)
    requires cfg.Supported() && Runs(cfg, seed, calls, states)
    requires job.arm == cfg.arm && job.Accepted(cfg.c) && StreamOf(job.evs[0]) == cfg.StreamId()
    requires var sealed := states[|calls|].sealed;
      && NothingForged(cfg.c, job.registry.value, cfg.client, cfg.topic, sealed, job.evs)
      && NoCollision(cfg.c, cfg.arm, sealed, job.evs, inputs)
    requires inp.context.span >= 1 && Accepts(inp, true) && inp.committed == CommittedRows(cfg.c, job.evs)
    requires inp.context.effectiveQos == 2 && inp.context.connected && inp.context.ordered
    ensures var records, genesis, latest :=
      SentRecords(cfg, calls, states), job.Anchors().value.genesis, job.Anchors().value.latest.value;
      && 1 <= genesis.seqNo <= latest.seqNo <= |records|
      && ArePublished(cfg.c, SortByOrder(inp.deliveries), Range(records, genesis.seqNo, latest.seqNo), genesis.seqNo)
  {
    hide Steps, NothingForged, NoCollision, SerializedAre, StreamVerified, Accepts, SortByOrder, Numbered, Keeps,
         CommittedRows, RawMessages, AllRecords, StreamOf, RecordFits, RecordBytes, Published, Ascending, Raws,
         CommittedMessages, DeliveredMessages, DistinctNumbers, EndsAt, Stale, ShowsRange, InNumberOrder, ArePublished;
    AcceptedShowsTheRun(cfg, seed, calls, states, job, inputs);
    AnyRunKeeps(cfg, seed, calls, states);
    var genesis, latest := job.Anchors().value.genesis, job.Anchors().value.latest.value;
    var sent, s := SentRecords(cfg, calls, states), states[|calls|];
    var records, topic := Range(sent, genesis.seqNo, latest.seqNo), job.evs[0].checkpoint.topic;
    RangeSerialized(Produced(s), sent, genesis.seqNo, latest.seqNo);
    AcceptedTiles(cfg.c, job);
    NumberedMessages(cfg.c, AllRecords(job.evs), genesis.seqNo, topic);
    RowsAreRecords(cfg.c, job.evs);
    AscendingIsDistinct(inp.committed);
    ExactlyOnceInOrder(inp, inp.committed);
    ShownMessages(cfg.c, AllRecords(job.evs), records, genesis.seqNo, topic, SortByOrder(inp.deliveries));
  }
}
