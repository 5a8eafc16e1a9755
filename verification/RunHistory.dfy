/** The history a run seals: what an honest publisher did, and what an accepted stream therefore shows. */
module RunHistory {
  import opened Prelude
  import opened Bytes
  import opened Text
  import opened Crypto
  import opened Codec
  import opened Evidence
  import opened ItemAudit
  import opened StreamAudit
  import opened Tiling
  import opened Soundness
  import opened ArmSpec
  import opened RunInvariant

  /** A run in the invariant whose records are numbered 1, 2, 3, ... on its topic. */
  ghost predicate Regular(cfg: Config, s: ArmState) {
    cfg.Supported() && Keeps(cfg, s) && Numbered(Produced(s), 1, cfg.topic)
  }

  lemma RunIsRegular(cfg: Config, seed: Bytes, calls: seq<Call>)
    requires cfg.Supported() && After(cfg, seed, calls).Ok? && InOrder(cfg, calls)
    ensures Regular(cfg, After(cfg, seed, calls).value)
  {
    hide After, Keeps, InOrder, Numbered;
    RunKeeps(cfg, seed, calls);
    RunIsNumbered(cfg, seed, calls);
  }

  /** Where batch e lies in the list of all records. */
  lemma BatchInPlace(s: ArmState, e: nat)
    requires e < |s.sealed|
    ensures AllRecords(s.sealed[..e]) + s.sealed[e].records == AllRecords(s.sealed[..e + 1]) <= Produced(s)
  {
    PrefixRecords(s.sealed, e);
    assert AllRecords(s.sealed) <= Produced(s);
  }

  lemma NumberedSlice(records: seq<Bytes>, prefix: seq<Bytes>, batch: seq<Bytes>, topic: Text)
    requires prefix + batch <= records && Numbered(records, 1, topic)
    ensures forall k :: 0 <= k < |batch| ==> IsNumber(batch[k], 1 + |prefix| + k, topic)
  {
    hide IsNumber;
    forall k | 0 <= k < |batch| ensures IsNumber(batch[k], 1 + |prefix| + k, topic) {
      assert batch[k] == (prefix + batch)[|prefix| + k] == records[|prefix| + k];
      assert IsNumber(records[|prefix| + k], 1 + (|prefix| + k), topic);
    }
  }

  /** Each batch of a numbered run fits its checkpoint's range. */
  lemma ItemRecordsFit(cfg: Config, s: ArmState, e: nat)
    requires Regular(cfg, s) && e < |s.sealed|
    ensures RecordsFit(s.sealed[e])
  {
    hide HonestCommitment, GoodReceipts, CheckpointFits, AllRecords;
    BatchInPlace(s, e);
    NumberedSlice(Produced(s), AllRecords(s.sealed[..e]), s.sealed[e].records, cfg.topic);
    assert ItemInPlace(cfg, s.sealed, e);
    var ev := s.sealed[e];
    forall k | 0 <= k < |ev.records| ensures RecordAt(ev.checkpoint, ev.records[k], k) {
      assert IsNumber(ev.records[k], 1 + |AllRecords(s.sealed[..e])| + k, cfg.topic);
    }
  }

  /** Whatever numbers a run is fed, its sealed items are an honest history. */
  lemma RunSealsHistory(cfg: Config, s: ArmState)
    requires cfg.Supported() && Keeps(cfg, s)
    ensures SealedHistory(cfg.c, cfg.arm, cfg.client, cfg.topic, s.sealed)
  {
    hide CheckpointFits, GoodReceipts, AllRecords, PrevAnchor;
    forall e | 0 <= e < |s.sealed| ensures SealedAt(cfg.c, cfg.arm, cfg.client, cfg.topic, s.sealed, e) {
      assert ItemInPlace(cfg, s.sealed, e);
    }
  }

  // ---- Batches and the records of a run ----

  /** The records a run was given at the positions of a range. */
  function Range(records: seq<Record>, first: int, last: int): seq<Record>
    requires 1 <= first <= last + 1 && last <= |records|
  {
    records[first - 1..last]
  }

  /** The records count on from `first`. */
  predicate InNumberOrder(records: seq<Record>, first: int) {
    forall k :: 0 <= k < |records| ==> records[k].seqNo == first + k
  }

  lemma RawsAreSerialized(raws: seq<Bytes>, records: seq<Record>)
    requires SerializedAre(raws, records)
    ensures raws == Raws(records)
  {
    hide RecordFits, RecordBytes;
    forall k | 0 <= k < |raws| ensures raws[k] == Raws(records)[k] {
      SerializedIsRaw(records[k], raws[k]);
    }
  }

  lemma SerializedIsRaw(r: Record, raw: Bytes)
    requires SerializeRecord(r) == Ok(raw)
    ensures raw == Raw(r) && DecodedRecord(raw) == Some(r)
  {
    RecordRoundTrip(r);
  }

  lemma RawsSlice(records: seq<Record>, i: nat, j: nat)
    requires i <= j <= |records|
    ensures Raws(records)[i..j] == Raws(records[i..j])
  {
    hide Raw;
  }

  /** The sealed batch holds the records given at the positions of its range. */
  lemma BatchIsRange(cfg: Config, s: ArmState, records: seq<Record>, e: nat)
    requires cfg.Supported() && Keeps(cfg, s) && SerializedAre(Produced(s), records) && e < |s.sealed|
    ensures var ckpt := s.sealed[e].checkpoint;
      && ckpt.seqStart == |AllRecords(s.sealed[..e])| + 1 && ckpt.seqEnd == |AllRecords(s.sealed[..e + 1])|
      && 1 <= ckpt.seqStart <= ckpt.seqEnd <= |records|
      && s.sealed[e].records == Raws(Range(records, ckpt.seqStart, ckpt.seqEnd))
  {
    hide HonestCommitment, GoodReceipts, CheckpointFits, AllRecords, Raws, SerializedAre;
    BatchInPlace(s, e);
    assert ItemInPlace(cfg, s.sealed, e);
    SerializedLength(Produced(s), records);
    RawsAreSerialized(Produced(s), records);
    var p, batch := |AllRecords(s.sealed[..e])|, s.sealed[e].records;
    SliceAt(Produced(s), AllRecords(s.sealed[..e]), batch);
    RawsSlice(records, p, p + |batch|);
  }

  lemma SerializedLength(raws: seq<Bytes>, records: seq<Record>)
    requires SerializedAre(raws, records)
    ensures |raws| == |records|
  {}

  lemma SliceAt(all: seq<Bytes>, front: seq<Bytes>, batch: seq<Bytes>)
    requires front + batch <= all
    ensures |front| + |batch| <= |all| && all[|front|..|front| + |batch|] == batch
  {
    assert (front + batch)[|front|..|front| + |batch|] == batch;
  }

  /** Decoded: the range's records, in the sealed order. */
  lemma RangeIsDecoded(records: seq<Record>, raws: seq<Bytes>, k: nat)
    requires SerializedAre(raws, records) && k < |records|
    ensures DecodedRecord(raws[k]) == Some(records[k])
  {
    SerializedIsRaw(records[k], raws[k]);
  }

  // ---- What an accepted stream shows of a run ----

  /** The presented item shows the records given at the positions of its signed range, up to order. */
  ghost predicate ShowsRange(records: seq<Record>, ev: Evidence) {
    var ckpt := ev.checkpoint;
    && 1 <= ckpt.seqStart <= ckpt.seqEnd <= |records|
    && multiset(ev.records) == multiset(Raws(Range(records, ckpt.seqStart, ckpt.seqEnd)))
  }

  /** A batch is sealed in number order exactly when its range of records counts on from the range's start. */
  lemma FitsExactly(cfg: Config, s: ArmState, records: seq<Record>, e: nat, ev: Evidence)
    requires cfg.Supported() && Keeps(cfg, s) && SerializedAre(Produced(s), records) && e < |s.sealed|
    requires RecordsFit(ev) && SameBatch(ev, s.sealed[e])
    ensures ShowsRange(records, ev)
    ensures var ckpt := ev.checkpoint;
      ev.records == s.sealed[e].records <==> InNumberOrder(Range(records, ckpt.seqStart, ckpt.seqEnd), ckpt.seqStart)
  {
    hide Keeps, AllRecords, Raws, SerializedAre, RecordAt;
    BatchIsRange(cfg, s, records, e);
    var sealed, ckpt := s.sealed[e], ev.checkpoint;
    var range := Range(records, ckpt.seqStart, ckpt.seqEnd);
    RangeSerialized(Produced(s), records, ckpt.seqStart, ckpt.seqEnd);
    OrderDecides(ev, sealed, range);
  }

  lemma RangeSerialized(raws: seq<Bytes>, records: seq<Record>, first: int, last: int)
    requires SerializedAre(raws, records) && 1 <= first <= last <= |records|
    ensures SerializedAre(Raws(Range(records, first, last)), Range(records, first, last))
  {
    hide Raw, SerializeRecord;
    RawsAreSerialized(raws, records);
    RawsSlice(records, first - 1, last);
    forall k | 0 <= k < last - first + 1
      ensures SerializeRecord(Range(records, first, last)[k]) == Ok(Raws(Range(records, first, last))[k])
    {
      assert Raws(Range(records, first, last))[k] == raws[first - 1 + k];
    }
  }

  /** Among records shown up to order, the sealed list fits exactly when it counts on from the start. */
  lemma OrderDecides(ev: Evidence, sealed: Evidence, range: seq<Record>)
    requires RecordsFit(ev) && SameBatch(ev, sealed) && SerializedAre(sealed.records, range)
    ensures ev.records == sealed.records <==> InNumberOrder(range, ev.checkpoint.seqStart)
  {
    hide SerializeRecord, DecodedRecord;
    forall k | 0 <= k < |range| ensures DecodedRecord(sealed.records[k]) == Some(range[k]) {
      RangeIsDecoded(range, sealed.records, k);
    }
    if InNumberOrder(range, ev.checkpoint.seqStart) {
      assert |ev.records| == |sealed.records| by { SameSize(ev.records, sealed.records); }
      forall k | 0 <= k < |sealed.records| ensures RecordAt(sealed.checkpoint, sealed.records[k], k) {
        TopicIsShown(ev, sealed.records, k);
      }
    }
    if ev.records == sealed.records {
      forall k | 0 <= k < |range| ensures range[k].seqNo == ev.checkpoint.seqStart + k {
        assert RecordAt(ev.checkpoint, ev.records[k], k);
      }
    }
  }

  lemma SameSize<T>(a: seq<T>, b: seq<T>)
    requires multiset(a) == multiset(b)
    ensures |a| == |b|
  {
    assert |multiset(a)| == |a| && |multiset(b)| == |b|;
  }

  lemma TopicIsShown(ev: Evidence, records: seq<Bytes>, k: nat)
    requires RecordsFit(ev) && multiset(ev.records) == multiset(records) && k < |records|
    ensures DecodedRecord(records[k]).Some? && DecodedRecord(records[k]).value.topic == ev.checkpoint.topic
  {
    hide DecodedRecord;
    assert records[k] in multiset(ev.records);
    var i :| 0 <= i < |ev.records| && ev.records[i] == records[k];
    assert RecordAt(ev.checkpoint, ev.records[i], i);
  }

  /** Item by item, the presented stream shows the run's sealed items from epoch `first` on. */
  ghost predicate ShowsFrom(s: ArmState, evs: seq<Evidence>, first: int) {
    && 0 <= first && first + |evs| <= |s.sealed|
    && forall i :: 0 <= i < |evs| ==> RecordsFit(evs[i]) && SameBatch(evs[i], s.sealed[first + i])
  }

  /** The list `all` holds `front` and, up to order, `shown`. */
  ghost predicate Completes<T>(front: seq<T>, shown: seq<T>, all: seq<T>) {
    |front| + |shown| == |all| && multiset(front) + multiset(shown) == multiset(all)
  }

  /** All the records shown are, up to order, those of the sealed items. */
  lemma {:induction false} ShownUpToOrder(s: ArmState, evs: seq<Evidence>, first: int)
    requires ShowsFrom(s, evs, first)
    ensures Completes(AllRecords(s.sealed[..first]), AllRecords(evs), AllRecords(s.sealed[..first + |evs|]))
  {
    hide RecordsFit, SameBatch, Completes;
    if evs == [] {
      assert s.sealed[..first + |evs|] == s.sealed[..first];
      NothingCompletes(AllRecords(s.sealed[..first]));
    } else {
      var n := |evs| - 1;
      assert ShowsFrom(s, evs[..n], first);
      ShownUpToOrder(s, evs[..n], first);
      hide AllRecords;
      PrefixRecords(s.sealed, first + n);
      PrefixRecords(evs, n);
      assert evs[..n + 1] == evs;
      SameUpToOrder(evs[n], s.sealed[first + n]);
      OneMoreBatch(AllRecords(s.sealed[..first]), AllRecords(evs[..n]), AllRecords(s.sealed[..first + n]),
                   evs[n].records, s.sealed[first + n].records);
    }
  }

  lemma NothingCompletes<T>(front: seq<T>)
    ensures Completes(front, [], front)
  {}

  lemma SameUpToOrder(a: Evidence, b: Evidence)
    requires SameBatch(a, b)
    ensures multiset(a.records) == multiset(b.records)
  {}

  lemma OneMoreBatch<T>(front: seq<T>, shown: seq<T>, all: seq<T>, a: seq<T>, b: seq<T>)
    requires Completes(front, shown, all) && multiset(a) == multiset(b)
    ensures Completes(front, shown + a, all + b)
  {
    SameSize(a, b);
    MultisetOfConcat(shown, a);
    MultisetOfConcat(all, b);
  }

  /** Every shown list is the sealed one. */
  predicate InSealedOrder(s: ArmState, evs: seq<Evidence>, first: int)
    requires 0 <= first && first + |evs| <= |s.sealed|
  {
    forall i :: 0 <= i < |evs| ==> evs[i].records == s.sealed[first + i].records
  }

  /** Shown in the sealed order throughout, they are the sealed list. */
  lemma {:induction false} ShownInOrder(s: ArmState, evs: seq<Evidence>, first: int)
    requires ShowsFrom(s, evs, first) && InSealedOrder(s, evs, first)
    ensures AllRecords(s.sealed[..first]) + AllRecords(evs) == AllRecords(s.sealed[..first + |evs|])
  {
    hide RecordsFit, SameBatch;
    if evs == [] {
      assert s.sealed[..first + |evs|] == s.sealed[..first];
    } else {
      var n := |evs| - 1;
      assert ShowsFrom(s, evs[..n], first);
      ShownInOrder(s, evs[..n], first);
      hide AllRecords;
      PrefixRecords(s.sealed, first + n);
      PrefixRecords(evs, n);
      assert evs[..n + 1] == evs;
      Associative(AllRecords(s.sealed[..first]), AllRecords(evs[..n]), evs[n].records);
    }
  }

  /**
   * What acceptance shows of the records a run was given: those at positions first to last, each once and unchanged;
   * batch by batch up to order; and in the order given exactly when they were numbered in that order.
   */
  ghost predicate ShowsRecords(records: seq<Record>, evs: seq<Evidence>, first: int, last: int) {
    && 1 <= first <= last <= |records|
    && (forall i :: 0 <= i < |evs| ==> ShowsRange(records, evs[i]))
    && multiset(AllRecords(evs)) == multiset(Raws(Range(records, first, last)))
    && (AllRecords(evs) == Raws(Range(records, first, last)) <==> InNumberOrder(Range(records, first, last), first))
  }

  /** What is accepted of a sealed run, item by item. */
  lemma AcceptedShowsItems(cfg: Config, s: ArmState, job: Job, inputs: set<Bytes>)
    requires cfg.Supported() && Keeps(cfg, s)
    requires job.arm == cfg.arm && job.Accepted(cfg.c) && StreamOf(job.evs[0]) == cfg.StreamId()
    requires NothingForged(cfg.c, job.registry.value, cfg.client, cfg.topic, s.sealed, job.evs)
    requires NoCollision(cfg.c, cfg.arm, s.sealed, job.evs, inputs)
    ensures ShowsFrom(s, job.evs, job.Anchors().value.genesis.epoch)
    ensures cfg.arm == A3 ==> InSealedOrder(s, job.evs, job.Anchors().value.genesis.epoch)
  {
    hide Keeps, SealedHistory, NothingForged, NoCollision, LinkedAt, RecordsFit, AllRecords, StreamVerified, SameBatch,
         StreamOf;
    RunSealsHistory(cfg, s);
    AcceptedIsSealed(cfg.c, job, cfg.client, cfg.topic, s.sealed, inputs);
    VerifiedIsLinked(cfg.c, job);
    var genesis := job.Anchors().value.genesis;
    forall i | 0 <= i < |job.evs| ensures RecordsFit(job.evs[i]) {
      assert LinkedAt(genesis, job.evs, i);
    }
  }

  /** Where the shown range lies. */
  lemma RangeOfStream(cfg: Config, s: ArmState, records: seq<Record>, job: Job)
    requires cfg.Supported() && Keeps(cfg, s) && SerializedAre(Produced(s), records) && job.Accepted(cfg.c)
    requires ShowsFrom(s, job.evs, job.Anchors().value.genesis.epoch)
    ensures var genesis, latest := job.Anchors().value.genesis, job.Anchors().value.latest.value;
      && job.evs != [] && 1 <= genesis.seqNo <= latest.seqNo <= |records|
      && genesis.seqNo == |AllRecords(s.sealed[..genesis.epoch])| + 1
      && latest.seqNo == |AllRecords(s.sealed[..genesis.epoch + |job.evs|])|
  {
    hide Keeps, SerializedAre, StreamVerified, AllRecords, RecordsFit, Raws, Range, SameBatch, Numbered;
    var genesis := job.Anchors().value.genesis;
    FirstLink(cfg.c, job);
    FirstBatch(cfg, s, records, job.evs, genesis.epoch);
    ShownUpToOrder(s, job.evs, genesis.epoch);
    AcceptedTiles(cfg.c, job);
    AcceptedIsNotEmpty(cfg.c, job);
    SealedPrefixes(s, genesis.epoch, genesis.epoch + |job.evs|);
    SerializedLength(Produced(s), records);
  }

  lemma FirstLink(c: Crypto, job: Job)
    requires job.Verified(c)
    ensures job.evs != [] && job.evs[0].checkpoint.seqStart == job.Anchors().value.genesis.seqNo
  {
    hide RecordsFit, StreamVerified, StreamOf;
    VerifiedIsLinked(c, job);
    assert LinkedAt(job.Anchors().value.genesis, job.evs, 0);
  }

  lemma FirstBatch(cfg: Config, s: ArmState, records: seq<Record>, evs: seq<Evidence>, first: int)
    requires cfg.Supported() && Keeps(cfg, s) && SerializedAre(Produced(s), records)
    requires ShowsFrom(s, evs, first) && evs != []
    ensures evs[0].checkpoint.seqStart == |AllRecords(s.sealed[..first])| + 1
  {
    hide Keeps, SerializedAre, AllRecords, RecordsFit, Raws;
    assert SameBatch(evs[0], s.sealed[first + 0]);
    BatchIsRange(cfg, s, records, first);
  }

  /** The shown list as a whole, once every item is known to show its batch. */
  lemma ShownAsAWhole(s: ArmState, records: seq<Record>, evs: seq<Evidence>, first: int, from: int, to: int)
    requires SerializedAre(Produced(s), records) && ShowsFrom(s, evs, first) && evs != []
    requires from == |AllRecords(s.sealed[..first])| + 1 && to == |AllRecords(s.sealed[..first + |evs|])|
    requires 1 <= from <= to <= |records|
    ensures multiset(AllRecords(evs)) == multiset(Raws(Range(records, from, to)))
    ensures InSealedOrder(s, evs, first) ==> AllRecords(evs) == Raws(Range(records, from, to))
  {
    hide AllRecords, SerializedAre, Raws, InSealedOrder, RecordsFit, SameBatch, Range, Produced;
    var front, middle := AllRecords(s.sealed[..first]), Raws(Range(records, from, to));
    SealedMiddle(s, records, first, first + |evs|);
    ShownUpToOrder(s, evs, first);
    MultisetOfConcat(front, middle);
    SameRest(multiset(front), multiset(AllRecords(evs)), multiset(middle));
    if InSealedOrder(s, evs, first) {
      ShownInOrder(s, evs, first);
      SplitConcat(front, AllRecords(evs), front, middle);
    }
  }

  lemma SameRest<T>(front: multiset<T>, a: multiset<T>, b: multiset<T>)
    requires front + a == front + b
    ensures a == b
  {
    assert a == front + a - front && b == front + b - front;
  }

  /** The sealed items from i up to j hold the records at the positions in between. */
  lemma SealedMiddle(s: ArmState, records: seq<Record>, i: nat, j: nat)
    requires SerializedAre(Produced(s), records) && i <= j <= |s.sealed|
    ensures var from, to := |AllRecords(s.sealed[..i])| + 1, |AllRecords(s.sealed[..j])|;
      && from <= to + 1 && to <= |records|
      && AllRecords(s.sealed[..i]) + Raws(Range(records, from, to)) == AllRecords(s.sealed[..j])
  {
    hide AllRecords, SerializedAre, Raws, Produced;
    SealedPrefixes(s, i, j);
    var front, upTo := AllRecords(s.sealed[..i]), AllRecords(s.sealed[..j]);
    SerializedLength(Produced(s), records);
    RawsAreSerialized(Produced(s), records);
    RawsSlice(records, |front|, |upTo|);
    var middle := upTo[|front|..];
    assert upTo == front + middle;
    SliceAt(Produced(s), front, middle);
  }

  lemma SealedPrefixes(s: ArmState, i: nat, j: nat)
    requires i <= j <= |s.sealed|
    ensures AllRecords(s.sealed[..i]) <= AllRecords(s.sealed[..j]) <= Produced(s)
  {
    hide AllRecords;
    assert s.sealed[..j][..i] == s.sealed[..i];
    PrefixOfAllRecords(s.sealed[..j], i);
    PrefixOfAllRecords(s.sealed, j);
  }

  /** Records shown in the order given are numbered in that order, since accepted records are numbered. */
  lemma ShownOrderIsNumbered(c: Crypto, job: Job, records: seq<Record>, first: int, last: int)
    requires job.Accepted(c) && job.Anchors().value.genesis.seqNo == first && 1 <= first <= last <= |records|
    requires AllRecords(job.evs) == Raws(Range(records, first, last))
    requires SerializedAre(Raws(Range(records, first, last)), Range(records, first, last))
    ensures InNumberOrder(Range(records, first, last), first)
  {
    hide StreamVerified, AllRecords, DecodedRecord, SerializedAre;
    AcceptedTiles(c, job);
    var range := Range(records, first, last);
    forall k | 0 <= k < |range| ensures range[k].seqNo == first + k {
      assert IsNumber(AllRecords(job.evs)[k], first + k, job.evs[0].checkpoint.topic);
      RangeIsDecoded(range, Raws(range), k);
    }
  }

  /** The core of the end-to-end result, about whatever state a run has led to. */
  lemma AcceptedShowsState(cfg: Config, s: ArmState, records: seq<Record>, job: Job, inputs: set<Bytes>)
    requires cfg.Supported() && Keeps(cfg, s) && SerializedAre(Produced(s), records)
    requires job.arm == cfg.arm && job.Accepted(cfg.c) && StreamOf(job.evs[0]) == cfg.StreamId()
    requires NothingForged(cfg.c, job.registry.value, cfg.client, cfg.topic, s.sealed, job.evs)
    requires NoCollision(cfg.c, cfg.arm, s.sealed, job.evs, inputs)
    ensures ShowsRecords(records, job.evs, job.Anchors().value.genesis.seqNo, job.Anchors().value.latest.value.seqNo)
    ensures var genesis, latest := job.Anchors().value.genesis, job.Anchors().value.latest.value;
      cfg.arm == A3 ==> AllRecords(job.evs) == Raws(Range(records, genesis.seqNo, latest.seqNo))
  {
    hide Keeps, NothingForged, NoCollision, SerializedAre, AllRecords, StreamVerified, RecordsFit, SameBatch,
         Raws, InNumberOrder, ShowsRange, StreamOf;
    var genesis, latest := job.Anchors().value.genesis, job.Anchors().value.latest.value;
    AcceptedShowsItems(cfg, s, job, inputs);
    RangeOfStream(cfg, s, records, job);
    RangeSerialized(Produced(s), records, genesis.seqNo, latest.seqNo);
    ShownAsAWhole(s, records, job.evs, genesis.epoch, genesis.seqNo, latest.seqNo);
    forall i | 0 <= i < |job.evs|
      ensures ShowsRange(records, job.evs[i])
      ensures InNumberOrder(Range(records, genesis.seqNo, latest.seqNo), genesis.seqNo)
        ==> job.evs[i].records == s.sealed[genesis.epoch + i].records
    {
      FitsExactly(cfg, s, records, genesis.epoch + i, job.evs[i]);
      RangeWithin(cfg, s, records, job, i);
    }
    if AllRecords(job.evs) == Raws(Range(records, genesis.seqNo, latest.seqNo)) {
      ShownOrderIsNumbered(cfg.c, job, records, genesis.seqNo, latest.seqNo);
    }
  }

  /** Where the whole range counts on from its start, so does the range of each item. */
  lemma RangeWithin(cfg: Config, s: ArmState, records: seq<Record>, job: Job, i: nat)
    requires cfg.Supported() && Keeps(cfg, s) && SerializedAre(Produced(s), records) && job.Accepted(cfg.c)
    requires ShowsFrom(s, job.evs, job.Anchors().value.genesis.epoch) && i < |job.evs|
    ensures var genesis, latest := job.Anchors().value.genesis, job.Anchors().value.latest.value;
      var ckpt := job.evs[i].checkpoint;
      && 1 <= genesis.seqNo <= ckpt.seqStart <= ckpt.seqEnd <= latest.seqNo <= |records|
      && (InNumberOrder(Range(records, genesis.seqNo, latest.seqNo), genesis.seqNo) ==>
            InNumberOrder(Range(records, ckpt.seqStart, ckpt.seqEnd), ckpt.seqStart))
  {
    hide Keeps, SerializedAre, StreamVerified, AllRecords, RecordsFit, Raws, InNumberOrder;
    var genesis, latest, ckpt := job.Anchors().value.genesis, job.Anchors().value.latest.value, job.evs[i].checkpoint;
    RangeOfStream(cfg, s, records, job);
    assert SameBatch(job.evs[i], s.sealed[genesis.epoch + i]);
    BatchIsRange(cfg, s, records, genesis.epoch + i);
    SealedPrefixes(s, genesis.epoch, genesis.epoch + i);
    SealedPrefixes(s, genesis.epoch + i + 1, genesis.epoch + |job.evs|);
    NumberOrderWithin(records, genesis.seqNo, latest.seqNo, ckpt.seqStart, ckpt.seqEnd);
  }

  lemma NumberOrderWithin(records: seq<Record>, first: int, last: int, from: int, to: int)
    requires 1 <= first <= from <= to <= last <= |records|
    ensures InNumberOrder(Range(records, first, last), first) ==> InNumberOrder(Range(records, from, to), from)
  {
    var whole, part := Range(records, first, last), Range(records, from, to);
    assert forall k :: 0 <= k < |part| ==> part[k] == whole[from - first + k];
  }

  /**
   * End to end, for every run, with exceptions caught or not and whatever numbers the records carry. If
   * `audit_stream` accepts any evidence at all for the arm's stream, from whatever source but without forged
   * signatures, then it shows the serialised records the application sent at positions genesis.seq to latest.seq,
   * nothing missing, nothing added, nothing changed, in the order sent exactly when they were numbered in that order;
   * for A3 always in the order sent.
   */
  lemma AcceptedShowsTheRun(cfg: Config, seed: Bytes, calls: seq<Call>, states: seq<ArmState>, job: Job,
                            inputs: set<Bytes>)
    requires cfg.Supported() && Runs(cfg, seed, calls, states)
    requires job.arm == cfg.arm && job.Accepted(cfg.c) && StreamOf(job.evs[0]) == cfg.StreamId()
    requires var sealed := states[|calls|].sealed;
      && NothingForged(cfg.c, job.registry.value, cfg.client, cfg.topic, sealed, job.evs)
      && NoCollision(cfg.c, cfg.arm, sealed, job.evs, inputs)
    ensures var records, genesis, latest :=
      SentRecords(cfg, calls, states), job.Anchors().value.genesis, job.Anchors().value.latest.value;
      && ShowsRecords(records, job.evs, genesis.seqNo, latest.seqNo)
      && (cfg.arm == A3 ==> AllRecords(job.evs) == Raws(Range(records, genesis.seqNo, latest.seqNo)))
  {
    hide Steps, Keeps, NothingForged, NoCollision, SerializedAre, StreamVerified, StreamOf, ShowsRecords;
    AnyRunKeeps(cfg, seed, calls, states);
    AcceptedShowsState(cfg, states[|calls|], SentRecords(cfg, calls, states), job, inputs);
  }

  /**
   * The case of a disciplined run, which numbers its records 1, 2, 3, ... and meets no exception: the raw records
   * shown are the serialised records added, number genesis.seq to number latest.seq, in order.
   */
  lemma AcceptedShowsNumberedRun(cfg: Config, seed: Bytes, calls: seq<Call>, job: Job, inputs: set<Bytes>)
    requires cfg.Supported() && After(cfg, seed, calls).Ok? && InOrder(cfg, calls)
    requires job.arm == cfg.arm && job.Accepted(cfg.c) && StreamOf(job.evs[0]) == cfg.StreamId()
    requires var s := After(cfg, seed, calls).value;
      && NothingForged(cfg.c, job.registry.value, cfg.client, cfg.topic, s.sealed, job.evs)
      && NoCollision(cfg.c, cfg.arm, s.sealed, job.evs, inputs)
    ensures var genesis, latest := job.Anchors().value.genesis, job.Anchors().value.latest.value;
      && 1 <= genesis.seqNo <= latest.seqNo <= |Added(calls)|
      && SerializedAre(AllRecords(job.evs), Added(calls)[genesis.seqNo - 1..latest.seqNo])
  {
    hide After, Keeps, InOrder, NothingForged, NoCollision, SerializedAre, Added, AllRecords, StreamVerified, StreamOf,
         Raws, ShowsRange;
    var s := After(cfg, seed, calls).value;
    var genesis, latest := job.Anchors().value.genesis, job.Anchors().value.latest.value;
    RunKeeps(cfg, seed, calls);
    InOrderNumbers(cfg, calls);
    AcceptedShowsState(cfg, s, Added(calls), job, inputs);
    RangeSerialized(Produced(s), Added(calls), genesis.seqNo, latest.seqNo);
    assert InNumberOrder(Range(Added(calls), genesis.seqNo, latest.seqNo), genesis.seqNo);
  }

  lemma AcceptedIsNotEmpty(c: Crypto, job: Job)
    requires job.Accepted(c)
    ensures AllRecords(job.evs) != []
  {
    hide LinkedAt;
    VerifiedIsLinked(c, job);
    assert RecordsFit(job.evs[|job.evs| - 1]);
  }
}
