/** What registry entries stand for, epoch by epoch, and what the generated registry holds. */
module Trust {
  import opened Prelude
  import opened Bytes
  import opened Text
  import opened Crypto
  import opened Codec
  import opened Registry
  import opened Evidence
  import opened Generated

  // ---- Entries, epoch by epoch ----

  /** A registry with one publisher answers for exactly its identity and its epochs, the first and the last included. */
  lemma OnePublisherSpeaks(a: PublisherAuth, ws: seq<WitnessAuth>, ps: seq<WitnessPolicy>, client: Text, topic: Text,
                           epoch: int)
    ensures var answer := PublisherFor(Registry([a], ws, ps), client, topic, epoch);
      answer == if a.clientId == client && a.topic == topic && a.epochStart <= epoch
                   && (a.epochEnd == None || epoch <= a.epochEnd.value)
                then Ok(Some(a)) else Ok(None)
  {
    assert [a][..0] == [];
    assert Matches([], client, topic, epoch) == [];
  }

  /** Two entries of one identity are admitted together exactly when one ends before the other begins. */
  lemma TwoPublishers(a: PublisherAuth, b: PublisherAuth)
    requires a.WellFormed() && b.WellFormed()
    ensures Unambiguous(Registry([a, b], [], [])) <==>
      || a.clientId != b.clientId || a.topic != b.topic
      || (a.epochEnd.Some? && a.epochEnd.value < b.epochStart)
      || (b.epochEnd.Some? && b.epochEnd.value < a.epochStart)
  {
    OverlapIsShared(a, b);
    var two := [a, b];
    assert two[0] == a && two[1] == b;
  }

  /** A witness serves its streams from its first epoch to its last, both included. */
  lemma WitnessServes(w: WitnessAuth, streamId: Text, epoch: int)
    ensures w.Authorizes(streamId, epoch) <==>
      streamId in w.streams && epoch >= w.epochStart && (w.epochEnd == None || epoch <= w.epochEnd.value)
  {}

  /** Of several anchors for one stream the first counts. */
  lemma FirstAnchorsCount(anchors: seq<StreamAnchors>, i: nat)
    requires i < |anchors| && forall j :: 0 <= j < i ==> anchors[j].streamId != anchors[i].streamId
    ensures AnchorsFor(anchors, anchors[i].streamId) == Some(anchors[i])
  {
    FirstIsFound(anchors, (a: StreamAnchors) => a.streamId, i);
  }

  /** Without a key or a signature nothing verifies, whatever the library says. */
  lemma NothingVerifiesNothing(c: Crypto, publicKey: Bytes, m: Bytes, signature: Bytes, scheme: Scheme)
    ensures VerifySignature(c, publicKey, m, signature, scheme) <==>
      |publicKey| > 0 && |signature| > 0 && c.verify(publicKey, m, signature, scheme)
  {}

  // ---- The generated registry ----

  lemma {:induction false} LowestEpoch(evs: seq<Evidence>)
    requires evs != []
    ensures forall ev :: ev in evs ==> MinEpoch(evs) <= ev.checkpoint.epoch
    ensures exists ev :: ev in evs && ev.checkpoint.epoch == MinEpoch(evs)
  {
    var n := |evs| - 1;
    var last, lo := evs[n], MinEpoch(evs);
    assert last in evs && lo <= last.checkpoint.epoch;
    if n > 0 {
      LowestEpoch(evs[..n]);
      assert lo <= MinEpoch(evs[..n]);
      var front :| front in evs[..n] && front.checkpoint.epoch == MinEpoch(evs[..n]);
      assert front in evs;
      hide MinEpoch;
      forall ev | ev in evs ensures lo <= ev.checkpoint.epoch {
        assert ev in evs[..n] || ev == last;
      }
    }
  }

  lemma {:induction false} HighestEpoch(evs: seq<Evidence>)
    requires evs != []
    ensures forall ev :: ev in evs ==> ev.checkpoint.epoch <= MaxEpoch(evs)
    ensures exists ev :: ev in evs && ev.checkpoint.epoch == MaxEpoch(evs)
  {
    var n := |evs| - 1;
    var last, hi := evs[n], MaxEpoch(evs);
    assert last in evs && last.checkpoint.epoch <= hi;
    if n > 0 {
      HighestEpoch(evs[..n]);
      assert MaxEpoch(evs[..n]) <= hi;
      var front :| front in evs[..n] && front.checkpoint.epoch == MaxEpoch(evs[..n]);
      assert front in evs;
      hide MaxEpoch;
      forall ev | ev in evs ensures ev.checkpoint.epoch <= hi {
        assert ev in evs[..n] || ev == last;
      }
    }
  }

  lemma {:induction false} ReceiptsOfItems(evs: seq<Evidence>, r: Receipt)
    ensures r in AllReceipts(evs) <==> exists ev :: ev in evs && r in OrEmpty(ev.receipts)
  {
    if evs != [] {
      var n := |evs| - 1;
      ReceiptsOfItems(evs[..n], r);
      assert evs == evs[..n] + [evs[n]];
      if ev :| ev in evs && r in OrEmpty(ev.receipts) {
        assert ev in evs[..n] || ev == evs[n];
      }
      if r in AllReceipts(evs[..n]) {
        var ev :| ev in evs[..n] && r in OrEmpty(ev.receipts);
        assert ev in evs;
      }
      assert evs[n] in evs;
    }
  }

  /** Receipt k is the first of its witness. */
  predicate FirstOfWitness(receipts: seq<Receipt>, k: nat)
    requires k < |receipts|
  {
    forall j :: 0 <= j < k ==> receipts[j].witnessId != receipts[k].witnessId
  }

  lemma {:induction false} EntriesKnow(receipts: seq<Receipt>, stream: Text, id: Text)
    ensures KnownId(WitnessEntries(receipts, stream), id) <==>
      exists k :: 0 <= k < |receipts| && receipts[k].witnessId == id
  {
    if receipts != [] {
      hide KnownId;
      var n := |receipts| - 1;
      EntriesKnow(receipts[..n], stream, id);
      KnownSnoc(WitnessEntries(receipts[..n], stream), EntryFor(receipts[n], stream), id);
      if k :| 0 <= k < |receipts| && receipts[k].witnessId == id {
        assert k < n ==> receipts[..n][k].witnessId == id;
      }
      if k :| 0 <= k < n && receipts[..n][k].witnessId == id {
        assert receipts[k].witnessId == id;
      }
    } else {
      NothingKnown();
    }
  }

  /** Receipt k is the first of its witness, and w the entry made of it: for this stream only, from epoch 0 on. */
  predicate MadeFrom(receipts: seq<Receipt>, stream: Text, w: WitnessAuth, k: nat)
    requires k < |receipts|
  {
    && FirstOfWitness(receipts, k)
    && w == WitnessAuth(receipts[k].witnessId, receipts[k].publicKey, MlDsa65, [stream], 0, None)
  }

  predicate MadeFromSome(receipts: seq<Receipt>, stream: Text, w: WitnessAuth) {
    exists k :: 0 <= k < |receipts| && MadeFrom(receipts, stream, w, k)
  }

  /** The witness entries: one for the first receipt of each witness. */
  lemma {:induction false} EntriesExactly(receipts: seq<Receipt>, stream: Text, w: WitnessAuth)
    ensures w in WitnessEntries(receipts, stream) <==> MadeFromSome(receipts, stream, w)
  {
    if receipts != [] {
      hide MadeFrom, MadeFromSome, KnownId, WitnessEntries;
      var n := |receipts| - 1;
      EntriesExactly(receipts[..n], stream, w);
      EntriesStep(receipts, stream);
      LastMakes(receipts, stream, w);
      MadeGrows(receipts, stream, w);
    }
  }

  lemma MadeGrows(receipts: seq<Receipt>, stream: Text, w: WitnessAuth)
    requires receipts != []
    ensures var n := |receipts| - 1;
      MadeFromSome(receipts, stream, w) <==>
        MadeFromSome(receipts[..n], stream, w) || MadeFrom(receipts, stream, w, n)
  {
    hide FirstOfWitness;
    var n := |receipts| - 1;
    var front := receipts[..n];
    forall k | 0 <= k < n ensures MadeFrom(receipts, stream, w, k) <==> MadeFrom(front, stream, w, k) {
      FirstInFront(receipts, k);
    }
    if MadeFromSome(front, stream, w) {
      var k :| 0 <= k < n && MadeFrom(front, stream, w, k);
      assert MadeFrom(receipts, stream, w, k);
    }
    if MadeFromSome(receipts, stream, w) {
      var k :| 0 <= k <= n && MadeFrom(receipts, stream, w, k);
      assert k < n ==> MadeFrom(front, stream, w, k);
    }
  }

  lemma LastMakes(receipts: seq<Receipt>, stream: Text, w: WitnessAuth)
    requires receipts != []
    ensures var n := |receipts| - 1;
      MadeFrom(receipts, stream, w, n) <==>
        && !KnownId(WitnessEntries(receipts[..n], stream), receipts[n].witnessId)
        && w == WitnessAuth(receipts[n].witnessId, receipts[n].publicKey, MlDsa65, [stream], 0, None)
  {
    hide FirstOfWitness, KnownId, WitnessEntries;
    LastIsFirst(receipts, stream);
  }

  lemma EntriesStep(receipts: seq<Receipt>, stream: Text)
    requires receipts != []
    ensures var n := |receipts| - 1; var front := WitnessEntries(receipts[..n], stream);
      WitnessEntries(receipts, stream)
        == if KnownId(front, receipts[n].witnessId) then front
           else front + [WitnessAuth(receipts[n].witnessId, receipts[n].publicKey, MlDsa65, [stream], 0, None)]
  {}

  lemma FirstInFront(receipts: seq<Receipt>, k: nat)
    requires k < |receipts| - 1
    ensures FirstOfWitness(receipts, k) <==> FirstOfWitness(receipts[..|receipts| - 1], k)
  {}

  lemma LastIsFirst(receipts: seq<Receipt>, stream: Text)
    requires receipts != []
    ensures var n := |receipts| - 1;
      FirstOfWitness(receipts, n) <==> !KnownId(WitnessEntries(receipts[..n], stream), receipts[n].witnessId)
  {
    hide WitnessEntries, KnownId;
    var n := |receipts| - 1;
    EntriesKnow(receipts[..n], stream, receipts[n].witnessId);
    assert forall k :: 0 <= k < n ==> receipts[..n][k] == receipts[k];
    if !FirstOfWitness(receipts, n) {
      var k :| 0 <= k < n && receipts[k].witnessId == receipts[n].witnessId;
      assert receipts[..n][k].witnessId == receipts[n].witnessId;
    }
  }

  /** What the registry generated for some evidence holds. */
  lemma GeneratedHolds(evs: seq<Evidence>, arm: Arm, scheme: Scheme, quorum: Option<int>)
    requires evs != []
    ensures var reg, first := RegistryFor(evs, arm, scheme, quorum), evs[0].checkpoint;
      && |reg.publishers| == 1
      && var p := reg.publishers[0];
      && p.clientId == first.clientId && p.topic == first.topic && p.publicKey == evs[0].publicKey
      && p.scheme == scheme && p.epochEnd.Some?
      && (forall ev :: ev in evs ==> p.epochStart <= ev.checkpoint.epoch <= p.epochEnd.value)
      && (exists ev :: ev in evs && ev.checkpoint.epoch == p.epochStart)
      && (exists ev :: ev in evs && ev.checkpoint.epoch == p.epochEnd.value)
    ensures var reg, stream := RegistryFor(evs, arm, scheme, quorum), StreamOf(evs[0]);
      && (arm != A6 ==> reg.policies == [])
      && (arm == A6 ==>
            |reg.policies| == 1 && reg.policies[0].streamId == stream
            && reg.policies[0].quorum == (if quorum.Some? then quorum.value else |reg.witnesses|)
            && |reg.policies[0].witnessIds| == |reg.witnesses|
            && forall i :: 0 <= i < |reg.witnesses| ==>
                 reg.policies[0].witnessIds[i] == reg.witnesses[i].witnessId)
  {
    hide MinEpoch, MaxEpoch, WitnessEntries, AllReceipts, StreamOf;
    LowestEpoch(evs);
    HighestEpoch(evs);
  }

  /** When the entries generated for some evidence are admissible, in terms of the evidence. */
  lemma GeneratedExactly(evs: seq<Evidence>, arm: Arm, scheme: Scheme, quorum: Option<int>)
    requires evs != []
    ensures EntriesWellFormed(RegistryFor(evs, arm, scheme, quorum)) <==>
      var ws := RegistryFor(evs, arm, scheme, quorum).witnesses;
      && scheme != OtherScheme("")
      && evs[0].checkpoint.clientId != [] && evs[0].checkpoint.topic != [] && evs[0].publicKey != []
      && (forall ev :: ev in evs ==> ev.checkpoint.epoch >= 0)
      && (forall w :: w in ws ==> w.witnessId != [] && w.publicKey != [])
      && (arm == A6 ==> |ws| > 0 && (quorum.Some? ==> 1 <= quorum.value <= |ws|))
  {
    hide MinEpoch, MaxEpoch, WitnessEntries, AllReceipts, StreamOf, WitnessAuth.WellFormed, WitnessPolicy.WellFormed;
    var reg, stream := RegistryFor(evs, arm, scheme, quorum), StreamOf(evs[0]);
    FromEpochZero(evs);
    StreamIsNamed(evs[0]);
    WitnessesAdmissible(AllReceipts(evs), stream);
    PolicyAdmissible(AllReceipts(evs), stream, if quorum.Some? then quorum.value else |reg.witnesses|);
    assert EntriesWellFormed(reg) <==>
      && reg.publishers[0].WellFormed()
      && (forall i :: 0 <= i < |reg.witnesses| ==> reg.witnesses[i].WellFormed())
      && (arm == A6 ==> reg.policies[0].WellFormed());
  }

  lemma FromEpochZero(evs: seq<Evidence>)
    requires evs != []
    ensures 0 <= MinEpoch(evs) <==> forall ev :: ev in evs ==> ev.checkpoint.epoch >= 0
    ensures MinEpoch(evs) <= MaxEpoch(evs)
  {
    hide MinEpoch, MaxEpoch;
    LowestEpoch(evs);
    HighestEpoch(evs);
  }

  lemma WitnessesAdmissible(receipts: seq<Receipt>, stream: Text)
    requires stream != []
    ensures var ws := WitnessEntries(receipts, stream);
      (forall i :: 0 <= i < |ws| ==> ws[i].WellFormed()) <==>
      (forall w :: w in ws ==> w.witnessId != [] && w.publicKey != [])
  {
    hide WitnessEntries, WitnessAuth.WellFormed;
    var ws := WitnessEntries(receipts, stream);
    forall i | 0 <= i < |ws| ensures ws[i].WellFormed() <==> ws[i].witnessId != [] && ws[i].publicKey != [] {
      EntryFields(receipts, stream, ws[i]);
    }
  }

  lemma PolicyAdmissible(receipts: seq<Receipt>, stream: Text, quorum: int)
    requires stream != []
    ensures var ws := WitnessEntries(receipts, stream);
      WitnessPolicy(stream, quorum, EntryIds(ws)).WellFormed() <==> 1 <= quorum <= |ws|
  {
    hide WitnessEntries;
    EntriesAreClean(receipts, stream);
    NamesDiffer(WitnessEntries(receipts, stream));
  }

  lemma NamesDiffer(ws: seq<WitnessAuth>)
    requires WitnessIdsUnique(ws)
    ensures Distinct(EntryIds(ws))
  {}

  lemma StreamIsNamed(ev: Evidence)
    ensures StreamOf(ev) != []
  {}

  lemma EntryFields(receipts: seq<Receipt>, stream: Text, w: WitnessAuth)
    requires w in WitnessEntries(receipts, stream) && stream != []
    ensures w.scheme == MlDsa65 && w.streams == [stream] && w.epochStart == 0 && w.epochEnd == None
    ensures w.WellFormed() <==> w.witnessId != [] && w.publicKey != []
  {
    hide WitnessEntries, FirstOfWitness;
    EntriesExactly(receipts, stream, w);
    var k :| 0 <= k < |receipts| && MadeFrom(receipts, stream, w, k);
  }

  /** The generated anchors start at number 1 from the zero anchor and end where the evidence does. */
  lemma GeneratedAnchors(evs: seq<Evidence>, validUntil: Option<real>)
    requires evs != []
    ensures var made := AnchorsForGenerated(evs, validUntil);
      && made.Ok? && |made.value| == 1
      && var a, last := made.value[0], evs[|evs| - 1].checkpoint;
      && a.streamId == StreamOf(evs[0])
      && a.genesis.epoch == 0 && a.genesis.seqNo == 1 && |a.genesis.anchor| == 32
      && (forall i :: 0 <= i < 32 ==> a.genesis.anchor[i] == 0)
      && a.latest.Some? && a.latest.value.anchor == last.endAnchor && a.latest.value.epoch == last.epoch
      && a.latest.value.seqNo == last.seqEnd && a.latest.value.validUntil == validUntil
  {
    hide StreamOf;
  }
}
