/** End-to-end completeness: what an honest arm seals is accepted against its generated registry and anchors. */
module Completeness {
  import opened Prelude
  import opened Bytes
  import opened Text
  import opened Crypto
  import opened Codec
  import opened Merkle
  import HashChain
  import opened Registry
  import opened Evidence
  import opened Receipts
  import opened ItemAudit
  import opened StreamAudit
  import opened Tiling
  import opened Soundness
  import opened Witness
  import opened Generated
  import opened ArmSpec
  import opened RunInvariant
  import opened RunHistory

  // ---- What completeness needs ----

  /** Named stream, working signatures, and different witnesses with different keys; A6 has at least one. */
  ghost predicate HonestSetup(cfg: Config) {
    && cfg.Supported() && cfg.client != [] && cfg.topic != []
    && SignsCorrectly(cfg.c, cfg.publicKey, ExpectedScheme(cfg.arm).value)
    && (forall i :: 0 <= i < |cfg.witnessKeys| ==> SignsCorrectly(cfg.c, cfg.witnessKeys[i], MlDsa65))
    && Distinct(cfg.witnessKeys)
    && (cfg.arm == A6 ==> cfg.witnessKeys != [])
  }

  /** Among everything hashed (batches, records, witness keys) nothing collides and nothing hashes to zero. */
  ghost predicate GoodHashes(cfg: Config, sealed: seq<Evidence>, inputs: set<Bytes>) {
    && NoCollision(cfg.c, cfg.arm, sealed, sealed, inputs) && NeverZero(cfg.c.hash, inputs)
    && (forall r :: r in AllRecords(sealed) ==> r in inputs)
    && (forall k :: k in cfg.witnessKeys ==> k in inputs)
  }

  /** A quorum the arm's witnesses can meet; only A6 evidence has one. */
  predicate QuorumReached(cfg: Config, q: Option<int>) {
    cfg.arm == A6 && q.Some? ==> q.value <= |cfg.witnessKeys|
  }

  /** A quorum the generated policy may carry. */
  predicate QuorumFits(cfg: Config, quorum: Option<int>) {
    QuorumReached(cfg, quorum) && (cfg.arm == A6 && quorum.Some? ==> quorum.value > 0)
  }

  const GENESIS: Position := Position(ZERO_ANCHOR, 0, 1, None)

  // ---- Links ----

  lemma SealedAtPlace(cfg: Config, s: ArmState, e: nat)
    requires Keeps(cfg, s) && e < |s.sealed|
    ensures var ckpt := s.sealed[e].checkpoint;
      && StreamOf(s.sealed[e]) == cfg.StreamId() && ckpt.epoch == e && ckpt.seqStart <= ckpt.seqEnd
      && ckpt.prevAnchor == PrevAnchor(s.sealed[..e]) && ckpt.seqStart == |AllRecords(s.sealed[..e])| + 1
      && ckpt.seqEnd == |AllRecords(s.sealed[..e + 1])|
  {
    hide HonestCommitment, GoodReceipts, CheckpointFits, CanonicalStreamId;
    assert ItemInPlace(cfg, s.sealed, e);
    PrefixRecords(s.sealed, e);
  }

  lemma ItemIsLinked(cfg: Config, s: ArmState, e: nat)
    requires Keeps(cfg, s) && e < |s.sealed|
    requires s.sealed[e].checkpoint.endAnchor != ZERO_ANCHOR
    ensures LinkedAt(GENESIS, s.sealed, e)
  {
    hide Keeps, StreamOf;
    SealedAtPlace(cfg, s, e);
    SealedAtPlace(cfg, s, 0);
    if e > 0 {
      SealedAtPlace(cfg, s, e - 1);
    }
  }

  // ---- Anchors ----

  lemma {:induction false} RootIsHash(h: Hash, l: seq<Digest>) returns (x: Bytes)
    requires |l| > 1
    ensures x in TreeInputs(h, l) && h(x) == Root(h, l)
    decreases |l|
  {
    if |l| == 2 {
      x := NodeInput(Padded(l)[2 * 0], Padded(l)[2 * 0 + 1]);
      assert x in LevelInputs(l) && h(x) == Up(h, l)[0];
    } else {
      x := RootIsHash(h, Up(h, l));
    }
  }

  /** End anchors are hash outputs of hashed inputs. */
  lemma AnchorIsHash(c: Crypto, arm: Arm, ev: Evidence, inputs: set<Bytes>) returns (x: Bytes)
    requires Commits(c, arm, ev) && SealHashed(c, arm, ev, inputs)
    ensures x in inputs && c.hash(x) == ev.checkpoint.endAnchor
  {
    if UsesMerkle(arm) {
      var l := Leaves(c.hash, ev.records);
      if |l| > 1 {
        x := RootIsHash(c.hash, l);
      } else {
        x := LeafInput(ev.records[0]);
        assert x in LeafInputs(ev.records);
      }
    } else if ev.records == [] {
      x := ev.chainSeed.value;
    } else {
      var n := |ev.records| - 1;
      x := HashChain.Head(c.hash, ev.chainSeed.value, ev.records[..n]) + ev.records[n];
      assert x in HashChain.ChainInputs(c.hash, ev.chainSeed.value, ev.records);
    }
  }

  /** Batches that commit to one anchor share a record. */
  lemma SharedRecord(c: Crypto, arm: Arm, a: Evidence, b: Evidence, inputs: set<Bytes>) returns (raw: Bytes)
    requires UsesMerkle(arm) || arm == A3
    requires a.records != [] && b.records != [] && a.checkpoint.endAnchor == b.checkpoint.endAnchor
    requires CollisionFree(c.hash, inputs)
    requires Commits(c, arm, a) && SealHashed(c, arm, a, inputs)
    requires Commits(c, arm, b) && SealHashed(c, arm, b, inputs)
    requires UsesMerkle(arm) ==> ProofsHold(c, b) && AuditHashed(c, arm, b, inputs)
    ensures raw in a.records && raw in b.records
  {
    hide Root, BuildInputs, CheckInputs, Proves, Leaves, HashChain.ChainInputs, HashChain.Head;
    if UsesMerkle(arm) {
      raw := b.records[0];
      assert Proves(c.hash, LeafHash(c.hash, raw), OrEmpty(b.proofs)[0], b.checkpoint.endAnchor);
      MembershipBinds(c.hash, inputs, a.records, raw, OrEmpty(b.proofs)[0]);
    } else {
      HashChain.LastRecordBinds(c.hash, inputs, a.chainSeed.value, a.records, b.chainSeed.value, b.records);
      raw := b.records[|b.records| - 1];
    }
  }

  /** Two different batches have no record in common, since their numbers differ. */
  lemma BatchesAreDisjoint(a: Evidence, b: Evidence, raw: Bytes)
    requires RecordsFit(a) && RecordsFit(b) && a.checkpoint.seqEnd < b.checkpoint.seqStart
    requires raw in a.records
    ensures raw !in b.records
  {
    var i :| 0 <= i < |a.records| && a.records[i] == raw;
    forall j | 0 <= j < |b.records| ensures b.records[j] != raw {
      assert RecordAt(a.checkpoint, a.records[i], i) && RecordAt(b.checkpoint, b.records[j], j);
    }
  }

  lemma RangesAscend(cfg: Config, s: ArmState, i: nat, j: nat)
    requires Keeps(cfg, s) && i < j < |s.sealed|
    ensures s.sealed[i].checkpoint.seqEnd < s.sealed[j].checkpoint.seqStart
  {
    hide HonestCommitment, GoodReceipts, CheckpointFits;
    assert ItemInPlace(cfg, s.sealed, i) && ItemInPlace(cfg, s.sealed, j);
    PrefixRecords(s.sealed, i);
    PrefixRecords(s.sealed[..j], i);
    assert s.sealed[..j][..i] == s.sealed[..i] && s.sealed[..j][..i + 1] == s.sealed[..i + 1];
  }

  /** What is known of one sealed item of a regular run. */
  ghost predicate GoodItem(cfg: Config, s: ArmState, e: nat, inputs: set<Bytes>)
    requires e < |s.sealed|
  {
    && RecordsFit(s.sealed[e]) && Commits(cfg.c, cfg.arm, s.sealed[e])
    && SealHashed(cfg.c, cfg.arm, s.sealed[e], inputs) && AuditHashed(cfg.c, cfg.arm, s.sealed[e], inputs)
    && (UsesMerkle(cfg.arm) ==> ProofsHold(cfg.c, s.sealed[e]))
    && (cfg.arm == A3 ==> ChainHolds(cfg.c, s.sealed[e]))
  }

  lemma HonestProofsHold(c: Crypto, ev: Evidence)
    requires ev.records != [] && ev.checkpoint.endAnchor == Root(c.hash, Leaves(c.hash, ev.records))
    requires ev.proofs == Some(AllProofs(c.hash, ev.records))
    ensures ProofsHold(c, ev)
  {
    hide Root, InclusionProof;
    forall i | 0 <= i < |ev.records|
      ensures Proves(c.hash, LeafHash(c.hash, ev.records[i]), AllProofs(c.hash, ev.records)[i], ev.checkpoint.endAnchor)
    {
      InclusionProofClimbs(c.hash, Leaves(c.hash, ev.records), i);
    }
  }

  lemma ItemIsGood(cfg: Config, s: ArmState, e: nat, inputs: set<Bytes>)
    requires Regular(cfg, s) && GoodHashes(cfg, s.sealed, inputs) && e < |s.sealed|
    ensures GoodItem(cfg, s, e, inputs)
  {
    hide RecordsFit, CheckpointFits, GoodReceipts, Numbered, SealHashed, AuditHashed, ProofsHold, Root;
    assert ItemInPlace(cfg, s.sealed, e);
    ItemRecordsFit(cfg, s, e);
    if UsesMerkle(cfg.arm) {
      HonestProofsHold(cfg.c, s.sealed[e]);
    }
  }

  /** No anchor comes back, and none is the zero anchor. */
  lemma AnchorsAreNew(cfg: Config, s: ArmState, inputs: set<Bytes>)
    requires Regular(cfg, s) && GoodHashes(cfg, s.sealed, inputs)
    ensures Distinct(EndAnchors(s.sealed))
    ensures forall e :: 0 <= e < |s.sealed| ==> s.sealed[e].checkpoint.endAnchor != ZERO_ANCHOR
  {
    hide Keeps, Numbered, SealHashed, AuditHashed, Commits, ProofsHold, RecordsFit, ChainHolds, AllRecords;
    forall e | 0 <= e < |s.sealed| ensures s.sealed[e].checkpoint.endAnchor != ZERO_ANCHOR {
      ItemIsGood(cfg, s, e, inputs);
      var x := AnchorIsHash(cfg.c, cfg.arm, s.sealed[e], inputs);
    }
    forall i, j | 0 <= i < j < |s.sealed| ensures EndAnchors(s.sealed)[i] != EndAnchors(s.sealed)[j] {
      AnchorsDiffer(cfg, s, i, j, inputs);
    }
  }

  lemma AnchorsDiffer(cfg: Config, s: ArmState, i: nat, j: nat, inputs: set<Bytes>)
    requires Regular(cfg, s) && GoodHashes(cfg, s.sealed, inputs) && i < j < |s.sealed|
    ensures s.sealed[i].checkpoint.endAnchor != s.sealed[j].checkpoint.endAnchor
  {
    hide Keeps, Numbered, SealHashed, AuditHashed, Commits, ProofsHold, ChainHolds, AllRecords, RecordAt;
    var a, b := s.sealed[i], s.sealed[j];
    ItemIsGood(cfg, s, i, inputs);
    ItemIsGood(cfg, s, j, inputs);
    if a.checkpoint.endAnchor == b.checkpoint.endAnchor {
      var raw := SharedRecord(cfg.c, cfg.arm, a, b, inputs);
      RangesAscend(cfg, s, i, j);
      BatchesAreDisjoint(a, b, raw);
    }
  }

  /** Numbered records have pairwise different hashes. */
  lemma NumberedHashesDiffer(c: Crypto, records: seq<Bytes>, topic: Text, inputs: set<Bytes>)
    requires Numbered(records, 1, topic) && CollisionFree(c.hash, inputs)
    requires forall r :: r in records ==> r in inputs
    ensures Distinct(Hashes(c, records))
  {
    forall i, j | 0 <= i < j < |records| ensures Hashes(c, records)[i] != Hashes(c, records)[j] {
      assert IsNumber(records[i], 1 + i, topic) && IsNumber(records[j], 1 + j, topic);
    }
  }

  lemma NothingRepeatsInRun(cfg: Config, s: ArmState, inputs: set<Bytes>)
    requires Regular(cfg, s) && GoodHashes(cfg, s.sealed, inputs)
    ensures NothingRepeats(cfg.c, s.sealed)
  {
    hide Keeps, IsNumber, SealHashed, AuditHashed, AllRecords;
    AnchorsAreNew(cfg, s, inputs);
    var records := AllRecords(s.sealed);
    forall k | 0 <= k < |records| ensures IsNumber(records[k], 1 + k, cfg.topic) {
      assert records[k] == Produced(s)[k];
    }
    NumberedHashesDiffer(cfg.c, records, cfg.topic, inputs);
  }

  // ---- Witness entries ----

  function ArmWitness(cfg: Config, i: nat): WitnessAuth
    requires i < |cfg.witnessKeys|
  {
    WitnessAuth(WitnessName(i), cfg.witnessKeys[i], MlDsa65, [cfg.StreamId()], 0, None)
  }

  /** The arm's witnesses as registry entries. */
  function ArmWitnesses(cfg: Config, n: nat): seq<WitnessAuth>
    requires n <= |cfg.witnessKeys|
  {
    seq(n, i requires 0 <= i < n => ArmWitness(cfg, i))
  }

  /** Receipts of witnesses 0, 1, ... in order. */
  predicate InWitnessOrder(cfg: Config, rs: seq<Receipt>) {
    && |rs| <= |cfg.witnessKeys|
    && forall i :: 0 <= i < |rs| ==> rs[i].witnessId == WitnessName(i) && rs[i].publicKey == cfg.witnessKeys[i]
  }

  lemma KnownWitness(cfg: Config, n: nat, i: nat)
    requires n <= |cfg.witnessKeys| && i < |cfg.witnessKeys|
    ensures KnownId(ArmWitnesses(cfg, n), WitnessName(i)) <==> i < n
  {
    hide WitnessName;
    var ws := ArmWitnesses(cfg, n);
    if i < n {
      assert ws[i].witnessId == WitnessName(i);
    }
    forall k | 0 <= k < n && ws[k].witnessId == WitnessName(i) ensures k == i { WitnessNamesDiffer(k, i); }
  }

  /** One more receipt adds its witness exactly when it is new. */
  lemma EntriesSnoc(rs: seq<Receipt>, r: Receipt, stream: Text)
    ensures var front := WitnessEntries(rs, stream);
      WitnessEntries(rs + [r], stream) == if KnownId(front, r.witnessId) then front else front + [EntryFor(r, stream)]
  {
    assert (rs + [r])[..|rs|] == rs;
  }

  lemma {:induction false} EntriesAfterBatch(cfg: Config, before: seq<Receipt>, known: nat, rs: seq<Receipt>)
    requires InWitnessOrder(cfg, rs) && known <= |cfg.witnessKeys|
    requires WitnessEntries(before, cfg.StreamId()) == ArmWitnesses(cfg, known)
    ensures WitnessEntries(before + rs, cfg.StreamId()) == ArmWitnesses(cfg, if known < |rs| then |rs| else known)
  {
    hide WitnessName, CanonicalStreamId, WitnessEntries, KnownId;
    if rs == [] {
      assert before + rs == before;
    } else {
      var n := |rs| - 1;
      EntriesAfterBatch(cfg, before, known, rs[..n]);
      assert before + rs == before + rs[..n] + [rs[n]];
      EntriesSnoc(before + rs[..n], rs[n], cfg.StreamId());
      KnownWitness(cfg, if known < n then n else known, n);
      assert ArmWitnesses(cfg, n + 1) == ArmWitnesses(cfg, n) + [ArmWitness(cfg, n)];
    }
  }

  /** The receipts of a sealed item. */
  lemma ItemReceipts(cfg: Config, ev: Evidence)
    requires cfg.Supported() && GoodReceipts(cfg, ev)
    ensures |OrEmpty(ev.receipts)| == |cfg.witnessKeys| && InWitnessOrder(cfg, OrEmpty(ev.receipts))
  {
    hide ReceiptFits, WitnessName, CanonicalStreamId;
    forall i | 0 <= i < |OrEmpty(ev.receipts)|
      ensures OrEmpty(ev.receipts)[i].witnessId == WitnessName(i)
        && OrEmpty(ev.receipts)[i].publicKey == cfg.witnessKeys[i]
    {
      assert GoodReceipt(cfg, ev.checkpoint, i, ev.receipts.value[i]);
    }
  }

  lemma PrefixInPlace(cfg: Config, sealed: seq<Evidence>, n: nat)
    requires n <= |sealed| && forall e :: 0 <= e < |sealed| ==> ItemInPlace(cfg, sealed, e)
    ensures forall e :: 0 <= e < n ==> ItemInPlace(cfg, sealed[..n], e)
  {
    hide ArmItem;
    forall e | 0 <= e < n ensures ItemInPlace(cfg, sealed[..n], e) {
      assert sealed[..n][..e] == sealed[..e];
      assert ItemInPlace(cfg, sealed, e);
    }
  }

  lemma ReceiptsInPlace(cfg: Config, sealed: seq<Evidence>, e: nat)
    requires cfg.Supported() && e < |sealed| && ItemInPlace(cfg, sealed, e)
    ensures |OrEmpty(sealed[e].receipts)| == |cfg.witnessKeys| && InWitnessOrder(cfg, OrEmpty(sealed[e].receipts))
  {
    hide GoodReceipts, HonestCommitment, CheckpointFits, AllRecords;
    ItemReceipts(cfg, sealed[e]);
  }

  /** The generated registry names exactly the arm's witnesses. */
  lemma {:induction false} RunWitnessEntries(cfg: Config, sealed: seq<Evidence>)
    requires cfg.Supported() && forall e :: 0 <= e < |sealed| ==> ItemInPlace(cfg, sealed, e)
    ensures WitnessEntries(AllReceipts(sealed), cfg.StreamId())
      == ArmWitnesses(cfg, if sealed == [] then 0 else |cfg.witnessKeys|)
  {
    hide ItemInPlace, InWitnessOrder, CanonicalStreamId, ArmWitness, KnownId;
    if sealed != [] {
      var n := |sealed| - 1;
      PrefixInPlace(cfg, sealed, n);
      RunWitnessEntries(cfg, sealed[..n]);
      ReceiptsInPlace(cfg, sealed, n);
      var known := if n == 0 then 0 else |cfg.witnessKeys|;
      EntriesAfterBatch(cfg, AllReceipts(sealed[..n]), known, OrEmpty(sealed[n].receipts));
    }
  }

  // ---- The generated registry ----

  /** `RegistryFor` of a run, written out. */
  function RunRegistry(cfg: Config, items: nat, quorum: Option<int>): Registry
    requires cfg.Supported()
  {
    var ws := ArmWitnesses(cfg, |cfg.witnessKeys|);
    Registry(
      [PublisherAuth(cfg.client, cfg.topic, 0, Some(items - 1), cfg.publicKey, ExpectedScheme(cfg.arm).value)],
      ws,
      if cfg.arm == A6
      then [WitnessPolicy(cfg.StreamId(), if quorum.Some? then quorum.value else |ws|, EntryIds(ws))] else [])
  }

  lemma {:induction false} EpochsSpan(evs: seq<Evidence>)
    requires evs != [] && forall e :: 0 <= e < |evs| ==> evs[e].checkpoint.epoch == e
    ensures MinEpoch(evs) == 0 && MaxEpoch(evs) == |evs| - 1
  {
    if |evs| > 1 {
      EpochsSpan(evs[..|evs| - 1]);
    }
  }

  lemma RegistryOfRun(cfg: Config, s: ArmState, quorum: Option<int>)
    requires cfg.Supported() && Keeps(cfg, s) && s.sealed != []
    ensures RegistryFor(s.sealed, cfg.arm, ExpectedScheme(cfg.arm).value, quorum)
      == RunRegistry(cfg, |s.sealed|, quorum)
    ensures OneKey(s.sealed)
  {
    hide CanonicalStreamId, HonestCommitment, GoodReceipts, CheckpointFits, WitnessEntries, AllReceipts, MinEpoch,
         MaxEpoch, ArmWitnesses, AllRecords, EntryIds;
    forall e | 0 <= e < |s.sealed|
      ensures s.sealed[e].checkpoint.epoch == e && s.sealed[e].publicKey == cfg.publicKey
    {
      assert ItemInPlace(cfg, s.sealed, e);
    }
    assert ItemInPlace(cfg, s.sealed, 0);
    EpochsSpan(s.sealed);
    RunWitnessEntries(cfg, s.sealed);
  }

  /** The registry's rules hold for what a run shows. */
  lemma RunRegistryIsWellFormed(cfg: Config, items: nat, quorum: Option<int>)
    requires HonestSetup(cfg) && items > 0
    requires QuorumFits(cfg, quorum)
    ensures EntriesWellFormed(RunRegistry(cfg, items, quorum))
  {
    hide CanonicalStreamId, WitnessName;
    StreamIdIsNotEmpty(cfg.client, cfg.topic);
    var r := RunRegistry(cfg, items, quorum);
    forall i | 0 <= i < |r.witnesses| ensures r.witnesses[i].WellFormed() {
      assert SignsCorrectly(cfg.c, cfg.witnessKeys[i], MlDsa65);
      assert |WitnessName(i)| > 0 by { NameIsNotEmpty(i); }
    }
    if cfg.arm == A6 {
      forall i, j | 0 <= i < j < |r.witnesses| ensures EntryIds(r.witnesses)[i] != EntryIds(r.witnesses)[j] {
        if WitnessName(i) == WitnessName(j) {
          WitnessNamesDiffer(i, j);
        }
      }
    }
  }

  lemma NameIsNotEmpty(i: nat)
    ensures |WitnessName(i)| > 0
  {}

  lemma StreamIdIsNotEmpty(client: Text, topic: Text)
    ensures CanonicalStreamId(client, topic) != []
  {}

  // ---- Receipts ----

  lemma ArmWitnessIsFound(cfg: Config, i: nat)
    requires i < |cfg.witnessKeys|
    ensures WitnessIn(ArmWitnesses(cfg, |cfg.witnessKeys|), WitnessName(i)) == Some(ArmWitness(cfg, i))
  {
    hide WitnessName, CanonicalStreamId;
    var ws := ArmWitnesses(cfg, |cfg.witnessKeys|);
    forall j, k | 0 <= j < k < |ws| ensures ws[j].witnessId != ws[k].witnessId {
      if WitnessName(j) == WitnessName(k) {
        WitnessNamesDiffer(j, k);
      }
    }
    WitnessLookup(ws, ws[i]);
  }

  /** The policy of the generated registry. */
  function RunPolicy(cfg: Config, quorum: Option<int>): WitnessPolicy {
    var ws := ArmWitnesses(cfg, |cfg.witnessKeys|);
    WitnessPolicy(cfg.StreamId(), if quorum.Some? then quorum.value else |ws|, EntryIds(ws))
  }

  lemma GoodReceiptIsVouched(cfg: Config, items: nat, quorum: Option<int>, ckpt: Checkpoint, i: nat, r: Receipt)
    requires HonestSetup(cfg) && i < |cfg.witnessKeys| && GoodReceipt(cfg, ckpt, i, r)
    requires ckpt.clientId == cfg.client && ckpt.topic == cfg.topic && ckpt.epoch >= 0
    ensures Vouched(cfg.c, RunRegistry(cfg, items, quorum), RunPolicy(cfg, quorum), ckpt, r)
    ensures KeyOf(RunRegistry(cfg, items, quorum), r) == cfg.witnessKeys[i]
  {
    hide WitnessName, CanonicalStreamId, StatementFits, ReceiptBody;
    ArmWitnessIsFound(cfg, i);
    assert EntryIds(ArmWitnesses(cfg, |cfg.witnessKeys|))[i] == WitnessName(i);
    assert SignsCorrectly(cfg.c, cfg.witnessKeys[i], MlDsa65);
    var d := Draft(WitnessName(i), cfg.witnessKeys[i], ckpt, r.ts);
    assert r.(signature := []).(signature := r.signature) == r;
  }

  /** The receipts an A6 arm collects meet any quorum up to the number of its witnesses. */
  lemma RunReceiptsAccepted(cfg: Config, items: nat, quorum: Option<int>, q: Option<int>, ev: Evidence,
                            inputs: set<Bytes>)
    requires HonestSetup(cfg) && cfg.arm == A6 && GoodReceipts(cfg, ev)
    requires ev.checkpoint.clientId == cfg.client && ev.checkpoint.topic == cfg.topic && ev.checkpoint.epoch >= 0
    requires QuorumReached(cfg, quorum) && QuorumReached(cfg, q)
    requires CollisionFree(cfg.c.hash, inputs) && forall k :: k in cfg.witnessKeys ==> k in inputs
    ensures ReceiptsAccepted(cfg.c, RunRegistry(cfg, items, quorum), ev, q)
  {
    hide WitnessName, CanonicalStreamId, GoodReceipt, Vouched, KeyOf;
    var reg, policy, rs := RunRegistry(cfg, items, quorum), RunPolicy(cfg, quorum), ev.receipts.value;
    assert PolicyFor(reg, StreamOf(ev)) == Some(policy);
    forall i | 0 <= i < |rs| ensures Vouched(cfg.c, reg, policy, ev.checkpoint, rs[i]) {
      GoodReceiptIsVouched(cfg, items, quorum, ev.checkpoint, i, rs[i]);
    }
    forall i, j | 0 <= i < j < |rs|
      ensures Ids(rs)[i] != Ids(rs)[j] && KeyIds(cfg.c, reg, rs)[i] != KeyIds(cfg.c, reg, rs)[j]
    {
      GoodReceiptIsVouched(cfg, items, quorum, ev.checkpoint, i, rs[i]);
      GoodReceiptIsVouched(cfg, items, quorum, ev.checkpoint, j, rs[j]);
      ItemReceipts(cfg, ev);
      if WitnessName(i) == WitnessName(j) {
        WitnessNamesDiffer(i, j);
      }
    }
  }

  // ---- Items and streams ----

  lemma SignedItem(cfg: Config, ev: Evidence, auth: PublisherAuth)
    requires SignsCorrectly(cfg.c, cfg.publicKey, auth.scheme) && auth.publicKey == cfg.publicKey
    requires CheckpointFits(ev.checkpoint) && ev.signature == cfg.c.sign(cfg.publicKey, CheckpointBody(ev.checkpoint))
    ensures CheckpointSigned(cfg.c, auth, ev)
  {}

  lemma RunItemIsAccepted(cfg: Config, s: ArmState, e: nat, quorum: Option<int>, q: Option<int>, inputs: set<Bytes>)
    requires HonestSetup(cfg) && Regular(cfg, s) && GoodHashes(cfg, s.sealed, inputs) && e < |s.sealed|
    requires QuorumReached(cfg, quorum) && QuorumReached(cfg, q)
    ensures EvidenceAccepted(cfg.c, cfg.arm, RunRegistry(cfg, |s.sealed|, quorum), s.sealed[e], q)
  {
    hide RecordsFit, CheckpointFits, GoodReceipts, Numbered, SealHashed, AuditHashed, ProofsHold, ChainHolds, Root,
         CheckpointSigned, ReceiptsAccepted, SignsCorrectly, HonestCommitment, Commits, CanonicalStreamId, AllRecords;
    ItemIsGood(cfg, s, e, inputs);
    assert ItemInPlace(cfg, s.sealed, e);
    var ev, reg := s.sealed[e], RunRegistry(cfg, |s.sealed|, quorum);
    var auth := reg.publishers[0];
    SignedItem(cfg, ev, auth);
    assert PublisherVouches(cfg.arm, ev, auth);
    if cfg.arm == A6 {
      RunReceiptsAccepted(cfg, |s.sealed|, quorum, q, ev, inputs);
    }
  }

  /** The whole evidence of a run, presented with its generated anchors. */
  function GeneratedJob(cfg: Config, sealed: seq<Evidence>, quorum: Option<int>, q: Option<int>,
                        validUntil: Option<real>, auditTime: real): Job
    requires sealed != [] && cfg.Supported()
  {
    Job(sealed, cfg.arm, Some(RegistryFor(sealed, cfg.arm, ExpectedScheme(cfg.arm).value, quorum)),
        Some(AnchorsForGenerated(sealed, validUntil).value), auditTime, q)
  }

  lemma RegularIsAccepted(cfg: Config, s: ArmState, quorum: Option<int>, q: Option<int>,
                          validUntil: Option<real>, auditTime: real, inputs: set<Bytes>)
    requires HonestSetup(cfg) && Regular(cfg, s) && GoodHashes(cfg, s.sealed, inputs) && s.sealed != []
    requires QuorumReached(cfg, quorum) && QuorumReached(cfg, q)
    requires validUntil.Some? ==> auditTime <= validUntil.value
    ensures GeneratedJob(cfg, s.sealed, quorum, q, validUntil, auditTime).Accepted(cfg.c)
  {
    hide Keeps, Numbered, GoodHashes, HonestSetup, EvidenceAccepted, NothingRepeats, LinkedAt, RegistryFor, RunRegistry;
    RegistryOfRun(cfg, s, quorum);
    NothingRepeatsInRun(cfg, s, inputs);
    AnchorsAreNew(cfg, s, inputs);
    forall e | 0 <= e < |s.sealed|
      ensures LinkedAt(GENESIS, s.sealed, e)
      ensures EvidenceAccepted(cfg.c, cfg.arm, RunRegistry(cfg, |s.sealed|, quorum), s.sealed[e], q)
    {
      ItemIsLinked(cfg, s, e);
      RunItemIsAccepted(cfg, s, e, quorum, q, inputs);
    }
    var job := GeneratedJob(cfg, s.sealed, quorum, q, validUntil, auditTime);
    assert job.Anchors().value.genesis == GENESIS;
  }

  /**
   * Completeness. Any interleaving of `add_record` (numbers 1, 2, 3, ... on the arm's topic) and `flush` that ends
   * in a flush and sealed something yields evidence that the generated registry and anchors accept, up to every
   * record added; and that registry is one `registry_for_generated_evidence` builds.
   */
  lemma RunIsAccepted(cfg: Config, seed: Bytes, calls: seq<Call>, quorum: Option<int>, q: Option<int>,
                      validUntil: Option<real>, auditTime: real, inputs: set<Bytes>)
    requires HonestSetup(cfg) && After(cfg, seed, calls).Ok? && InOrder(cfg, calls)
    requires CountAdds(calls) > 0 && calls[|calls| - 1].FlushBatch?
    requires GoodHashes(cfg, After(cfg, seed, calls).value.sealed, inputs)
    requires QuorumFits(cfg, quorum) && QuorumReached(cfg, q)
    requires validUntil.Some? ==> auditTime <= validUntil.value
    ensures var sealed := After(cfg, seed, calls).value.sealed;
      && sealed != [] && SerializedAre(AllRecords(sealed), Added(calls))
      && GeneratedJob(cfg, sealed, quorum, q, validUntil, auditTime).Accepted(cfg.c)
      && OneKey(sealed)
      && EntriesWellFormed(RegistryFor(sealed, cfg.arm, ExpectedScheme(cfg.arm).value, quorum))
  {
    hide After, InOrder, GoodHashes, Keeps, Numbered, RunRegistry, RegistryFor, EntriesWellFormed, OneKey;
    var s := After(cfg, seed, calls).value;
    RunKeeps(cfg, seed, calls);
    RunIsRegular(cfg, seed, calls);
    InOrderNumbers(cfg, calls);
    assert Produced(s) == AllRecords(s.sealed);
    RegularIsAccepted(cfg, s, quorum, q, validUntil, auditTime, inputs);
    RegistryOfRun(cfg, s, quorum);
    RunRegistryIsWellFormed(cfg, |s.sealed|, quorum);
  }

  /** What a run seals is accepted only if its records were numbered 1, 2, 3, ... on its topic. */
  lemma OnlyDisciplinedIsAccepted(cfg: Config, seed: Bytes, calls: seq<Call>, quorum: Option<int>, q: Option<int>,
                                  validUntil: Option<real>, auditTime: real)
    requires cfg.Supported() && After(cfg, seed, calls).Ok? && After(cfg, seed, calls).value.pending == []
    requires var sealed := After(cfg, seed, calls).value.sealed;
      sealed != [] && GeneratedJob(cfg, sealed, quorum, q, validUntil, auditTime).Accepted(cfg.c)
    ensures InOrder(cfg, calls)
  {
    hide After, InOrder, Keeps, RegistryFor, StreamVerified, DecodedRecord, SerializeRecord, AllRecords, StreamOf;
    var s := After(cfg, seed, calls).value;
    var job := GeneratedJob(cfg, s.sealed, quorum, q, validUntil, auditTime);
    RunKeeps(cfg, seed, calls);
    AcceptedTiles(cfg.c, job);
    AnchorsFound(cfg, s.sealed, quorum, q, validUntil, auditTime);
    var added := Added(calls);
    assert Produced(s) == AllRecords(s.sealed);
    forall k | 0 <= k < |added| ensures added[k].seqNo == k + 1 && added[k].topic == cfg.topic {
      assert IsNumber(AllRecords(s.sealed)[k], 1 + k, s.sealed[0].checkpoint.topic);
      SerializedIsDecoded(added[k], Produced(s)[k]);
      SealedTopic(cfg, s);
    }
    NumbersInOrder(cfg, calls);
  }

  lemma SealedTopic(cfg: Config, s: ArmState)
    requires Keeps(cfg, s) && s.sealed != []
    ensures s.sealed[0].checkpoint.topic == cfg.topic
  {
    hide HonestCommitment, GoodReceipts, CheckpointFits;
    assert ItemInPlace(cfg, s.sealed, 0);
  }

  /** The anchors of a generated job start at number one and are valid as long as was asked. */
  lemma AnchorsFound(cfg: Config, sealed: seq<Evidence>, quorum: Option<int>, q: Option<int>,
                     validUntil: Option<real>, auditTime: real)
    requires sealed != [] && cfg.Supported()
    ensures var anchors := GeneratedJob(cfg, sealed, quorum, q, validUntil, auditTime).Anchors();
      && anchors.Some? && anchors.value.genesis == GENESIS
      && anchors.value.latest.Some? && anchors.value.latest.value.validUntil == validUntil
  {
    hide RegistryFor, CanonicalStreamId;
  }

  /**
   * Completeness, exactly. What a run that ends in a flush has sealed is accepted, with its generated registry and
   * anchors, if and only if the application numbered its records 1, 2, 3, ... on the arm's topic and the anchors are
   * still valid at the audit.
   */
  lemma RunIsAcceptedExactly(cfg: Config, seed: Bytes, calls: seq<Call>, quorum: Option<int>, q: Option<int>,
                             validUntil: Option<real>, auditTime: real, inputs: set<Bytes>)
    requires HonestSetup(cfg) && After(cfg, seed, calls).Ok? && After(cfg, seed, calls).value.sealed != []
    requires calls != [] && calls[|calls| - 1].FlushBatch?
    requires GoodHashes(cfg, After(cfg, seed, calls).value.sealed, inputs)
    requires QuorumFits(cfg, quorum) && QuorumReached(cfg, q)
    ensures GeneratedJob(cfg, After(cfg, seed, calls).value.sealed, quorum, q, validUntil, auditTime).Accepted(cfg.c)
      <==> InOrder(cfg, calls) && (validUntil.Some? ==> auditTime <= validUntil.value)
  {
    hide SignsCorrectly, After, InOrder, GoodHashes, Keeps, RegistryFor, StreamVerified, StreamOf, EntriesWellFormed,
         OneKey, SerializedAre;
    var sealed := After(cfg, seed, calls).value.sealed;
    RunKeeps(cfg, seed, calls);
    AnchorsFound(cfg, sealed, quorum, q, validUntil, auditTime);
    if GeneratedJob(cfg, sealed, quorum, q, validUntil, auditTime).Accepted(cfg.c) {
      OnlyDisciplinedIsAccepted(cfg, seed, calls, quorum, q, validUntil, auditTime);
    }
    if InOrder(cfg, calls) && (validUntil.Some? ==> auditTime <= validUntil.value) {
      SealedWasAdded(cfg, seed, calls);
      RunIsAccepted(cfg, seed, calls, quorum, q, validUntil, auditTime, inputs);
    }
  }

  lemma SealedWasAdded(cfg: Config, seed: Bytes, calls: seq<Call>)
    requires cfg.Supported() && InOrder(cfg, calls)
    requires After(cfg, seed, calls).Ok? && After(cfg, seed, calls).value.sealed != []
    ensures CountAdds(calls) > 0
  {
    hide After, InOrder, Keeps, SerializeRecord, AllRecords;
    var s := After(cfg, seed, calls).value;
    RunKeeps(cfg, seed, calls);
    InOrderNumbers(cfg, calls);
    BatchInPlace(s, 0);
    BatchHasRecord(cfg, s, 0);
  }

  lemma BatchHasRecord(cfg: Config, s: ArmState, e: nat)
    requires Keeps(cfg, s) && e < |s.sealed|
    ensures s.sealed[e].records != []
  {
    hide HonestCommitment, GoodReceipts, CheckpointFits;
    assert ItemInPlace(cfg, s.sealed, e);
  }

  lemma RunStream(cfg: Config, s: ArmState)
    requires Keeps(cfg, s) && s.sealed != []
    ensures StreamOf(s.sealed[0]) == cfg.StreamId()
  {
    hide HonestCommitment, GoodReceipts, CheckpointFits, CanonicalStreamId;
    assert ItemInPlace(cfg, s.sealed, 0);
  }

  /**
   * The two end-to-end results meet: an honest run's own evidence has every hypothesis of the soundness theorem,
   * with working signatures, so neither theorem speaks of nothing.
   */
  lemma RunShowsItself(cfg: Config, seed: Bytes, calls: seq<Call>, quorum: Option<int>, q: Option<int>,
                       validUntil: Option<real>, auditTime: real, inputs: set<Bytes>)
    requires HonestSetup(cfg) && After(cfg, seed, calls).Ok? && InOrder(cfg, calls)
    requires CountAdds(calls) > 0 && calls[|calls| - 1].FlushBatch?
    requires GoodHashes(cfg, After(cfg, seed, calls).value.sealed, inputs)
    requires QuorumFits(cfg, quorum) && QuorumReached(cfg, q)
    requires validUntil.Some? ==> auditTime <= validUntil.value
    ensures var sealed := After(cfg, seed, calls).value.sealed;
      && sealed != []
      && var job := GeneratedJob(cfg, sealed, quorum, q, validUntil, auditTime);
      && job.arm == cfg.arm && job.Accepted(cfg.c) && StreamOf(job.evs[0]) == cfg.StreamId()
      && NothingForged(cfg.c, job.registry.value, cfg.client, cfg.topic, sealed, job.evs)
      && NoCollision(cfg.c, cfg.arm, sealed, job.evs, inputs)
    ensures var states := StatesOf(cfg, seed, calls);
      && Runs(cfg, seed, calls, states) && states[|calls|] == After(cfg, seed, calls).value
      && SentRecords(cfg, calls, states) == Added(calls)
  {
    hide Runs, SentRecords, Added, After, InOrder, Keeps, RegistryFor, EntriesWellFormed, OneKey, StreamOf,
         NothingForged, NoCollision, AnchorsForGenerated, StreamVerified;
    var s := After(cfg, seed, calls).value;
    RunIsAccepted(cfg, seed, calls, quorum, q, validUntil, auditTime, inputs);
    RunKeeps(cfg, seed, calls);
    RunStream(cfg, s);
    var job := GeneratedJob(cfg, s.sealed, quorum, q, validUntil, auditTime);
    OwnItemsAreGenuine(cfg.c, job.registry.value, cfg.client, cfg.topic, s.sealed);
    UndisturbedRun(cfg, seed, calls);
  }
}
