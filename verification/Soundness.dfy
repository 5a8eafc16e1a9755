/** End-to-end soundness: an accepted stream is exactly what the publisher sealed between the anchors. */
module Soundness {
  import opened Prelude
  import opened Bytes
  import opened Text
  import opened Crypto
  import opened Codec
  import opened Wire
  import opened Merkle
  import HashChain
  import opened Registry
  import opened Evidence
  import opened ItemAudit
  import opened StreamAudit
  import opened Tiling

  // ---- The publisher's own history ----

  /** The end anchor commits to the records, in the arm's way. */
  ghost predicate Commits(c: Crypto, arm: Arm, ev: Evidence) {
    if UsesMerkle(arm) then ev.records != [] && ev.checkpoint.endAnchor == Root(c.hash, Leaves(c.hash, ev.records))
    else
      ev.chainSeed.Some? && ev.checkpoint.endAnchor == HashChain.Head(c.hash, ev.chainSeed.value, ev.records)
  }

  /**
   * Item e of a sealed history: epoch e, serialisable, as many records as its range, committed by its end anchor.
   * The records may carry any numbers, since an arm seals whatever it is fed.
   */
  ghost predicate SealedAt(c: Crypto, arm: Arm, client: Text, topic: Text, sealed: seq<Evidence>, e: nat)
    requires e < |sealed|
  {
    var ev := sealed[e];
    && ev.checkpoint.clientId == client && ev.checkpoint.topic == topic && ev.checkpoint.epoch == e
    && CheckpointFits(ev.checkpoint) && |ev.records| == ev.checkpoint.seqEnd - ev.checkpoint.seqStart + 1
    && Commits(c, arm, ev)
  }

  /** What an arm with checkpoint signatures has sealed. */
  ghost predicate SealedHistory(c: Crypto, arm: Arm, client: Text, topic: Text, sealed: seq<Evidence>) {
    forall e :: 0 <= e < |sealed| ==> SealedAt(c, arm, client, topic, sealed, e)
  }

  /**
   * The messages an honest publisher key may have signed: bodies of its sealed checkpoints, and any wire or
   * witness body, since those formats are disjoint from checkpoint bodies.
   */
  ghost predicate HonestMessage(sealed: seq<Evidence>, m: Bytes) {
    || (exists e :: 0 <= e < |sealed| && IsCheckpointBody(m, sealed[e].checkpoint))
    || (exists r :: IsReceiptBody(m, r))
    || (exists w :: IsWireBody(m, w))
  }

  /** If the item's signature verifies under a key registered for the stream, the owner signed that very body. */
  ghost predicate Genuine(c: Crypto, reg: Registry, client: Text, topic: Text, sealed: seq<Evidence>, ev: Evidence) {
    forall auth :: auth in reg.publishers && auth.clientId == client && auth.topic == topic ==>
      CheckpointSigned(c, auth, ev) ==> HonestMessage(sealed, CheckpointBody(ev.checkpoint))
  }

  /** No presented item carries a forged signature. It speaks of the presented items only, not of all messages. */
  ghost predicate NothingForged(
      c: Crypto, reg: Registry, client: Text, topic: Text, sealed: seq<Evidence>, evs: seq<Evidence>)
  {
    forall i :: 0 <= i < |evs| ==> Genuine(c, reg, client, topic, sealed, evs[i])
  }

  /** The publisher's own items are genuine, whatever the registry. */
  lemma OwnItemsAreGenuine(c: Crypto, reg: Registry, client: Text, topic: Text, sealed: seq<Evidence>)
    ensures NothingForged(c, reg, client, topic, sealed, sealed)
  {
    hide CheckpointFits, CheckpointBody, VerifySignature;
    forall i | 0 <= i < |sealed| ensures Genuine(c, reg, client, topic, sealed, sealed[i]) {
      if CheckpointFits(sealed[i].checkpoint) {
        assert IsCheckpointBody(CheckpointBody(sealed[i].checkpoint), sealed[i].checkpoint);
      }
    }
  }

  // ---- What was hashed ----

  /** Everything the auditor hashes to check an item's commitment. */
  ghost predicate AuditHashed(c: Crypto, arm: Arm, ev: Evidence, inputs: set<Bytes>) {
    if UsesMerkle(arm) then
      forall i :: 0 <= i < |ev.records| && i < |OrEmpty(ev.proofs)| ==>
        CheckInputs(c.hash, ev.records[i], OrEmpty(ev.proofs)[i]) <= inputs
    else
      ev.chainSeed.Some? ==> HashChain.ChainInputs(c.hash, ev.chainSeed.value, ev.records) <= inputs
  }

  /** Everything the publisher hashed to seal an item. */
  ghost predicate SealHashed(c: Crypto, arm: Arm, ev: Evidence, inputs: set<Bytes>) {
    if UsesMerkle(arm) then BuildInputs(c.hash, ev.records) <= inputs
    else ev.chainSeed.Some? ==> HashChain.ChainInputs(c.hash, ev.chainSeed.value, ev.records) <= inputs
  }

  /** No two of the inputs hashed by publisher or auditor collide. */
  ghost predicate NoCollision(c: Crypto, arm: Arm, sealed: seq<Evidence>, evs: seq<Evidence>, inputs: set<Bytes>) {
    && CollisionFree(c.hash, inputs)
    && (forall e :: 0 <= e < |sealed| ==> SealHashed(c, arm, sealed[e], inputs))
    && (forall i :: 0 <= i < |evs| ==> AuditHashed(c, arm, evs[i], inputs))
  }

  // ---- One item ----

  /** The same checkpoint and the same raw records; proofs, signatures and receipts may be presented differently. */
  predicate SameItem(a: Evidence, b: Evidence) { a.checkpoint == b.checkpoint && a.records == b.records }

  /**
   * What an accepted item shows of a sealed one: the same checkpoint and the same raw records up to order, in the
   * sealed order exactly when the sealed records are numbered in order.
   */
  ghost predicate SameBatch(a: Evidence, s: Evidence) {
    && a.checkpoint == s.checkpoint && multiset(a.records) == multiset(s.records)
    && (a.records == s.records <==> RecordsFit(s))
  }

  /** A signed checkpoint is a sealed one. */
  lemma SignedIsSealed(c: Crypto, arm: Arm, auth: PublisherAuth, client: Text, topic: Text,
                       sealed: seq<Evidence>, ev: Evidence)
    requires SealedHistory(c, arm, client, topic, sealed) && CheckpointSigned(c, auth, ev)
    requires HonestMessage(sealed, CheckpointBody(ev.checkpoint))
    ensures 0 <= ev.checkpoint.epoch < |sealed| && ev.checkpoint == sealed[ev.checkpoint.epoch].checkpoint
  {
    hide RecordsFit, Commits, CheckpointFits, CheckpointBody;
    var m := CheckpointBody(ev.checkpoint);
    assert IsCheckpointBody(m, ev.checkpoint);
    forall r ensures !IsReceiptBody(m, r) { NotAReceipt(m, ev.checkpoint, r); }
    forall w ensures !IsWireBody(m, w) { NotAnEnvelope(m, ev.checkpoint, w); }
    var e :| 0 <= e < |sealed| && IsCheckpointBody(m, sealed[e].checkpoint);
    CheckpointBodyInjective(ev.checkpoint, sealed[e].checkpoint);
    assert SealedAt(c, arm, client, topic, sealed, e);
  }

  lemma NotAReceipt(m: Bytes, ckpt: Checkpoint, r: Receipt)
    requires IsCheckpointBody(m, ckpt)
    ensures !IsReceiptBody(m, r)
  {
    var e := Envelope(0, 0, [], [], [], 0, 0, [], []);
    SignedFormatsDisjoint(m, ckpt, r, e);
  }

  lemma NotAnEnvelope(m: Bytes, ckpt: Checkpoint, w: Envelope)
    requires IsCheckpointBody(m, ckpt)
    ensures !IsWireBody(m, w)
  {
    var r := Receipt([], [], 0, 0, 0, [], [], [0, 0, 0, 0, 0, 0, 0, 0], [], []);
    SignedFormatsDisjoint(m, ckpt, r, w);
  }

  /** Two parsed records of one batch with one number are one record. */
  lemma NumberPinsRecord(ckpt: Checkpoint, records: seq<Bytes>, raw: Bytes, i: nat)
    requires raw in records && RecordAt(ckpt, raw, i)
    requires forall k :: 0 <= k < |records| ==> RecordAt(ckpt, records[k], k)
    ensures i < |records| && raw == records[i]
  {
    var k :| 0 <= k < |records| && records[k] == raw;
    assert RecordAt(ckpt, records[k], k);
  }

  /** Fitting records differ, since their numbers do. */
  lemma FittingIsDistinct(ev: Evidence)
    requires RecordsFit(ev)
    ensures Distinct(ev.records)
  {
    forall i, j | 0 <= i < j < |ev.records| ensures ev.records[i] != ev.records[j] {
      assert RecordAt(ev.checkpoint, ev.records[i], i) && RecordAt(ev.checkpoint, ev.records[j], j);
    }
  }

  /** Where both lists fit one checkpoint, a permutation is the identity. */
  lemma FittingIsUnique(a: Evidence, s: Evidence)
    requires a.checkpoint == s.checkpoint && RecordsFit(a) && multiset(a.records) == multiset(s.records)
    ensures a.records == s.records <==> RecordsFit(s)
  {
    hide RecordAt;
    if RecordsFit(s) {
      forall i | 0 <= i < |a.records| ensures a.records[i] == s.records[i] {
        assert a.records[i] in multiset(s.records);
        NumberPinsRecord(s.checkpoint, s.records, a.records[i], i);
      }
    }
  }

  /** Under one checkpoint and one Merkle root, verified and numbered records are the sealed ones up to order. */
  lemma MerkleItemIsSealed(c: Crypto, arm: Arm, inputs: set<Bytes>, s: Evidence, ev: Evidence)
    requires UsesMerkle(arm) && ev.checkpoint == s.checkpoint && CollisionFree(c.hash, inputs)
    requires |s.records| == s.checkpoint.seqEnd - s.checkpoint.seqStart + 1
    requires Commits(c, arm, s) && SealHashed(c, arm, s, inputs)
    requires RecordsFit(ev) && ProofsHold(c, ev) && AuditHashed(c, arm, ev, inputs)
    ensures SameBatch(ev, s)
  {
    hide RecordAt, Root, Leaves, BuildInputs, CheckInputs, Proves;
    forall x | x in ev.records ensures x in s.records {
      var i :| 0 <= i < |ev.records| && ev.records[i] == x;
      MembershipBinds(c.hash, inputs, s.records, x, OrEmpty(ev.proofs)[i]);
    }
    FittingIsDistinct(ev);
    DistinctFills(ev.records, s.records);
    FittingIsUnique(ev, s);
  }

  /** A chain shows the very list, so only a list numbered in order is ever accepted. */
  lemma ChainItemIsSealed(c: Crypto, inputs: set<Bytes>, s: Evidence, ev: Evidence)
    requires ev.checkpoint == s.checkpoint && CollisionFree(c.hash, inputs)
    requires |s.records| == s.checkpoint.seqEnd - s.checkpoint.seqStart + 1
    requires Commits(c, A3, s) && SealHashed(c, A3, s, inputs)
    requires RecordsFit(ev) && ChainHolds(c, ev) && AuditHashed(c, A3, ev, inputs)
    ensures SameBatch(ev, s) && ev.records == s.records && RecordsFit(s)
  {
    hide RecordAt;
    HashChain.HeadBinds(c.hash, inputs, s.chainSeed.value, s.records, ev.chainSeed.value, ev.records);
  }

  /** An accepted item is the sealed item of its epoch: up to order, and for A3 outright. */
  lemma AcceptedItemIsSealed(c: Crypto, arm: Arm, reg: Registry, q: Option<int>, client: Text, topic: Text,
                             sealed: seq<Evidence>, ev: Evidence, inputs: set<Bytes>)
    requires arm != A1 && EvidenceAccepted(c, arm, reg, ev, q)
    requires ev.checkpoint.clientId == client && ev.checkpoint.topic == topic
    requires SealedHistory(c, arm, client, topic, sealed) && Genuine(c, reg, client, topic, sealed, ev)
    requires NoCollision(c, arm, sealed, [ev], inputs)
    ensures 0 <= ev.checkpoint.epoch < |sealed| && SameBatch(ev, sealed[ev.checkpoint.epoch])
    ensures arm == A3 ==> SameItem(ev, sealed[ev.checkpoint.epoch])
  {
    hide RecordsFit, ProofsHold, ChainHolds, Commits, SealHashed, AuditHashed, CheckpointFits, HonestMessage,
         VerifySignature, CheckpointBody;
    var auth :| auth in reg.publishers && PublisherVouches(arm, ev, auth) && Committed(c, arm, auth, ev);
    SignedIsSealed(c, arm, auth, client, topic, sealed, ev);
    var e := ev.checkpoint.epoch;
    assert SealedAt(c, arm, client, topic, sealed, e);
    assert AuditHashed(c, arm, [ev][0], inputs);
    if UsesMerkle(arm) {
      MerkleItemIsSealed(c, arm, inputs, sealed[e], ev);
    } else {
      ChainItemIsSealed(c, inputs, sealed[e], ev);
    }
  }

  // ---- The whole stream ----

  lemma NoCollisionAt(c: Crypto, arm: Arm, sealed: seq<Evidence>, evs: seq<Evidence>, i: nat, inputs: set<Bytes>)
    requires i < |evs| && NoCollision(c, arm, sealed, evs, inputs)
    ensures NoCollision(c, arm, sealed, [evs[i]], inputs)
  {}

  lemma VerifiedItem(c: Crypto, job: Job, i: nat)
    requires job.Verified(c) && i < |job.evs|
    ensures EvidenceAccepted(c, job.arm, job.registry.value, job.evs[i], job.witnessQuorum)
    ensures job.evs[i].checkpoint.epoch == job.Anchors().value.genesis.epoch + i
    ensures StreamOf(job.evs[i]) == StreamOf(job.evs[0])
  {
    hide EvidenceAccepted, StreamOf;
    assert LinkedAt(job.Anchors().value.genesis, job.evs, i);
  }

  /** Each item of a verified stream is the sealed item of its epoch. */
  lemma VerifiedItemIsSealed(c: Crypto, job: Job, client: Text, topic: Text, sealed: seq<Evidence>, inputs: set<Bytes>,
                             i: nat)
    requires job.Verified(c) && job.arm != A1 && i < |job.evs|
    requires StreamOf(job.evs[0]) == CanonicalStreamId(client, topic)
    requires SealedHistory(c, job.arm, client, topic, sealed)
    requires NothingForged(c, job.registry.value, client, topic, sealed, job.evs)
    requires NoCollision(c, job.arm, sealed, job.evs, inputs)
    ensures var e := job.Anchors().value.genesis.epoch + i;
      && 0 <= e < |sealed| && SameBatch(job.evs[i], sealed[e])
      && (job.arm == A3 ==> SameItem(job.evs[i], sealed[e]))
  {
    hide SealedHistory, Genuine, NoCollision, EvidenceAccepted, StreamVerified, SameBatch;
    VerifiedItem(c, job, i);
    NoCollisionAt(c, job.arm, sealed, job.evs, i, inputs);
    var ckpt := job.evs[i].checkpoint;
    StreamIdInjective(ckpt.clientId, ckpt.topic, client, topic);
    AcceptedItemIsSealed(c, job.arm, job.registry.value, job.witnessQuorum, client, topic, sealed, job.evs[i], inputs);
  }

  /**
   * Soundness. Suppose no presented item carries a forged signature, and no two inputs hashed by publisher and
   * auditor collide. Then a verified stream of a checkpoint-signing arm is, item by item, the contiguous part of
   * the sealed history that starts at the genesis epoch: no item is selected, reordered, repeated or altered, and
   * each shows its batch, in the sealed order exactly when that batch was numbered in order. A3 chains show theirs
   * in the sealed order always.
   */
  lemma VerifiedIsSealed(c: Crypto, job: Job, client: Text, topic: Text, sealed: seq<Evidence>, inputs: set<Bytes>)
    requires job.Verified(c) && job.arm != A1
    requires StreamOf(job.evs[0]) == CanonicalStreamId(client, topic)
    requires SealedHistory(c, job.arm, client, topic, sealed)
    requires NothingForged(c, job.registry.value, client, topic, sealed, job.evs)
    requires NoCollision(c, job.arm, sealed, job.evs, inputs)
    ensures var first := job.Anchors().value.genesis.epoch;
      && 0 <= first && first + |job.evs| <= |sealed|
      && (forall i :: 0 <= i < |job.evs| ==> SameBatch(job.evs[i], sealed[first + i]))
      && (job.arm == A3 ==> forall i :: 0 <= i < |job.evs| ==> SameItem(job.evs[i], sealed[first + i]))
  {
    hide SealedHistory, NothingForged, NoCollision, StreamVerified, StreamOf, SameBatch, SameItem;
    var genesis := job.Anchors().value.genesis;
    forall i | 0 <= i < |job.evs|
      ensures 0 <= genesis.epoch + i < |sealed| && SameBatch(job.evs[i], sealed[genesis.epoch + i])
      ensures job.arm == A3 ==> SameItem(job.evs[i], sealed[genesis.epoch + i])
    {
      VerifiedItemIsSealed(c, job, client, topic, sealed, inputs, i);
    }
    VerifiedIsNotEmpty(c, job);
    VerifiedItemIsSealed(c, job, client, topic, sealed, inputs, 0);
    VerifiedItemIsSealed(c, job, client, topic, sealed, inputs, |job.evs| - 1);
  }

  lemma VerifiedIsNotEmpty(c: Crypto, job: Job)
    requires job.Verified(c)
    ensures job.evs != []
  {
    hide StreamVerified;
  }

  /** Accepted streams end at the trusted epoch, so acceptance pins both ends of the sealed history. */
  lemma AcceptedIsSealed(c: Crypto, job: Job, client: Text, topic: Text, sealed: seq<Evidence>, inputs: set<Bytes>)
    requires job.Accepted(c)
    requires StreamOf(job.evs[0]) == CanonicalStreamId(client, topic)
    requires SealedHistory(c, job.arm, client, topic, sealed)
    requires NothingForged(c, job.registry.value, client, topic, sealed, job.evs)
    requires NoCollision(c, job.arm, sealed, job.evs, inputs)
    ensures var first, last := job.Anchors().value.genesis.epoch, job.Anchors().value.latest.value.epoch;
      && 0 <= first <= last < |sealed| && |job.evs| == last + 1 - first
      && (forall i :: 0 <= i < |job.evs| ==> SameBatch(job.evs[i], sealed[first + i]))
      && (job.arm == A3 ==> forall i :: 0 <= i < |job.evs| ==> SameItem(job.evs[i], sealed[first + i]))
  {
    hide StreamVerified, SealedHistory, NothingForged, NoCollision;
    VerifiedIsSealed(c, job, client, topic, sealed, inputs);
    AcceptedTiles(c, job);
  }
}
