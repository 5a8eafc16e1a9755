/** The witness protocol: extension-only cosigners, whole runs of them, and why a quorum sees no split view. */
module Witness {
  import opened Prelude
  import opened Bytes
  import opened Text
  import opened Crypto
  import opened Codec
  import opened Registry
  import opened Evidence
  import opened Receipts
  import opened ItemAudit
  import opened StreamAudit

  // ---- Runs ----

  /** One request to one witness to cosign a checkpoint; requests of all witnesses interleave freely. */
  datatype Request = Request(witnessId: Text, ckpt: Checkpoint, ts: Double)

  type Run = seq<Request>

  function StreamOfCkpt(ckpt: Checkpoint): Text { CanonicalStreamId(ckpt.clientId, ckpt.topic) }

  /** The receipt a witness writes about a checkpoint, before signing. */
  function Draft(witnessId: Text, publicKey: Bytes, ckpt: Checkpoint, ts: Double): Receipt {
    Receipt(witnessId, StreamOfCkpt(ckpt), ckpt.epoch, ckpt.seqStart, ckpt.seqEnd, ckpt.prevAnchor, ckpt.endAnchor, ts,
            [], publicKey)
  }

  /** The request is one this witness may grant on this stream, seen from its latest anchor. */
  predicate Grantable(latest: Bytes, r: Request) {
    r.ckpt.prevAnchor == latest && ReceiptFits(Draft(r.witnessId, [], r.ckpt, r.ts))
  }

  predicate Concerns(r: Request, id: Text, stream: Text) { r.witnessId == id && StreamOfCkpt(r.ckpt) == stream }

  /** The anchor a witness that follows the protocol holds for a stream after a run. */
  function LatestAfter(run: Run, id: Text, stream: Text): Bytes {
    if run == [] then ZERO_ANCHOR
    else
      var n := |run| - 1;
      var before := LatestAfter(run[..n], id, stream);
      if Concerns(run[n], id, stream) && Grantable(before, run[n]) then run[n].ckpt.endAnchor else before
  }

  /** In this run, request k goes to witness id, concerns the stream, and is granted. */
  predicate Grants(run: Run, k: nat, id: Text, stream: Text)
    requires k < |run|
  {
    Concerns(run[k], id, stream) && Grantable(LatestAfter(run[..k], id, stream), run[k])
  }

  // ---- The witness object ----

  class CheckpointWitness {
    const c: Crypto
    const witnessId: Text
    const publicKey: Bytes
    var latest: map<Text, Bytes>
    ghost var history: Run

    function Latest(stream: Text): Bytes
      reads this
    {
      if stream in latest then latest[stream] else ZERO_ANCHOR
    }

    /** The table is what the protocol says after the requests this witness received. */
    ghost predicate Valid()
      reads this
    {
      forall stream: Text :: Latest(stream) == LatestAfter(history, witnessId, stream)
    }

    constructor (c: Crypto, witnessId: Text, publicKey: Bytes)
      ensures this.c == c && this.witnessId == witnessId && this.publicKey == publicKey
      ensures Valid() && history == [] && latest == map[]
    {
      this.c, this.witnessId, this.publicKey := c, witnessId, publicKey;
      latest, history := map[], [];
    }

    /** `issue_receipt`: refuses anything that does not extend the anchor it last cosigned. */
    method IssueReceipt(ckpt: Checkpoint, ts: Double) returns (r: Outcome<Receipt>)
      requires Valid()
      modifies this
      ensures Valid() && history == old(history) + [Request(witnessId, ckpt, ts)]
      ensures r.Ok? <==> Grants(history, |history| - 1, witnessId, StreamOfCkpt(ckpt))
      ensures r.Ok? <==>
        (old(Latest(StreamOfCkpt(ckpt))) == ckpt.prevAnchor && ReceiptFits(Draft(witnessId, publicKey, ckpt, ts)))
      ensures r.Ok? ==> latest == old(latest)[StreamOfCkpt(ckpt) := ckpt.endAnchor]
      ensures r.Raised? ==> latest == old(latest)
      ensures r.Ok? ==>
        && r.value.(signature := []) == Draft(witnessId, publicKey, ckpt, ts)
        && r.value.signature == c.sign(publicKey, ReceiptBody(Draft(witnessId, publicKey, ckpt, ts)))
    {
      hide StatementFits, LatestAfter, CanonicalStreamId, ReceiptBody, Grants;
      var streamId := StreamOfCkpt(ckpt);
      var prevSeen := if streamId in latest then latest[streamId] else ZERO_ANCHOR;
      var request := Request(witnessId, ckpt, ts);
      RequestStep(history, request);
      history := history + [request];
      if ckpt.prevAnchor != prevSeen { return Raised; }
      var receipt := Receipt(witnessId, streamId, ckpt.epoch, ckpt.seqStart, ckpt.seqEnd, prevSeen, ckpt.endAnchor, ts,
                             [], publicKey);
      var body := SerializeReceipt(receipt);
      if body.Raised? { return Raised; }
      receipt := receipt.(signature := c.sign(publicKey, body.value));
      latest := latest[streamId := ckpt.endAnchor];
      r := Ok(receipt);
    }
  }

  lemma RequestStep(run: Run, r: Request)
    ensures var more := run + [r];
      && more[..|run|] == run
      && (Grants(more, |run|, r.witnessId, StreamOfCkpt(r.ckpt)) <==>
          Grantable(LatestAfter(run, r.witnessId, StreamOfCkpt(r.ckpt)), r))
      && forall stream: Text :: LatestAfter(more, r.witnessId, stream) ==
          if stream == StreamOfCkpt(r.ckpt) && Grantable(LatestAfter(run, r.witnessId, stream), r)
          then r.ckpt.endAnchor else LatestAfter(run, r.witnessId, stream)
  {
    assert (run + [r])[..|run|] == run;
  }

  // ---- Interleaving ----

  /** The requests that went to this witness. */
  function OwnRequests(run: Run, id: Text): Run {
    if run == [] then []
    else OwnRequests(run[..|run| - 1], id) + if run[|run| - 1].witnessId == id then [run[|run| - 1]] else []
  }

  /** What a witness holds in an interleaved run is what its own requests made of it. */
  lemma {:induction false} LatestIsOwn(run: Run, id: Text, stream: Text)
    ensures LatestAfter(OwnRequests(run, id), id, stream) == LatestAfter(run, id, stream)
  {
    hide Grantable, StreamOfCkpt;
    if run != [] {
      var n := |run| - 1;
      LatestIsOwn(run[..n], id, stream);
      hide LatestAfter;
      var own := OwnRequests(run[..n], id);
      assert run == run[..n] + [run[n]] && own + [] == own;
      LatestSnoc(run[..n], run[n], id, stream);
      LatestSnoc(own, run[n], id, stream);
    }
  }

  lemma LatestSnoc(run: Run, r: Request, id: Text, stream: Text)
    ensures LatestAfter(run + [r], id, stream)
      == if Concerns(r, id, stream) && Grantable(LatestAfter(run, id, stream), r) then r.ckpt.endAnchor
         else LatestAfter(run, id, stream)
  {
    hide Grantable, StreamOfCkpt;
    assert (run + [r])[..|run|] == run;
  }

  /** Every grant of a witness's own requests is a grant of the interleaved run. */
  lemma {:induction false} OwnGrant(run: Run, id: Text, stream: Text, e: nat) returns (k: nat)
    requires e < |OwnRequests(run, id)| && Grants(OwnRequests(run, id), e, id, stream)
    ensures k < |run| && run[k] == OwnRequests(run, id)[e] && Grants(run, k, id, stream)
  {
    hide Grantable, StreamOfCkpt;
    var n := |run| - 1;
    var front := OwnRequests(run[..n], id);
    assert OwnRequests(run, id)[..|front|] == front;
    if e < |front| {
      assert OwnRequests(run, id)[..e] == front[..e];
      k := OwnGrant(run[..n], id, stream, e);
      assert run[..n][..k] == run[..k];
    } else {
      k := n;
      assert OwnRequests(run, id)[..e] == front;
      LatestIsOwn(run[..n], id, stream);
    }
  }

  /** And conversely: it is the own request that comes after all own requests before it. */
  lemma {:induction false} GrantIsOwn(run: Run, id: Text, stream: Text, k: nat) returns (e: nat)
    requires k < |run| && Grants(run, k, id, stream)
    ensures e == |OwnRequests(run[..k], id)|
    ensures e < |OwnRequests(run, id)| && OwnRequests(run, id)[e] == run[k]
    ensures Grants(OwnRequests(run, id), e, id, stream)
  {
    hide Grantable, StreamOfCkpt;
    var n := |run| - 1;
    var front := OwnRequests(run[..n], id);
    assert OwnRequests(run, id)[..|front|] == front;
    if k < n {
      assert run[..n][..k] == run[..k];
      e := GrantIsOwn(run[..n], id, stream, k);
      assert OwnRequests(run, id)[..e] == front[..e];
    } else {
      e := |front|;
      LatestIsOwn(run[..n], id, stream);
    }
  }

  lemma {:induction false} OwnRequestsGrow(run: Run, id: Text, j: nat, k: nat)
    requires j <= k <= |run|
    ensures |OwnRequests(run[..j], id)| <= |OwnRequests(run[..k], id)|
  {
    if j < k {
      OwnRequestsGrow(run, id, j, k - 1);
      assert run[..k][..k - 1] == run[..k - 1];
    }
  }

  /** A witness signs in an interleaved run exactly what the witness object signs for its own requests. */
  lemma SignedInterleaved(run: Run, id: Text, publicKey: Bytes, m: Bytes)
    ensures SignedIn(run, id, publicKey, m) <==> SignedIn(OwnRequests(run, id), id, publicKey, m)
  {
    hide Grants, ReceiptFits, ReceiptBody, OwnRequests;
    var own := OwnRequests(run, id);
    if SignedIn(run, id, publicKey, m) {
      var k, stream :| 0 <= k < |run| && Grants(run, k, id, stream) && SignedFor(run[k], id, publicKey, m);
      var e := GrantIsOwn(run, id, stream, k);
      assert SignedFor(own[e], id, publicKey, m);
    }
    if SignedIn(own, id, publicKey, m) {
      var e, stream :| 0 <= e < |own| && Grants(own, e, id, stream) && SignedFor(own[e], id, publicKey, m);
      var k := OwnGrant(run, id, stream, e);
      assert SignedFor(run[k], id, publicKey, m);
    }
  }

  // ---- What an honest witness signed in a run ----

  /** The body this witness writes about the request. */
  predicate SignedFor(r: Request, id: Text, publicKey: Bytes, m: Bytes) {
    && ReceiptFits(Draft(id, publicKey, r.ckpt, r.ts))
    && m == ReceiptBody(Draft(id, publicKey, r.ckpt, r.ts))
  }

  /** The bodies witness id signed: those of the requests it granted. */
  ghost predicate SignedIn(run: Run, id: Text, publicKey: Bytes, m: Bytes) {
    exists k, stream :: 0 <= k < |run| && Grants(run, k, id, stream) && SignedFor(run[k], id, publicKey, m)
  }

  /** If the receipt verifies under the witness's registered key, the witness granted that very statement in the run. */
  ghost predicate GenuineReceipt(c: Crypto, reg: Registry, run: Run, r: Receipt) {
    var w := WitnessFor(reg, r.witnessId);
    (w.Some? && ReceiptFits(r)
     && VerifySignature(c, w.value.publicKey, ReceiptBody(r), r.signature, w.value.scheme))
    ==> SignedIn(run, r.witnessId, w.value.publicKey, ReceiptBody(r))
  }

  /** Request k asked for exactly the checkpoint's statement. */
  predicate Cosigned(run: Run, k: nat, id: Text, ckpt: Checkpoint)
    requires k < |run|
  {
    && Grants(run, k, id, StreamOfCkpt(ckpt))
    && run[k].ckpt.prevAnchor == ckpt.prevAnchor && run[k].ckpt.endAnchor == ckpt.endAnchor
    && run[k].ckpt.epoch == ckpt.epoch && run[k].ckpt.seqStart == ckpt.seqStart && run[k].ckpt.seqEnd == ckpt.seqEnd
  }

  /** A vouched receipt that is genuine was granted in the run. */
  lemma VouchedWasCosigned(c: Crypto, reg: Registry, policy: WitnessPolicy, run: Run, ckpt: Checkpoint, r: Receipt)
    returns (k: nat)
    requires Vouched(c, reg, policy, ckpt, r) && GenuineReceipt(c, reg, run, r)
    ensures k < |run| && Cosigned(run, k, r.witnessId, ckpt)
  {
    hide ReceiptBody, ReceiptFits, LatestAfter;
    var w := WitnessFor(reg, r.witnessId).value;
    assert SignedIn(run, r.witnessId, w.publicKey, ReceiptBody(r));
    var i, stream :| 0 <= i < |run| && Grants(run, i, r.witnessId, stream)
      && SignedFor(run[i], r.witnessId, w.publicKey, ReceiptBody(r));
    ReceiptBodyInjective(r, Draft(r.witnessId, w.publicKey, run[i].ckpt, run[i].ts));
    k := i;
  }

  /** An anchor held after granting something was put there by the last grant since. */
  lemma {:induction false} LastGrant(run: Run, i: nat, j: nat, id: Text, stream: Text) returns (k: nat)
    requires i < j <= |run| && Grants(run, i, id, stream)
    ensures i <= k < j && Grants(run, k, id, stream)
    ensures run[k].ckpt.endAnchor == LatestAfter(run[..j], id, stream)
  {
    hide Grantable;
    var n := j - 1;
    assert run[..j][..n] == run[..n] && run[..j][n] == run[n];
    if Grants(run, n, id, stream) {
      k := n;
    } else {
      k := LastGrant(run, i, n, id, stream);
    }
  }

  /** Between two grants from one anchor to different anchors, the witness returned to that anchor. */
  lemma WitnessReturned(run: Run, i: nat, j: nat, id: Text, stream: Text) returns (k: nat)
    requires i < j < |run| && Grants(run, i, id, stream) && Grants(run, j, id, stream)
    ensures i <= k < j && Grants(run, k, id, stream) && run[k].ckpt.endAnchor == run[j].ckpt.prevAnchor
  {
    k := LastGrant(run, i, j, id, stream);
  }

  // ---- Quorums ----

  /** Two quorums of one policy share a witness outside any small set. */
  lemma QuorumsIntersect<T>(all: set<T>, a: set<T>, b: set<T>, faulty: set<T>, q: int, f: int) returns (w: T)
    requires a <= all && b <= all && |a| >= q && |b| >= q && |faulty * all| <= f
    requires 2 * q > |all| + f
    ensures w in a && w in b && w !in faulty
  {
    SubsetCardinality(a + b, all);
    assert |a + b| + |a * b| == |a| + |b|;
    if a * b <= faulty {
      SubsetCardinality(a * b, faulty * all);
      assert false;
    }
    w :| w in a * b && w !in faulty;
  }

  /** An accepted item was vouched for by a quorum of the policy's witnesses. */
  lemma AcceptedIds(c: Crypto, reg: Registry, ev: Evidence, q: Option<int>, policy: WitnessPolicy)
    returns (ids: set<Text>)
    requires ReceiptsAccepted(c, reg, ev, q) && PolicyFor(reg, StreamOf(ev)) == Some(policy)
    ensures ids <= Elements(policy.witnessIds) && |ids| >= policy.quorum
    ensures forall id :: id in ids ==> exists r :: r in OrEmpty(ev.receipts) && r.witnessId == id
  {
    hide ReceiptBody, ReceiptFits, VerifySignature;
    AcceptedQuorum(c, reg, ev, q);
    var receipts := OrEmpty(ev.receipts);
    ids := Elements(Ids(receipts));
    forall id | id in ids
      ensures id in Elements(policy.witnessIds) && exists r :: r in receipts && r.witnessId == id
    {
      var i :| 0 <= i < |receipts| && Ids(receipts)[i] == id;
      assert receipts[i] in receipts;
    }
  }

  /** The receipts presented in the items under names of the policy outside `faulty` are genuine; `faulty` is small. */
  ghost predicate MostlyHonest(
      c: Crypto, reg: Registry, policy: WitnessPolicy, run: Run, faulty: set<Text>, evs: seq<Evidence>)
  {
    && (forall i :: 0 <= i < |evs| ==> GenuineItem(c, reg, policy, run, faulty, evs[i]))
    && 2 * policy.quorum > |policy.witnessIds| + |faulty * Elements(policy.witnessIds)|
  }

  ghost predicate GenuineItem(
      c: Crypto, reg: Registry, policy: WitnessPolicy, run: Run, faulty: set<Text>, ev: Evidence)
  {
    forall r :: r in OrEmpty(ev.receipts) && r.witnessId in policy.witnessIds && r.witnessId !in faulty
      ==> GenuineReceipt(c, reg, run, r)
  }

  /** In the run, witness id cosigned both checkpoints, and in between one that ends where both start. */
  ghost predicate Returned(run: Run, id: Text, a: Checkpoint, b: Checkpoint) {
    exists i, j, k :: 0 <= i <= k < j < |run|
      && ((Cosigned(run, i, id, a) && Cosigned(run, j, id, b)) || (Cosigned(run, i, id, b) && Cosigned(run, j, id, a)))
      && Grants(run, k, id, StreamOfCkpt(a)) && run[k].ckpt.endAnchor == a.prevAnchor
      && (run[i].ckpt.endAnchor != a.prevAnchor ==> i < k)
  }

  /**
   * No split view past a quorum. Two items of one stream that start at one anchor and end at different anchors
   * can both gather a quorum only if some honest witness went back: it cosigned one, later a checkpoint ending at
   * the common start, and then the other.
   */
  lemma NoSplitView(c: Crypto, reg: Registry, policy: WitnessPolicy, run: Run, faulty: set<Text>,
                    a: Evidence, qa: Option<int>, b: Evidence, qb: Option<int>) returns (id: Text)
    requires PolicyFor(reg, StreamOf(a)) == Some(policy) && policy.WellFormed()
    requires MostlyHonest(c, reg, policy, run, faulty, [a, b])
    requires ReceiptsAccepted(c, reg, a, qa) && ReceiptsAccepted(c, reg, b, qb)
    requires StreamOf(a) == StreamOf(b) && a.checkpoint.prevAnchor == b.checkpoint.prevAnchor
    requires a.checkpoint.endAnchor != b.checkpoint.endAnchor
    ensures id in policy.witnessIds && id !in faulty && Returned(run, id, a.checkpoint, b.checkpoint)
  {
    hide Vouched, GenuineReceipt, Grants, Returned;
    assert GenuineItem(c, reg, policy, run, faulty, [a, b][0]) && GenuineItem(c, reg, policy, run, faulty, [a, b][1]);
    var idsA := AcceptedIds(c, reg, a, qa, policy);
    var idsB := AcceptedIds(c, reg, b, qb, policy);
    var all := Elements(policy.witnessIds);
    DistinctCardinality(policy.witnessIds);
    id := QuorumsIntersect(all, idsA, idsB, faulty, policy.quorum, |faulty * all|);
    var ra :| ra in OrEmpty(a.receipts) && ra.witnessId == id;
    var rb :| rb in OrEmpty(b.receipts) && rb.witnessId == id;
    var i := VouchedWasCosigned(c, reg, policy, run, a.checkpoint, ra);
    var j := VouchedWasCosigned(c, reg, policy, run, b.checkpoint, rb);
    assert i != j;
    if i < j {
      CosignedTwice(run, id, i, a.checkpoint, j, b.checkpoint);
    } else {
      CosignedTwice(run, id, j, b.checkpoint, i, a.checkpoint);
    }
  }

  lemma CosignedTwice(run: Run, id: Text, i: nat, a: Checkpoint, j: nat, b: Checkpoint)
    requires i < j < |run| && Cosigned(run, i, id, a) && Cosigned(run, j, id, b)
    requires StreamOfCkpt(a) == StreamOfCkpt(b) && a.prevAnchor == b.prevAnchor
    ensures Returned(run, id, a, b) && Returned(run, id, b, a)
  {
    hide Grants, CanonicalStreamId;
    var k := WitnessReturned(run, i, j, id, StreamOfCkpt(a));
    assert run[i].ckpt.endAnchor != a.prevAnchor ==> i < k;
  }

  // ---- Whole histories ----

  /** An honest witness never cosigns a checkpoint that ends where one it cosigned before, or that one, started. */
  ghost predicate NeverReturns(run: Run, id: Text, stream: Text) {
    forall i, k :: 0 <= i <= k < |run| && Grants(run, i, id, stream) && Grants(run, k, id, stream)
      ==> run[k].ckpt.endAnchor != run[i].ckpt.prevAnchor
  }

  /**
   * Two witnessed histories that verify from one genesis never fork: wherever both have an item, the anchors
   * agree, as long as no honest witness returns to an anchor it has left.
   */
  lemma NoForkedHistories(c: Crypto, jobA: Job, jobB: Job, policy: WitnessPolicy, run: Run, faulty: set<Text>, n: nat)
    requires jobA.Verified(c) && jobB.Verified(c) && jobA.arm == A6 && jobB.arm == A6
    requires jobA.registry == jobB.registry && StreamOf(jobA.evs[0]) == StreamOf(jobB.evs[0])
    requires jobA.Anchors().value.genesis.anchor == jobB.Anchors().value.genesis.anchor
    requires PolicyFor(jobA.registry.value, StreamOf(jobA.evs[0])) == Some(policy) && policy.WellFormed()
    requires MostlyHonest(c, jobA.registry.value, policy, run, faulty, jobA.evs + jobB.evs)
    requires forall id :: id in policy.witnessIds && id !in faulty ==> NeverReturns(run, id, StreamOf(jobA.evs[0]))
    requires n < |jobA.evs| && n < |jobB.evs|
    ensures jobA.evs[n].checkpoint.endAnchor == jobB.evs[n].checkpoint.endAnchor
  {
    hide StreamVerified, ReceiptsAccepted, MostlyHonest, CanonicalStreamId, Returned, NeverReturns;
    if n > 0 {
      NoForkedHistories(c, jobA, jobB, policy, run, faulty, n - 1);
    }
    var a, b := jobA.evs[n], jobB.evs[n];
    VerifiedStart(c, jobA, n);
    VerifiedStart(c, jobB, n);
    if a.checkpoint.endAnchor != b.checkpoint.endAnchor {
      HonestAbout(c, jobA.registry.value, policy, run, faulty, jobA.evs, jobB.evs, n);
      var id := NoSplitView(c, jobA.registry.value, policy, run, faulty, a, jobA.witnessQuorum, b,
                            jobB.witnessQuorum);
      ReturnsThenFalse(run, id, a.checkpoint, b.checkpoint);
    }
  }

  lemma HonestAbout(c: Crypto, reg: Registry, policy: WitnessPolicy, run: Run, faulty: set<Text>,
                    evsA: seq<Evidence>, evsB: seq<Evidence>, n: nat)
    requires n < |evsA| && n < |evsB| && MostlyHonest(c, reg, policy, run, faulty, evsA + evsB)
    ensures MostlyHonest(c, reg, policy, run, faulty, [evsA[n], evsB[n]])
  {
    hide GenuineItem;
    var all := evsA + evsB;
    assert GenuineItem(c, reg, policy, run, faulty, all[n]);
    assert GenuineItem(c, reg, policy, run, faulty, all[|evsA| + n]);
  }

  /** Item n of a verified witnessed stream: its receipts were accepted, and it starts at the expected anchor. */
  lemma VerifiedStart(c: Crypto, job: Job, n: nat)
    requires job.Verified(c) && job.arm == A6 && n < |job.evs|
    ensures ReceiptsAccepted(c, job.registry.value, job.evs[n], job.witnessQuorum)
    ensures StreamOf(job.evs[n]) == StreamOf(job.evs[0])
    ensures job.evs[n].checkpoint.prevAnchor == ExpectedPrev(job.Anchors().value.genesis, job.evs, n)
  {
    hide ReceiptsAccepted, StreamOf, RecordsFit, Committed;
    assert LinkedAt(job.Anchors().value.genesis, job.evs, n);
  }

  lemma ReturnsThenFalse(run: Run, id: Text, a: Checkpoint, b: Checkpoint)
    requires Returned(run, id, a, b) && StreamOfCkpt(a) == StreamOfCkpt(b) && a.prevAnchor == b.prevAnchor
    ensures !NeverReturns(run, id, StreamOfCkpt(a))
  {
    hide Grants, CanonicalStreamId, StreamOfCkpt;
    var i, j, k :| 0 <= i <= k < j < |run|
      && ((Cosigned(run, i, id, a) && Cosigned(run, j, id, b)) || (Cosigned(run, i, id, b) && Cosigned(run, j, id, a)))
      && Grants(run, k, id, StreamOfCkpt(a)) && run[k].ckpt.endAnchor == a.prevAnchor
      && (run[i].ckpt.endAnchor != a.prevAnchor ==> i < k);
    assert Grants(run, i, id, StreamOfCkpt(a));
  }
}
