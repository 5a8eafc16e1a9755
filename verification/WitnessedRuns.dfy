/** The witnesses of an A6 arm, asked in any interleaving: what they signed, and that split views stay excluded. */
module WitnessedRuns {
  import opened Prelude
  import opened Bytes
  import opened Text
  import opened Crypto
  import opened Codec
  import opened Registry
  import opened Evidence
  import opened StreamAudit
  import opened Witness
  import opened ArmSpec
  import opened RunInvariant
  import opened RunHistory
  import opened Completeness

  /** Every sealed item carries one receipt per witness. */
  predicate FullyWitnessed(cfg: Config, sealed: seq<Evidence>) {
    forall e :: 0 <= e < |sealed| ==> |OrEmpty(sealed[e].receipts)| == |cfg.witnessKeys|
  }

  /** What the arm asks witness i: to cosign each sealed checkpoint, in order. */
  function Asked(cfg: Config, sealed: seq<Evidence>, i: nat): Run
    requires FullyWitnessed(cfg, sealed) && i < |cfg.witnessKeys|
  {
    seq(|sealed|, e requires 0 <= e < |sealed| =>
      Request(WitnessName(i), sealed[e].checkpoint, OrEmpty(sealed[e].receipts)[i].ts))
  }

  /** The run holds the arm's requests to each of its witnesses, in any interleaving with each other. */
  ghost predicate Interleaves(cfg: Config, sealed: seq<Evidence>, run: Run)
    requires FullyWitnessed(cfg, sealed)
  {
    forall i :: 0 <= i < |cfg.witnessKeys| ==> OwnRequests(run, WitnessName(i)) == Asked(cfg, sealed, i)
  }

  lemma SealedIsWitnessed(cfg: Config, s: ArmState)
    requires cfg.arm == A6 && cfg.Supported() && Keeps(cfg, s)
    ensures FullyWitnessed(cfg, s.sealed)
  {
    hide ItemInPlace;
    forall e | 0 <= e < |s.sealed| ensures |OrEmpty(s.sealed[e].receipts)| == |cfg.witnessKeys| {
      ReceiptsInPlace(cfg, s.sealed, e);
    }
  }

  /** What is needed of item e: the arm's stream, linked to the item before, with witness i's good receipt. */
  lemma WitnessedItem(cfg: Config, s: ArmState, e: nat, i: nat)
    requires cfg.arm == A6 && cfg.Supported() && Keeps(cfg, s) && e < |s.sealed| && i < |cfg.witnessKeys|
    ensures var ev := s.sealed[e];
      && StreamOfCkpt(ev.checkpoint) == cfg.StreamId() && ev.checkpoint.prevAnchor == PrevAnchor(s.sealed[..e])
      && |OrEmpty(ev.receipts)| == |cfg.witnessKeys| && GoodReceipt(cfg, ev.checkpoint, i, OrEmpty(ev.receipts)[i])
  {
    hide HonestCommitment, CheckpointFits, CanonicalStreamId, GoodReceipt, AllRecords, WitnessName;
    assert ItemInPlace(cfg, s.sealed, e);
  }

  /** A good receipt is the signed statement about a request that serialises. */
  lemma GoodIsSignedFor(cfg: Config, ckpt: Checkpoint, i: nat, r: Receipt)
    requires i < |cfg.witnessKeys| && GoodReceipt(cfg, ckpt, i, r)
    ensures var request := Request(WitnessName(i), ckpt, r.ts);
      && r.witnessId == WitnessName(i) && r.publicKey == cfg.witnessKeys[i] && ReceiptFits(r)
      && Grantable(ckpt.prevAnchor, request)
      && SignedFor(request, WitnessName(i), cfg.witnessKeys[i], ReceiptBody(r))
  {
    hide CanonicalStreamId, WitnessName, StatementFits, StatementFields;
    var d := Draft(WitnessName(i), cfg.witnessKeys[i], ckpt, r.ts);
    assert ReceiptStatement(d) == ReceiptStatement(r);
    assert ReceiptStatement(Draft(WitnessName(i), [], ckpt, r.ts)) == ReceiptStatement(r);
  }

  /** Request e to witness i extends the arm's previous anchor and leads to the next. */
  lemma AskedRequest(cfg: Config, s: ArmState, i: nat, e: nat)
    requires cfg.arm == A6 && cfg.Supported() && Keeps(cfg, s) && FullyWitnessed(cfg, s.sealed)
    requires i < |cfg.witnessKeys| && e < |s.sealed|
    ensures var request := Asked(cfg, s.sealed, i)[e];
      && Concerns(request, WitnessName(i), cfg.StreamId()) && Grantable(PrevAnchor(s.sealed[..e]), request)
      && request.ckpt.endAnchor == PrevAnchor(s.sealed[..e + 1])
  {
    hide CanonicalStreamId, WitnessName, Keeps, GoodReceipt, Grantable;
    WitnessedItem(cfg, s, e, i);
    GoodIsSignedFor(cfg, s.sealed[e].checkpoint, i, OrEmpty(s.sealed[e].receipts)[i]);
  }

  /** After the first e requests witness i holds the arm's previous anchor: it is in lockstep. */
  lemma {:induction false} AskedInLockstep(cfg: Config, s: ArmState, i: nat, e: nat)
    requires cfg.arm == A6 && cfg.Supported() && Keeps(cfg, s) && FullyWitnessed(cfg, s.sealed)
    requires i < |cfg.witnessKeys| && e <= |s.sealed|
    ensures LatestAfter(Asked(cfg, s.sealed, i)[..e], WitnessName(i), cfg.StreamId()) == PrevAnchor(s.sealed[..e])
  {
    hide CanonicalStreamId, WitnessName, Keeps, Grantable, Concerns, Asked, FullyWitnessed;
    if e > 0 {
      hide PrevAnchor;
      AskedInLockstep(cfg, s, i, e - 1);
      AskedRequest(cfg, s, i, e - 1);
      var run := Asked(cfg, s.sealed, i);
      AskedLength(cfg, s.sealed, i);
      assert run[..e][..e - 1] == run[..e - 1];
    }
  }

  lemma AskedLength(cfg: Config, sealed: seq<Evidence>, i: nat)
    requires FullyWitnessed(cfg, sealed) && i < |cfg.witnessKeys|
    ensures |Asked(cfg, sealed, i)| == |sealed|
  {}

  /** Every request of the arm is granted. */
  lemma AskedIsGranted(cfg: Config, s: ArmState, i: nat, e: nat)
    requires cfg.arm == A6 && cfg.Supported() && Keeps(cfg, s) && FullyWitnessed(cfg, s.sealed)
    requires i < |cfg.witnessKeys| && e < |s.sealed|
    ensures Grants(Asked(cfg, s.sealed, i), e, WitnessName(i), cfg.StreamId())
  {
    hide CanonicalStreamId, WitnessName, Keeps, Grantable, LatestAfter, Concerns;
    AskedInLockstep(cfg, s, i, e);
    AskedRequest(cfg, s, i, e);
  }

  /** So every receipt of the arm is genuine, with working keys, in any interleaving of its witnesses. */
  lemma ArmReceiptIsGenuine(cfg: Config, s: ArmState, run: Run, items: nat, quorum: Option<int>, e: nat, i: nat)
    requires cfg.arm == A6 && cfg.Supported() && Keeps(cfg, s) && FullyWitnessed(cfg, s.sealed)
    requires Interleaves(cfg, s.sealed, run) && e < |s.sealed| && i < |cfg.witnessKeys|
    ensures GenuineReceipt(cfg.c, RunRegistry(cfg, items, quorum), run, OrEmpty(s.sealed[e].receipts)[i])
  {
    hide CanonicalStreamId, WitnessName, Keeps, GoodReceipt, Grants, OwnRequests, ReceiptFits, ReceiptBody, SignedFor,
         VerifySignature;
    var r := OrEmpty(s.sealed[e].receipts)[i];
    AskedIsGranted(cfg, s, i, e);
    WitnessedItem(cfg, s, e, i);
    GoodIsSignedFor(cfg, s.sealed[e].checkpoint, i, r);
    ArmWitnessIsFound(cfg, i);
    var k := OwnGrant(run, WitnessName(i), cfg.StreamId(), e);
    assert SignedFor(run[k], WitnessName(i), cfg.witnessKeys[i], ReceiptBody(r));
  }

  /**
   * The hypothesis of `NoSplitView`, and the first of `NoForkedHistories`, holds of an honest arm: its witnesses sign
   * with working keys, none of them is faulty, and any majority quorum will do.
   */
  lemma ArmIsMostlyHonest(cfg: Config, s: ArmState, run: Run, items: nat, quorum: Option<int>)
    requires cfg.arm == A6 && cfg.Supported() && Keeps(cfg, s) && FullyWitnessed(cfg, s.sealed)
    requires Interleaves(cfg, s.sealed, run)
    requires 2 * RunPolicy(cfg, quorum).quorum > |cfg.witnessKeys|
    ensures MostlyHonest(cfg.c, RunRegistry(cfg, items, quorum), RunPolicy(cfg, quorum), run, {}, s.sealed)
  {
    hide CanonicalStreamId, WitnessName, Keeps, GenuineReceipt, OwnRequests, RunRegistry, ArmWitness;
    var reg, policy := RunRegistry(cfg, items, quorum), RunPolicy(cfg, quorum);
    forall e | 0 <= e < |s.sealed| ensures GenuineItem(cfg.c, reg, policy, run, {}, s.sealed[e]) {
      forall r | r in OrEmpty(s.sealed[e].receipts) ensures GenuineReceipt(cfg.c, reg, run, r) {
        var i :| 0 <= i < |OrEmpty(s.sealed[e].receipts)| && OrEmpty(s.sealed[e].receipts)[i] == r;
        ArmReceiptIsGenuine(cfg, s, run, items, quorum, e, i);
      }
    }
    assert {} * Elements(policy.witnessIds) == {};
  }

  /** No item ends where it or an earlier one starts, since every anchor is new. */
  lemma AnchorsNeverReturn(cfg: Config, s: ArmState, inputs: set<Bytes>, e: nat, f: nat)
    requires Regular(cfg, s) && GoodHashes(cfg, s.sealed, inputs) && e <= f < |s.sealed|
    ensures s.sealed[f].checkpoint.endAnchor != s.sealed[e].checkpoint.prevAnchor
  {
    hide Keeps, GoodHashes, AllRecords, StreamOf;
    AnchorsAreNew(cfg, s, inputs);
    SealedAtPlace(cfg, s, e);
    if e > 0 {
      assert EndAnchors(s.sealed)[e - 1] != EndAnchors(s.sealed)[f];
    }
  }

  /** A grant of one of the arm's witnesses is about a sealed item: the one after all its requests before. */
  lemma GrantIsSealed(cfg: Config, s: ArmState, run: Run, i: nat, k: nat) returns (e: nat)
    requires FullyWitnessed(cfg, s.sealed) && Interleaves(cfg, s.sealed, run) && i < |cfg.witnessKeys|
    requires k < |run| && Grants(run, k, WitnessName(i), cfg.StreamId())
    ensures e == |OwnRequests(run[..k], WitnessName(i))|
    ensures e < |s.sealed| && run[k].ckpt == s.sealed[e].checkpoint
  {
    hide WitnessName, CanonicalStreamId, Grants, OwnRequests;
    e := GrantIsOwn(run, WitnessName(i), cfg.StreamId(), k);
    assert OwnRequests(run, WitnessName(i)) == Asked(cfg, s.sealed, i);
  }

  /** So no witness of the arm ever goes back to an anchor it has left. */
  lemma ArmNeverReturns(cfg: Config, s: ArmState, run: Run, i: nat, inputs: set<Bytes>)
    requires Regular(cfg, s) && GoodHashes(cfg, s.sealed, inputs)
    requires FullyWitnessed(cfg, s.sealed) && Interleaves(cfg, s.sealed, run) && i < |cfg.witnessKeys|
    ensures NeverReturns(run, WitnessName(i), cfg.StreamId())
  {
    hide WitnessName, CanonicalStreamId, Grants, OwnRequests, Regular, GoodHashes, Interleaves;
    var id, stream := WitnessName(i), cfg.StreamId();
    forall j, k | 0 <= j <= k < |run| && Grants(run, j, id, stream) && Grants(run, k, id, stream)
      ensures run[k].ckpt.endAnchor != run[j].ckpt.prevAnchor
    {
      var e := GrantIsSealed(cfg, s, run, i, j);
      var f := GrantIsSealed(cfg, s, run, i, k);
      OwnRequestsGrow(run, id, j, k);
      AnchorsNeverReturn(cfg, s, inputs, e, f);
    }
  }

  /**
   * Both hypotheses of `NoForkedHistories` hold of every run of an honest A6 arm that numbers its records in order,
   * in every interleaving of the requests to its witnesses.
   */
  lemma ArmCannotFork(cfg: Config, seed: Bytes, calls: seq<Call>, run: Run, items: nat, quorum: Option<int>,
                      inputs: set<Bytes>)
    requires cfg.arm == A6 && cfg.Supported() && After(cfg, seed, calls).Ok? && InOrder(cfg, calls)
    requires GoodHashes(cfg, After(cfg, seed, calls).value.sealed, inputs)
    requires var sealed := After(cfg, seed, calls).value.sealed;
      FullyWitnessed(cfg, sealed) ==> Interleaves(cfg, sealed, run)
    requires 2 * RunPolicy(cfg, quorum).quorum > |cfg.witnessKeys|
    ensures var sealed, policy := After(cfg, seed, calls).value.sealed, RunPolicy(cfg, quorum);
      && FullyWitnessed(cfg, sealed)
      && MostlyHonest(cfg.c, RunRegistry(cfg, items, quorum), policy, run, {}, sealed)
      && forall id :: id in policy.witnessIds ==> NeverReturns(run, id, cfg.StreamId())
  {
    hide After, InOrder, GoodHashes, Keeps, Interleaves, FullyWitnessed, WitnessName, CanonicalStreamId, NeverReturns,
         Regular, GenuineItem, RunRegistry, SerializedAre;
    var s := After(cfg, seed, calls).value;
    RunKeeps(cfg, seed, calls);
    RunIsRegular(cfg, seed, calls);
    SealedIsWitnessed(cfg, s);
    ArmIsMostlyHonest(cfg, s, run, items, quorum);
    forall id | id in RunPolicy(cfg, quorum).witnessIds ensures NeverReturns(run, id, cfg.StreamId()) {
      var i :| 0 <= i < |cfg.witnessKeys| && id == WitnessName(i);
      ArmNeverReturns(cfg, s, run, i, inputs);
    }
  }

  lemma RunPolicyIsFound(cfg: Config, items: nat, quorum: Option<int>)
    requires cfg.Supported() && cfg.arm == A6
    ensures PolicyFor(RunRegistry(cfg, items, quorum), cfg.StreamId()) == Some(RunPolicy(cfg, quorum))
  {
    hide CanonicalStreamId, ArmWitnesses;
  }

  /** More items whose receipts are genuine. */
  lemma HonestTogether(c: Crypto, reg: Registry, policy: WitnessPolicy, run: Run, evs: seq<Evidence>,
                       others: seq<Evidence>)
    requires MostlyHonest(c, reg, policy, run, {}, evs)
    requires forall i :: 0 <= i < |others| ==> GenuineItem(c, reg, policy, run, {}, others[i])
    ensures MostlyHonest(c, reg, policy, run, {}, evs + others)
  {
    hide GenuineItem;
    var all := evs + others;
    forall i | 0 <= i < |all| ensures GenuineItem(c, reg, policy, run, {}, all[i]) {
      if i >= |evs| {
        assert all[i] == others[i - |evs|];
      }
    }
  }

  /**
   * Nobody can fork a witnessed run. Whatever other stream verifies from the zero anchor, against the registry of
   * the run and with receipts its witnesses did give, has the anchors the arm sealed, as far as both go.
   */
  lemma NobodyForksTheRun(cfg: Config, seed: Bytes, calls: seq<Call>, run: Run, quorum: Option<int>, inputs: set<Bytes>,
                          other: Job, n: nat)
    requires HonestSetup(cfg) && cfg.arm == A6 && After(cfg, seed, calls).Ok? && InOrder(cfg, calls)
    requires CountAdds(calls) > 0 && calls[|calls| - 1].FlushBatch?
    requires GoodHashes(cfg, After(cfg, seed, calls).value.sealed, inputs)
    requires QuorumFits(cfg, quorum) && 2 * RunPolicy(cfg, quorum).quorum > |cfg.witnessKeys|
    requires var sealed := After(cfg, seed, calls).value.sealed;
      && (FullyWitnessed(cfg, sealed) ==> Interleaves(cfg, sealed, run))
      && var reg := RunRegistry(cfg, |sealed|, quorum);
      && other.Verified(cfg.c) && other.arm == A6 && other.registry == Some(reg)
      && StreamOf(other.evs[0]) == cfg.StreamId() && other.Anchors().value.genesis.anchor == ZERO_ANCHOR
      && (forall i :: 0 <= i < |other.evs| ==>
            GenuineItem(cfg.c, reg, RunPolicy(cfg, quorum), run, {}, other.evs[i]))
      && n < |sealed| && n < |other.evs|
    ensures other.evs[n].checkpoint.endAnchor == After(cfg, seed, calls).value.sealed[n].checkpoint.endAnchor
  {
    hide After, InOrder, GoodHashes, Keeps, Interleaves, FullyWitnessed, WitnessName, CanonicalStreamId, NeverReturns,
         SignsCorrectly, GenuineItem, RunRegistry, SerializedAre, StreamVerified, MostlyHonest, EntriesWellFormed;
    var s, policy := After(cfg, seed, calls).value, RunPolicy(cfg, quorum);
    var mine := GeneratedJob(cfg, s.sealed, quorum, None, None, 0.0);
    RunIsAccepted(cfg, seed, calls, quorum, None, None, 0.0, inputs);
    RunKeeps(cfg, seed, calls);
    RegistryOfRun(cfg, s, quorum);
    RunStream(cfg, s);
    AnchorsFound(cfg, s.sealed, quorum, None, None, 0.0);
    ArmCannotFork(cfg, seed, calls, run, |s.sealed|, quorum, inputs);
    HonestTogether(cfg.c, mine.registry.value, policy, run, s.sealed, other.evs);
    RunPolicyIsFound(cfg, |s.sealed|, quorum);
    RunPolicyIsWellFormed(cfg, |s.sealed|, quorum);
    NoForkedHistories(cfg.c, mine, other, policy, run, {}, n);
  }

  lemma RunPolicyIsWellFormed(cfg: Config, items: nat, quorum: Option<int>)
    requires HonestSetup(cfg) && cfg.arm == A6 && items > 0 && QuorumFits(cfg, quorum)
    ensures RunPolicy(cfg, quorum).WellFormed()
  {
    hide CanonicalStreamId, ArmWitnesses;
    RunRegistryIsWellFormed(cfg, items, quorum);
    assert RunRegistry(cfg, items, quorum).policies[0] == RunPolicy(cfg, quorum);
  }
}
