/** Registry and anchors declared for locally generated evidence. */
module Generated {
  import opened Prelude
  import opened Text
  import opened Crypto
  import opened Codec
  import opened Registry
  import opened Evidence

  // ---- Anchors ----

  /** `anchors_for_generated_evidence` with its defaults: from the zero genesis to the last checkpoint. */
  function AnchorsForGenerated(evs: seq<Evidence>, validUntil: Option<real>): Outcome<seq<StreamAnchors>> {
    if evs == [] then Raised
    else
      var last := evs[|evs| - 1].checkpoint;
      Ok([StreamAnchors(StreamOf(evs[0]), Position(ZERO_ANCHOR, 0, 1, None),
                        Some(Position(last.endAnchor, last.epoch, last.seqEnd, validUntil)))])
  }

  // ---- Registry ----

  function AllReceipts(evs: seq<Evidence>): seq<Receipt> {
    if evs == [] then [] else AllReceipts(evs[..|evs| - 1]) + OrEmpty(evs[|evs| - 1].receipts)
  }

  predicate KnownId(ws: seq<WitnessAuth>, id: Text) {
    exists k :: 0 <= k < |ws| && ws[k].witnessId == id
  }

  lemma KnownSnoc(ws: seq<WitnessAuth>, entry: WitnessAuth, id: Text)
    ensures KnownId(ws + [entry], id) <==> KnownId(ws, id) || entry.witnessId == id
  {
    var more := ws + [entry];
    assert more[|ws|] == entry && forall k :: 0 <= k < |ws| ==> more[k] == ws[k];
  }

  function EntryFor(r: Receipt, stream: Text): WitnessAuth {
    WitnessAuth(r.witnessId, r.publicKey, MlDsa65, [stream], 0, None)
  }

  /** One entry per witness id, with the key of its first receipt. */
  function WitnessEntries(receipts: seq<Receipt>, stream: Text): seq<WitnessAuth> {
    if receipts == [] then []
    else
      var n := |receipts| - 1;
      var front, r := WitnessEntries(receipts[..n], stream), receipts[n];
      if KnownId(front, r.witnessId) then front else front + [EntryFor(r, stream)]
  }

  function EntryIds(ws: seq<WitnessAuth>): seq<Text> {
    seq(|ws|, i requires 0 <= i < |ws| => ws[i].witnessId)
  }

  function MinEpoch(evs: seq<Evidence>): int
    requires evs != []
  {
    var last := evs[|evs| - 1].checkpoint.epoch;
    if |evs| == 1 then last else var m := MinEpoch(evs[..|evs| - 1]); if last < m then last else m
  }

  function MaxEpoch(evs: seq<Evidence>): int
    requires evs != []
  {
    var last := evs[|evs| - 1].checkpoint.epoch;
    if |evs| == 1 then last else var m := MaxEpoch(evs[..|evs| - 1]); if last > m then last else m
  }

  /** The registry that authorises exactly what the evidence shows. */
  function RegistryFor(evs: seq<Evidence>, arm: Arm, scheme: Scheme, quorum: Option<int>): Registry
    requires evs != []
  {
    var ckpt := evs[0].checkpoint;
    var ws := WitnessEntries(AllReceipts(evs), StreamOf(evs[0]));
    Registry(
      [PublisherAuth(ckpt.clientId, ckpt.topic, MinEpoch(evs), Some(MaxEpoch(evs)), evs[0].publicKey, scheme)],
      ws,
      if arm == A6
      then [WitnessPolicy(StreamOf(evs[0]), if quorum.Some? then quorum.value else |ws|, EntryIds(ws))] else [])
  }

  predicate OneKey(evs: seq<Evidence>) {
    forall i :: 0 <= i < |evs| ==> evs[i].publicKey == evs[0].publicKey
  }

  /** Collected entries have different ids and serve the stream, so the registry is unambiguous. */
  lemma RegistryForIsUnambiguous(evs: seq<Evidence>, arm: Arm, scheme: Scheme, quorum: Option<int>)
    requires evs != []
    ensures Unambiguous(RegistryFor(evs, arm, scheme, quorum))
  {
    var ws, stream := WitnessEntries(AllReceipts(evs), StreamOf(evs[0])), StreamOf(evs[0]);
    EntriesAreClean(AllReceipts(evs), stream);
    EntriesBackPolicy(ws, stream, if quorum.Some? then quorum.value else |ws|);
  }

  lemma EntriesBackPolicy(ws: seq<WitnessAuth>, stream: Text, quorum: int)
    requires WitnessIdsUnique(ws) && forall i :: 0 <= i < |ws| ==> ws[i].streams == [stream]
    ensures PolicyBacked(ws, WitnessPolicy(stream, quorum, EntryIds(ws)))
  {
    forall i | 0 <= i < |ws| ensures WitnessIn(ws, EntryIds(ws)[i]) == Some(ws[i]) {
      WitnessLookup(ws, ws[i]);
    }
  }

  lemma {:induction false} EntriesAreClean(receipts: seq<Receipt>, stream: Text)
    ensures var ws := WitnessEntries(receipts, stream);
      WitnessIdsUnique(ws) && forall i :: 0 <= i < |ws| ==> ws[i].streams == [stream]
  {
    if receipts != [] {
      var n := |receipts| - 1;
      EntriesAreClean(receipts[..n], stream);
      var front := WitnessEntries(receipts[..n], stream);
      if !KnownId(front, receipts[n].witnessId) {
        UniqueSnoc(front, EntryFor(receipts[n], stream));
      }
    }
  }

  lemma UniqueSnoc(ws: seq<WitnessAuth>, entry: WitnessAuth)
    requires WitnessIdsUnique(ws) && !KnownId(ws, entry.witnessId)
    ensures WitnessIdsUnique(ws + [entry])
  {
    var more := ws + [entry];
    assert more[|ws|] == entry && forall k :: 0 <= k < |ws| ==> more[k] == ws[k];
  }

  /** The publisher epochs spanned by the evidence. */
  method EpochSpan(evs: seq<Evidence>) returns (lo: int, hi: int)
    requires evs != []
    ensures lo == MinEpoch(evs) && hi == MaxEpoch(evs)
  {
    lo, hi := evs[0].checkpoint.epoch, evs[0].checkpoint.epoch;
    assert evs[..1][0] == evs[0];
    for i := 1 to |evs|
      invariant lo == MinEpoch(evs[..i]) && hi == MaxEpoch(evs[..i])
    {
      assert evs[..i + 1][..i] == evs[..i];
      var epoch := evs[i].checkpoint.epoch;
      lo := if epoch < lo then epoch else lo;
      hi := if epoch > hi then epoch else hi;
    }
    assert evs[..|evs|] == evs;
  }

  method CollectWitnesses(receipts: seq<Receipt>, stream: Text) returns (ws: seq<WitnessAuth>)
    ensures ws == WitnessEntries(receipts, stream)
  {
    hide KnownId;
    ws := [];
    var seen: set<Text> := {};
    assert forall id :: !KnownId(ws, id) by { NothingKnown(); }
    for i := 0 to |receipts|
      invariant ws == WitnessEntries(receipts[..i], stream)
      invariant forall id :: id in seen <==> KnownId(ws, id)
    {
      assert receipts[..i + 1][..i] == receipts[..i];
      var r := receipts[i];
      if r.witnessId !in seen {
        forall id { KnownSnoc(ws, EntryFor(r, stream), id); }
        ws := ws + [EntryFor(r, stream)];
        seen := seen + {r.witnessId};
      }
    }
    assert receipts[..|receipts|] == receipts;
  }

  lemma NothingKnown()
    ensures forall id :: !KnownId([], id)
  {}

  method ReceiptsOf(evs: seq<Evidence>) returns (receipts: seq<Receipt>)
    ensures receipts == AllReceipts(evs)
  {
    receipts := [];
    for i := 0 to |evs|
      invariant receipts == AllReceipts(evs[..i])
    {
      assert evs[..i + 1][..i] == evs[..i];
      receipts := receipts + OrEmpty(evs[i].receipts);
    }
    assert evs[..|evs|] == evs;
  }

  method EntriesCheck(reg: Registry) returns (ok: bool)
    ensures ok <==> EntriesWellFormed(reg)
  {
    ok := (forall i :: 0 <= i < |reg.publishers| ==> reg.publishers[i].WellFormed())
      && (forall i :: 0 <= i < |reg.witnesses| ==> CheckWitnessEntry(reg.witnesses[i]))
      && (forall i :: 0 <= i < |reg.policies| ==> CheckPolicyEntry(reg.policies[i]));
    assert forall i :: 0 <= i < |reg.witnesses| ==>
      (CheckWitnessEntry(reg.witnesses[i]) <==> reg.witnesses[i].WellFormed());
    assert forall i :: 0 <= i < |reg.policies| ==>
      (CheckPolicyEntry(reg.policies[i]) <==> reg.policies[i].WellFormed());
  }

  predicate NoRepeat(s: seq<Text>) { forall i, j :: 0 <= i < j < |s| ==> s[i] != s[j] }

  predicate CheckWitnessEntry(w: WitnessAuth) {
    && w.witnessId != [] && w.scheme != OtherScheme("") && w.publicKey != []
    && w.streams != [] && [] !in w.streams && NoRepeat(w.streams)
    && 0 <= w.epochStart && (w.epochEnd.Some? ==> w.epochStart <= w.epochEnd.value)
  }

  predicate CheckPolicyEntry(p: WitnessPolicy) {
    p.streamId != [] && 0 < p.quorum <= |p.witnessIds| && NoRepeat(p.witnessIds)
  }

  /** `registry_for_generated_evidence`: raises on no evidence, several keys, an arm without scheme, or a bad entry. */
  method RegistryForGenerated(evs: seq<Evidence>, arm: Arm, quorum: Option<int>) returns (r: Outcome<Registry>)
    ensures r.Ok? <==>
      (evs != [] && OneKey(evs) && ExpectedScheme(arm).Some?
       && EntriesWellFormed(RegistryFor(evs, arm, ExpectedScheme(arm).value, quorum)))
    ensures r.Ok? ==> r.value == RegistryFor(evs, arm, ExpectedScheme(arm).value, quorum) && Trusted(r.value)
  {
    if evs == [] || !OneKey(evs) { return Raised; }
    var scheme := ExpectedScheme(arm);
    if scheme.None? { return Raised; }
    var ckpt, stream := evs[0].checkpoint, StreamOf(evs[0]);
    var lo, hi := EpochSpan(evs);
    var publishers := [PublisherAuth(ckpt.clientId, ckpt.topic, lo, Some(hi), evs[0].publicKey, scheme.value)];
    var receipts := ReceiptsOf(evs);
    var ws := CollectWitnesses(receipts, stream);
    var policies: seq<WitnessPolicy> := [];
    if arm == A6 {
      var q := if quorum.Some? then quorum.value else |ws|;
      policies := [WitnessPolicy(stream, q, EntryIds(ws))];
    }
    var reg := Registry(publishers, ws, policies);
    assert reg == RegistryFor(evs, arm, scheme.value, quorum);
    var ok := EntriesCheck(reg);
    if !ok { return Raised; }
    ok := Validate(reg);
    RegistryForIsUnambiguous(evs, arm, scheme.value, quorum);
    r := Ok(reg);
  }
}
