/** Counting witness receipts: the offline auditor's loop and the native loop. */
module Receipts {
  import opened Prelude
  import opened Bytes
  import opened Text
  import opened Crypto
  import opened Codec
  import opened Registry
  import opened Evidence

  /** The receipt speaks about exactly this checkpoint. */
  predicate FieldsMatch(r: Receipt, ckpt: Checkpoint) {
    && r.streamId == CanonicalStreamId(ckpt.clientId, ckpt.topic)
    && r.epoch == ckpt.epoch && r.seqStart == ckpt.seqStart && r.seqEnd == ckpt.seqEnd
    && r.prevAnchor == ckpt.prevAnchor && r.endAnchor == ckpt.endAnchor
  }

  /** The registry entry that vouches for this receipt's witness, on this policy and checkpoint. */
  function Voucher(reg: Registry, policy: WitnessPolicy, ckpt: Checkpoint, r: Receipt): Option<WitnessAuth> {
    var w := WitnessFor(reg, r.witnessId);
    if w.Some? && r.witnessId in policy.witnessIds
       && w.value.Authorizes(CanonicalStreamId(ckpt.clientId, ckpt.topic), ckpt.epoch)
    then w else None
  }

  /** One receipt is good by itself: authorised, unsubstituted key, matching fields, verified signature. */
  predicate Vouched(c: Crypto, reg: Registry, policy: WitnessPolicy, ckpt: Checkpoint, r: Receipt) {
    var w := Voucher(reg, policy, ckpt, r);
    && w.Some?
    && (r.publicKey == [] || r.publicKey == w.value.publicKey)
    && FieldsMatch(r, ckpt)
    && ReceiptFits(r)
    && VerifySignature(c, w.value.publicKey, ReceiptBody(r), r.signature, w.value.scheme)
  }

  function KeyOf(reg: Registry, r: Receipt): Bytes {
    var w := WitnessFor(reg, r.witnessId);
    if w.Some? then w.value.publicKey else []
  }

  function Required(policy: WitnessPolicy, minReceipts: Option<int>): int {
    Max(policy.quorum, if minReceipts.Some? then minReceipts.value else 0)
  }

  function Ids(receipts: seq<Receipt>): seq<Text> {
    seq(|receipts|, i requires 0 <= i < |receipts| => receipts[i].witnessId)
  }

  function Keys(reg: Registry, receipts: seq<Receipt>): seq<Bytes> {
    seq(|receipts|, i requires 0 <= i < |receipts| => KeyOf(reg, receipts[i]))
  }

  function KeyIdOf(c: Crypto, reg: Registry, r: Receipt): Digest { c.hash(KeyOf(reg, r)) }

  function KeyIds(c: Crypto, reg: Registry, receipts: seq<Receipt>): seq<Digest> {
    seq(|receipts|, i requires 0 <= i < |receipts| => KeyIdOf(c, reg, receipts[i]))
  }

  /** Good receipts of pairwise different witnesses with pairwise different key identifiers. */
  ghost predicate AllVouched(
      c: Crypto, reg: Registry, policy: WitnessPolicy, ckpt: Checkpoint, receipts: seq<Receipt>)
  {
    && (forall r :: r in receipts ==> Vouched(c, reg, policy, ckpt, r))
    && Distinct(Ids(receipts)) && Distinct(KeyIds(c, reg, receipts))
  }

  /** What acceptance of an item's receipts means. */
  ghost predicate ReceiptsAccepted(c: Crypto, reg: Registry, ev: Evidence, minReceipts: Option<int>) {
    var policy, receipts := PolicyFor(reg, StreamOf(ev)), OrEmpty(ev.receipts);
    && policy.Some?
    && AllVouched(c, reg, policy.value, ev.checkpoint, receipts)
    && |receipts| >= Required(policy.value, minReceipts)
  }

  lemma DistinctSnoc<T>(s: seq<T>, x: T)
    ensures Distinct(s + [x]) <==> Distinct(s) && x !in s
  {
    var t := s + [x];
    assert t[|s|] == x && forall i :: 0 <= i < |s| ==> t[i] == s[i];
    if Distinct(t) {
      forall i, j | 0 <= i < j < |s| ensures s[i] != s[j] { assert t[i] != t[j]; }
      forall i | 0 <= i < |s| ensures s[i] != x { assert t[i] != t[|s|]; }
    }
  }

  lemma OneMoreVouched(c: Crypto, reg: Registry, policy: WitnessPolicy, ckpt: Checkpoint, rs: seq<Receipt>, r: Receipt)
    ensures Ids(rs + [r]) == Ids(rs) + [r.witnessId]
    ensures KeyIds(c, reg, rs + [r]) == KeyIds(c, reg, rs) + [KeyIdOf(c, reg, r)]
    ensures AllVouched(c, reg, policy, ckpt, rs + [r]) <==>
      AllVouched(c, reg, policy, ckpt, rs) && Vouched(c, reg, policy, ckpt, r)
      && r.witnessId !in Ids(rs) && KeyIdOf(c, reg, r) !in KeyIds(c, reg, rs)
  {
    hide Vouched, Distinct, KeyIdOf;
    assert Ids(rs + [r]) == Ids(rs) + [r.witnessId];
    assert KeyIds(c, reg, rs + [r]) == KeyIds(c, reg, rs) + [KeyIdOf(c, reg, r)];
    DistinctSnoc(Ids(rs), r.witnessId);
    DistinctSnoc(KeyIds(c, reg, rs), KeyIdOf(c, reg, r));
    assert forall x :: x in rs + [r] <==> x in rs || x == r;
  }

  // ---- What is wrong with a receipt ----

  /** A receipt of an authorised witness with this key. */
  predicate BringsKey(c: Crypto, reg: Registry, policy: WitnessPolicy, ckpt: Checkpoint, r: Receipt, key: Digest) {
    Voucher(reg, policy, ckpt, r).Some? && Voucher(reg, policy, ckpt, r).value.KeyId(c) == key
  }

  predicate IdBefore(receipts: seq<Receipt>, n: nat, id: Text)
    requires n <= |receipts|
  {
    exists j :: 0 <= j < n && receipts[j].witnessId == id
  }

  predicate KeyBefore(c: Crypto, reg: Registry, policy: WitnessPolicy, ckpt: Checkpoint, receipts: seq<Receipt>, n: nat,
                      key: Digest)
    requires n <= |receipts|
  {
    exists j :: 0 <= j < n && BringsKey(c, reg, policy, ckpt, receipts[j], key)
  }

  /** The first rule that receipt i breaks: witnesses and keys count once, then key, statement and signature. */
  function FlawAt(c: Crypto, reg: Registry, policy: WitnessPolicy, ckpt: Checkpoint, receipts: seq<Receipt>, i: nat)
    : (flaw: Option<Reason>)
    requires i < |receipts|
    ensures flaw.Some? ==> !TailReason(flaw.value)
  {
    var r := receipts[i];
    var w := WitnessFor(reg, r.witnessId);
    if IdBefore(receipts, i, r.witnessId) then Some(WITNESS_DUPLICATE_ID)
    else if w.None? || r.witnessId !in policy.witnessIds then Some(WITNESS_UNTRUSTED)
    else if Voucher(reg, policy, ckpt, r).None? then Some(WITNESS_NOT_AUTHORIZED)
    else if KeyBefore(c, reg, policy, ckpt, receipts, i, w.value.KeyId(c)) then Some(WITNESS_DUPLICATE_KEY)
    else if r.publicKey != [] && r.publicKey != w.value.publicKey then Some(WITNESS_KEY_SUBSTITUTION)
    else if !FieldsMatch(r, ckpt) then Some(WITNESS_FIELDS_MISMATCH)
    else if !Vouched(c, reg, policy, ckpt, r) then Some(WITNESS_SIGNATURE_INVALID)
    else None
  }

  /** Receipt i gets as far as its signature, but has no body to verify: `serialize` raises. */
  predicate ReceiptRaises(c: Crypto, reg: Registry, policy: WitnessPolicy, ckpt: Checkpoint, receipts: seq<Receipt>,
                          i: nat)
    requires i < |receipts|
  {
    var r := receipts[i];
    var w := Voucher(reg, policy, ckpt, r);
    && !IdBefore(receipts, i, r.witnessId) && w.Some?
    && !KeyBefore(c, reg, policy, ckpt, receipts, i, w.value.KeyId(c))
    && (r.publicKey == [] || r.publicKey == w.value.publicKey) && FieldsMatch(r, ckpt) && !ReceiptFits(r)
  }

  /** The flaws of the first n receipts, in order. */
  function Flaws(c: Crypto, reg: Registry, policy: WitnessPolicy, ckpt: Checkpoint, receipts: seq<Receipt>, n: nat)
    : (flaws: seq<Reason>)
    requires n <= |receipts|
    ensures |flaws| <= n && NoTailReason(flaws)
  {
    if n == 0 then []
    else
      var flaw := FlawAt(c, reg, policy, ckpt, receipts, n - 1);
      Flaws(c, reg, policy, ckpt, receipts, n - 1) + if flaw.Some? then [flaw.value] else []
  }

  /** After good receipts, the next one has no flaw exactly when it is good and its witness and key are new. */
  lemma FlawlessNext(c: Crypto, reg: Registry, policy: WitnessPolicy, ckpt: Checkpoint, receipts: seq<Receipt>, n: nat)
    requires n < |receipts| && AllVouched(c, reg, policy, ckpt, receipts[..n])
    ensures FlawAt(c, reg, policy, ckpt, receipts, n) == None <==>
      (Vouched(c, reg, policy, ckpt, receipts[n]) && receipts[n].witnessId !in Ids(receipts[..n])
       && KeyIdOf(c, reg, receipts[n]) !in KeyIds(c, reg, receipts[..n]))
  {
    hide FieldsMatch, ReceiptFits, ReceiptBody, VerifySignature, Distinct;
    var front := receipts[..n];
    forall j | 0 <= j < n
      ensures Ids(front)[j] == receipts[j].witnessId && KeyIds(c, reg, front)[j] == KeyIdOf(c, reg, receipts[j])
      ensures BringsKey(c, reg, policy, ckpt, receipts[j], KeyIdOf(c, reg, receipts[j]))
    {
      assert front[j] in front && Vouched(c, reg, policy, ckpt, front[j]);
    }
  }

  /** No flaws at all is what acceptance asks for. */
  lemma {:induction false} FlawlessIsVouched(
      c: Crypto, reg: Registry, policy: WitnessPolicy, ckpt: Checkpoint, receipts: seq<Receipt>, n: nat)
    requires n <= |receipts|
    ensures Flaws(c, reg, policy, ckpt, receipts, n) == [] <==> AllVouched(c, reg, policy, ckpt, receipts[..n])
  {
    hide AllVouched, FlawAt, Vouched, KeyIdOf;
    if n == 0 {
      assert receipts[..0] == [];
      NoneVouched(c, reg, policy, ckpt);
    } else {
      FlawlessIsVouched(c, reg, policy, ckpt, receipts, n - 1);
      assert receipts[..n] == receipts[..n - 1] + [receipts[n - 1]];
      OneMoreVouched(c, reg, policy, ckpt, receipts[..n - 1], receipts[n - 1]);
      if AllVouched(c, reg, policy, ckpt, receipts[..n - 1]) {
        FlawlessNext(c, reg, policy, ckpt, receipts, n - 1);
      }
    }
  }

  lemma NoneVouched(c: Crypto, reg: Registry, policy: WitnessPolicy, ckpt: Checkpoint)
    ensures AllVouched(c, reg, policy, ckpt, [])
    ensures Ids([]) == [] && KeyIds(c, reg, []) == []
  {}

  // ---- The offline loop ----

  datatype WitnessVerification = WitnessVerification(
    accepted: bool, validDistinct: nat, totalReceipts: nat, required: int, reasons: seq<Reason>)

  /** The sets hold the witnesses and the authorised keys of the first n receipts. */
  ghost predicate SeenSoFar(c: Crypto, reg: Registry, policy: WitnessPolicy, ckpt: Checkpoint, receipts: seq<Receipt>,
                            n: nat, ids: set<Text>, keys: set<Digest>)
    requires n <= |receipts|
  {
    && (forall id :: id in ids <==> IdBefore(receipts, n, id))
    && (forall key :: key in keys <==> KeyBefore(c, reg, policy, ckpt, receipts, n, key))
  }

  lemma SeenNothing(c: Crypto, reg: Registry, policy: WitnessPolicy, ckpt: Checkpoint, receipts: seq<Receipt>)
    ensures SeenSoFar(c, reg, policy, ckpt, receipts, 0, {}, {})
  {}

  lemma SeenOneMore(c: Crypto, reg: Registry, policy: WitnessPolicy, ckpt: Checkpoint, receipts: seq<Receipt>, n: nat)
    requires n < |receipts|
    ensures forall id :: IdBefore(receipts, n + 1, id) <==> IdBefore(receipts, n, id) || id == receipts[n].witnessId
    ensures forall key :: KeyBefore(c, reg, policy, ckpt, receipts, n + 1, key) <==>
      KeyBefore(c, reg, policy, ckpt, receipts, n, key) || BringsKey(c, reg, policy, ckpt, receipts[n], key)
  {
    hide BringsKey;
    forall id ensures IdBefore(receipts, n + 1, id) <==> IdBefore(receipts, n, id) || id == receipts[n].witnessId {
      if id == receipts[n].witnessId {
        assert 0 <= n < n + 1 && receipts[n].witnessId == id;
      }
    }
  }

  /** A witness that came before brought its key before. */
  lemma SameWitnessSameKey(c: Crypto, reg: Registry, policy: WitnessPolicy, ckpt: Checkpoint, receipts: seq<Receipt>,
                           n: nat, key: Digest)
    requires n < |receipts| && IdBefore(receipts, n, receipts[n].witnessId)
    requires BringsKey(c, reg, policy, ckpt, receipts[n], key)
    ensures KeyBefore(c, reg, policy, ckpt, receipts, n, key)
  {
    var j :| 0 <= j < n && receipts[j].witnessId == receipts[n].witnessId;
    assert BringsKey(c, reg, policy, ckpt, receipts[j], key);
  }

  /** Why one receipt is not counted; `Raised` when the receipt cannot even be serialised. */
  method ReceiptReason(c: Crypto, reg: Registry, policy: WitnessPolicy, ckpt: Checkpoint, receipts: seq<Receipt>,
                       i: nat, seenIds: set<Text>, seenKeys: set<Digest>)
    returns (reason: Outcome<Option<Reason>>, ids: set<Text>, keys: set<Digest>)
    requires i < |receipts| && SeenSoFar(c, reg, policy, ckpt, receipts, i, seenIds, seenKeys)
    ensures reason.Ok? ==> reason.value == FlawAt(c, reg, policy, ckpt, receipts, i)
    ensures reason.Ok? ==> SeenSoFar(c, reg, policy, ckpt, receipts, i + 1, ids, keys)
    ensures reason.Raised? <==> ReceiptRaises(c, reg, policy, ckpt, receipts, i)
  {
    hide FieldsMatch, ReceiptFits, ReceiptBody, VerifySignature, IdBefore, KeyBefore, CanonicalStreamId;
    var r := receipts[i];
    SeenOneMore(c, reg, policy, ckpt, receipts, i);
    ids, keys := seenIds, seenKeys;
    if r.witnessId in ids {
      forall key | BringsKey(c, reg, policy, ckpt, r, key) ensures key in keys {
        SameWitnessSameKey(c, reg, policy, ckpt, receipts, i, key);
      }
      return Ok(Some(WITNESS_DUPLICATE_ID)), ids, keys;
    }
    ids := ids + {r.witnessId};
    var auth := WitnessFor(reg, r.witnessId);
    if auth.None? || r.witnessId !in policy.witnessIds { return Ok(Some(WITNESS_UNTRUSTED)), ids, keys; }
    var streamId := CanonicalStreamId(ckpt.clientId, ckpt.topic);
    if !auth.value.Authorizes(streamId, ckpt.epoch) { return Ok(Some(WITNESS_NOT_AUTHORIZED)), ids, keys; }
    if auth.value.KeyId(c) in keys { return Ok(Some(WITNESS_DUPLICATE_KEY)), ids, keys; }
    keys := keys + {auth.value.KeyId(c)};
    if r.publicKey != [] && r.publicKey != auth.value.publicKey {
      return Ok(Some(WITNESS_KEY_SUBSTITUTION)), ids, keys;
    }
    if !FieldsMatch(r, ckpt) { return Ok(Some(WITNESS_FIELDS_MISMATCH)), ids, keys; }
    var body := SerializeReceipt(r);
    if body.Raised? { return Raised, ids, keys; }
    if !VerifySignature(c, auth.value.publicKey, body.value, r.signature, auth.value.scheme) {
      return Ok(Some(WITNESS_SIGNATURE_INVALID)), ids, keys;
    }
    reason := Ok(None);
  }

  /** All that is wrong with an item's receipts. */
  function ReceiptReasons(c: Crypto, reg: Registry, ev: Evidence, minReceipts: Option<int>): (reasons: seq<Reason>)
    ensures NoTailReason(reasons)
  {
    var policy, receipts := PolicyFor(reg, StreamOf(ev)), OrEmpty(ev.receipts);
    if policy.None? then [WITNESS_POLICY_MISSING]
    else
      var flaws := Flaws(c, reg, policy.value, ev.checkpoint, receipts, |receipts|);
      flaws + if |receipts| - |flaws| < Required(policy.value, minReceipts) then [WITNESS_BELOW_QUORUM] else []
  }

  /** Nothing is wrong exactly when the receipts are accepted. */
  lemma NothingWrongIsAccepted(c: Crypto, reg: Registry, ev: Evidence, minReceipts: Option<int>)
    ensures ReceiptReasons(c, reg, ev, minReceipts) == [] <==> ReceiptsAccepted(c, reg, ev, minReceipts)
  {
    hide AllVouched, Flaws;
    var policy, receipts := PolicyFor(reg, StreamOf(ev)), OrEmpty(ev.receipts);
    if policy.Some? {
      FlawlessIsVouched(c, reg, policy.value, ev.checkpoint, receipts, |receipts|);
      assert receipts[..|receipts|] == receipts;
    }
  }

  lemma UnfitIsNotAccepted(c: Crypto, reg: Registry, ev: Evidence, minReceipts: Option<int>, i: nat)
    requires i < |OrEmpty(ev.receipts)| && !ReceiptFits(OrEmpty(ev.receipts)[i])
    ensures !ReceiptsAccepted(c, reg, ev, minReceipts)
  {
    hide ReceiptFits;
    var r := OrEmpty(ev.receipts)[i];
    assert r in OrEmpty(ev.receipts);
  }

  /** The answer on an item's receipts. */
  function WitnessVerdict(c: Crypto, registry: Option<Registry>, ev: Evidence, minReceipts: Option<int>)
    : WitnessVerification
  {
    var receipts, minimum := OrEmpty(ev.receipts), if minReceipts.Some? then minReceipts.value else 0;
    if registry.None? then WitnessVerification(false, 0, |receipts|, minimum, [REGISTRY_REQUIRED])
    else
      var policy := PolicyFor(registry.value, StreamOf(ev));
      if policy.None? then WitnessVerification(false, 0, |receipts|, minimum, [WITNESS_POLICY_MISSING])
      else
        var flaws := Flaws(c, registry.value, policy.value, ev.checkpoint, receipts, |receipts|);
        var reasons := ReceiptReasons(c, registry.value, ev, minReceipts);
        WitnessVerification(reasons == [], |receipts| - |flaws|, |receipts|, Required(policy.value, minReceipts),
                            Unique(reasons))
  }

  predicate ReceiptsRaise(c: Crypto, reg: Registry, ev: Evidence) {
    var policy, receipts := PolicyFor(reg, StreamOf(ev)), OrEmpty(ev.receipts);
    policy.Some? && exists i :: 0 <= i < |receipts| && ReceiptRaises(c, reg, policy.value, ev.checkpoint, receipts, i)
  }

  lemma RaisingIsUnfit(c: Crypto, reg: Registry, ev: Evidence)
    ensures ReceiptsRaise(c, reg, ev) ==>
      exists i :: 0 <= i < |OrEmpty(ev.receipts)| && !ReceiptFits(OrEmpty(ev.receipts)[i])
  {
    hide ReceiptFits, FieldsMatch, Voucher, IdBefore, KeyBefore;
  }

  /** `_verify_witness_receipts_detailed`. */
  method VerifyReceipts(c: Crypto, registry: Option<Registry>, ev: Evidence, minReceipts: Option<int>)
    returns (r: Outcome<WitnessVerification>)
    ensures r == if registry.Some? && ReceiptsRaise(c, registry.value, ev) then Raised
                 else Ok(WitnessVerdict(c, registry, ev, minReceipts))
    ensures r.Ok? && r.value.accepted <==> registry.Some? && ReceiptsAccepted(c, registry.value, ev, minReceipts)
  {
    hide FlawAt, SeenSoFar, ReceiptFits, ReceiptsAccepted, Unique, ReceiptRaises;
    var receipts := OrEmpty(ev.receipts);
    var minimum := if minReceipts.Some? then minReceipts.value else 0;
    if registry.None? { return Ok(WitnessVerification(false, 0, |receipts|, minimum, [REGISTRY_REQUIRED])); }
    var reg := registry.value;
    NothingWrongIsAccepted(c, reg, ev, minReceipts);
    var policyEntry := PolicyFor(reg, StreamOf(ev));
    if policyEntry.None? {
      return Ok(WitnessVerification(false, 0, |receipts|, minimum, [WITNESS_POLICY_MISSING]));
    }
    var policy := policyEntry.value;
    var required := Max(policy.quorum, minimum);
    var reasons: seq<Reason> := [];
    var seenIds: set<Text>, seenKeys: set<Digest>, valid: nat := {}, {}, 0;
    SeenNothing(c, reg, policy, ev.checkpoint, receipts);
    for i := 0 to |receipts|
      invariant reasons == Flaws(c, reg, policy, ev.checkpoint, receipts, i)
      invariant valid == i - |reasons|
      invariant SeenSoFar(c, reg, policy, ev.checkpoint, receipts, i, seenIds, seenKeys)
      invariant forall k :: 0 <= k < i ==> !ReceiptRaises(c, reg, policy, ev.checkpoint, receipts, k)
    {
      var reason;
      reason, seenIds, seenKeys := ReceiptReason(c, reg, policy, ev.checkpoint, receipts, i, seenIds, seenKeys);
      if reason.Raised? {
        RaisingReceipt(c, reg, policy, ev.checkpoint, receipts, i);
        UnfitIsNotAccepted(c, reg, ev, minReceipts, i);
        return Raised;
      }
      if reason.value.Some? {
        reasons := reasons + [reason.value.value];
      } else {
        valid := valid + 1;
      }
    }
    assert reasons + [] == reasons;
    if valid < required {
      reasons := reasons + [WITNESS_BELOW_QUORUM];
    }
    r := Ok(WitnessVerification(valid >= required && reasons == [], valid, |receipts|, required, Unique(reasons)));
  }

  lemma RaisingReceipt(c: Crypto, reg: Registry, policy: WitnessPolicy, ckpt: Checkpoint, receipts: seq<Receipt>,
                       i: nat)
    requires i < |receipts| && ReceiptRaises(c, reg, policy, ckpt, receipts, i)
    ensures !ReceiptFits(receipts[i])
  {
    hide ReceiptFits, FieldsMatch, Voucher, IdBefore, KeyBefore;
  }

  // ---- The native loop ----

  /** `WitnessPolicy` of the benchmark: threshold, optional freshness window, optional latest anchor, clock. */
  datatype NativePolicy = NativePolicy(minReceipts: nat, window: Option<real>, latestAnchor: Option<Bytes>, now: real)

  type NativeRegistry = map<Text, Bytes>

  /** The receipt's timestamp lies in the past and inside the window. */
  predicate FreshAt(policy: NativePolicy, clock: Double -> real, r: Receipt) {
    var age := policy.now - clock(r.ts);
    age >= 0.0 && (policy.window.None? || age <= policy.window.value)
  }

  /** One receipt is good by itself in the native verifier. */
  predicate NativeVouched(c: Crypto, scheme: Scheme, policy: NativePolicy, clock: Double -> real,
                          reg: NativeRegistry, ckpt: Checkpoint, r: Receipt) {
    && r.witnessId in reg && r.publicKey == reg[r.witnessId]
    && FieldsMatch(r, ckpt)
    && FreshAt(policy, clock, r)
    && ReceiptFits(r) && c.verify(reg[r.witnessId], ReceiptBody(r), r.signature, scheme)
  }

  /** The registry keys behind the good receipts. */
  ghost function NativeKeys(c: Crypto, scheme: Scheme, policy: NativePolicy, clock: Double -> real,
                            reg: NativeRegistry, ckpt: Checkpoint, receipts: set<Receipt>): set<Bytes> {
    set r | r in receipts && NativeVouched(c, scheme, policy, clock, reg, ckpt, r) :: reg[r.witnessId]
  }

  ghost predicate NativeAccepts(c: Crypto, scheme: Scheme, policy: NativePolicy, clock: Double -> real,
                                reg: NativeRegistry, ckpt: Checkpoint, receipts: set<Receipt>) {
    && (policy.latestAnchor.None? || ckpt.endAnchor == policy.latestAnchor.value)
    && |NativeKeys(c, scheme, policy, clock, reg, ckpt, receipts)| >= policy.minReceipts
  }

  /** Receipt i is a registered witness's, its key does not count yet, and its body cannot be written. */
  ghost predicate NativeRaisesAt(c: Crypto, scheme: Scheme, policy: NativePolicy, clock: Double -> real,
                                 reg: NativeRegistry, ckpt: Checkpoint, receipts: seq<Receipt>, i: nat)
    requires i < |receipts|
  {
    var rc := receipts[i];
    && rc.witnessId in reg && rc.publicKey == reg[rc.witnessId] && !ReceiptFits(rc)
    && reg[rc.witnessId] !in NativeKeys(c, scheme, policy, clock, reg, ckpt, Elements(receipts[..i]))
  }

  ghost predicate NativeRaises(c: Crypto, scheme: Scheme, policy: NativePolicy, clock: Double -> real,
                               reg: NativeRegistry, ckpt: Checkpoint, receipts: seq<Receipt>) {
    exists i :: 0 <= i < |receipts| && NativeRaisesAt(c, scheme, policy, clock, reg, ckpt, receipts, i)
  }

  /** Whether one receipt adds a key; a body that cannot be written raises. */
  method NativeCounts(c: Crypto, scheme: Scheme, policy: NativePolicy, clock: Double -> real, reg: NativeRegistry,
                      ckpt: Checkpoint, rc: Receipt, countedIds: set<Text>, countedKeys: set<Bytes>)
    returns (r: Outcome<bool>)
    requires forall id :: id in countedIds ==> id in reg && reg[id] in countedKeys
    ensures r.Ok? ==>
      (r.value <==> NativeVouched(c, scheme, policy, clock, reg, ckpt, rc) && reg[rc.witnessId] !in countedKeys)
    ensures r.Raised? <==>
      (rc.witnessId in reg && rc.publicKey == reg[rc.witnessId] && !ReceiptFits(rc)
       && reg[rc.witnessId] !in countedKeys)
  {
    hide FieldsMatch, FreshAt, ReceiptFits, ReceiptBody;
    if rc.witnessId !in reg || rc.publicKey != reg[rc.witnessId] { return Ok(false); }
    var trusted := reg[rc.witnessId];
    if rc.witnessId in countedIds || trusted in countedKeys { return Ok(false); }
    var body := SerializeReceipt(rc);
    if body.Raised? { return Raised; }
    r := Ok(FieldsMatch(rc, ckpt) && FreshAt(policy, clock, rc)
            && c.verify(trusted, body.value, rc.signature, scheme));
  }

  /** The counting loop: the result is the number of registry keys behind good receipts. */
  method NativeCount(c: Crypto, scheme: Scheme, policy: NativePolicy, clock: Double -> real,
                     reg: NativeRegistry, ckpt: Checkpoint, receipts: seq<Receipt>)
    returns (r: Outcome<nat>)
    ensures r == if NativeRaises(c, scheme, policy, clock, reg, ckpt, receipts) then Raised
                 else Ok(|NativeKeys(c, scheme, policy, clock, reg, ckpt, Elements(receipts))|)
  {
    hide NativeKeys, NativeVouched, ReceiptFits, Elements;
    NoNativeKeys(c, scheme, policy, clock, reg, ckpt);
    var countedIds: set<Text>, countedKeys: set<Bytes>, valid: nat := {}, {}, 0;
    for i := 0 to |receipts|
      invariant valid == |countedKeys|
      invariant countedKeys == NativeKeys(c, scheme, policy, clock, reg, ckpt, Elements(receipts[..i]))
      invariant forall id :: id in countedIds ==> id in reg && reg[id] in countedKeys
      invariant forall k :: 0 <= k < i ==> !NativeRaisesAt(c, scheme, policy, clock, reg, ckpt, receipts, k)
    {
      OneMoreKey(c, scheme, policy, clock, reg, ckpt, receipts[..i], receipts[i]);
      assert receipts[..i + 1] == receipts[..i] + [receipts[i]];
      var counts := NativeCounts(c, scheme, policy, clock, reg, ckpt, receipts[i], countedIds, countedKeys);
      if counts.Raised? {
        assert NativeRaisesAt(c, scheme, policy, clock, reg, ckpt, receipts, i);
        return Raised;
      }
      if counts.value {
        NativeVouchedIsRegistered(c, scheme, policy, clock, reg, ckpt, receipts[i]);
        valid := valid + 1;
        countedIds := countedIds + {receipts[i].witnessId};
        countedKeys := countedKeys + {reg[receipts[i].witnessId]};
      }
    }
    assert receipts[..|receipts|] == receipts;
    r := Ok(valid);
  }

  // ---- What native acceptance means ----

  /** The receipt is dated before now and, if there is a window, not before it. */
  predicate DatedInWindow(policy: NativePolicy, time: real) {
    time <= policy.now && (policy.window.Some? ==> policy.now - policy.window.value <= time)
  }

  /** A registered witness's receipt about this very checkpoint, under its own key, dated in the window. */
  predicate NativeReceipt(c: Crypto, scheme: Scheme, policy: NativePolicy, clock: Double -> real, reg: NativeRegistry,
                          ckpt: Checkpoint, r: Receipt) {
    && r.witnessId in reg && r.publicKey == reg[r.witnessId]
    && r.streamId == CanonicalStreamId(ckpt.clientId, ckpt.topic) && r.epoch == ckpt.epoch
    && r.seqStart == ckpt.seqStart && r.seqEnd == ckpt.seqEnd
    && r.prevAnchor == ckpt.prevAnchor && r.endAnchor == ckpt.endAnchor
    && DatedInWindow(policy, clock(r.ts))
    && ReceiptFits(r) && c.verify(r.publicKey, ReceiptBody(r), r.signature, scheme)
  }

  /** Enough such receipts under pairwise different keys. */
  ghost predicate NativeQuorum(c: Crypto, scheme: Scheme, policy: NativePolicy, clock: Double -> real,
                               reg: NativeRegistry, ckpt: Checkpoint, receipts: set<Receipt>, rs: seq<Receipt>) {
    && |rs| >= policy.minReceipts
    && (forall i :: 0 <= i < |rs| ==>
          rs[i] in receipts && NativeReceipt(c, scheme, policy, clock, reg, ckpt, rs[i]))
    && (forall i, j :: 0 <= i < j < |rs| ==> rs[i].publicKey != rs[j].publicKey)
  }

  lemma NativeVouchedExactly(c: Crypto, scheme: Scheme, policy: NativePolicy, clock: Double -> real,
                             reg: NativeRegistry, ckpt: Checkpoint, r: Receipt)
    ensures NativeVouched(c, scheme, policy, clock, reg, ckpt, r)
      <==> NativeReceipt(c, scheme, policy, clock, reg, ckpt, r)
  {
    hide ReceiptFits, ReceiptBody, CanonicalStreamId;
  }

  /** Receipts of the accepted keys, one for each. */
  lemma {:induction false} OnePerKey(receipts: set<Receipt>, keys: set<Bytes>) returns (rs: seq<Receipt>)
    requires forall k :: k in keys ==> exists r :: r in receipts && r.publicKey == k
    ensures |rs| == |keys| && (forall i :: 0 <= i < |rs| ==> rs[i] in receipts && rs[i].publicKey in keys)
    ensures forall i, j :: 0 <= i < j < |rs| ==> rs[i].publicKey != rs[j].publicKey
    decreases |keys|
  {
    if keys == {} {
      rs := [];
    } else {
      var k :| k in keys;
      var rest := OnePerKey(receipts, keys - {k});
      var r :| r in receipts && r.publicKey == k;
      rs := [r] + rest;
    }
  }

  /** Native acceptance is exactly the pinned anchor, if any, and a quorum of receipts dated in the window. */
  lemma NativeAcceptsExactly(c: Crypto, scheme: Scheme, policy: NativePolicy, clock: Double -> real,
                             reg: NativeRegistry, ckpt: Checkpoint, receipts: set<Receipt>)
    ensures NativeAccepts(c, scheme, policy, clock, reg, ckpt, receipts) <==>
      (policy.latestAnchor.Some? ==> ckpt.endAnchor == policy.latestAnchor.value)
      && exists rs :: NativeQuorum(c, scheme, policy, clock, reg, ckpt, receipts, rs)
  {
    hide NativeVouched, NativeReceipt;
    var keys := NativeKeys(c, scheme, policy, clock, reg, ckpt, receipts);
    forall r ensures NativeVouched(c, scheme, policy, clock, reg, ckpt, r)
        <==> NativeReceipt(c, scheme, policy, clock, reg, ckpt, r) {
      NativeVouchedExactly(c, scheme, policy, clock, reg, ckpt, r);
    }
    if |keys| >= policy.minReceipts {
      var rs := KeysGiveQuorum(c, scheme, policy, clock, reg, ckpt, receipts);
    }
    forall rs | NativeQuorum(c, scheme, policy, clock, reg, ckpt, receipts, rs)
      ensures |keys| >= policy.minReceipts
    {
      QuorumGivesKeys(c, scheme, policy, clock, reg, ckpt, receipts, rs);
    }
  }

  lemma KeysGiveQuorum(c: Crypto, scheme: Scheme, policy: NativePolicy, clock: Double -> real, reg: NativeRegistry,
                       ckpt: Checkpoint, receipts: set<Receipt>) returns (rs: seq<Receipt>)
    requires |NativeKeys(c, scheme, policy, clock, reg, ckpt, receipts)| >= policy.minReceipts
    ensures NativeQuorum(c, scheme, policy, clock, reg, ckpt, receipts, rs)
  {
    hide NativeVouched, NativeReceipt;
    var good := set r | r in receipts && NativeVouched(c, scheme, policy, clock, reg, ckpt, r);
    var keys := NativeKeys(c, scheme, policy, clock, reg, ckpt, receipts);
    forall r | r in good
      ensures NativeReceipt(c, scheme, policy, clock, reg, ckpt, r) && r.witnessId in reg
        && r.publicKey == reg[r.witnessId]
    {
      NativeVouchedExactly(c, scheme, policy, clock, reg, ckpt, r);
      NativeReceiptKey(c, scheme, policy, clock, reg, ckpt, r);
    }
    forall k | k in keys ensures exists r :: r in good && r.publicKey == k {
      var r :| r in receipts && NativeVouched(c, scheme, policy, clock, reg, ckpt, r) && reg[r.witnessId] == k;
      assert r in good;
    }
    rs := OnePerKey(good, keys);
  }

  lemma NativeReceiptKey(c: Crypto, scheme: Scheme, policy: NativePolicy, clock: Double -> real, reg: NativeRegistry,
                         ckpt: Checkpoint, r: Receipt)
    requires NativeReceipt(c, scheme, policy, clock, reg, ckpt, r)
    ensures r.witnessId in reg && r.publicKey == reg[r.witnessId]
  {}

  lemma QuorumGivesKeys(c: Crypto, scheme: Scheme, policy: NativePolicy, clock: Double -> real, reg: NativeRegistry,
                        ckpt: Checkpoint, receipts: set<Receipt>, rs: seq<Receipt>)
    requires NativeQuorum(c, scheme, policy, clock, reg, ckpt, receipts, rs)
    ensures |NativeKeys(c, scheme, policy, clock, reg, ckpt, receipts)| >= policy.minReceipts
  {
    hide NativeVouched, NativeReceipt;
    var keys := NativeKeys(c, scheme, policy, clock, reg, ckpt, receipts);
    var shown := seq(|rs|, i requires 0 <= i < |rs| => rs[i].publicKey);
    forall i | 0 <= i < |rs| ensures shown[i] in keys {
      NativeReceiptKey(c, scheme, policy, clock, reg, ckpt, rs[i]);
      NativeVouchedExactly(c, scheme, policy, clock, reg, ckpt, rs[i]);
    }
    DistinctCardinality(shown);
    SubsetCardinality(Elements(shown), keys);
  }

  lemma FirstOfQuorum(c: Crypto, scheme: Scheme, policy: NativePolicy, clock: Double -> real, reg: NativeRegistry,
                      ckpt: Checkpoint, receipts: set<Receipt>, rs: seq<Receipt>) returns (r: Receipt)
    requires NativeQuorum(c, scheme, policy, clock, reg, ckpt, receipts, rs) && policy.minReceipts >= 1
    ensures r in receipts && clock(r.ts) <= policy.now
    ensures policy.window.Some? ==> policy.now - policy.window.value <= clock(r.ts)
  {
    r := rs[0];
    assert NativeReceipt(c, scheme, policy, clock, reg, ckpt, rs[0]);
  }

  /** With a quorum asked for, receipts that are all older than the window are never enough. */
  lemma StaleReceiptsAreRefused(c: Crypto, scheme: Scheme, policy: NativePolicy, clock: Double -> real,
                                reg: NativeRegistry, ckpt: Checkpoint, receipts: set<Receipt>)
    requires policy.minReceipts >= 1 && policy.window.Some?
    requires forall r :: r in receipts ==> clock(r.ts) < policy.now - policy.window.value
    ensures !NativeAccepts(c, scheme, policy, clock, reg, ckpt, receipts)
  {
    hide NativeAccepts, NativeQuorum;
    NativeAcceptsExactly(c, scheme, policy, clock, reg, ckpt, receipts);
    if rs :| NativeQuorum(c, scheme, policy, clock, reg, ckpt, receipts, rs) {
      var r := FirstOfQuorum(c, scheme, policy, clock, reg, ckpt, receipts, rs);
    }
  }

  /** A wider window, or none, keeps acceptance. */
  lemma WideningKeepsAcceptance(c: Crypto, scheme: Scheme, policy: NativePolicy, wider: NativePolicy,
                                clock: Double -> real, reg: NativeRegistry, ckpt: Checkpoint, receipts: set<Receipt>)
    requires NativeAccepts(c, scheme, policy, clock, reg, ckpt, receipts)
    requires wider == policy.(window := wider.window)
    requires wider.window.Some? ==> policy.window.Some? && policy.window.value <= wider.window.value
    ensures NativeAccepts(c, scheme, wider, clock, reg, ckpt, receipts)
  {
    hide NativeAccepts, ReceiptFits, ReceiptBody, CanonicalStreamId;
    NativeAcceptsExactly(c, scheme, policy, clock, reg, ckpt, receipts);
    NativeAcceptsExactly(c, scheme, wider, clock, reg, ckpt, receipts);
    var rs :| NativeQuorum(c, scheme, policy, clock, reg, ckpt, receipts, rs);
    forall i | 0 <= i < |rs| ensures NativeReceipt(c, scheme, wider, clock, reg, ckpt, rs[i]) {
      assert NativeReceipt(c, scheme, policy, clock, reg, ckpt, rs[i]);
    }
    assert NativeQuorum(c, scheme, wider, clock, reg, ckpt, receipts, rs);
  }

  /**
   * `verify_witness_receipts` of the benchmark. It decides on a set: the answer depends on which receipts are
   * presented, not on their order or repetition.
   */
  method NativeVerifyReceipts(c: Crypto, scheme: Scheme, policy: NativePolicy, clock: Double -> real,
                              reg: NativeRegistry, ckpt: Checkpoint, receipts: seq<Receipt>)
    returns (r: Outcome<bool>)
    ensures r.Ok? ==> r.value == NativeAccepts(c, scheme, policy, clock, reg, ckpt, Elements(receipts))
    ensures r == Ok(true) ==>
      exists rs :: NativeQuorum(c, scheme, policy, clock, reg, ckpt, Elements(receipts), rs)
    ensures r.Raised? <==>
      ((policy.latestAnchor.None? || ckpt.endAnchor == policy.latestAnchor.value)
       && NativeRaises(c, scheme, policy, clock, reg, ckpt, receipts))
  {
    hide NativeRaises, NativeKeys;
    if policy.latestAnchor.Some? && ckpt.endAnchor != policy.latestAnchor.value {
      return Ok(false);
    }
    var valid := NativeCount(c, scheme, policy, clock, reg, ckpt, receipts);
    if valid.Raised? { return Raised; }
    NativeAcceptsExactly(c, scheme, policy, clock, reg, ckpt, Elements(receipts));
    r := Ok(valid.value >= policy.minReceipts);
  }

  lemma NativeVouchedIsRegistered(c: Crypto, scheme: Scheme, policy: NativePolicy, clock: Double -> real,
                                  reg: NativeRegistry, ckpt: Checkpoint, r: Receipt)
    ensures NativeVouched(c, scheme, policy, clock, reg, ckpt, r) ==> r.witnessId in reg
  {}

  lemma NoNativeKeys(c: Crypto, scheme: Scheme, policy: NativePolicy, clock: Double -> real,
                     reg: NativeRegistry, ckpt: Checkpoint)
    ensures NativeKeys(c, scheme, policy, clock, reg, ckpt, Elements([])) == {}
  {}

  lemma OneMoreKey(c: Crypto, scheme: Scheme, policy: NativePolicy, clock: Double -> real,
                   reg: NativeRegistry, ckpt: Checkpoint, rs: seq<Receipt>, r: Receipt)
    ensures NativeKeys(c, scheme, policy, clock, reg, ckpt, Elements(rs + [r]))
      == NativeKeys(c, scheme, policy, clock, reg, ckpt, Elements(rs))
         + if NativeVouched(c, scheme, policy, clock, reg, ckpt, r) then {reg[r.witnessId]} else {}
  {
    hide FieldsMatch, FreshAt, ReceiptFits, ReceiptBody;
    assert Elements(rs + [r]) == Elements(rs) + {r};
  }

  // ---- What the two loops have in common ----

  /** An entry of the registry vouches for the receipt: named by the policy, authorised for stream and epoch. */
  predicate VouchedBy(c: Crypto, policy: WitnessPolicy, ckpt: Checkpoint, r: Receipt, w: WitnessAuth) {
    var stream := CanonicalStreamId(ckpt.clientId, ckpt.topic);
    && w.witnessId == r.witnessId && r.witnessId in policy.witnessIds
    && stream in w.streams && w.epochStart <= ckpt.epoch && (w.epochEnd.Some? ==> ckpt.epoch <= w.epochEnd.value)
    && (r.publicKey == [] || r.publicKey == w.publicKey)
    && r.streamId == stream && r.epoch == ckpt.epoch && r.seqStart == ckpt.seqStart && r.seqEnd == ckpt.seqEnd
    && r.prevAnchor == ckpt.prevAnchor && r.endAnchor == ckpt.endAnchor
    && ReceiptFits(r) && w.publicKey != [] && r.signature != []
    && c.verify(w.publicKey, ReceiptBody(r), r.signature, w.scheme)
  }

  /** In an unambiguous registry a receipt is good exactly when an entry vouches for it. */
  lemma VouchedExactly(c: Crypto, reg: Registry, policy: WitnessPolicy, ckpt: Checkpoint, r: Receipt)
    requires WitnessIdsUnique(reg.witnesses)
    ensures Vouched(c, reg, policy, ckpt, r) <==> exists w :: w in reg.witnesses && VouchedBy(c, policy, ckpt, r, w)
  {
    hide ReceiptFits, ReceiptBody, CanonicalStreamId;
    forall w | w in reg.witnesses && VouchedBy(c, policy, ckpt, r, w) ensures Vouched(c, reg, policy, ckpt, r) {
      WitnessLookup(reg.witnesses, w);
    }
    if Vouched(c, reg, policy, ckpt, r) {
      assert VouchedBy(c, policy, ckpt, r, WitnessFor(reg, r.witnessId).value);
    }
  }

  /** Acceptance exhibits a quorum: as many pairwise different witnesses and keys as the policy and caller ask. */
  lemma AcceptedQuorum(c: Crypto, reg: Registry, ev: Evidence, minReceipts: Option<int>)
    requires ReceiptsAccepted(c, reg, ev, minReceipts)
    ensures var receipts := OrEmpty(ev.receipts);
      && |Elements(Ids(receipts))| == |receipts|
      && |Elements(Keys(reg, receipts))| == |receipts|
      && |receipts| >= PolicyFor(reg, StreamOf(ev)).value.quorum
      && (minReceipts.Some? ==> |receipts| >= minReceipts.value)
  {
    hide Vouched, KeyOf;
    var receipts := OrEmpty(ev.receipts);
    DistinctCardinality(Ids(receipts));
    var keys := Keys(reg, receipts);
    forall i, j | 0 <= i < j < |keys| ensures keys[i] != keys[j] {
      assert KeyIds(c, reg, receipts)[i] != KeyIds(c, reg, receipts)[j];
    }
    DistinctCardinality(keys);
  }

  /**
   * What the offline auditor accepts, the native verifier accepts too: for carried keys, timestamps in the past and
   * inside the window, if there is one, and no pinned anchor, when both registries know the same keys.
   */
  lemma AcceptedNatively(c: Crypto, reg: Registry, ev: Evidence, minReceipts: Option<int>,
                         scheme: Scheme, policy: NativePolicy, clock: Double -> real, native: NativeRegistry)
    requires ReceiptsAccepted(c, reg, ev, minReceipts)
    requires policy.latestAnchor.None?
    requires policy.window.Some? ==>
      forall r :: r in OrEmpty(ev.receipts) ==> policy.now - policy.window.value <= clock(r.ts)
    requires policy.minReceipts <= Required(PolicyFor(reg, StreamOf(ev)).value, minReceipts)
    requires forall r :: r in OrEmpty(ev.receipts) ==> SameTrust(reg, scheme, policy, clock, native, r)
    ensures NativeAccepts(c, scheme, policy, clock, native, ev.checkpoint, Elements(OrEmpty(ev.receipts)))
  {
    AcceptedQuorum(c, reg, ev, minReceipts);
    var receipts, ckpt := OrEmpty(ev.receipts), ev.checkpoint;
    forall r | r in receipts ensures NativeVouched(c, scheme, policy, clock, native, ckpt, r) {
      VouchedNatively(c, reg, PolicyFor(reg, StreamOf(ev)).value, ckpt, r, scheme, policy, clock, native);
    }
    NativeKeysAreKeys(c, scheme, policy, clock, native, ckpt, reg, receipts);
  }

  /** The native side is configured with this witness's key and scheme, sees the key carried and the time past. */
  predicate SameTrust(reg: Registry, scheme: Scheme, policy: NativePolicy, clock: Double -> real,
                      native: NativeRegistry, r: Receipt) {
    && r.publicKey != [] && clock(r.ts) <= policy.now
    && r.witnessId in native && native[r.witnessId] == KeyOf(reg, r)
    && WitnessFor(reg, r.witnessId).Some? && WitnessFor(reg, r.witnessId).value.scheme == scheme
  }

  lemma VouchedNatively(c: Crypto, reg: Registry, p: WitnessPolicy, ckpt: Checkpoint, r: Receipt,
                        scheme: Scheme, policy: NativePolicy, clock: Double -> real, native: NativeRegistry)
    requires Vouched(c, reg, p, ckpt, r)
    requires policy.window.Some? ==> policy.now - policy.window.value <= clock(r.ts)
    requires SameTrust(reg, scheme, policy, clock, native, r)
    ensures NativeVouched(c, scheme, policy, clock, native, ckpt, r)
  {
    hide FieldsMatch, ReceiptFits, ReceiptBody;
  }

  lemma NativeKeysAreKeys(c: Crypto, scheme: Scheme, policy: NativePolicy, clock: Double -> real,
                          native: NativeRegistry, ckpt: Checkpoint, reg: Registry, receipts: seq<Receipt>)
    requires forall r :: r in receipts ==>
      NativeVouched(c, scheme, policy, clock, native, ckpt, r) && native[r.witnessId] == KeyOf(reg, r)
    ensures NativeKeys(c, scheme, policy, clock, native, ckpt, Elements(receipts)) == Elements(Keys(reg, receipts))
  {
    hide KeyOf, FieldsMatch, FreshAt, ReceiptFits, ReceiptBody;
    var nk, keys := NativeKeys(c, scheme, policy, clock, native, ckpt, Elements(receipts)), Keys(reg, receipts);
    forall k | k in keys ensures k in nk {
      var i :| 0 <= i < |keys| && keys[i] == k;
      assert receipts[i] in Elements(receipts);
      assert native[receipts[i].witnessId] == k;
    }
    forall k | k in nk ensures k in keys {
      var r :| r in receipts && native[r.witnessId] == k;
      var i :| 0 <= i < |receipts| && receipts[i] == r;
      assert keys[i] == k;
    }
  }
}
