/** The external trust registry: validation, lookups and combination (trusted_registry.py). */
module Registry {
  import opened Prelude
  import opened Bytes
  import opened Text
  import opened Crypto

  datatype PublisherAuth = PublisherAuth(
    clientId: Text, topic: Text, epochStart: int, epochEnd: Option<int>, publicKey: Bytes, scheme: Scheme)
  {
    /** `__post_init__`. */
    predicate WellFormed() {
      && clientId != [] && topic != [] && scheme != OtherScheme("") && publicKey != []
      && 0 <= epochStart && (epochEnd.Some? ==> epochStart <= epochEnd.value)
    }

    predicate AuthorizesEpoch(epoch: int) {
      epoch >= epochStart && (epochEnd.None? || epoch <= epochEnd.value)
    }

    predicate Authorizes(client: Text, stream: Text, epoch: int) {
      clientId == client && topic == stream && AuthorizesEpoch(epoch)
    }

    /** `key_id` is always SHA-256 of the key. */
    function KeyId(c: Crypto): Digest { c.hash(publicKey) }
  }

  datatype WitnessAuth = WitnessAuth(
    witnessId: Text, publicKey: Bytes, scheme: Scheme, streams: seq<Text>, epochStart: int, epochEnd: Option<int>)
  {
    ghost predicate WellFormed() {
      && witnessId != [] && scheme != OtherScheme("") && publicKey != []
      && streams != [] && [] !in streams && Distinct(streams)
      && 0 <= epochStart && (epochEnd.Some? ==> epochStart <= epochEnd.value)
    }

    predicate Authorizes(streamId: Text, epoch: int) {
      streamId in streams && epoch >= epochStart && (epochEnd.None? || epoch <= epochEnd.value)
    }

    function KeyId(c: Crypto): Digest { c.hash(publicKey) }
  }

  datatype WitnessPolicy = WitnessPolicy(streamId: Text, quorum: int, witnessIds: seq<Text>) {
    ghost predicate WellFormed() {
      streamId != [] && 0 < quorum <= |witnessIds| && Distinct(witnessIds)
    }
  }

  datatype Registry = Registry(
    publishers: seq<PublisherAuth>, witnesses: seq<WitnessAuth>, policies: seq<WitnessPolicy>)

  /** Entries are checked when they are created. */
  ghost predicate EntriesWellFormed(r: Registry) {
    && (forall i :: 0 <= i < |r.publishers| ==> r.publishers[i].WellFormed())
    && (forall i :: 0 <= i < |r.witnesses| ==> r.witnesses[i].WellFormed())
    && (forall i :: 0 <= i < |r.policies| ==> r.policies[i].WellFormed())
  }

  // ---- Lookups ----

  /** The authorisations `publisher_for` collects. */
  function Matches(publishers: seq<PublisherAuth>, client: Text, topic: Text, epoch: int): seq<PublisherAuth> {
    if publishers == [] then []
    else
      var n := |publishers| - 1;
      Matches(publishers[..n], client, topic, epoch)
      + if publishers[n].Authorizes(client, topic, epoch) then [publishers[n]] else []
  }

  /** `publisher_for`: ambiguity raises. */
  function PublisherFor(r: Registry, client: Text, topic: Text, epoch: int): Outcome<Option<PublisherAuth>> {
    var m := Matches(r.publishers, client, topic, epoch);
    if |m| > 1 then Raised else if m == [] then Ok(None) else Ok(Some(m[0]))
  }

  function WitnessIn(witnesses: seq<WitnessAuth>, id: Text): (w: Option<WitnessAuth>)
    ensures w.Some? ==> w.value in witnesses && w.value.witnessId == id
    ensures w.None? ==> forall x :: x in witnesses ==> x.witnessId != id
  {
    FirstWith(witnesses, (w: WitnessAuth) => w.witnessId, id)
  }

  /** `witness_for_id`: the first entry with this id. */
  function WitnessFor(r: Registry, id: Text): Option<WitnessAuth> { WitnessIn(r.witnesses, id) }

  function PolicyIn(policies: seq<WitnessPolicy>, streamId: Text): (p: Option<WitnessPolicy>)
    ensures p.Some? ==> p.value in policies && p.value.streamId == streamId
    ensures p.None? ==> forall x :: x in policies ==> x.streamId != streamId
  {
    FirstWith(policies, (p: WitnessPolicy) => p.streamId, streamId)
  }

  /** `witness_policy_for`: the first entry for this stream. */
  function PolicyFor(r: Registry, streamId: Text): Option<WitnessPolicy> { PolicyIn(r.policies, streamId) }

  // ---- What validation is for ----

  /** No two publisher entries speak for one client, topic and epoch. */
  ghost predicate PublishersDisjoint(publishers: seq<PublisherAuth>) {
    forall i, j, epoch :: 0 <= i < j < |publishers| && publishers[i].clientId == publishers[j].clientId
      && publishers[i].topic == publishers[j].topic
      ==> !(publishers[i].AuthorizesEpoch(epoch) && publishers[j].AuthorizesEpoch(epoch))
  }

  ghost predicate WitnessIdsUnique(witnesses: seq<WitnessAuth>) {
    forall i, j :: 0 <= i < j < |witnesses| ==> witnesses[i].witnessId != witnesses[j].witnessId
  }

  ghost predicate PolicyStreamsUnique(policies: seq<WitnessPolicy>) {
    forall i, j :: 0 <= i < j < |policies| ==> policies[i].streamId != policies[j].streamId
  }

  /** Every witness a policy names exists and serves the policy's stream. */
  predicate PolicyBacked(witnesses: seq<WitnessAuth>, p: WitnessPolicy) {
    forall i :: 0 <= i < |p.witnessIds| ==>
      var w := WitnessIn(witnesses, p.witnessIds[i]); w.Some? && p.streamId in w.value.streams
  }

  ghost predicate Unambiguous(r: Registry) {
    && WitnessIdsUnique(r.witnesses)
    && PolicyStreamsUnique(r.policies)
    && (forall i :: 0 <= i < |r.policies| ==> PolicyBacked(r.witnesses, r.policies[i]))
    && PublishersDisjoint(r.publishers)
  }

  /** A registry object that exists. */
  ghost predicate Trusted(r: Registry) { EntriesWellFormed(r) && Unambiguous(r) }

  // ---- Adjacent checks on sorted intervals ----

  predicate Overlap(a: PublisherAuth, b: PublisherAuth) {
    && (b.epochEnd.None? || a.epochStart <= b.epochEnd.value)
    && (a.epochEnd.None? || b.epochStart <= a.epochEnd.value)
  }

  /** Two well-formed intervals overlap exactly when some epoch lies in both. */
  lemma OverlapIsShared(a: PublisherAuth, b: PublisherAuth)
    requires a.WellFormed() && b.WellFormed()
    ensures Overlap(a, b) <==> exists epoch :: a.AuthorizesEpoch(epoch) && b.AuthorizesEpoch(epoch)
  {
    var later := if a.epochStart < b.epochStart then b.epochStart else a.epochStart;
    if Overlap(a, b) {
      assert a.AuthorizesEpoch(later) && b.AuthorizesEpoch(later);
    }
  }

  predicate ClearOf(x: PublisherAuth, s: seq<PublisherAuth>) { forall i :: 0 <= i < |s| ==> !Overlap(s[i], x) }

  /** Pairwise free of overlap. */
  predicate Clear(s: seq<PublisherAuth>) {
    s == [] || (ClearOf(s[|s| - 1], s[..|s| - 1]) && Clear(s[..|s| - 1]))
  }

  /** Stable insertion by first epoch. */
  function Insert(x: PublisherAuth, s: seq<PublisherAuth>): (r: seq<PublisherAuth>)
    ensures |r| == |s| + 1
    ensures multiset(r) == multiset(s) + multiset{x}
    ensures forall i :: 0 <= i < |r| ==> r[i] == x || r[i] in s
  {
    if s == [] || s[|s| - 1].epochStart <= x.epochStart then s + [x]
    else
      var n := |s| - 1;
      assert s == s[..n] + [s[n]];
      Insert(x, s[..n]) + [s[n]]
  }

  /** `sorted(..., key=epoch_start)`. */
  function SortByStart(s: seq<PublisherAuth>): (r: seq<PublisherAuth>)
    ensures multiset(r) == multiset(s)
  {
    if s == [] then []
    else
      var n := |s| - 1;
      assert s == s[..n] + [s[n]];
      Insert(s[n], SortByStart(s[..n]))
  }

  predicate Sorted(s: seq<PublisherAuth>) {
    forall i, j :: 0 <= i < j < |s| ==> s[i].epochStart <= s[j].epochStart
  }

  lemma {:induction false} InsertSorted(x: PublisherAuth, s: seq<PublisherAuth>)
    requires Sorted(s)
    ensures Sorted(Insert(x, s))
  {
    if !(s == [] || s[|s| - 1].epochStart <= x.epochStart) {
      var n := |s| - 1;
      InsertSorted(x, s[..n]);
      var r := Insert(x, s[..n]);
      forall i | 0 <= i < |r| ensures r[i].epochStart <= s[n].epochStart {
        assert r[i] == x || r[i] in s[..n];
      }
      hide Insert;
      SortedSnoc(r, s[n]);
    } else {
      SortedSnoc(s, x);
    }
  }

  lemma SortedSnoc(s: seq<PublisherAuth>, x: PublisherAuth)
    requires Sorted(s) && forall i :: 0 <= i < |s| ==> s[i].epochStart <= x.epochStart
    ensures Sorted(s + [x])
  {}

  lemma {:induction false} SortSorts(s: seq<PublisherAuth>)
    ensures Sorted(SortByStart(s))
  {
    if s != [] {
      SortSorts(s[..|s| - 1]);
      InsertSorted(s[|s| - 1], SortByStart(s[..|s| - 1]));
    }
  }

  lemma ClearOfMembers(x: PublisherAuth, s: seq<PublisherAuth>)
    ensures ClearOf(x, s) <==> forall y :: y in multiset(s) ==> !Overlap(y, x)
  {
    forall i | 0 <= i < |s| ensures s[i] in multiset(s) {}
  }

  lemma ClearSnoc(s: seq<PublisherAuth>, x: PublisherAuth)
    ensures Clear(s + [x]) <==> ClearOf(x, s) && Clear(s)
  {
    assert (s + [x])[..|s|] == s;
  }

  lemma {:induction false} InsertClear(x: PublisherAuth, s: seq<PublisherAuth>)
    ensures Clear(Insert(x, s)) <==> ClearOf(x, s) && Clear(s)
  {
    hide Overlap, Clear;
    if s == [] || s[|s| - 1].epochStart <= x.epochStart {
      ClearSnoc(s, x);
    } else {
      var n := |s| - 1;
      var r, y := Insert(x, s[..n]), s[n];
      assert s == s[..n] + [y];
      InsertClear(x, s[..n]);
      ClearSnoc(r, y);
      ClearSnoc(s[..n], y);
      ClearOfMembers(y, r);
      ClearOfMembers(y, s[..n]);
      OverlapSymmetric(x, y);
      assert ClearOf(y, r) <==> ClearOf(y, s[..n]) && !Overlap(x, y);
      assert ClearOf(x, s) <==> ClearOf(x, s[..n]) && !Overlap(y, x);
    }
  }

  lemma OverlapSymmetric(a: PublisherAuth, b: PublisherAuth)
    ensures Overlap(a, b) <==> Overlap(b, a)
  {}

  lemma {:induction false} SortClear(s: seq<PublisherAuth>)
    ensures Clear(SortByStart(s)) <==> Clear(s)
  {
    if s != [] {
      var n := |s| - 1;
      SortClear(s[..n]);
      InsertClear(s[n], SortByStart(s[..n]));
      ClearOfMembers(s[n], s[..n]);
      ClearOfMembers(s[n], SortByStart(s[..n]));
    }
  }

  /** The comparison `_validate_unambiguous` makes between neighbours. */
  predicate Separate(left: PublisherAuth, right: PublisherAuth) {
    left.epochEnd.Some? && right.epochStart > left.epochEnd.value
  }

  predicate NeighboursSeparate(s: seq<PublisherAuth>) {
    forall i :: 0 <= i < |s| - 1 ==> Separate(s[i], s[i + 1])
  }

  /** The last of sorted intervals is clear of all before it as soon as it is clear of its neighbour. */
  lemma LastNeighbourDecides(s: seq<PublisherAuth>, n: nat)
    requires Sorted(s) && (forall i :: 0 <= i < |s| ==> s[i].WellFormed()) && |s| == n + 1
    requires NeighboursSeparate(s[..n])
    ensures ClearOf(s[n], s[..n]) <==> n == 0 || Separate(s[n - 1], s[n])
  {
    if n > 0 && Separate(s[n - 1], s[n]) {
      forall i | 0 <= i < n ensures !Overlap(s[..n][i], s[n]) {
        if i < n - 1 {
          assert Separate(s[..n][i], s[..n][i + 1]);
        }
      }
    }
    if n > 0 && ClearOf(s[n], s[..n]) {
      assert !Overlap(s[..n][n - 1], s[n]);
    }
  }

  lemma NeighboursGrow(s: seq<PublisherAuth>, n: nat)
    requires |s| == n + 1
    ensures NeighboursSeparate(s) <==> NeighboursSeparate(s[..n]) && (n == 0 || Separate(s[n - 1], s[n]))
  {
    assert forall i :: 0 <= i < n ==> s[..n][i] == s[i];
    if NeighboursSeparate(s) {
      forall i | 0 <= i < n - 1 ensures Separate(s[..n][i], s[..n][i + 1]) { assert Separate(s[i], s[i + 1]); }
    }
    if NeighboursSeparate(s[..n]) && (n == 0 || Separate(s[n - 1], s[n])) {
      forall i | 0 <= i < n ensures Separate(s[i], s[i + 1]) {
        if i < n - 1 {
          assert Separate(s[..n][i], s[..n][i + 1]);
        }
      }
    }
  }

  /** On sorted intervals the neighbour checks decide overlap of every pair. */
  lemma {:induction false} NeighboursDecide(s: seq<PublisherAuth>)
    requires Sorted(s) && forall i :: 0 <= i < |s| ==> s[i].WellFormed()
    ensures NeighboursSeparate(s) <==> Clear(s)
  {
    if s != [] {
      hide NeighboursSeparate, ClearOf, Separate;
      var n := |s| - 1;
      NeighboursDecide(s[..n]);
      NeighboursGrow(s, n);
      if NeighboursSeparate(s[..n]) {
        LastNeighbourDecides(s, n);
      }
    }
  }

  // ---- Grouping by identity ----

  type Identity = (Text, Text)

  function IdentityOf(a: PublisherAuth): Identity { (a.clientId, a.topic) }

  function Group(publishers: seq<PublisherAuth>, id: Identity): (g: seq<PublisherAuth>)
    ensures forall i :: 0 <= i < |g| ==> g[i] in publishers && IdentityOf(g[i]) == id
  {
    if publishers == [] then []
    else
      var n := |publishers| - 1;
      Group(publishers[..n], id) + if IdentityOf(publishers[n]) == id then [publishers[n]] else []
  }

  lemma {:induction false} GroupMembers(publishers: seq<PublisherAuth>, i: nat)
    requires i < |publishers|
    ensures publishers[i] in Group(publishers, IdentityOf(publishers[i]))
  {
    if i < |publishers| - 1 {
      GroupMembers(publishers[..|publishers| - 1], i);
    }
  }

  ghost predicate OverlapFree(publishers: seq<PublisherAuth>) {
    forall i, j :: 0 <= i < j < |publishers| && IdentityOf(publishers[i]) == IdentityOf(publishers[j])
      ==> !Overlap(publishers[i], publishers[j])
  }

  lemma OverlapFreeIsDisjoint(publishers: seq<PublisherAuth>)
    requires forall i :: 0 <= i < |publishers| ==> publishers[i].WellFormed()
    ensures OverlapFree(publishers) <==> PublishersDisjoint(publishers)
  {
    hide Overlap;
    forall i, j | 0 <= i < j < |publishers| { OverlapIsShared(publishers[i], publishers[j]); }
    if PublishersDisjoint(publishers) {
      forall i, j | 0 <= i < j < |publishers| && IdentityOf(publishers[i]) == IdentityOf(publishers[j])
        ensures !Overlap(publishers[i], publishers[j]) {}
    }
  }

  /** The entry added last is clear of its group exactly when it is clear of every entry of its identity. */
  lemma ClearOfGroup(front: seq<PublisherAuth>, x: PublisherAuth)
    ensures ClearOf(x, Group(front, IdentityOf(x))) <==>
      forall i :: 0 <= i < |front| && IdentityOf(front[i]) == IdentityOf(x) ==> !Overlap(front[i], x)
  {
    var g := Group(front, IdentityOf(x));
    forall i | 0 <= i < |front| && IdentityOf(front[i]) == IdentityOf(x) ensures front[i] in g {
      GroupMembers(front, i);
    }
  }

  lemma GroupGrows(front: seq<PublisherAuth>, x: PublisherAuth, id: Identity)
    ensures Clear(Group(front + [x], id)) <==>
      Clear(Group(front, id)) && (id == IdentityOf(x) ==> ClearOf(x, Group(front, id)))
  {
    hide Clear, ClearOf, Group;
    GroupSnoc(front, x, id);
    ClearSnoc(Group(front, id), x);
  }

  lemma OverlapFreeGrows(front: seq<PublisherAuth>, x: PublisherAuth)
    ensures OverlapFree(front + [x]) <==>
      OverlapFree(front) && ClearOf(x, Group(front, IdentityOf(x)))
  {
    hide Overlap;
    var s := front + [x];
    assert s[|front|] == x && forall i :: 0 <= i < |front| ==> s[i] == front[i];
    ClearOfGroup(front, x);
  }

  ghost predicate GroupsClear(publishers: seq<PublisherAuth>) {
    forall id :: Clear(Group(publishers, id))
  }

  lemma GroupsClearGrows(front: seq<PublisherAuth>, x: PublisherAuth)
    ensures GroupsClear(front + [x]) <==> GroupsClear(front) && ClearOf(x, Group(front, IdentityOf(x)))
  {
    hide Clear, ClearOf, Group;
    forall id { GroupGrows(front, x, id); }
    if GroupsClear(front + [x]) {
      forall id ensures Clear(Group(front, id)) { assert Clear(Group(front + [x], id)); }
      assert Clear(Group(front + [x], IdentityOf(x)));
    }
    if GroupsClear(front) && ClearOf(x, Group(front, IdentityOf(x))) {
      forall id ensures Clear(Group(front + [x], id)) { assert Clear(Group(front, id)); }
    }
  }

  /** Checking the groups one by one checks all pairs. */
  lemma {:induction false} GroupsDecide(publishers: seq<PublisherAuth>)
    ensures GroupsClear(publishers) <==> OverlapFree(publishers)
  {
    if publishers == [] {
      forall id ensures Clear(Group(publishers, id)) {}
    } else {
      var n := |publishers| - 1;
      assert publishers == publishers[..n] + [publishers[n]];
      GroupsDecide(publishers[..n]);
      OverlapFreeGrows(publishers[..n], publishers[n]);
      GroupsClearGrows(publishers[..n], publishers[n]);
    }
  }

  lemma EmptyIsClear()
    ensures Clear([])
  {}

  // ---- Validation ----

  method CheckWitnesses(r: Registry) returns (ok: bool)
    ensures ok <==> WitnessIdsUnique(r.witnesses)
  {
    var seen: set<Text> := {};
    for i := 0 to |r.witnesses|
      invariant seen == set k | 0 <= k < i :: r.witnesses[k].witnessId
      invariant WitnessIdsUnique(r.witnesses[..i])
    {
      if r.witnesses[i].witnessId in seen {
        return false;
      }
      seen := seen + {r.witnesses[i].witnessId};
    }
    assert r.witnesses[..|r.witnesses|] == r.witnesses;
    ok := true;
  }

  method CheckPolicies(r: Registry) returns (ok: bool)
    ensures ok <==>
      (PolicyStreamsUnique(r.policies)
       && forall i :: 0 <= i < |r.policies| ==> PolicyBacked(r.witnesses, r.policies[i]))
  {
    var seen: set<Text> := {};
    for i := 0 to |r.policies|
      invariant seen == set k | 0 <= k < i :: r.policies[k].streamId
      invariant PolicyStreamsUnique(r.policies[..i])
      invariant forall k :: 0 <= k < i ==> PolicyBacked(r.witnesses, r.policies[k])
    {
      var policy := r.policies[i];
      if policy.streamId in seen {
        return false;
      }
      seen := seen + {policy.streamId};
      for j := 0 to |policy.witnessIds|
        invariant forall k :: 0 <= k < j ==>
          var w := WitnessIn(r.witnesses, policy.witnessIds[k]); w.Some? && policy.streamId in w.value.streams
      {
        var found := WitnessFor(r, policy.witnessIds[j]);
        if found.None? || policy.streamId !in found.value.streams {
          return false;
        }
      }
    }
    assert r.policies[..|r.policies|] == r.policies;
    ok := true;
  }

  method CheckNeighbours(ordered: seq<PublisherAuth>) returns (ok: bool)
    ensures ok <==> NeighboursSeparate(ordered)
  {
    var i := 0;
    while i + 1 < |ordered|
      invariant i == 0 || 0 < i < |ordered|
      invariant forall k :: 0 <= k < i ==> Separate(ordered[k], ordered[k + 1])
    {
      var leftEnd := ordered[i].epochEnd;
      if leftEnd.None? || ordered[i + 1].epochStart <= leftEnd.value {
        assert !Separate(ordered[i], ordered[i + 1]);
        return false;
      }
      i := i + 1;
    }
    ok := true;
  }

  method GroupPublishers(publishers: seq<PublisherAuth>) returns (grouped: map<Identity, seq<PublisherAuth>>)
    ensures forall id :: id in grouped ==> grouped[id] == Group(publishers, id)
    ensures forall id :: id !in grouped ==> Group(publishers, id) == []
  {
    hide Group, IdentityOf;
    grouped := map[];
    EmptyGroup();
    for i := 0 to |publishers|
      invariant forall id :: id in grouped ==> grouped[id] == Group(publishers[..i], id)
      invariant forall id :: id !in grouped ==> Group(publishers[..i], id) == []
    {
      forall id {
        GroupSnoc(publishers[..i], publishers[i], id);
      }
      assert publishers[..i + 1] == publishers[..i] + [publishers[i]];
      var id := IdentityOf(publishers[i]);
      grouped := grouped[id := (if id in grouped then grouped[id] else []) + [publishers[i]]];
    }
    assert publishers[..|publishers|] == publishers;
  }

  lemma EmptyGroup()
    ensures forall id :: Group([], id) == []
  {}

  lemma GroupSnoc(front: seq<PublisherAuth>, x: PublisherAuth, id: Identity)
    ensures Group(front + [x], id) == if id == IdentityOf(x) then Group(front, id) + [x] else Group(front, id)
  {
    assert (front + [x])[..|front|] == front;
  }

  /** Sort one group and compare its neighbours. */
  method CheckGroup(group: seq<PublisherAuth>) returns (ok: bool)
    requires forall i :: 0 <= i < |group| ==> group[i].WellFormed()
    ensures ok <==> Clear(group)
  {
    hide Clear, Sorted, NeighboursSeparate, SortByStart;
    var ordered := SortByStart(group);
    SortSorts(group);
    SortClear(group);
    forall k | 0 <= k < |ordered| ensures ordered[k].WellFormed() {
      assert ordered[k] in multiset(group);
    }
    NeighboursDecide(ordered);
    ok := CheckNeighbours(ordered);
  }

  method CheckPublishers(publishers: seq<PublisherAuth>) returns (ok: bool)
    requires forall i :: 0 <= i < |publishers| ==> publishers[i].WellFormed()
    ensures ok <==> PublishersDisjoint(publishers)
  {
    hide OverlapFree, PublishersDisjoint, Clear, Group;
    OverlapFreeIsDisjoint(publishers);
    GroupsDecide(publishers);
    EmptyIsClear();
    var grouped := GroupPublishers(publishers);
    var pending := grouped.Keys;
    while pending != {}
      invariant pending <= grouped.Keys
      invariant forall id :: id in grouped && id !in pending ==> Clear(Group(publishers, id))
      decreases |pending|
    {
      var id :| id in pending;
      var separate := CheckGroup(grouped[id]);
      if !separate {
        assert !Clear(Group(publishers, id));
        return false;
      }
      pending := pending - {id};
    }
    ok := true;
  }

  /** `_validate_unambiguous`: passes exactly on unambiguous registries. */
  method Validate(r: Registry) returns (ok: bool)
    requires EntriesWellFormed(r)
    ensures ok <==> Unambiguous(r)
  {
    ok := CheckWitnesses(r);
    if ok {
      ok := CheckPolicies(r);
    }
    if ok {
      ok := CheckPublishers(r.publishers);
    }
  }

  // ---- Lookups in a validated registry ----

  lemma {:induction false} MatchesMembers(
      publishers: seq<PublisherAuth>, client: Text, topic: Text, epoch: int, a: PublisherAuth)
    ensures a in Matches(publishers, client, topic, epoch) <==>
      a in publishers && a.Authorizes(client, topic, epoch)
  {
    if publishers != [] {
      var n := |publishers| - 1;
      MatchesMembers(publishers[..n], client, topic, epoch, a);
      assert publishers == publishers[..n] + [publishers[n]];
    }
  }

  lemma SharedEpoch(publishers: seq<PublisherAuth>, a: PublisherAuth, client: Text, topic: Text, epoch: int)
    requires publishers != [] && a in publishers[..|publishers| - 1] && a.Authorizes(client, topic, epoch)
    requires publishers[|publishers| - 1].Authorizes(client, topic, epoch)
    ensures !PublishersDisjoint(publishers)
  {
    var n := |publishers| - 1;
    var i :| 0 <= i < n && publishers[i] == a;
    assert publishers[i].AuthorizesEpoch(epoch) && publishers[n].AuthorizesEpoch(epoch);
  }

  /** Disjoint entries match at most once. */
  lemma {:induction false} AtMostOneMatch(publishers: seq<PublisherAuth>, client: Text, topic: Text, epoch: int)
    requires PublishersDisjoint(publishers)
    ensures |Matches(publishers, client, topic, epoch)| <= 1
  {
    if publishers != [] {
      var n := |publishers| - 1;
      var front := Matches(publishers[..n], client, topic, epoch);
      AtMostOneMatch(publishers[..n], client, topic, epoch);
      if front != [] && publishers[n].Authorizes(client, topic, epoch) {
        MatchesMembers(publishers[..n], client, topic, epoch, front[0]);
        SharedEpoch(publishers, front[0], client, topic, epoch);
      }
    }
  }

  /** In a validated registry `publisher_for` never raises and returns the one authorisation there is. */
  lemma PublisherLookup(r: Registry, client: Text, topic: Text, epoch: int)
    requires Unambiguous(r)
    ensures PublisherFor(r, client, topic, epoch).Ok?
    ensures forall a :: PublisherFor(r, client, topic, epoch) == Ok(Some(a)) <==>
      a in r.publishers && a.Authorizes(client, topic, epoch)
  {
    AtMostOneMatch(r.publishers, client, topic, epoch);
    forall a ensures a in Matches(r.publishers, client, topic, epoch) <==>
        a in r.publishers && a.Authorizes(client, topic, epoch) {
      MatchesMembers(r.publishers, client, topic, epoch, a);
    }
  }

  lemma WitnessLookup(witnesses: seq<WitnessAuth>, w: WitnessAuth)
    requires WitnessIdsUnique(witnesses) && w in witnesses
    ensures WitnessIn(witnesses, w.witnessId) == Some(w)
  {
    var found := WitnessIn(witnesses, w.witnessId);
    var i :| 0 <= i < |witnesses| && witnesses[i] == w;
    var j :| 0 <= j < |witnesses| && witnesses[j] == found.value;
  }

  lemma PolicyLookup(policies: seq<WitnessPolicy>, p: WitnessPolicy)
    requires PolicyStreamsUnique(policies) && p in policies
    ensures PolicyIn(policies, p.streamId) == Some(p)
  {
    var found := PolicyIn(policies, p.streamId);
    var i :| 0 <= i < |policies| && policies[i] == p;
    var j :| 0 <= j < |policies| && policies[j] == found.value;
  }

  // ---- Combination ----

  /** Append the entries not seen yet; equal entries have equal identity tuples. */
  method AddNew<T(==)>(kept: seq<T>, entries: seq<T>, seen: set<T>) returns (kept': seq<T>, seen': set<T>)
    requires seen == (set x | x in kept) && Distinct(kept)
    ensures seen' == (set x | x in kept') && Distinct(kept')
    ensures forall x :: x in kept' <==> x in kept || x in entries
  {
    kept', seen' := kept, seen;
    for i := 0 to |entries|
      invariant seen' == (set x | x in kept') && Distinct(kept')
      invariant forall x :: x in kept' <==> x in kept || x in entries[..i]
    {
      if entries[i] !in seen' {
        seen' := seen' + {entries[i]};
        kept' := kept' + [entries[i]];
      }
    }
    assert entries[..|entries|] == entries;
  }

  /** The combined registry has exactly the entries of the inputs. */
  ghost predicate HasEntriesOf(r: Registry, inputs: seq<Registry>) {
    && (forall x :: x in r.publishers <==> exists i :: 0 <= i < |inputs| && x in inputs[i].publishers)
    && (forall x :: x in r.witnesses <==> exists i :: 0 <= i < |inputs| && x in inputs[i].witnesses)
    && (forall x :: x in r.policies <==> exists i :: 0 <= i < |inputs| && x in inputs[i].policies)
  }

  lemma NoEntries()
    ensures HasEntriesOf(Registry([], [], []), [])
  {}

  lemma OneMore(inputs: seq<Registry>, k: nat, before: Registry, after: Registry)
    requires k < |inputs| && HasEntriesOf(before, inputs[..k])
    requires forall x :: x in after.publishers <==> x in before.publishers || x in inputs[k].publishers
    requires forall x :: x in after.witnesses <==> x in before.witnesses || x in inputs[k].witnesses
    requires forall x :: x in after.policies <==> x in before.policies || x in inputs[k].policies
    ensures HasEntriesOf(after, inputs[..k + 1])
  {
    var old', new' := inputs[..k], inputs[..k + 1];
    assert forall i :: 0 <= i < k ==> old'[i] == new'[i];
    assert new'[k] == inputs[k];
    forall x ensures x in after.publishers <==> exists i :: 0 <= i < k + 1 && x in new'[i].publishers {}
    forall x ensures x in after.witnesses <==> exists i :: 0 <= i < k + 1 && x in new'[i].witnesses {}
    forall x ensures x in after.policies <==> exists i :: 0 <= i < k + 1 && x in new'[i].policies {}
  }

  lemma EntriesStayWellFormed(inputs: seq<Registry>, merged: Registry)
    requires forall i :: 0 <= i < |inputs| ==> EntriesWellFormed(inputs[i])
    requires HasEntriesOf(merged, inputs)
    ensures EntriesWellFormed(merged)
  {
    forall x | x in merged.publishers ensures x.WellFormed() {}
    forall x | x in merged.witnesses ensures x.WellFormed() {}
    forall x | x in merged.policies ensures x.WellFormed() {}
  }

  /** No entry is listed twice. */
  ghost predicate ListedOnce(r: Registry) {
    Distinct(r.publishers) && Distinct(r.witnesses) && Distinct(r.policies)
  }

  lemma ListsAreListed(r: Registry)
    requires Distinct(r.publishers) && Distinct(r.witnesses) && Distinct(r.policies)
    ensures ListedOnce(r)
  {}

  lemma SameEntries(inputs: seq<Registry>, a: Registry, b: Registry)
    requires HasEntriesOf(a, inputs) && HasEntriesOf(b, inputs)
    ensures forall x :: x in a.publishers ==> x in b.publishers
    ensures forall x :: x in a.witnesses ==> x in b.witnesses
    ensures forall x :: x in a.policies ==> x in b.policies
  {}

  lemma PublishersOnce(a: seq<PublisherAuth>, m: seq<PublisherAuth>)
    requires Distinct(a) && (forall x :: x in a ==> x in m) && PublishersDisjoint(m)
    ensures PublishersDisjoint(a)
  {
    hide PublisherAuth.AuthorizesEpoch;
    forall i, j, epoch | 0 <= i < j < |a| && a[i].clientId == a[j].clientId && a[i].topic == a[j].topic
      ensures !(a[i].AuthorizesEpoch(epoch) && a[j].AuthorizesEpoch(epoch))
    {
      assert a[i] in a && a[j] in a;
      var p :| 0 <= p < |m| && m[p] == a[i];
      var q :| 0 <= q < |m| && m[q] == a[j];
      assert p < q || q < p;
    }
  }

  lemma WitnessesOnce(a: seq<WitnessAuth>, m: seq<WitnessAuth>)
    requires Distinct(a) && (forall x :: x in a ==> x in m) && WitnessIdsUnique(m)
    ensures WitnessIdsUnique(a)
  {
    forall i, j | 0 <= i < j < |a| ensures a[i].witnessId != a[j].witnessId {
      assert a[i] in a && a[j] in a;
      var p :| 0 <= p < |m| && m[p] == a[i];
      var q :| 0 <= q < |m| && m[q] == a[j];
      assert p < q || q < p;
    }
  }

  lemma PoliciesOnce(a: seq<WitnessPolicy>, m: seq<WitnessPolicy>)
    requires Distinct(a) && (forall x :: x in a ==> x in m) && PolicyStreamsUnique(m)
    ensures PolicyStreamsUnique(a)
  {
    forall i, j | 0 <= i < j < |a| ensures a[i].streamId != a[j].streamId {
      assert a[i] in a && a[j] in a;
      var p :| 0 <= p < |m| && m[p] == a[i];
      var q :| 0 <= q < |m| && m[q] == a[j];
      assert p < q || q < p;
    }
  }

  lemma BackedAlike(a: seq<WitnessAuth>, m: seq<WitnessAuth>, p: WitnessPolicy)
    requires WitnessIdsUnique(a) && WitnessIdsUnique(m) && (forall x :: x in m ==> x in a) && PolicyBacked(m, p)
    ensures PolicyBacked(a, p)
  {
    forall i | 0 <= i < |p.witnessIds|
      ensures var w := WitnessIn(a, p.witnessIds[i]); w.Some? && p.streamId in w.value.streams
    {
      var w := WitnessIn(m, p.witnessIds[i]);
      WitnessLookup(a, w.value);
    }
  }

  /** If any listing of the entries is unambiguous, so is the one that lists each once. */
  lemma AnyListing(inputs: seq<Registry>, once: Registry, m: Registry)
    requires ListedOnce(once) && HasEntriesOf(once, inputs) && HasEntriesOf(m, inputs) && Unambiguous(m)
    ensures Unambiguous(once)
  {
    hide HasEntriesOf, PublishersDisjoint, WitnessIdsUnique, PolicyStreamsUnique, PolicyBacked, Distinct;
    SameEntries(inputs, once, m);
    SameEntries(inputs, m, once);
    PublishersOnce(once.publishers, m.publishers);
    WitnessesOnce(once.witnesses, m.witnesses);
    PoliciesOnce(once.policies, m.policies);
    forall i | 0 <= i < |once.policies| ensures PolicyBacked(once.witnesses, once.policies[i]) {
      assert once.policies[i] in m.policies;
      BackedAlike(once.witnesses, m.witnesses, once.policies[i]);
    }
  }

  /** `combine`: merge, drop equal duplicates, and validate the result like any registry. */
  method Combine(inputs: seq<Registry>) returns (r: Outcome<Registry>)
    requires forall i :: 0 <= i < |inputs| ==> Trusted(inputs[i])
    ensures r.Ok? ==> Trusted(r.value) && HasEntriesOf(r.value, inputs)
    ensures r.Raised? <==> forall m :: HasEntriesOf(m, inputs) ==> !Unambiguous(m)
  {
    hide HasEntriesOf, EntriesWellFormed, Unambiguous, ListedOnce;
    NoEntries();
    var publishers: seq<PublisherAuth>, witnesses: seq<WitnessAuth>, policies: seq<WitnessPolicy> := [], [], [];
    var publisherSeen: set<PublisherAuth>, witnessSeen: set<WitnessAuth>, policySeen: set<WitnessPolicy> := {}, {}, {};
    for k := 0 to |inputs|
      invariant publisherSeen == (set x | x in publishers) && Distinct(publishers)
      invariant witnessSeen == (set x | x in witnesses) && Distinct(witnesses)
      invariant policySeen == (set x | x in policies) && Distinct(policies)
      invariant HasEntriesOf(Registry(publishers, witnesses, policies), inputs[..k])
    {
      ghost var before := Registry(publishers, witnesses, policies);
      publishers, publisherSeen := AddNew(publishers, inputs[k].publishers, publisherSeen);
      witnesses, witnessSeen := AddNew(witnesses, inputs[k].witnesses, witnessSeen);
      policies, policySeen := AddNew(policies, inputs[k].policies, policySeen);
      OneMore(inputs, k, before, Registry(publishers, witnesses, policies));
    }
    assert inputs[..|inputs|] == inputs;
    var merged := Registry(publishers, witnesses, policies);
    EntriesStayWellFormed(inputs, merged);
    var ok := Validate(merged);
    assert ListedOnce(merged) by { ListsAreListed(merged); }
    forall m | HasEntriesOf(m, inputs) && Unambiguous(m) ensures Unambiguous(merged) {
      AnyListing(inputs, merged, m);
    }
    r := if ok then Ok(merged) else Raised;
  }

  /** A successful combination answers every query an input registry answered, with the same answer. */
  lemma CombinePreservesLookups(
      inputs: seq<Registry>, i: nat, merged: Registry, client: Text, topic: Text, epoch: int, id: Text, stream: Text)
    requires i < |inputs| && Unambiguous(inputs[i]) && Unambiguous(merged) && HasEntriesOf(merged, inputs)
    ensures var a := PublisherFor(inputs[i], client, topic, epoch);
      a != Ok(None) ==> PublisherFor(merged, client, topic, epoch) == a
    ensures WitnessFor(inputs[i], id).Some? ==> WitnessFor(merged, id) == WitnessFor(inputs[i], id)
    ensures PolicyFor(inputs[i], stream).Some? ==> PolicyFor(merged, stream) == PolicyFor(inputs[i], stream)
  {
    PublisherLookup(inputs[i], client, topic, epoch);
    PublisherLookup(merged, client, topic, epoch);
    if WitnessFor(inputs[i], id).Some? {
      WitnessLookup(merged.witnesses, WitnessFor(inputs[i], id).value);
    }
    if PolicyFor(inputs[i], stream).Some? {
      PolicyLookup(merged.policies, PolicyFor(inputs[i], stream).value);
    }
  }

  /** And it answers nothing else. */
  lemma CombineAddsNothing(inputs: seq<Registry>, merged: Registry, client: Text, topic: Text, epoch: int)
    returns (i: nat)
    requires forall k :: 0 <= k < |inputs| ==> Unambiguous(inputs[k])
    requires Unambiguous(merged) && HasEntriesOf(merged, inputs)
    requires PublisherFor(merged, client, topic, epoch) != Ok(None)
    ensures i < |inputs| && PublisherFor(inputs[i], client, topic, epoch) == PublisherFor(merged, client, topic, epoch)
  {
    PublisherLookup(merged, client, topic, epoch);
    var a := PublisherFor(merged, client, topic, epoch).value.value;
    i :| 0 <= i < |inputs| && a in inputs[i].publishers;
    PublisherLookup(inputs[i], client, topic, epoch);
  }
}
