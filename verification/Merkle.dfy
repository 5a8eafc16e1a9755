/** The Merkle commitment: what a tree's root and inclusion proofs are, and what they bind. */
module Merkle {
  import opened Bytes
  import opened Crypto

  type Hash = Bytes -> Digest

  /** One step of an inclusion proof; `isLeft` says the current node is the left child. */
  datatype Step = Step(sibling: Bytes, isLeft: bool)
  type Proof = seq<Step>

  function LeafInput(record: Bytes): Bytes { [0] + record }
  function NodeInput(left: Bytes, right: Bytes): Bytes { [1] + left + right }
  function StepInput(current: Bytes, step: Step): Bytes {
    if step.isLeft then NodeInput(current, step.sibling) else NodeInput(step.sibling, current)
  }

  function LeafHash(h: Hash, record: Bytes): Digest { h(LeafInput(record)) }

  function Leaves(h: Hash, records: seq<Bytes>): seq<Digest> {
    seq(|records|, i requires 0 <= i < |records| => LeafHash(h, records[i]))
  }

  /** An odd level repeats its last node. */
  function Padded(l: seq<Digest>): (p: seq<Digest>)
    requires |l| > 0
    ensures |p| % 2 == 0 && |l| <= |p| <= |l| + 1
    ensures forall i :: 0 <= i < |l| ==> p[i] == l[i]
    ensures forall i :: 0 <= i < |p| ==> p[i] in l
  {
    if |l| % 2 == 1 then l + [l[|l| - 1]] else l
  }

  /** The level above. */
  function Up(h: Hash, l: seq<Digest>): (u: seq<Digest>)
    requires |l| > 0
    ensures |u| == (|l| + 1) / 2
  {
    var p := Padded(l);
    seq(|p| / 2, i requires 0 <= i < |p| / 2 => h(NodeInput(p[2 * i], p[2 * i + 1])))
  }

  function Root(h: Hash, l: seq<Digest>): Digest
    requires |l| > 0
    decreases |l|
  {
    if |l| == 1 then l[0] else Root(h, Up(h, l))
  }

  function Sibling(i: nat): nat { if i % 2 == 0 then i + 1 else i - 1 }

  /** The sibling of position i, or the node itself past the end of an odd level. */
  function SiblingNode(l: seq<Digest>, i: nat): Digest
    requires i < |l|
  {
    if Sibling(i) >= |l| then l[i] else l[Sibling(i)]
  }

  function InclusionProof(h: Hash, l: seq<Digest>, i: nat): Proof
    requires i < |l|
    decreases |l|
  {
    if |l| == 1 then []
    else [Step(SiblingNode(l, i), i % 2 == 0)] + InclusionProof(h, Up(h, l), i / 2)
  }

  /** What climbing the proof from `current` arrives at. */
  function Climb(h: Hash, current: Bytes, proof: Proof): Bytes {
    if proof == [] then current
    else var n := |proof| - 1; h(StepInput(Climb(h, current, proof[..n]), proof[n]))
  }

  predicate Proves(h: Hash, leaf: Bytes, proof: Proof, root: Bytes) { Climb(h, leaf, proof) == root }

  // ---- Completeness ----

  lemma {:induction false} ClimbFirst(h: Hash, current: Bytes, step: Step, rest: Proof)
    ensures Climb(h, current, [step] + rest) == Climb(h, h(StepInput(current, step)), rest)
  {
    var p := [step] + rest;
    if rest == [] {
      assert p[..0] == [];
    } else {
      var n := |rest| - 1;
      ClimbFirst(h, current, step, rest[..n]);
      assert p[..n + 1] == [step] + rest[..n];
    }
  }

  /** Node k of the level above is the hash of its two padded nodes. */
  lemma UpAt(h: Hash, l: seq<Digest>, k: nat)
    requires |l| > 0 && 2 * k < |l|
    ensures k < |Up(h, l)|
    ensures Up(h, l)[k] == h(NodeInput(l[2 * k], if 2 * k + 1 < |l| then l[2 * k + 1] else l[2 * k]))
  {
    var p := Padded(l);
    assert p[2 * k] == l[2 * k];
    assert p[2 * k + 1] == if 2 * k + 1 < |l| then l[2 * k + 1] else l[2 * k];
  }

  /** One step up from the left or the right child. */
  lemma StepUp(h: Hash, l: seq<Digest>, k: nat, left: bool)
    requires |l| > 0 && (if left then 2 * k else 2 * k + 1) < |l|
    ensures var i := if left then 2 * k else 2 * k + 1;
      k < |Up(h, l)| && h(StepInput(l[i], Step(SiblingNode(l, i), left))) == Up(h, l)[k]
  {
    hide Up;
    UpAt(h, l, k);
  }

  /** Every leaf's proof climbs to the root. */
  lemma {:induction false} InclusionProofClimbs(h: Hash, l: seq<Digest>, i: nat)
    requires i < |l|
    ensures Climb(h, l[i], InclusionProof(h, l, i)) == Root(h, l)
    decreases |l|
  {
    if |l| > 1 {
      var k, left := i / 2, i % 2 == 0;
      assert i == if left then 2 * k else 2 * k + 1;
      StepUp(h, l, k, left);
      InclusionProofClimbs(h, Up(h, l), k);
      hide Up, Climb, SiblingNode, StepInput;
      ClimbFirst(h, l[i], Step(SiblingNode(l, i), left), InclusionProof(h, Up(h, l), k));
    }
  }

  function Pow2(k: nat): nat { if k == 0 then 1 else 2 * Pow2(k - 1) }

  /** A proof has ceil(log2 n) steps. */
  lemma {:induction false} InclusionProofLength(h: Hash, l: seq<Digest>, i: nat)
    requires i < |l|
    ensures var k := |InclusionProof(h, l, i)|;
      |l| <= Pow2(k) && (|l| > 1 ==> k > 0 && Pow2(k - 1) < |l|)
    decreases |l|
  {
    hide InclusionProof, Up, Pow2;
    if |l| > 1 {
      InclusionProofLength(h, Up(h, l), i / 2);
      ProofGrows(h, l, i);
      ProofGrows(h, Up(h, l), i / 2);
      var k := |InclusionProof(h, Up(h, l), i / 2)|;
      Pow2Doubles(k);
      if k > 0 {
        Pow2Doubles(k - 1);
      }
    } else {
      ProofGrows(h, l, i);
    }
  }

  lemma Pow2Doubles(k: nat)
    ensures Pow2(0) == 1 && Pow2(k + 1) == 2 * Pow2(k)
  {}

  /** One step per level. */
  lemma ProofGrows(h: Hash, l: seq<Digest>, i: nat)
    requires i < |l|
    ensures if |l| == 1 then |InclusionProof(h, l, i)| == 0 && Pow2(0) == 1
            else |Up(h, l)| == (|l| + 1) / 2
                 && |InclusionProof(h, l, i)| == |InclusionProof(h, Up(h, l), i / 2)| + 1
  {}

  // ---- Binding ----

  ghost function LevelInputs(l: seq<Digest>): set<Bytes>
    requires |l| > 0
  {
    set i | 0 <= i < |Padded(l)| / 2 :: NodeInput(Padded(l)[2 * i], Padded(l)[2 * i + 1])
  }

  /** Everything hashed to build the levels above l. */
  ghost function TreeInputs(h: Hash, l: seq<Digest>): set<Bytes>
    requires |l| > 0
    decreases |l|
  {
    if |l| == 1 then {} else LevelInputs(l) + TreeInputs(h, Up(h, l))
  }

  ghost function LeafInputs(records: seq<Bytes>): set<Bytes> {
    set i | 0 <= i < |records| :: LeafInput(records[i])
  }

  /** Everything hashed to commit to the records. */
  ghost function BuildInputs(h: Hash, records: seq<Bytes>): set<Bytes> {
    LeafInputs(records) + if records == [] then {} else TreeInputs(h, Leaves(h, records))
  }

  /** Everything hashed to climb a proof. */
  ghost function ClimbInputs(h: Hash, current: Bytes, proof: Proof): set<Bytes> {
    if proof == [] then {}
    else var n := |proof| - 1;
      ClimbInputs(h, current, proof[..n]) + {StepInput(Climb(h, current, proof[..n]), proof[n])}
  }

  /** Everything hashed to check one record against a root. */
  ghost function CheckInputs(h: Hash, record: Bytes, proof: Proof): set<Bytes> {
    {LeafInput(record)} + ClimbInputs(h, LeafHash(h, record), proof)
  }

  lemma LeafIsNotNode(record: Bytes, left: Bytes, right: Bytes)
    ensures LeafInput(record) != NodeInput(left, right)
  {
    assert LeafInput(record)[0] == 0 && NodeInput(left, right)[0] == 1;
  }

  lemma NodeInputInjective(a: Bytes, b: Bytes, c: Bytes, d: Bytes)
    requires NodeInput(a, b) == NodeInput(c, d)
    requires |a| == |c| || |b| == |d|
    ensures a == c && b == d
  {
    Associative([1], a, b);
    Associative([1], c, d);
    SplitConcat([1], a + b, [1], c + d);
    assert |a + b| == |c + d|;
    SplitConcat(a, b, c, d);
  }

  /** Equal upper levels come from equal levels. */
  lemma UpBinds(h: Hash, inputs: set<Bytes>, a: seq<Digest>, b: seq<Digest>)
    requires |a| == |b| > 0 && Up(h, a) == Up(h, b)
    requires CollisionFree(h, inputs) && LevelInputs(a) <= inputs && LevelInputs(b) <= inputs
    ensures a == b
  {
    var p, q := Padded(a), Padded(b);
    forall i | 0 <= i < |p| / 2 ensures p[2 * i] == q[2 * i] && p[2 * i + 1] == q[2 * i + 1] {
      assert Up(h, a)[i] == Up(h, b)[i];
      assert NodeInput(p[2 * i], p[2 * i + 1]) in LevelInputs(a);
      assert NodeInput(q[2 * i], q[2 * i + 1]) in LevelInputs(b);
      NodeInputInjective(p[2 * i], p[2 * i + 1], q[2 * i], q[2 * i + 1]);
    }
    forall i | 0 <= i < |a| ensures a[i] == b[i] {
      assert i == 2 * (i / 2) || i == 2 * (i / 2) + 1;
      assert p[i] == q[i];
    }
  }

  lemma {:induction false} LevelsBind(h: Hash, inputs: set<Bytes>, a: seq<Digest>, b: seq<Digest>)
    requires |a| == |b| > 0 && Root(h, a) == Root(h, b)
    requires CollisionFree(h, inputs) && TreeInputs(h, a) <= inputs && TreeInputs(h, b) <= inputs
    ensures a == b
    decreases |a|
  {
    if |a| > 1 {
      LevelsBind(h, inputs, Up(h, a), Up(h, b));
      UpBinds(h, inputs, a, b);
    }
  }

  /** Equally many records with one root are the same records, unless two of the hashed inputs collide. */
  lemma RootBinds(h: Hash, inputs: set<Bytes>, a: seq<Bytes>, b: seq<Bytes>)
    requires |a| == |b| > 0 && Root(h, Leaves(h, a)) == Root(h, Leaves(h, b))
    requires CollisionFree(h, inputs) && BuildInputs(h, a) <= inputs && BuildInputs(h, b) <= inputs
    ensures a == b
  {
    LevelsBind(h, inputs, Leaves(h, a), Leaves(h, b));
    forall i | 0 <= i < |a| ensures a[i] == b[i] {
      assert Leaves(h, a)[i] == Leaves(h, b)[i];
      assert LeafInput(a[i]) in LeafInputs(a) && LeafInput(b[i]) in LeafInputs(b);
      SplitConcat([0], a[i], [0], b[i]);
    }
  }

  /** The equal count matters: for one, repeating the last record of an odd batch keeps the root. */
  lemma OddBatchRepeated(h: Hash, records: seq<Bytes>)
    requires |records| > 1 && |records| % 2 == 1
    ensures Root(h, Leaves(h, records + [records[|records| - 1]])) == Root(h, Leaves(h, records))
  {
    var l, m := Leaves(h, records), Leaves(h, records + [records[|records| - 1]]);
    assert Padded(l) == m == Padded(m);
    assert Up(h, l) == Up(h, m);
  }

  // ---- When two batches share a root ----

  /** Neighbouring blocks joined; an odd row repeats its last block. */
  function Join(blocks: seq<seq<Bytes>>): (j: seq<seq<Bytes>>)
    requires |blocks| > 0
    ensures |j| == (|blocks| + 1) / 2
  {
    seq((|blocks| + 1) / 2, i requires 0 <= i < (|blocks| + 1) / 2 =>
      blocks[2 * i] + blocks[if 2 * i + 1 < |blocks| then 2 * i + 1 else 2 * i])
  }

  function Joined(blocks: seq<seq<Bytes>>): seq<Bytes>
    requires |blocks| > 0
    decreases |blocks|
  {
    if |blocks| == 1 then blocks[0] else Joined(Join(blocks))
  }

  function Singles(records: seq<Bytes>): seq<seq<Bytes>> {
    seq(|records|, i requires 0 <= i < |records| => [records[i]])
  }

  /** The batch filled up to a power of two by repeating the last subtree of each odd level. */
  function Expansion(records: seq<Bytes>): seq<Bytes>
    requires records != []
  {
    Joined(Singles(records))
  }

  /** All blocks in a row. */
  function Flat(blocks: seq<seq<Bytes>>): seq<Bytes> {
    if blocks == [] then [] else Flat(blocks[..|blocks| - 1]) + blocks[|blocks| - 1]
  }

  lemma FlatSnoc(blocks: seq<seq<Bytes>>, block: seq<Bytes>)
    ensures Flat(blocks + [block]) == Flat(blocks) + block
  {
    assert (blocks + [block])[..|blocks|] == blocks;
  }

  lemma PairAt(blocks: seq<seq<Bytes>>, k: nat)
    requires |blocks| > 0 && 0 < k && 2 * k <= |blocks|
    ensures var a, b := blocks[2 * k - 2], blocks[2 * k - 1];
      && Join(blocks)[..k] == Join(blocks)[..k - 1] + [a + b]
      && blocks[..2 * k - 1] == blocks[..2 * (k - 1)] + [a] && blocks[..2 * k] == blocks[..2 * k - 1] + [b]
  {
    assert Join(blocks)[k - 1] == blocks[2 * (k - 1)] + blocks[2 * (k - 1) + 1];
  }

  /** The first k joined blocks are the first 2k blocks. */
  lemma {:induction false} JoinKeepsPairs(blocks: seq<seq<Bytes>>, k: nat)
    requires |blocks| > 0 && 2 * k <= |blocks|
    ensures Flat(Join(blocks)[..k]) == Flat(blocks[..2 * k])
  {
    if k > 0 {
      JoinKeepsPairs(blocks, k - 1);
      var a, b := blocks[2 * k - 2], blocks[2 * k - 1];
      PairAt(blocks, k);
      hide Flat, Join;
      FlatSnoc(Join(blocks)[..k - 1], a + b);
      FlatSnoc(blocks[..2 * k - 2], a);
      FlatSnoc(blocks[..2 * k - 1], b);
      Associative(Flat(blocks[..2 * k - 2]), a, b);
    }
  }

  /** An odd row is its pairs and a last block, which is joined with itself. */
  lemma JoinOdd(blocks: seq<seq<Bytes>>)
    requires |blocks| % 2 == 1
    ensures var k, last := |blocks| / 2, blocks[|blocks| - 1];
      blocks == blocks[..2 * k] + [last] && Join(blocks) == Join(blocks)[..k] + [last + last]
  {}

  lemma JoinKeeps(blocks: seq<seq<Bytes>>)
    requires |blocks| > 0
    ensures Flat(blocks) <= Flat(Join(blocks))
  {
    var k := |blocks| / 2;
    JoinKeepsPairs(blocks, k);
    if |blocks| % 2 == 0 {
      assert blocks[..2 * k] == blocks && Join(blocks)[..k] == Join(blocks);
    } else {
      hide Flat, Join;
      var front, last := Flat(blocks[..2 * k]), blocks[|blocks| - 1];
      JoinOdd(blocks);
      FlatSnoc(blocks[..2 * k], last);
      FlatSnoc(Join(blocks)[..k], last + last);
      Associative(front, last, last);
    }
  }

  lemma {:induction false} JoinedKeeps(blocks: seq<seq<Bytes>>)
    requires |blocks| > 0
    ensures Flat(blocks) <= Joined(blocks)
    decreases |blocks|
  {
    if |blocks| == 1 {
      FlatSnoc([], blocks[0]);
      assert blocks == [] + [blocks[0]];
    } else {
      hide Flat, Join;
      JoinKeeps(blocks);
      JoinedKeeps(Join(blocks));
    }
  }

  lemma {:induction false} SinglesAreFlat(records: seq<Bytes>)
    ensures Flat(Singles(records)) == records
  {
    if records != [] {
      var n := |records| - 1;
      SinglesAreFlat(records[..n]);
      assert Singles(records) == Singles(records[..n]) + [[records[n]]];
      FlatSnoc(Singles(records[..n]), [records[n]]);
      assert records == records[..n] + [records[n]];
    }
  }

  /** The expansion begins with the batch itself. */
  lemma ExpansionExtends(records: seq<Bytes>)
    requires records != []
    ensures records <= Expansion(records)
  {
    SinglesAreFlat(records);
    JoinedKeeps(Singles(records));
  }

  predicate PowerOfTwo(n: nat) { n == 1 || (n > 1 && n % 2 == 0 && PowerOfTwo(n / 2)) }

  function FirstHalf(s: seq<Bytes>): (t: seq<Bytes>)
    requires PowerOfTwo(|s|) && |s| > 1
    ensures PowerOfTwo(|t|) && 2 * |t| == |s|
  {
    s[..|s| / 2]
  }

  function SecondHalf(s: seq<Bytes>): (t: seq<Bytes>)
    requires PowerOfTwo(|s|) && |s| > 1
    ensures PowerOfTwo(|t|) && 2 * |t| == |s|
  {
    s[|s| / 2..]
  }

  /** The root of a full binary tree over the records. */
  function FullRoot(h: Hash, s: seq<Bytes>): Digest
    requires PowerOfTwo(|s|)
    decreases |s|
  {
    if |s| == 1 then LeafHash(h, s[0]) else h(NodeInput(FullRoot(h, FirstHalf(s)), FullRoot(h, SecondHalf(s))))
  }

  /** Everything hashed in that tree. */
  ghost function FullInputs(h: Hash, s: seq<Bytes>): set<Bytes>
    requires PowerOfTwo(|s|)
    decreases |s|
  {
    if |s| == 1 then {LeafInput(s[0])}
    else
      {NodeInput(FullRoot(h, FirstHalf(s)), FullRoot(h, SecondHalf(s)))}
      + FullInputs(h, FirstHalf(s)) + FullInputs(h, SecondHalf(s))
  }

  /** Node i of a level stands for block i, and what was hashed below it is known. */
  ghost predicate StandsFor(h: Hash, inputs: set<Bytes>, node: Digest, block: seq<Bytes>, width: nat) {
    && |block| == width && PowerOfTwo(width)
    && node == FullRoot(h, block) && FullInputs(h, block) <= inputs
  }

  ghost predicate LevelStands(h: Hash, inputs: set<Bytes>, l: seq<Digest>, blocks: seq<seq<Bytes>>, width: nat) {
    |l| == |blocks| && forall i :: 0 <= i < |l| ==> StandsFor(h, inputs, l[i], blocks[i], width)
  }

  lemma NodeStands(h: Hash, inputs: set<Bytes>, x: Digest, a: seq<Bytes>, y: Digest, b: seq<Bytes>, width: nat)
    requires StandsFor(h, inputs, x, a, width) && StandsFor(h, inputs, y, b, width) && NodeInput(x, y) in inputs
    ensures StandsFor(h, inputs, h(NodeInput(x, y)), a + b, 2 * width)
  {
    var s := a + b;
    assert PowerOfTwo(|s|) && FirstHalf(s) == a && SecondHalf(s) == b;
  }

  /** The level above stands for the joined blocks. */
  lemma UpStands(h: Hash, inputs: set<Bytes>, l: seq<Digest>, blocks: seq<seq<Bytes>>, width: nat)
    requires |l| > 0 && LevelStands(h, inputs, l, blocks, width) && LevelInputs(l) <= inputs
    ensures LevelStands(h, inputs, Up(h, l), Join(blocks), 2 * width)
  {
    hide StandsFor;
    var p := Padded(l);
    forall i | 0 <= i < |Up(h, l)| ensures StandsFor(h, inputs, Up(h, l)[i], Join(blocks)[i], 2 * width) {
      var k := if 2 * i + 1 < |l| then 2 * i + 1 else 2 * i;
      assert p[2 * i] == l[2 * i] && p[2 * i + 1] == l[k];
      assert NodeInput(p[2 * i], p[2 * i + 1]) in LevelInputs(l);
      NodeStands(h, inputs, l[2 * i], blocks[2 * i], l[k], blocks[k], width);
    }
  }

  lemma {:induction false} RootStands(
      h: Hash, inputs: set<Bytes>, l: seq<Digest>, blocks: seq<seq<Bytes>>, width: nat) returns (total: nat)
    requires |l| > 0 && LevelStands(h, inputs, l, blocks, width) && TreeInputs(h, l) <= inputs
    ensures StandsFor(h, inputs, Root(h, l), Joined(blocks), total)
    decreases |l|
  {
    if |l| == 1 {
      total := width;
    } else {
      UpStands(h, inputs, l, blocks, width);
      total := RootStands(h, inputs, Up(h, l), Join(blocks), 2 * width);
    }
  }

  /** A batch's root is that of the full tree over its expansion, and nothing else is hashed there. */
  lemma RootOfExpansion(h: Hash, inputs: set<Bytes>, records: seq<Bytes>) returns (total: nat)
    requires records != [] && BuildInputs(h, records) <= inputs
    ensures StandsFor(h, inputs, Root(h, Leaves(h, records)), Expansion(records), total)
  {
    hide Root, Joined, TreeInputs;
    var l, blocks := Leaves(h, records), Singles(records);
    forall i | 0 <= i < |l| ensures StandsFor(h, inputs, l[i], blocks[i], 1) {
      assert LeafInput(records[i]) in LeafInputs(records);
    }
    total := RootStands(h, inputs, l, blocks, 1);
  }

  /** The input of the last hash. */
  ghost function TopInput(h: Hash, s: seq<Bytes>): Bytes
    requires PowerOfTwo(|s|)
  {
    if |s| == 1 then LeafInput(s[0]) else NodeInput(FullRoot(h, FirstHalf(s)), FullRoot(h, SecondHalf(s)))
  }

  lemma TopInputHashes(h: Hash, s: seq<Bytes>)
    requires PowerOfTwo(|s|)
    ensures h(TopInput(h, s)) == FullRoot(h, s) && TopInput(h, s) in FullInputs(h, s)
  {}

  lemma TopInputKind(h: Hash, s: seq<Bytes>)
    requires PowerOfTwo(|s|)
    ensures |TopInput(h, s)| > 0 && TopInput(h, s)[0] == if |s| == 1 then 0 else 1
  {}

  /** Equal roots come from equal last inputs, so from leaves on both sides or nodes on both sides. */
  lemma TopInputsAgree(h: Hash, inputs: set<Bytes>, a: seq<Bytes>, b: seq<Bytes>)
    requires PowerOfTwo(|a|) && PowerOfTwo(|b|) && FullRoot(h, a) == FullRoot(h, b)
    requires CollisionFree(h, inputs) && FullInputs(h, a) <= inputs && FullInputs(h, b) <= inputs
    ensures TopInput(h, a) == TopInput(h, b) && (|a| == 1 <==> |b| == 1)
  {
    hide TopInput, FullRoot, FullInputs;
    TopInputHashes(h, a);
    TopInputHashes(h, b);
    TopInputKind(h, a);
    TopInputKind(h, b);
  }

  lemma HalvesAgree(h: Hash, a: seq<Bytes>, b: seq<Bytes>)
    requires PowerOfTwo(|a|) && PowerOfTwo(|b|) && |a| > 1 && |b| > 1 && TopInput(h, a) == TopInput(h, b)
    ensures FullRoot(h, FirstHalf(a)) == FullRoot(h, FirstHalf(b))
    ensures FullRoot(h, SecondHalf(a)) == FullRoot(h, SecondHalf(b))
  {
    hide FullRoot, FirstHalf, SecondHalf;
    NodeInputInjective(FullRoot(h, FirstHalf(a)), FullRoot(h, SecondHalf(a)),
                       FullRoot(h, FirstHalf(b)), FullRoot(h, SecondHalf(b)));
  }

  lemma HalvesHashed(h: Hash, s: seq<Bytes>)
    requires PowerOfTwo(|s|) && |s| > 1
    ensures FullInputs(h, FirstHalf(s)) <= FullInputs(h, s) && FullInputs(h, SecondHalf(s)) <= FullInputs(h, s)
  {
    hide FullRoot, FirstHalf, SecondHalf;
  }

  lemma HalvesMake(s: seq<Bytes>)
    requires PowerOfTwo(|s|) && |s| > 1
    ensures s == FirstHalf(s) + SecondHalf(s)
  {}

  /** Full trees of any two sizes bind: the prefixes tell leaves from nodes. */
  lemma {:induction false} FullRootBinds(h: Hash, inputs: set<Bytes>, a: seq<Bytes>, b: seq<Bytes>)
    requires PowerOfTwo(|a|) && PowerOfTwo(|b|) && FullRoot(h, a) == FullRoot(h, b)
    requires CollisionFree(h, inputs) && FullInputs(h, a) <= inputs && FullInputs(h, b) <= inputs
    ensures a == b
    decreases |a|
  {
    TopInputsAgree(h, inputs, a, b);
    if |a| == 1 {
      SplitConcat([0], a[0], [0], b[0]);
    } else {
      hide FullRoot, FullInputs, TopInput, PowerOfTwo, CollisionFree, FirstHalf, SecondHalf;
      HalvesHashed(h, a);
      HalvesHashed(h, b);
      HalvesAgree(h, a, b);
      FullRootBinds(h, inputs, FirstHalf(a), FirstHalf(b));
      FullRootBinds(h, inputs, SecondHalf(a), SecondHalf(b));
      HalvesMake(a);
      HalvesMake(b);
    }
  }

  /**
   * Exactly when two batches share a root, unless two of the hashed inputs collide: when filling them up to a power
   * of two, by repeating the last subtree of each odd level, gives the same list.
   */
  lemma RootsEqualExactly(h: Hash, inputs: set<Bytes>, a: seq<Bytes>, b: seq<Bytes>)
    requires a != [] && b != [] && CollisionFree(h, inputs)
    requires BuildInputs(h, a) <= inputs && BuildInputs(h, b) <= inputs
    ensures Root(h, Leaves(h, a)) == Root(h, Leaves(h, b)) <==> Expansion(a) == Expansion(b)
  {
    hide Root, Expansion, BuildInputs;
    var m := RootOfExpansion(h, inputs, a);
    var n := RootOfExpansion(h, inputs, b);
    if Root(h, Leaves(h, a)) == Root(h, Leaves(h, b)) {
      FullRootBinds(h, inputs, Expansion(a), Expansion(b));
    }
  }

  lemma {:induction false} ClimbPrefixInputs(h: Hash, current: Bytes, proof: Proof, m: nat)
    requires m <= |proof|
    ensures ClimbInputs(h, current, proof[..m]) <= ClimbInputs(h, current, proof)
  {
    if m == |proof| {
      assert proof[..m] == proof;
    } else {
      var n := |proof| - 1;
      ClimbPrefixInputs(h, current, proof[..n], m);
      assert proof[..n][..m] == proof[..m];
    }
  }

  /** The input of the last hash of a non-empty climb. */
  lemma LastClimbInput(h: Hash, current: Bytes, proof: Proof, m: nat) returns (x: Bytes)
    requires 0 < m <= |proof|
    ensures x in ClimbInputs(h, current, proof) && h(x) == Climb(h, current, proof[..m])
    ensures x == StepInput(Climb(h, current, proof[..m - 1]), proof[m - 1]) && x[0] == 1
  {
    ClimbPrefixInputs(h, current, proof, m);
    assert proof[..m][..m - 1] == proof[..m - 1];
    x := StepInput(Climb(h, current, proof[..m - 1]), proof[m - 1]);
  }

  lemma StepMeetsNode(below: Bytes, step: Step, left: Digest, right: Digest)
    requires |below| == 32 && StepInput(below, step) == NodeInput(left, right)
    ensures below == left || below == right
  {
    if step.isLeft {
      NodeInputInjective(below, step.sibling, left, right);
    } else {
      NodeInputInjective(step.sibling, below, left, right);
    }
  }

  /** A climb that arrives at a node of the upper level came through the level below. */
  lemma ClimbThroughNode(h: Hash, inputs: set<Bytes>, l: seq<Digest>, j: nat, record: Bytes, proof: Proof, m: nat)
    requires |l| > 0 && j < |Up(h, l)| && m <= |proof|
    requires Climb(h, LeafHash(h, record), proof[..m]) == Up(h, l)[j]
    requires CollisionFree(h, inputs) && LevelInputs(l) <= inputs && CheckInputs(h, record, proof) <= inputs
    ensures m > 0 && Climb(h, LeafHash(h, record), proof[..m - 1]) in l
  {
    hide StepInput, NodeInput;
    var p, start := Padded(l), LeafHash(h, record);
    assert NodeInput(p[2 * j], p[2 * j + 1]) in LevelInputs(l);
    LeafIsNotNode(record, p[2 * j], p[2 * j + 1]);
    assert m > 0;
    var x := LastClimbInput(h, start, proof, m);
    assert x == NodeInput(p[2 * j], p[2 * j + 1]);
    var below := Climb(h, start, proof[..m - 1]);
    ClimbIsDigest(h, start, proof[..m - 1]);
    StepMeetsNode(below, proof[m - 1], p[2 * j], p[2 * j + 1]);
  }

  lemma ClimbIsDigest(h: Hash, current: Digest, proof: Proof)
    ensures |Climb(h, current, proof)| == 32
  {}

  /** A climb that arrives at the root passes through every level of the tree. */
  lemma {:induction false} ClimbThroughLevel(
      h: Hash, inputs: set<Bytes>, l: seq<Digest>, record: Bytes, proof: Proof) returns (m: nat)
    requires |l| > 0 && Proves(h, LeafHash(h, record), proof, Root(h, l))
    requires CollisionFree(h, inputs) && TreeInputs(h, l) <= inputs && CheckInputs(h, record, proof) <= inputs
    ensures m <= |proof| && Climb(h, LeafHash(h, record), proof[..m]) in l
    decreases |l|
  {
    if |l| == 1 {
      m := |proof|;
      assert proof[..m] == proof;
    } else {
      var k := ClimbThroughLevel(h, inputs, Up(h, l), record, proof);
      var j :| 0 <= j < |Up(h, l)| && Up(h, l)[j] == Climb(h, LeafHash(h, record), proof[..k]);
      ClimbThroughNode(h, inputs, l, j, record, proof, k);
      m := k - 1;
    }
  }

  /**
   * Whatever the shape of its proof, a record that verifies against a built root is one of the records,
   * unless two of the hashed inputs collide.
   */
  lemma MembershipBinds(h: Hash, inputs: set<Bytes>, records: seq<Bytes>, record: Bytes, proof: Proof)
    requires records != [] && Proves(h, LeafHash(h, record), proof, Root(h, Leaves(h, records)))
    requires CollisionFree(h, inputs)
    requires BuildInputs(h, records) <= inputs && CheckInputs(h, record, proof) <= inputs
    ensures record in records
  {
    var start := LeafHash(h, record);
    var m := ClimbThroughLevel(h, inputs, Leaves(h, records), record, proof);
    var j :| 0 <= j < |records| && Leaves(h, records)[j] == Climb(h, start, proof[..m]);
    assert LeafInput(records[j]) in LeafInputs(records);
    assert LeafInput(records[j])[0] == 0;
    if m > 0 {
      var x := LastClimbInput(h, start, proof, m);
    }
    assert m == 0;
    assert LeafInput(record) == LeafInput(records[j]);
    SplitConcat([0], record, [0], records[j]);
  }
}
