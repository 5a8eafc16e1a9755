/** The two tree builders: Python's, whose upper levels alias the working list, and C++'s, which copies. */
module MerkleTree {
  import opened Prelude
  import opened Bytes
  import opened Crypto
  import opened Merkle

  /** Level k of the tree over l. */
  ghost function Level(h: Hash, l: seq<Digest>, k: nat): (r: seq<Digest>)
    requires |l| > 0
    ensures |r| > 0
  {
    if k == 0 then l else Up(h, Level(h, l, k - 1))
  }

  /** Levels 0..top are the whole tree. */
  ghost predicate IsTop(h: Hash, l: seq<Digest>, top: nat)
    requires |l| > 0
  {
    |Level(h, l, top)| == 1 && forall k :: 0 <= k < top ==> |Level(h, l, k)| > 1
  }

  /** What Python keeps of level k: upper inner levels were padded through the alias. */
  ghost function Stored(h: Hash, l: seq<Digest>, k: nat): (r: seq<Digest>)
    requires |l| > 0
  {
    var level := Level(h, l, k);
    if k > 0 && |level| > 1 then Padded(level) else level
  }

  /** One round of `build`: padding first changes nothing above, and the root stays what it was. */
  lemma NextLevel(h: Hash, l: seq<Digest>, k: nat)
    requires |l| > 0 && |Level(h, l, k)| > 1
    ensures var level := Level(h, l, k);
      && Padded(Padded(level)) == Padded(level)
      && (k > 0 ==> Stored(h, l, k) == Padded(level))
      && Level(h, l, k + 1) == Up(h, Padded(level))
      && |Level(h, l, k + 1)| < |level|
      && Root(h, Level(h, l, k + 1)) == Root(h, level)
  {
    var level := Level(h, l, k);
    assert Up(h, Padded(level)) == Up(h, level);
  }

  lemma LevelZero(h: Hash, l: seq<Digest>)
    requires |l| > 0
    ensures Level(h, l, 0) == Stored(h, l, 0) == l
  {}

  lemma StoredTop(h: Hash, l: seq<Digest>, k: nat)
    requires |l| > 0 && |Level(h, l, k)| == 1
    ensures Stored(h, l, k) == Level(h, l, k)
  {}

  lemma SingleNode(h: Hash, l: seq<Digest>, out: Proof)
    requires |l| == 1
    ensures Root(h, l) == l[0] && out + InclusionProof(h, l, 0) == out
  {}

  /** The node `get_proof` reads next to `pos`, in a stored or an unpadded level. */
  lemma SiblingIsThere(h: Hash, l: seq<Digest>, k: nat, items: seq<Digest>, pos: nat)
    requires |l| > 0 && pos < |Level(h, l, k)| && |Level(h, l, k)| > 1
    requires items == Stored(h, l, k) || items == Level(h, l, k)
    ensures |Level(h, l, k)| <= |items|
    ensures items[if Sibling(pos) >= |items| then pos else Sibling(pos)] == SiblingNode(Level(h, l, k), pos)
  {
    hide Level, Up;
    var level := Level(h, l, k);
    assert items == level || items == Padded(level);
  }

  /** One round of `get_proof`. */
  lemma NextStep(h: Hash, l: seq<Digest>, k: nat, pos: nat)
    requires |l| > 0 && |Level(h, l, k)| > 1 && pos < |Level(h, l, k)|
    ensures pos / 2 < |Level(h, l, k + 1)|
    ensures InclusionProof(h, Level(h, l, k), pos)
      == [Step(SiblingNode(Level(h, l, k), pos), pos % 2 == 0)] + InclusionProof(h, Level(h, l, k + 1), pos / 2)
  {}

  /** Hash the nodes of an even list pairwise. */
  method PairUp(h: Hash, nodes: seq<Digest>) returns (next: seq<Digest>)
    requires |nodes| > 0 && |nodes| % 2 == 0
    ensures next == Up(h, nodes)
  {
    next := [];
    var i := 0;
    while i < |nodes|
      invariant 0 <= i <= |nodes| && i % 2 == 0
      invariant |next| == i / 2
      invariant forall j :: 0 <= j < |next| ==> next[j] == Up(h, nodes)[j]
    {
      next := next + [h([1] + nodes[i] + nodes[i + 1])];
      i := i + 2;
    }
  }

  /** `verify_proof`: climb from the leaf. */
  method VerifyProof(h: Hash, leaf: Bytes, proof: Proof, root: Bytes) returns (ok: bool)
    ensures ok <==> Proves(h, leaf, proof, root)
  {
    var current := leaf;
    var i := 0;
    while i < |proof|
      invariant 0 <= i <= |proof|
      invariant current == Climb(h, leaf, proof[..i])
    {
      assert proof[..i + 1][..i] == proof[..i];
      current := if proof[i].isLeft then h([1] + current + proof[i].sibling) else h([1] + proof[i].sibling + current);
      i := i + 1;
    }
    assert proof[..i] == proof;
    ok := current == root;
  }

  /** A Python list object. */
  class NodeList {
    var items: seq<Digest>

    constructor (items: seq<Digest>)
      ensures this.items == items
    {
      this.items := items;
    }
  }

  /** Pad the list object itself to an even length, and hash its nodes into a new list. */
  method PadAndPair(h: Hash, current: NodeList) returns (next: NodeList)
    requires |current.items| > 0
    modifies current
    ensures current.items == Padded(old(current.items))
    ensures fresh(next) && next.items == Up(h, Padded(old(current.items)))
  {
    if |current.items| % 2 == 1 {
      current.items := current.items + [current.items[|current.items| - 1]];
    }
    var parents := PairUp(h, current.items);
    next := new NodeList(parents);
  }

  class MerkleTree {
    const h: Hash
    var leaves: seq<Digest>
    var records: seq<Bytes>
    var tree: seq<NodeList>
    var built: bool

    ghost predicate Valid()
      reads this, tree
    {
      && leaves == Leaves(h, records)
      && (built ==> |leaves| > 0 && |tree| > 0 && IsTop(h, leaves, |tree| - 1)
                    && forall k :: 0 <= k < |tree| ==> tree[k].items == Stored(h, leaves, k))
    }

    constructor (h: Hash)
      ensures this.h == h && Valid() && records == [] && tree == []
    {
      this.h := h;
      leaves, records, tree, built := [], [], [], false;
      new;
      assert Leaves(h, []) == [];
    }

    method Append(record: Bytes)
      requires Valid()
      modifies this
      ensures Valid() && records == old(records) + [record] && tree == old(tree)
    {
      leaves := leaves + [h([0] + record)];
      records := records + [record];
      built := false;
    }

    /** Pads `current` in place, so every stored level above the leaves gets its padding too. */
    method Build() returns (root: Bytes)
      requires Valid()
      modifies this
      ensures Valid() && records == old(records)
      ensures records == [] ==> root == [] && tree == old(tree)
      ensures records != [] ==> root == Root(h, Leaves(h, records)) && built && fresh(tree)
    {
      hide Up, Root, Level, Stored, Padded;
      if leaves == [] { return []; }
      LevelZero(h, leaves);
      var first := new NodeList(leaves);
      var current := new NodeList(leaves);
      var levels := [first];
      while |current.items| > 1
        invariant unchanged(this)
        invariant fresh(levels) && fresh(current) && |levels| > 0
        invariant forall k :: 0 <= k < |levels| - 1 ==> levels[k] != current
        invariant |levels| == 1 ==> current != levels[0]
        invariant |levels| > 1 ==> current == levels[|levels| - 1]
        invariant current.items == Level(h, leaves, |levels| - 1)
        invariant levels[0].items == leaves
        invariant forall k :: 0 < k < |levels| - 1 ==> levels[k].items == Stored(h, leaves, k)
        invariant forall k :: 0 <= k < |levels| - 1 ==> |Level(h, leaves, k)| > 1
        invariant Root(h, current.items) == Root(h, leaves)
        decreases |current.items|
      {
        NextLevel(h, leaves, |levels| - 1);
        var next := PadAndPair(h, current);
        levels := levels + [next];
        current := next;
      }
      SingleNode(h, current.items, []);
      StoredTop(h, leaves, |levels| - 1);
      tree := levels;
      built := true;
      root := current.items[0];
    }

    /** `get_proof`; an index past the leaves raises. */
    method GetProof(idx: nat) returns (r: Outcome<Proof>)
      requires Valid()
      modifies this
      ensures Valid() && records == old(records)
      ensures old(built) ==> tree == old(tree) && built
      ensures !old(built) ==> tree == old(tree) || fresh(tree)
      ensures r == if idx < |records| then Ok(InclusionProof(h, Leaves(h, records), idx)) else Raised
    {
      if !built {
        var _ := Build();
      }
      if idx >= |leaves| { return Raised; }
      var proof := ClimbLevels(idx);
      r := Ok(proof);
    }

    method ClimbLevels(idx: nat) returns (proof: Proof)
      requires Valid() && built && idx < |leaves|
      ensures proof == InclusionProof(h, leaves, idx)
    {
      hide Up, Level, Stored, SiblingNode, InclusionProof, Leaves;
      LevelZero(h, leaves);
      proof := [];
      var pos: nat, level: nat := idx, 0;
      while level < |tree| - 1
        invariant 0 <= level <= |tree| - 1
        invariant pos < |Level(h, leaves, level)|
        invariant proof + InclusionProof(h, Level(h, leaves, level), pos) == InclusionProof(h, leaves, idx)
      {
        SiblingIsThere(h, leaves, level, tree[level].items, pos);
        var sibling := if pos % 2 == 0 then pos + 1 else pos - 1;
        if sibling >= |tree[level].items| {
          sibling := pos;
        }
        var step := Step(tree[level].items[sibling], pos % 2 == 0);
        NextStep(h, leaves, level, pos);
        Associative(proof, [step], InclusionProof(h, Level(h, leaves, level + 1), pos / 2));
        proof := proof + [step];
        pos := pos / 2;
        level := level + 1;
      }
      SingleNode(h, Level(h, leaves, level), proof);
    }
  }

  /** The native tree: every stored level is an unpadded copy. */
  class NativeMerkleTree {
    const h: Hash
    var leaves: seq<Digest>
    var records: seq<Bytes>
    var levels: seq<seq<Digest>>

    ghost predicate Valid()
      reads this
    {
      leaves == Leaves(h, records)
    }

    /** The levels were built from the current leaves. */
    ghost predicate Built()
      reads this
    {
      && Valid() && |leaves| > 0 && |levels| > 0 && IsTop(h, leaves, |levels| - 1)
      && forall k :: 0 <= k < |levels| ==> levels[k] == Level(h, leaves, k)
    }

    constructor (h: Hash)
      ensures this.h == h && Valid() && records == []
    {
      this.h := h;
      leaves, records, levels := [], [], [];
      new;
      assert Leaves(h, []) == [];
    }

    method Append(record: Bytes)
      requires Valid()
      modifies this
      ensures Valid() && records == old(records) + [record]
    {
      leaves := leaves + [h([0] + record)];
      records := records + [record];
    }

    method Build() returns (root: Bytes)
      requires Valid()
      modifies this
      ensures Valid() && records == old(records)
      ensures records == [] ==> root == []
      ensures records != [] ==> root == Root(h, Leaves(h, records)) && Built()
    {
      hide Up, Root, Level, Stored;
      if leaves == [] { return []; }
      LevelZero(h, leaves);
      levels := [leaves];
      var current := leaves;
      while |current| > 1
        invariant leaves == old(leaves) && records == old(records) && |levels| > 0
        invariant current == Level(h, leaves, |levels| - 1)
        invariant forall k :: 0 <= k < |levels| ==> levels[k] == Level(h, leaves, k)
        invariant forall k :: 0 <= k < |levels| - 1 ==> |Level(h, leaves, k)| > 1
        invariant Root(h, current) == Root(h, leaves)
        decreases |current|
      {
        ghost var level := current;
        NextLevel(h, leaves, |levels| - 1);
        if |current| % 2 == 1 {
          current := current + [current[|current| - 1]];
        }
        assert current == Padded(level);
        var next := PairUp(h, current);
        levels := levels + [next];
        current := next;
      }
      SingleNode(h, current, []);
      root := levels[|levels| - 1][0];
    }

    method GetProof(idx: nat) returns (r: Outcome<Proof>)
      requires Built()
      ensures r == if idx < |records| then Ok(InclusionProof(h, Leaves(h, records), idx)) else Raised
    {
      hide Up, Level, Stored, SiblingNode, InclusionProof;
      if idx >= |leaves| { return Raised; }
      LevelZero(h, leaves);
      var out: Proof := [];
      var pos: nat, level: nat := idx, 0;
      while level + 1 < |levels|
        invariant 0 <= level <= |levels| - 1
        invariant pos < |Level(h, leaves, level)|
        invariant out + InclusionProof(h, Level(h, leaves, level), pos) == InclusionProof(h, leaves, idx)
      {
        SiblingIsThere(h, leaves, level, levels[level], pos);
        var sibling := if pos % 2 == 0 then pos + 1 else pos - 1;
        if sibling >= |levels[level]| {
          sibling := pos;
        }
        var step := Step(levels[level][sibling], pos % 2 == 0);
        NextStep(h, leaves, level, pos);
        Associative(out, [step], InclusionProof(h, Level(h, leaves, level + 1), pos / 2));
        out := out + [step];
        pos := pos / 2;
        level := level + 1;
      }
      SingleNode(h, Level(h, leaves, level), out);
      r := Ok(out);
    }
  }

  /** The aliased build and the copying build agree on the root and on every proof. */
  method BuildersAgree(py: MerkleTree, native: NativeMerkleTree, idx: nat)
    returns (sameRoot: bool, sameProof: bool)
    requires py.Valid() && native.Valid()
    requires py.h == native.h && py.records == native.records && idx < |py.records|
    modifies py, native
    ensures sameRoot && sameProof
  {
    var r0 := py.Build();
    var r1 := native.Build();
    var p0 := py.GetProof(idx);
    var p1 := native.GetProof(idx);
    sameRoot, sameProof := r0 == r1, p0 == p1;
  }
}
