/** The linear hash chain: C_0 = H(seed), C_i = H(C_{i-1} || record_i). */
module HashChain {
  import opened Bytes
  import opened Crypto

  type Hash = Bytes -> Digest

  function Head(h: Hash, seed: Bytes, records: seq<Bytes>): Digest {
    if records == [] then h(seed)
    else var n := |records| - 1; h(Head(h, seed, records[..n]) + records[n])
  }

  /** C_0..C_n. */
  function Values(h: Hash, seed: Bytes, records: seq<Bytes>): (v: seq<Digest>)
    ensures |v| == |records| + 1
  {
    seq(|records| + 1, i requires 0 <= i < |records| + 1 => Head(h, seed, records[..i]))
  }

  /** Everything hashed along the chain. */
  ghost function ChainInputs(h: Hash, seed: Bytes, records: seq<Bytes>): set<Bytes> {
    if records == [] then {seed}
    else var n := |records| - 1;
      ChainInputs(h, seed, records[..n]) + {Head(h, seed, records[..n]) + records[n]}
  }

  /** Equal heads over equally many records come from one seed and one record list, unless inputs collide. */
  lemma {:induction false} HeadBinds(
      h: Hash, inputs: set<Bytes>, seedA: Bytes, a: seq<Bytes>, seedB: Bytes, b: seq<Bytes>)
    requires |a| == |b| && Head(h, seedA, a) == Head(h, seedB, b)
    requires CollisionFree(h, inputs)
    requires ChainInputs(h, seedA, a) <= inputs && ChainInputs(h, seedB, b) <= inputs
    ensures seedA == seedB && a == b
  {
    if a == [] {
      assert seedA in ChainInputs(h, seedA, a) && seedB in ChainInputs(h, seedB, b);
    } else {
      var n := |a| - 1;
      var x, y := Head(h, seedA, a[..n]), Head(h, seedB, b[..n]);
      assert x + a[n] in ChainInputs(h, seedA, a) && y + b[n] in ChainInputs(h, seedB, b);
      SplitConcat(x, a[n], y, b[n]);
      HeadBinds(h, inputs, seedA, a[..n], seedB, b[..n]);
      assert a == a[..n] + [a[n]] && b == b[..n] + [b[n]];
    }
  }

  /** The last link alone already binds the last record. */
  lemma LastRecordBinds(h: Hash, inputs: set<Bytes>, seedA: Bytes, a: seq<Bytes>, seedB: Bytes, b: seq<Bytes>)
    requires a != [] && b != [] && Head(h, seedA, a) == Head(h, seedB, b)
    requires CollisionFree(h, inputs)
    requires ChainInputs(h, seedA, a) <= inputs && ChainInputs(h, seedB, b) <= inputs
    ensures a[|a| - 1] == b[|b| - 1]
  {
    var m, n := |a| - 1, |b| - 1;
    var x, y := Head(h, seedA, a[..m]), Head(h, seedB, b[..n]);
    assert x + a[m] in ChainInputs(h, seedA, a) && y + b[n] in ChainInputs(h, seedB, b);
    SplitConcat(x, a[m], y, b[n]);
  }

  lemma AppendRecord(h: Hash, seed: Bytes, records: seq<Bytes>, record: Bytes)
    ensures Head(h, seed, records + [record]) == h(Head(h, seed, records) + record)
    ensures Values(h, seed, records + [record]) == Values(h, seed, records) + [h(Head(h, seed, records) + record)]
  {
    var more := records + [record];
    assert more[..|records|] == records;
    assert more[..|more|] == more;
    forall i | 0 <= i <= |records| ensures Head(h, seed, more[..i]) == Head(h, seed, records[..i]) {
      assert more[..i] == records[..i];
    }
  }

  class HashChain {
    const h: Hash
    const seed: Bytes
    var chain: seq<Digest>
    var records: seq<Bytes>

    ghost predicate Valid()
      reads this
    {
      chain == Values(h, seed, records)
    }

    constructor (h: Hash, seed: Bytes)
      ensures this.h == h && this.seed == seed && Valid() && records == []
    {
      this.h, this.seed := h, seed;
      chain, records := [h(seed)], [];
    }

    method Append(record: Bytes) returns (head: Digest)
      requires Valid()
      modifies this
      ensures Valid() && records == old(records) + [record]
      ensures head == Head(h, seed, records)
    {
      AppendRecord(h, seed, records, record);
      assert records[..|records|] == records;
      var prev := chain[|chain| - 1];
      head := h(prev + record);
      chain := chain + [head];
      records := records + [record];
    }

    method CurrentHead() returns (head: Digest)
      requires Valid()
      ensures head == Head(h, seed, records)
    {
      assert records[..|records|] == records;
      head := chain[|chain| - 1];
    }

    /** `verify_full`: recompute every link and compare the end. */
    method VerifyFull(given: seq<Bytes>, expectedHead: Bytes) returns (ok: bool)
      ensures ok <==> Head(h, seed, given) == expectedHead
    {
      var c := h(seed);
      var i := 0;
      while i < |given|
        invariant 0 <= i <= |given|
        invariant c == Head(h, seed, given[..i])
      {
        assert given[..i + 1][..i] == given[..i];
        c := h(c + given[i]);
        i := i + 1;
      }
      assert given[..i] == given;
      ok := c == expectedHead;
    }
  }
}
