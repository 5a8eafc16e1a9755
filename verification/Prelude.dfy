/** Shared value types: optional values and outcomes of code that may raise. */
module Prelude {

  datatype Option<+T> = None | Some(value: T)

  /** `Raised` stands for a ValueError/RegistryError that leaves the function. */
  datatype Outcome<+T> = Ok(value: T) | Raised

  /** All elements at different indices differ. */
  ghost predicate Distinct<T>(s: seq<T>) {
    forall i, j :: 0 <= i < j < |s| ==> s[i] != s[j]
  }

  /** The elements of a sequence, as a set. */
  function Elements<T(==)>(s: seq<T>): set<T> {
    set x | x in s
  }

  /** A duplicate-free sequence has as many elements as its set. */
  lemma {:induction false} DistinctCardinality<T>(s: seq<T>)
    ensures |Elements(s)| <= |s|
    ensures Distinct(s) <==> |Elements(s)| == |s|
  {
    if s != [] {
      var front, last := s[..|s| - 1], s[|s| - 1];
      DistinctCardinality(front);
      assert s == front + [last];
      assert Elements(s) == Elements(front) + {last};
      if last in front {
        assert Elements(s) == Elements(front);
      }
    }
  }

  /** A subset is no larger. */
  lemma {:induction false} SubsetCardinality<T>(a: set<T>, b: set<T>)
    requires a <= b
    ensures |a| <= |b|
    decreases |a|
  {
    if a != {} {
      var x :| x in a;
      SubsetCardinality(a - {x}, b - {x});
    }
  }

  /** In a duplicate-free sequence every element occurs once. */
  lemma {:induction false} DistinctCounts<T>(s: seq<T>, x: T)
    requires Distinct(s)
    ensures multiset(s)[x] == if x in s then 1 else 0
  {
    if s != [] {
      var front, last := s[..|s| - 1], s[|s| - 1];
      assert s == front + [last];
      DistinctCounts(front, x);
      assert last !in front;
    }
  }

  /** Different elements that all occur in an equally long list are that list, up to order. */
  lemma DistinctFills<T>(a: seq<T>, b: seq<T>)
    requires Distinct(a) && |a| == |b| && forall x :: x in a ==> x in b
    ensures multiset(a) == multiset(b)
  {
    DistinctCardinality(a);
    DistinctCardinality(b);
    SubsetCardinality(Elements(a), Elements(b));
    SubsetOfSameSize(Elements(a), Elements(b));
    forall x ensures multiset(a)[x] == multiset(b)[x] {
      DistinctCounts(a, x);
      DistinctCounts(b, x);
      assert x in a <==> x in Elements(a);
      assert x in b <==> x in Elements(b);
    }
  }

  lemma SubsetOfSameSize<T>(a: set<T>, b: set<T>)
    requires a <= b && |a| >= |b|
    ensures a == b
  {
    assert b == a + (b - a);
    assert |b| == |a| + |b - a|;
  }

  lemma MultisetOfConcat<T>(a: seq<T>, b: seq<T>)
    ensures multiset(a + b) == multiset(a) + multiset(b)
  {}

  /** Taking an element out of the middle of a list. */
  lemma MultisetWithout<T>(s: seq<T>, i: nat)
    requires i < |s|
    ensures multiset(s[..i] + s[i + 1..]) == multiset(s) - multiset{s[i]}
  {
    var rest := s[..i] + s[i + 1..];
    assert s == s[..i] + [s[i]] + s[i + 1..];
    assert multiset(s) == multiset(rest) + multiset{s[i]};
  }

  /** The first element with a given key. */
  function FirstWith<T, K(==)>(s: seq<T>, key: T -> K, id: K): (r: Option<T>)
    ensures r.Some? ==> r.value in s && key(r.value) == id
    ensures r.None? ==> forall x :: x in s ==> key(x) != id
  {
    if s == [] then None else if key(s[0]) == id then Some(s[0]) else FirstWith(s[1..], key, id)
  }

  /** Of several elements with the key the first one is found. */
  lemma {:induction false} FirstIsFound<T, K>(s: seq<T>, key: T -> K, i: nat)
    requires i < |s| && forall j :: 0 <= j < i ==> key(s[j]) != key(s[i])
    ensures FirstWith(s, key, key(s[i])) == Some(s[i])
  {
    if i > 0 {
      assert key(s[0]) != key(s[i]);
      assert forall j :: 0 <= j < i - 1 ==> s[1..][j] == s[j + 1];
      FirstIsFound(s[1..], key, i - 1);
    }
  }

  lemma QuotientMonotone(d: int, p: int, r: int, q: int, s: int)
    requires d >= 1 && 0 <= r < d && 0 <= s < d && d * p + r <= d * q + s
    ensures p <= q
  {
    if p > q {
      MultiplyMonotone(d, q + 1, p);
      assert false;
    }
  }

  lemma MultiplyMonotone(d: int, a: int, b: int)
    requires d >= 1 && a <= b
    ensures d * a <= d * b
  {
    assert d * (b - a) >= 0;
  }

  /** Quotient and remainder are unique. */
  lemma QuotientOf(q: int, n: int, r: int)
    requires n >= 1 && 0 <= r < n
    ensures (n * q + r) / n == q && (n * q + r) % n == r
  {
    var x := n * q + r;
    QuotientMonotone(n, q, r, x / n, x % n);
    QuotientMonotone(n, x / n, x % n, q, r);
  }

  function Min(a: int, b: int): int { if a < b then a else b }
  function Max(a: int, b: int): int { if a < b then b else a }
}
