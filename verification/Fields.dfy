/** Byte formats as lists of fixed-width and length-prefixed fields, and why they decode uniquely. */
module Fields {
  import opened Bytes

  /** `Sized` is preceded by its own length in `width` big-endian bytes. */
  datatype Field = Fixed(bytes: Bytes) | Sized(bytes: Bytes, width: nat)

  function Part(f: Field): Bytes {
    match f
    case Fixed(b) => b
    case Sized(b, width) => BigEndian(|b|, width) + b
  }

  function Encode(fs: seq<Field>): Bytes {
    if fs == [] then [] else Part(fs[0]) + Encode(fs[1..])
  }

  /** The two fields take the same number of bytes to delimit. */
  predicate SameShape(f: Field, g: Field) {
    match (f, g)
    case (Fixed(a), Fixed(b)) => |a| == |b|
    case (Sized(a, v), Sized(b, w)) => v == w && |a| < Pow256(v) && |b| < Pow256(w)
    case (_, _) => false
  }

  lemma SizedInjective(a: Bytes, restA: Bytes, b: Bytes, restB: Bytes, width: nat)
    requires |a| < Pow256(width) && |b| < Pow256(width)
    requires BigEndian(|a|, width) + (a + restA) == BigEndian(|b|, width) + (b + restB)
    ensures a == b && restA == restB
  {
    SplitConcat(BigEndian(|a|, width), a + restA, BigEndian(|b|, width), b + restB);
    NumberOfBigEndian(|a|, width);
    NumberOfBigEndian(|b|, width);
    SplitConcat(a, restA, b, restB);
  }

  lemma PartInjective(f: Field, restF: Bytes, g: Field, restG: Bytes)
    requires SameShape(f, g)
    requires Part(f) + restF == Part(g) + restG
    ensures f == g && restF == restG
  {
    match (f, g) {
      case (Fixed(a), Fixed(b)) =>
        SplitConcat(a, restF, b, restG);
      case (Sized(a, v), Sized(b, w)) =>
        Associative(BigEndian(|a|, v), a, restF);
        Associative(BigEndian(|b|, w), b, restG);
        SizedInjective(a, restF, b, restG, v);
    }
  }

  /** Field lists of one shape with equal encodings are equal, whatever follows them. */
  lemma {:induction false} EncodeInjective(fs: seq<Field>, restF: Bytes, gs: seq<Field>, restG: Bytes)
    requires |fs| == |gs|
    requires forall i :: 0 <= i < |fs| ==> SameShape(fs[i], gs[i])
    requires Encode(fs) + restF == Encode(gs) + restG
    ensures fs == gs && restF == restG
  {
    if fs == [] {
      assert Encode(fs) + restF == restF && Encode(gs) + restG == restG;
    } else {
      Associative(Part(fs[0]), Encode(fs[1..]), restF);
      Associative(Part(gs[0]), Encode(gs[1..]), restG);
      PartInjective(fs[0], Encode(fs[1..]) + restF, gs[0], Encode(gs[1..]) + restG);
      EncodeInjective(fs[1..], restF, gs[1..], restG);
      assert fs == [fs[0]] + fs[1..] && gs == [gs[0]] + gs[1..];
    }
  }
}
