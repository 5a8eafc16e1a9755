/** Text as UTF-8 bytes, decimal and hexadecimal printing, and the canonical stream identity. */
module Text {
  import opened Bytes

  // ---- UTF-8 (RFC 3629, the strict decoder) ----

  predicate Continuation(b: byte) { 0x80 <= b <= 0xBF }

  /** Length of the well-formed UTF-8 sequence that starts the input; 0 when there is none. */
  function RuneLength(b: Bytes): (n: nat)
    ensures n <= |b|
  {
    if |b| >= 1 && b[0] < 0x80 then 1
    else if |b| >= 2 && 0xC2 <= b[0] <= 0xDF && Continuation(b[1]) then 2
    else if |b| >= 3 && 0xE0 <= b[0] <= 0xEF && Continuation(b[1]) && Continuation(b[2])
            && (b[0] == 0xE0 ==> b[1] >= 0xA0) && (b[0] == 0xED ==> b[1] <= 0x9F) then 3
    else if |b| >= 4 && 0xF0 <= b[0] <= 0xF4
            && Continuation(b[1]) && Continuation(b[2]) && Continuation(b[3])
            && (b[0] == 0xF0 ==> b[1] >= 0x90) && (b[0] == 0xF4 ==> b[1] <= 0x8F) then 4
    else 0
  }

  predicate Utf8(b: Bytes)
    decreases |b|
  {
    b == [] || (RuneLength(b) > 0 && Utf8(b[RuneLength(b)..]))
  }

  /** A Python `str`, kept as its UTF-8 encoding. */
  type Text = b: Bytes | Utf8(b) witness []

  lemma RuneLengthExtends(a: Bytes, b: Bytes)
    requires RuneLength(a) > 0
    ensures RuneLength(a + b) == RuneLength(a)
  {
    assert forall i :: 0 <= i < |a| ==> (a + b)[i] == a[i];
  }

  lemma {:induction false} Utf8Concat(a: Bytes, b: Bytes)
    requires Utf8(a) && Utf8(b)
    ensures Utf8(a + b)
    decreases |a|
  {
    hide RuneLength;
    if a == [] {
      assert a + b == b;
    } else {
      var n := RuneLength(a);
      Utf8Concat(a[n..], b);
      RuneLengthExtends(a, b);
      assert (a + b)[n..] == a[n..] + b;
    }
  }

  // ---- What UTF-8 is: the encodings of Unicode scalar values ----

  /** Every code point but the surrogates. */
  predicate Scalar(cp: int) { 0 <= cp < 0xD800 || 0xE000 <= cp < 0x11_0000 }

  /** One scalar value in as few bytes as hold it (RFC 3629, section 3). */
  function Rune(cp: int): (r: Bytes)
    requires Scalar(cp)
    ensures r != []
  {
    if cp < 0x80 then [cp]
    else if cp < 0x800 then [0xC0 + cp / 64, 0x80 + cp % 64]
    else if cp < 0x1_0000 then [0xE0 + cp / 4096, 0x80 + cp / 64 % 64, 0x80 + cp % 64]
    else [0xF0 + cp / 262_144, 0x80 + cp / 4096 % 64, 0x80 + cp / 64 % 64, 0x80 + cp % 64]
  }

  predicate Scalars(cps: seq<int>) { forall i :: 0 <= i < |cps| ==> Scalar(cps[i]) }

  function Runes(cps: seq<int>): Bytes
    requires Scalars(cps)
  {
    if cps == [] then [] else Rune(cps[0]) + Runes(cps[1..])
  }

  lemma RuneIsRead(cp: int, rest: Bytes)
    requires Scalar(cp)
    ensures RuneLength(Rune(cp) + rest) == |Rune(cp)|
  {
    hide RuneLength;
    RuneHasLength(cp);
    RuneLengthExtends(Rune(cp), rest);
  }

  lemma RuneHasLength(cp: int)
    requires Scalar(cp)
    ensures RuneLength(Rune(cp)) == |Rune(cp)|
  {}

  /** The scalar value at the start of well-formed input. */
  lemma RuneAt(b: Bytes) returns (cp: int)
    requires RuneLength(b) > 0
    ensures Scalar(cp) && Rune(cp) == b[..RuneLength(b)]
  {
    var n := RuneLength(b);
    if n <= 2 {
      cp := ShortRuneAt(b);
    } else if n == 3 {
      cp := ThreeBytesAt(b);
    } else {
      cp := FourBytesAt(b);
    }
  }

  lemma ShortRuneAt(b: Bytes) returns (cp: int)
    requires 0 < RuneLength(b) <= 2
    ensures Scalar(cp) && Rune(cp) == b[..RuneLength(b)]
  {
    cp := if RuneLength(b) == 1 then b[0] else Digits64(b[0] - 0xC0, b[1] - 0x80);
  }

  lemma ThreeBytesAt(b: Bytes) returns (cp: int)
    requires RuneLength(b) == 3
    ensures Scalar(cp) && Rune(cp) == b[..3]
  {
    DigitsOf(b[0] - 0xE0, b[1] - 0x80, b[2] - 0x80);
    cp := Digits64(Digits64(b[0] - 0xE0, b[1] - 0x80), b[2] - 0x80);
  }

  lemma FourBytesAt(b: Bytes) returns (cp: int)
    requires RuneLength(b) == 4
    ensures Scalar(cp) && Rune(cp) == b[..4]
  {
    var high := Digits64(b[0] - 0xF0, b[1] - 0x80);
    DigitsOf(high, b[2] - 0x80, b[3] - 0x80);
    cp := Digits64(Digits64(high, b[2] - 0x80), b[3] - 0x80);
    assert cp / 262_144 == high / 64;
  }

  function Digits64(a: int, b: int): int { 64 * a + b }

  /** Three digits to the base 64. */
  lemma DigitsOf(a: int, b: int, c: int)
    requires 0 <= a && 0 <= b < 64 && 0 <= c < 64
    ensures var n := 64 * (64 * a + b) + c; n / 4096 == a && n / 64 % 64 == b && n % 64 == c && n / 64 == 64 * a + b
  {}

  /** Text is exactly what encodes a sequence of scalar values. */
  lemma {:induction false} Utf8Exactly(b: Bytes)
    ensures Utf8(b) <==> exists cps: seq<int> :: Scalars(cps) && Runes(cps) == b
    decreases |b|
  {
    if Utf8(b) {
      var cps := ReadRunes(b);
    }
    if cps: seq<int> :| Scalars(cps) && Runes(cps) == b {
      RunesAreText(cps);
    }
  }

  lemma {:induction false} ReadRunes(b: Bytes) returns (cps: seq<int>)
    requires Utf8(b)
    ensures Scalars(cps) && Runes(cps) == b
    decreases |b|
  {
    hide RuneLength, Rune, Scalar;
    if b == [] {
      cps := [];
    } else {
      var n := RuneLength(b);
      var cp := RuneAt(b);
      var rest := ReadRunes(b[n..]);
      cps := [cp] + rest;
      assert cps[1..] == rest && b == b[..n] + b[n..];
    }
  }

  lemma {:induction false} RunesAreText(cps: seq<int>)
    requires Scalars(cps)
    ensures Utf8(Runes(cps))
  {
    hide RuneLength, Rune, Scalar;
    if cps != [] {
      RunesAreText(cps[1..]);
      var r, rest := Rune(cps[0]), Runes(cps[1..]);
      RuneIsRead(cps[0], rest);
      assert (r + rest)[|r|..] == rest;
    }
  }

  // ---- ASCII ----

  predicate Ascii(b: Bytes) { forall i :: 0 <= i < |b| ==> b[i] < 128 }

  lemma {:induction false} AsciiIsUtf8(b: Bytes)
    requires Ascii(b)
    ensures Utf8(b)
  {
    if b != [] {
      AsciiIsUtf8(b[1..]);
    }
  }

  /** The bytes of an ASCII literal. */
  function Literal(s: string): (b: Bytes)
    requires forall i :: 0 <= i < |s| ==> s[i] as int < 128
    ensures |b| == |s| && Ascii(b)
    ensures forall i :: 0 <= i < |s| ==> b[i] == s[i] as int
  {
    seq(|s|, i requires 0 <= i < |s| => s[i] as int)
  }

  // ---- Printing ----

  const COLON: byte := ':' as int

  predicate Digits(b: Bytes) { forall i :: 0 <= i < |b| ==> '0' as int <= b[i] <= '9' as int }

  /** `str(n)`. */
  function Decimal(n: nat): (b: Bytes)
    ensures |b| > 0 && Digits(b)
  {
    if n < 10 then [n + '0' as int] else Decimal(n / 10) + [n % 10 + '0' as int]
  }

  /** The number a digit string denotes. */
  function DecimalValue(b: Bytes): int {
    if b == [] then 0 else DecimalValue(b[..|b| - 1]) * 10 + (b[|b| - 1] - '0' as int)
  }

  lemma {:induction false} DecimalRoundTrip(n: nat)
    ensures DecimalValue(Decimal(n)) == n
  {
    var d := Decimal(n);
    if n < 10 {
      assert d[..|d| - 1] == [];
    } else {
      DecimalRoundTrip(n / 10);
      assert d[..|d| - 1] == Decimal(n / 10);
    }
  }

  function HexDigit(n: nat): byte
    requires n < 16
  {
    if n < 10 then n + '0' as int else n - 10 + 'a' as int
  }

  /** `bytes.hex()`. */
  function Hex(b: Bytes): (h: Bytes)
    ensures |h| == 2 * |b| && Ascii(h)
  {
    if b == [] then [] else [HexDigit(b[0] / 16), HexDigit(b[0] % 16)] + Hex(b[1..])
  }

  // ---- Stream identity (stream_identity.py) ----

  /** One length-prefixed component: decimal byte length, a colon, the bytes. */
  function Component(text: Bytes): Bytes {
    Decimal(|text|) + [COLON] + text
  }

  lemma ComponentIsUtf8(text: Text)
    ensures Utf8(Component(text))
  {
    AsciiIsUtf8(Decimal(|text|) + [COLON]);
    Utf8Concat(Decimal(|text|) + [COLON], text);
  }

  function CanonicalStreamId(clientId: Text, topic: Text): Text {
    ComponentIsUtf8(clientId);
    ComponentIsUtf8(topic);
    Utf8Concat(Component(clientId), Component(topic));
    Component(clientId) + Component(topic)
  }

  /** Digit strings before the first colon of equal inputs are equal. */
  lemma FirstColon(a: Bytes, restA: Bytes, b: Bytes, restB: Bytes)
    requires Digits(a) && Digits(b)
    requires a + [COLON] + restA == b + [COLON] + restB
    ensures a == b && restA == restB
  {
    var whole := a + [COLON] + restA;
    assert forall i :: 0 <= i < |a| ==> whole[i] == a[i];
    assert forall i :: 0 <= i < |b| ==> whole[i] == b[i];
    assert whole[|a|] == COLON && whole[|b|] == COLON;
    assert |a| == |b|;
    assert a + ([COLON] + restA) == whole;
    assert b + ([COLON] + restB) == whole;
    SplitConcat(a, [COLON] + restA, b, [COLON] + restB);
    SplitConcat([COLON], restA, [COLON], restB);
  }

  /** A component is decodable whatever follows it. */
  lemma ComponentPrefixFree(a: Bytes, restA: Bytes, b: Bytes, restB: Bytes)
    requires Component(a) + restA == Component(b) + restB
    ensures a == b && restA == restB
  {
    assert Component(a) + restA == Decimal(|a|) + [COLON] + (a + restA);
    assert Component(b) + restB == Decimal(|b|) + [COLON] + (b + restB);
    FirstColon(Decimal(|a|), a + restA, Decimal(|b|), b + restB);
    DecimalRoundTrip(|a|);
    DecimalRoundTrip(|b|);
    SplitConcat(a, restA, b, restB);
  }

  /** Equal stream identities name the same client and the same topic, colons and digits included. */
  lemma StreamIdInjective(client0: Text, topic0: Text, client1: Text, topic1: Text)
    requires CanonicalStreamId(client0, topic0) == CanonicalStreamId(client1, topic1)
    ensures client0 == client1 && topic0 == topic1
  {
    ComponentPrefixFree(client0, Component(topic0), client1, Component(topic1));
    assert Component(topic0) + [] == Component(topic0);
    assert Component(topic1) + [] == Component(topic1);
    ComponentPrefixFree(topic0, [], topic1, []);
  }
}
