/** Versioned MQTT wire envelopes: encoding, strict parsing, and the three disjoint signed formats. */
module Wire {
  import opened Prelude
  import opened Bytes
  import opened Text
  import opened Codec

  const WIRE_MAGIC: Bytes := Literal("AAPA")
  const WIRE_VERSION := 1
  const WIRE_AUTH_MAC := 1
  const WIRE_AUTH_SIGNATURE := 2
  const HEADER_SIZE := 30

  datatype Envelope = Envelope(
    version: int, authKind: int, algorithm: Text, keyId: Text, sessionId: Text,
    epoch: int, seqNo: int, record: Bytes, authenticator: Bytes)

  /** The metadata is ASCII and every value fits its header field. */
  predicate HeaderFits(e: Envelope) {
    && 0 <= e.version < 256 && 0 <= e.authKind < 256
    && Ascii(e.algorithm) && Ascii(e.keyId) && Ascii(e.sessionId)
    && |e.algorithm| <= MAX_U16 && |e.keyId| <= MAX_U16 && |e.sessionId| <= MAX_U16
    && 0 <= e.epoch <= MAX_U32 && 0 <= e.seqNo <= MAX_U64 && |e.record| <= MAX_U32
  }

  function Header(e: Envelope): (h: Bytes)
    requires HeaderFits(e)
    ensures |h| == HEADER_SIZE
  {
    WIRE_MAGIC + [e.version, e.authKind, 0, 0] + U32(e.epoch) + U64(e.seqNo)
    + U16(|e.algorithm|) + U16(|e.keyId|) + U16(|e.sessionId|) + U32(|e.record|)
  }

  function Payload(e: Envelope): Bytes {
    e.algorithm + e.keyId + e.sessionId + e.record
  }

  function WireBody(e: Envelope): Bytes
    requires HeaderFits(e)
  {
    Header(e) + Payload(e)
  }

  /** A known authentication kind and the two mandatory identifiers. */
  predicate Supported(e: Envelope) {
    e.authKind in {WIRE_AUTH_MAC, WIRE_AUTH_SIGNATURE} && e.algorithm != [] && e.keyId != []
  }

  /** `unsigned_bytes`: the authenticated bytes. */
  function UnsignedBytes(e: Envelope): Outcome<Bytes> {
    if HeaderFits(e) && Supported(e) then Ok(WireBody(e)) else Raised
  }

  predicate EnvelopeFits(e: Envelope) { HeaderFits(e) && |e.authenticator| <= MAX_U16 }

  function EnvelopeBytes(e: Envelope): Bytes
    requires EnvelopeFits(e)
  {
    WireBody(e) + U16(|e.authenticator|) + e.authenticator
  }

  /** `serialize`. */
  function SerializeEnvelope(e: Envelope): Outcome<Bytes> {
    if EnvelopeFits(e) && Supported(e) then Ok(EnvelopeBytes(e)) else Raised
  }

  /** The parser knows version 1 only, and reads any kind and empty identifiers. */
  predicate IsEnvelope(data: Bytes, e: Envelope) {
    e.version == WIRE_VERSION && EnvelopeFits(e) && EnvelopeBytes(e) == data
  }

  // ---- Where the fields lie ----

  predicate HeaderLayout(h: Bytes, e: Envelope)
    requires |h| == HEADER_SIZE
  {
    && h[..4] == WIRE_MAGIC
    && h[4] == e.version && h[5] == e.authKind && h[6] == 0 && h[7] == 0
    && Number(h[8..12]) == e.epoch
    && Number(h[12..20]) == e.seqNo
    && Number(h[20..22]) == |e.algorithm|
    && Number(h[22..24]) == |e.keyId|
    && Number(h[24..26]) == |e.sessionId|
    && Number(h[26..30]) == |e.record|
  }

  lemma HeaderSlices(e: Envelope)
    requires HeaderFits(e)
    ensures var h := Header(e);
      && h[..4] == WIRE_MAGIC && h[4..8] == [e.version, e.authKind, 0, 0]
      && h[8..12] == U32(e.epoch) && h[12..20] == U64(e.seqNo)
      && h[20..22] == U16(|e.algorithm|) && h[22..24] == U16(|e.keyId|)
      && h[24..26] == U16(|e.sessionId|) && h[26..30] == U32(|e.record|)
  {}

  lemma HeaderHasLayout(e: Envelope)
    requires HeaderFits(e)
    ensures HeaderLayout(Header(e), e)
  {
    HeaderSlices(e);
    FieldWidths();
    ReadField(e.epoch, 4);
    ReadField(e.seqNo, 8);
    ReadField(|e.algorithm|, 2);
    ReadField(|e.keyId|, 2);
    ReadField(|e.sessionId|, 2);
    ReadField(|e.record|, 4);
    var h := Header(e);
    assert h[4] == h[4..8][0] && h[5] == h[4..8][1] && h[6] == h[4..8][2] && h[7] == h[4..8][3];
  }

  lemma LayoutIsHeader(h: Bytes, e: Envelope)
    requires |h| == HEADER_SIZE && HeaderLayout(h, e)
    requires Ascii(e.algorithm) && Ascii(e.keyId) && Ascii(e.sessionId)
    ensures HeaderFits(e) && Header(e) == h
  {
    FieldWidths();
    BigEndianOfNumber(h[8..12]);
    BigEndianOfNumber(h[12..20]);
    BigEndianOfNumber(h[20..22]);
    BigEndianOfNumber(h[22..24]);
    BigEndianOfNumber(h[24..26]);
    BigEndianOfNumber(h[26..30]);
    assert h[4..8] == [e.version, e.authKind, 0, 0];
    assert h == h[..4] + h[4..8] + h[8..12] + h[12..20] + h[20..22] + h[22..24] + h[24..26] + h[26..30];
  }

  /** Offset of the authenticator's length field. */
  function TailOffset(e: Envelope): (t: nat)
    ensures t == HEADER_SIZE + |Payload(e)|
  {
    HEADER_SIZE + |e.algorithm| + |e.keyId| + |e.sessionId| + |e.record|
  }

  predicate PayloadLayout(data: Bytes, e: Envelope)
    requires TailOffset(e) <= |data|
  {
    var k := HEADER_SIZE + |e.algorithm|;
    var s := k + |e.keyId|;
    var r := s + |e.sessionId|;
    && data[HEADER_SIZE..k] == e.algorithm && data[k..s] == e.keyId && data[s..r] == e.sessionId
    && data[r..TailOffset(e)] == e.record
  }

  predicate EnvelopeLayout(data: Bytes, e: Envelope) {
    var t := TailOffset(e);
    && |data| == t + 2 + |e.authenticator|
    && HeaderLayout(data[..HEADER_SIZE], e)
    && PayloadLayout(data, e)
    && Number(data[t..t + 2]) == |e.authenticator|
    && data[t + 2..] == e.authenticator
  }

  lemma CutMiddle(a: Bytes, b: Bytes, c: Bytes)
    ensures var s := a + b + c;
      |s| == |a| + |b| + |c| && s[|a|..|a| + |b|] == b
  {}

  lemma CutEnds(a: Bytes, b: Bytes, c: Bytes)
    ensures (a + b + c)[..|a|] == a && (a + b + c)[|a| + |b|..] == c
  {}

  /** Four parts in a row, cut out again. */
  lemma CutBody(a: Bytes, b: Bytes, c: Bytes, d: Bytes)
    ensures var body := a + b + c + d;
      var q := |a|; var r := q + |b|; var s := r + |c|; var t := s + |d|;
      |body| == t && body[0..q] == a && body[q..r] == b && body[r..s] == c && body[s..t] == d
  {
    Associative(a + b, c, d);
    Associative(a, b, c + d);
    Associative(b, c, d);
    CutMiddle([], a, b + c + d);
    assert [] + a + (b + c + d) == a + (b + (c + d));
    CutMiddle(a, b, c + d);
    CutMiddle(a + b, c, d);
    CutMiddle(a + b + c, d, []);
    assert a + b + c + d + [] == a + b + c + d;
  }

  lemma CutOfCut(s: Bytes, body: Bytes, i: nat, p: nat, q: nat)
    requires i + |body| <= |s| && s[i..i + |body|] == body && p <= q <= |body|
    ensures body[p..q] == s[i + p..i + q]
  {
    forall k | 0 <= k < q - p ensures body[p..q][k] == s[i + p..i + q][k] {
      assert body[p + k] == s[i..i + |body|][p + k];
    }
  }

  /** And with a head before and a rest behind them. */
  lemma CutParts(h: Bytes, a: Bytes, b: Bytes, c: Bytes, d: Bytes, rest: Bytes)
    ensures var data := h + (a + b + c + d) + rest;
      var p := |h|; var q := p + |a|; var r := q + |b|; var s := r + |c|; var t := s + |d|;
      && t <= |data| && data[..p] == h && data[t..] == rest
      && data[p..q] == a && data[q..r] == b && data[r..s] == c && data[s..t] == d
  {
    var body := a + b + c + d;
    var data := h + body + rest;
    CutEnds(h, body, rest);
    CutMiddle(h, body, rest);
    CutBody(a, b, c, d);
    CutOfCut(data, body, |h|, 0, |a|);
    CutOfCut(data, body, |h|, |a|, |a| + |b|);
    CutOfCut(data, body, |h|, |a| + |b|, |a| + |b| + |c|);
    CutOfCut(data, body, |h|, |a| + |b| + |c|, |body|);
  }

  lemma PayloadHasLayout(h: Bytes, e: Envelope, rest: Bytes)
    requires |h| == HEADER_SIZE
    ensures var data := h + Payload(e) + rest;
      PayloadLayout(data, e) && data[..HEADER_SIZE] == h && data[TailOffset(e)..] == rest
  {
    CutParts(h, e.algorithm, e.keyId, e.sessionId, e.record, rest);
    CutsAreLayout(h + Payload(e) + rest, e);
    hide PayloadLayout;
  }

  lemma CutsAreLayout(data: Bytes, e: Envelope)
    requires TailOffset(e) <= |data|
    ensures var p := HEADER_SIZE; var q := p + |e.algorithm|; var r := q + |e.keyId|; var s := r + |e.sessionId|;
      PayloadLayout(data, e) <==>
        (data[p..q] == e.algorithm && data[q..r] == e.keyId && data[r..s] == e.sessionId
         && data[s..s + |e.record|] == e.record)
  {}

  lemma JoinCuts(d: Bytes, a: nat, b: nat, c: nat)
    requires a <= b <= c <= |d|
    ensures d[a..b] + d[b..c] == d[a..c]
  {}

  lemma LayoutIsPayload(data: Bytes, e: Envelope)
    requires TailOffset(e) <= |data| && PayloadLayout(data, e)
    ensures Payload(e) == data[HEADER_SIZE..TailOffset(e)]
  {
    var k := HEADER_SIZE + |e.algorithm|;
    var s := k + |e.keyId|;
    var r := s + |e.sessionId|;
    JoinCuts(data, HEADER_SIZE, k, s);
    JoinCuts(data, HEADER_SIZE, s, r);
    JoinCuts(data, HEADER_SIZE, r, TailOffset(e));
  }

  lemma EnvelopeHasLayout(e: Envelope)
    requires EnvelopeFits(e)
    ensures EnvelopeLayout(EnvelopeBytes(e), e)
  {
    var tail := U16(|e.authenticator|) + e.authenticator;
    var data := Header(e) + Payload(e) + tail;
    Associative(WireBody(e), U16(|e.authenticator|), e.authenticator);
    HeaderHasLayout(e);
    PayloadHasLayout(Header(e), e, tail);
    FieldWidths();
    ReadField(|e.authenticator|, 2);
    TailSlices(data, TailOffset(e), U16(|e.authenticator|), e.authenticator);
  }

  lemma TailSlices(data: Bytes, t: nat, a: Bytes, b: Bytes)
    requires t <= |data| && data[t..] == a + b
    ensures |data| == t + |a| + |b| && data[t..t + |a|] == a && data[t + |a|..] == b
  {
    assert data[t..t + |a|] == data[t..][..|a|];
    assert data[t + |a|..] == data[t..][|a|..];
  }

  lemma LayoutIsEnvelope(data: Bytes, e: Envelope)
    requires EnvelopeLayout(data, e)
    requires Ascii(e.algorithm) && Ascii(e.keyId) && Ascii(e.sessionId)
    ensures EnvelopeFits(e) && EnvelopeBytes(e) == data
  {
    var t := TailOffset(e);
    LayoutIsHeader(data[..HEADER_SIZE], e);
    LayoutIsPayload(data, e);
    LengthField(data[t..t + 2], |e.authenticator|);
    ConcatSlices(data, HEADER_SIZE, t, t + 2);
  }

  lemma LengthField(b: Bytes, n: nat)
    requires |b| == 2 && Number(b) == n
    ensures n <= MAX_U16 && U16(n) == b
  {
    FieldWidths();
    BigEndianOfNumber(b);
  }

  lemma ConcatSlices(d: Bytes, a: nat, b: nat, c: nat)
    requires a <= b <= c <= |d|
    ensures d == d[..a] + d[a..b] + d[b..c] + d[c..]
  {}

  /** Headers that agree announce the same numbers and lengths. */
  lemma SameHeader(h: Bytes, a: Envelope, b: Envelope)
    requires |h| == HEADER_SIZE && HeaderLayout(h, a) && HeaderLayout(h, b)
    ensures a.version == b.version && a.authKind == b.authKind && a.epoch == b.epoch && a.seqNo == b.seqNo
    ensures |a.algorithm| == |b.algorithm| && |a.keyId| == |b.keyId| && |a.sessionId| == |b.sessionId|
    ensures |a.record| == |b.record| && TailOffset(a) == TailOffset(b)
  {
    hide Number;
  }

  lemma SameLayoutSameEnvelope(a: Envelope, b: Envelope, data: Bytes)
    requires EnvelopeLayout(data, a) && EnvelopeLayout(data, b)
    ensures a == b
  {
    hide Number, HeaderLayout;
    SameHeader(data[..HEADER_SIZE], a, b);
  }

  // ---- Parsing ----

  /** The version-1 envelope a payload encodes, if any: what `parse` has to find. */
  ghost function DecodedEnvelope(data: Bytes): (r: Option<Envelope>)
    ensures r.Some? ==> IsEnvelope(data, r.value)
    ensures r.None? ==> forall x :: !IsEnvelope(data, x)
  {
    if exists x :: IsEnvelope(data, x) then var x :| IsEnvelope(data, x); Some(x) else None
  }

  lemma LayoutIsDecoded(data: Bytes, e: Envelope)
    requires EnvelopeLayout(data, e) && e.version == WIRE_VERSION
    requires Ascii(e.algorithm) && Ascii(e.keyId) && Ascii(e.sessionId)
    ensures DecodedEnvelope(data) == Some(e)
  {
    LayoutIsEnvelope(data, e);
    assert IsEnvelope(data, e);
    var d := DecodedEnvelope(data).value;
    EnvelopeHasLayout(d);
    SameLayoutSameEnvelope(d, e, data);
  }

  lemma DecodedHasLayout(data: Bytes)
    ensures DecodedEnvelope(data).Some? ==> EnvelopeLayout(data, DecodedEnvelope(data).value)
  {
    if DecodedEnvelope(data).Some? {
      EnvelopeHasLayout(DecodedEnvelope(data).value);
    }
  }

  /** The checks of `parse` up to the authenticator, with the parts ending at offsets k, s, r, t. */
  predicate PartsAt(data: Bytes, k: nat, s: nat, r: nat, t: nat) {
    && HEADER_SIZE + 2 <= |data|
    && var h := data[..HEADER_SIZE];
    && h[..4] == WIRE_MAGIC && h[4] == WIRE_VERSION && h[6] == 0 && h[7] == 0
    && HEADER_SIZE + Number(h[20..22]) == k && k + Number(h[22..24]) == s
    && s + Number(h[24..26]) == r && r + Number(h[26..30]) == t
    && t + 2 <= |data|
    && Ascii(data[HEADER_SIZE..k]) && Ascii(data[k..s]) && Ascii(data[s..r])
    && t + 2 + Number(data[t..t + 2]) == |data|
  }

  function ReadParts(data: Bytes, k: nat, s: nat, r: nat, t: nat): Envelope
    requires PartsAt(data, k, s, r, t)
  {
    AsciiIsUtf8(data[HEADER_SIZE..k]);
    AsciiIsUtf8(data[k..s]);
    AsciiIsUtf8(data[s..r]);
    var h := data[..HEADER_SIZE];
    Envelope(h[4], h[5], data[HEADER_SIZE..k], data[k..s], data[s..r],
             Number(h[8..12]), Number(h[12..20]), data[r..t], data[t + 2..])
  }

  lemma PartsAreDecoded(data: Bytes, k: nat, s: nat, r: nat, t: nat)
    requires PartsAt(data, k, s, r, t)
    ensures DecodedEnvelope(data) == Some(ReadParts(data, k, s, r, t))
  {
    hide Number, Literal, EnvelopeBytes;
    var e := ReadParts(data, k, s, r, t);
    assert TailOffset(e) == t;
    LayoutIsDecoded(data, e);
  }

  lemma DecodedHasParts(data: Bytes) returns (k: nat, s: nat, r: nat, t: nat)
    ensures DecodedEnvelope(data).Some? ==> PartsAt(data, k, s, r, t)
  {
    hide Number, Ascii, EnvelopeBytes;
    k, s, r, t := 0, 0, 0, 0;
    if DecodedEnvelope(data).Some? {
      var e := DecodedEnvelope(data).value;
      EnvelopeHasLayout(e);
      k := HEADER_SIZE + |e.algorithm|;
      s := k + |e.keyId|;
      r := s + |e.sessionId|;
      t := TailOffset(e);
    }
  }

  /** `WireEnvelope.parse`: succeeds exactly on version-1 encodings, and inverts them. */
  method ParseEnvelope(data: Bytes) returns (r: Option<Envelope>)
    ensures r == DecodedEnvelope(data)
  {
    hide Number, Ascii, Utf8, Literal, EnvelopeBytes, DecodedEnvelope;
    ghost var k, s, u, t := DecodedHasParts(data);
    if |data| < HEADER_SIZE + 2 { return None; }
    var header := data[..HEADER_SIZE];
    if header[..4] != WIRE_MAGIC || header[4] != WIRE_VERSION { return None; }
    if header[6] != 0 || header[7] != 0 { return None; }
    var algorithmLen, keyIdLen, sessionIdLen, recordLen :=
      Number(header[20..22]), Number(header[22..24]), Number(header[24..26]), Number(header[26..30]);
    var offset := HEADER_SIZE;
    if offset + (algorithmLen + keyIdLen + sessionIdLen + recordLen) + 2 > |data| { return None; }
    var algorithm := data[offset..offset + algorithmLen];
    if !Ascii(algorithm) { return None; }
    offset := offset + algorithmLen;
    var keyId := data[offset..offset + keyIdLen];
    if !Ascii(keyId) { return None; }
    offset := offset + keyIdLen;
    var sessionId := data[offset..offset + sessionIdLen];
    if !Ascii(sessionId) { return None; }
    offset := offset + sessionIdLen;
    var record := data[offset..offset + recordLen];
    offset := offset + recordLen;
    var authenticatorLen := Number(data[offset..offset + 2]);
    offset := offset + 2;
    if offset + authenticatorLen != |data| { return None; }
    k := HEADER_SIZE + algorithmLen;
    PartsAreDecoded(data, k, k + keyIdLen, k + keyIdLen + sessionIdLen, offset - 2);
    AsciiIsUtf8(algorithm);
    AsciiIsUtf8(keyId);
    AsciiIsUtf8(sessionId);
    r := Some(Envelope(header[4], header[5], algorithm, keyId, sessionId,
                       Number(header[8..12]), Number(header[12..20]), record, data[offset..]));
  }

  /** Parsing what `serialize` wrote. */
  lemma EnvelopeRoundTrip(e: Envelope)
    requires SerializeEnvelope(e).Ok? && e.version == WIRE_VERSION
    ensures DecodedEnvelope(SerializeEnvelope(e).value) == Some(e)
  {
    EnvelopeHasLayout(e);
    LayoutIsDecoded(EnvelopeBytes(e), e);
  }

  /** A parsed payload serialises back to itself exactly when `serialize` supports what was parsed. */
  lemma ParsedSerializesBack(data: Bytes)
    requires DecodedEnvelope(data).Some?
    ensures var e := DecodedEnvelope(data).value;
      SerializeEnvelope(e) == if Supported(e) then Ok(data) else Raised
  {}

  lemma CutOfPrefix(d: Bytes, n: nat, i: nat, j: nat)
    requires i <= j <= n <= |d|
    ensures d[..n][i..j] == d[i..j]
  {}

  lemma PrefixWithLayoutIsWhole(data: Bytes, a: Envelope, p: Bytes, b: Envelope)
    requires EnvelopeLayout(data, a) && EnvelopeLayout(p, b)
    requires |p| <= |data| && p == data[..|p|]
    ensures |p| == |data|
  {
    hide Number, HeaderLayout, PayloadLayout;
    var t := TailOffset(b);
    assert t + 2 <= |p|;
    CutOfPrefix(data, |p|, 0, HEADER_SIZE);
    SameHeader(data[..HEADER_SIZE], a, b);
    CutOfPrefix(data, |p|, t, t + 2);
  }

  /** No proper prefix of an encoding is an encoding. */
  lemma EnvelopePrefixFree(data: Bytes, n: nat)
    requires DecodedEnvelope(data).Some? && n < |data|
    ensures DecodedEnvelope(data[..n]) == None
  {
    DecodedHasLayout(data);
    DecodedHasLayout(data[..n]);
    if DecodedEnvelope(data[..n]).Some? {
      PrefixWithLayoutIsWhole(data, DecodedEnvelope(data).value, data[..n], DecodedEnvelope(data[..n]).value);
    }
  }

  // ---- The three signed formats ----

  /** A version-1 wire body determines everything it authenticates. */
  lemma WireBodyInjective(a: Envelope, b: Envelope)
    requires HeaderFits(a) && HeaderFits(b) && WireBody(a) == WireBody(b)
    ensures a == b.(authenticator := a.authenticator)
  {
    var a', b' := a.(authenticator := []), b.(authenticator := []);
    assert EnvelopeBytes(a') == EnvelopeBytes(b');
    EnvelopeHasLayout(a');
    EnvelopeHasLayout(b');
    SameLayoutSameEnvelope(a', b', EnvelopeBytes(a'));
  }

  predicate IsCheckpointBody(m: Bytes, c: Checkpoint) { CheckpointFits(c) && CheckpointBody(c) == m }
  predicate IsReceiptBody(m: Bytes, r: Receipt) { ReceiptFits(r) && ReceiptBody(r) == m }
  predicate IsWireBody(m: Bytes, e: Envelope) { e.version == WIRE_VERSION && HeaderFits(e) && WireBody(e) == m }

  /** No message is of two of the three signed formats. */
  lemma SignedFormatsDisjoint(m: Bytes, c: Checkpoint, r: Receipt, e: Envelope)
    ensures !(IsCheckpointBody(m, c) && IsReceiptBody(m, r))
    ensures !(IsCheckpointBody(m, c) && IsWireBody(m, e))
    ensures !(IsReceiptBody(m, r) && IsWireBody(m, e))
  {
    if IsCheckpointBody(m, c) {
      assert m[..24] == CHECKPOINT_DOMAIN;
      assert m[4] == m[..24][4] == '-' as int && m[10] == m[..24][10] == 'C' as int;
    }
    if IsReceiptBody(m, r) {
      assert m[..21] == WITNESS_DOMAIN;
      assert m[4] == m[..21][4] == '-' as int && m[10] == m[..21][10] == 'W' as int;
    }
    if IsWireBody(m, e) {
      HeaderHasLayout(e);
      assert m[4] == Header(e)[4] == WIRE_VERSION;
    }
  }
}
