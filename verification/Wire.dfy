/** The request frame: a strict little-endian decoder, and what it prints back as. */
module Wire {
  type Byte = b: nat | b < 256

  // ---- Little-endian numbers ----

  function Value(b: seq<Byte>): nat {
    if b == [] then 0 else b[0] + 256 * Value(b[1..])
  }

  function Little(v: nat, k: nat): (b: seq<Byte>)
    ensures |b| == k
  {
    if k == 0 then [] else [v % 256] + Little(v / 256, k - 1)
  }

  function Pow256(k: nat): (p: nat)
    ensures p >= 1
  {
    if k == 0 then 1 else 256 * Pow256(k - 1)
  }

  lemma {:induction false} LittleValue(v: nat, k: nat)
    requires v < Pow256(k)
    ensures Value(Little(v, k)) == v
    decreases k
  {
    if k == 0 {
    } else {
      LittleValue(v / 256, k - 1);
      assert Little(v, k)[1..] == Little(v / 256, k - 1);
    }
  }

  lemma {:induction false} ValueLittle(b: seq<Byte>)
    ensures Little(Value(b), |b|) == b && Value(b) < Pow256(|b|)
    decreases |b|
  {
    hide *;
    if b == [] {
      NoDigits();
    } else {
      ValueLittle(b[1..]);
      Digits(b, Value(b[1..]));
    }
  }

  lemma {:induction false} NoDigits()
    ensures Value([]) == 0 && Little(0, 0) == [] && Pow256(0) == 1
  {
  }

  lemma {:induction false} Digits(b: seq<Byte>, v: nat)
    requires b != [] && v == Value(b[1..])
    ensures Value(b) == b[0] + 256 * v && Little(Value(b), |b|) == [b[0]] + Little(v, |b| - 1)
    ensures Pow256(|b|) == 256 * Pow256(|b| - 1) && b == [b[0]] + b[1..]
  {
    assert (b[0] + 256 * v) % 256 == b[0] && (b[0] + 256 * v) / 256 == v;
  }

  const U32: nat := 0x1_0000_0000

  lemma {:induction false} Widths()
    ensures Pow256(1) == 256 && Pow256(2) == 0x1_0000 && Pow256(4) == U32 && Pow256(8) == U32 * U32
  {
    assert Pow256(1) == 256 && Pow256(2) == 256 * Pow256(1) && Pow256(3) == 256 * Pow256(2)
      && Pow256(4) == 256 * Pow256(3);
    assert Pow256(5) == 256 * Pow256(4) && Pow256(6) == 256 * Pow256(5) && Pow256(7) == 256 * Pow256(6);
    assert Pow256(8) == 256 * Pow256(7);
  }

  /** A 32-bit word read as a signed number, and written back. */
  function Signed(u: nat): int {
    if u < U32 / 2 then u else u - U32
  }

  function Unsigned(v: int): nat {
    if v >= 0 then v else if v + U32 >= 0 then v + U32 else 0
  }

  // ---- Requests ----

  datatype Status = InvalidRequest | ResourceLimit

  datatype Limits = Limits(requestBytes: nat, batchTokens: nat, tensorBytes: nat, candidates: nat)

  /** What the decoder leaves to the platform: UTF-8 validity, and whether a payload holds only finite numbers. */
  datatype Platform = Platform(utf8: seq<Byte> -> bool, finite: (seq<Byte>, nat) -> bool)

  datatype Inline = Inline(id: nat, rows: nat, payload: seq<Byte>)

  datatype External = External(id: nat, rows: nat, ref: seq<Byte>, checksum: seq<Byte>)

  /** Text is kept as its bytes. */
  datatype Request =
    | InlineRequest(requestId: nat, dimension: nat, queryRows: nat, dtype: nat, query: seq<Byte>, inline: seq<Inline>)
    | ExternalRequest(requestId: nat, dimension: nat, queryRows: nat, dtype: nat, contract: seq<Byte>, query: seq<Byte>,
                      external: seq<External>, tenant: seq<Byte>, priority: int, timeout: nat)

  datatype Parsed<T> = Got(value: T, rest: seq<Byte>) | Bad(status: Status)

  const MAX_ELEMENTS: nat := 0x7fff_ffff_ffff_ffff
  const DEFAULT_TENANT: seq<Byte> := [95, 95, 100, 101, 102, 97, 117, 108, 116, 95, 95]
  const SHA_PREFIX: seq<Byte> := [115, 104, 97, 50, 53, 54, 58]

  function ScalarBytes(dtype: nat): nat {
    if dtype == 1 then 4 else 2
  }

  predicate Dtype(dtype: nat) {
    dtype == 1 || dtype == 2
  }

  function TensorBytes(rows: nat, dimension: nat, dtype: nat): nat {
    rows * dimension * ScalarBytes(dtype)
  }

  /** Rows and dimension positive and their product in 63 bits, else the error. */
  function CheckShape(rows: nat, dimension: nat): (bad: seq<Status>)
  {
    if rows == 0 || dimension == 0 then [InvalidRequest]
    else if rows * dimension > MAX_ELEMENTS then [ResourceLimit]
    else []
  }

  predicate Control(b: Byte) {
    b < 32 || b == 127
  }

  predicate Text(p: Platform, b: seq<Byte>) {
    p.utf8(b) && forall k :: 0 <= k < |b| ==> !Control(b[k])
  }

  predicate HexByte(b: Byte) {
    48 <= b <= 57 || 97 <= b <= 102
  }

  predicate ShaChecksum(b: seq<Byte>) {
    |b| == 71 && b[..7] == SHA_PREFIX && forall k :: 7 <= k < 71 ==> HexByte(b[k])
  }

  function Take(s: seq<Byte>, n: nat): (r: Parsed<seq<Byte>>) {
    if n > |s| then Bad(InvalidRequest) else Got(s[..n], s[n..])
  }

  function Number(s: seq<Byte>, k: nat): (r: Parsed<nat>) {
    if k > |s| then Bad(InvalidRequest) else Got(Value(s[..k]), s[k..])
  }

  function ReadText(p: Platform, s: seq<Byte>, length: nat, maximum: nat): (r: Parsed<seq<Byte>>) {
    if length == 0 || length > maximum then Bad(ResourceLimit)
    else if length > |s| then Bad(InvalidRequest)
    else if !Text(p, s[..length]) then Bad(InvalidRequest)
    else Got(s[..length], s[length..])
  }

  lemma {:induction false} TakeBack(a: seq<Byte>, tail: seq<Byte>)
    ensures (a + tail)[..|a|] == a && (a + tail)[|a|..] == tail
  {
  }

  lemma {:induction false} NumberBack(v: nat, k: nat, tail: seq<Byte>)
    requires v < Pow256(k)
    ensures Number(Little(v, k) + tail, k) == Got(v, tail)
  {
    LittleValue(v, k);
    TakeBack(Little(v, k), tail);
    hide Little, Value, Pow256;
  }

  lemma {:induction false} NumberForth(s: seq<Byte>, k: nat)
    requires Number(s, k).Got?
    ensures var r := Number(s, k); s == Little(r.value, k) + r.rest && r.value < Pow256(k)
  {
    ValueLittle(s[..k]);
    hide Little, Value, Pow256;
  }

  // ---- Inline candidates ----

  function PrintInline(c: Inline): seq<Byte> {
    Little(c.id, 4) + (Little(c.rows, 4) + c.payload)
  }

  function PrintInlines(cs: seq<Inline>): seq<Byte> {
    if cs == [] then [] else PrintInline(cs[0]) + PrintInlines(cs[1..])
  }

  /** Running totals and what governs them. */
  datatype Totals = Totals(seen: set<nat>, tokens: nat, bytes: nat)

  datatype Shape = Shape(dimension: nat, dtype: nat, limits: Limits, platform: Platform, checkFinite: bool)

  function Grown(t: Totals, id: nat, rows: nat, h: Shape): Totals {
    Totals(t.seen + {id}, t.tokens + rows, t.bytes + TensorBytes(rows, h.dimension, h.dtype))
  }

  /** The checks common to both kinds of candidate, after the duplicate test. */
  function CheckTotals(t: Totals, h: Shape): seq<Status> {
    if t.tokens > h.limits.batchTokens then [ResourceLimit]
    else if t.bytes > h.limits.tensorBytes then [ResourceLimit]
    else []
  }

  predicate Finite(h: Shape, payload: seq<Byte>) {
    !h.checkFinite || h.platform.finite(payload, h.dtype)
  }

  function ParseInline(s: seq<Byte>, t: Totals, h: Shape): (r: Parsed<Inline>) {
    var id := Number(s, 4);
    if id.Bad? then Bad(InvalidRequest) else
    var rows := Number(id.rest, 4);
    if rows.Bad? then Bad(InvalidRequest) else
    if id.value in t.seen then Bad(InvalidRequest) else
    var bad := CheckShape(rows.value, h.dimension) + CheckTotals(Grown(t, id.value, rows.value, h), h);
    if bad != [] then Bad(bad[0]) else
    var payload := Take(rows.rest, TensorBytes(rows.value, h.dimension, h.dtype));
    if payload.Bad? then Bad(InvalidRequest) else
    if !Finite(h, payload.value) then Bad(InvalidRequest) else
    Got(Inline(id.value, rows.value, payload.value), payload.rest)
  }

  function ParseInlines(s: seq<Byte>, count: nat, t: Totals, h: Shape): (r: Parsed<seq<Inline>>)
    decreases count
  {
    if count == 0 then Got([], s) else
    var c := ParseInline(s, t, h);
    if c.Bad? then Bad(c.status) else
    var more := ParseInlines(c.rest, count - 1, Grown(t, c.value.id, c.value.rows, h), h);
    if more.Bad? then Bad(more.status) else Got([c.value] + more.value, more.rest)
  }

  predicate InlineOk(c: Inline, t: Totals, h: Shape) {
    && c.id < U32 && c.rows < U32 && c.id !in t.seen
    && CheckShape(c.rows, h.dimension) == [] && CheckTotals(Grown(t, c.id, c.rows, h), h) == []
    && |c.payload| == TensorBytes(c.rows, h.dimension, h.dtype) && Finite(h, c.payload)
  }

  predicate InlinesOk(cs: seq<Inline>, t: Totals, h: Shape) {
    cs == [] || (InlineOk(cs[0], t, h) && InlinesOk(cs[1..], Grown(t, cs[0].id, cs[0].rows, h), h))
  }

  lemma {:induction false} InlineBack(c: Inline, t: Totals, h: Shape, tail: seq<Byte>)
    requires InlineOk(c, t, h)
    ensures ParseInline(PrintInline(c) + tail, t, h) == Got(c, tail)
  {
    Widths();
    var b := Little(c.rows, 4) + (c.payload + tail);
    assert PrintInline(c) + tail == Little(c.id, 4) + b;
    NumberBack(c.id, 4, b);
    NumberBack(c.rows, 4, c.payload + tail);
    TakeBack(c.payload, tail);
    hide Little, Number, CheckShape, CheckTotals, Grown, TensorBytes, Finite, Pow256;
  }

  lemma {:induction false} InlineForth(s: seq<Byte>, t: Totals, h: Shape)
    requires ParseInline(s, t, h).Got?
    ensures var r := ParseInline(s, t, h); s == PrintInline(r.value) + r.rest && InlineOk(r.value, t, h)
  {
    hide Little, Number, CheckShape, CheckTotals, Grown, TensorBytes, Finite, Pow256;
    Widths();
    var id := Number(s, 4);
    NumberForth(s, 4);
    NumberForth(id.rest, 4);
  }

  lemma {:induction false} InlinesBack(cs: seq<Inline>, t: Totals, h: Shape, tail: seq<Byte>)
    requires InlinesOk(cs, t, h)
    ensures ParseInlines(PrintInlines(cs) + tail, |cs|, t, h) == Got(cs, tail)
    decreases |cs|
  {
    hide PrintInline, ParseInline, InlineOk, Grown;
    if cs == [] {
      assert PrintInlines(cs) + tail == tail;
    } else {
      var rest := PrintInlines(cs[1..]) + tail;
      assert PrintInlines(cs) + tail == PrintInline(cs[0]) + rest;
      InlineBack(cs[0], t, h, rest);
      InlinesBack(cs[1..], Grown(t, cs[0].id, cs[0].rows, h), h, tail);
      assert [cs[0]] + cs[1..] == cs;
    }
  }

  lemma {:induction false} InlinesForth(s: seq<Byte>, count: nat, t: Totals, h: Shape)
    requires ParseInlines(s, count, t, h).Got?
    ensures var r := ParseInlines(s, count, t, h);
            s == PrintInlines(r.value) + r.rest && InlinesOk(r.value, t, h) && |r.value| == count
    decreases count
  {
    hide PrintInline, ParseInline, InlineOk, Grown;
    if count == 0 {
    } else {
      var c := ParseInline(s, t, h);
      InlineForth(s, t, h);
      InlinesForth(c.rest, count - 1, Grown(t, c.value.id, c.value.rows, h), h);
      var r, more := ParseInlines(s, count, t, h), ParseInlines(c.rest, count - 1,
                                                                Grown(t, c.value.id, c.value.rows, h), h);
      assert r.value[1..] == more.value && r.value[0] == c.value;
    }
  }

  // ---- External candidates ----

  function PrintExternal(c: External): seq<Byte> {
    Little(c.id, 4) + (Little(c.rows, 4) + (Little(|c.ref|, 4) + (Little(|c.checksum|, 4) + (c.ref + c.checksum))))
  }

  function PrintExternals(cs: seq<External>): seq<Byte> {
    if cs == [] then [] else PrintExternal(cs[0]) + PrintExternals(cs[1..])
  }

  /** The four numbers before an external candidate's text. */
  datatype Four = Four(a: nat, b: nat, c: nat, d: nat)

  function ParseFour(s: seq<Byte>): (r: Parsed<Four>) {
    if |s| < 16 then Bad(InvalidRequest)
    else Got(Four(Value(s[..4]), Value(s[4..8]), Value(s[8..12]), Value(s[12..16])), s[16..])
  }

  function PrintFour(f: Four): seq<Byte> {
    Little(f.a, 4) + (Little(f.b, 4) + (Little(f.c, 4) + Little(f.d, 4)))
  }

  predicate FourOk(f: Four) {
    f.a < U32 && f.b < U32 && f.c < U32 && f.d < U32
  }

  lemma {:induction false} FourSlices(a: seq<Byte>, b: seq<Byte>, c: seq<Byte>, d: seq<Byte>, tail: seq<Byte>)
    requires |a| == |b| == |c| == |d| == 4
    ensures var s := a + (b + (c + d)) + tail;
            |s| == 16 + |tail| && s[..4] == a && s[4..8] == b && s[8..12] == c && s[12..16] == d && s[16..] == tail
  {
    var s := a + (b + (c + d)) + tail;
    assert forall k :: 0 <= k < 4 ==> s[4 + k] == b[k] && s[8 + k] == c[k] && s[12 + k] == d[k];
  }

  lemma {:induction false} FourJoins(s: seq<Byte>)
    requires |s| >= 16
    ensures s == s[..4] + (s[4..8] + (s[8..12] + s[12..16])) + s[16..]
  {
  }

  lemma {:induction false} FourBack(f: Four, tail: seq<Byte>)
    requires FourOk(f)
    ensures ParseFour(PrintFour(f) + tail) == Got(f, tail)
  {
    hide Little, Value, Pow256;
    Widths();
    LittleValue(f.a, 4);
    LittleValue(f.b, 4);
    LittleValue(f.c, 4);
    LittleValue(f.d, 4);
    FourSlices(Little(f.a, 4), Little(f.b, 4), Little(f.c, 4), Little(f.d, 4), tail);
  }

  lemma {:induction false} FourForth(s: seq<Byte>)
    requires ParseFour(s).Got?
    ensures var r := ParseFour(s); s == PrintFour(r.value) + r.rest && FourOk(r.value)
  {
    hide Little, Value, Pow256;
    Widths();
    ValueLittle(s[..4]);
    ValueLittle(s[4..8]);
    ValueLittle(s[8..12]);
    ValueLittle(s[12..16]);
    FourJoins(s);
  }

  function ParseExternal(s: seq<Byte>, t: Totals, h: Shape): (r: Parsed<External>) {
    var f := ParseFour(s);
    if f.Bad? then Bad(InvalidRequest) else
    if f.value.a in t.seen then Bad(InvalidRequest) else
    var ref := ReadText(h.platform, f.rest, f.value.c, 4096);
    if ref.Bad? then Bad(ref.status) else
    var checksum := ReadText(h.platform, ref.rest, f.value.d, 512);
    if checksum.Bad? then Bad(checksum.status) else
    if !ShaChecksum(checksum.value) then Bad(InvalidRequest) else
    var bad := CheckShape(f.value.b, h.dimension) + CheckTotals(Grown(t, f.value.a, f.value.b, h), h);
    if bad != [] then Bad(bad[0]) else
    Got(External(f.value.a, f.value.b, ref.value, checksum.value), checksum.rest)
  }

  function ParseExternals(s: seq<Byte>, count: nat, t: Totals, h: Shape): (r: Parsed<seq<External>>)
    decreases count
  {
    if count == 0 then Got([], s) else
    var c := ParseExternal(s, t, h);
    if c.Bad? then Bad(c.status) else
    var more := ParseExternals(c.rest, count - 1, Grown(t, c.value.id, c.value.rows, h), h);
    if more.Bad? then Bad(more.status) else Got([c.value] + more.value, more.rest)
  }

  predicate ExternalOk(c: External, t: Totals, h: Shape) {
    && c.id < U32 && c.rows < U32 && c.id !in t.seen
    && 1 <= |c.ref| <= 4096 && Text(h.platform, c.ref)
    && |c.checksum| <= 512 && Text(h.platform, c.checksum) && ShaChecksum(c.checksum)
    && CheckShape(c.rows, h.dimension) == [] && CheckTotals(Grown(t, c.id, c.rows, h), h) == []
  }

  predicate ExternalsOk(cs: seq<External>, t: Totals, h: Shape) {
    cs == [] || (ExternalOk(cs[0], t, h) && ExternalsOk(cs[1..], Grown(t, cs[0].id, cs[0].rows, h), h))
  }

  lemma {:induction false} TextBack(p: Platform, a: seq<Byte>, tail: seq<Byte>, maximum: nat)
    requires 1 <= |a| <= maximum && Text(p, a)
    ensures ReadText(p, a + tail, |a|, maximum) == Got(a, tail)
  {
    TakeBack(a, tail);
    hide Text;
  }

  lemma {:induction false} TextForth(p: Platform, s: seq<Byte>, length: nat, maximum: nat)
    requires ReadText(p, s, length, maximum).Got?
    ensures var r := ReadText(p, s, length, maximum);
            s == r.value + r.rest && |r.value| == length && 1 <= length <= maximum && Text(p, r.value)
  {
    hide Text;
  }

  function FourOf(c: External): Four {
    Four(c.id, c.rows, |c.ref|, |c.checksum|)
  }

  lemma {:induction false} PrintExternalIs(c: External, tail: seq<Byte>)
    ensures PrintExternal(c) + tail == PrintFour(FourOf(c)) + (c.ref + (c.checksum + tail))
  {
    hide Little;
  }

  lemma {:induction false} ExternalBack(c: External, t: Totals, h: Shape, tail: seq<Byte>)
    requires ExternalOk(c, t, h)
    ensures ParseExternal(PrintExternal(c) + tail, t, h) == Got(c, tail)
  {
    hide PrintExternal, PrintFour, ParseFour, ReadText, CheckShape, CheckTotals, Grown, Text, ShaChecksum;
    assert |c.checksum| >= 1 by { ChecksumLength(c.checksum); }
    PrintExternalIs(c, tail);
    FourBack(FourOf(c), c.ref + (c.checksum + tail));
    TextBack(h.platform, c.ref, c.checksum + tail, 4096);
    TextBack(h.platform, c.checksum, tail, 512);
  }

  lemma {:induction false} ChecksumLength(b: seq<Byte>)
    requires ShaChecksum(b)
    ensures |b| == 71
  {
  }

  lemma {:induction false} ExternalForth(s: seq<Byte>, t: Totals, h: Shape)
    requires ParseExternal(s, t, h).Got?
    ensures var r := ParseExternal(s, t, h); s == PrintExternal(r.value) + r.rest && ExternalOk(r.value, t, h)
  {
    hide PrintExternal, PrintFour, ParseFour, ReadText, CheckShape, CheckTotals, Grown, Text, ShaChecksum;
    var f := ParseFour(s);
    FourForth(s);
    var ref := ReadText(h.platform, f.rest, f.value.c, 4096);
    TextForth(h.platform, f.rest, f.value.c, 4096);
    var checksum := ReadText(h.platform, ref.rest, f.value.d, 512);
    TextForth(h.platform, ref.rest, f.value.d, 512);
    var r := ParseExternal(s, t, h);
    assert f.value == FourOf(r.value);
    PrintExternalIs(r.value, r.rest);
  }

  lemma {:induction false} ExternalsBack(cs: seq<External>, t: Totals, h: Shape, tail: seq<Byte>)
    requires ExternalsOk(cs, t, h)
    ensures ParseExternals(PrintExternals(cs) + tail, |cs|, t, h) == Got(cs, tail)
    decreases |cs|
  {
    hide PrintExternal, ParseExternal, ExternalOk, Grown;
    if cs == [] {
      assert PrintExternals(cs) + tail == tail;
    } else {
      var rest := PrintExternals(cs[1..]) + tail;
      assert PrintExternals(cs) + tail == PrintExternal(cs[0]) + rest;
      ExternalBack(cs[0], t, h, rest);
      ExternalsBack(cs[1..], Grown(t, cs[0].id, cs[0].rows, h), h, tail);
      assert [cs[0]] + cs[1..] == cs;
    }
  }

  lemma {:induction false} ExternalsForth(s: seq<Byte>, count: nat, t: Totals, h: Shape)
    requires ParseExternals(s, count, t, h).Got?
    ensures var r := ParseExternals(s, count, t, h);
            s == PrintExternals(r.value) + r.rest && ExternalsOk(r.value, t, h) && |r.value| == count
    decreases count
  {
    hide PrintExternal, ParseExternal, ExternalOk, Grown;
    if count == 0 {
    } else {
      var c := ParseExternal(s, t, h);
      ExternalForth(s, t, h);
      ExternalsForth(c.rest, count - 1, Grown(t, c.value.id, c.value.rows, h), h);
      var r, more := ParseExternals(s, count, t, h), ParseExternals(c.rest, count - 1,
                                                                    Grown(t, c.value.id, c.value.rows, h), h);
      assert r.value[1..] == more.value && r.value[0] == c.value;
    }
  }
}
