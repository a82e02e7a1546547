/** Whole frames: decoding is the exact inverse of printing, so no two v1 or v2 frames mean the same request. */
module Frames {
  import opened Wire

  // ---- Fixed parts ----

  /** Three 32-bit numbers, two bytes and a 16-bit number. */
  datatype Head = Head(dimension: nat, queryRows: nat, count: nat, dtype: nat, scoring: nat, reserved: nat)

  function ParseHead(s: seq<Byte>): (r: Parsed<Head>) {
    if |s| < 16 then Bad(InvalidRequest)
    else Got(Head(Value(s[..4]), Value(s[4..8]), Value(s[8..12]), Value(s[12..13]), Value(s[13..14]),
                  Value(s[14..16])), s[16..])
  }

  function PrintHead(h: Head): (b: seq<Byte>)
    ensures |b| == 16
  {
    Little(h.dimension, 4) + (Little(h.queryRows, 4) + (Little(h.count, 4)
                                                        + (Little(h.dtype, 1) + (Little(h.scoring, 1)
      + Little(h.reserved, 2)))))
  }

  predicate HeadFits(h: Head) {
    h.dimension < U32 && h.queryRows < U32 && h.count < U32 && h.dtype < 256 && h.scoring < 256 && h.reserved < 0x1_0000
  }

  lemma {:induction false} HeadSlices(a: seq<Byte>, b: seq<Byte>, c: seq<Byte>, d: seq<Byte>, e: seq<Byte>,
                                      f: seq<Byte>, tail: seq<Byte>)
    requires |a| == |b| == |c| == 4 && |d| == |e| == 1 && |f| == 2
    ensures var s := a + (b + (c + (d + (e + f)))) + tail;
            && |s| == 16 + |tail| && s[..4] == a && s[4..8] == b && s[8..12] == c && s[12..13] == d && s[13..14] == e
            && s[14..16] == f && s[16..] == tail
  {
    var s := a + (b + (c + (d + (e + f)))) + tail;
    assert forall k :: 0 <= k < 4 ==> s[4 + k] == b[k] && s[8 + k] == c[k];
    assert s[12] == d[0] && s[13] == e[0] && s[14] == f[0] && s[15] == f[1];
  }

  lemma {:induction false} HeadJoins(s: seq<Byte>)
    requires |s| >= 16
    ensures s == s[..4] + (s[4..8] + (s[8..12] + (s[12..13] + (s[13..14] + s[14..16])))) + s[16..]
  {
  }

  lemma {:induction false} HeadBack(h: Head, tail: seq<Byte>)
    requires HeadFits(h)
    ensures ParseHead(PrintHead(h) + tail) == Got(h, tail)
  {
    hide Little, Value, Pow256;
    Widths();
    LittleValue(h.dimension, 4);
    LittleValue(h.queryRows, 4);
    LittleValue(h.count, 4);
    LittleValue(h.dtype, 1);
    LittleValue(h.scoring, 1);
    LittleValue(h.reserved, 2);
    HeadSlices(Little(h.dimension, 4), Little(h.queryRows, 4), Little(h.count, 4), Little(h.dtype, 1),
               Little(h.scoring, 1),
               Little(h.reserved, 2), tail);
  }

  lemma {:induction false} HeadForth(s: seq<Byte>)
    requires ParseHead(s).Got?
    ensures var r := ParseHead(s); s == PrintHead(r.value) + r.rest && HeadFits(r.value)
  {
    hide Little, Value, Pow256;
    Widths();
    ValueLittle(s[..4]);
    ValueLittle(s[4..8]);
    ValueLittle(s[8..12]);
    ValueLittle(s[12..13]);
    ValueLittle(s[13..14]);
    ValueLittle(s[14..16]);
    HeadJoins(s);
  }

  /** The checks of the fixed part, in order; the first failure counts. */
  function CheckHead(h: Head, limits: Limits): seq<Status> {
    if h.dimension == 0 || h.dimension > 60000 then [InvalidRequest]
    else if h.queryRows == 0 then [InvalidRequest]
    else if h.count > limits.candidates then [ResourceLimit]
    else if !Dtype(h.dtype) then [InvalidRequest]
    else if h.scoring != 1 then [InvalidRequest]
    else if h.reserved != 0 then [InvalidRequest]
    else if h.queryRows > limits.batchTokens then [ResourceLimit]
    else if h.queryRows * h.dimension > MAX_ELEMENTS then [ResourceLimit]
    else if TensorBytes(h.queryRows, h.dimension, h.dtype) > limits.tensorBytes then [ResourceLimit]
    else []
  }

  /** Everything outside the frame that decides about it. */
  datatype Context = Context(limits: Limits, platform: Platform, checkFinite: bool)

  function ShapeOf(h: Head, c: Context): Shape {
    Shape(h.dimension, h.dtype, c.limits, c.platform, c.checkFinite)
  }

  function StartOf(h: Head): Totals {
    Totals({}, h.queryRows, TensorBytes(h.queryRows, h.dimension, h.dtype))
  }

  /** The query and whatever follows it. */
  function ReadQuery(s: seq<Byte>, h: Head, c: Context): (r: Parsed<seq<Byte>>) {
    var q := Take(s, TensorBytes(h.queryRows, h.dimension, h.dtype));
    if q.Bad? then Bad(InvalidRequest) else if !Finite(ShapeOf(h, c), q.value) then Bad(InvalidRequest) else q
  }

  lemma {:induction false} QueryBack(q: seq<Byte>, tail: seq<Byte>, h: Head, c: Context)
    requires |q| == TensorBytes(h.queryRows, h.dimension, h.dtype) && Finite(ShapeOf(h, c), q)
    ensures ReadQuery(q + tail, h, c) == Got(q, tail)
  {
    TakeBack(q, tail);
    hide Finite, TensorBytes;
  }

  // ---- Bodies ----

  datatype Decoded = Accepted(request: Request) | Refused(status: Status)

  function Finish(rest: seq<Byte>, request: Request): Decoded {
    if rest != [] then Refused(InvalidRequest) else Accepted(request)
  }

  function DecodeInline(s: seq<Byte>, id: nat, c: Context): Decoded {
    var head := ParseHead(s);
    if head.Bad? then Refused(InvalidRequest) else
    var h, bad := head.value, CheckHead(head.value, c.limits);
    if bad != [] then Refused(bad[0]) else
    var q := ReadQuery(head.rest, h, c);
    if q.Bad? then Refused(q.status) else
    var cs := ParseInlines(q.rest, h.count, StartOf(h), ShapeOf(h, c));
    if cs.Bad? then Refused(cs.status) else
    Finish(cs.rest, InlineRequest(id, h.dimension, h.queryRows, h.dtype, q.value, cs.value))
  }

  /** The external body after its fixed part: contract, tenant, query, candidates. */
  function DecodeExternal(s: seq<Byte>, id: nat, h: Head, contractLength: nat, tenantLength: nat, priority: int,
                          timeout: nat, c: Context): Decoded {
    var bad := CheckHead(h, c.limits);
    if bad != [] then Refused(bad[0]) else
    var contract := ReadText(c.platform, s, contractLength, 512);
    if contract.Bad? then Refused(contract.status) else
    var tenant := if tenantLength == 0 then Got(DEFAULT_TENANT, contract.rest)
      else ReadText(c.platform, contract.rest, tenantLength, 256);
    if tenant.Bad? then Refused(tenant.status) else
    var q := ReadQuery(tenant.rest, h, c);
    if q.Bad? then Refused(q.status) else
    var cs := ParseExternals(q.rest, h.count, StartOf(h), ShapeOf(h, c));
    if cs.Bad? then Refused(cs.status) else
    Finish(cs.rest, ExternalRequest(id, h.dimension, h.queryRows, h.dtype, contract.value, q.value, cs.value,
                                    tenant.value, priority, timeout))
  }

  function DecodeV2(s: seq<Byte>, id: nat, c: Context): Decoded {
    var head := ParseHead(s);
    if head.Bad? then Refused(InvalidRequest) else
    var n := Number(head.rest, 4);
    if n.Bad? then Refused(InvalidRequest) else
    DecodeExternal(n.rest, id, head.value, n.value, 0, 0, 0, c)
  }

  function DecodeV3(s: seq<Byte>, id: nat, c: Context): Decoded {
    var head := ParseHead(s);
    if head.Bad? then Refused(InvalidRequest) else
    var f := ParseFour(head.rest);
    if f.Bad? then Refused(InvalidRequest) else
    var priority, timeout := Signed(f.value.b), f.value.c;
    if !(-100 <= priority <= 100) || !(1 <= timeout <= 600000) then Refused(InvalidRequest) else
    DecodeExternal(f.rest, id, head.value, f.value.a, f.value.d, priority, timeout, c)
  }

  // ---- Frames ----

  const MAGIC: seq<Byte> := [86, 67, 84, 77]

  function Header(version: nat, id: nat, length: nat): (b: seq<Byte>)
    ensures |b| == 24
  {
    MAGIC + (Little(version, 2) + (Little(1, 2) + (Little(id, 8) + Little(length, 8))))
  }

  function Decode(frame: seq<Byte>, c: Context): Decoded {
    if |frame| < 24 then Refused(InvalidRequest) else
    var version, kind, id, length := Value(frame[4..6]), Value(frame[6..8]), Value(frame[8..16]), Value(frame[16..24]);
    if frame[..4] != MAGIC then Refused(InvalidRequest)
    else if !(1 <= version <= 3) then Refused(InvalidRequest)
    else if kind != 1 then Refused(InvalidRequest)
    else if length != |frame| - 24 then Refused(InvalidRequest)
    else if |frame| > c.limits.requestBytes then Refused(ResourceLimit)
    else if version == 1 then DecodeInline(frame[24..], id, c)
    else if version == 2 then DecodeV2(frame[24..], id, c)
    else DecodeV3(frame[24..], id, c)
  }

  // ---- Printing ----

  function HeadOf(r: Request): Head {
    match r
    case InlineRequest(_, d, q, t, _, cs) => Head(d, q, |cs|, t, 1, 0)
    case ExternalRequest(_, d, q, t, _, _, cs, _, _, _) => Head(d, q, |cs|, t, 1, 0)
  }

  function VersionOf(r: Request): nat {
    if r.InlineRequest? then 1 else if r.timeout == 0 then 2 else 3
  }

  /** The tenant as it stands in the frame: the default may be left out. */
  function TenantBytes(r: Request, explicit: bool): seq<Byte>
    requires r.ExternalRequest?
  {
    if explicit then r.tenant else []
  }

  function PrintBody(r: Request, explicit: bool): seq<Byte> {
    if r.InlineRequest? then PrintHead(HeadOf(r)) + (r.query + PrintInlines(r.inline))
    else if VersionOf(r) == 2
    then PrintHead(HeadOf(r)) + (Little(|r.contract|, 4) + (r.contract + (r.query + PrintExternals(r.external))))
    else
      PrintHead(HeadOf(r))
      + (PrintFour(Four(|r.contract|, Unsigned(r.priority), r.timeout, |TenantBytes(r, explicit)|))
         + (r.contract + (TenantBytes(r, explicit) + (r.query + PrintExternals(r.external)))))
  }

  function Print(r: Request, explicit: bool): seq<Byte> {
    var body := PrintBody(r, explicit);
    Header(VersionOf(r), r.requestId, |body|) + body
  }

  /** What every accepted request satisfies: limits, shapes, distinct ids, well-formed text. */
  ghost predicate RequestOk(r: Request, explicit: bool, c: Context) {
    && r.requestId < Pow256(8) && |PrintBody(r, explicit)| < Pow256(8) && |Print(r, explicit)| <= c.limits.requestBytes
    && HeadFits(HeadOf(r)) && CheckHead(HeadOf(r), c.limits) == []
    && |r.query| == TensorBytes(r.queryRows, r.dimension, r.dtype) && Finite(ShapeOf(HeadOf(r), c), r.query)
    && if r.InlineRequest?
       then !explicit && InlinesOk(r.inline, StartOf(HeadOf(r)), ShapeOf(HeadOf(r), c))
       else
         && 1 <= |r.contract| <= 512 && Text(c.platform, r.contract)
         && ExternalsOk(r.external, StartOf(HeadOf(r)), ShapeOf(HeadOf(r), c))
         && (if explicit then 1 <= |r.tenant| <= 256 && Text(c.platform, r.tenant) else r.tenant == DEFAULT_TENANT)
         && if VersionOf(r) == 2 then !explicit && r.priority == 0 else
              -100 <= r.priority <= 100 && 1 <= r.timeout <= 600000
  }

  lemma {:induction false} HeaderSlices(a: seq<Byte>, b: seq<Byte>, c: seq<Byte>, d: seq<Byte>, e: seq<Byte>,
                                        body: seq<Byte>)
    requires |a| == 4 && |b| == 2 && |c| == 2 && |d| == 8 && |e| == 8
    ensures var f := a + (b + (c + (d + e))) + body;
            |f| == 24 + |body| && f[..4] == a && f[4..6] == b && f[6..8] == c && f[8..16] == d && f[16..24] == e
              && f[24..] == body
  {
    var x := a + (b + (c + (d + e)));
    var f := x + body;
    assert |x| == 24 && f[..24] == x;
    assert x[4..] == b + (c + (d + e)) && x[6..] == c + (d + e) && x[8..] == d + e && x[16..] == e;
    assert forall k :: 0 <= k < 8 ==> f[16 + k] == e[k];
    assert forall k :: 0 <= k < 8 ==> f[8 + k] == d[k];
  }

  lemma {:induction false} HeaderJoins(f: seq<Byte>)
    requires |f| >= 24
    ensures f == f[..4] + (f[4..6] + (f[6..8] + (f[8..16] + f[16..24]))) + f[24..]
  {
  }

  lemma {:induction false} HeaderBack(version: nat, id: nat, body: seq<Byte>)
    requires 1 <= version <= 3 && id < Pow256(8) && |body| < Pow256(8)
    ensures var f := Header(version, id, |body|) + body;
            && |f| == 24 + |body| && f[..4] == MAGIC && Value(f[4..6]) == version && Value(f[6..8]) == 1
            && Value(f[8..16]) == id && Value(f[16..24]) == |body| && f[24..] == body
  {
    HeaderIs(version, id, |body|);
    hide *;
    Widths();
    LittleValue(version, 2);
    LittleValue(1, 2);
    LittleValue(id, 8);
    LittleValue(|body|, 8);
    HeaderSlices(MAGIC, Little(version, 2), Little(1, 2), Little(id, 8), Little(|body|, 8), body);
  }

  lemma {:induction false} HeaderIs(version: nat, id: nat, length: nat)
    ensures Header(version, id, length) == MAGIC + (Little(version, 2)
                                                    + (Little(1, 2) + (Little(id, 8) + Little(length, 8))))
    ensures |MAGIC| == 4
  {
    hide Little;
  }

  lemma {:induction false} HeaderForth(frame: seq<Byte>)
    requires |frame| >= 24 && frame[..4] == MAGIC && Value(frame[6..8]) == 1 && Value(frame[16..24]) == |frame| - 24
    ensures frame == Header(Value(frame[4..6]), Value(frame[8..16]), |frame[24..]|) + frame[24..]
    ensures Value(frame[8..16]) < Pow256(8) && |frame[24..]| < Pow256(8)
  {
    hide *;
    HeaderIs(Value(frame[4..6]), Value(frame[8..16]), |frame[24..]|);
    Widths();
    ValueLittle(frame[4..6]);
    ValueLittle(frame[6..8]);
    ValueLittle(frame[8..16]);
    ValueLittle(frame[16..24]);
    HeaderJoins(frame);
  }

  // ---- Decoding inverts printing ----

  lemma {:induction false} InlineBodyBack(r: Request, c: Context)
    requires r.InlineRequest? && RequestOk(r, false, c)
    ensures DecodeInline(PrintBody(r, false), r.requestId, c) == Accepted(r)
  {
    hide PrintHead, ParseHead, CheckHead, ReadQuery, ParseInlines, PrintInlines, HeadFits, InlinesOk, StartOf, ShapeOf,
      Finite, TensorBytes, Pow256;
    var h, q, cs := HeadOf(r), r.query, PrintInlines(r.inline);
    HeadBack(h, q + cs);
    QueryBack(q, cs, h, c);
    InlinesBack(r.inline, StartOf(h), ShapeOf(h, c), []);
    assert cs + [] == cs;
  }

  // Contract, tenant, query and candidates.
  function Tail(r: Request, explicit: bool): seq<Byte>
    requires r.ExternalRequest?
  {
    r.contract + (TenantBytes(r, explicit) + (r.query + PrintExternals(r.external)))
  }

  lemma {:induction false} TailBack(r: Request, explicit: bool, c: Context)
    requires r.ExternalRequest? && RequestOk(r, explicit, c)
    ensures DecodeExternal(Tail(r, explicit), r.requestId, HeadOf(r), |r.contract|, |TenantBytes(r, explicit)|,
                           r.priority, r.timeout, c)
            == Accepted(r)
  {
    hide CheckHead, ReadQuery, ReadText, ParseExternals, PrintExternals, HeadFits, ExternalsOk, StartOf, ShapeOf,
      Finite, TensorBytes, Text,
         Pow256, PrintBody;
    var h, q, cs, t := HeadOf(r), r.query, PrintExternals(r.external), TenantBytes(r, explicit);
    TextBack(c.platform, r.contract, t + (q + cs), 512);
    assert |t| == 0 ==> t + (q + cs) == q + cs;
    if explicit { TextBack(c.platform, t, q + cs, 256); }
    QueryBack(q, cs, h, c);
    ExternalsBack(r.external, StartOf(h), ShapeOf(h, c), []);
    assert cs + [] == cs;
  }

  lemma {:induction false} SignedBack(v: int)
    requires -100 <= v <= 100
    ensures Unsigned(v) < U32 && Signed(Unsigned(v)) == v
  {
  }

  lemma {:induction false} BodyBack(r: Request, explicit: bool, c: Context)
    requires r.ExternalRequest? && RequestOk(r, explicit, c)
    ensures VersionOf(r) == 2 ==> DecodeV2(PrintBody(r, explicit), r.requestId, c) == Accepted(r)
    ensures VersionOf(r) == 3 ==> DecodeV3(PrintBody(r, explicit), r.requestId, c) == Accepted(r)
  {
    TailBack(r, explicit, c);
    Widths();
    hide PrintHead, ParseHead, CheckHead, DecodeExternal, PrintExternals, HeadFits, ExternalsOk, Text, Little, Number,
      PrintFour, ParseFour,
         Pow256, Finite, TensorBytes;
    var h, tail := HeadOf(r), Tail(r, explicit);
    if VersionOf(r) == 2 {
      HeadBack(h, Little(|r.contract|, 4) + tail);
      NumberBack(|r.contract|, 4, tail);
      assert TenantBytes(r, explicit) + (r.query + PrintExternals(r.external)) == r.query + PrintExternals(r.external);
    } else {
      var f := Four(|r.contract|, Unsigned(r.priority), r.timeout, |TenantBytes(r, explicit)|);
      SignedBack(r.priority);
      HeadBack(h, PrintFour(f) + tail);
      FourBack(f, tail);
    }
  }

  /** Decoding a printed request gives the request back. */
  lemma {:induction false} DecodePrinted(r: Request, explicit: bool, c: Context)
    requires RequestOk(r, explicit, c)
    ensures Decode(Print(r, explicit), c) == Accepted(r)
  {
    var body := PrintBody(r, explicit);
    HeaderBack(VersionOf(r), r.requestId, body);
    if r.InlineRequest? { InlineBodyBack(r, c); } else { BodyBack(r, explicit, c); }
    hide PrintBody, Header, DecodeInline, DecodeV2, DecodeV3, Value, RequestOk, Pow256;
  }

  // ---- Printing inverts decoding ----

  lemma {:induction false} InlineBodyForth(s: seq<Byte>, id: nat, c: Context)
    requires DecodeInline(s, id, c).Accepted?
    ensures var r := DecodeInline(s, id, c).request;
            && r.InlineRequest? && r.requestId == id && s == PrintBody(r, false)
            && HeadFits(HeadOf(r)) && CheckHead(HeadOf(r), c.limits) == []
            && |r.query| == TensorBytes(r.queryRows, r.dimension, r.dtype) && Finite(ShapeOf(HeadOf(r), c), r.query)
            && InlinesOk(r.inline, StartOf(HeadOf(r)), ShapeOf(HeadOf(r), c))
  {
    hide PrintHead, ParseHead, CheckHead, ParseInlines, PrintInlines, HeadFits, InlinesOk, StartOf, ShapeOf, Finite,
      TensorBytes;
    var head := ParseHead(s);
    var h := head.value;
    HeadForth(s);
    CheckedHead(h, c.limits);
    var q := ReadQuery(head.rest, h, c);
    var cs := ParseInlines(q.rest, h.count, StartOf(h), ShapeOf(h, c));
    InlinesForth(q.rest, h.count, StartOf(h), ShapeOf(h, c));
    assert head.rest == q.value + q.rest;
    assert cs.rest == [] && PrintInlines(cs.value) + [] == PrintInlines(cs.value);
  }

  lemma {:induction false} CheckedHead(h: Head, limits: Limits)
    ensures CheckHead(h, limits) == [] ==> h.scoring == 1 && h.reserved == 0
  {
  }

  lemma {:induction false} TailForth(s: seq<Byte>, id: nat, h: Head, contractLength: nat, tenantLength: nat,
                                     priority: int, timeout: nat, c: Context)
    requires DecodeExternal(s, id, h, contractLength, tenantLength, priority, timeout, c).Accepted?
    ensures var r := DecodeExternal(s, id, h, contractLength, tenantLength, priority, timeout, c).request;
            && r.ExternalRequest? && r.requestId == id && r.priority == priority && r.timeout == timeout
            && HeadOf(r) == h && CheckHead(h, c.limits) == []
            && s == Tail(r, tenantLength != 0) && |r.contract| == contractLength
              && |TenantBytes(r, tenantLength != 0)| == tenantLength
            && |r.query| == TensorBytes(r.queryRows, r.dimension, r.dtype) && Finite(ShapeOf(h, c), r.query)
            && 1 <= |r.contract| <= 512 && Text(c.platform, r.contract)
            && ExternalsOk(r.external, StartOf(h), ShapeOf(h, c))
            && if tenantLength != 0 then 1 <= |r.tenant| <= 256
              && Text(c.platform, r.tenant) else r.tenant == DEFAULT_TENANT
  {
    CheckedHead(h, c.limits);
    hide CheckHead, ReadText, ParseExternals, PrintExternals, ExternalsOk, StartOf, ShapeOf, Finite, TensorBytes, Text;
    var contract := ReadText(c.platform, s, contractLength, 512);
    TextForth(c.platform, s, contractLength, 512);
    var tenant := if tenantLength == 0 then Got(DEFAULT_TENANT, contract.rest)
      else ReadText(c.platform, contract.rest, tenantLength, 256);
    if tenantLength != 0 { TextForth(c.platform, contract.rest, tenantLength, 256); }
    var q := ReadQuery(tenant.rest, h, c);
    var cs := ParseExternals(q.rest, h.count, StartOf(h), ShapeOf(h, c));
    ExternalsForth(q.rest, h.count, StartOf(h), ShapeOf(h, c));
    assert tenant.rest == q.value + q.rest;
    assert cs.rest == [] && PrintExternals(cs.value) + [] == PrintExternals(cs.value);
    assert tenantLength == 0 ==> [] + tenant.rest == tenant.rest;
  }

  lemma {:induction false} V2Forth(s: seq<Byte>, id: nat, c: Context)
    requires DecodeV2(s, id, c).Accepted?
    ensures var r := DecodeV2(s, id, c).request; BodyFacts(r, false, id, s, c) && VersionOf(r) == 2
  {
    hide PrintHead, ParseHead, CheckHead, DecodeExternal, PrintExternals, HeadFits, ExternalsOk, Text, Little, Number,
      Finite, TensorBytes;
    var head := ParseHead(s);
    HeadForth(s);
    var n := Number(head.rest, 4);
    NumberForth(head.rest, 4);
    TailForth(n.rest, id, head.value, n.value, 0, 0, 0, c);
    var r := DecodeV2(s, id, c).request;
    assert TenantBytes(r, false) + (r.query + PrintExternals(r.external)) == r.query + PrintExternals(r.external);
  }

  lemma {:induction false} SignedForth(u: nat)
    requires u < U32
    ensures Unsigned(Signed(u)) == u
  {
  }

  lemma {:induction false} V3Forth(s: seq<Byte>, id: nat, c: Context)
    requires DecodeV3(s, id, c).Accepted?
    ensures var r := DecodeV3(s, id, c).request;
            (exists explicit :: BodyFacts(r, explicit, id, s, c)) && VersionOf(r) == 3
  {
    hide PrintHead, ParseHead, CheckHead, DecodeExternal, PrintExternals, HeadFits, ExternalsOk, Text, ParseFour,
      PrintFour, Finite, TensorBytes;
    var head := ParseHead(s);
    HeadForth(s);
    var f := ParseFour(head.rest);
    FourForth(head.rest);
    SignedForth(f.value.b);
    TailForth(f.rest, id, head.value, f.value.a, f.value.d, Signed(f.value.b), f.value.c, c);
    var r := DecodeV3(s, id, c).request;
    assert BodyFacts(r, f.value.d != 0, id, s, c);
  }

  /** What is known of an external request decoded from a body. */
  ghost predicate BodyFacts(r: Request, explicit: bool, id: nat, s: seq<Byte>, c: Context) {
    && r.ExternalRequest? && r.requestId == id && s == PrintBody(r, explicit)
    && HeadFits(HeadOf(r)) && CheckHead(HeadOf(r), c.limits) == []
    && |r.query| == TensorBytes(r.queryRows, r.dimension, r.dtype) && Finite(ShapeOf(HeadOf(r), c), r.query)
    && 1 <= |r.contract| <= 512 && Text(c.platform, r.contract)
    && ExternalsOk(r.external, StartOf(HeadOf(r)), ShapeOf(HeadOf(r), c))
    && (if explicit then 1 <= |r.tenant| <= 256 && Text(c.platform, r.tenant) else r.tenant == DEFAULT_TENANT)
    && if VersionOf(r) == 2 then !explicit && r.priority == 0 else -100 <= r.priority <= 100 && 1 <= r.timeout <= 600000
  }

  /** An accepted frame is what its request prints as, with the tenant spelled out or left to its default. */
  lemma {:induction false} PrintDecoded(frame: seq<Byte>, c: Context)
    requires Decode(frame, c).Accepted?
    ensures var r := Decode(frame, c).request; exists explicit ::
              RequestOk(r, explicit, c) && frame == Print(r, explicit)
  {
    hide *;
    var version, id, body := DecodeCases(frame, c);
    var r := Decode(frame, c).request;
    if version == 1 {
      InlineBodyForth(body, id, c);
      InlineFrame(frame, r, c, id, body);
    } else if version == 2 {
      V2Forth(body, id, c);
      ExternalFrame(frame, r, false, c, id, body);
    } else {
      V3Forth(body, id, c);
      var explicit :| BodyFacts(r, explicit, id, body, c);
      ExternalFrame(frame, r, explicit, c, id, body);
    }
  }

  lemma {:induction false} DecodeCases(frame: seq<Byte>, c: Context) returns (version: nat, id: nat, body: seq<Byte>)
    requires Decode(frame, c).Accepted?
    ensures 1 <= version <= 3 && frame == Header(version, id, |body|) + body
    ensures id < Pow256(8) && |body| < Pow256(8) && |frame| <= c.limits.requestBytes
    ensures Decode(frame, c) == if version == 1 then DecodeInline(body, id, c) else if version == 2
            then DecodeV2(body, id, c) else DecodeV3(body, id, c)
  {
    version, id, body := Value(frame[4..6]), Value(frame[8..16]), frame[24..];
    hide Header, DecodeInline, DecodeV2, DecodeV3, Value, Pow256;
    HeaderForth(frame);
  }

  lemma {:induction false} InlineFrame(frame: seq<Byte>, r: Request, c: Context, id: nat, body: seq<Byte>)
    requires frame == Header(1, id, |body|) + body && id < Pow256(8) && |body| < Pow256(8)
             && |frame| <= c.limits.requestBytes
    requires r.InlineRequest? && r.requestId == id && body == PrintBody(r, false)
    requires HeadFits(HeadOf(r)) && CheckHead(HeadOf(r), c.limits) == []
    requires |r.query| == TensorBytes(r.queryRows, r.dimension, r.dtype) && Finite(ShapeOf(HeadOf(r), c), r.query)
    requires InlinesOk(r.inline, StartOf(HeadOf(r)), ShapeOf(HeadOf(r), c))
    ensures RequestOk(r, false, c) && frame == Print(r, false)
  {
    hide PrintBody, Header, HeadFits, CheckHead, TensorBytes, Finite, InlinesOk, Pow256;
  }

  lemma {:induction false} ExternalFrame(frame: seq<Byte>, r: Request, explicit: bool, c: Context, id: nat,
                                         body: seq<Byte>)
    requires BodyFacts(r, explicit, id, body, c)
    requires frame == Header(VersionOf(r), id, |body|) + body && id < Pow256(8) && |body| < Pow256(8)
             && |frame| <= c.limits.requestBytes
    ensures RequestOk(r, explicit, c) && frame == Print(r, explicit)
  {
    hide PrintBody, Header, HeadFits, CheckHead, TensorBytes, Finite, ExternalsOk, Pow256, Text;
  }

  /** Two accepted v1 or v2 frames with the same request are the same frame. */
  lemma {:induction false} DecodeInjective(f: seq<Byte>, g: seq<Byte>, c: Context)
    requires Decode(f, c).Accepted? && Decode(f, c) == Decode(g, c) && VersionOf(Decode(f, c).request) != 3
    ensures f == g
  {
    PrintDecoded(f, c);
    PrintDecoded(g, c);
    hide Decode, Print, PrintBody, CheckHead, HeadFits, InlinesOk, ExternalsOk, Text, Finite, TensorBytes, Pow256;
  }

  /**
   * Of the scheduled v3 frames with one request, there are two exactly when the tenant is the default: the default is
   * either written out or left out.
   */
  lemma {:induction false} ScheduledFrames(f: seq<Byte>, g: seq<Byte>, c: Context)
    requires Decode(f, c).Accepted? && Decode(f, c) == Decode(g, c)
    ensures var r := Decode(f, c).request;
            f == g || (VersionOf(r) == 3 && r.tenant == DEFAULT_TENANT && {f, g} == {Print(r, true), Print(r, false)})
  {
    PrintDecoded(f, c);
    PrintDecoded(g, c);
    hide Decode, Print, PrintBody, CheckHead, HeadFits, InlinesOk, ExternalsOk, Text, Finite, TensorBytes, Pow256;
  }

  lemma {:induction false} DefaultSpelledTwice(r: Request, c: Context)
    requires r.ExternalRequest? && VersionOf(r) == 3 && RequestOk(r, true, c) && RequestOk(r, false, c)
    ensures Print(r, true) != Print(r, false) && Decode(Print(r, true), c) == Decode(Print(r, false), c) == Accepted(r)
  {
    DecodePrinted(r, true, c);
    DecodePrinted(r, false, c);
    hide Decode;
    PrintedLength(r, true);
    PrintedLength(r, false);
  }

  lemma {:induction false} PrintedLength(r: Request, explicit: bool)
    requires r.ExternalRequest? && VersionOf(r) == 3
    ensures |Print(r, explicit)| == 56 + |r.contract| + |TenantBytes(r, explicit)| + |r.query|
            + |PrintExternals(r.external)|
  {
    hide Little, PrintExternals, PrintHead, Header;
  }

  /** A request without candidates, for the default tenant. */
  function PlainRequest(): Request {
    ExternalRequest(0, 1, 1, 2, [97], [0, 0], [], DEFAULT_TENANT, 0, 1)
  }

  function PlainContext(): Context {
    Context(Limits(1024, 1024, 1024, 1024), Platform(_ => true, (_, _) => true), true)
  }

  lemma {:induction false} PlainLength(explicit: bool)
    ensures VersionOf(PlainRequest()) == 3
    ensures |Print(PlainRequest(), explicit)| == 24 + |PrintBody(PlainRequest(), explicit)| <= 1024
  {
    var r := PlainRequest();
    PrintedLength(r, explicit);
    hide PrintBody, Header, HeadOf;
    assert PrintExternals([]) == [];
  }

  lemma {:induction false} PlainOk(explicit: bool)
    ensures VersionOf(PlainRequest()) == 3 && RequestOk(PlainRequest(), explicit, PlainContext())
  {
    hide Print, PrintBody, Pow256;
    PlainLength(explicit);
    Widths();
  }

  /** Two frames for one request: the default tenant spelled out and left out. */
  lemma {:induction false} TwoSpellings() returns (x: seq<Byte>, y: seq<Byte>)
    ensures x != y && Decode(x, PlainContext()) == Decode(y, PlainContext()) == Accepted(PlainRequest())
  {
    PlainOk(true);
    PlainOk(false);
    DefaultSpelledTwice(PlainRequest(), PlainContext());
    x, y := Print(PlainRequest(), true), Print(PlainRequest(), false);
  }

  // ---- Limits ----

  function InlineTokens(cs: seq<Inline>): nat {
    if cs == [] then 0 else cs[0].rows + InlineTokens(cs[1..])
  }

  function InlineBytes(cs: seq<Inline>, dimension: nat, dtype: nat): nat {
    if cs == [] then 0 else TensorBytes(cs[0].rows, dimension, dtype) + InlineBytes(cs[1..], dimension, dtype)
  }

  function ExternalTokens(cs: seq<External>): nat {
    if cs == [] then 0 else cs[0].rows + ExternalTokens(cs[1..])
  }

  function ExternalBytes(cs: seq<External>, dimension: nat, dtype: nat): nat {
    if cs == [] then 0 else TensorBytes(cs[0].rows, dimension, dtype) + ExternalBytes(cs[1..], dimension, dtype)
  }

  lemma {:induction false} InlineLimits(cs: seq<Inline>, t: Totals, h: Shape)
    requires InlinesOk(cs, t, h) && CheckTotals(t, h) == []
    ensures t.tokens + InlineTokens(cs) <= h.limits.batchTokens
            && t.bytes + InlineBytes(cs, h.dimension, h.dtype) <= h.limits.tensorBytes
    ensures forall i :: 0 <= i < |cs| ==> cs[i].id !in t.seen
    ensures forall i, j :: 0 <= i < j < |cs| ==> cs[i].id != cs[j].id
    decreases |cs|
  {
    if cs == [] {
    } else {
      hide TensorBytes, CheckShape, Finite;
      var next, rest := Grown(t, cs[0].id, cs[0].rows, h), cs[1..];
      InlineLimits(rest, next, h);
      forall i | 0 <= i < |cs| ensures cs[i].id !in t.seen { if i > 0 { assert cs[i] == rest[i - 1]; } }
      forall i, j | 0 <= i < j < |cs| ensures cs[i].id != cs[j].id {
        assert cs[j] == rest[j - 1];
        if i > 0 { assert cs[i] == rest[i - 1]; }
      }
    }
  }

  lemma {:induction false} ExternalLimits(cs: seq<External>, t: Totals, h: Shape)
    requires ExternalsOk(cs, t, h) && CheckTotals(t, h) == []
    ensures t.tokens + ExternalTokens(cs) <= h.limits.batchTokens
            && t.bytes + ExternalBytes(cs, h.dimension, h.dtype) <= h.limits.tensorBytes
    ensures forall i :: 0 <= i < |cs| ==> cs[i].id !in t.seen
    ensures forall i, j :: 0 <= i < j < |cs| ==> cs[i].id != cs[j].id
    decreases |cs|
  {
    if cs == [] {
    } else {
      hide TensorBytes, CheckShape, Text, ShaChecksum;
      var next, rest := Grown(t, cs[0].id, cs[0].rows, h), cs[1..];
      ExternalLimits(rest, next, h);
      forall i | 0 <= i < |cs| ensures cs[i].id !in t.seen { if i > 0 { assert cs[i] == rest[i - 1]; } }
      forall i, j | 0 <= i < j < |cs| ensures cs[i].id != cs[j].id {
        assert cs[j] == rest[j - 1];
        if i > 0 { assert cs[i] == rest[i - 1]; }
      }
    }
  }

  /** Every accepted request keeps within the token and byte limits, and its candidate ids are distinct. */
  lemma {:induction false} AcceptedWithinLimits(frame: seq<Byte>, c: Context)
    requires Decode(frame, c).Accepted?
    ensures |frame| <= c.limits.requestBytes
    ensures var r := Decode(frame, c).request;
            match r
            case InlineRequest(_, d, q, t, _, cs) =>
              && q + InlineTokens(cs) <= c.limits.batchTokens && |cs| <= c.limits.candidates
              && TensorBytes(q, d, t) + InlineBytes(cs, d, t) <= c.limits.tensorBytes
              && forall i, j :: 0 <= i < j < |cs| ==> cs[i].id != cs[j].id
            case ExternalRequest(_, d, q, t, _, _, cs, _, _, _) =>
              && q + ExternalTokens(cs) <= c.limits.batchTokens && |cs| <= c.limits.candidates
              && TensorBytes(q, d, t) + ExternalBytes(cs, d, t) <= c.limits.tensorBytes
              && forall i, j :: 0 <= i < j < |cs| ==> cs[i].id != cs[j].id
  {
    PrintDecoded(frame, c);
    var r := Decode(frame, c).request;
    hide Decode, Print, PrintBody, HeadFits, Text, Finite, TensorBytes, Pow256;
    var h := HeadOf(r);
    assert CheckHead(h, c.limits) == [];
    assert CheckTotals(StartOf(h), ShapeOf(h, c)) == [];
    hide CheckHead, CheckTotals, InlinesOk, ExternalsOk;
    match r
    case InlineRequest(_, d, q, t, _, cs) => InlineLimits(cs, StartOf(h), ShapeOf(h, c));
    case ExternalRequest(_, d, q, t, _, _, cs, _, _, _) => ExternalLimits(cs, StartOf(h), ShapeOf(h, c));
  }
}