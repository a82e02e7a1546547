/** Which frames are accepted, in plain numbers: nothing here is said with the decoder's own checks. */
module FrameRules {
  import opened Wire
  import opened Frames

  /** Bytes of a tensor: four for each 32-bit number, two for each 16-bit one. */
  function Payload(rows: nat, dimension: nat, dtype: nat): nat {
    rows * dimension * (if dtype == 1 then 4 else 2)
  }

  /** Characters and no controls. */
  ghost predicate Printable(p: Platform, b: seq<Byte>) {
    p.utf8(b) && forall k :: 0 <= k < |b| ==> b[k] >= 32 && b[k] != 127
  }

  /** "sha256:" and 64 lower-case hexadecimal digits. */
  ghost predicate Sha256(b: seq<Byte>) {
    && |b| == 71 && b[..7] == [115, 104, 97, 50, 53, 54, 58]
    && forall k :: 7 <= k < 71 ==> 48 <= b[k] <= 57 || 97 <= b[k] <= 102
  }

  ghost predicate Clean(c: Context, dtype: nat, payload: seq<Byte>) {
    c.checkFinite ==> c.platform.finite(payload, dtype)
  }

  /** The rows of all candidates together. */
  function Total(rows: seq<nat>): nat {
    if rows == [] then 0 else rows[0] + Total(rows[1..])
  }

  /** What both kinds of request have in common: shape, limits, and distinct candidates. */
  ghost predicate Fitting(dimension: nat, queryRows: nat, dtype: nat, query: seq<Byte>, ids: seq<nat>, rows: seq<nat>,
                          c: Context) {
    && 1 <= dimension <= 60000 && 1 <= queryRows < 0x1_0000_0000 && (dtype == 1 || dtype == 2)
    && |query| == Payload(queryRows, dimension, dtype) && Clean(c, dtype, query)
    && |ids| == |rows| <= c.limits.candidates && |rows| < 0x1_0000_0000
    && (forall i :: 0 <= i < |rows| ==> 1 <= rows[i] < 0x1_0000_0000 && ids[i] < 0x1_0000_0000)
    && (forall i, j :: 0 <= i < j < |ids| ==> ids[i] != ids[j])
    && queryRows + Total(rows) <= c.limits.batchTokens
    && Payload(queryRows + Total(rows), dimension, dtype) <= c.limits.tensorBytes
  }

  function InlineRows(cs: seq<Inline>): (r: seq<nat>)
    ensures |r| == |cs| && forall i :: 0 <= i < |cs| ==> r[i] == cs[i].rows
  {
    seq(|cs|, i requires 0 <= i < |cs| => cs[i].rows)
  }

  function InlineIds(cs: seq<Inline>): (r: seq<nat>)
    ensures |r| == |cs| && forall i :: 0 <= i < |cs| ==> r[i] == cs[i].id
  {
    seq(|cs|, i requires 0 <= i < |cs| => cs[i].id)
  }

  function ExternalRows(cs: seq<External>): (r: seq<nat>)
    ensures |r| == |cs| && forall i :: 0 <= i < |cs| ==> r[i] == cs[i].rows
  {
    seq(|cs|, i requires 0 <= i < |cs| => cs[i].rows)
  }

  function ExternalIds(cs: seq<External>): (r: seq<nat>)
    ensures |r| == |cs| && forall i :: 0 <= i < |cs| ==> r[i] == cs[i].id
  {
    seq(|cs|, i requires 0 <= i < |cs| => cs[i].id)
  }

  ghost predicate InlineFits(x: Inline, dimension: nat, dtype: nat, c: Context) {
    |x.payload| == Payload(x.rows, dimension, dtype) && Clean(c, dtype, x.payload)
  }

  ghost predicate ExternalFits(x: External, c: Context) {
    && 1 <= |x.ref| <= 4096 && Printable(c.platform, x.ref)
    && c.platform.utf8(x.checksum) && Sha256(x.checksum)
  }

  /** Bytes of a frame: header, fixed part and what follows it. */
  function FrameBytes(r: Request, explicit: bool): nat {
    match r
    case InlineRequest(_, _, _, _, query, cs) => 40 + |query| + InlineBytesOf(cs)
    case ExternalRequest(_, _, _, _, contract, query, cs, tenant, _, timeout) =>
      (if timeout == 0 then 44 else if explicit then 56 + |tenant| else 56)
      + |contract| + |query| + ExternalBytesOf(cs)
  }

  function InlineBytesOf(cs: seq<Inline>): nat {
    if cs == [] then 0 else 8 + |cs[0].payload| + InlineBytesOf(cs[1..])
  }

  function ExternalBytesOf(cs: seq<External>): nat {
    if cs == [] then 0 else 16 + |cs[0].ref| + |cs[0].checksum| + ExternalBytesOf(cs[1..])
  }

  /** Requests that can be sent; `explicit` says whether the tenant is spelled out. */
  ghost predicate Acceptable(r: Request, explicit: bool, c: Context) {
    && r.requestId < 0x1_0000_0000_0000_0000
    && FrameBytes(r, explicit) <= c.limits.requestBytes && FrameBytes(r, explicit) < 24 + 0x1_0000_0000_0000_0000
    && match r
       case InlineRequest(_, d, q, t, query, cs) =>
         && !explicit && Fitting(d, q, t, query, InlineIds(cs), InlineRows(cs), c)
         && forall i :: 0 <= i < |cs| ==> InlineFits(cs[i], d, t, c)
       case ExternalRequest(_, d, q, t, contract, query, cs, tenant, priority, timeout) =>
         && Fitting(d, q, t, query, ExternalIds(cs), ExternalRows(cs), c)
         && (forall i :: 0 <= i < |cs| ==> ExternalFits(cs[i], c))
         && 1 <= |contract| <= 512 && Printable(c.platform, contract)
         && (if explicit then 1 <= |tenant| <= 256 && Printable(c.platform, tenant)
             else tenant == [95, 95, 100, 101, 102, 97, 117, 108, 116, 95, 95])
         && if timeout == 0 then !explicit && priority == 0 else -100 <= priority <= 100 && timeout <= 600000
  }

  // ---- The decoder's checks say the same ----

  lemma {:induction false} SmallProduct(rows: nat, dimension: nat)
    requires rows < 0x1_0000_0000 && dimension <= 60000
    ensures rows * dimension <= MAX_ELEMENTS
  {
    assert rows * dimension <= rows * 60000;
  }

  lemma {:induction false} SameBytes(rows: nat, dimension: nat, dtype: nat)
    ensures TensorBytes(rows, dimension, dtype) == Payload(rows, dimension, dtype)
  {
  }

  lemma {:induction false} PayloadAdds(a: nat, b: nat, dimension: nat, dtype: nat)
    ensures Payload(a + b, dimension, dtype) == Payload(a, dimension, dtype) + Payload(b, dimension, dtype)
  {
    var w := if dtype == 1 then 4 else 2;
    assert (a + b) * dimension == a * dimension + b * dimension;
    assert (a * dimension + b * dimension) * w == a * dimension * w + b * dimension * w;
  }

  /** The fixed part passes if and only if its numbers are in range. */
  lemma {:induction false} HeadIff(d: nat, q: nat, count: nat, t: nat, limits: Limits)
    ensures HeadFits(Head(d, q, count, t, 1, 0)) && CheckHead(Head(d, q, count, t, 1, 0), limits) == [] <==>
            && 1 <= d <= 60000 && 1 <= q < 0x1_0000_0000 && (t == 1 || t == 2)
            && count <= limits.candidates && count < 0x1_0000_0000
            && q <= limits.batchTokens && Payload(q, d, t) <= limits.tensorBytes
  {
    SameBytes(q, d, t);
    if q < 0x1_0000_0000 && d <= 60000 { SmallProduct(q, d); }
    hide TensorBytes, Payload;
  }

  /** Candidates as far as their numbers go: new ids, proper shapes, running totals within the limits. */
  ghost predicate CountsOk(ids: seq<nat>, rows: seq<nat>, t: Totals, h: Shape)
    requires |ids| == |rows|
  {
    ids == [] ||
      (&& ids[0] < U32 && rows[0] < U32 && ids[0] !in t.seen
       && CheckShape(rows[0], h.dimension) == [] && CheckTotals(Grown(t, ids[0], rows[0], h), h) == []
       && CountsOk(ids[1..], rows[1..], Grown(t, ids[0], rows[0], h), h))
  }

  /** The same without running totals. */
  ghost predicate Counts(ids: seq<nat>, rows: seq<nat>, t: Totals, h: Shape)
    requires |ids| == |rows|
  {
    && (forall i :: 0 <= i < |rows| ==> 1 <= rows[i] < 0x1_0000_0000 && ids[i] < 0x1_0000_0000 && ids[i] !in t.seen)
    && (forall i, j :: 0 <= i < j < |ids| ==> ids[i] != ids[j])
    && t.tokens + Total(rows) <= h.limits.batchTokens
    && t.bytes + Payload(Total(rows), h.dimension, h.dtype) <= h.limits.tensorBytes
  }

  lemma {:induction false} CountsIff(ids: seq<nat>, rows: seq<nat>, t: Totals, h: Shape)
    requires |ids| == |rows| && 1 <= h.dimension <= 60000
    requires t.tokens <= h.limits.batchTokens && t.bytes <= h.limits.tensorBytes
    ensures CountsOk(ids, rows, t, h) <==> Counts(ids, rows, t, h)
    decreases |ids|
  {
    if ids == [] {
      assert Payload(0, h.dimension, h.dtype) == 0;
    } else {
      var next := Grown(t, ids[0], rows[0], h);
      FirstCounts(ids, rows, t, h);
      if next.tokens <= h.limits.batchTokens && next.bytes <= h.limits.tensorBytes {
        CountsIff(ids[1..], rows[1..], next, h);
      }
      if rows[0] < 0x1_0000_0000 { SmallProduct(rows[0], h.dimension); }
      hide Counts, Grown, Payload, TensorBytes;
    }
  }

  // Taking the first candidate off.
  lemma {:induction false} FirstCounts(ids: seq<nat>, rows: seq<nat>, t: Totals, h: Shape)
    requires |ids| == |rows| > 0
    ensures var next := Grown(t, ids[0], rows[0], h);
            Counts(ids, rows, t, h) <==>
              && 1 <= rows[0] < 0x1_0000_0000 && ids[0] < 0x1_0000_0000 && ids[0] !in t.seen
              && next.tokens <= h.limits.batchTokens && next.bytes <= h.limits.tensorBytes
              && Counts(ids[1..], rows[1..], next, h)
  {
    var next := Grown(t, ids[0], rows[0], h);
    SameBytes(rows[0], h.dimension, h.dtype);
    PayloadAdds(rows[0], Total(rows[1..]), h.dimension, h.dtype);
    hide Payload, TensorBytes;
    assert Total(rows) == rows[0] + Total(rows[1..]);
    if Counts(ids, rows, t, h) {
      assert forall i :: 0 <= i < |rows[1..]| ==> rows[1..][i] == rows[i + 1] && ids[1..][i] == ids[i + 1];
    }
    if Counts(ids[1..], rows[1..], next, h) && 1 <= rows[0] < 0x1_0000_0000 && ids[0] < 0x1_0000_0000
       && ids[0] !in t.seen {
      assert forall i :: 0 < i < |rows| ==> rows[i] == rows[1..][i - 1] && ids[i] == ids[1..][i - 1];
    }
  }

  lemma {:induction false} InlinesIff(cs: seq<Inline>, t: Totals, h: Shape)
    ensures InlinesOk(cs, t, h) <==>
            && CountsOk(InlineIds(cs), InlineRows(cs), t, h)
            && forall i :: 0 <= i < |cs| ==>
                 |cs[i].payload| == TensorBytes(cs[i].rows, h.dimension, h.dtype) && Finite(h, cs[i].payload)
    decreases |cs|
  {
    if cs == [] {
    } else {
      var rest := cs[1..];
      InlinesIff(rest, Grown(t, cs[0].id, cs[0].rows, h), h);
      assert InlineIds(cs)[1..] == InlineIds(rest) && InlineRows(cs)[1..] == InlineRows(rest);
      hide CheckShape, CheckTotals, Grown, TensorBytes, Finite;
      assert forall i :: 0 <= i < |rest| ==> rest[i] == cs[i + 1];
      assert forall i :: 0 < i < |cs| ==> cs[i] == rest[i - 1];
    }
  }

  lemma {:induction false} ExternalsIff(cs: seq<External>, t: Totals, h: Shape)
    ensures ExternalsOk(cs, t, h) <==>
            && CountsOk(ExternalIds(cs), ExternalRows(cs), t, h)
            && forall i :: 0 <= i < |cs| ==> TextsOk(cs[i], h.platform)
    decreases |cs|
  {
    if cs == [] {
    } else {
      var rest := cs[1..];
      ExternalsIff(rest, Grown(t, cs[0].id, cs[0].rows, h), h);
      assert ExternalIds(cs)[1..] == ExternalIds(rest) && ExternalRows(cs)[1..] == ExternalRows(rest);
      assert ExternalOk(cs[0], t, h) <==>
        && cs[0].id < U32 && cs[0].rows < U32 && cs[0].id !in t.seen && TextsOk(cs[0], h.platform)
        && CheckShape(cs[0].rows, h.dimension) == []
        && CheckTotals(Grown(t, cs[0].id, cs[0].rows, h), h) == [];
      hide CheckShape, CheckTotals, Grown, TextsOk, ExternalOk;
      assert forall i :: 0 <= i < |rest| ==> rest[i] == cs[i + 1];
      assert forall i :: 0 < i < |cs| ==> cs[i] == rest[i - 1];
    }
  }

  /** The decoder's checks of an external candidate's texts. */
  ghost predicate TextsOk(x: External, p: Platform) {
    && 1 <= |x.ref| <= 4096 && Text(p, x.ref)
    && |x.checksum| <= 512 && Text(p, x.checksum) && ShaChecksum(x.checksum)
  }

  lemma {:induction false} TextIff(p: Platform, b: seq<Byte>)
    ensures Text(p, b) <==> Printable(p, b)
    ensures ShaChecksum(b) <==> Sha256(b)
  {
  }

  lemma {:induction false} TextsIff(x: External, c: Context)
    ensures TextsOk(x, c.platform) <==> ExternalFits(x, c)
  {
    TextIff(c.platform, x.ref);
    TextIff(c.platform, x.checksum);
    hide Text, ShaChecksum;
    if Sha256(x.checksum) {
      forall k | 0 <= k < 71 ensures x.checksum[k] >= 32 && x.checksum[k] != 127 {
        if k < 7 { assert x.checksum[k] == x.checksum[..7][k]; }
      }
    }
  }

  /** A context's shape, and the totals after the query. */
  lemma {:induction false} FittingIff(d: nat, q: nat, dtype: nat, query: seq<Byte>, ids: seq<nat>, rows: seq<nat>,
                                      c: Context)
    requires |ids| == |rows|
    ensures var h := Head(d, q, |rows|, dtype, 1, 0);
            Fitting(d, q, dtype, query, ids, rows, c) <==>
              && HeadFits(h) && CheckHead(h, c.limits) == []
              && |query| == TensorBytes(q, d, dtype) && Finite(ShapeOf(h, c), query)
              && CountsOk(ids, rows, StartOf(h), ShapeOf(h, c))
  {
    var h := Head(d, q, |rows|, dtype, 1, 0);
    HeadIff(d, q, |rows|, dtype, c.limits);
    SameBytes(q, d, dtype);
    PayloadAdds(q, Total(rows), d, dtype);
    if 1 <= d <= 60000 && q <= c.limits.batchTokens && Payload(q, d, dtype) <= c.limits.tensorBytes {
      CountsIff(ids, rows, StartOf(h), ShapeOf(h, c));
    }
    hide HeadFits, CheckHead, TensorBytes, Payload, CountsOk;
  }

  lemma {:induction false} InlineLength(cs: seq<Inline>)
    ensures |PrintInlines(cs)| == InlineBytesOf(cs)
    decreases |cs|
  {
    if cs == [] {
    } else {
      InlineLength(cs[1..]);
      hide Little;
    }
  }

  lemma {:induction false} ExternalLength(cs: seq<External>)
    ensures |PrintExternals(cs)| == ExternalBytesOf(cs)
    decreases |cs|
  {
    if cs == [] {
    } else {
      ExternalLength(cs[1..]);
      hide Little;
    }
  }

  /** The length of a frame. */
  lemma {:induction false} PrintedBytes(r: Request, explicit: bool)
    ensures |Print(r, explicit)| == 24 + |PrintBody(r, explicit)|
    ensures r.InlineRequest? || (r.timeout == 0 ==> !explicit) ==> |Print(r, explicit)| == FrameBytes(r, explicit)
  {
    if r.InlineRequest? { InlineLength(r.inline); } else { ExternalLength(r.external); }
    hide Little, PrintExternals, PrintInlines, PrintHead, Header;
  }

  lemma {:induction false} InlineIff(r: Request, c: Context)
    requires r.InlineRequest?
    ensures var h := HeadOf(r);
            && HeadFits(h) && CheckHead(h, c.limits) == []
            && |r.query| == TensorBytes(r.queryRows, r.dimension, r.dtype) && Finite(ShapeOf(h, c), r.query)
            && InlinesOk(r.inline, StartOf(h), ShapeOf(h, c)) <==>
            && Fitting(r.dimension, r.queryRows, r.dtype, r.query, InlineIds(r.inline), InlineRows(r.inline), c)
            && forall i :: 0 <= i < |r.inline| ==> InlineFits(r.inline[i], r.dimension, r.dtype, c)
  {
    var h, cs := HeadOf(r), r.inline;
    FittingIff(r.dimension, r.queryRows, r.dtype, r.query, InlineIds(cs), InlineRows(cs), c);
    InlinesIff(cs, StartOf(h), ShapeOf(h, c));
    forall i | 0 <= i < |cs|
      ensures InlineFits(cs[i], r.dimension, r.dtype, c) <==>
              |cs[i].payload| == TensorBytes(cs[i].rows, r.dimension, r.dtype) && Finite(ShapeOf(h, c), cs[i].payload)
    {
      SameBytes(cs[i].rows, r.dimension, r.dtype);
    }
    hide HeadFits, CheckHead, TensorBytes, Payload, CountsOk, Fitting, InlinesOk, InlineFits, Finite;
  }

  lemma {:induction false} ExternalIff(r: Request, c: Context)
    requires r.ExternalRequest?
    ensures var h := HeadOf(r);
            && HeadFits(h) && CheckHead(h, c.limits) == []
            && |r.query| == TensorBytes(r.queryRows, r.dimension, r.dtype) && Finite(ShapeOf(h, c), r.query)
            && ExternalsOk(r.external, StartOf(h), ShapeOf(h, c)) <==>
            && Fitting(r.dimension, r.queryRows, r.dtype, r.query, ExternalIds(r.external), ExternalRows(r.external), c)
            && forall i :: 0 <= i < |r.external| ==> ExternalFits(r.external[i], c)
  {
    var h, cs := HeadOf(r), r.external;
    FittingIff(r.dimension, r.queryRows, r.dtype, r.query, ExternalIds(cs), ExternalRows(cs), c);
    ExternalsIff(cs, StartOf(h), ShapeOf(h, c));
    forall i | 0 <= i < |cs| ensures ExternalFits(cs[i], c) <==> TextsOk(cs[i], c.platform) { TextsIff(cs[i], c); }
    hide HeadFits, CheckHead, TensorBytes, CountsOk, Fitting, ExternalsOk, ExternalFits, TextsOk, Finite;
  }

  /** What the decoder asks of a request is what can be sent. */
  lemma {:induction false} OkIff(r: Request, explicit: bool, c: Context)
    ensures RequestOk(r, explicit, c) <==> Acceptable(r, explicit, c)
  {
    Widths();
    PrintedBytes(r, explicit);
    if r.InlineRequest? {
      InlineIff(r, c);
    } else {
      ExternalIff(r, c);
      TextIff(c.platform, r.contract);
      TextIff(c.platform, r.tenant);
    }
    hide Print, PrintBody, FrameBytes, Pow256, HeadFits, CheckHead, TensorBytes, Finite, Fitting, InlinesOk,
      ExternalsOk, Text, Printable, ExternalFits, InlineFits;
  }

  /** A frame is accepted as a request if and only if it spells a request that can be sent. */
  lemma {:induction false} AcceptedIff(frame: seq<Byte>, r: Request, c: Context)
    ensures Decode(frame, c) == Accepted(r) <==>
            exists explicit :: Acceptable(r, explicit, c) && frame == Print(r, explicit)
  {
    hide *;
    OkIff(r, true, c);
    OkIff(r, false, c);
    if Decode(frame, c) == Accepted(r) {
      PrintDecoded(frame, c);
      var explicit :| RequestOk(r, explicit, c) && frame == Print(r, explicit);
      assert Acceptable(r, explicit, c);
    }
    if explicit :| Acceptable(r, explicit, c) && frame == Print(r, explicit) {
      DecodePrinted(r, explicit, c);
    }
  }

  /** How a frame begins: four letters, version, kind, request id and body length, lowest byte first. */
  lemma {:induction false} FrameStarts(r: Request, explicit: bool)
    ensures var f, n := Print(r, explicit), |PrintBody(r, explicit)|;
            && |f| == 24 + n && f[..4] == [86, 67, 84, 77] && f[4..6] == Little(VersionOf(r), 2) && f[6..8] == [1, 0]
            && f[8..16] == Little(r.requestId, 8) && f[16..24] == Little(n, 8) && f[24..] == PrintBody(r, explicit)
  {
    assert Little(1, 2) == [1, 0];
    var body := PrintBody(r, explicit);
    hide Little, PrintBody;
    HeaderSlices([86, 67, 84, 77], Little(VersionOf(r), 2), [1, 0], Little(r.requestId, 8), Little(|body|, 8), body);
  }

  // ---- Which error is reported ----

  /** The fixed part is refused as invalid, or as beyond a limit, as its numbers say. */
  lemma {:induction false} HeadStatus(h: Head, limits: Limits)
    ensures var shaped := 1 <= h.dimension <= 60000 && h.queryRows > 0;
            var coded := (h.dtype == 1 || h.dtype == 2) && h.scoring == 1 && h.reserved == 0;
            && (CheckHead(h, limits) == [InvalidRequest] <==> !shaped || (h.count <= limits.candidates && !coded))
            && (CheckHead(h, limits) == [ResourceLimit] <==>
                  && shaped
                  && (|| h.count > limits.candidates
                      || (coded && (|| h.queryRows > limits.batchTokens
                                    || h.queryRows * h.dimension > 0x7fff_ffff_ffff_ffff
                                    || Payload(h.queryRows, h.dimension, h.dtype) > limits.tensorBytes))))
            && |CheckHead(h, limits)| <= 1
  {
    SameBytes(h.queryRows, h.dimension, h.dtype);
    hide TensorBytes, Payload;
  }

  /** So is a candidate's shape. */
  lemma {:induction false} CandidateStatus(rows: nat, t: Totals, h: Shape, id: nat)
    requires h.dimension > 0
    ensures var bad := CheckShape(rows, h.dimension) + CheckTotals(Grown(t, id, rows, h), h);
            && (bad != [] && bad[0] == InvalidRequest <==> rows == 0)
            && (bad != [] && bad[0] == ResourceLimit <==>
                  && rows > 0
                  && (|| rows * h.dimension > 0x7fff_ffff_ffff_ffff || t.tokens + rows > h.limits.batchTokens
                      || t.bytes + Payload(rows, h.dimension, h.dtype) > h.limits.tensorBytes))
  {
    SameBytes(rows, h.dimension, h.dtype);
    hide TensorBytes, Payload;
  }
}
