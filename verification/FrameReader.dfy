/** The decoder as it runs: a reader that advances through the frame, and the version 2 encoder. */
module FrameReader {
  import opened Wire
  import opened Frames
  import FrameRules

  datatype Outcome<T> = Ok(value: T) | Error(status: Status)

  class Reader {
    const payload: seq<Byte>
    var offset: nat

    ghost predicate Valid()
      reads this
    {
      offset <= |payload|
    }

    /** What is still unread. */
    ghost function Rest(): seq<Byte>
      requires Valid()
      reads this
    {
      payload[offset..]
    }

    constructor (payload: seq<Byte>)
      ensures Valid() && Rest() == payload && this.payload == payload
    {
      this.payload, this.offset := payload, 0;
    }

    method Read(count: nat) returns (r: Outcome<seq<Byte>>)
      requires Valid()
      modifies this`offset
      ensures Valid()
      ensures var p := Take(old(Rest()), count);
              if p.Got? then r == Ok(p.value) && Rest() == p.rest else r == Error(p.status) && Rest() == old(Rest())
    {
      if offset + count > |payload| { return Error(InvalidRequest); }
      assert payload[offset..][..count] == payload[offset..offset + count];
      assert payload[offset..][count..] == payload[offset + count..];
      r := Ok(payload[offset..offset + count]);
      offset := offset + count;
    }

    method ReadNumber(k: nat) returns (r: Outcome<nat>)
      requires Valid()
      modifies this`offset
      ensures Valid()
      ensures var p := Number(old(Rest()), k);
              if p.Got? then r == Ok(p.value) && Rest() == p.rest else r == Error(InvalidRequest)
    {
      var b := Read(k);
      if b.Error? { return Error(InvalidRequest); }
      r := Ok(Value(b.value));
    }

    method ReadFour() returns (r: Outcome<Four>)
      requires Valid()
      modifies this`offset
      ensures Valid()
      ensures var p := ParseFour(old(Rest()));
              if p.Got? then r == Ok(p.value) && Rest() == p.rest else r == Error(InvalidRequest)
    {
      hide Value;
      ghost var s := Rest();
      var b := Read(16);
      if b.Error? { return Error(InvalidRequest); }
      var v := b.value;
      assert v == s[..16] && v[..4] == s[..4] && v[4..8] == s[4..8] && v[8..12] == s[8..12] && v[12..16] == s[12..16];
      r := Ok(Four(Value(v[..4]), Value(v[4..8]), Value(v[8..12]), Value(v[12..16])));
    }

    method ReadHead() returns (r: Outcome<Head>)
      requires Valid()
      modifies this`offset
      ensures Valid()
      ensures var p := ParseHead(old(Rest()));
              if p.Got? then r == Ok(p.value) && Rest() == p.rest else r == Error(InvalidRequest)
    {
      hide Value;
      ghost var s := Rest();
      var b := Read(16);
      if b.Error? { return Error(InvalidRequest); }
      var v := b.value;
      assert v == s[..16] && v[..4] == s[..4] && v[4..8] == s[4..8] && v[8..12] == s[8..12];
      assert v[12..13] == s[12..13] && v[13..14] == s[13..14] && v[14..16] == s[14..16];
      r := Ok(Head(Value(v[..4]), Value(v[4..8]), Value(v[8..12]), Value(v[12..13]), Value(v[13..14]),
                   Value(v[14..16])));
    }

    method ReadString(p: Platform, length: nat, maximum: nat) returns (r: Outcome<seq<Byte>>)
      requires Valid()
      modifies this`offset
      ensures Valid()
      ensures var q := ReadText(p, old(Rest()), length, maximum);
              if q.Got? then r == Ok(q.value) && Rest() == q.rest else r == Error(q.status)
    {
      if length == 0 || length > maximum { return Error(ResourceLimit); }
      var b := Read(length);
      if b.Error? { return Error(InvalidRequest); }
      if !Text(p, b.value) { return Error(InvalidRequest); }
      r := b;
    }

    method ReadTensor(h: Head, c: Context) returns (r: Outcome<seq<Byte>>)
      requires Valid()
      modifies this`offset
      ensures Valid()
      ensures var q := ReadQuery(old(Rest()), h, c);
              if q.Got? then r == Ok(q.value) && Rest() == q.rest else r == Error(q.status)
    {
      hide TensorBytes, Finite;
      var b := Read(TensorBytes(h.queryRows, h.dimension, h.dtype));
      if b.Error? { return Error(InvalidRequest); }
      if !Finite(ShapeOf(h, c), b.value) { return Error(InvalidRequest); }
      r := b;
    }

    method ReadInline(t: Totals, h: Shape) returns (r: Outcome<Inline>)
      requires Valid()
      modifies this`offset
      ensures Valid()
      ensures var p := ParseInline(old(Rest()), t, h);
              if p.Got? then r == Ok(p.value) && Rest() == p.rest else r == Error(p.status)
    {
      hide TensorBytes, Finite, CheckShape, CheckTotals, Grown, Number;
      var id := ReadNumber(4);
      if id.Error? { return Error(InvalidRequest); }
      var rows := ReadNumber(4);
      if rows.Error? { return Error(InvalidRequest); }
      if id.value in t.seen { return Error(InvalidRequest); }
      var bad := CheckShape(rows.value, h.dimension) + CheckTotals(Grown(t, id.value, rows.value, h), h);
      if bad != [] { return Error(bad[0]); }
      var payload := Read(TensorBytes(rows.value, h.dimension, h.dtype));
      if payload.Error? { return Error(InvalidRequest); }
      if !Finite(h, payload.value) { return Error(InvalidRequest); }
      r := Ok(Inline(id.value, rows.value, payload.value));
    }

    method ReadExternal(t: Totals, h: Shape) returns (r: Outcome<External>)
      requires Valid()
      modifies this`offset
      ensures Valid()
      ensures var p := ParseExternal(old(Rest()), t, h);
              if p.Got? then r == Ok(p.value) && Rest() == p.rest else r == Error(p.status)
    {
      hide TensorBytes, CheckShape, CheckTotals, Grown, ParseFour, ReadText, ShaChecksum;
      var f := ReadFour();
      if f.Error? { return Error(InvalidRequest); }
      if f.value.a in t.seen { return Error(InvalidRequest); }
      var ref := ReadString(h.platform, f.value.c, 4096);
      if ref.Error? { return Error(ref.status); }
      var checksum := ReadString(h.platform, f.value.d, 512);
      if checksum.Error? { return Error(checksum.status); }
      if !ShaChecksum(checksum.value) { return Error(InvalidRequest); }
      var bad := CheckShape(f.value.b, h.dimension) + CheckTotals(Grown(t, f.value.a, f.value.b, h), h);
      if bad != [] { return Error(bad[0]); }
      r := Ok(External(f.value.a, f.value.b, ref.value, checksum.value));
    }

    method ReadInlines(count: nat, start: Totals, h: Shape) returns (r: Outcome<seq<Inline>>)
      requires Valid()
      modifies this`offset
      ensures Valid()
      ensures var p := ParseInlines(old(Rest()), count, start, h);
              if p.Got? then r == Ok(p.value) && Rest() == p.rest else r == Error(p.status)
    {
      hide ParseInline, Grown;
      var cs: seq<Inline> := [];
      var t := start;
      ghost var all := ParseInlines(Rest(), count, start, h);
      assert all.Got? ==> [] + all.value == all.value;
      for k := 0 to count
        invariant Valid() && Continues(all, cs, ParseInlines(Rest(), count - k, t, h))
      {
        var c := ReadInline(t, h);
        if c.Error? { return Error(c.status); }
        ghost var more := ParseInlines(Rest(), count - k - 1, Grown(t, c.value.id, c.value.rows, h), h);
        assert more.Got? ==> cs + ([c.value] + more.value) == (cs + [c.value]) + more.value;
        cs := cs + [c.value];
        t := Grown(t, c.value.id, c.value.rows, h);
      }
      assert cs + [] == cs;
      r := Ok(cs);
    }

    method ReadExternals(count: nat, start: Totals, h: Shape) returns (r: Outcome<seq<External>>)
      requires Valid()
      modifies this`offset
      ensures Valid()
      ensures var p := ParseExternals(old(Rest()), count, start, h);
              if p.Got? then r == Ok(p.value) && Rest() == p.rest else r == Error(p.status)
    {
      hide ParseExternal, Grown;
      var cs: seq<External> := [];
      var t := start;
      ghost var all := ParseExternals(Rest(), count, start, h);
      assert all.Got? ==> [] + all.value == all.value;
      for k := 0 to count
        invariant Valid() && Continues(all, cs, ParseExternals(Rest(), count - k, t, h))
      {
        var c := ReadExternal(t, h);
        if c.Error? { return Error(c.status); }
        ghost var more := ParseExternals(Rest(), count - k - 1, Grown(t, c.value.id, c.value.rows, h), h);
        assert more.Got? ==> cs + ([c.value] + more.value) == (cs + [c.value]) + more.value;
        cs := cs + [c.value];
        t := Grown(t, c.value.id, c.value.rows, h);
      }
      assert cs + [] == cs;
      r := Ok(cs);
    }

    method ParseInlineBody(id: nat, c: Context) returns (r: Decoded)
      requires Valid()
      modifies this`offset
      ensures Valid() && r == DecodeInline(old(Rest()), id, c)
    {
      hide ParseHead, CheckHead, ReadQuery, ParseInlines;
      var head := ReadHead();
      if head.Error? { return Refused(InvalidRequest); }
      var h := head.value;
      var bad := CheckHead(h, c.limits);
      if bad != [] { return Refused(bad[0]); }
      var q := ReadTensor(h, c);
      if q.Error? { return Refused(q.status); }
      var cs := ReadInlines(h.count, StartOf(h), ShapeOf(h, c));
      if cs.Error? { return Refused(cs.status); }
      if offset != |payload| { return Refused(InvalidRequest); }
      r := Accepted(InlineRequest(id, h.dimension, h.queryRows, h.dtype, q.value, cs.value));
    }

    method ParseExternalBody(id: nat, h: Head, contractLength: nat, tenantLength: nat, priority: int, timeout: nat,
                             c: Context)
      returns (r: Decoded)
      requires Valid()
      modifies this`offset
      ensures Valid() && r == DecodeExternal(old(Rest()), id, h, contractLength, tenantLength, priority, timeout, c)
    {
      hide CheckHead, ReadQuery, ReadText, ParseExternals;
      var bad := CheckHead(h, c.limits);
      if bad != [] { return Refused(bad[0]); }
      var contract := ReadString(c.platform, contractLength, 512);
      if contract.Error? { return Refused(contract.status); }
      var tenant := Ok(DEFAULT_TENANT);
      if tenantLength != 0 {
        tenant := ReadString(c.platform, tenantLength, 256);
        if tenant.Error? { return Refused(tenant.status); }
      }
      var q := ReadTensor(h, c);
      if q.Error? { return Refused(q.status); }
      var cs := ReadExternals(h.count, StartOf(h), ShapeOf(h, c));
      if cs.Error? { return Refused(cs.status); }
      if offset != |payload| { return Refused(InvalidRequest); }
      r := Accepted(ExternalRequest(id, h.dimension, h.queryRows, h.dtype, contract.value, q.value, cs.value,
                                    tenant.value, priority, timeout));
    }
  }

  // The list so far, continued by the rest, is the whole.
  ghost predicate Continues<T>(all: Parsed<seq<T>>, done: seq<T>, rest: Parsed<seq<T>>) {
    if rest.Got? then all == Got(done + rest.value, rest.rest) else all == Bad(rest.status)
  }

  /** Decodes a frame as the specification does. */
  method ParseFrame(frame: seq<Byte>, c: Context) returns (r: Decoded)
    ensures r == Decode(frame, c)
  {
    hide Value, DecodeInline, DecodeExternal, ParseHead, ParseFour, Number;
    if |frame| < 24 { return Refused(InvalidRequest); }
    var version, kind, id, length := Value(frame[4..6]), Value(frame[6..8]), Value(frame[8..16]), Value(frame[16..24]);
    if frame[..4] != MAGIC { return Refused(InvalidRequest); }
    if version != 1 && version != 2 && version != 3 { return Refused(InvalidRequest); }
    if kind != 1 { return Refused(InvalidRequest); }
    if length != |frame| - 24 { return Refused(InvalidRequest); }
    if |frame| > c.limits.requestBytes { return Refused(ResourceLimit); }
    var reader := new Reader(frame[24..]);
    if version == 1 {
      r := reader.ParseInlineBody(id, c);
      return;
    }
    var head := reader.ReadHead();
    if head.Error? { return Refused(InvalidRequest); }
    if version == 3 {
      var f := reader.ReadFour();
      if f.Error? { return Refused(InvalidRequest); }
      var priority, timeout := Signed(f.value.b), f.value.c;
      if !(-100 <= priority <= 100) || !(1 <= timeout <= 600000) { return Refused(InvalidRequest); }
      r := reader.ParseExternalBody(id, head.value, f.value.a, f.value.d, priority, timeout, c);
    } else {
      var n := reader.ReadNumber(4);
      if n.Error? { return Refused(InvalidRequest); }
      r := reader.ParseExternalBody(id, head.value, n.value, 0, 0, 0, c);
    }
  }

  /** The frame was printed from a request within the rules. */
  ghost predicate Printed(frame: seq<Byte>, r: Request, c: Context) {
    exists explicit :: FrameRules.Acceptable(r, explicit, c) && frame == Print(r, explicit)
  }

  lemma {:induction false} PrintedIff(frame: seq<Byte>, r: Request, c: Context)
    ensures Printed(frame, r, c) <==> Decode(frame, c) == Accepted(r)
  {
    hide FrameRules.Acceptable, Print, Decode;
    FrameRules.AcceptedIff(frame, r, c);
  }

  /** Decodes a frame: it accepts what is printed from a request within the rules, as that request, and nothing else. */
  method ParseRequestFrame(frame: seq<Byte>, c: Context) returns (r: Decoded)
    ensures r == Decode(frame, c)
    ensures r.Accepted? ==> Printed(frame, r.request, c)
    ensures r.Refused? ==> forall q :: !Printed(frame, q, c)
  {
    hide *;
    r := ParseFrame(frame, c);
    forall q ensures Printed(frame, q, c) <==> r == Accepted(q) {
      PrintedIff(frame, q, c);
    }
  }

  // ---- The version 2 encoder ----

  /** A benchmark record: the tensor's reference, checksum and rows. */
  datatype Record = Record(ref: seq<Byte>, checksum: seq<Byte>, rows: nat)

  ghost function Candidates(records: seq<Record>, from: nat): (cs: seq<External>)
    ensures |cs| == |records|
  {
    if records == [] then [] else
      [External(from, records[0].rows, records[0].ref, records[0].checksum)] + Candidates(records[1..], from + 1)
  }

  lemma {:induction false} CandidatesAppend(records: seq<Record>, r: Record, from: nat)
    ensures PrintExternals(Candidates(records + [r], from)) ==
            PrintExternals(Candidates(records, from)) + PrintExternal(External(from + |records|, r.rows, r.ref,
                                                                               r.checksum))
    decreases |records|
  {
    hide PrintExternal;
    if records == [] {
      assert records + [r] == [r];
      var c := External(from, r.rows, r.ref, r.checksum);
      assert Candidates([r], from) == [c] + Candidates([], from + 1) == [c];
      assert PrintExternals([c]) == PrintExternal(c) + PrintExternals([]);
      assert PrintExternals(Candidates(records, from)) == [];
    } else {
      assert (records + [r])[1..] == records[1..] + [r] && (records + [r])[0] == records[0];
      CandidatesAppend(records[1..], r, from + 1);
      var c := External(from, records[0].rows, records[0].ref, records[0].checksum);
      var all, rest := Candidates(records + [r], from), Candidates(records[1..] + [r], from + 1);
      assert all == [c] + rest && all[0] == c && all[1..] == rest;
      var cs := Candidates(records, from);
      assert cs[0] == c && cs[1..] == Candidates(records[1..], from + 1);
    }
  }

  /** The request that an encoded frame is meant to carry. */
  ghost function Meant(records: seq<Record>, contract: seq<Byte>, query: seq<Byte>, rows: nat, dimension: nat,
                       dtype: nat, id: nat): Request
  {
    ExternalRequest(id, dimension, rows, dtype, contract, query, Candidates(records, 0), DEFAULT_TENANT, 0, 0)
  }

  /** A version 2 frame that gives the contract's length as `characters`. */
  ghost function Encoded(r: Request, characters: nat): seq<Byte>
    requires r.ExternalRequest?
  {
    var body := PrintHead(HeadOf(r)) + (Little(characters, 4) + (r.contract + (r.query + PrintExternals(r.external))));
    Header(2, r.requestId, |body|) + body
  }

  /** The encoder's frame decodes to what was meant if and only if the contract has one byte per character. */
  lemma {:induction false} EncodedRoundTrip(r: Request, characters: nat, c: Context)
    requires r.ExternalRequest? && VersionOf(r) == 2 && RequestOk(r, false, c) && characters < U32
    ensures Decode(Encoded(r, characters), c) == Accepted(r) <==> characters == |r.contract|
  {
    EncodedIsPrinted(r);
    if characters == |r.contract| {
      DecodePrinted(r, false, c);
    } else if Decode(Encoded(r, characters), c) == Accepted(r) {
      PrintDecoded(Encoded(r, characters), c);
      assert Encoded(r, characters) == Print(r, false) by { hide Print, Encoded, Decode, PrintBody; }
      SameLength(r, characters, |r.contract|);
    }
  }

  lemma {:induction false} EncodedIsPrinted(r: Request)
    requires r.ExternalRequest? && VersionOf(r) == 2
    ensures Encoded(r, |r.contract|) == Print(r, false)
  {
    hide PrintHead, Header, Little, PrintExternals;
  }

  lemma {:induction false} SameLength(r: Request, a: nat, b: nat)
    requires r.ExternalRequest? && a < U32 && b < U32 && Encoded(r, a) == Encoded(r, b)
    ensures a == b
  {
    Widths();
    LittleValue(a, 4);
    LittleValue(b, 4);
    var tail := r.contract + (r.query + PrintExternals(r.external));
    hide Little, Value, Pow256, PrintExternals;
    LengthField(Header(2, r.requestId, 20 + |tail|), PrintHead(HeadOf(r)), Little(a, 4), tail);
    LengthField(Header(2, r.requestId, 20 + |tail|), PrintHead(HeadOf(r)), Little(b, 4), tail);
    hide PrintHead, Header;
  }

  lemma {:induction false} LengthField(header: seq<Byte>, head: seq<Byte>, n: seq<Byte>, tail: seq<Byte>)
    requires |header| == 24 && |head| == 16 && |n| == 4
    ensures |head + (n + tail)| == 20 + |tail| && (header + (head + (n + tail)))[40..44] == n
  {
  }

  // One more record is its four numbers, reference and checksum.
  lemma {:induction false} RecordNext(records: seq<Record>, k: nat)
    requires k < |records|
    ensures var x := records[k];
            PrintExternals(Candidates(records[..k + 1], 0)) ==
            PrintExternals(Candidates(records[..k], 0))
              + (PrintFour(Four(k, x.rows, |x.ref|, |x.checksum|)) + x.ref + x.checksum)
  {
    hide PrintExternal, PrintFour, PrintExternals, Candidates;
    var x := records[k];
    var c := External(k, x.rows, x.ref, x.checksum);
    CandidatesAppend(records[..k], x, 0);
    assert records[..k + 1] == records[..k] + [x];
    PrintExternalIs(c, []);
    assert PrintExternal(c) + [] == PrintExternal(c);
    assert PrintFour(FourOf(c)) + (c.ref + (c.checksum + [])) == PrintFour(FourOf(c)) + x.ref + x.checksum;
  }

  lemma {:induction false} NoRecords()
    ensures PrintExternals(Candidates([], 0)) == []
  {
  }

  lemma {:induction false} EncodedIs(r: Request, characters: nat, body: seq<Byte>)
    requires r.ExternalRequest?
    requires body == PrintHead(HeadOf(r)) + Little(characters, 4) + r.contract + r.query + PrintExternals(r.external)
    ensures Encoded(r, characters) == Header(2, r.requestId, |body|) + body
  {
    hide PrintHead, Header, Little, PrintExternals;
    var tail := r.contract + (r.query + PrintExternals(r.external));
    assert body == PrintHead(HeadOf(r)) + (Little(characters, 4) + tail);
  }

  /** Writes a frame; `characters` is the contract's length in characters, which is what goes into the frame. */
  method EncodeFrame(records: seq<Record>, contract: seq<Byte>, characters: nat, query: seq<Byte>, rows: nat,
                     dimension: nat, dtype: nat, id: nat) returns (frame: seq<Byte>)
    ensures frame == Encoded(Meant(records, contract, query, rows, dimension, dtype, id), characters)
  {
    hide PrintHead, Header, PrintFour, PrintExternals, Candidates, Encoded, Little;
    var body := PrintHead(Head(dimension, rows, |records|, dtype, 1, 0)) + Little(characters, 4);
    body := body + contract;
    body := body + query;
    ghost var front := body;
    NoRecords();
    assert records[..0] == [] && front + [] == front;
    for k := 0 to |records|
      invariant body == front + PrintExternals(Candidates(records[..k], 0))
    {
      RecordNext(records, k);
      var x := records[k];
      body := body + PrintFour(Four(k, x.rows, |x.ref|, |x.checksum|));
      body := body + x.ref;
      body := body + x.checksum;
    }
    assert records[..|records|] == records;
    EncodedIs(Meant(records, contract, query, rows, dimension, dtype, id), characters, body);
    frame := Header(2, id, |body|) + body;
  }

  /**
   * A request encoded and parsed again: it arrives as it was meant if and only if the declared contract length, which
   * counts characters, is the number of its bytes.
   */
  method EncodeAndParse(records: seq<Record>, contract: seq<Byte>, characters: nat, query: seq<Byte>, rows: nat,
                        dimension: nat, dtype: nat, id: nat, c: Context) returns (r: Decoded)
    requires characters < U32
    ensures var meant := Meant(records, contract, query, rows, dimension, dtype, id);
            RequestOk(meant, false, c) ==> (r == Accepted(meant) <==> characters == |contract|)
  {
    hide Encoded, Decode, RequestOk;
    ghost var meant := Meant(records, contract, query, rows, dimension, dtype, id);
    var frame := EncodeFrame(records, contract, characters, query, rows, dimension, dtype, id);
    r := ParseRequestFrame(frame, c);
    if RequestOk(meant, false, c) { EncodedRoundTrip(meant, characters, c); }
  }
}
