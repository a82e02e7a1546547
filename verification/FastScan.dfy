/**
 * The 4-bit fast scan: 32 code vectors packed two nibbles to a byte, table look-ups added in 16-bit lanes, and the sign
 * tables the look-ups come from.
 */
module FastScan {
  import opened Vectors
  import Codes

  // ---- Layout ----

  /** Sixteen bytes. */
  predicate Bytes(b: seq<nat>) {
    |b| == 16 && forall j :: 0 <= j < 16 ==> b[j] < 256
  }

  type Block = b: seq<nat> | Bytes(b) witness [0, 0, 0, 0, 0, 0, 0, 0, 0, 0, 0, 0, 0, 0, 0, 0]

  /** The vector in the low half of each byte; the high half holds the vector 16 later. */
  const LOW_VECTOR: seq<nat> := [0, 8, 1, 9, 2, 10, 3, 11, 4, 12, 5, 13, 6, 14, 7, 15]

  /** The byte that holds each of the first 16 vectors. */
  const BYTE_OF: seq<nat> := [0, 2, 4, 6, 8, 10, 12, 14, 1, 3, 5, 7, 9, 11, 13, 15]

  lemma {:induction false} LanesCancel()
    ensures |LOW_VECTOR| == |BYTE_OF| == 16
    ensures forall v :: 0 <= v < 16 ==> BYTE_OF[v] < 16 && LOW_VECTOR[BYTE_OF[v]] == v
    ensures forall j :: 0 <= j < 16 ==> LOW_VECTOR[j] < 16 && BYTE_OF[LOW_VECTOR[j]] == j
  {
  }

  /** Thirty-two vectors of one length. */
  predicate Columns(x: seq<seq<nat>>, n: nat) {
    |x| == 32 && forall v :: 0 <= v < 32 ==> |x[v]| == n
  }

  predicate Nibbles(x: seq<seq<nat>>) {
    forall v, i :: 0 <= v < |x| && 0 <= i < |x[v]| ==> x[v][i] < 16
  }

  /** A byte from two entries: the second shifted up by four, in eight bits. */
  function PackByte(low: nat, high: nat): nat {
    Codes.Or(low % 256, high * 16 % 256)
  }

  lemma {:induction false} PackNibbles(low: nat, high: nat)
    requires low < 16 && high < 16
    ensures PackByte(low, high) == low + 16 * high < 256
  {
    hide Codes.Or, Pow2;
    Sixteen();
    Codes.OrDisjoint(low, high, 4);
  }

  lemma {:induction false} Sixteen()
    ensures Pow2(4) == 16
  {
    assert Pow2(2) == 4;
  }

  /** Block `i` of the packed form. */
  function PackedBlock(x: seq<seq<nat>>, i: nat): (b: seq<nat>)
    requires |x| == 32 && forall v :: 0 <= v < 32 ==> i < |x[v]|
    ensures |b| == 16
  {
    seq(16, j requires 0 <= j < 16 => PackByte(x[LOW_VECTOR[j]][i], x[LOW_VECTOR[j] + 16][i]))
  }

  function PackedCode(x: seq<seq<nat>>, n: nat): (b: seq<seq<nat>>)
    requires Columns(x, n)
    ensures |b| == n
  {
    seq(n, i requires 0 <= i < n => PackedBlock(x, i))
  }

  /** Vector `v`'s nibble of a block. */
  function Nibble(b: seq<nat>, v: nat): (r: nat)
    requires |b| == 16 && v < 32
  {
    if v < 16 then b[BYTE_OF[v]] % 16 else b[BYTE_OF[v - 16]] / 16
  }

  /** Unpacking what was packed gives every nibble back. */
  lemma {:induction false} UnpackPacked(x: seq<seq<nat>>, n: nat, v: nat, i: nat)
    requires Columns(x, n) && Nibbles(x) && v < 32 && i < n
    ensures Nibble(PackedBlock(x, i), v) == x[v][i]
  {
    hide PackByte, PackedBlock, Nibble;
    LanesCancel();
    var low := if v < 16 then v else v - 16;
    PackedByte(x, n, i, BYTE_OF[low]);
    PackNibbles(x[low][i], x[low + 16][i]);
    NibblesOf(PackedBlock(x, i), low, x[low][i], x[low + 16][i]);
  }

  lemma {:induction false} PackedByte(x: seq<seq<nat>>, n: nat, i: nat, j: nat)
    requires Columns(x, n) && i < n && j < 16
    ensures LOW_VECTOR[j] < 16 && PackedBlock(x, i)[j] == PackByte(x[LOW_VECTOR[j]][i], x[LOW_VECTOR[j] + 16][i])
  {
    hide PackByte;
  }

  lemma {:induction false} NibblesOf(b: seq<nat>, v: nat, low: nat, high: nat)
    requires |b| == 16 && v < 16 && low < 16 && high < 16 && BYTE_OF[v] < 16 && b[BYTE_OF[v]] == low + 16 * high
    ensures Nibble(b, v) == low && Nibble(b, v + 16) == high
  {
  }

  lemma {:induction false} PackedIsBlock(x: seq<seq<nat>>, n: nat, i: nat)
    requires Columns(x, n) && Nibbles(x) && i < n
    ensures forall j :: 0 <= j < 16 ==> PackedBlock(x, i)[j] < 256
  {
    LanesCancel();
    forall j | 0 <= j < 16 ensures PackedBlock(x, i)[j] < 256 {
      PackNibbles(x[LOW_VECTOR[j]][i], x[LOW_VECTOR[j] + 16][i]);
    }
  }

  /** Packing what was unpacked gives every block back. */
  lemma {:induction false} PackUnpacked(x: seq<seq<nat>>, b: Block, n: nat, i: nat)
    requires Columns(x, n) && i < n && forall v :: 0 <= v < 32 ==> x[v][i] == Nibble(b, v)
    ensures PackedBlock(x, i) == b
  {
    LanesCancel();
    forall j | 0 <= j < 16 ensures PackedBlock(x, i)[j] == b[j] {
      var v := LOW_VECTOR[j];
      assert x[v][i] == b[j] % 16 && x[v + 16][i] == b[j] / 16;
      PackNibbles(b[j] % 16, b[j] / 16);
    }
  }

  /** Packs 32 vectors block by block: if the entries are nibbles, block `i` holds every vector's entry `i`. */
  method Pack(x: seq<seq<nat>>, n: nat) returns (result: seq<seq<nat>>)
    requires Columns(x, n)
    ensures result == PackedCode(x, n)
    ensures Nibbles(x) ==> forall i :: 0 <= i < n ==> Bytes(result[i])
    ensures Nibbles(x) ==> forall v, i :: 0 <= v < 32 && 0 <= i < n ==> Nibble(result[i], v) == x[v][i]
  {
    result := [];
    hide PackByte;
    for i := 0 to n
      invariant result == PackedCode(x, n)[..i]
    {
      var block := [
        PackByte(x[0][i], x[16][i]), PackByte(x[8][i], x[24][i]),
        PackByte(x[1][i], x[17][i]), PackByte(x[9][i], x[25][i]),
        PackByte(x[2][i], x[18][i]), PackByte(x[10][i], x[26][i]),
        PackByte(x[3][i], x[19][i]), PackByte(x[11][i], x[27][i]),
        PackByte(x[4][i], x[20][i]), PackByte(x[12][i], x[28][i]),
        PackByte(x[5][i], x[21][i]), PackByte(x[13][i], x[29][i]),
        PackByte(x[6][i], x[22][i]), PackByte(x[14][i], x[30][i]),
        PackByte(x[7][i], x[23][i]), PackByte(x[15][i], x[31][i])
      ];
      assert block == PackedBlock(x, i);
      hide PackedBlock;
      result := result + [block];
    }
    if Nibbles(x) {
      hide PackedBlock, Nibble;
      forall i | 0 <= i < n ensures Bytes(result[i]) { PackedIsBlock(x, n, i); }
      forall v, i | 0 <= v < 32 && 0 <= i < n ensures Nibble(result[i], v) == x[v][i] { UnpackPacked(x, n, v, i); }
    }
  }

  /** The 32 nibbles of a block, vector by vector. */
  method UnpackBlock(b: Block) returns (nibbles: seq<nat>)
    ensures |nibbles| == 32 && forall v :: 0 <= v < 32 ==> nibbles[v] == Nibble(b, v) < 16
  {
    nibbles := [
      b[0] % 16, b[2] % 16, b[4] % 16, b[6] % 16, b[8] % 16, b[10] % 16, b[12] % 16, b[14] % 16,
      b[1] % 16, b[3] % 16, b[5] % 16, b[7] % 16, b[9] % 16, b[11] % 16, b[13] % 16, b[15] % 16,
      b[0] / 16, b[2] / 16, b[4] / 16, b[6] / 16, b[8] / 16, b[10] / 16, b[12] / 16, b[14] / 16,
      b[1] / 16, b[3] / 16, b[5] / 16, b[7] / 16, b[9] / 16, b[11] / 16, b[13] / 16, b[15] / 16
    ];
  }

  /** Takes blocks apart into 32 vectors of nibbles. */
  method Unpack(x: seq<Block>) returns (result: seq<seq<nat>>)
    ensures Columns(result, |x|) && Nibbles(result)
    ensures forall v, i :: 0 <= v < 32 && 0 <= i < |x| ==> result[v][i] == Nibble(x[i], v)
  {
    result := seq(32, _ => []);
    for i := 0 to |x|
      invariant Columns(result, i) && Nibbles(result)
      invariant forall v, k :: 0 <= v < 32 && 0 <= k < i ==> result[v][k] == Nibble(x[k], v)
    {
      var nibbles := UnpackBlock(x[i]);
      result := seq(32, v requires 0 <= v < 32 => result[v] + [nibbles[v]]);
    }
  }

  /** Unpacking what was packed gives the vectors back. */
  method PackThenUnpack(x: seq<seq<nat>>, n: nat) returns (y: seq<seq<nat>>)
    requires Columns(x, n) && Nibbles(x)
    ensures y == x
  {
    hide PackedCode, Nibble;
    var blocks := Pack(x, n);
    y := Unpack(blocks);
    forall v | 0 <= v < 32 ensures y[v] == x[v] {
      assert forall i :: 0 <= i < n ==> y[v][i] == Nibble(blocks[i], v) == x[v][i];
    }
  }

  /** Packing what was unpacked gives the blocks back. */
  method UnpackThenPack(x: seq<Block>) returns (y: seq<seq<nat>>)
    ensures y == x
  {
    hide PackedBlock, Nibble;
    var vectors := Unpack(x);
    y := Pack(vectors, |x|);
    forall i | 0 <= i < |x| ensures y[i] == x[i] { PackUnpacked(vectors, x[i], |x|, i); }
  }

  // ---- Scanning ----

  ghost predicate Table(lut: seq<nat>) {
    |lut| == 16 && forall c :: 0 <= c < 16 ==> lut[c] < 256
  }

  ghost predicate Inputs(code: seq<seq<nat>>, lut: seq<seq<nat>>) {
    && |code| == |lut|
    && forall i :: 0 <= i < |code| ==> Bytes(code[i]) && Table(lut[i])
  }

  function Look(b: seq<nat>, lut: seq<nat>, v: nat): (r: nat)
    requires Bytes(b) && Table(lut) && v < 32
    ensures r < 256
  {
    LanesCancel();
    lut[Nibble(b, v)]
  }

  /** What lane `v` stands for: the sum of its look-ups. */
  function LaneSum(code: seq<seq<nat>>, lut: seq<seq<nat>>, v: nat): nat
    requires Inputs(code, lut) && v < 32
  {
    if code == [] then 0 else
      var n := |code| - 1;
      LaneSum(code[..n], lut[..n], v) + Look(code[n], lut[n], v)
  }

  lemma {:induction false} LaneSumNext(code: seq<seq<nat>>, lut: seq<seq<nat>>, v: nat, i: nat)
    requires Inputs(code, lut) && v < 32 && i < |code|
    ensures LaneSum(code[..i + 1], lut[..i + 1], v) == LaneSum(code[..i], lut[..i], v) + Look(code[i], lut[i], v)
  {
    assert code[..i + 1][..i] == code[..i] && lut[..i + 1][..i] == lut[..i];
    hide Look;
  }

  lemma {:induction false} LaneSumConcat(a: seq<seq<nat>>, p: seq<seq<nat>>, b: seq<seq<nat>>, q: seq<seq<nat>>, v: nat)
    requires Inputs(a, p) && Inputs(b, q) && v < 32
    ensures LaneSum(a + b, p + q, v) == LaneSum(a, p, v) + LaneSum(b, q, v)
    decreases |b|
  {
    hide Look, Bytes, Table;
    if b == [] {
      assert a + b == a && p + q == p;
    } else {
      var n := |b| - 1;
      assert (a + b)[..|a| + n] == a + b[..n] && (p + q)[..|p| + n] == p + q[..n];
      LaneSumConcat(a, p, b[..n], q[..n], v);
    }
  }

  lemma {:induction false} LaneSumBound(code: seq<seq<nat>>, lut: seq<seq<nat>>, v: nat)
    requires Inputs(code, lut) && v < 32
    ensures LaneSum(code, lut, v) <= 255 * |code|
    decreases |code|
  {
    if code == [] {
    } else {
      var n := |code| - 1;
      LaneSumBound(code[..n], lut[..n], v);
    }
  }

  const WORD16: nat := 0x1_0000

  function Wrap16(v: int): (r: nat)
    ensures r < WORD16
  {
    v % WORD16
  }

  lemma {:induction false} Wrap16Of(a: int, q: int)
    ensures Wrap16(a + WORD16 * q) == Wrap16(a)
  {
  }

  lemma {:induction false} Wrap16Add(a: int, b: int)
    ensures Wrap16(Wrap16(a) + b) == Wrap16(a + b) == Wrap16(a + Wrap16(b))
  {
    Wrap16Of(Wrap16(a) + b, a / WORD16);
    Wrap16Of(a + Wrap16(b), b / WORD16);
  }

  /** Thirty-two lanes, each the wrapped sum of its look-ups. */
  ghost predicate Lanes(result: seq<nat>, code: seq<seq<nat>>, lut: seq<seq<nat>>) {
    Inputs(code, lut) && |result| == 32 && forall v :: 0 <= v < 32 ==> result[v] == Wrap16(LaneSum(code, lut, v))
  }

  function AddLooks(result: seq<nat>, b: seq<nat>, lut: seq<nat>): (r: seq<nat>)
    requires |result| == 32 && Bytes(b) && Table(lut)
    ensures |r| == 32
  {
    seq(32, v requires 0 <= v < 32 => Wrap16(result[v] + Look(b, lut, v)))
  }

  lemma {:induction false} LooksAdded(result: seq<nat>, code: seq<seq<nat>>, lut: seq<seq<nat>>, i: nat)
    requires Inputs(code, lut) && i < |code| && Lanes(result, code[..i], lut[..i])
    ensures Lanes(AddLooks(result, code[i], lut[i]), code[..i + 1], lut[..i + 1])
  {
    hide Look, LaneSum, Wrap16, Bytes, Table;
    forall v | 0 <= v < 32
      ensures AddLooks(result, code[i], lut[i])[v] == Wrap16(LaneSum(code[..i + 1], lut[..i + 1], v))
    {
      LaneSumNext(code, lut, v, i);
      Wrap16Add(LaneSum(code[..i], lut[..i], v), Look(code[i], lut[i], v));
    }
  }

  /** The plain scan. */
  method Scan(code: seq<seq<nat>>, lut: seq<seq<nat>>) returns (result: seq<nat>)
    requires Inputs(code, lut)
    ensures Lanes(result, code, lut)
  {
    result := seq(32, _ => 0);
    assert Lanes(result, code[..0], lut[..0]);
    assert forall i :: 0 <= i < |code| ==> Bytes(code[i]) && Table(lut[i]);
    hide Bytes, Table, AddLooks, LaneSum, Wrap16;
    for i := 0 to |code|
      invariant |result| == 32 && Lanes(result, code[..i], lut[..i])
    {
      hide Lanes;
      LooksAdded(result, code, lut, i);
      result := AddLooks(result, code[i], lut[i]);
    }
    assert code[..|code|] == code && lut[..|lut|] == lut;
  }
  // ---- Sixteen-bit lane forms ----

  /** The high nibble of byte `j`, shifted down inside its 16-bit word and masked. */
  function HighNibble(b: seq<nat>, j: nat): nat
    requires |b| == 16 && j < 16
  {
    var l := j / 2;
    var shifted := (b[2 * l] + 256 * b[2 * l + 1]) / 16;
    if j % 2 == 0 then shifted % 256 % 16 else shifted / 256 % 16
  }

  lemma {:induction false} HighNibbleIs(b: seq<nat>, j: nat)
    requires Bytes(b) && j < 16
    ensures HighNibble(b, j) == b[j] / 16 < 16
  {
    var l := j / 2;
    Shifted(b[2 * l], b[2 * l + 1]);
    assert j == 2 * l + j % 2;
  }

  lemma {:induction false} Shifted(a: nat, b: nat)
    requires a < 256 && b < 256
    ensures (a + 256 * b) / 16 % 256 % 16 == a / 16 && (a + 256 * b) / 16 / 256 % 16 == b / 16
  {
    var h := a / 16;
    assert (a + 256 * b) / 16 == h + 16 * b;
    assert (h + 16 * b) / 256 == b / 16;
  }

  /** The look-up of byte `j`'s low or high nibble, as the byte shuffle makes it. */
  function Shuffled(b: seq<nat>, lut: seq<nat>, j: nat, high: bool): (r: nat)
    requires Bytes(b) && Table(lut) && j < 16
    ensures r < 256
  {
    HighNibbleIs(b, j);
    lut[if high then HighNibble(b, j) else b[j] % 16]
  }

  function Base(high: bool): nat {
    if high then 16 else 0
  }

  lemma {:induction false} ShuffledIsLook(b: seq<nat>, lut: seq<nat>, l: nat, high: bool)
    requires Bytes(b) && Table(lut) && l < 8
    ensures Shuffled(b, lut, 2 * l, high) == Look(b, lut, Base(high) + l)
    ensures Shuffled(b, lut, 2 * l + 1, high) == Look(b, lut, Base(high) + 8 + l)
  {
    HighNibbleIs(b, 2 * l);
    HighNibbleIs(b, 2 * l + 1);
    assert BYTE_OF[l] == 2 * l && BYTE_OF[8 + l] == 2 * l + 1;
    hide HighNibble;
  }

  /** Lane `l` of a shuffled register: two look-ups in one 16-bit word. */
  function Pair(b: seq<nat>, lut: seq<nat>, l: nat, high: bool): nat
    requires Bytes(b) && Table(lut) && l < 8
  {
    Shuffled(b, lut, 2 * l, high) + 256 * Shuffled(b, lut, 2 * l + 1, high)
  }

  lemma {:induction false} PairIs(b: seq<nat>, lut: seq<nat>, l: nat, high: bool)
    requires Bytes(b) && Table(lut) && l < 8
    ensures Pair(b, lut, l, high) == Look(b, lut, Base(high) + l) + 256 * Look(b, lut, Base(high) + 8 + l)
    ensures Pair(b, lut, l, high) / 256 == Look(b, lut, Base(high) + 8 + l)
  {
    ShuffledIsLook(b, lut, l, high);
    hide Shuffled, Look;
  }

  function AddWords(acc: seq<nat>, b: seq<nat>, lut: seq<nat>, high: bool): (r: seq<nat>)
    requires |acc| == 8 && Bytes(b) && Table(lut)
    ensures |r| == 8
  {
    seq(8, l requires 0 <= l < 8 => Wrap16(acc[l] + Pair(b, lut, l, high)))
  }

  function AddOdd(acc: seq<nat>, b: seq<nat>, lut: seq<nat>, high: bool): (r: seq<nat>)
    requires |acc| == 8 && Bytes(b) && Table(lut)
    ensures |r| == 8
  {
    seq(8, l requires 0 <= l < 8 => Wrap16(acc[l] + Pair(b, lut, l, high) / 256))
  }

  predicate Words(a: seq<nat>) {
    |a| == 8 && forall l :: 0 <= l < 8 ==> a[l] < WORD16
  }

  lemma {:induction false} AddedWords(acc: seq<nat>, b: seq<nat>, lut: seq<nat>, high: bool)
    requires |acc| == 8 && Bytes(b) && Table(lut)
    ensures Words(AddOdd(acc, b, lut, high))
  {
  }

  lemma {:induction false} SubtractNothing(a: seq<nat>, b: seq<nat>)
    requires |a| == 8 && Words(b)
    ensures AddLanes(Subtract(a, b), Subtract(NoLanes(), NoLanes())) == Subtract(a, b) && AddLanes(b, NoLanes()) == b
  {
  }

  function Subtract(even: seq<nat>, odd: seq<nat>): (r: seq<nat>)
    requires |even| == |odd| == 8
    ensures |r| == 8
  {
    seq(8, l requires 0 <= l < 8 => Wrap16(even[l] - Wrap16(odd[l] * 256)))
  }

  function AddLanes(a: seq<nat>, b: seq<nat>): (r: seq<nat>)
    requires |a| == |b| == 8
    ensures |r| == 8
  {
    seq(8, l requires 0 <= l < 8 => Wrap16(a[l] + b[l]))
  }

  function NoLanes(): (r: seq<nat>)
    ensures |r| == 8
  {
    seq(8, _ => 0)
  }

  /** Both registers, over two halves: words even + 256 odd in one, odd alone in the other. */
  ghost predicate Accumulated(even: seq<nat>, even': seq<nat>, odd: seq<nat>, odd': seq<nat>,
                              code: seq<seq<nat>>, lut: seq<seq<nat>>, high: bool) {
    && |even| == |even'| == |odd| == |odd'| == 8 && Inputs(code, lut)
    && forall l :: 0 <= l < 8 ==> AccumulatedAt(even[l] + even'[l], odd[l] + odd'[l], code, lut, high, l)
  }

  ghost predicate AccumulatedAt(even: nat, odd: nat, code: seq<seq<nat>>, lut: seq<seq<nat>>, high: bool, l: nat)
    requires l < 8 && Inputs(code, lut)
  {
    Holds(even, odd, LaneSum(code, lut, Base(high) + l), LaneSum(code, lut, Base(high) + 8 + l))
  }

  ghost predicate Holds(even: nat, odd: nat, x: nat, y: nat) {
    Wrap16(even) == Wrap16(x + 256 * y) && Wrap16(odd) == Wrap16(y)
  }

  lemma {:induction false} HoldsNext(e: nat, e': nat, o: nat, o': nat, x: nat, y: nat, s: nat, t: nat)
    requires Holds(e + e', o + o', x, y)
    ensures Holds(Wrap16(e + (s + 256 * t)) + e', Wrap16(o + t) + o', x + s, y + t)
  {
    hide Wrap16;
    var p := s + 256 * t;
    AddWrapped(e, e', p);
    AddWrapped(o, o', t);
    Wrap16Add(e + e', p);
    Wrap16Add(x + 256 * y, p);
    Wrap16Add(o + o', t);
    Wrap16Add(y, t);
    assert x + 256 * y + p == (x + s) + 256 * (y + t);
  }

  lemma {:induction false} AccumulateAt(even: nat, odd: nat, even': nat, odd': nat, code: seq<seq<nat>>,
                                        lut: seq<seq<nat>>, i: nat,
                                        high: bool, l: nat)
    requires Inputs(code, lut) && i < |code| && l < 8
    requires AccumulatedAt(even + even', odd + odd', code[..i], lut[..i], high, l)
    ensures var p := Pair(code[i], lut[i], l, high);
            AccumulatedAt(Wrap16(even + p) + even', Wrap16(odd + p / 256) + odd', code[..i + 1], lut[..i + 1], high, l)
  {
    hide Pair, Look, LaneSum, Wrap16, Holds, Bytes, Table;
    var j, k := Base(high) + l, Base(high) + 8 + l;
    PairIs(code[i], lut[i], l, high);
    LaneSumNext(code, lut, j, i);
    LaneSumNext(code, lut, k, i);
    HoldsNext(even, even', odd, odd', LaneSum(code[..i], lut[..i], j), LaneSum(code[..i], lut[..i], k),
              Look(code[i], lut[i], j), Look(code[i], lut[i], k));
  }

  lemma {:induction false} AddWrapped(a: nat, b: nat, p: nat)
    ensures Wrap16(Wrap16(a + p) + b) == Wrap16(a + b + p)
  {
    Wrap16Add(a + p, b);
  }

  lemma {:induction false} Accumulate1(even: seq<nat>, even': seq<nat>, odd: seq<nat>, odd': seq<nat>,
                                       code: seq<seq<nat>>, lut: seq<seq<nat>>, i: nat, high: bool)
    requires Inputs(code, lut) && i < |code| && Accumulated(even, even', odd, odd', code[..i], lut[..i], high)
    ensures Accumulated(AddWords(even, code[i], lut[i], high), even', AddOdd(odd, code[i], lut[i], high), odd',
                        code[..i + 1], lut[..i + 1], high)
    ensures Accumulated(even', AddWords(even, code[i], lut[i], high), odd', AddOdd(odd, code[i], lut[i], high),
                        code[..i + 1], lut[..i + 1], high)
  {
    hide Pair, Wrap16, AccumulatedAt, Bytes, Table;
    forall l | 0 <= l < 8
      ensures AccumulatedAt(AddWords(even, code[i], lut[i], high)[l] + even'[l], AddOdd(odd, code[i], lut[i], high)[l]
                            + odd'[l],
                            code[..i + 1], lut[..i + 1], high, l)
    {
      AccumulateAt(even[l], odd[l], even'[l], odd'[l], code, lut, i, high, l);
    }
  }

  lemma {:induction false} NothingAccumulated(high: bool, code: seq<seq<nat>>, lut: seq<seq<nat>>)
    requires Inputs(code, lut)
    ensures Accumulated(NoLanes(), NoLanes(), NoLanes(), NoLanes(), code[..0], lut[..0], high)
  {
  }

  /** Subtracting the odd look-ups, shifted back, leaves the even ones. */
  lemma {:induction false} Separated(even: seq<nat>, even': seq<nat>, odd: seq<nat>, odd': seq<nat>,
                                     code: seq<seq<nat>>, lut: seq<seq<nat>>, high: bool, l: nat)
    requires Inputs(code, lut) && |even| == |even'| == |odd| == |odd'| == 8
    requires Accumulated(even, even', odd, odd', code, lut, high) && l < 8
    ensures AddLanes(Subtract(even, odd), Subtract(even', odd'))[l] == Wrap16(LaneSum(code, lut, Base(high) + l))
    ensures AddLanes(odd, odd')[l] == Wrap16(LaneSum(code, lut, Base(high) + 8 + l))
  {
    assert AccumulatedAt(even[l] + even'[l], odd[l] + odd'[l], code, lut, high, l);
    var x, y := LaneSum(code, lut, Base(high) + l), LaneSum(code, lut, Base(high) + 8 + l);
    assert Holds(even[l] + even'[l], odd[l] + odd'[l], x, y);
    hide Wrap16, LaneSum, Base, Accumulated, AccumulatedAt;
    TakeOdd(even[l], odd[l], even'[l], odd'[l], x, y);
  }

  lemma {:induction false} TakeOdd(e: nat, o: nat, e': nat, o': nat, x: nat, y: nat)
    requires Wrap16(e + e') == Wrap16(x + 256 * y) && Wrap16(o + o') == Wrap16(y)
    ensures Wrap16(Wrap16(e - Wrap16(o * 256)) + Wrap16(e' - Wrap16(o' * 256))) == Wrap16(x)
  {
    WrapMinus(e, o * 256);
    WrapMinus(e', o' * 256);
    var a, b := e - o * 256, e' - o' * 256;
    Wrap16Add(a, Wrap16(b));
    Wrap16Add(a, b);
    var q, r := (e + e') / WORD16 - (x + 256 * y) / WORD16, (o + o') / WORD16 - y / WORD16;
    assert e + e' == x + 256 * y + WORD16 * q && o + o' == y + WORD16 * r;
    assert a + b == x + WORD16 * (q - 256 * r);
    Wrap16Of(x, q - 256 * r);
  }

  lemma {:induction false} WrapMinus(e: nat, k: nat)
    ensures Wrap16(e - Wrap16(k)) == Wrap16(e - k)
  {
    Wrap16Of(e - k, k / WORD16);
  }

  // The four stored registers are the 32 lanes of the scan.
  lemma {:induction false} Stored(a: seq<nat>, a': seq<nat>, b: seq<nat>, b': seq<nat>, c: seq<nat>, c': seq<nat>,
                                  d: seq<nat>,
                                  d': seq<nat>, code: seq<seq<nat>>, lut: seq<seq<nat>>)
    requires Inputs(code, lut) && |a| == |a'| == |b| == |b'| == |c| == |c'| == |d| == |d'| == 8
    requires Accumulated(a, a', b, b', code, lut, false) && Accumulated(c, c', d, d', code, lut, true)
    ensures Lanes(AddLanes(Subtract(a, b), Subtract(a', b')) + AddLanes(b, b')
                  + AddLanes(Subtract(c, d), Subtract(c', d')) + AddLanes(d, d'), code, lut)
  {
    hide *;
    var p, q := AddLanes(Subtract(a, b), Subtract(a', b')), AddLanes(b, b');
    var r, s := AddLanes(Subtract(c, d), Subtract(c', d')), AddLanes(d, d');
    forall l | 0 <= l < 8
      ensures p[l] == Wrap16(LaneSum(code, lut, l)) && q[l] == Wrap16(LaneSum(code, lut, 8 + l))
      ensures r[l] == Wrap16(LaneSum(code, lut, 16 + l)) && s[l] == Wrap16(LaneSum(code, lut, 24 + l))
    {
      Bases();
      Separated(a, a', b, b', code, lut, false, l);
      Separated(c, c', d, d', code, lut, true, l);
    }
    forall v | 0 <= v < 32 ensures (p + q + r + s)[v] == Wrap16(LaneSum(code, lut, v)) {
      ConcatAt(p, q, r, s, v);
    }
    LanesOf(p + q + r + s, code, lut);
  }

  lemma {:induction false} Bases()
    ensures Base(false) == 0 && Base(true) == 16
  {
  }

  lemma {:induction false} LanesOf(result: seq<nat>, code: seq<seq<nat>>, lut: seq<seq<nat>>)
    requires Inputs(code, lut) && |result| == 32
    requires forall v :: 0 <= v < 32 ==> result[v] == Wrap16(LaneSum(code, lut, v))
    ensures Lanes(result, code, lut)
  {
  }

  lemma {:induction false} ConcatAt(p: seq<nat>, q: seq<nat>, r: seq<nat>, s: seq<nat>, v: nat)
    requires |p| == |q| == |r| == |s| == 8 && v < 32
    ensures (p + q + r + s)[v] == if v < 8 then p[v] else if v < 16 then q[v - 8] else if v < 24 then r[v - 16]
            else s[v - 24]
  {
  }

  /** The 128-bit form: one block at a time. */
  method ScanV2(code: seq<seq<nat>>, lut: seq<seq<nat>>) returns (result: seq<nat>)
    requires Inputs(code, lut)
    ensures Lanes(result, code, lut)
  {
    var zero := NoLanes();
    assert Words(zero);
    hide Accumulated, AddWords, AddOdd, NoLanes, Bytes, Table, Words, Lanes;
    var a, b, c, d := zero, zero, zero, zero;
    NothingAccumulated(false, code, lut);
    NothingAccumulated(true, code, lut);
    var i := 0;
    while i < |code|
      invariant i <= |code| && |a| == |b| == |c| == |d| == 8 && Words(b) && Words(d)
      invariant Accumulated(a, zero, b, zero, code[..i], lut[..i], false)
      invariant Accumulated(c, zero, d, zero, code[..i], lut[..i], true)
    {
      Accumulate1(a, zero, b, zero, code, lut, i, false);
      Accumulate1(c, zero, d, zero, code, lut, i, true);
      AddedWords(b, code[i], lut[i], false);
      AddedWords(d, code[i], lut[i], true);
      a, b := AddWords(a, code[i], lut[i], false), AddOdd(b, code[i], lut[i], false);
      c, d := AddWords(c, code[i], lut[i], true), AddOdd(d, code[i], lut[i], true);
      i := i + 1;
    }
    assert code[..|code|] == code && lut[..|lut|] == lut;
    Stored(a, zero, b, zero, c, zero, d, zero, code, lut);
    SubtractNothing(a, b);
    SubtractNothing(c, d);
    result := Subtract(a, b) + b + Subtract(c, d) + d;
  }

  /** The low halves added, and the high halves added. */
  function Combine2x2(x0: seq<nat>, x1: seq<nat>, y0: seq<nat>, y1: seq<nat>): seq<nat>
    requires |x0| == |x1| == |y0| == |y1| == 8
  {
    AddLanes(x0, x1) + AddLanes(y0, y1)
  }

  /** The 256-bit form: two blocks at a time, one in each half of the registers. */
  method ScanV3(code: seq<seq<nat>>, lut: seq<seq<nat>>) returns (result: seq<nat>)
    requires Inputs(code, lut)
    ensures Lanes(result, code, lut)
  {
    var zero := NoLanes();
    hide Accumulated, AddWords, AddOdd, NoLanes, Bytes, Table, Lanes;
    var a, b, c, d := zero, zero, zero, zero;
    var a', b', c', d' := zero, zero, zero, zero;
    NothingAccumulated(false, code, lut);
    NothingAccumulated(true, code, lut);
    var i := 0;
    while i + 2 <= |code|
      invariant i <= |code|
      invariant |a| == |b| == |c| == |d| == |a'| == |b'| == |c'| == |d'| == 8
      invariant Accumulated(a, a', b, b', code[..i], lut[..i], false)
      invariant Accumulated(c, c', d, d', code[..i], lut[..i], true)
    {
      Accumulate1(a, a', b, b', code, lut, i, false);
      Accumulate1(c, c', d, d', code, lut, i, true);
      a, b := AddWords(a, code[i], lut[i], false), AddOdd(b, code[i], lut[i], false);
      c, d := AddWords(c, code[i], lut[i], true), AddOdd(d, code[i], lut[i], true);
      Accumulate1(a', a, b', b, code, lut, i + 1, false);
      Accumulate1(c', c, d', d, code, lut, i + 1, true);
      a', b' := AddWords(a', code[i + 1], lut[i + 1], false), AddOdd(b', code[i + 1], lut[i + 1], false);
      c', d' := AddWords(c', code[i + 1], lut[i + 1], true), AddOdd(d', code[i + 1], lut[i + 1], true);
      i := i + 2;
    }
    if i < |code| {
      Accumulate1(a, a', b, b', code, lut, i, false);
      Accumulate1(c, c', d, d', code, lut, i, true);
      a, b := AddWords(a, code[i], lut[i], false), AddOdd(b, code[i], lut[i], false);
      c, d := AddWords(c, code[i], lut[i], true), AddOdd(d, code[i], lut[i], true);
      i := i + 1;
    }
    assert code[..|code|] == code && lut[..|lut|] == lut;
    Stored(a, a', b, b', c, c', d, d', code, lut);
    result := Combine2x2(Subtract(a, b), Subtract(a', b'), b, b') + Combine2x2(Subtract(c, d), Subtract(c', d'), d, d');
    assert result == AddLanes(Subtract(a, b), Subtract(a', b')) + AddLanes(b, b')
                     + AddLanes(Subtract(c, d), Subtract(c', d')) + AddLanes(d, d');
  }

  // ---- Accumulating ----

  /** Blocks per 16-bit scan: 65535 / 255. */
  const STEP: nat := 257

  /** Each 16-bit scan of at most `STEP` blocks is exact. */
  lemma {:induction false} StepExact(code: seq<seq<nat>>, lut: seq<seq<nat>>, v: nat)
    requires Inputs(code, lut) && |code| <= STEP && v < 32
    ensures Wrap16(LaneSum(code, lut, v)) == LaneSum(code, lut, v)
  {
    LaneSumBound(code, lut, v);
    hide LaneSum;
  }

  function Min(a: nat, b: nat): nat {
    if a <= b then a else b
  }

  /** The forms of the scan; which one runs depends on the processor. */
  datatype Form = Plain | Halves128 | Halves256

  method ScanAs(form: Form, code: seq<seq<nat>>, lut: seq<seq<nat>>) returns (result: seq<nat>)
    requires Inputs(code, lut)
    ensures Lanes(result, code, lut)
  {
    match form {
      case Plain => result := Scan(code, lut);
      case Halves128 => result := ScanV2(code, lut);
      case Halves256 => result := ScanV3(code, lut);
    }
  }

  /** The sums of all look-ups in 32-bit lanes, `STEP` blocks at a time. */
  method Accumulate(form: Form, code: seq<seq<nat>>, lut: seq<seq<nat>>) returns (sum: seq<nat>)
    requires Inputs(code, lut)
    ensures |sum| == 32 && forall v :: 0 <= v < 32 ==> sum[v] == Codes.Wrap(LaneSum(code, lut, v))
  {
    sum := seq(32, _ => 0);
    var at := 0;
    while at < |code|
      invariant at <= |code| && |sum| == 32
      invariant forall v :: 0 <= v < 32 ==> sum[v] == Codes.Wrap(LaneSum(code[..at], lut[..at], v))
      decreases |code| - at
    {
      var end := Min(|code|, at + STEP);
      var delta := ScanAs(form, code[at..end], lut[at..end]);
      forall v | 0 <= v < 32
        ensures Codes.Wrap(sum[v] + delta[v]) == Codes.Wrap(LaneSum(code[..end], lut[..end], v))
      {
        hide LaneSum, Wrap16, Codes.Wrap, Bytes, Table;
        ChunkAdded(code, lut, at, end, v, sum[v], delta[v]);
      }
      hide *;
      sum := Accu(sum, delta);
      at := end;
    }
    assert code[..|code|] == code && lut[..|lut|] == lut;
  }

  method Accu(sum: seq<nat>, delta: seq<nat>) returns (r: seq<nat>)
    requires |sum| == |delta| == 32
    ensures |r| == 32 && forall v :: 0 <= v < 32 ==> r[v] == Codes.Wrap(sum[v] + delta[v])
  {
    r := sum;
    for i := 0 to 32
      invariant |r| == 32 && forall v :: 0 <= v < 32 ==> r[v] == if v < i then Codes.Wrap(sum[v] + delta[v]) else sum[v]
    {
      r := r[i := Codes.Wrap(r[i] + delta[i])];
    }
  }

  lemma {:induction false} ChunkAdded(code: seq<seq<nat>>, lut: seq<seq<nat>>, at: nat, end: nat, v: nat, sum: nat,
                                      delta: nat)
    requires Inputs(code, lut) && at <= end <= |code| && end <= at + STEP && v < 32
    requires sum == Codes.Wrap(LaneSum(code[..at], lut[..at], v))
             && delta == Wrap16(LaneSum(code[at..end], lut[at..end], v))
    ensures Codes.Wrap(sum + delta) == Codes.Wrap(LaneSum(code[..end], lut[..end], v))
  {
    hide LaneSum, Wrap16, Codes.Wrap, Bytes, Table;
    StepExact(code[at..end], lut[at..end], v);
    assert code[..end] == code[..at] + code[at..end] && lut[..end] == lut[..at] + lut[at..end];
    LaneSumConcat(code[..at], lut[..at], code[at..end], lut[at..end], v);
    Codes.WrapAdd(LaneSum(code[..at], lut[..at], v), delta);
  }

  /** The sum a vector of nibbles selects from the tables. */
  function Selected(x: seq<nat>, lut: seq<seq<nat>>): nat
    requires |x| == |lut| && forall i :: 0 <= i < |x| ==> x[i] < 16 && Table(lut[i])
  {
    if x == [] then 0 else
      var n := |x| - 1;
      assert Table(lut[n]) && x[n] < 16;
      Selected(x[..n], lut[..n]) + lut[n][x[n]]
  }

  lemma {:induction false} PackedInputs(x: seq<seq<nat>>, n: nat, lut: seq<seq<nat>>)
    requires Columns(x, n) && Nibbles(x) && |lut| == n && forall i :: 0 <= i < n ==> Table(lut[i])
    ensures Inputs(PackedCode(x, n), lut)
  {
    forall i | 0 <= i < n ensures Bytes(PackedCode(x, n)[i]) { PackedIsBlock(x, n, i); }
  }

  /** Scanning packed codes: lane `v` sums exactly what vector `v` selects, for any length whose sums fit 32 bits. */
  lemma {:induction false} PackedSum(x: seq<seq<nat>>, n: nat, lut: seq<seq<nat>>, v: nat)
    requires Columns(x, n) && Nibbles(x) && |lut| == n && (forall i :: 0 <= i < n ==> Table(lut[i])) && v < 32
    ensures Inputs(PackedCode(x, n), lut)
    ensures LaneSum(PackedCode(x, n), lut, v) == Selected(x[v], lut)
    ensures n <= 16843009 ==> Codes.Wrap(LaneSum(PackedCode(x, n), lut, v)) == Selected(x[v], lut)
  {
    PackedInputs(x, n, lut);
    PackedAll(x, n, lut, v);
    hide *;
    LaneSumBound(PackedCode(x, n), lut, v);
    Codes.WrapSmall(LaneSum(PackedCode(x, n), lut, v));
  }

  lemma {:induction false} PackedAll(x: seq<seq<nat>>, n: nat, lut: seq<seq<nat>>, v: nat)
    requires Columns(x, n) && Nibbles(x) && Inputs(PackedCode(x, n), lut) && v < 32
    ensures LaneSum(PackedCode(x, n), lut, v) == Selected(x[v], lut)
  {
    hide LaneSum, Selected, PackedCode, Bytes, Table;
    PackedPrefix(x, n, lut, v, n);
    assert PackedCode(x, n)[..n] == PackedCode(x, n) && lut[..n] == lut && x[v][..n] == x[v];
  }

  lemma {:induction false} PackedPrefix(x: seq<seq<nat>>, n: nat, lut: seq<seq<nat>>, v: nat, k: nat)
    requires Columns(x, n) && Nibbles(x) && Inputs(PackedCode(x, n), lut) && v < 32 && k <= n
    ensures LaneSum(PackedCode(x, n)[..k], lut[..k], v) == Selected(x[v][..k], lut[..k])
    decreases k
  {
    if k == 0 {
    } else {
      var code := PackedCode(x, n);
      PackedPrefix(x, n, lut, v, k - 1);
      LaneSumNext(code, lut, v, k - 1);
      UnpackPacked(x, n, v, k - 1);
      assert code[k - 1] == PackedBlock(x, k - 1);
      assert x[v][..k][..k - 1] == x[v][..k - 1] && lut[..k][..k - 1] == lut[..k - 1];
      hide LaneSum, PackedBlock, Nibble;
    }
  }

  /** Packs 32 vectors and scans them: lane `v` is the sum vector `v` selects from the tables, whichever form runs. */
  method PackThenAccumulate(form: Form, x: seq<seq<nat>>, n: nat, lut: seq<seq<nat>>) returns (sum: seq<nat>)
    requires Columns(x, n) && Nibbles(x) && |lut| == n && forall i :: 0 <= i < n ==> Table(lut[i])
    ensures |sum| == 32 && forall v :: 0 <= v < 32 ==> sum[v] == Codes.Wrap(Selected(x[v], lut))
    ensures n <= 16843009 ==> forall v :: 0 <= v < 32 ==> sum[v] == Selected(x[v], lut)
  {
    hide PackedCode, Nibble, LaneSum, Selected, Codes.Wrap, Bytes, Table;
    var code := Pack(x, n);
    sum := Accumulate(form, code, lut);
    forall v | 0 <= v < 32
      ensures sum[v] == Codes.Wrap(Selected(x[v], lut)) && (n <= 16843009 ==> sum[v] == Selected(x[v], lut))
    {
      PackedSum(x, n, lut, v);
    }
  }

  // ---- Sign tables ----

  function Sign(positive: bool, v: real): real {
    if positive then v else -v
  }

  /** The signed sums of four entries, by the nibble of their signs. */
  function Signs4(t: Vec): (r: Vec)
    requires |t| == 4
    ensures |r| == 16
  {
    [ 0.0 - t[3] - t[2] - t[1] - t[0], 0.0 - t[3] - t[2] - t[1] + t[0],
      0.0 - t[3] - t[2] + t[1] - t[0], 0.0 - t[3] - t[2] + t[1] + t[0],
      0.0 - t[3] + t[2] - t[1] - t[0], 0.0 - t[3] + t[2] - t[1] + t[0],
      0.0 - t[3] + t[2] + t[1] - t[0], 0.0 - t[3] + t[2] + t[1] + t[0],
      0.0 + t[3] - t[2] - t[1] - t[0], 0.0 + t[3] - t[2] - t[1] + t[0],
      0.0 + t[3] - t[2] + t[1] - t[0], 0.0 + t[3] - t[2] + t[1] + t[0],
      0.0 + t[3] + t[2] - t[1] - t[0], 0.0 + t[3] + t[2] - t[1] + t[0],
      0.0 + t[3] + t[2] + t[1] - t[0], 0.0 + t[3] + t[2] + t[1] + t[0] ]
  }

  function Bit(b: bool): nat {
    if b then 1 else 0
  }

  function Nibble4(s: seq<bool>): (r: nat)
    requires |s| == 4
    ensures r < 16
  {
    Bit(s[0]) + 2 * Bit(s[1]) + 4 * Bit(s[2]) + 8 * Bit(s[3])
  }

  function Zeros(n: nat): (r: Vec)
    ensures |r| == n
  {
    seq(n, _ => 0.0)
  }

  function Falses(n: nat): (r: seq<bool>)
    ensures |r| == n
  {
    seq(n, _ => false)
  }

  /** One table for each four entries, the tail padded with zeros. */
  function Compress(v: Vec): (r: seq<Vec>)
    ensures |r| == (|v| + 3) / 4 && forall i :: 0 <= i < |r| ==> |r[i]| == 16
    decreases |v|
  {
    if v == [] then []
    else if |v| < 4 then [Signs4(v + Zeros(4 - |v|))]
    else [Signs4(v[..4])] + Compress(v[4..])
  }

  function PackToU4(s: seq<bool>): (r: seq<nat>)
    ensures |r| == (|s| + 3) / 4 && forall i :: 0 <= i < |r| ==> r[i] < 16
    decreases |s|
  {
    if s == [] then []
    else if |s| < 4 then [Nibble4(s + Falses(4 - |s|))]
    else [Nibble4(s[..4])] + PackToU4(s[4..])
  }

  function TableSum(tables: seq<Vec>, code: seq<nat>): real
    requires |tables| == |code| && forall i :: 0 <= i < |code| ==> |tables[i]| == 16 && code[i] < 16
  {
    if code == [] then 0.0 else tables[0][code[0]] + TableSum(tables[1..], code[1..])
  }

  function SignedSum(v: Vec, s: seq<bool>): real
    requires |v| == |s|
  {
    if v == [] then 0.0 else Sign(s[0], v[0]) + SignedSum(v[1..], s[1..])
  }

  lemma {:induction false} Signs4Is(t: Vec, s: seq<bool>)
    requires |t| == |s| == 4
    ensures Signs4(t)[Nibble4(s)] == Sign(s[0], t[0]) + Sign(s[1], t[1]) + Sign(s[2], t[2]) + Sign(s[3], t[3])
  {
  }

  lemma {:induction false} SignedFour(v: Vec, s: seq<bool>)
    requires |v| == |s| >= 4
    ensures SignedSum(v, s) == Sign(s[0], v[0]) + Sign(s[1], v[1]) + Sign(s[2], v[2]) + Sign(s[3], v[3])
            + SignedSum(v[4..], s[4..])
  {
    hide Sign;
    assert v[1..][1..] == v[2..] && v[2..][1..] == v[3..] && v[3..][1..] == v[4..];
    assert s[1..][1..] == s[2..] && s[2..][1..] == s[3..] && s[3..][1..] == s[4..];
    assert SignedSum(v[1..], s[1..]) == Sign(s[1], v[1]) + SignedSum(v[2..], s[2..]);
    assert SignedSum(v[2..], s[2..]) == Sign(s[2], v[2]) + SignedSum(v[3..], s[3..]);
  }

  lemma {:induction false} SignedPadding(v: Vec, s: seq<bool>, n: nat)
    requires |v| == |s|
    ensures SignedSum(v + Zeros(n), s + Falses(n)) == SignedSum(v, s)
    decreases |v|, n
  {
    if v != [] {
      assert (v + Zeros(n))[1..] == v[1..] + Zeros(n) && (s + Falses(n))[1..] == s[1..] + Falses(n);
      SignedPadding(v[1..], s[1..], n);
    } else if n > 0 {
      assert v + Zeros(n) == Zeros(n) && s + Falses(n) == Falses(n);
      assert Zeros(n)[1..] == Zeros(n - 1) && Falses(n)[1..] == Falses(n - 1);
      assert v + Zeros(n - 1) == Zeros(n - 1) && s + Falses(n - 1) == Falses(n - 1);
      SignedPadding(v, s, n - 1);
    } else {
      assert v + Zeros(0) == v && s + Falses(0) == s;
    }
  }

  /** Looking the packed signs up in the tables gives the signed sum of the vector, padded tail included. */
  lemma {:induction false} TablesSumSigns(v: Vec, s: seq<bool>)
    requires |v| == |s|
    ensures TableSum(Compress(v), PackToU4(s)) == SignedSum(v, s)
    decreases |v|
  {
    hide Signs4, Nibble4;
    if |v| == 0 {
    } else if |v| < 4 {
      var w, t := v + Zeros(4 - |v|), s + Falses(4 - |v|);
      Signs4Is(w, t);
      SignedFour(w, t);
      SignedPadding(v, s, 4 - |v|);
      assert w[4..] == [] && t[4..] == [];
      assert Compress(v)[1..] == [] && PackToU4(s)[1..] == [];
    } else {
      Signs4Is(v[..4], s[..4]);
      SignedFour(v, s);
      TablesSumSigns(v[4..], s[4..]);
      assert Compress(v)[1..] == Compress(v[4..]) && PackToU4(s)[1..] == PackToU4(s[4..]);
    }
  }
}