/** Late-interaction scores: the plain double loop, the tiled kernel over ragged documents, and sliced batches. */
module Tiles {
  import opened Vectors
  import opened Numbers

  /** A real number or minus infinity. */
  datatype Ext = NegInf | Fin(value: real)

  function Max(a: Ext, b: Ext): Ext {
    if a.NegInf? then b else if b.NegInf? then a else if a.value >= b.value then a else b
  }

  predicate Matrix(m: seq<Vec>, dim: nat) {
    forall r :: 0 <= r < |m| ==> |m[r]| == dim
  }

  /** The greatest scalar product of `q` with the first `n` rows. */
  function Best(q: Vec, rows: seq<Vec>, n: nat): Ext
    requires n <= |rows| && Matrix(rows, |q|)
  {
    if n == 0 then NegInf else Max(Best(q, rows, n - 1), Fin(Dot(q, rows[n - 1])))
  }

  lemma {:induction false} BestFinite(q: Vec, rows: seq<Vec>, n: nat)
    requires n <= |rows| && Matrix(rows, |q|) && n > 0
    ensures Best(q, rows, n).Fin?
  {
    hide Dot;
  }

  /** The sum over query rows `from` to `upto` of the best product with the document. */
  function Sums(query: seq<Vec>, rows: seq<Vec>, dim: nat, from: nat, upto: nat): real
    requires from <= upto <= |query| && Matrix(query, dim) && Matrix(rows, dim) && rows != []
    decreases upto
  {
    if from == upto then 0.0 else
      BestFinite(query[upto - 1], rows, |rows|);
      Sums(query, rows, dim, from, upto - 1) + Best(query[upto - 1], rows, |rows|).value
  }

  function Score(query: seq<Vec>, rows: seq<Vec>, dim: nat): real
    requires Matrix(query, dim) && Matrix(rows, dim) && rows != []
  {
    Sums(query, rows, dim, 0, |query|)
  }

  /** The best product is the greatest one: none of the first `n` rows has a greater, and one of them has it. */
  lemma {:induction false} BestIsGreatest(q: Vec, rows: seq<Vec>, n: nat) returns (best: nat)
    requires 0 < n <= |rows| && Matrix(rows, |q|)
    ensures best < n && Best(q, rows, n) == Fin(Dot(q, rows[best]))
    ensures forall r :: 0 <= r < n ==> Dot(q, rows[r]) <= Dot(q, rows[best])
    decreases n
  {
    hide Dot;
    best := n - 1;
    if n > 1 {
      var before := BestIsGreatest(q, rows, n - 1);
      if Dot(q, rows[before]) >= Dot(q, rows[n - 1]) {
        best := before;
      }
    }
  }

  /** One document row for each query row. */
  predicate Choice(choice: seq<nat>, query: seq<Vec>, rows: seq<Vec>) {
    |choice| == |query| && forall i :: 0 <= i < |choice| ==> choice[i] < |rows|
  }

  /** The sum of the products of the first `n` query rows with the rows chosen for them. */
  function ChosenSum(query: seq<Vec>, rows: seq<Vec>, dim: nat, choice: seq<nat>, n: nat): real
    requires Matrix(query, dim) && Matrix(rows, dim) && Choice(choice, query, rows) && n <= |query|
  {
    if n == 0 then 0.0
    else ChosenSum(query, rows, dim, choice, n - 1) + Dot(query[n - 1], rows[choice[n - 1]])
  }

  lemma {:induction false} SumsAtLeast(query: seq<Vec>, rows: seq<Vec>, dim: nat, choice: seq<nat>, n: nat)
    requires Matrix(query, dim) && Matrix(rows, dim) && rows != [] && Choice(choice, query, rows) && n <= |query|
    ensures ChosenSum(query, rows, dim, choice, n) <= Sums(query, rows, dim, 0, n)
    decreases n
  {
    hide Dot, Best;
    if n == 0 {
    } else {
      SumsAtLeast(query, rows, dim, choice, n - 1);
      var best := BestIsGreatest(query[n - 1], rows, |rows|);
    }
  }

  lemma {:induction false} SumsAttained(query: seq<Vec>, rows: seq<Vec>, dim: nat, n: nat) returns (choice: seq<nat>)
    requires Matrix(query, dim) && Matrix(rows, dim) && rows != [] && n <= |query|
    ensures Choice(choice, query, rows) && ChosenSum(query, rows, dim, choice, n) == Sums(query, rows, dim, 0, n)
    decreases n
  {
    hide Dot, Best;
    if n == 0 {
      choice := seq(|query|, _ => 0);
    } else {
      var before := SumsAttained(query, rows, dim, n - 1);
      var best := BestIsGreatest(query[n - 1], rows, |rows|);
      choice := before[n - 1 := best];
      SameChosen(query, rows, dim, before, choice, n - 1);
    }
  }

  lemma {:induction false} SameChosen(query: seq<Vec>, rows: seq<Vec>, dim: nat, a: seq<nat>, b: seq<nat>, n: nat)
    requires Matrix(query, dim) && Matrix(rows, dim) && Choice(a, query, rows) && Choice(b, query, rows)
    requires n <= |query| && a[..n] == b[..n]
    ensures ChosenSum(query, rows, dim, a, n) == ChosenSum(query, rows, dim, b, n)
    decreases n
  {
    hide Dot;
    if n == 0 {
    } else {
      assert a[..n - 1] == b[..n - 1] && a[n - 1] == b[n - 1];
      SameChosen(query, rows, dim, a, b, n - 1);
    }
  }

  /** What the score is: no choice of a document row for each query row has a greater sum of products; one has it. */
  lemma {:induction false} ScoreIsGreatest(query: seq<Vec>, rows: seq<Vec>, dim: nat) returns (choice: seq<nat>)
    requires Matrix(query, dim) && Matrix(rows, dim) && rows != []
    ensures Choice(choice, query, rows)
    ensures Score(query, rows, dim) == ChosenSum(query, rows, dim, choice, |query|)
    ensures forall other :: Choice(other, query, rows) ==>
              ChosenSum(query, rows, dim, other, |query|) <= Score(query, rows, dim)
  {
    hide Choice, ChosenSum, Sums;
    choice := SumsAttained(query, rows, dim, |query|);
    forall other | Choice(other, query, rows)
      ensures ChosenSum(query, rows, dim, other, |query|) <= Score(query, rows, dim)
    {
      SumsAtLeast(query, rows, dim, other, |query|);
    }
  }

  lemma {:induction false} SumsConcat(query: seq<Vec>, rows: seq<Vec>, dim: nat, from: nat, mid: nat, upto: nat)
    requires from <= mid <= upto <= |query| && Matrix(query, dim) && Matrix(rows, dim) && rows != []
    ensures Sums(query, rows, dim, from, upto) == Sums(query, rows, dim, from, mid) + Sums(query, rows, dim, mid, upto)
    decreases upto
  {
    hide Best, Matrix;
    if mid < upto { SumsConcat(query, rows, dim, from, mid, upto - 1); }
  }

  /** The reference: for each query row, the best document row. */
  method TileMaxSim(query: seq<Vec>, document: seq<Vec>, dim: nat) returns (r: Ext)
    requires Matrix(query, dim) && Matrix(document, dim)
    ensures if query == [] || document == [] then r.NegInf? else r == Fin(Score(query, document, dim))
  {
    if query == [] || document == [] { return NegInf; }
    var score := 0.0;
    hide Dot;
    for q := 0 to |query|
      invariant score == Sums(query, document, dim, 0, q)
    {
      var best := NegInf;
      for d := 0 to |document|
        invariant best == Best(query[q], document, d)
      {
        var dot := Dot(query[q], document[d]);
        best := Max(best, Fin(dot));
      }
      BestFinite(query[q], document, |document|);
      score := score + best.value;
    }
    r := Fin(score);
  }

  // ---- Flat memory ----

  /** Where row `r` begins. */
  function Start(base: nat, dim: nat, r: nat): nat {
    base + r * dim
  }

  ghost predicate Holds(mem: Vec, base: nat, dim: nat, rows: nat) {
    Start(base, dim, rows) <= |mem|
  }

  lemma {:induction false} RowInside(mem: Vec, base: nat, dim: nat, rows: nat, r: nat)
    requires Holds(mem, base, dim, rows) && r < rows
    ensures Start(base, dim, r) + dim <= |mem|
  {
    assert rows * dim == r * dim + dim + (rows - r - 1) * dim;
    NatProduct(rows - r - 1, dim);
  }

  function Row(mem: Vec, base: nat, dim: nat, rows: nat, r: nat): (v: Vec)
    requires Holds(mem, base, dim, rows) && r < rows
    ensures |v| == dim
  {
    RowInside(mem, base, dim, rows, r);
    mem[Start(base, dim, r)..Start(base, dim, r) + dim]
  }

  /** The rows of a tensor in flat memory. */
  function Rows(mem: Vec, base: nat, dim: nat, rows: nat): (m: seq<Vec>)
    requires Holds(mem, base, dim, rows)
    ensures |m| == rows && Matrix(m, dim)
  {
    seq(rows, r requires 0 <= r < rows => Row(mem, base, dim, rows, r))
  }

  /** A masked load: the element of row `r`, column `k`, or zero without touching memory. */
  function Load(mem: Vec, base: nat, dim: nat, rows: nat, r: nat, k: nat): real
    requires Holds(mem, base, dim, rows)
  {
    if r < rows && k < dim then
      RowInside(mem, base, dim, rows, r);
      mem[Start(base, dim, r) + k]
    else 0.0
  }

  lemma {:induction false} LoadIs(mem: Vec, base: nat, dim: nat, rows: nat, r: nat, k: nat)
    requires Holds(mem, base, dim, rows) && r < rows && k < dim
    ensures Load(mem, base, dim, rows, r, k) == Row(mem, base, dim, rows, r)[k]
  {
    RowInside(mem, base, dim, rows, r);
    hide Start;
  }

  // ---- The kernel ----

  const BLOCK_QUERY: nat := 32
  const BLOCK_DOCUMENT: nat := 32
  const BLOCK_DIMENSION: nat := 128

  /** One launch: the query, and one document inside the arena. */
  datatype Launch = Launch(query: Vec, queryRows: nat, arena: Vec, base: nat, rows: nat, dim: nat) {
    ghost predicate Valid() {
      Holds(query, 0, dim, queryRows) && Holds(arena, base, dim, rows) && rows > 0
    }

    function Query(): (m: seq<Vec>)
      requires Valid()
      ensures |m| == queryRows && Matrix(m, dim)
    {
      Rows(query, 0, dim, queryRows)
    }

    function Document(): (m: seq<Vec>)
      requires Valid()
      ensures |m| == rows && Matrix(m, dim)
    {
      Rows(arena, base, dim, rows)
    }
  }

  /** The product of a query tile row and a document tile row: `n` columns from `from`, masked. */
  function TileProduct(x: Launch, q: nat, d: nat, from: nat, n: nat): real
    requires x.Valid()
    decreases n
  {
    if n == 0 then 0.0 else
      var k := from + n - 1;
      TileProduct(x, q, d, from, n - 1) + Load(x.query, 0, x.dim, x.queryRows, q, k) * Load(x.arena, x.base, x.dim,
        x.rows, d, k)
  }

  function Least(a: nat, b: nat): nat {
    if a <= b then a else b
  }

  lemma {:induction false} DotNext(u: Vec, v: Vec, k: nat)
    requires |u| == |v| && k < |u|
    ensures Dot(u[..k + 1], v[..k + 1]) == Dot(u[..k], v[..k]) + u[k] * v[k]
  {
    assert u[..k + 1][..k] == u[..k] && v[..k + 1][..k] == v[..k];
  }

  /** The scalar product of a query row and a document row over their first `k` columns. */
  function Upto(x: Launch, q: nat, d: nat, k: nat): real
    requires x.Valid() && q < x.queryRows && d < x.rows
  {
    var n := Least(k, x.dim);
    Dot(x.Query()[q][..n], x.Document()[d][..n])
  }

  /** Adding a tile extends the scalar product by the tile's columns, and by nothing past the dimension. */
  lemma {:induction false} TileExtends(x: Launch, q: nat, d: nat, from: nat, n: nat)
    requires x.Valid() && q < x.queryRows && d < x.rows
    ensures Upto(x, q, d, from) + TileProduct(x, q, d, from, n) == Upto(x, q, d, from + n)
    decreases n
  {
    hide Load, Upto, Launch.Valid;
    if n == 0 {
    } else {
      TileExtends(x, q, d, from, n - 1);
      TileColumn(x, q, d, from + n - 1);
    }
  }

  lemma {:induction false} TileColumn(x: Launch, q: nat, d: nat, k: nat)
    requires x.Valid() && q < x.queryRows && d < x.rows
    ensures Upto(x, q, d, k) + Load(x.query, 0, x.dim, x.queryRows, q, k) * Load(x.arena, x.base, x.dim, x.rows, d,
            k) ==
            Upto(x, q, d, k + 1)
  {
    var u, v := x.Query()[q], x.Document()[d];
    assert u == Row(x.query, 0, x.dim, x.queryRows, q) && v == Row(x.arena, x.base, x.dim, x.rows, d);
    if k < x.dim {
      hide Load, Row, Rows, Holds, Dot;
      LoadIs(x.query, 0, x.dim, x.queryRows, q, k);
      LoadIs(x.arena, x.base, x.dim, x.rows, d, k);
      DotNext(u, v, k);
    }
  }

  type Grid = g: seq<Vec> | |g| == 32 && forall l :: 0 <= l < 32 ==> |g[l]| == 32
    witness seq(32, _ => seq(32, _ => 0.0))

  function AddTile(x: Launch, sims: Grid, qStart: nat, dStart: nat, from: nat): Grid
    requires x.Valid()
  {
    seq(32, l requires 0 <= l < 32 => AddTileRow(x, sims[l], qStart + l, dStart, from))
  }

  function AddTileRow(x: Launch, sims: Vec, q: nat, dStart: nat, from: nat): (r: Vec)
    requires x.Valid() && |sims| == 32
    ensures |r| == 32
  {
    seq(32, m requires 0 <= m < 32 => sims[m] + TileProduct(x, q, dStart + m, from, BLOCK_DIMENSION))
  }

  /** The tile's scalar products over the first `done` columns, for the rows that exist. */
  ghost predicate Partial(x: Launch, sims: Grid, qStart: nat, dStart: nat, done: nat)
    requires x.Valid()
  {
    forall l, m :: 0 <= l < 32 && 0 <= m < 32 && qStart + l < x.queryRows && dStart + m < x.rows ==>
      PartialAt(x, sims[l][m], qStart + l, dStart + m, done)
  }

  ghost predicate PartialAt(x: Launch, v: real, q: nat, d: nat, done: nat)
    requires x.Valid() && q < x.queryRows && d < x.rows
  {
    v == Upto(x, q, d, done)
  }

  method Similarities(x: Launch, qStart: nat, dStart: nat) returns (sims: Grid)
    requires x.Valid()
    ensures forall l, m :: 0 <= l < 32 && 0 <= m < 32 && qStart + l < x.queryRows && dStart + m < x.rows ==>
              sims[l][m] == Dot(x.Query()[qStart + l], x.Document()[dStart + m])
  {
    sims := seq(32, _ => seq(32, _ => 0.0));
    var from := 0;
    NothingPartial(x, sims, qStart, dStart);
    hide Partial, AddTile;
    while from < x.dim
      invariant Partial(x, sims, qStart, dStart, from)
    {
      TileAdded(x, sims, qStart, dStart, from);
      sims := AddTile(x, sims, qStart, dStart, from);
      from := from + BLOCK_DIMENSION;
    }
    PartialIsWhole(x, sims, qStart, dStart, from);
  }

  lemma {:induction false} NothingPartial(x: Launch, sims: Grid, qStart: nat, dStart: nat)
    requires x.Valid() && forall l, m :: 0 <= l < 32 && 0 <= m < 32 ==> sims[l][m] == 0.0
    ensures Partial(x, sims, qStart, dStart, 0)
  {
  }

  lemma {:induction false} TileAdded(x: Launch, sims: Grid, qStart: nat, dStart: nat, from: nat)
    requires x.Valid() && Partial(x, sims, qStart, dStart, from)
    ensures Partial(x, AddTile(x, sims, qStart, dStart, from), qStart, dStart, from + BLOCK_DIMENSION)
  {
    var next := AddTile(x, sims, qStart, dStart, from);
    forall l, m | 0 <= l < 32 && 0 <= m < 32 && qStart + l < x.queryRows && dStart + m < x.rows
      ensures PartialAt(x, next[l][m], qStart + l, dStart + m, from + BLOCK_DIMENSION)
    {
      assert PartialAt(x, sims[l][m], qStart + l, dStart + m, from);
      assert next[l][m] == sims[l][m] + TileProduct(x, qStart + l, dStart + m, from, BLOCK_DIMENSION);
      hide TileProduct, Upto, Partial, Launch.Valid;
      TileExtends(x, qStart + l, dStart + m, from, BLOCK_DIMENSION);
    }
  }

  lemma {:induction false} PartialIsWhole(x: Launch, sims: Grid, qStart: nat, dStart: nat, done: nat)
    requires x.Valid() && Partial(x, sims, qStart, dStart, done) && done >= x.dim
    ensures forall l, m :: 0 <= l < 32 && 0 <= m < 32 && qStart + l < x.queryRows && dStart + m < x.rows ==>
              sims[l][m] == Dot(x.Query()[qStart + l], x.Document()[dStart + m])
  {
    forall l, m | 0 <= l < 32 && 0 <= m < 32 && qStart + l < x.queryRows && dStart + m < x.rows
      ensures sims[l][m] == Dot(x.Query()[qStart + l], x.Document()[dStart + m])
    {
      assert PartialAt(x, sims[l][m], qStart + l, dStart + m, done);
      var u, v := x.Query()[qStart + l], x.Document()[dStart + m];
      assert u[..x.dim] == u && v[..x.dim] == v;
    }
  }

  /** The greatest of the first `n` similarities of a tile row, masked by the document's rows. */
  function LaneMax(sims: Vec, rows: nat, dStart: nat, n: nat): Ext
    requires n <= |sims|
  {
    if n == 0 then NegInf
    else Max(LaneMax(sims, rows, dStart, n - 1), if dStart + n - 1 < rows then Fin(sims[n - 1]) else NegInf)
  }

  lemma {:induction false} MaxAssociative(a: Ext, b: Ext, c: Ext)
    ensures Max(Max(a, b), c) == Max(a, Max(b, c))
  {
  }

  lemma {:induction false} LaneExtends(q: Vec, rows: seq<Vec>, sims: Vec, dStart: nat, n: nat)
    requires Matrix(rows, |q|) && n <= |sims|
    requires forall m :: 0 <= m < n && dStart + m < |rows| ==> sims[m] == Dot(q, rows[dStart + m])
    ensures Max(Best(q, rows, Least(dStart, |rows|)), LaneMax(sims, |rows|, dStart, n))
            == Best(q, rows, Least(dStart + n, |rows|))
    decreases n
  {
    hide Dot;
    if n == 0 {
    } else {
      LaneExtends(q, rows, sims, dStart, n - 1);
      var last := if dStart + n - 1 < |rows| then Fin(sims[n - 1]) else NegInf;
      MaxAssociative(Best(q, rows, Least(dStart, |rows|)), LaneMax(sims, |rows|, dStart, n - 1), last);
      if dStart + n - 1 < |rows| { assert sims[n - 1] == Dot(q, rows[dStart + n - 1]); }
    }
  }

  /** The running maximum of every lane that has a query row. */
  ghost predicate Running(x: Launch, running: seq<Ext>, qStart: nat, done: nat)
    requires x.Valid()
  {
    |running| == 32 && forall l :: 0 <= l < 32 && qStart + l < x.queryRows ==>
      running[l] == Best(x.Query()[qStart + l], x.Document(), Least(done, x.rows))
  }

  function Update(running: seq<Ext>, sims: Grid, rows: nat, dStart: nat): (r: seq<Ext>)
    requires |running| == 32
    ensures |r| == 32
  {
    seq(32, l requires 0 <= l < 32 => Max(running[l], LaneMax(sims[l], rows, dStart, 32)))
  }

  lemma {:induction false} Updated(x: Launch, running: seq<Ext>, sims: Grid, qStart: nat, dStart: nat)
    requires x.Valid() && Running(x, running, qStart, dStart)
    requires forall l, m :: 0 <= l < 32 && 0 <= m < 32 && qStart + l < x.queryRows && dStart + m < x.rows ==>
               sims[l][m] == Dot(x.Query()[qStart + l], x.Document()[dStart + m])
    ensures Running(x, Update(running, sims, x.rows, dStart), qStart, dStart + 32)
  {
    hide Dot, Rows, LaneMax, Best, Holds;
    forall l | 0 <= l < 32 && qStart + l < x.queryRows
      ensures Update(running, sims, x.rows, dStart)[l] == Best(x.Query()[qStart + l], x.Document(),
                                                               Least(dStart + 32, x.rows))
    {
      LaneExtends(x.Query()[qStart + l], x.Document(), sims[l], dStart, 32);
    }
  }

  /** The sum of the first `n` lanes, masked by the query's rows. */
  function LaneSum(running: seq<Ext>, queryRows: nat, qStart: nat, n: nat): real
    requires n <= |running|
  {
    if n == 0 then 0.0 else
      LaneSum(running, queryRows, qStart, n - 1) + (if qStart + n - 1 < queryRows
                                                    && running[n - 1].Fin? then running[n - 1].value else 0.0)
  }

  lemma {:induction false} LaneSumIs(x: Launch, running: seq<Ext>, qStart: nat, n: nat)
    requires x.Valid() && Running(x, running, qStart, x.rows) && n <= 32
    ensures LaneSum(running, x.queryRows, qStart, n) ==
            Sums(x.Query(), x.Document(), x.dim, Least(qStart, x.queryRows), Least(qStart + n, x.queryRows))
    decreases n
  {
    if n == 0 {
    } else {
      LaneSumIs(x, running, qStart, n - 1);
      if qStart + n - 1 < x.queryRows {
        assert running[n - 1] == Best(x.Query()[qStart + n - 1], x.Document(), x.rows);
        BestFinite(x.Query()[qStart + n - 1], x.Document(), x.rows);
      }
      hide Best, Rows, Holds;
    }
  }

  /** One program of the kernel: what it adds to the document's score. */
  method Program(x: Launch, paddedRows: nat, block: nat) returns (partial: real)
    requires x.Valid() && x.rows <= paddedRows
    ensures partial == Share(x, block)
  {
    var qStart := block * BLOCK_QUERY;
    var running := seq(32, _ => NegInf);
    var dStart := 0;
    hide Best, Rows, Holds, LaneMax, Dot;
    assert Running(x, running, qStart, 0) by { NothingRunning(x, running, qStart); }
    while dStart < paddedRows
      invariant Running(x, running, qStart, dStart)
    {
      hide Running;
      var sims := Similarities(x, qStart, dStart);
      Updated(x, running, sims, qStart, dStart);
      running := Update(running, sims, x.rows, dStart);
      dStart := dStart + BLOCK_DOCUMENT;
    }
    assert Running(x, running, qStart, x.rows);
    LaneSumIs(x, running, qStart, 32);
    partial := LaneSum(running, x.queryRows, qStart, 32);
  }

  lemma {:induction false} NothingRunning(x: Launch, running: seq<Ext>, qStart: nat)
    requires x.Valid() && |running| == 32 && forall l :: 0 <= l < 32 ==> running[l] == NegInf
    ensures Running(x, running, qStart, 0)
  {
    hide Dot, Rows, Holds;
  }

  /** The part of the score that belongs to one block of query rows. */
  function Share(x: Launch, block: nat): real
    requires x.Valid()
  {
    Sums(x.Query(), x.Document(), x.dim, Least(block * 32, x.queryRows), Least(block * 32 + 32, x.queryRows))
  }

  function Shares(x: Launch, n: nat): real
    requires x.Valid()
  {
    if n == 0 then 0.0 else Shares(x, n - 1) + Share(x, n - 1)
  }

  lemma {:induction false} SharesAre(x: Launch, n: nat)
    requires x.Valid()
    ensures Shares(x, n) == Sums(x.Query(), x.Document(), x.dim, 0, Least(n * 32, x.queryRows))
    decreases n
  {
    hide Best, Rows, Holds;
    if n == 0 {
    } else {
      SharesAre(x, n - 1);
      SumsConcat(x.Query(), x.Document(), x.dim, 0, Least((n - 1) * 32, x.queryRows), Least(n * 32, x.queryRows));
    }
  }

  /** The blocks of the grid cover the query: their shares add up to the score. */
  lemma {:induction false} GridCovers(x: Launch)
    requires x.Valid()
    ensures Shares(x, (x.queryRows + 31) / 32) == Score(x.Query(), x.Document(), x.dim)
  {
    hide Best, Rows, Holds, Sums;
    SharesAre(x, (x.queryRows + 31) / 32);
  }

  // ---- The launch ----

  /** The shares of the blocks that have run, in block order. */
  ghost function RanSum(x: Launch, d: nat, ran: set<(nat, nat)>, n: nat): real
    requires x.Valid()
  {
    if n == 0 then 0.0 else RanSum(x, d, ran, n - 1) + if (d, n - 1) in ran then Share(x, n - 1) else 0.0
  }

  lemma {:induction false} RanMore(x: Launch, d: nat, ran: set<(nat, nat)>, p: (nat, nat), n: nat)
    requires x.Valid() && p !in ran
    ensures RanSum(x, d, ran + {p}, n) == RanSum(x, d, ran, n) + if p.0 == d && p.1 < n then Share(x, p.1) else 0.0
    decreases n
  {
    hide Share;
    if n == 0 {
    } else {
      RanMore(x, d, ran, p, n - 1);
    }
  }

  lemma {:induction false} RanAll(x: Launch, d: nat, ran: set<(nat, nat)>, n: nat)
    requires x.Valid() && forall b :: 0 <= b < n ==> (d, b) in ran
    ensures RanSum(x, d, ran, n) == Shares(x, n)
    decreases n
  {
    hide Share;
    if n == 0 {
    } else {
      RanAll(x, d, ran, n - 1);
    }
  }

  /** Every program of the grid once. */
  ghost predicate EveryProgram(order: seq<(nat, nat)>, documents: nat, blocks: nat) {
    && (forall p :: p in order <==> p.0 < documents && p.1 < blocks)
    && forall a, b :: 0 <= a < b < |order| ==> order[a] != order[b]
  }

  /** All programs, in any order: every document gets its reference score. */
  method RaggedTileMaxSim(xs: seq<Launch>, queryRows: nat, maximumRows: nat, order: seq<(nat, nat)>)
      returns (scores: Vec)
    requires forall d :: 0 <= d < |xs| ==> xs[d].Valid() && xs[d].queryRows == queryRows && xs[d].rows <= maximumRows
    requires EveryProgram(order, |xs|, (queryRows + BLOCK_QUERY - 1) / BLOCK_QUERY)
    ensures |scores| == |xs|
    ensures forall d :: 0 <= d < |xs| ==> scores[d] == Score(xs[d].Query(), xs[d].Document(), xs[d].dim)
  {
    var blocks := (queryRows + BLOCK_QUERY - 1) / BLOCK_QUERY;
    var paddedRows := (maximumRows + BLOCK_DOCUMENT - 1) / BLOCK_DOCUMENT * BLOCK_DOCUMENT;
    scores := seq(|xs|, _ => 0.0);
    ghost var ran: set<(nat, nat)> := {};
    hide Launch.Valid, Share, Score, RanSum, Launch.Query, Launch.Document, Shares;
    forall d | 0 <= d < |xs| ensures RanSum(xs[d], d, ran, blocks) == 0.0 { NothingRan(xs[d], d, blocks); }
    for k := 0 to |order|
      invariant |scores| == |xs| && ran == (set j | 0 <= j < k :: order[j])
      invariant forall d :: 0 <= d < |xs| ==> scores[d] == RanSum(xs[d], d, ran, blocks)
    {
      var d, b := order[k].0, order[k].1;
      assert order[k] in order;
      assert order[k] !in ran;
      var partial := Program(xs[d], paddedRows, b);
      forall e | 0 <= e < |xs|
        ensures RanSum(xs[e], e, ran + {order[k]}, blocks) == RanSum(xs[e], e, ran, blocks) + if e == d then partial
                else 0.0
      {
        RanMore(xs[e], e, ran, order[k], blocks);
      }
      scores := scores[d := scores[d] + partial];
      ran := ran + {order[k]};
    }
    AllRan(order, ran, |xs|, blocks);
    forall d | 0 <= d < |xs| ensures scores[d] == Score(xs[d].Query(), xs[d].Document(), xs[d].dim) {
      RanAll(xs[d], d, ran, blocks);
      GridCovers(xs[d]);
    }
  }

  lemma {:induction false} AllRan(order: seq<(nat, nat)>, ran: set<(nat, nat)>, documents: nat, blocks: nat)
    requires EveryProgram(order, documents, blocks) && ran == (set j | 0 <= j < |order| :: order[j])
    ensures forall d, b :: 0 <= d < documents && 0 <= b < blocks ==> (d, b) in ran
  {
    forall d, b | 0 <= d < documents && 0 <= b < blocks ensures (d, b) in ran {
      assert (d, b) in order;
      var k :| 0 <= k < |order| && order[k] == (d, b);
    }
  }

  lemma {:induction false} NothingRan(x: Launch, d: nat, n: nat)
    requires x.Valid()
    ensures RanSum(x, d, {}, n) == 0.0
    decreases n
  {
    hide Share;
    if n == 0 {
    } else {
      NothingRan(x, d, n - 1);
    }
  }

  // ---- Slices of a concatenated group ----

  function Concat(docs: seq<seq<Vec>>): seq<Vec> {
    if docs == [] then [] else Concat(docs[..|docs| - 1]) + docs[|docs| - 1]
  }

  lemma {:induction false} ConcatMatrix(docs: seq<seq<Vec>>, dim: nat)
    requires forall i :: 0 <= i < |docs| ==> Matrix(docs[i], dim)
    ensures Matrix(Concat(docs), dim)
    decreases |docs|
  {
    if docs == [] {
    } else {
      var n := |docs| - 1;
      ConcatMatrix(docs[..n], dim);
      assert Matrix(docs[n], dim);
    }
  }

  lemma {:induction false} ConcatAt(docs: seq<seq<Vec>>, i: nat)
    requires i < |docs|
    ensures Concat(docs[..i + 1]) == Concat(docs[..i]) + docs[i]
    ensures var at := |Concat(docs[..i])|;
            at + |docs[i]| <= |Concat(docs)| && Concat(docs)[at..at + |docs[i]|] == docs[i]
    decreases |docs|
  {
    var n := |docs| - 1;
    assert docs[..i + 1][..i] == docs[..i];
    if i < n {
      ConcatAt(docs[..n], i);
      assert docs[..n][..i] == docs[..i] && docs[..n][i] == docs[i];
      SliceKept(Concat(docs[..n]), docs[n], |Concat(docs[..i])|, |docs[i]|);
    }
  }

  lemma {:induction false} SliceKept(a: seq<Vec>, b: seq<Vec>, at: nat, n: nat)
    requires at + n <= |a|
    ensures (a + b)[at..at + n] == a[at..at + n]
  {
  }

  /** Scores of a group from one matrix of similarities with the concatenated documents. */
  method SlicedScores(query: seq<Vec>, docs: seq<seq<Vec>>, dim: nat) returns (scores: Vec)
    requires Matrix(query, dim) && forall i :: 0 <= i < |docs| ==> Matrix(docs[i], dim) && docs[i] != []
    ensures |scores| == |docs| && forall i :: 0 <= i < |docs| ==> scores[i] == Score(query, docs[i], dim)
  {
    var all := Concat(docs);
    ConcatMatrix(docs, dim);
    scores := [];
    var offset := 0;
    hide Concat, Score, Matrix;
    for i := 0 to |docs|
      invariant offset == |Concat(docs[..i])| && |scores| == i
      invariant forall j :: 0 <= j < i ==> scores[j] == Score(query, docs[j], dim)
    {
      ConcatAt(docs, i);
      var score := SliceScore(query, all, dim, offset, |docs[i]|, docs[i]);
      scores := scores + [score];
      offset := offset + |docs[i]|;
    }
  }

  method SliceScore(query: seq<Vec>, all: seq<Vec>, dim: nat, offset: nat, rows: nat, ghost document: seq<Vec>)
      returns (score: real)
    requires Matrix(query, dim) && Matrix(all, dim) && Matrix(document, dim) && rows > 0
    requires offset + rows <= |all| && all[offset..offset + rows] == document
    ensures score == Score(query, document, dim)
  {
    score := 0.0;
    hide Dot;
    for q := 0 to |query|
      invariant score == Sums(query, document, dim, 0, q)
    {
      var best := NegInf;
      for c := offset to offset + rows
        invariant best == Best(query[q], document, c - offset)
      {
        assert all[c] == document[c - offset];
        best := Max(best, Fin(Dot(query[q], all[c])));
      }
      BestFinite(query[q], document, rows);
      score := score + best.value;
    }
  }
}
