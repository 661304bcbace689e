/** Putting low-rank tensors together: concatenation of rows and stacking. */
module LoraCat {
  import opened Basics
  import opened Tensors
  import opened Lora
  import opened LoraShapes
  import opened LoraParts
  import opened LoraSplit

  /** Row-major data of tensors put one after the other along the first axis. */
  function ConcatData(ts: seq<Tensor>): seq<real> {
    if ts == [] then [] else ConcatData(ts[..|ts| - 1]) + ts[|ts| - 1].data
  }

  function RowsOf(ts: seq<Tensor>): nat
    requires forall i :: 0 <= i < |ts| ==> |ts[i].shape| == 2
  {
    if ts == [] then 0 else RowsOf(ts[..|ts| - 1]) + ts[|ts| - 1].shape[0]
  }

  predicate SameWidth(ts: seq<Tensor>, w: nat) {
    forall i :: 0 <= i < |ts| ==> Valid(ts[i]) && |ts[i].shape| == 2 && ts[i].shape[1] == w
  }

  function CatRows(ts: seq<Tensor>, w: nat): Tensor
    requires SameWidth(ts, w)
  {
    Tensor([RowsOf(ts), w], ConcatData(ts))
  }

  function Bs(ls: seq<Lora>): (r: seq<Tensor>)
    ensures |r| == |ls| && forall i :: 0 <= i < |ls| ==> r[i] == ls[i].b
  {
    seq(|ls|, i requires 0 <= i < |ls| => ls[i].b)
  }

  predicate Matrices(ls: seq<Lora>) {
    forall i :: 0 <= i < |ls| ==> Matrix(ls[i])
  }

  /** Matrices are concatenated only when they have the same A. */
  function Cat(ls: seq<Lora>): Option<Lora>
    requires ls != [] && Matrices(ls)
  {
    assert Matrix(ls[0]);
    if (forall i :: 0 < i < |ls| ==> ls[i].a == ls[0].a) && SameWidth(Bs(ls), Rank(ls[0]))
    then Some(Lora(ls[0].a, CatRows(Bs(ls), Rank(ls[0])))) else None
  }

  lemma Prod2(m: nat, w: nat)
    ensures Prod([m, w]) == m * w
  {
    assert [m, w] == [m] + [w] && [m] == [] + [m];
    ProdSnoc([m], w);
    ProdSnoc([], m);
  }

  lemma Flat2(m: nat, w: nat, i: nat, j: nat)
    ensures Flat([m, w], [i, j]) == i * w + j
  {
    assert [m, w] == [m] + [w] && [i, j] == [i] + [j];
    FlatSnoc([m], w, [i], j);
    assert [m] == [] + [m] && [i] == [] + [i];
    FlatSnoc([], m, [], i);
  }

  lemma {:induction false} ConcatLength(ts: seq<Tensor>, w: nat)
    requires SameWidth(ts, w)
    ensures |ConcatData(ts)| == RowsOf(ts) * w
  {
    if ts != [] {
      var n := |ts| - 1;
      ConcatLength(ts[..n], w);
      assert ts[n].shape == [ts[n].shape[0], w];
      Prod2(ts[n].shape[0], w);
      assert (RowsOf(ts[..n]) + ts[n].shape[0]) * w == RowsOf(ts[..n]) * w + ts[n].shape[0] * w;
    }
  }

  // ---------------------------------------------------------------------
  // Splitting the rows and concatenating them again

  /** A matrix of row length `w`. */
  predicate IsMatrix(t: Tensor, m: nat, w: nat) {
    t.shape == [m, w] && |t.data| == m * w
  }

  lemma MatrixAt(t: Tensor, m: nat, w: nat, i: nat, j: nat)
    requires IsMatrix(t, m, w) && i < m && j < w
    ensures Valid(t) && i * w + j < |t.data| && At(t, [i, j]) == t.data[i * w + j]
  {
    Prod2(m, w);
    FlatUnflat([m, w], [i, j]);
    Flat2(m, w, i, j);
  }

  lemma RowBounds(m: nat, w: nat, lo: nat, hi: nat)
    requires lo <= hi <= m
    ensures lo * w <= hi * w <= m * w && (hi - lo) * w == hi * w - lo * w
  {
    MulMono(lo, hi, w);
    MulMono(hi, m, w);
  }

  /** The rows from `lo` to `hi`: a stretch of the data. */
  function Rows(t: Tensor, m: nat, w: nat, lo: nat, hi: nat): (r: Tensor)
    requires IsMatrix(t, m, w) && lo <= hi <= m
    ensures IsMatrix(r, hi - lo, w)
  {
    RowBounds(m, w, lo, hi);
    Tensor([hi - lo, w], t.data[lo * w..hi * w])
  }

  lemma RowsAt(t: Tensor, m: nat, w: nat, lo: nat, hi: nat, i: nat, j: nat)
    requires IsMatrix(t, m, w) && lo <= hi <= m && i < hi - lo && j < w
    ensures Valid(t) && Valid(Rows(t, m, w, lo, hi))
    ensures At(Rows(t, m, w, lo, hi), [i, j]) == At(t, [lo + i, j])
  {
    RowBounds(m, w, lo, hi);
    MatrixAt(Rows(t, m, w, lo, hi), hi - lo, w, i, j);
    MatrixAt(t, m, w, lo + i, j);
    assert (lo + i) * w + j == lo * w + (i * w + j);
  }

  lemma SelectedRowsAt(t: Tensor, m: nat, w: nat, pos: seq<nat>, i: nat, j: nat, at: Index, s: Tensor)
    requires Valid(t) && t.shape == [m, w] && PositionsOf(pos, m) && i < |pos| && j < w
    requires at == [i, j][0 := pos[i]] && s == Select(t, 0, pos)
    ensures At(s, [i, j]) == At(t, at)
  {
    hide At;
    assert t.shape[0 := |pos|] == [|pos|, w];
    SelectAt(t, 0, pos, [i, j]);
  }

  lemma RowIndex(pos: seq<nat>, lo: nat, hi: nat, i: nat, j: nat)
    requires lo <= hi && pos == Range(lo, hi) && i < hi - lo
    ensures [i, j][0 := pos[i]] == [lo + i, j]
  {
  }

  lemma SelectedShape(t: Tensor, m: nat, w: nat, pos: seq<nat>)
    requires Valid(t) && t.shape == [m, w] && PositionsOf(pos, m)
    ensures Select(t, 0, pos).shape == [|pos|, w]
  {
  }

  /** A matrix with the elements of consecutive rows is what selecting those rows gives. */
  lemma SelectIs(t: Tensor, m: nat, w: nat, lo: nat, hi: nat, r: Tensor, pos: seq<nat>, s: Tensor)
    requires Valid(t) && t.shape == [m, w] && lo <= hi <= m && pos == Range(lo, hi) && PositionsOf(pos, m)
    requires s == Select(t, 0, pos) && Valid(r) && r.shape == [hi - lo, w]
    requires forall i: nat, j: nat :: i < hi - lo && j < w ==> At(r, [i, j]) == At(t, [lo + i, j])
    ensures s == r
  {
    hide At, Select, Prod, PositionsOf;
    SelectedShape(t, m, w, pos);
    forall i: nat, j: nat | i < hi - lo && j < w ensures At(s, [i, j]) == At(r, [i, j]) {
      RowIndex(pos, lo, hi, i, j);
      SelectedRowsAt(t, m, w, pos, i, j, [lo + i, j], s);
    }
    SameMatrix(s, r, hi - lo, w);
  }

  lemma RowsElements(t: Tensor, m: nat, w: nat, lo: nat, hi: nat)
    requires IsMatrix(t, m, w) && Valid(t) && lo <= hi <= m
    ensures Valid(Rows(t, m, w, lo, hi))
    ensures forall i: nat, j: nat :: i < hi - lo && j < w ==> At(Rows(t, m, w, lo, hi), [i, j]) == At(t, [lo + i, j])
  {
    Prod2(hi - lo, w);
    var r := Rows(t, m, w, lo, hi);
    forall i: nat, j: nat | i < hi - lo && j < w ensures At(r, [i, j]) == At(t, [lo + i, j]) {
      RowsAt(t, m, w, lo, hi, i, j);
    }
  }

  /** Selecting consecutive rows is taking a stretch of the data. */
  lemma SelectIsRows(t: Tensor, m: nat, w: nat, lo: nat, hi: nat, pos: seq<nat>, s: Tensor, r: Tensor)
    requires IsMatrix(t, m, w) && Valid(t) && lo <= hi <= m && pos == Range(lo, hi) && PositionsOf(pos, m)
    requires s == Select(t, 0, pos) && r == Rows(t, m, w, lo, hi)
    ensures s == r
  {
    hide At;
    RowsElements(t, m, w, lo, hi);
    SelectIs(t, m, w, lo, hi, r, pos, s);
  }

  /** The first `k` row blocks of a matrix, cut at `cuts`. */
  function Blocks(t: Tensor, m: nat, w: nat, cuts: seq<nat>, k: nat): (r: seq<Tensor>)
    requires IsMatrix(t, m, w) && CutsOf(cuts, m) && k < |cuts|
    ensures |r| == k
    decreases k
  {
    if k == 0 then [] else
      CutBelow(cuts, m, k);
      Blocks(t, m, w, cuts, k - 1) + [Rows(t, m, w, cuts[k - 1], cuts[k])]
  }

  lemma {:induction false} BlocksConcat(t: Tensor, m: nat, w: nat, cuts: seq<nat>, k: nat)
    requires IsMatrix(t, m, w) && CutsOf(cuts, m) && k < |cuts|
    ensures cuts[k] * w <= |t.data| && ConcatData(Blocks(t, m, w, cuts, k)) == t.data[..cuts[k] * w]
    decreases k
  {
    CutBelow(cuts, m, k);
    RowBounds(m, w, 0, cuts[k]);
    if k > 0 {
      BlocksConcat(t, m, w, cuts, k - 1);
      RowBounds(m, w, cuts[k - 1], cuts[k]);
      var head, all := Blocks(t, m, w, cuts, k - 1), Blocks(t, m, w, cuts, k);
      assert all[..k - 1] == head;
      JoinStretch(t.data, cuts[k - 1] * w, cuts[k] * w);
    }
  }

  lemma JoinStretch(d: seq<real>, x: nat, y: nat)
    requires x <= y <= |d|
    ensures d[..x] + d[x..y] == d[..y]
  {
  }

  lemma {:induction false} BlocksWidth(t: Tensor, m: nat, w: nat, cuts: seq<nat>, k: nat)
    requires IsMatrix(t, m, w) && CutsOf(cuts, m) && k < |cuts|
    ensures SameWidth(Blocks(t, m, w, cuts, k), w) && RowsOf(Blocks(t, m, w, cuts, k)) == cuts[k]
    decreases k
  {
    if k > 0 {
      BlocksWidth(t, m, w, cuts, k - 1);
      CutBelow(cuts, m, k);
      Prod2(cuts[k] - cuts[k - 1], w);
      assert Blocks(t, m, w, cuts, k)[..k - 1] == Blocks(t, m, w, cuts, k - 1);
    }
  }

  /** Cutting a matrix into row blocks and concatenating them gives the matrix back. */
  lemma BlocksRebuild(t: Tensor, m: nat, w: nat, cuts: seq<nat>)
    requires IsMatrix(t, m, w) && CutsOf(cuts, m)
    ensures SameWidth(Blocks(t, m, w, cuts, |cuts| - 1), w)
    ensures CatRows(Blocks(t, m, w, cuts, |cuts| - 1), w) == t
  {
    BlocksWidth(t, m, w, cuts, |cuts| - 1);
    BlocksConcat(t, m, w, cuts, |cuts| - 1);
    assert t.data[..|t.data|] == t.data;
  }

  lemma {:induction false} BlockIs(t: Tensor, m: nat, w: nat, cuts: seq<nat>, k: nat, i: nat)
    requires IsMatrix(t, m, w) && CutsOf(cuts, m) && i < k < |cuts|
    ensures cuts[i] <= cuts[i + 1] <= m
    ensures Blocks(t, m, w, cuts, k)[i] == Rows(t, m, w, cuts[i], cuts[i + 1])
    decreases k
  {
    CutBelow(cuts, m, k);
    if i < k - 1 {
      BlockIs(t, m, w, cuts, k - 1, i);
    }
  }

  lemma RowPartIs(l: Lora, cuts: seq<nat>, i: nat, m: nat, w: nat, b: Tensor, p: Lora)
    requires Matrix(l) && m == Shape(l)[0] && w == Rank(l) && CutsOf(cuts, m) && i + 1 < |cuts| && IsMatrix(l.b, m, w)
    requires cuts[i] <= cuts[i + 1] <= m && b == Rows(l.b, m, w, cuts[i], cuts[i + 1]) && p == Part(l, 0, cuts, i)
    ensures p.a == l.a && p.b == b
  {
    hide At;
    CutBelow(cuts, m, i + 1);
    SelectIsRows(l.b, m, w, cuts[i], cuts[i + 1], Range(cuts[i], cuts[i + 1]), p.b, b);
  }

  lemma MatrixData(l: Lora)
    requires Matrix(l)
    ensures IsMatrix(l.b, Shape(l)[0], Rank(l))
  {
    assert l.b.shape == [Shape(l)[0], Rank(l)];
    Prod2(Shape(l)[0], Rank(l));
  }

  lemma RowPartProper(l: Lora, cuts: seq<nat>, i: nat)
    requires Matrix(l) && CutsOf(cuts, Shape(l)[0]) && i + 1 < |cuts|
    ensures Matrix(Part(l, 0, cuts, i))
  {
    CutBelow(cuts, Shape(l)[0], i + 1);
  }

  lemma CatOfParts(l: Lora, cuts: seq<nat>, m: nat, w: nat, blocks: seq<Tensor>)
    requires Matrix(l) && m == Shape(l)[0] && w == Rank(l) && CutsOf(cuts, m) && |cuts| > 1 && IsMatrix(l.b, m, w)
    requires blocks == Blocks(l.b, m, w, cuts, |cuts| - 1)
    ensures Matrices(PartsAt(l, 0, cuts)) && Cat(PartsAt(l, 0, cuts)) == Some(l)
  {
    var parts := PartsAt(l, 0, cuts);
    forall i | 0 <= i < |parts| ensures Matrix(parts[i]) && parts[i].a == l.a && parts[i].b == blocks[i] {
      RowPartProper(l, cuts, i);
      BlockIs(l.b, m, w, cuts, |cuts| - 1, i);
      RowPartIs(l, cuts, i, m, w, blocks[i], parts[i]);
    }
    BlocksRebuild(l.b, m, w, cuts);
    CatOfShared(parts, l, blocks);
  }

  /** Splitting a matrix along its rows, by one size or by a list, and concatenating the parts gives
      back the very same pair. */
  lemma CatUndoesSplit(l: Lora, split: SplitSize, dim: int)
    requires Matrix(l) && (dim == 0 || dim == -2) && Split(l, split, dim).Some? && Split(l, split, dim).value != []
    ensures Matrices(Split(l, split, dim).value) && Cat(Split(l, split, dim).value) == Some(l)
  {
    hide Blocks, PartsAt, Cuts, Cat, Matrices, SplitBoth, Prod;
    var m, w := Shape(l)[0], Rank(l);
    var cuts := Cuts(m, split).value;
    MatrixData(l);
    CatOfParts(l, cuts, m, w, Blocks(l.b, m, w, cuts, |cuts| - 1));
  }

  lemma CatOfShared(ls: seq<Lora>, l: Lora, bs: seq<Tensor>)
    requires ls != [] && Matrix(l) && |bs| == |ls|
    requires forall i :: 0 <= i < |ls| ==> Matrix(ls[i]) && ls[i].a == l.a && ls[i].b == bs[i]
    requires SameWidth(bs, Rank(l)) && CatRows(bs, Rank(l)) == l.b
    ensures Matrices(ls) && Cat(ls) == Some(l)
  {
    assert Bs(ls) == bs;
    assert Matrix(ls[0]) && ls[0].a == l.a;
  }

  // ---------------------------------------------------------------------
  // Concatenation and the dense meaning

  lemma FrontTerm(b: seq<real>, b': seq<real>, a: seq<real>, r: nat, rank: nat, c: nat, row: nat, col: nat, k: nat)
    requires |b| == r * rank && row < r && k < rank
    ensures FlatTerm(b + b', a, rank, c, row, col, k) == FlatTerm(b, a, rank, c, row, col, k)
  {
    SnocBound(row, r, k, rank);
  }

  lemma BackTerm(b: seq<real>, b': seq<real>, a: seq<real>, r: nat, rank: nat, c: nat, row: nat, col: nat, k: nat)
    requires |b| == r * rank
    ensures FlatTerm(b + b', a, rank, c, r + row, col, k) == FlatTerm(b', a, rank, c, row, col, k)
  {
    assert (r + row) * rank + k == |b| + (row * rank + k);
  }

  lemma FrontElement(b: seq<real>, b': seq<real>, a: seq<real>, r: nat, rank: nat, c: nat, p: nat)
    requires |b| == r * rank && p < r * c
    ensures FlatElement(b + b', a, rank, c, p) == FlatElement(b, a, rank, c, p)
  {
    QuotientBound(p, r, c);
    var f := (k: nat) => FlatTerm(b + b', a, rank, c, p / c, p % c, k);
    var g := (k: nat) => FlatTerm(b, a, rank, c, p / c, p % c, k);
    forall k: nat | k < rank ensures f(k) == g(k) {
      FrontTerm(b, b', a, r, rank, c, p / c, p % c, k);
    }
    SameSum(rank, f, g);
  }

  lemma ShiftedRow(r: nat, c: nat, q: nat)
    requires c > 0
    ensures (r * c + q) / c == r + q / c && (r * c + q) % c == q % c
  {
    assert q == (q / c) * c + q % c;
    assert r * c + q == (r + q / c) * c + q % c;
    DivMod(r + q / c, c, q % c);
  }

  lemma BackElement(b: seq<real>, b': seq<real>, a: seq<real>, r: nat, rank: nat, c: nat, q: nat)
    requires |b| == r * rank
    ensures FlatElement(b + b', a, rank, c, r * c + q) == FlatElement(b', a, rank, c, q)
  {
    if c > 0 {
      ShiftedRow(r, c, q);
      var f := (k: nat) => FlatTerm(b + b', a, rank, c, r + q / c, q % c, k);
      var g := (k: nat) => FlatTerm(b', a, rank, c, q / c, q % c, k);
      forall k: nat | k < rank ensures f(k) == g(k) {
        BackTerm(b, b', a, r, rank, c, q / c, q % c, k);
      }
      SameSum(rank, f, g);
      var h := (k: nat) => FlatTerm(b + b', a, rank, c, (r * c + q) / c, (r * c + q) % c, k);
      SameSum(rank, h, f);
    }
  }

  lemma FlatConcat(b: seq<real>, b': seq<real>, a: seq<real>, r: nat, r': nat, rank: nat, c: nat)
    requires |b| == r * rank
    ensures FlatDense(b + b', a, r + r', rank, c) == FlatDense(b, a, r, rank, c) + FlatDense(b', a, r', rank, c)
  {
    var whole, x, y := FlatDense(b + b', a, r + r', rank, c), FlatDense(b, a, r, rank, c), FlatDense(b', a, r', rank, c);
    assert (r + r') * c == r * c + r' * c;
    forall p | 0 <= p < (r + r') * c ensures whole[p] == (x + y)[p] {
      if p < r * c {
        FrontElement(b, b', a, r, rank, c, p);
      } else {
        BackElement(b, b', a, r, rank, c, p - r * c);
      }
    }
  }

  /** Pairs that share `a`. */
  predicate Sharing(a: Tensor, bs: seq<Tensor>, rank: nat) {
    && Valid(a) && |a.shape| == 2 && a.shape[0] == rank
    && SameWidth(bs, rank)
  }

  /** The dense tensors of pairs that share `a`. */
  function DenseAll(a: Tensor, bs: seq<Tensor>, rank: nat): (r: seq<Tensor>)
    requires Sharing(a, bs, rank)
    ensures |r| == |bs|
    decreases |bs|
  {
    if bs == [] then [] else
      var n := |bs| - 1;
      DenseAll(a, bs[..n], rank) + [Dense(Lora(a, bs[n]))]
  }

  lemma MatrixFlat(l: Lora)
    requires Matrix(l)
    ensures Dense(l).data == FlatDense(l.b.data, l.a.data, l.b.shape[0], Rank(l), Columns(l))
    ensures Dense(l).shape == [l.b.shape[0], Columns(l)]
  {
    DenseFlat(l);
    assert l.b.shape[..1] == [] + [l.b.shape[0]];
    ProdSnoc([], l.b.shape[0]);
  }

  lemma ConcatSnoc(ts: seq<Tensor>, t: Tensor)
    ensures ConcatData(ts + [t]) == ConcatData(ts) + t.data
  {
    assert (ts + [t])[..|ts|] == ts;
  }

  lemma RowsSnoc(ts: seq<Tensor>, t: Tensor, w: nat)
    requires SameWidth(ts, w) && Valid(t) && |t.shape| == 2 && t.shape[1] == w
    ensures SameWidth(ts + [t], w) && RowsOf(ts + [t]) == RowsOf(ts) + t.shape[0]
  {
    assert (ts + [t])[..|ts|] == ts;
  }

  /** What the dense matrices `ds` of `bs` are together. */
  predicate Concatenated(a: Tensor, bs: seq<Tensor>, ds: seq<Tensor>, rank: nat, c: nat) {
    && SameWidth(bs, rank) && SameWidth(ds, c) && RowsOf(ds) == RowsOf(bs)
    && ConcatData(ds) == FlatDense(ConcatData(bs), a.data, RowsOf(bs), rank, c)
  }

  lemma DenseMore(a: Tensor, bs: seq<Tensor>, b: Tensor, ds: seq<Tensor>, d: Tensor, rank: nat, c: nat)
    requires Sharing(a, bs + [b], rank) && a.shape[1] == c && Concatenated(a, bs, ds, rank, c)
    requires Matrix(Lora(a, b)) && d == Dense(Lora(a, b))
    ensures Concatenated(a, bs + [b], ds + [d], rank, c)
  {
    hide Dense, FlatDense, RowsOf, Prod;
    ConcatLength(bs, rank);
    MatrixFlat(Lora(a, b));
    FlatConcat(ConcatData(bs), b.data, a.data, RowsOf(bs), b.shape[0], rank, c);
    ConcatSnoc(bs, b);
    ConcatSnoc(ds, d);
    RowsSnoc(bs, b, rank);
    RowsSnoc(ds, d, c);
  }

  lemma {:induction false} DenseConcat(a: Tensor, bs: seq<Tensor>, rank: nat, c: nat)
    requires Sharing(a, bs, rank) && a.shape[1] == c
    ensures Concatenated(a, bs, DenseAll(a, bs, rank), rank, c)
    decreases |bs|
  {
    if bs != [] {
      var n := |bs| - 1;
      DenseConcat(a, bs[..n], rank, c);
      assert bs == bs[..n] + [bs[n]];
      DenseMore(a, bs[..n], bs[n], DenseAll(a, bs[..n], rank), Dense(Lora(a, bs[n])), rank, c);
    }
  }

  /** Concatenating pairs with a common A is concatenating their dense matrices. */
  lemma CatCommutes(a: Tensor, bs: seq<Tensor>, rank: nat)
    requires Sharing(a, bs, rank)
    ensures Matrix(Lora(a, CatRows(bs, rank)))
    ensures SameWidth(DenseAll(a, bs, rank), a.shape[1])
    ensures Dense(Lora(a, CatRows(bs, rank))) == CatRows(DenseAll(a, bs, rank), a.shape[1])
  {
    var b := CatRows(bs, rank);
    ConcatLength(bs, rank);
    Prod2(RowsOf(bs), rank);
    DenseConcat(a, bs, rank, a.shape[1]);
    MatrixFlat(Lora(a, b));
  }

  /** All pairs have the same A. */
  predicate OneA(ls: seq<Lora>) {
    forall i, j :: 0 <= i < |ls| && 0 <= j < |ls| ==> ls[i].a == ls[j].a
  }

  /** The dense tensors of pairs. */
  function Denses(ls: seq<Lora>): (r: seq<Tensor>)
    requires forall i :: 0 <= i < |ls| ==> Proper(ls[i])
    ensures |r| == |ls| && forall i :: 0 <= i < |ls| ==> r[i] == Dense(ls[i])
  {
    seq(|ls|, i requires 0 <= i < |ls| => Dense(ls[i]))
  }

  lemma MatricesProper(ls: seq<Lora>)
    requires Matrices(ls)
    ensures forall i :: 0 <= i < |ls| ==> Proper(ls[i])
  {
    forall i | 0 <= i < |ls| ensures Proper(ls[i]) {
      assert Matrix(ls[i]);
    }
  }

  lemma {:induction false} DenseAllAt(a: Tensor, bs: seq<Tensor>, rank: nat, i: nat)
    requires Sharing(a, bs, rank) && i < |bs|
    ensures DenseAll(a, bs, rank)[i] == Dense(Lora(a, bs[i]))
    decreases |bs|
  {
    hide Dense;
    var n := |bs| - 1;
    if i < n {
      assert bs[..n][i] == bs[i];
      DenseAllAt(a, bs[..n], rank, i);
    }
  }

  lemma SharedDenses(a: Tensor, ls: seq<Lora>, rank: nat, bs: seq<Tensor>)
    requires Matrices(ls) && (forall i :: 0 <= i < |ls| ==> ls[i].a == a) && bs == Bs(ls) && Sharing(a, bs, rank)
    ensures (forall i :: 0 <= i < |ls| ==> Proper(ls[i])) && DenseAll(a, bs, rank) == Denses(ls)
  {
    hide Dense, DenseAll, Sharing;
    MatricesProper(ls);
    forall i | 0 <= i < |ls| ensures DenseAll(a, bs, rank)[i] == Denses(ls)[i] {
      assert Matrix(ls[i]) && ls[i] == Lora(a, bs[i]);
      DenseAllAt(a, bs, rank, i);
    }
  }

  lemma SharedFirst(ls: seq<Lora>)
    requires ls != [] && Matrices(ls)
    ensures Cat(ls).Some? <==> OneA(ls)
    ensures OneA(ls) ==> Sharing(ls[0].a, Bs(ls), Rank(ls[0])) && Cat(ls) == Some(Lora(ls[0].a, CatRows(Bs(ls), Rank(ls[0]))))
  {
    assert Matrix(ls[0]);
    if forall i :: 0 < i < |ls| ==> ls[i].a == ls[0].a {
      forall i | 0 <= i < |ls| ensures Valid(ls[i].b) && |ls[i].b.shape| == 2 && ls[i].b.shape[1] == Rank(ls[0]) {
        assert Matrix(ls[i]);
      }
    }
  }

  /** Matrices are concatenated if and only if they have the same A, and stand for the concatenated dense matrices. */
  lemma CatMatricesExact(ls: seq<Lora>, w: nat)
    requires ls != [] && Matrices(ls) && w == Columns(ls[0])
    ensures (Cat(ls).Some? <==> OneA(ls)) && forall i :: 0 <= i < |ls| ==> Proper(ls[i])
    ensures OneA(ls) ==>
      Matrix(Cat(ls).value) && SameWidth(Denses(ls), w) && Dense(Cat(ls).value) == CatRows(Denses(ls), w)
  {
    hide Cat, Dense, CatRows, SameWidth, Sharing, DenseAll;
    SharedFirst(ls);
    MatricesProper(ls);
    if OneA(ls) {
      assert Matrix(ls[0]);
      var a, rank := ls[0].a, Rank(ls[0]);
      SharedDenses(a, ls, rank, Bs(ls));
      CatCommutes(a, Bs(ls), rank);
    }
  }
}
