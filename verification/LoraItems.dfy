/** When indexing a pair is indexing the dense tensor it stands for. */
module LoraItems {
  import opened Tensors
  import opened Lora
  import opened LoraParts
  import opened LoraIndex

  // ---------------------------------------------------------------------
  // One axis more

  /** Batch axes, then rows, then columns. */
  function Sels(batch: seq<Sel>, rows: seq<nat>, cols: seq<nat>): seq<Sel> {
    batch + [Keep(rows)] + [Keep(cols)]
  }

  lemma SelsShape(batch: seq<Sel>, rows: seq<nat>, cols: seq<nat>)
    ensures OutShape(Sels(batch, rows, cols)) == OutShape(batch) + [|rows|] + [|cols|]
  {
    OutShapeSnoc(batch, Keep(rows));
    OutShapeSnoc(batch + [Keep(rows)], Keep(cols));
  }

  lemma SelsSource(batch: seq<Sel>, rows: seq<nat>, cols: seq<nat>, ib: Index, y: nat, x: nat)
    requires y < |rows| && x < |cols|
    ensures Source(Sels(batch, rows, cols), ib + [y] + [x]) == Source(batch, ib) + [rows[y]] + [cols[x]]
  {
    SourceSnoc(batch, rows, ib, y);
    SourceSnoc(batch + [Keep(rows)], cols, ib + [y], x);
  }

  // ---------------------------------------------------------------------
  // Pairs by their parts

  /** The batch axes of A and B, the rows, the rank and the columns. */
  predicate Parts(l: Lora, sa: seq<nat>, sb: seq<nat>, m: nat, r: nat, c: nat) {
    && Valid(l.a) && Valid(l.b)
    && l.a.shape == sa + [r] + [c] && l.b.shape == sb + [m] + [r]
  }

  lemma PartsProper(l: Lora, sa: seq<nat>, sb: seq<nat>, m: nat, r: nat, c: nat)
    requires Parts(l, sa, sb, m, r, c)
    ensures Proper(l) <==> Broadcasts(sa, sb)
    ensures Proper(l) ==> Rank(l) == r && Columns(l) == c && Shape(l) == sb + [m] + [c]
  {
    if |sa| == |sb| {
      forall i | 0 <= i < |sa| ensures l.a.shape[i] == sa[i] && l.b.shape[i] == sb[i] {
      }
    }
    if Proper(l) {
      assert l.b.shape[..|l.b.shape| - 1] == sb + [m];
    }
  }

  /** An index into a pair: batch part, row and column. */
  predicate Split3(idx: Index, ib: Index, y: nat, x: nat) {
    idx == ib + [y] + [x]
  }

  lemma AIndexOf(shape: seq<nat>, idx: Index, ib: Index, y: nat, x: nat, k: nat)
    requires |idx| == |shape| >= 2 && Split3(idx, ib, y, x)
    ensures AIndex(shape, idx, k) == SharedIdx(shape[..|shape| - 2], ib) + [k] + [x]
  {
  }

  lemma BIndexOf(idx: Index, ib: Index, y: nat, x: nat, k: nat)
    requires Split3(idx, ib, y, x)
    ensures BIndex(idx, k) == ib + [y] + [k]
  {
  }

  // ---------------------------------------------------------------------
  // Tensors by their elements

  type Elements = Index -> real

  function AtOf(t: Tensor): Elements
    requires Valid(t)
  {
    (idx: Index) => At(t, idx)
  }

  function PairTerm(b: Elements, a: Elements, ib: Index, ia: Index, y: nat, x: nat, k: nat): real {
    b(ib + [y] + [k]) * a(ia + [k] + [x])
  }

  /** An element of a pair, from the elements of A and B: the first `r` terms. */
  function PairElement(r: nat, b: Elements, a: Elements, ib: Index, ia: Index, y: nat, x: nat): real {
    if r == 0 then 0.0 else PairElement(r - 1, b, a, ib, ia, y, x) + PairTerm(b, a, ib, ia, y, x, r - 1)
  }

  lemma {:induction false} SumElement(f: nat -> real, b: Elements, a: Elements, ib: Index, ia: Index, y: nat, x: nat, n: nat)
    requires forall k: nat :: f(k) == PairTerm(b, a, ib, ia, y, x, k)
    ensures Sum(n, f) == PairElement(n, b, a, ib, ia, y, x)
  {
    if n > 0 {
      SumElement(f, b, a, ib, ia, y, x, n - 1);
    }
  }

  lemma TermOf(l: Lora, idx: Index, ib: Index, ia: Index, y: nat, x: nat, k: nat)
    requires Proper(l) && |idx| == |l.b.shape| && Split3(idx, ib, y, x) && ia == SharedIdx(l.a.shape[..|idx| - 2], ib)
    ensures Term(l, idx, k) == PairTerm(AtOf(l.b), AtOf(l.a), ib, ia, y, x, k)
  {
    BIndexOf(idx, ib, y, x, k);
    AIndexOf(l.a.shape, idx, ib, y, x, k);
  }

  lemma TermsOf(l: Lora, idx: Index, ib: Index, ia: Index, y: nat, x: nat, f: nat -> real)
    requires Proper(l) && |idx| == |l.b.shape| && Split3(idx, ib, y, x) && ia == SharedIdx(l.a.shape[..|idx| - 2], ib)
    requires forall k: nat :: f(k) == Term(l, idx, k)
    ensures forall k: nat :: f(k) == PairTerm(AtOf(l.b), AtOf(l.a), ib, ia, y, x, k)
  {
    forall k: nat ensures f(k) == PairTerm(AtOf(l.b), AtOf(l.a), ib, ia, y, x, k) {
      TermOf(l, idx, ib, ia, y, x, k);
    }
  }

  lemma DenseElement(l: Lora, idx: Index, ib: Index, ia: Index, y: nat, x: nat)
    requires Proper(l) && InBounds(Shape(l), idx) && Split3(idx, ib, y, x) && ia == SharedIdx(l.a.shape[..|idx| - 2], ib)
    ensures At(Dense(l), idx) == PairElement(Rank(l), AtOf(l.b), AtOf(l.a), ib, ia, y, x)
  {
    var f := (k: nat) => Term(l, idx, k);
    DenseAt(l, idx);
    TermsOf(l, idx, ib, ia, y, x, f);
    SumElement(f, AtOf(l.b), AtOf(l.a), ib, ia, y, x, Rank(l));
  }

  /** The elements `e'` are those of `e` that the selections name. */
  ghost predicate Reads(e': Elements, e: Elements, sels: seq<Sel>) {
    forall idx :: InBounds(OutShape(sels), idx) ==> e'(idx) == e(Source(sels, idx))
  }

  lemma IndexReads(t: Tensor, sels: seq<Sel>)
    requires Valid(t)
    ensures Reads(AtOf(IndexTensor(t, sels)), AtOf(t), sels)
  {
    forall idx | InBounds(OutShape(sels), idx) ensures At(IndexTensor(t, sels), idx) == At(t, Source(sels, idx)) {
      IndexTensorAt(t, sels, idx);
    }
  }

  lemma BoundsSnoc(shape: seq<nat>, m: nat, c: nat, ib: Index, y: nat, x: nat)
    requires InBounds(shape, ib) && y < m && x < c
    ensures InBounds(shape + [m] + [c], ib + [y] + [x])
  {
  }

  lemma SharedInBounds(sa: seq<nat>, sb: seq<nat>, ib: Index)
    requires Broadcasts(sa, sb) && InBounds(sb, ib)
    ensures InBounds(sa, SharedIdx(sa, ib))
  {
  }

  // ---------------------------------------------------------------------
  // Indexed pairs

  /** The shapes of a pair and what is selected of its axes. */
  datatype Selection = Selection(
    sa: seq<nat>, sb: seq<nat>, m: nat, r: nat, c: nat,
    batch: seq<Sel>, batchA: seq<Sel>, rows: seq<nat>, cols: seq<nat>)

  function SelsA(s: Selection): seq<Sel> { Sels(s.batchA, Range(0, s.r), s.cols) }

  function SelsB(s: Selection): seq<Sel> { Sels(s.batch, s.rows, Range(0, s.r)) }

  function SelsDense(s: Selection): seq<Sel> { Sels(s.batch, s.rows, s.cols) }

  lemma SelectionShapes(s: Selection)
    ensures OutShape(SelsA(s)) == OutShape(s.batchA) + [s.r] + [|s.cols|]
    ensures OutShape(SelsB(s)) == OutShape(s.batch) + [|s.rows|] + [s.r]
    ensures OutShape(SelsDense(s)) == OutShape(s.batch) + [|s.rows|] + [|s.cols|]
  {
    SelsShape(s.batchA, Range(0, s.r), s.cols);
    SelsShape(s.batch, s.rows, Range(0, s.r));
    SelsShape(s.batch, s.rows, s.cols);
  }

  lemma FactorB(e': Elements, e: Elements, s: Selection, ib: Index, y: nat, k: nat)
    requires Reads(e', e, SelsB(s)) && y < |s.rows| && k < s.r && InBounds(OutShape(s.batch), ib)
    ensures e'(ib + [y] + [k]) == e(Source(s.batch, ib) + [s.rows[y]] + [k])
  {
    SelsShape(s.batch, s.rows, Range(0, s.r));
    BoundsSnoc(OutShape(s.batch), |s.rows|, s.r, ib, y, k);
    SelsSource(s.batch, s.rows, Range(0, s.r), ib, y, k);
  }

  lemma FactorA(e': Elements, e: Elements, s: Selection, ia: Index, k: nat, x: nat)
    requires Reads(e', e, SelsA(s)) && x < |s.cols| && k < s.r && InBounds(OutShape(s.batchA), ia)
    ensures e'(ia + [k] + [x]) == e(Source(s.batchA, ia) + [k] + [s.cols[x]])
  {
    SelsShape(s.batchA, Range(0, s.r), s.cols);
    BoundsSnoc(OutShape(s.batchA), s.r, |s.cols|, ia, k, x);
    SelsSource(s.batchA, Range(0, s.r), s.cols, ia, k, x);
  }

  /** The batch part of an index into the indexed pair, and what it stands for in the pair. */
  predicate Moves(s: Selection, ib: Index, jb: Index, ia: Index, ja: Index) {
    && InBounds(OutShape(s.batch), ib) && InBounds(OutShape(s.batchA), ia)
    && jb == Source(s.batch, ib) && ja == Source(s.batchA, ia)
  }

  lemma BatchMoves(s: Selection, ib: Index)
    requires BatchOk(s.batch, s.batchA, s.sa) && InBounds(OutShape(s.batch), ib)
    ensures |ib| == |OutShape(s.batchA)| && |Source(s.batch, ib)| == |s.sa|
    ensures Moves(s, ib, Source(s.batch, ib), SharedIdx(OutShape(s.batchA), ib), SharedIdx(s.sa, Source(s.batch, ib)))
  {
    BatchShapes(s.batch, s.batchA, s.sa);
    SharedInBounds(OutShape(s.batchA), OutShape(s.batch), ib);
    BatchSource(s.batch, s.batchA, s.sa, ib);
  }

  lemma SameProduct(p: real, q: real, p': real, q': real)
    requires p == p' && q == q'
    ensures p * q == p' * q'
  {
  }

  lemma TermReads(b': Elements, a': Elements, b: Elements, a: Elements, s: Selection,
                  ib: Index, jb: Index, ia: Index, ja: Index, y: nat, x: nat, k: nat)
    requires Reads(b', b, SelsB(s)) && Reads(a', a, SelsA(s)) && Moves(s, ib, jb, ia, ja)
    requires y < |s.rows| && x < |s.cols| && k < s.r
    ensures PairTerm(b', a', ib, ia, y, x, k) == PairTerm(b, a, jb, ja, s.rows[y], s.cols[x], k)
  {
    hide Reads, SelsA, SelsB, Source;
    FactorB(b', b, s, ib, y, k);
    FactorA(a', a, s, ia, k, x);
    SameProduct(b'(ib + [y] + [k]), a'(ia + [k] + [x]), b(jb + [s.rows[y]] + [k]), a(ja + [k] + [s.cols[x]]));
  }

  /** An element of the indexed pair is the element of the pair that the selections name. */
  lemma {:induction false} ElementReads(b': Elements, a': Elements, b: Elements, a: Elements, s: Selection,
                                        ib: Index, jb: Index, ia: Index, ja: Index, y: nat, x: nat, n: nat)
    requires Reads(b', b, SelsB(s)) && Reads(a', a, SelsA(s)) && Moves(s, ib, jb, ia, ja)
    requires y < |s.rows| && x < |s.cols| && n <= s.r
    ensures PairElement(n, b', a', ib, ia, y, x) == PairElement(n, b, a, jb, ja, s.rows[y], s.cols[x])
    decreases n
  {
    hide Reads, Moves, PairTerm;
    if n > 0 {
      ElementReads(b', a', b, a, s, ib, jb, ia, ja, y, x, n - 1);
      TermReads(b', a', b, a, s, ib, jb, ia, ja, y, x, n - 1);
    }
  }

  // ---------------------------------------------------------------------
  // Indexed pairs and the dense tensor

  /** `l'` is the pair `l` with its factors indexed, by shapes and elements. */
  ghost predicate IndexedPair(l: Lora, l': Lora, s: Selection) {
    && Proper(l) && Proper(l') && Rank(l) == s.r == Rank(l')
    && |l.b.shape| == |s.sa| + 2 && l.a.shape[..|s.sa|] == s.sa
    && |l'.b.shape| == |OutShape(s.batchA)| + 2 && l'.a.shape[..|OutShape(s.batchA)|] == OutShape(s.batchA)
    && Reads(AtOf(l'.b), AtOf(l.b), SelsB(s)) && Reads(AtOf(l'.a), AtOf(l.a), SelsA(s))
  }

  lemma IndexedElement(l: Lora, l': Lora, s: Selection, idx: Index, ib: Index, y: nat, x: nat, j: Index)
    requires IndexedPair(l, l', s) && BatchOk(s.batch, s.batchA, s.sa)
    requires Split3(idx, ib, y, x) && InBounds(OutShape(s.batch), ib) && y < |s.rows| && x < |s.cols|
    requires InBounds(Shape(l'), idx) && j == Source(s.batch, ib) + [s.rows[y]] + [s.cols[x]] && InBounds(Shape(l), j)
    ensures At(Dense(l'), idx) == At(Dense(l), j)
  {
    BatchMoves(s, ib);
    var jb := Source(s.batch, ib);
    var ia, ja := SharedIdx(OutShape(s.batchA), ib), SharedIdx(s.sa, jb);
    DenseElement(l', idx, ib, ia, y, x);
    DenseElement(l, j, jb, ja, s.rows[y], s.cols[x]);
    ElementReads(AtOf(l'.b), AtOf(l'.a), AtOf(l.b), AtOf(l.a), s, ib, jb, ia, ja, y, x, s.r);
  }

  lemma SplitBounds(shape: seq<nat>, m: nat, c: nat, idx: Index, ib: Index, y: nat, x: nat)
    requires InBounds(shape + [m] + [c], idx) && ib == idx[..|shape|] && y == idx[|shape|] && x == idx[|shape| + 1]
    ensures Split3(idx, ib, y, x) && InBounds(shape, ib) && y < m && x < c
  {
    var all := shape + [m] + [c];
    assert idx[|shape|] < all[|shape|] && idx[|shape| + 1] < all[|shape| + 1];
    forall i | 0 <= i < |shape| ensures ib[i] < shape[i] {
      assert idx[i] < all[i];
    }
  }

  lemma DenseReads(l: Lora, l': Lora, s: Selection, idx: Index)
    requires IndexedPair(l, l', s) && BatchOk(s.batch, s.batchA, s.sa)
    requires Selects(SelsDense(s), Shape(l)) && Shape(l') == OutShape(SelsDense(s)) && InBounds(Shape(l'), idx)
    ensures At(Dense(l'), idx) == At(Dense(l), Source(SelsDense(s), idx))
  {
    var sb := OutShape(s.batch);
    SelsShape(s.batch, s.rows, s.cols);
    var ib, y, x := idx[..|sb|], idx[|sb|], idx[|sb| + 1];
    SplitBounds(sb, |s.rows|, |s.cols|, idx, ib, y, x);
    SelsSource(s.batch, s.rows, s.cols, ib, y, x);
    SourceInBounds(SelsDense(s), Shape(l), idx);
    IndexedElement(l, l', s, idx, ib, y, x, Source(SelsDense(s), idx));
  }

  lemma IndexIs(t: Tensor, t': Tensor, sels: seq<Sel>)
    requires Valid(t) && Valid(t') && t'.shape == OutShape(sels)
    requires forall idx :: InBounds(t'.shape, idx) ==> At(t', idx) == At(t, Source(sels, idx))
    ensures t' == IndexTensor(t, sels)
  {
    forall idx | InBounds(t'.shape, idx) ensures At(t', idx) == At(IndexTensor(t, sels), idx) {
      IndexTensorAt(t, sels, idx);
    }
    SameElements(t', IndexTensor(t, sels));
  }

  /** Indexing the factors, where A's selections fit B's, is indexing the dense tensor. */
  lemma IndexedCommutes(l: Lora, l': Lora, s: Selection)
    requires IndexedPair(l, l', s) && BatchOk(s.batch, s.batchA, s.sa)
    requires Selects(SelsDense(s), Shape(l)) && Shape(l') == OutShape(SelsDense(s))
    ensures Dense(l') == IndexTensor(Dense(l), SelsDense(s))
  {
    forall idx | InBounds(Shape(l'), idx) ensures At(Dense(l'), idx) == At(Dense(l), Source(SelsDense(s), idx)) {
      DenseReads(l, l', s, idx);
    }
    IndexIs(Dense(l), Dense(l'), SelsDense(s));
  }
}
