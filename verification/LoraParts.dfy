/** Slicing, splitting, concatenating and stacking low-rank tensors. A slice of an axis is the
    list of the positions it keeps. */
module LoraParts {
  import opened Basics
  import opened Tensors
  import opened Lora
  import opened LoraShapes

  // ---------------------------------------------------------------------
  // Selecting positions of one axis

  predicate Selectable(l: Lora, axis: nat, pos: seq<nat>) {
    Proper(l) && axis < |l.b.shape| && PositionsOf(pos, Shape(l)[axis])
  }

  lemma ColumnsProper(l: Lora, a: Tensor, m: nat)
    requires Proper(l) && Valid(a) && a.shape == l.a.shape[|l.a.shape| - 1 := m]
    ensures var r := Lora(a, l.b);
            Proper(r) && Rank(r) == Rank(l) && Shape(r) == Shape(l)[|l.b.shape| - 1 := m] && (SharedA(l) ==> SharedA(r))
  {
  }

  lemma RowsProper(l: Lora, b: Tensor, axis: nat, m: nat)
    requires Proper(l) && Valid(b) && axis < |l.b.shape| - 1 && b.shape == l.b.shape[axis := m]
    requires axis == |l.b.shape| - 2 || l.a.shape[axis] == 1
    ensures var r := Lora(l.a, b);
            Proper(r) && Rank(r) == Rank(l) && Shape(r) == Shape(l)[axis := m] && (SharedA(l) ==> SharedA(r))
  {
  }

  lemma BatchProper(l: Lora, a: Tensor, b: Tensor, axis: nat, m: nat)
    requires Proper(l) && Valid(a) && Valid(b) && axis < |l.b.shape| - 2
    requires a.shape == l.a.shape[axis := m] && b.shape == l.b.shape[axis := m]
    ensures var r := Lora(a, b);
            Proper(r) && Rank(r) == Rank(l) && Shape(r) == Shape(l)[axis := m]
  {
  }

  /** Columns come from A. */
  function SelectColumns(l: Lora, axis: nat, pos: seq<nat>): (r: Lora)
    requires Selectable(l, axis, pos) && axis == |l.b.shape| - 1
    ensures Proper(r) && Rank(r) == Rank(l) && Shape(r) == Shape(l)[axis := |pos|]
    ensures SharedA(l) ==> SharedA(r)
  {
    var a := Select(l.a, axis, pos);
    ColumnsProper(l, a, |pos|);
    Lora(a, l.b)
  }

  /** Rows, and batch entries where A is shared, come from B. */
  function SelectRows(l: Lora, axis: nat, pos: seq<nat>): (r: Lora)
    requires Selectable(l, axis, pos) && axis < |l.b.shape| - 1
    requires axis == |l.b.shape| - 2 || l.a.shape[axis] == 1
    ensures Proper(r) && Rank(r) == Rank(l) && Shape(r) == Shape(l)[axis := |pos|]
    ensures SharedA(l) ==> SharedA(r)
  {
    var b := Select(l.b, axis, pos);
    RowsProper(l, b, axis, |pos|);
    Lora(l.a, b)
  }

  /** Other batch entries come from both. */
  function SelectBatch(l: Lora, axis: nat, pos: seq<nat>): (r: Lora)
    requires Selectable(l, axis, pos) && axis < |l.b.shape| - 2 && l.a.shape[axis] != 1
    ensures Proper(r) && Rank(r) == Rank(l) && Shape(r) == Shape(l)[axis := |pos|]
  {
    var a, b := Select(l.a, axis, pos), Select(l.b, axis, pos);
    BatchProper(l, a, b, axis, |pos|);
    Lora(a, b)
  }

  function SelectLora(l: Lora, axis: nat, pos: seq<nat>): (r: Lora)
    requires Selectable(l, axis, pos)
    ensures Proper(r) && Rank(r) == Rank(l) && Shape(r) == Shape(l)[axis := |pos|]
    ensures SharedA(l) ==> SharedA(r)
  {
    if axis == |l.b.shape| - 1 then SelectColumns(l, axis, pos)
    else if axis == |l.b.shape| - 2 || l.a.shape[axis] == 1 then SelectRows(l, axis, pos)
    else SelectBatch(l, axis, pos)
  }

  // Index arithmetic

  lemma AInBounds(l: Lora, idx: Index, k: nat)
    requires Proper(l) && InBounds(Shape(l), idx) && k < Rank(l)
    ensures InBounds(l.a.shape, AIndex(l.a.shape, idx, k))
  {
    var n := |idx|;
    var ia := AIndex(l.a.shape, idx, k);
    forall i | 0 <= i < n ensures ia[i] < l.a.shape[i] {
      assert idx[i] < Shape(l)[i];
    }
  }

  lemma BInBounds(l: Lora, idx: Index, k: nat)
    requires Proper(l) && InBounds(Shape(l), idx) && k < Rank(l)
    ensures InBounds(l.b.shape, BIndex(idx, k))
  {
    var n := |idx| - 1;
    forall i | 0 <= i < n ensures idx[i] < l.b.shape[i] {
      assert idx[i] < Shape(l)[i];
    }
  }

  lemma AIndexColumn(sa: seq<nat>, m: nat, idx: Index, x: nat, k: nat)
    requires |idx| == |sa| >= 2
    ensures var n := |idx| - 1;
            AIndex(sa[n := m], idx, k)[n := x] == AIndex(sa, idx[n := x], k) && AIndex(sa[n := m], idx, k)[n] == idx[n]
  {
  }

  lemma AIndexShared(sa: seq<nat>, axis: nat, idx: Index, x: nat, k: nat)
    requires |idx| == |sa| >= 2 && axis < |idx| - 1
    requires axis == |idx| - 2 || sa[axis] == 1
    ensures AIndex(sa, idx, k) == AIndex(sa, idx[axis := x], k)
  {
  }

  lemma AIndexBatch(sa: seq<nat>, m: nat, axis: nat, idx: Index, x: nat, k: nat)
    requires |idx| == |sa| >= 2 && axis < |idx| - 2 && sa[axis] != 1 && idx[axis] < m
    ensures AIndex(sa[axis := m], idx, k)[axis] == idx[axis]
    ensures AIndex(sa[axis := m], idx, k)[axis := x] == AIndex(sa, idx[axis := x], k)
  {
    var u, v := AIndex(sa[axis := m], idx, k)[axis := x], AIndex(sa, idx[axis := x], k);
    assert |u| == |v|;
    forall i | 0 <= i < |u| ensures u[i] == v[i] {
    }
  }

  lemma BIndexSelected(axis: nat, idx: Index, x: nat, k: nat)
    requires axis < |idx|
    ensures axis < |idx| - 1 ==> BIndex(idx, k)[axis := x] == BIndex(idx[axis := x], k)
    ensures axis == |idx| - 1 ==> BIndex(idx, k) == BIndex(idx[axis := x], k)
  {
  }

  /** Equal factors make equal terms. */
  lemma TermFrom(l: Lora, idx: Index, r: Lora, j: Index, k: nat)
    requires Proper(l) && Proper(r) && |idx| == |l.b.shape| && |j| == |r.b.shape|
    requires At(l.b, BIndex(idx, k)) == At(r.b, BIndex(j, k))
    requires At(l.a, AIndex(l.a.shape, idx, k)) == At(r.a, AIndex(r.a.shape, j, k))
    ensures Term(l, idx, k) == Term(r, j, k)
  {
    hide At;
  }

  // Terms

  lemma ColumnPart(l: Lora, axis: nat, pos: seq<nat>, idx: Index, k: nat, ia: Index)
    requires Selectable(l, axis, pos) && axis == |l.b.shape| - 1
    requires |idx| == |l.b.shape| && idx[axis] < |pos|
    requires ia == AIndex(l.a.shape[axis := |pos|], idx, k) && InBounds(l.a.shape[axis := |pos|], ia)
    ensures At(Select(l.a, axis, pos), ia) == At(l.a, AIndex(l.a.shape, idx[axis := pos[idx[axis]]], k))
  {
    AIndexColumn(l.a.shape, |pos|, idx, pos[idx[axis]], k);
    SelectAt(l.a, axis, pos, ia);
  }

  lemma ColumnTerm(l: Lora, axis: nat, pos: seq<nat>, idx: Index, k: nat)
    requires Selectable(l, axis, pos) && axis == |l.b.shape| - 1 && k < Rank(l)
    requires InBounds(Shape(l)[axis := |pos|], idx) && idx[axis] < |pos|
    ensures Term(SelectColumns(l, axis, pos), idx, k) == Term(l, idx[axis := pos[idx[axis]]], k)
  {
    var r := SelectColumns(l, axis, pos);
    AInBounds(r, idx, k);
    ColumnPart(l, axis, pos, idx, k, AIndex(r.a.shape, idx, k));
    BIndexSelected(axis, idx, pos[idx[axis]], k);
    TermFrom(r, idx, l, idx[axis := pos[idx[axis]]], k);
  }

  lemma SelectedRow(b: Tensor, axis: nat, pos: seq<nat>, idx: Index, k: nat)
    requires Valid(b) && |idx| == |b.shape| && axis < |idx| - 1 && PositionsOf(pos, b.shape[axis])
    requires idx[axis] < |pos| && InBounds(b.shape[axis := |pos|], BIndex(idx, k))
    ensures At(Select(b, axis, pos), BIndex(idx, k)) == At(b, BIndex(idx[axis := pos[idx[axis]]], k))
  {
    SelectAt(b, axis, pos, BIndex(idx, k));
    BIndexSelected(axis, idx, pos[idx[axis]], k);
  }

  lemma RowTerm(l: Lora, axis: nat, pos: seq<nat>, idx: Index, k: nat)
    requires Selectable(l, axis, pos) && axis < |l.b.shape| - 1 && k < Rank(l)
    requires axis == |l.b.shape| - 2 || l.a.shape[axis] == 1
    requires InBounds(Shape(l)[axis := |pos|], idx) && idx[axis] < |pos|
    ensures Term(SelectRows(l, axis, pos), idx, k) == Term(l, idx[axis := pos[idx[axis]]], k)
  {
    var x, r := pos[idx[axis]], SelectRows(l, axis, pos);
    BInBounds(r, idx, k);
    SelectedRow(l.b, axis, pos, idx, k);
    AIndexShared(l.a.shape, axis, idx, x, k);
    TermFrom(r, idx, l, idx[axis := x], k);
  }

  lemma BatchTerm(l: Lora, axis: nat, pos: seq<nat>, idx: Index, k: nat)
    requires Selectable(l, axis, pos) && axis < |l.b.shape| - 2 && l.a.shape[axis] != 1 && k < Rank(l)
    requires InBounds(Shape(l)[axis := |pos|], idx) && idx[axis] < |pos|
    ensures Term(SelectBatch(l, axis, pos), idx, k) == Term(l, idx[axis := pos[idx[axis]]], k)
  {
    hide At;
    var x, r := pos[idx[axis]], SelectBatch(l, axis, pos);
    BInBounds(r, idx, k);
    SelectedRow(l.b, axis, pos, idx, k);
    AInBounds(r, idx, k);
    SelectAt(l.a, axis, pos, AIndex(r.a.shape, idx, k));
    AIndexBatch(l.a.shape, |pos|, axis, idx, x, k);
    TermFrom(r, idx, l, idx[axis := x], k);
  }

  lemma SelectTerm(l: Lora, axis: nat, pos: seq<nat>, idx: Index, k: nat)
    requires Selectable(l, axis, pos) && k < Rank(l)
    requires InBounds(Shape(l)[axis := |pos|], idx) && idx[axis] < |pos|
    ensures Term(SelectLora(l, axis, pos), idx, k) == Term(l, idx[axis := pos[idx[axis]]], k)
  {
    if axis == |l.b.shape| - 1 {
      ColumnTerm(l, axis, pos, idx, k);
    } else if axis == |l.b.shape| - 2 || l.a.shape[axis] == 1 {
      RowTerm(l, axis, pos, idx, k);
    } else {
      BatchTerm(l, axis, pos, idx, k);
    }
  }

  lemma SelectElement(l: Lora, axis: nat, pos: seq<nat>, idx: Index)
    requires Selectable(l, axis, pos) && InBounds(Shape(l)[axis := |pos|], idx)
    ensures At(Dense(SelectLora(l, axis, pos)), idx) == At(Select(Dense(l), axis, pos), idx)
  {
    hide At, Dense, Select, Term, SelectLora;
    SelectAt(Dense(l), axis, pos, idx);
    var j := idx[axis := pos[idx[axis]]];
    forall k: nat | k < Rank(l) ensures Term(SelectLora(l, axis, pos), idx, k) == Term(l, j, k) {
      SelectTerm(l, axis, pos, idx, k);
    }
    ElementMoves(SelectLora(l, axis, pos), idx, l, j);
  }

  /** Selecting from the pair is selecting from the dense tensor, along any axis. */
  lemma SelectCommutes(l: Lora, axis: nat, pos: seq<nat>)
    requires Selectable(l, axis, pos)
    ensures Dense(SelectLora(l, axis, pos)) == Select(Dense(l), axis, pos)
  {
    forall idx | InBounds(Shape(l)[axis := |pos|], idx)
      ensures At(Dense(SelectLora(l, axis, pos)), idx) == At(Select(Dense(l), axis, pos), idx)
    {
      SelectElement(l, axis, pos, idx);
    }
    SameElements(Dense(SelectLora(l, axis, pos)), Select(Dense(l), axis, pos));
  }

  // ---------------------------------------------------------------------
  // Splitting

  function Range(lo: nat, hi: nat): (r: seq<nat>)
    requires lo <= hi
    ensures |r| == hi - lo && forall i :: 0 <= i < |r| ==> r[i] == lo + i
  {
    seq(hi - lo, i requires 0 <= i < hi - lo => lo + i)
  }

  /** Either one size for every part (the last may be smaller), or a list of sizes. */
  datatype SplitSize = Every(size: nat) | Sizes(sizes: seq<nat>)

  /** Cut points for parts of one size, from `lo` on. */
  function EveryCuts(lo: nat, total: nat, size: nat): (cuts: seq<nat>)
    requires size > 0 && lo <= total
    ensures cuts != [] && cuts[0] == lo && cuts[|cuts| - 1] == total
    ensures forall i :: 0 <= i < |cuts| - 1 ==> cuts[i] <= cuts[i + 1]
    decreases total - lo
  {
    if lo == total then [lo] else [lo] + EveryCuts(lo + Min(size, total - lo), total, size)
  }

  function SizeCuts(lo: nat, sizes: seq<nat>): (cuts: seq<nat>)
    ensures |cuts| == |sizes| + 1 && cuts[0] == lo
    ensures forall i :: 0 <= i < |cuts| - 1 ==> cuts[i] <= cuts[i + 1]
    decreases |sizes|
  {
    if sizes == [] then [lo] else [lo] + SizeCuts(lo + sizes[0], sizes[1..])
  }

  /** The cut points of a split, from 0 to the length of the axis. */
  function Cuts(total: nat, split: SplitSize): (r: Option<seq<nat>>)
    ensures r.Some? ==> CutsOf(r.value, total)
  {
    match split
    case Every(size) =>
      if total == 0 then Some([0, 0])
      else if size == 0 then None else Some(EveryCuts(0, total, size))
    case Sizes(sizes) =>
      var cuts := SizeCuts(0, sizes);
      if cuts[|cuts| - 1] == total then Some(cuts) else None
  }

  predicate CutsOf(cuts: seq<nat>, total: nat) {
    && cuts != [] && cuts[0] == 0 && cuts[|cuts| - 1] == total
    && forall i :: 0 <= i < |cuts| - 1 ==> cuts[i] <= cuts[i + 1]
  }

  lemma {:induction false} CutBelow(cuts: seq<nat>, total: nat, i: nat)
    requires CutsOf(cuts, total) && i < |cuts|
    ensures cuts[i] <= total
    decreases |cuts| - i
  {
    if i + 1 < |cuts| {
      CutBelow(cuts, total, i + 1);
    }
  }

  function Part(l: Lora, axis: nat, cuts: seq<nat>, i: nat): (r: Lora)
    requires Proper(l) && axis < |l.b.shape| && CutsOf(cuts, Shape(l)[axis]) && i + 1 < |cuts|
    ensures Proper(r)
  {
    CutBelow(cuts, Shape(l)[axis], i + 1);
    SelectLora(l, axis, Range(cuts[i], cuts[i + 1]))
  }

  function PartsAt(l: Lora, axis: nat, cuts: seq<nat>): (r: seq<Lora>)
    requires Proper(l) && axis < |l.b.shape| && CutsOf(cuts, Shape(l)[axis])
    ensures |r| == |cuts| - 1
  {
    seq(|cuts| - 1, i requires 0 <= i < |cuts| - 1 => Part(l, axis, cuts, i))
  }

  function BlocksAt(t: Tensor, axis: nat, cuts: seq<nat>): (r: seq<Tensor>)
    requires Valid(t) && axis < |t.shape| && CutsOf(cuts, t.shape[axis])
    ensures |r| == |cuts| - 1
  {
    seq(|cuts| - 1, i requires 0 <= i < |cuts| - 1 => Block(t, axis, cuts, i))
  }

  function Block(t: Tensor, axis: nat, cuts: seq<nat>, i: nat): Tensor
    requires Valid(t) && axis < |t.shape| && CutsOf(cuts, t.shape[axis]) && i + 1 < |cuts|
  {
    CutBelow(cuts, t.shape[axis], i + 1);
    Select(t, axis, Range(cuts[i], cuts[i + 1]))
  }

  lemma PartIsBlock(l: Lora, axis: nat, cuts: seq<nat>, i: nat, d: Tensor, p: Lora)
    requires Proper(l) && axis < |l.b.shape| && CutsOf(cuts, Shape(l)[axis]) && i + 1 < |cuts|
    requires d == Dense(l) && p == Part(l, axis, cuts, i)
    ensures Dense(p) == Block(d, axis, cuts, i)
  {
    CutBelow(cuts, Shape(l)[axis], i + 1);
    SelectCommutes(l, axis, Range(cuts[i], cuts[i + 1]));
  }

  /** The dense tensors of pairs. */
  predicate DenseOf(ts: seq<Tensor>, ls: seq<Lora>) {
    |ts| == |ls| && forall i :: 0 <= i < |ls| ==> Proper(ls[i]) && ts[i] == Dense(ls[i])
  }

  lemma PartsAreBlocks(l: Lora, axis: nat, cuts: seq<nat>, d: Tensor, ls: seq<Lora>)
    requires Proper(l) && axis < |l.b.shape| && CutsOf(cuts, Shape(l)[axis])
    requires d == Dense(l) && ls == PartsAt(l, axis, cuts)
    ensures DenseOf(BlocksAt(d, axis, cuts), ls)
  {
    forall i | 0 <= i < |cuts| - 1 ensures Proper(ls[i]) && BlocksAt(d, axis, cuts)[i] == Dense(ls[i]) {
      PartIsBlock(l, axis, cuts, i, d, ls[i]);
    }
  }
}
