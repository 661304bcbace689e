/** Permuting and transposing low-rank tensors commutes with their dense meaning. */
module LoraShapes {
  import opened Basics
  import opened Tensors
  import opened Lora

  // ---------------------------------------------------------------------
  // Permute

  /** The pair writes axes as negative numbers. */
  function Negative(n: nat, d: int): int {
    if d >= 0 then d - n else d
  }

  function Negatives(n: nat, dims: seq<int>): (r: seq<int>)
    ensures |r| == |dims| && forall i :: 0 <= i < |dims| ==> r[i] == Negative(n, dims[i])
  {
    seq(|dims|, i requires 0 <= i < |dims| => Negative(n, dims[i]))
  }

  /** Numbers of axes as tensors take them, from either end. */
  predicate InRange(n: nat, dims: seq<int>) {
    forall i :: 0 <= i < |dims| ==> 0 <= dims[i] + n < 2 * n
  }

  function Axis(n: nat, d: int): int {
    if d < 0 then d + n else d
  }

  function Axes(n: nat, dims: seq<int>): (r: Option<seq<nat>>)
    ensures r.Some? ==> |r.value| == n && IsPermutation(r.value)
  {
    if |dims| != n || !InRange(n, dims) then None
    else
      var axes: seq<nat> := seq(n, i requires 0 <= i < n => Axis(n, dims[i]));
      if IsPermutation(axes) then Some(axes) else None
  }

  function PermuteDense(t: Tensor, dims: seq<int>): Option<Tensor>
    requires Valid(t)
  {
    match Axes(|t.shape|, dims)
    case None => None
    case Some(axes) => Some(Permute(t, axes, Inv(axes)))
  }

  function PermuteLora(l: Lora, dims: seq<int>): Option<Lora>
    requires Proper(l)
  {
    var n := |l.b.shape|;
    var ds := Negatives(n, dims);
    if ds == [] then None
    else if ds[|ds| - 1] == -1 then
      if !SharedA(l) then None
      else match PermuteDense(l.b, ds)
        case None => None
        case Some(b) => Some(Lora(l.a, b))
    else if n == 2 && |ds| >= 2 && ds[|ds| - 1] == -2 && ds[|ds| - 2] == -1 then
      match (PermuteDense(l.b, ds), PermuteDense(l.a, ds))
      case (Some(b), Some(a)) => Some(Lora(b, a))
      case _ => None
    else None
  }

  /** The last axis stays where it is. */
  predicate KeepsLast(axes: seq<nat>, inv: seq<nat>) {
    Inverse(axes, inv) && axes != [] && axes[|axes| - 1] == |axes| - 1
  }

  lemma OthersBefore(axes: seq<nat>, inv: seq<nat>)
    requires KeepsLast(axes, inv)
    ensures inv[|axes| - 1] == |axes| - 1
    ensures forall i :: 0 <= i < |axes| - 1 ==> axes[i] < |axes| - 1 && inv[i] < |axes| - 1
  {
    var n := |axes| - 1;
    assert inv[axes[n]] == n;
    forall i | 0 <= i < n ensures axes[i] < n && inv[i] < n {
      assert inv[axes[i]] == i && axes[inv[i]] == i;
    }
  }

  /** Replacing the last entry before or after the axes are permuted. */
  lemma GatherRow(idx: Index, axes: seq<nat>, inv: seq<nat>, k: nat)
    requires KeepsLast(axes, inv) && |idx| == |axes|
    ensures Gather(BIndex(idx, k), inv) == BIndex(Gather(idx, inv), k)
    ensures Gather(BIndex(idx, k), axes) == BIndex(Gather(idx, axes), k)
    ensures Gather(idx, inv)[|idx| - 1] == idx[|idx| - 1]
    ensures Gather(idx, axes)[|idx| - 1] == idx[|idx| - 1]
  {
    OthersBefore(axes, inv);
  }

  lemma KeptLastProper(l: Lora, r: Lora, axes: seq<nat>, inv: seq<nat>)
    requires Proper(l) && SharedA(l) && |axes| == |l.b.shape| && KeepsLast(axes, inv)
    requires r.a == l.a && Valid(r.b) && r.b.shape == Gather(l.b.shape, axes)
    ensures Proper(r) && SharedA(r) && Rank(r) == Rank(l)
  {
    GatherRow(l.b.shape, axes, inv, 0);
  }

  lemma KeptLastShape(l: Lora, r: Lora, axes: seq<nat>, inv: seq<nat>)
    requires Proper(l) && |axes| == |l.b.shape| && KeepsLast(axes, inv)
    requires Proper(r) && r.a == l.a && r.b.shape == Gather(l.b.shape, axes)
    ensures Shape(r) == Gather(Shape(l), axes)
  {
    GatherRow(l.b.shape, axes, inv, Columns(l));
  }

  function KeptLast(l: Lora, axes: seq<nat>, inv: seq<nat>): (r: Lora)
    requires Proper(l) && SharedA(l) && |axes| == |l.b.shape| && KeepsLast(axes, inv)
    ensures Proper(r) && SharedA(r) && Rank(r) == Rank(l)
    ensures Shape(r) == Gather(Shape(l), axes)
  {
    var r := Lora(l.a, Permute(l.b, axes, inv));
    KeptLastProper(l, r, axes, inv);
    KeptLastShape(l, r, axes, inv);
    r
  }

  lemma KeptLastTerm(l: Lora, axes: seq<nat>, inv: seq<nat>, idx: Index, k: nat, r: Lora, j: Index)
    requires Proper(l) && SharedA(l) && |axes| == |l.b.shape| && KeepsLast(axes, inv) && r == KeptLast(l, axes, inv)
    requires InBounds(Gather(Shape(l), axes), idx) && k < Rank(l) && j == Gather(idx, inv)
    ensures Term(r, idx, k) == Term(l, j, k)
  {
    hide At, Permute, Term, BIndex, Build, Prod, Flat, AIndex;
    KeptLastRow(l, axes, inv, idx, k);
    GatherRow(idx, axes, inv, k);
    SameTerm(l, r, idx, j, k);
  }

  lemma SameTerm(l: Lora, r: Lora, idx: Index, j: Index, k: nat)
    requires Proper(l) && Proper(r) && SharedA(l) && r.a == l.a
    requires |idx| == |j| == |l.b.shape| == |r.b.shape| && idx[|idx| - 1] == j[|j| - 1]
    requires At(r.b, BIndex(idx, k)) == At(l.b, BIndex(j, k))
    ensures Term(r, idx, k) == Term(l, j, k)
  {
    hide At;
    SharedIndex(l, idx, j, k);
  }

  lemma KeptLastRow(l: Lora, axes: seq<nat>, inv: seq<nat>, idx: Index, k: nat)
    requires Proper(l) && |axes| == |l.b.shape| && KeepsLast(axes, inv)
    requires InBounds(Gather(Shape(l), axes), idx) && k < Rank(l)
    ensures At(Permute(l.b, axes, inv), BIndex(idx, k)) == At(l.b, BIndex(Gather(idx, inv), k))
  {
    RowInBounds(l, axes, inv, idx, k);
    PermuteAt(l.b, axes, inv, BIndex(idx, k));
    GatherRow(idx, axes, inv, k);
  }

  lemma RowInBounds(l: Lora, axes: seq<nat>, inv: seq<nat>, idx: Index, k: nat)
    requires Proper(l) && |axes| == |l.b.shape| && KeepsLast(axes, inv)
    requires InBounds(Gather(Shape(l), axes), idx) && k < Rank(l)
    ensures InBounds(Gather(l.b.shape, axes), BIndex(idx, k))
  {
    var n := |idx| - 1;
    OthersBefore(axes, inv);
    forall i | 0 <= i < n ensures idx[i] < l.b.shape[axes[i]] {
      assert idx[i] < Gather(Shape(l), axes)[i];
    }
  }

  /** With a shared A only the last entry of an index matters to A. */
  lemma SharedIndex(l: Lora, idx: Index, j: Index, k: nat)
    requires Proper(l) && SharedA(l) && |idx| == |j| == |l.b.shape| && idx[|idx| - 1] == j[|j| - 1]
    ensures AIndex(l.a.shape, idx, k) == AIndex(l.a.shape, j, k)
  {
  }

  /** Equal terms make equal elements. */
  lemma ElementMoves(l: Lora, idx: Index, l': Lora, idx': Index)
    requires Proper(l) && Proper(l') && Rank(l) == Rank(l')
    requires InBounds(Shape(l), idx) && InBounds(Shape(l'), idx')
    requires forall k: nat :: k < Rank(l) ==> Term(l, idx, k) == Term(l', idx', k)
    ensures At(Dense(l), idx) == At(Dense(l'), idx')
  {
    DenseAt(l, idx);
    DenseAt(l', idx');
    SameSum(Rank(l), (k: nat) => Term(l, idx, k), (k: nat) => Term(l', idx', k));
  }

  lemma KeptLastMoves(l: Lora, axes: seq<nat>, inv: seq<nat>, idx: Index, j: Index, r: Lora)
    requires Proper(l) && SharedA(l) && |axes| == |l.b.shape| && KeepsLast(axes, inv) && r == KeptLast(l, axes, inv)
    requires InBounds(Gather(Shape(l), axes), idx) && j == Gather(idx, inv) && InBounds(Shape(l), j)
    ensures At(Dense(r), idx) == At(Dense(l), j)
  {
    hide At;
    forall k: nat | k < Rank(l) ensures Term(r, idx, k) == Term(l, j, k) {
      KeptLastTerm(l, axes, inv, idx, k, r, j);
    }
    ElementMoves(r, idx, l, j);
  }

  lemma KeptLastElement(l: Lora, axes: seq<nat>, inv: seq<nat>, idx: Index, r: Lora, d: Tensor)
    requires Proper(l) && SharedA(l) && |axes| == |l.b.shape| && KeepsLast(axes, inv) && r == KeptLast(l, axes, inv)
    requires InBounds(Gather(Shape(l), axes), idx) && d == Permute(Dense(l), axes, inv)
    ensures At(Dense(r), idx) == At(d, idx)
  {
    hide At, Permute, Dense, Build;
    PermuteAt(Dense(l), axes, inv, idx);
    KeptLastMoves(l, axes, inv, idx, Gather(idx, inv), r);
  }

  lemma KeptLastCommutes(l: Lora, axes: seq<nat>, inv: seq<nat>)
    requires Proper(l) && SharedA(l) && |axes| == |l.b.shape| && KeepsLast(axes, inv)
    ensures Dense(KeptLast(l, axes, inv)) == Permute(Dense(l), axes, inv)
  {
    hide At;
    var r, d := KeptLast(l, axes, inv), Permute(Dense(l), axes, inv);
    forall idx | InBounds(Gather(Shape(l), axes), idx) ensures At(Dense(r), idx) == At(d, idx) {
      KeptLastElement(l, axes, inv, idx, r, d);
    }
    SameElements(Dense(r), d);
  }

  // The transposed pair of a matrix

  const SWAP: seq<nat> := [1, 0]

  lemma SwapIsInverse()
    ensures Inverse(SWAP, SWAP)
  {
  }

  lemma SwapGather(s: seq<nat>)
    requires |s| == 2
    ensures Gather(s, SWAP) == [s[1], s[0]]
  {
  }

  lemma SwapAt(t: Tensor, i: nat, j: nat)
    requires Valid(t) && |t.shape| == 2 && Inverse(SWAP, SWAP)
    requires i < t.shape[1] && j < t.shape[0]
    ensures At(Permute(t, SWAP, SWAP), [i, j]) == At(t, [j, i])
  {
    SwapGather(t.shape);
    PermuteAt(t, SWAP, SWAP, [i, j]);
    SwapGather([i, j]);
  }

  predicate Matrix(l: Lora) {
    Proper(l) && |l.b.shape| == 2
  }

  function Swapped(l: Lora): (r: Lora)
    requires Matrix(l)
    ensures Matrix(r) && Rank(r) == Rank(l)
    ensures Shape(r) == [Columns(l), l.b.shape[0]]
  {
    SwapIsInverse();
    SwapGather(l.a.shape);
    SwapGather(l.b.shape);
    Lora(Permute(l.b, SWAP, SWAP), Permute(l.a, SWAP, SWAP))
  }

  lemma MatrixTerm(l: Lora, i: nat, j: nat, k: nat, x: real, y: real)
    requires Matrix(l) && x == At(l.b, [i, k]) && y == At(l.a, [k, j])
    ensures Term(l, [i, j], k) == x * y
  {
    hide At;
    assert BIndex([i, j], k) == [i, k];
    assert AIndex(l.a.shape, [i, j], k) == [k, j];
  }

  lemma SwappedB(l: Lora, i: nat, k: nat)
    requires Matrix(l) && i < Columns(l) && k < Rank(l)
    ensures At(Swapped(l).b, [i, k]) == At(l.a, [k, i])
  {
    SwapIsInverse();
    SwapAt(l.a, i, k);
  }

  lemma SwappedA(l: Lora, k: nat, j: nat)
    requires Matrix(l) && j < l.b.shape[0] && k < Rank(l)
    ensures At(Swapped(l).a, [k, j]) == At(l.b, [j, k])
  {
    SwapIsInverse();
    SwapAt(l.b, k, j);
  }

  lemma SwappedTerm(l: Lora, i: nat, j: nat, k: nat)
    requires Matrix(l) && i < Columns(l) && j < l.b.shape[0] && k < Rank(l)
    ensures Term(Swapped(l), [i, j], k) == Term(l, [j, i], k)
  {
    SwappedB(l, i, k);
    SwappedA(l, k, j);
    SwappedTermFrom(l, Swapped(l), i, j, k);
  }

  lemma SwappedTermFrom(l: Lora, r: Lora, i: nat, j: nat, k: nat)
    requires Matrix(l) && Matrix(r)
    requires At(r.b, [i, k]) == At(l.a, [k, i]) && At(r.a, [k, j]) == At(l.b, [j, k])
    ensures Term(r, [i, j], k) == Term(l, [j, i], k)
  {
    hide At;
    var x, y := At(l.b, [j, k]), At(l.a, [k, i]);
    MatrixTerm(r, i, j, k, y, x);
    MatrixTerm(l, j, i, k, x, y);
    Commutes(x, y);
  }

  lemma Commutes(x: real, y: real)
    ensures x * y == y * x
  {
  }

  lemma SwappedElement(l: Lora, i: nat, j: nat, r: Lora)
    requires Matrix(l) && r == Swapped(l) && i < Columns(l) && j < l.b.shape[0]
    ensures At(Dense(r), [i, j]) == At(Dense(l), [j, i])
  {
    forall k: nat | k < Rank(l) ensures Term(r, [i, j], k) == Term(l, [j, i], k) {
      SwappedTerm(l, i, j, k);
    }
    MatrixElement(l, r, i, j);
  }

  lemma MatrixElement(l: Lora, r: Lora, i: nat, j: nat)
    requires Matrix(l) && Matrix(r) && Rank(r) == Rank(l) && Shape(r) == [Columns(l), l.b.shape[0]]
    requires i < Columns(l) && j < l.b.shape[0]
    requires forall k: nat :: k < Rank(l) ==> Term(r, [i, j], k) == Term(l, [j, i], k)
    ensures At(Dense(r), [i, j]) == At(Dense(l), [j, i])
  {
    ElementMoves(r, [i, j], l, [j, i]);
  }

  lemma SwapElement(l: Lora, i: nat, j: nat)
    requires Matrix(l) && Inverse(SWAP, SWAP) && i < Columns(l) && j < l.b.shape[0]
    ensures At(Dense(Swapped(l)), [i, j]) == At(Permute(Dense(l), SWAP, SWAP), [i, j])
  {
    SwapAt(Dense(l), i, j);
    SwappedElement(l, i, j, Swapped(l));
  }

  lemma SameMatrix(x: Tensor, y: Tensor, m: nat, n: nat)
    requires Valid(x) && Valid(y) && x.shape == y.shape == [m, n]
    requires forall i: nat, j: nat :: i < m && j < n ==> At(x, [i, j]) == At(y, [i, j])
    ensures x == y
  {
    forall idx | InBounds([m, n], idx) ensures At(x, idx) == At(y, idx) {
      assert idx == [idx[0], idx[1]];
    }
    SameElements(x, y);
  }

  lemma SwapCommutes(l: Lora)
    requires Matrix(l)
    ensures Inverse(SWAP, SWAP) && Dense(Swapped(l)) == Permute(Dense(l), SWAP, SWAP)
  {
    SwapIsInverse();
    SwapGather(Shape(l));
    forall i: nat, j: nat | i < Columns(l) && j < l.b.shape[0]
      ensures At(Dense(Swapped(l)), [i, j]) == At(Permute(Dense(l), SWAP, SWAP), [i, j])
    {
      SwapElement(l, i, j);
    }
    SameMatrix(Dense(Swapped(l)), Permute(Dense(l), SWAP, SWAP), Columns(l), l.b.shape[0]);
  }

  lemma KeepsLastDims(n: nat, ds: seq<int>)
    requires n > 0 && Axes(n, ds).Some? && ds[n - 1] == -1
    ensures KeepsLast(Axes(n, ds).value, Inv(Axes(n, ds).value))
  {
  }

  lemma SwapDims(ds: seq<int>)
    requires Axes(2, ds).Some? && ds[1] == -2 && ds[0] == -1
    ensures Axes(2, ds).value == SWAP && Inv(SWAP) == SWAP
  {
    var axes := Axes(2, ds).value;
    assert axes[0] == 1 && axes[1] == 0;
    assert SWAP[1..] == [0] && FirstAt(SWAP, 1) == 0 && FirstAt(SWAP[1..], 0) == 0;
  }

  /** Numbers that tensors take name the same axes once they are negative. */
  lemma SameAxes(n: nat, dims: seq<int>)
    requires InRange(n, dims)
    ensures Axes(n, Negatives(n, dims)) == Axes(n, dims)
  {
    var ds := Negatives(n, dims);
    if |dims| == n {
      assert seq(n, i requires 0 <= i < n => Axis(n, ds[i])) == seq(n, i requires 0 <= i < n => Axis(n, dims[i]));
    }
  }

  /** Permuting the pair, where it is supported, is permuting the dense tensor by the axes written as negative
      numbers; given the same numbers a tensor does the same, or refuses those out of its range. */
  lemma PermuteCommutes(l: Lora, dims: seq<int>, ds: seq<int>)
    requires Proper(l) && PermuteLora(l, dims).Some? && ds == Negatives(|l.b.shape|, dims)
    ensures Proper(PermuteLora(l, dims).value) && Rank(PermuteLora(l, dims).value) == Rank(l)
    ensures SharedA(PermuteLora(l, dims).value)
    ensures PermuteDense(Dense(l), ds) == Some(Dense(PermuteLora(l, dims).value))
    ensures PermuteDense(Dense(l), dims) == if InRange(|l.b.shape|, dims) then PermuteDense(Dense(l), ds) else None
  {
    hide Dense, PermuteLora, Permute;
    if InRange(|l.b.shape|, dims) {
      SameAxes(|l.b.shape|, dims);
    }
    if ds != [] && ds[|ds| - 1] == -1 {
      LastDims(l, dims, ds, PermuteLora(l, dims).value);
    } else {
      OtherDims(l, dims, ds, PermuteLora(l, dims).value);
    }
  }

  lemma LastDims(l: Lora, dims: seq<int>, ds: seq<int>, r: Lora)
    requires Proper(l) && PermuteLora(l, dims) == Some(r) && ds == Negatives(|l.b.shape|, dims) && ds != [] && ds[|ds| - 1] == -1
    ensures Proper(r) && Rank(r) == Rank(l) && SharedA(r) && PermuteDense(Dense(l), ds) == Some(Dense(r))
  {
    hide Dense, Build, Prod, At, Permute;
    var axes := Axes(|l.b.shape|, ds).value;
    KeepsLastDims(|l.b.shape|, ds);
    assert r == KeptLast(l, axes, Inv(axes));
    KeptLastCommutes(l, axes, Inv(axes));
  }

  lemma OtherDims(l: Lora, dims: seq<int>, ds: seq<int>, r: Lora)
    requires Proper(l) && PermuteLora(l, dims) == Some(r) && ds == Negatives(|l.b.shape|, dims)
    requires ds == [] || ds[|ds| - 1] != -1
    ensures Proper(r) && Rank(r) == Rank(l) && SharedA(r) && PermuteDense(Dense(l), ds) == Some(Dense(r))
  {
    hide Dense, Build, Prod, At, Permute, Inv;
    SwapDims(ds);
    SwapIsInverse();
    assert r == Swapped(l);
    SwapCommutes(l);
  }

  /** The pair accepts exactly those orders of its axes, written as negative numbers, that keep the last axis of a
      shared A, or that swap the axes of a matrix. */
  lemma PermuteExact(l: Lora, dims: seq<int>, n: nat, ds: seq<int>)
    requires Proper(l) && n == |l.b.shape| && ds == Negatives(n, dims)
    ensures PermuteLora(l, dims).Some?
       <==> PermuteDense(Dense(l), ds).Some? && ((ds[n - 1] == -1 && SharedA(l)) || (n == 2 && ds == [-1, -2]))
  {
    hide Permute, Dense, Build, Prod, At, IsPermutation;
  }

  /** So of the orders that the dense tensor accepts, the pair accepts those that leave the last axis in its place
      where A is shared, and all orders of a matrix. */
  lemma PermuteAccepts(l: Lora, dims: seq<int>, n: nat)
    requires Proper(l) && n == |l.b.shape| && PermuteDense(Dense(l), dims).Some?
    ensures PermuteLora(l, dims).Some? <==> n == 2 || (Axes(n, dims).value[n - 1] == n - 1 && SharedA(l))
  {
    hide PermuteLora, Permute, Dense;
    var ds, axes := Negatives(n, dims), Axes(n, dims).value;
    SameAxes(n, dims);
    PermuteExact(l, dims, n, ds);
    if n == 2 {
      TwoAxes(axes);
      assert axes[0] == ds[0] + 2 && axes[1] == ds[1] + 2;
    }
  }

  lemma TwoAxes(axes: seq<nat>)
    requires IsPermutation(axes) && |axes| == 2
    ensures axes == [0, 1] || axes == [1, 0]
  {
    var inv := Inv(axes);
    assert inv[axes[0]] == 0 && inv[axes[1]] == 1;
  }

  /** Numbers from the number of axes on: a pair of three axes with a shared A takes 4, 3, 2 for 1, 0, 2. */
  lemma PermuteBeyond(l: Lora, dims: seq<int>)
    requires Proper(l) && SharedA(l) && |l.b.shape| == 3 && dims == [4, 3, 2]
    ensures PermuteDense(Dense(l), dims).None?
    ensures PermuteLora(l, dims).Some? && PermuteDense(Dense(l), [1, 0, 2]) == Some(Dense(PermuteLora(l, dims).value))
  {
    hide Permute, Dense;
    var ds := Negatives(3, dims);
    assert dims[0] == 4 && ds == [1, 0, -1];
    BeyondAxes();
    PermuteExact(l, dims, 3, ds);
    PermuteCommutes(l, dims, ds);
  }

  lemma BeyondAxes()
    ensures Axes(3, [1, 0, -1]) == Some([1, 0, 2]) && Axes(3, [1, 0, 2]) == Some([1, 0, 2])
  {
    var axes: seq<nat> := [1, 0, 2];
    assert IsPermutation(axes);
    assert seq(3, i requires 0 <= i < 3 => Axis(3, [1, 0, -1][i])) == axes;
    assert seq(3, i requires 0 <= i < 3 => Axis(3, [1, 0, 2][i])) == axes;
  }

  // ---------------------------------------------------------------------
  // Transpose

  function Swap(dims: seq<int>, i: nat, j: nat): seq<int>
    requires i < |dims| && j < |dims|
  {
    dims[i := dims[j]][j := dims[i]]
  }

  /** The axis order a transpose asks for; axis numbers may count from the end. */
  function TransposeDims(n: nat, dim0: int, dim1: int): Option<seq<int>> {
    if !(0 <= dim0 + n < 2 * n && 0 <= dim1 + n < 2 * n) then None
    else
      Some(Swap(seq(n, i => i as int), if dim0 < 0 then dim0 + n else dim0, if dim1 < 0 then dim1 + n else dim1))
  }
}
