/** Dense tensors in row-major order: indexing, building, permuting, selecting. */
module Tensors {

  type Index = seq<nat>

  datatype Tensor = Tensor(shape: seq<nat>, data: seq<real>)

  function Prod(shape: seq<nat>): nat {
    if shape == [] then 1 else Prod(shape[..|shape| - 1]) * shape[|shape| - 1]
  }

  predicate Valid(t: Tensor) {
    |t.data| == Prod(t.shape)
  }

  predicate InBounds(shape: seq<nat>, idx: Index) {
    |idx| == |shape| && forall i :: 0 <= i < |idx| ==> idx[i] < shape[i]
  }

  // ---------------------------------------------------------------------
  // Row-major positions

  function Flat(shape: seq<nat>, idx: Index): nat
    requires |idx| == |shape|
  {
    if shape == [] then 0
    else
      var n := |shape| - 1;
      Flat(shape[..n], idx[..n]) * shape[n] + idx[n]
  }

  function Unflat(shape: seq<nat>, p: nat): (idx: Index)
    requires p < Prod(shape)
    ensures InBounds(shape, idx)
  {
    if shape == [] then []
    else
      var n := |shape| - 1;
      QuotientBound(p, Prod(shape[..n]), shape[n]);
      Unflat(shape[..n], p / shape[n]) + [p % shape[n]]
  }

  lemma QuotientBound(p: nat, a: nat, m: nat)
    requires p < a * m
    ensures m > 0 && p / m < a
  {
    MulMono(0, a, m);
  }

  lemma MulMono(a: nat, b: nat, m: nat)
    requires a <= b
    ensures a * m <= b * m
  {
  }

  lemma SmallMultiple(x: int, m: int)
    requires -m < x * m < m
    ensures x == 0
  {
  }

  lemma DivMod(q: nat, m: nat, r: nat)
    requires r < m
    ensures (q * m + r) / m == q && (q * m + r) % m == r
  {
    var p := q * m + r;
    var d := p / m;
    assert p == d * m + p % m;
    assert (d - q) * m == d * m - q * m;
    SmallMultiple(d - q, m);
  }

  lemma SnocBound(f: nat, a: nat, i: nat, m: nat)
    requires f < a && i < m
    ensures f * m + i < a * m
  {
    MulMono(f + 1, a, m);
    assert (f + 1) * m == f * m + m;
  }

  /** Row-major positions of valid indices are inside the data, and reading them back is exact. */
  lemma {:induction false} FlatUnflat(shape: seq<nat>, idx: Index)
    requires InBounds(shape, idx)
    ensures Flat(shape, idx) < Prod(shape)
    ensures Unflat(shape, Flat(shape, idx)) == idx
    decreases |shape|
  {
    if shape == [] {
    } else {
      var n := |shape| - 1;
      FlatUnflat(shape[..n], idx[..n]);
      var f := Flat(shape[..n], idx[..n]);
      SnocBound(f, Prod(shape[..n]), idx[n], shape[n]);
      DivMod(f, shape[n], idx[n]);
      assert idx[..n] + [idx[n]] == idx;
    }
  }

  lemma {:induction false} UnflatFlat(shape: seq<nat>, p: nat)
    requires p < Prod(shape)
    ensures Flat(shape, Unflat(shape, p)) == p
    decreases |shape|
  {
    if shape != [] {
      var n := |shape| - 1;
      QuotientBound(p, Prod(shape[..n]), shape[n]);
      UnflatFlat(shape[..n], p / shape[n]);
      var idx := Unflat(shape, p);
      assert idx[..n] == Unflat(shape[..n], p / shape[n]);
    }
  }

  // ---------------------------------------------------------------------
  // Elements

  /** The element at an index; 0 outside the tensor, where no operation looks. */
  function At(t: Tensor, idx: Index): real
    requires Valid(t)
  {
    if InBounds(t.shape, idx) then FlatUnflat(t.shape, idx); t.data[Flat(t.shape, idx)] else 0.0
  }

  /** The tensor with the given elements. */
  function Build(shape: seq<nat>, f: Index -> real): (t: Tensor)
    ensures Valid(t) && t.shape == shape
  {
    Tensor(shape, seq(Prod(shape), p requires 0 <= p < Prod(shape) => f(Unflat(shape, p))))
  }

  lemma BuildAt(shape: seq<nat>, f: Index -> real, idx: Index)
    requires InBounds(shape, idx)
    ensures At(Build(shape, f), idx) == f(idx)
  {
    FlatUnflat(shape, idx);
  }

  /** Tensors with the same shape and the same elements are the same. */
  lemma SameElements(a: Tensor, b: Tensor)
    requires Valid(a) && Valid(b) && a.shape == b.shape
    requires forall idx :: InBounds(a.shape, idx) ==> At(a, idx) == At(b, idx)
    ensures a == b
  {
    forall p | 0 <= p < |a.data| ensures a.data[p] == b.data[p] {
      var idx := Unflat(a.shape, p);
      UnflatFlat(a.shape, p);
      assert At(a, idx) == At(b, idx);
    }
  }

  // ---------------------------------------------------------------------
  // Permuting axes

  function Gather(s: seq<nat>, pos: seq<nat>): (r: seq<nat>)
    requires forall i :: 0 <= i < |pos| ==> pos[i] < |s|
    ensures |r| == |pos| && forall i :: 0 <= i < |r| ==> r[i] == s[pos[i]]
  {
    seq(|pos|, i requires 0 <= i < |pos| => s[pos[i]])
  }

  /** `axes` and `inv` are permutations of the axes that undo each other. */
  predicate Inverse(axes: seq<nat>, inv: seq<nat>) {
    && |axes| == |inv|
    && (forall i :: 0 <= i < |axes| ==> axes[i] < |axes|)
    && (forall i :: 0 <= i < |inv| ==> inv[i] < |inv|)
    && (forall i {:trigger inv[axes[i]]} :: 0 <= i < |axes| ==> inv[axes[i]] == i)
    && (forall i {:trigger axes[inv[i]]} :: 0 <= i < |inv| ==> axes[inv[i]] == i)
  }

  function FirstAt(axes: seq<nat>, a: nat): nat {
    if axes == [] || axes[0] == a then 0 else 1 + FirstAt(axes[1..], a)
  }

  function Inv(axes: seq<nat>): seq<nat> {
    seq(|axes|, a requires 0 <= a < |axes| => FirstAt(axes, a))
  }

  predicate IsPermutation(axes: seq<nat>) {
    Inverse(axes, Inv(axes))
  }

  /** The tensor whose axis `i` is axis `axes[i]` of `t`. */
  function Permute(t: Tensor, axes: seq<nat>, inv: seq<nat>): (r: Tensor)
    requires Valid(t) && |axes| == |t.shape| && Inverse(axes, inv)
    ensures Valid(r) && r.shape == Gather(t.shape, axes)
  {
    Build(Gather(t.shape, axes), (idx: Index) => if |idx| == |axes| then At(t, Gather(idx, inv)) else 0.0)
  }

  lemma GatherInBounds(shape: seq<nat>, axes: seq<nat>, inv: seq<nat>, idx: Index)
    requires |axes| == |shape| && Inverse(axes, inv) && InBounds(Gather(shape, axes), idx)
    ensures InBounds(shape, Gather(idx, inv))
  {
    var j := Gather(idx, inv);
    forall a | 0 <= a < |j| ensures j[a] < shape[a] {
      var i := inv[a];
      assert axes[inv[a]] == a;
      assert idx[i] < Gather(shape, axes)[i];
    }
  }

  lemma PermuteAt(t: Tensor, axes: seq<nat>, inv: seq<nat>, idx: Index)
    requires Valid(t) && |axes| == |t.shape| && Inverse(axes, inv)
    requires InBounds(Gather(t.shape, axes), idx)
    ensures InBounds(t.shape, Gather(idx, inv))
    ensures At(Permute(t, axes, inv), idx) == At(t, Gather(idx, inv))
  {
    GatherInBounds(t.shape, axes, inv, idx);
    PermuteValue(t, axes, inv, idx, Gather(t.shape, axes), Gather(idx, inv));
  }

  lemma PermuteValue(t: Tensor, axes: seq<nat>, inv: seq<nat>, idx: Index, shape: seq<nat>, j: Index)
    requires Valid(t) && |axes| == |t.shape| && Inverse(axes, inv)
    requires shape == Gather(t.shape, axes) && InBounds(shape, idx) && j == Gather(idx, inv)
    ensures At(Permute(t, axes, inv), idx) == At(t, j)
  {
    BuildAt(shape, (i: Index) => if |i| == |axes| then At(t, Gather(i, inv)) else 0.0, idx);
  }

  // ---------------------------------------------------------------------
  // Selecting positions along one axis

  predicate PositionsOf(pos: seq<nat>, len: nat) {
    forall i :: 0 <= i < |pos| ==> pos[i] < len
  }

  function SelectedIndex(pos: seq<nat>, axis: nat, idx: Index): Index {
    if axis < |idx| && idx[axis] < |pos| then idx[axis := pos[idx[axis]]] else []
  }

  /** The tensor with only the given positions of an axis, in the given order. */
  function Select(t: Tensor, axis: nat, pos: seq<nat>): (r: Tensor)
    requires Valid(t) && axis < |t.shape| && PositionsOf(pos, t.shape[axis])
    ensures Valid(r) && r.shape == t.shape[axis := |pos|]
  {
    Build(t.shape[axis := |pos|], (idx: Index) => At(t, SelectedIndex(pos, axis, idx)))
  }

  lemma SelectAt(t: Tensor, axis: nat, pos: seq<nat>, idx: Index)
    requires Valid(t) && axis < |t.shape| && PositionsOf(pos, t.shape[axis])
    requires InBounds(t.shape[axis := |pos|], idx)
    ensures InBounds(t.shape, SelectedIndex(pos, axis, idx))
    ensures SelectedIndex(pos, axis, idx) == idx[axis := pos[idx[axis]]]
    ensures At(Select(t, axis, pos), idx) == At(t, SelectedIndex(pos, axis, idx))
  {
    var f := (i: Index) => At(t, SelectedIndex(pos, axis, i));
    BuildAt(t.shape[axis := |pos|], f, idx);
    SelectedInBounds(t.shape, axis, pos, idx);
  }

  lemma SelectedInBounds(shape: seq<nat>, axis: nat, pos: seq<nat>, idx: Index)
    requires axis < |shape| && PositionsOf(pos, shape[axis]) && InBounds(shape[axis := |pos|], idx)
    ensures idx[axis] < |pos| && InBounds(shape, idx[axis := pos[idx[axis]]])
  {
    var s := shape[axis := |pos|];
    assert idx[axis] < s[axis];
    var j := idx[axis := pos[idx[axis]]];
    forall i | 0 <= i < |j| ensures j[i] < shape[i] {
      assert idx[i] < s[i];
    }
  }

  // ---------------------------------------------------------------------
  // Finite sums

  function Sum(n: nat, f: nat -> real): real {
    if n == 0 then 0.0 else Sum(n - 1, f) + f(n - 1)
  }

  lemma {:induction false} SameSum(n: nat, f: nat -> real, g: nat -> real)
    requires forall k: nat :: k < n ==> f(k) == g(k)
    ensures Sum(n, f) == Sum(n, g)
  {
    if n > 0 {
      SameSum(n - 1, f, g);
    }
  }
}
