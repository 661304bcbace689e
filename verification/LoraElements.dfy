/** What the operations on tensors mean, axis by axis and element by element. */
module LoraElements {
  import opened Basics
  import opened Tensors
  import opened LoraShapes
  import opened LoraReshape
  import opened LoraParts
  import opened LoraIndex

  // ---------------------------------------------------------------------
  // Permutations

  /** The element at `idx` comes from where axis `axes[i]` has position `idx[i]`. */
  lemma PermuteReads(t: Tensor, axes: seq<nat>, inv: seq<nat>, idx: Index, from: Index)
    requires Valid(t) && |axes| == |t.shape| && Inverse(axes, inv) && InBounds(Gather(t.shape, axes), idx)
    requires |from| == |axes| && forall i :: 0 <= i < |axes| ==> from[axes[i]] == idx[i]
    ensures At(Permute(t, axes, inv), idx) == At(t, from)
  {
    hide At, Permute;
    var g := Gather(idx, inv);
    forall a | 0 <= a < |axes| ensures g[a] == from[a] {
      assert axes[inv[a]] == a;
    }
    assert g == from;
    PermuteAt(t, axes, inv, idx);
  }

  /** The axis that a number names, from either end. */
  function Named(n: nat, dim: int): int {
    if dim < 0 then dim + n else dim
  }

  /** A sequence with two of its entries exchanged. */
  function Exchanged<T>(s: seq<T>, i: nat, j: nat): seq<T>
    requires i < |s| && j < |s|
  {
    s[i := s[j]][j := s[i]]
  }

  lemma TransposeAxes(n: nat, dim0: int, dim1: int, dims: seq<int>, axes: seq<nat>, i: nat, j: nat)
    requires TransposeDims(n, dim0, dim1) == Some(dims) && Axes(n, dims) == Some(axes)
    requires i == Named(n, dim0) && j == Named(n, dim1) && i < n && j < n
    ensures |axes| == n && axes[i] == j && axes[j] == i && forall k :: 0 <= k < n && k != i && k != j ==> axes[k] == k
  {
  }

  lemma TransposeBounds(shape: seq<nat>, axes: seq<nat>, idx: Index, i: nat, j: nat)
    requires |axes| == |shape| == |idx| && i < |shape| && j < |shape| && InBounds(Exchanged(shape, i, j), idx)
    requires axes[i] == j && axes[j] == i && forall k :: 0 <= k < |axes| && k != i && k != j ==> axes[k] == k
    ensures (forall k :: 0 <= k < |axes| ==> axes[k] < |axes|) && Gather(shape, axes) == Exchanged(shape, i, j)
    ensures forall k :: 0 <= k < |axes| ==> Exchanged(idx, i, j)[axes[k]] == idx[k]
  {
  }

  /** Transposing exchanges two axes: the shape's and every index's. */
  lemma TransposeExact(t: Tensor, dim0: int, dim1: int, dims: seq<int>, r: Tensor, i: nat, j: nat, idx: Index)
    requires Valid(t) && TransposeDims(|t.shape|, dim0, dim1) == Some(dims) && PermuteDense(t, dims) == Some(r)
    requires i == Named(|t.shape|, dim0) && j == Named(|t.shape|, dim1) && i < |t.shape| && j < |t.shape|
    requires InBounds(Exchanged(t.shape, i, j), idx)
    ensures Valid(r) && r.shape == Exchanged(t.shape, i, j) && At(r, idx) == At(t, Exchanged(idx, i, j))
  {
    hide At, Permute, Inv, TransposeDims, Exchanged;
    var axes := Axes(|t.shape|, dims).value;
    TransposeAxes(|t.shape|, dim0, dim1, dims, axes, i, j);
    ExchangedLength(t.shape, i, j);
    ExchangedLength(idx, i, j);
    TransposeBounds(t.shape, axes, idx, i, j);
    PermuteReads(t, axes, Inv(axes), idx, Exchanged(idx, i, j));
  }

  lemma ExchangedLength<T>(s: seq<T>, i: nat, j: nat)
    requires i < |s| && j < |s|
    ensures |Exchanged(s, i, j)| == |s|
  {
  }

  /** Any two axes can be exchanged, and no others. */
  lemma TransposeAccepts(n: nat, dim0: int, dim1: int)
    ensures TransposeDims(n, dim0, dim1).Some? <==> 0 <= Named(n, dim0) < n && 0 <= Named(n, dim1) < n
    ensures TransposeDims(n, dim0, dim1).Some? ==> Axes(n, TransposeDims(n, dim0, dim1).value).Some?
  {
    hide IsPermutation;
    if TransposeDims(n, dim0, dim1).Some? {
      var dims := TransposeDims(n, dim0, dim1).value;
      var axes: seq<nat> := seq(n, k requires 0 <= k < n => Axis(n, dims[k]));
      TransposeTwice(n, dim0, dim1, dims, axes);
      SelfInverse(axes);
    }
  }

  lemma TransposeTwice(n: nat, dim0: int, dim1: int, dims: seq<int>, axes: seq<nat>)
    requires TransposeDims(n, dim0, dim1) == Some(dims) && |axes| == n && forall k :: 0 <= k < n ==> axes[k] == Axis(n, dims[k])
    ensures InRange(n, dims) && |dims| == n && (forall k :: 0 <= k < n ==> axes[k] < n) && forall k :: 0 <= k < n ==> axes[axes[k]] == k
  {
  }

  lemma SelfInverse(axes: seq<nat>)
    requires (forall k :: 0 <= k < |axes| ==> axes[k] < |axes|) && forall k :: 0 <= k < |axes| ==> axes[axes[k]] == k
    ensures IsPermutation(axes)
  {
    forall a | 0 <= a < |axes| ensures Inv(axes)[a] == axes[a] {
      FoundAt(axes, a, axes[a]);
    }
  }

  lemma {:induction false} FoundFrom(axes: seq<nat>, a: nat, k: nat)
    requires k < |axes| && axes[k] == a && forall i :: 0 <= i < k ==> axes[i] != a
    ensures FirstAt(axes, a) == k
    decreases k
  {
    if k > 0 {
      assert axes[0] != a && forall i :: 0 <= i < k - 1 ==> axes[1..][i] == axes[i + 1];
      FoundFrom(axes[1..], a, k - 1);
    }
  }

  lemma FoundAt(axes: seq<nat>, a: nat, k: nat)
    requires (forall i :: 0 <= i < |axes| ==> axes[i] < |axes|) && (forall i :: 0 <= i < |axes| ==> axes[axes[i]] == i)
    requires k < |axes| && axes[k] == a
    ensures FirstAt(axes, a) == k
  {
    forall i | 0 <= i < k ensures axes[i] != a {
      assert axes[axes[i]] == i && axes[axes[k]] == k;
    }
    FoundFrom(axes, a, k);
  }

  // ---------------------------------------------------------------------
  // Slices

  /** A bound of a slice: from the end where negative, and then no further out than the axis. */
  function Bound(x: int, n: nat): int {
    if x >= 0 then if x <= n then x else n else if x + n >= 0 then x + n else 0
  }

  lemma StrideFirst(lo: nat, hi: nat, step: nat, p: nat)
    requires step > 0
    ensures p in Stride(lo, hi, step) <==> lo < hi && (p == lo || p in Stride(lo + step, hi, step))
  {
  }

  lemma {:induction false} StrideExact(lo: nat, hi: nat, step: nat, p: nat)
    requires step > 0
    ensures p in Stride(lo, hi, step) <==> lo <= p < hi && (p - lo) % step == 0
    decreases if lo < hi then hi - lo else 0
  {
    hide Stride;
    StrideFirst(lo, hi, step, p);
    if lo < hi {
      StrideExact(lo + step, hi, step, p);
      if p >= lo + step {
        StepBack(p - lo, step);
      } else if lo < p {
        Small(p - lo, step);
      }
    }
  }

  lemma NotFirst(x: nat, q: nat, r: nat, step: nat)
    requires x == q * step + r && r < step <= x
    ensures q >= 1
  {
  }

  lemma StepBack(x: nat, step: nat)
    requires step > 0 && x >= step
    ensures x % step == (x - step) % step
  {
    var q, r := x / step, x % step;
    assert x == q * step + r;
    NotFirst(x, q, r, step);
    assert x - step == (q - 1) * step + r;
    DivMod(q - 1, step, r);
  }

  lemma Small(x: nat, step: nat)
    requires 0 < x < step
    ensures x % step == x
  {
  }

  lemma {:induction false} StrideAscends(lo: nat, hi: nat, step: nat)
    requires step > 0
    ensures forall i, j :: 0 <= i < j < |Stride(lo, hi, step)| ==> Stride(lo, hi, step)[i] < Stride(lo, hi, step)[j]
    decreases if lo < hi then hi - lo else 0
  {
    if lo < hi {
      var all, rest := Stride(lo, hi, step), Stride(lo + step, hi, step);
      StrideAscends(lo + step, hi, step);
      forall i, j | 0 <= i < j < |all| ensures all[i] < all[j] {
        assert all[j] == rest[j - 1];
        if i > 0 {
          assert all[i] == rest[i - 1];
        }
      }
    }
  }

  /** A slice keeps, in order, every `step`-th position from its first bound on that lies before its second. */
  lemma SliceKeeps(start: Option<int>, stop: Option<int>, step: int, n: nat, lo: int, hi: int, pos: seq<nat>)
    requires lo == (if start.None? then 0 else Bound(start.value, n)) && hi == (if stop.None? then n else Bound(stop.value, n))
    requires step > 0 && Resolve(Slice(start, stop, step), n) == Some(Keep(pos))
    ensures forall p: nat :: p in pos <==> lo <= p < hi && (p - lo) % step == 0
    ensures forall i, j :: 0 <= i < j < |pos| ==> pos[i] < pos[j]
  {
    hide Stride;
    forall p: nat ensures p in pos <==> lo <= p < hi && (p - lo) % step == 0 {
      StrideExact(lo, hi, step, p);
    }
    StrideAscends(lo, hi, step);
  }

  /** A slice is refused for a step that is not positive only; an integer outside the axis is refused. */
  lemma EntriesAccepted(start: Option<int>, stop: Option<int>, step: int, i: int, n: nat)
    ensures Resolve(Slice(start, stop, step), n).Some? <==> step > 0
    ensures Resolve(Int(i), n) == if 0 <= Named(n, i) < n then Some(Pick(Named(n, i))) else None
  {
  }

  /** How many axes are kept before the `k`-th. */
  function Keeps(sels: seq<Sel>, k: nat): nat
    requires k <= |sels|
  {
    if k == 0 then 0 else Keeps(sels, k - 1) + if sels[k - 1].Keep? then 1 else 0
  }

  lemma {:induction false} KeepsFront(sels: seq<Sel>, n: nat, k: nat)
    requires k <= n <= |sels|
    ensures Keeps(sels[..n], k) == Keeps(sels, k)
    decreases k
  {
    if k > 0 {
      KeepsFront(sels, n, k - 1);
    }
  }

  lemma {:induction false} OutAxes(sels: seq<Sel>)
    ensures |OutShape(sels)| == Keeps(sels, |sels|)
    decreases |sels|
  {
    if sels != [] {
      var n := |sels| - 1;
      OutAxes(sels[..n]);
      KeepsFront(sels, n, n);
    }
  }

  /** Where the entry for axis `k` of the source comes from. */
  predicate SourceAt(sels: seq<Sel>, idx: Index, from: Index, k: nat)
    requires k < |sels|
  {
    && |from| == |sels|
    && match sels[k]
       case Pick(i) => from[k] == i
       case Keep(pos) =>
         var m := Keeps(sels, k);
         m < |idx| == |OutShape(sels)| && OutShape(sels)[m] == |pos| && idx[m] < |pos| && from[k] == pos[idx[m]]
  }

  lemma {:induction false} SourceLength(sels: seq<Sel>, idx: Index)
    ensures |Source(sels, idx)| == |sels|
    decreases |sels|
  {
    if sels != [] {
      var n, m := |sels| - 1, |idx| - 1;
      SourceLength(sels[..n], idx);
      if m >= 0 {
        SourceLength(sels[..n], idx[..m]);
      }
    }
  }

  lemma SourceLast(sels: seq<Sel>, idx: Index, n: nat)
    requires InBounds(OutShape(sels), idx) && n + 1 == |sels|
    ensures SourceAt(sels, idx, Source(sels, idx), n)
  {
    hide Keeps;
    SourceLength(sels, idx);
    SourceLength(sels[..n], if sels[n].Pick? then idx else idx[..|idx| - 1]);
    OutAxes(sels[..n]);
    KeepsFront(sels, n, n);
  }

  lemma SourceBefore(sels: seq<Sel>, idx: Index, k: nat, n: nat, inner: Index)
    requires InBounds(OutShape(sels), idx) && n + 1 == |sels| && k < n
    requires inner == (if sels[n].Pick? then idx else idx[..|idx| - 1])
    requires InBounds(OutShape(sels[..n]), inner) && SourceAt(sels[..n], inner, Source(sels[..n], inner), k)
    ensures SourceAt(sels, idx, Source(sels, idx), k)
  {
    hide Keeps, Source, OutShape;
    KeepsFront(sels, n, k);
    FrontParts(sels, idx, n, inner);
  }

  lemma FrontParts(sels: seq<Sel>, idx: Index, n: nat, inner: Index)
    requires n + 1 == |sels| && InBounds(OutShape(sels), idx) && inner == (if sels[n].Pick? then idx else idx[..|idx| - 1])
    ensures OutShape(sels[..n]) <= OutShape(sels) && inner <= idx
    ensures |Source(sels, idx)| == n + 1 && Source(sels[..n], inner) == Source(sels, idx)[..n]
  {
    SourceLength(sels, idx);
  }

  /** An element of an indexed tensor comes from the picked positions on dropped axes and from the kept positions
      that its index counts on the others, which follow each other in order. */
  lemma {:induction false} SourceExact(sels: seq<Sel>, idx: Index, k: nat)
    requires InBounds(OutShape(sels), idx) && k < |sels|
    ensures SourceAt(sels, idx, Source(sels, idx), k)
    decreases |sels|
  {
    hide SourceAt, Source;
    var n := |sels| - 1;
    if k == n {
      SourceLast(sels, idx, n);
    } else {
      var inner := if sels[n].Pick? then idx else idx[..|idx| - 1];
      SourceExact(sels[..n], inner, k);
      SourceBefore(sels, idx, k, n, inner);
    }
  }

  // ---------------------------------------------------------------------
  // Parts

  lemma {:induction false} EveryCutIs(lo: nat, total: nat, size: nat, i: nat)
    requires size > 0 && lo <= total && i < |EveryCuts(lo, total, size)|
    ensures EveryCuts(lo, total, size)[i] == Min(lo + i * size, total)
    decreases total - lo
  {
    if lo < total && i > 0 {
      var next := lo + Min(size, total - lo);
      EveryCutIs(next, total, size, i - 1);
      assert i * size == (i - 1) * size + size;
    }
  }

  lemma {:induction false} EveryCutCount(lo: nat, total: nat, size: nat, k: nat)
    requires size > 0 && lo <= total && k == |EveryCuts(lo, total, size)| - 1
    ensures total <= lo + k * size && (k > 0 ==> lo + (k - 1) * size < total)
    decreases total - lo
  {
    if lo < total {
      var next := lo + Min(size, total - lo);
      EveryCutCount(next, total, size, k - 1);
      assert k * size == (k - 1) * size + size;
      if k > 1 {
        assert (k - 1) * size == (k - 2) * size + size;
      }
    }
  }

  /** Parts of one size start at its multiples; there are as many as are needed and no more. */
  lemma OneSizeParts(total: nat, size: nat, cuts: seq<nat>, k: nat)
    requires size > 0 && total > 0 && Cuts(total, Every(size)) == Some(cuts) && k == |cuts| - 1
    ensures forall i :: 0 <= i < |cuts| ==> cuts[i] == Min(i * size, total)
    ensures k > 0 && (k - 1) * size < total <= k * size
  {
    forall i | 0 <= i < |cuts| ensures cuts[i] == Min(i * size, total) {
      EveryCutIs(0, total, size, i);
    }
    EveryCutCount(0, total, size, k);
  }

  lemma {:induction false} SizeCutIs(lo: nat, sizes: seq<nat>, i: nat)
    requires i < |sizes|
    ensures SizeCuts(lo, sizes)[i + 1] == SizeCuts(lo, sizes)[i] + sizes[i]
    decreases |sizes|
  {
    if i > 0 {
      SizeCutIs(lo + sizes[0], sizes[1..], i - 1);
    }
  }

  /** Parts of given sizes have those sizes, one after the other, and make up the axis. */
  lemma SizedParts(total: nat, sizes: seq<nat>, cuts: seq<nat>)
    requires Cuts(total, Sizes(sizes)) == Some(cuts)
    ensures |cuts| == |sizes| + 1 && cuts[0] == 0 && cuts[|sizes|] == total
    ensures forall i :: 0 <= i < |sizes| ==> cuts[i + 1] - cuts[i] == sizes[i]
  {
    forall i | 0 <= i < |sizes| ensures cuts[i + 1] - cuts[i] == sizes[i] {
      SizeCutIs(0, sizes, i);
    }
  }

  function Total(sizes: seq<nat>): nat {
    if sizes == [] then 0 else sizes[0] + Total(sizes[1..])
  }

  lemma {:induction false} LastCut(lo: nat, sizes: seq<nat>)
    ensures SizeCuts(lo, sizes)[|sizes|] == lo + Total(sizes)
    decreases |sizes|
  {
    if sizes != [] {
      LastCut(lo + sizes[0], sizes[1..]);
    }
  }

  /** Sizes are accepted if and only if they make up the axis, one size if and only if it is positive or nothing is to
      be split. */
  lemma CutsAccepted(total: nat, size: nat, sizes: seq<nat>)
    ensures Cuts(total, Sizes(sizes)).Some? <==> Total(sizes) == total
    ensures Cuts(total, Every(size)).Some? <==> size > 0 || total == 0
  {
    LastCut(0, sizes);
  }

  // ---------------------------------------------------------------------
  // Open entries of a shape

  /** The shape that is filled in keeps all given entries. */
  lemma ExpandKeeps(shape: seq<nat>, dims: seq<int>, s: seq<nat>)
    requires Expand(shape, dims) == Some(s)
    ensures |s| == |dims| && forall i :: 0 <= i < |dims| && dims[i] != -1 ==> s[i] == dims[i]
  {
  }

  /** A single open entry makes the sizes agree. */
  lemma ExpandFits(shape: seq<nat>, dims: seq<int>, s: seq<nat>)
    requires Expand(shape, dims) == Some(s) && Unknowns(dims) == 1
    ensures Prod(s) == Prod(shape)
  {
    hide Prod, Fill, Expand;
    var known := ProdOfKnown(dims);
    OpenEntry(shape, dims);
    ExpandFill(shape, dims, s, known);
    var fill: nat := Prod(shape) / known;
    ProdFilled(dims, fill);
    Divided(Prod(shape), known, fill);
    OnePower(fill);
  }

  lemma OnePower(x: nat)
    ensures Power(x, 1) == x
  {
    assert Power(x, 0) == 1;
  }

  lemma OpenEntry(shape: seq<nat>, dims: seq<int>)
    requires Expand(shape, dims).Some? && Unknowns(dims) > 0
    ensures ProdOfKnown(dims) > 0 && forall i :: 0 <= i < |dims| ==> dims[i] >= -1
  {
    if -1 !in dims {
      NoUnknowns(dims);
    }
  }

  /** Entries with an open one are accepted when the others are not negative and their product divides the size. */
  lemma ExpandAccepts(shape: seq<nat>, dims: seq<int>)
    ensures Expand(shape, dims).Some? <==>
      && (forall i :: 0 <= i < |dims| ==> dims[i] >= -1)
      && (-1 in dims ==> ProdOfKnown(dims) > 0 && Prod(shape) % ProdOfKnown(dims) == 0)
  {
  }
}
