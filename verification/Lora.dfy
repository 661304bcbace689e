/** Low-rank tensors: a pair (A, B) stands for the dense tensor B·A. */
module Lora {
  import opened Tensors

  datatype Lora = Lora(a: Tensor, b: Tensor)

  /** B is (..., rows, rank) and A is (..., rank, columns); batch axes of A may be 1 and are then shared. */
  predicate Proper(l: Lora) {
    var n := |l.b.shape|;
    && Valid(l.a) && Valid(l.b)
    && n >= 2 && |l.a.shape| == n
    && l.a.shape[n - 2] == l.b.shape[n - 1]
    && (forall i :: 0 <= i < n - 2 ==> l.a.shape[i] == 1 || l.a.shape[i] == l.b.shape[i])
  }

  /** What the constructor of a pair checks. */
  predicate Meets(l: Lora) {
    var n := |l.b.shape|;
    n >= 2 && |l.a.shape| == n && l.a.shape[n - 2] == l.b.shape[n - 1]
  }

  /** All batch axes of A are 1: one A for all rows of B. */
  predicate SharedA(l: Lora) {
    forall i :: 0 <= i < |l.a.shape| - 2 ==> l.a.shape[i] == 1
  }

  function Rank(l: Lora): nat
    requires Proper(l)
  {
    l.b.shape[|l.b.shape| - 1]
  }

  function Columns(l: Lora): nat
    requires Proper(l)
  {
    l.a.shape[|l.a.shape| - 1]
  }

  function Shape(l: Lora): seq<nat>
    requires Proper(l)
  {
    l.b.shape[..|l.b.shape| - 1] + [Columns(l)]
  }

  // ---------------------------------------------------------------------
  // The dense meaning

  function BIndex(idx: Index, k: nat): Index
    requires idx != []
  {
    idx[..|idx| - 1] + [k]
  }

  /** The element of A that meets row `k`: batch axes of length 1 are shared. */
  function AIndex(shape: seq<nat>, idx: Index, k: nat): (r: Index)
    requires |idx| == |shape| >= 2
    ensures |r| == |idx|
  {
    seq(|idx| - 2, i requires 0 <= i < |idx| - 2 => if shape[i] == 1 then 0 else idx[i]) + [k, idx[|idx| - 1]]
  }

  function Term(l: Lora, idx: Index, k: nat): real
    requires Proper(l) && |idx| == |l.b.shape|
  {
    At(l.b, BIndex(idx, k)) * At(l.a, AIndex(l.a.shape, idx, k))
  }

  function Element(l: Lora, idx: Index): real
    requires Proper(l)
  {
    if |idx| == |l.b.shape| then Sum(Rank(l), (k: nat) => Term(l, idx, k)) else 0.0
  }

  function Dense(l: Lora): (t: Tensor)
    requires Proper(l)
    ensures Valid(t) && t.shape == Shape(l)
  {
    Build(Shape(l), (idx: Index) => Element(l, idx))
  }

  lemma DenseAt(l: Lora, idx: Index)
    requires Proper(l) && InBounds(Shape(l), idx)
    ensures At(Dense(l), idx) == Sum(Rank(l), (k: nat) => Term(l, idx, k))
  {
    BuildAt(Shape(l), (i: Index) => Element(l, i), idx);
  }

  // ---------------------------------------------------------------------
  // With a shared A the dense data depends on the two data lists only

  function FlatTerm(b: seq<real>, a: seq<real>, rank: nat, columns: nat, row: nat, c: nat, k: nat): real {
    var i, j := row * rank + k, k * columns + c;
    if i < |b| && j < |a| then b[i] * a[j] else 0.0
  }

  function FlatElement(b: seq<real>, a: seq<real>, rank: nat, columns: nat, p: nat): real {
    if columns == 0 then 0.0
    else Sum(rank, (k: nat) => FlatTerm(b, a, rank, columns, p / columns, p % columns, k))
  }

  function FlatDense(b: seq<real>, a: seq<real>, rows: nat, rank: nat, columns: nat): seq<real> {
    seq(rows * columns, p requires 0 <= p < rows * columns => FlatElement(b, a, rank, columns, p))
  }

  lemma ProdSnoc(s: seq<nat>, m: nat)
    ensures Prod(s + [m]) == Prod(s) * m
  {
    assert (s + [m])[..|s|] == s;
  }

  lemma FlatSnoc(s: seq<nat>, m: nat, i: Index, x: nat)
    requires |i| == |s|
    ensures Flat(s + [m], i + [x]) == Flat(s, i) * m + x
  {
    assert (s + [m])[..|s|] == s && (i + [x])[..|s|] == i;
  }

  lemma {:induction false} OnesProd(s: seq<nat>)
    requires forall i :: 0 <= i < |s| ==> s[i] == 1
    ensures Prod(s) == 1
  {
    if s != [] {
      OnesProd(s[..|s| - 1]);
    }
  }

  lemma {:induction false} ZerosFlat(s: seq<nat>, i: Index)
    requires |i| == |s| && (forall j :: 0 <= j < |s| ==> s[j] == 1 && i[j] == 0)
    ensures Flat(s, i) == 0
  {
    if s != [] {
      ZerosFlat(s[..|s| - 1], i[..|s| - 1]);
    }
  }

  /** Where the elements of one term lie. */
  lemma TermFlat(l: Lora, idx: Index, k: nat)
    requires Proper(l) && SharedA(l) && InBounds(Shape(l), idx) && k < Rank(l)
    ensures var n := |idx| - 1;
            var row := Flat(l.b.shape[..n], idx[..n]);
            Term(l, idx, k) == FlatTerm(l.b.data, l.a.data, Rank(l), Columns(l), row, idx[n], k)
  {
    BFlat(l, idx, k);
    AFlat(l, idx, k);
  }

  lemma BFlat(l: Lora, idx: Index, k: nat)
    requires Proper(l) && InBounds(Shape(l), idx) && k < Rank(l)
    ensures var n := |idx| - 1;
            InBounds(l.b.shape, BIndex(idx, k))
            && Flat(l.b.shape, BIndex(idx, k)) == Flat(l.b.shape[..n], idx[..n]) * Rank(l) + k < |l.b.data|
  {
    var n := |idx| - 1;
    forall i | 0 <= i < n ensures idx[i] < l.b.shape[i] {
      assert idx[i] < Shape(l)[i];
    }
    assert l.b.shape == l.b.shape[..n] + [Rank(l)];
    FlatSnoc(l.b.shape[..n], Rank(l), idx[..n], k);
    FlatUnflat(l.b.shape, BIndex(idx, k));
  }

  lemma AFlatPosition(l: Lora, idx: Index, k: nat, ia: Index)
    requires Proper(l) && SharedA(l) && InBounds(Shape(l), idx) && k < Rank(l) && ia == AIndex(l.a.shape, idx, k)
    ensures Flat(l.a.shape, ia) == k * Columns(l) + idx[|idx| - 1]
  {
    var n := |idx|;
    var s, z := l.a.shape[..n - 2], ia[..n - 2];
    assert l.a.shape[..n - 1] == s + [Rank(l)] && l.a.shape == l.a.shape[..n - 1] + [Columns(l)];
    assert ia[..n - 1] == z + [k] && ia == ia[..n - 1] + [idx[n - 1]];
    FlatSnoc(l.a.shape[..n - 1], Columns(l), ia[..n - 1], idx[n - 1]);
    FlatSnoc(s, Rank(l), z, k);
    ZerosFlat(s, z);
  }

  lemma AFlat(l: Lora, idx: Index, k: nat)
    requires Proper(l) && SharedA(l) && InBounds(Shape(l), idx) && k < Rank(l)
    ensures var ia := AIndex(l.a.shape, idx, k);
            InBounds(l.a.shape, ia) && Flat(l.a.shape, ia) == k * Columns(l) + idx[|idx| - 1]
    ensures k * Columns(l) + idx[|idx| - 1] < |l.a.data|
  {
    var ia := AIndex(l.a.shape, idx, k);
    assert idx[|idx| - 1] < Shape(l)[|idx| - 1];
    AFlatPosition(l, idx, k, ia);
    FlatUnflat(l.a.shape, ia);
  }

  lemma DenseFlat(l: Lora)
    requires Proper(l) && SharedA(l)
    ensures Dense(l).data
         == FlatDense(l.b.data, l.a.data, Prod(l.b.shape[..|l.b.shape| - 1]), Rank(l), Columns(l))
  {
    var n := |l.b.shape| - 1;
    var sb, c := l.b.shape[..n], Columns(l);
    ProdSnoc(sb, c);
    forall p | 0 <= p < Prod(Shape(l))
      ensures Dense(l).data[p] == FlatElement(l.b.data, l.a.data, Rank(l), c, p)
    {
      ElementFlat(l, p);
    }
  }

  lemma ElementFlat(l: Lora, p: nat)
    requires Proper(l) && SharedA(l) && p < Prod(Shape(l))
    ensures Dense(l).data[p] == FlatElement(l.b.data, l.a.data, Rank(l), Columns(l), p)
  {
    var n, c := |l.b.shape| - 1, Columns(l);
    var sb := l.b.shape[..n];
    var idx := Unflat(Shape(l), p);
    ProdSnoc(sb, c);
    QuotientBound(p, Prod(sb), c);
    assert Shape(l)[..n] == sb;
    assert idx[..n] == Unflat(sb, p / c) && idx[n] == p % c;
    UnflatFlat(sb, p / c);
    var f := (k: nat) => Term(l, idx, k);
    var g := (k: nat) => FlatTerm(l.b.data, l.a.data, Rank(l), c, p / c, p % c, k);
    forall k: nat | k < Rank(l) ensures f(k) == g(k) {
      TermFlat(l, idx, k);
    }
    SameSum(Rank(l), f, g);
  }
}
