/** Reshaping low-rank tensors commutes with their dense meaning. */
module LoraReshape {
  import opened Basics
  import opened Tensors
  import opened Lora
  import opened LoraShapes

  function ProdOfKnown(dims: seq<int>): int {
    if dims == [] then 1
    else ProdOfKnown(dims[..|dims| - 1]) * (if dims[|dims| - 1] == -1 then 1 else dims[|dims| - 1])
  }

  /** The target shape with every -1 filled in. Dimensions below -1 are refused by the tensor library. */
  function Expand(shape: seq<nat>, dims: seq<int>): (r: Option<seq<nat>>)
    ensures r.Some? ==> |r.value| == |dims|
  {
    if exists i :: 0 <= i < |dims| && dims[i] < -1 then None
    else if -1 in dims then
      var known := ProdOfKnown(dims);
      if known <= 0 || Prod(shape) % known != 0 then None
      else
        var fill: nat := Prod(shape) / known;
        Some(seq(|dims|, i requires 0 <= i < |dims| => if dims[i] == -1 then fill else dims[i]))
    else Some(seq(|dims|, i requires 0 <= i < |dims| => dims[i]))
  }

  function Ones(n: nat): (r: seq<nat>)
    ensures |r| == n && forall i :: 0 <= i < n ==> r[i] == 1
  {
    seq(n, i => 1)
  }

  function Reshape(l: Lora, dims: seq<int>): Option<Lora>
    requires Proper(l)
  {
    if |dims| < 2 then None
    else match Expand(Shape(l), dims)
      case None => None
      case Some(s) =>
        var n := |s| - 1;
        if s[n] != Columns(l) then None
        else
          var sa, sb := Ones(n - 1) + [Rank(l), Columns(l)], s[..n] + [Rank(l)];
          if Prod(sa) != |l.a.data| || Prod(sb) != |l.b.data| then None
          else Some(Lora(Tensor(sa, l.a.data), Tensor(sb, l.b.data)))
  }

  /** How many entries are left to be filled in. */
  function Unknowns(dims: seq<int>): nat {
    if dims == [] then 0 else Unknowns(dims[..|dims| - 1]) + if dims[|dims| - 1] == -1 then 1 else 0
  }

  function Resized(t: Tensor, s: seq<nat>): Option<Tensor> {
    if Prod(s) != |t.data| then None else Some(Tensor(s, t.data))
  }

  /** A tensor fills in one entry at most. */
  function ReshapeDense(t: Tensor, dims: seq<int>): Option<Tensor>
    requires Valid(t)
  {
    if Unknowns(dims) > 1 then None
    else
      match Expand(t.shape, dims)
      case None => None
      case Some(s) => Resized(t, s)
  }

  lemma Cancel(a: nat, b: nat, m: nat)
    requires a * m == b * m && m > 0
    ensures a == b
  {
    assert (a - b) * m == 0;
    SmallMultiple(a - b, m);
  }

  lemma SharedAData(l: Lora)
    requires Proper(l) && SharedA(l)
    ensures |l.a.data| == Rank(l) * Columns(l)
    ensures Prod(Ones(|l.a.shape| - 2) + [Rank(l), Columns(l)]) == Rank(l) * Columns(l)
  {
    var n := |l.a.shape|;
    AData(l.a.shape[..n - 2], Rank(l), Columns(l));
    assert l.a.shape == l.a.shape[..n - 2] + [Rank(l), Columns(l)];
    AData(Ones(n - 2), Rank(l), Columns(l));
  }

  lemma One(p: nat, r: nat)
    requires p == 1
    ensures p * r == r
  {
  }

  lemma ProdOnes(ones: seq<nat>, r: nat)
    requires forall i :: 0 <= i < |ones| ==> ones[i] == 1
    ensures Prod(ones + [r]) == r
  {
    OnesProd(ones);
    ProdSnoc(ones, r);
    One(Prod(ones), r);
  }

  lemma AData(ones: seq<nat>, r: nat, c: nat)
    requires forall i :: 0 <= i < |ones| ==> ones[i] == 1
    ensures Prod(ones + [r, c]) == r * c
  {
    ProdOnes(ones, r);
    ProdSnoc(ones + [r], c);
    assert ones + [r] + [c] == ones + [r, c];
  }

  /** The reshaped pair is proper, shares its A, and has the reshaped shape. */
  lemma ReshapedProper(l: Lora, dims: seq<int>)
    requires Proper(l) && Reshape(l, dims).Some?
    ensures var l' := Reshape(l, dims).value;
            && Proper(l') && SharedA(l') && Rank(l') == Rank(l) && Columns(l') == Columns(l)
            && Shape(l') == Expand(Shape(l), dims).value
  {
    var s, l' := Expand(Shape(l), dims).value, Reshape(l, dims).value;
    var n := |s| - 1;
    assert l'.b.shape[..n] == s[..n];
    assert s[..n] + [s[n]] == s;
  }

  lemma RowsKept(l: Lora, dims: seq<int>)
    requires Proper(l) && SharedA(l) && Reshape(l, dims).Some?
    ensures var l' := Reshape(l, dims).value;
            var rows, rows' := Prod(l.b.shape[..|l.b.shape| - 1]), Prod(l'.b.shape[..|l'.b.shape| - 1]);
            && rows * Rank(l) == rows' * Rank(l)
            && Prod(Shape(l)) == rows * Columns(l)
            && Prod(Expand(Shape(l), dims).value) == rows' * Columns(l)
  {
    var l' := Reshape(l, dims).value;
    ReshapedProper(l, dims);
    var sb, sb' := l.b.shape[..|l.b.shape| - 1], l'.b.shape[..|l'.b.shape| - 1];
    ProdSnoc(sb, Rank(l));
    ProdSnoc(sb', Rank(l));
    ProdSnoc(sb, Columns(l));
    ProdSnoc(sb', Columns(l));
    assert l.b.shape == sb + [Rank(l)] && l'.b.shape == sb' + [Rank(l)];
  }

  /** Reshaping the pair is giving the dense tensor the shape filled in; only for rank 0 can that have another
      size. A tensor given the same entries does the same, or refuses them where several are left open. */
  lemma ReshapeCommutes(l: Lora, dims: seq<int>, s: seq<nat>)
    requires Proper(l) && SharedA(l) && Reshape(l, dims).Some? && Expand(Shape(l), dims) == Some(s)
    ensures Proper(Reshape(l, dims).value)
    ensures Rank(l) > 0 ==> Resized(Dense(l), s).Some?
    ensures Resized(Dense(l), s).Some? ==> Resized(Dense(l), s) == Some(Dense(Reshape(l, dims).value))
    ensures ReshapeDense(Dense(l), dims) == if Unknowns(dims) > 1 then None else Resized(Dense(l), s)
  {
    var l' := Reshape(l, dims).value;
    var c := Columns(l);
    ReshapedProper(l, dims);
    RowsKept(l, dims);
    var rows, rows' := Prod(l.b.shape[..|l.b.shape| - 1]), Prod(l'.b.shape[..|l'.b.shape| - 1]);
    if Rank(l) > 0 {
      Cancel(rows, rows', Rank(l));
    }
    DenseFlat(l);
    DenseFlat(l');
    if Resized(Dense(l), s).Some? {
      assert rows * c == rows' * c;
      if c > 0 {
        Cancel(rows, rows', c);
      }
      SameFlat(l.b.data, l.a.data, rows, rows', Rank(l), c);
    }
  }

  lemma SameFlat(b: seq<real>, a: seq<real>, rows: nat, rows': nat, rank: nat, c: nat)
    requires rows * c == rows' * c
    ensures FlatDense(b, a, rows, rank, c) == FlatDense(b, a, rows', rank, c)
  {
  }

  /** The pair accepts exactly the shapes of at least two axes that keep the row length and, unless its rank
      is 0, the number of rows. */
  lemma ReshapeAccepts(l: Lora, dims: seq<int>)
    requires Proper(l) && SharedA(l)
    ensures Reshape(l, dims).Some?
       <==> |dims| >= 2 && Expand(Shape(l), dims).Some? && Expand(Shape(l), dims).value[|dims| - 1] == Columns(l)
            && (Rank(l) == 0 || Prod(Expand(Shape(l), dims).value[..|dims| - 1]) == Prod(l.b.shape[..|l.b.shape| - 1]))
  {
    if |dims| >= 2 && Expand(Shape(l), dims).Some? {
      RowsAccepted(l, dims, Expand(Shape(l), dims).value, l.b.shape[..|l.b.shape| - 1]);
    }
  }

  lemma RowsAccepted(l: Lora, dims: seq<int>, s: seq<nat>, sb: seq<nat>)
    requires Proper(l) && SharedA(l) && |dims| >= 2 && Expand(Shape(l), dims) == Some(s) && sb == l.b.shape[..|l.b.shape| - 1]
    ensures Reshape(l, dims).Some?
       <==> s[|s| - 1] == Columns(l) && (Rank(l) == 0 || Prod(s[..|s| - 1]) == Prod(sb))
  {
    hide Prod, Expand, ProdOfKnown;
    var n := |s| - 1;
    SharedAData(l);
    AData(Ones(n - 1), Rank(l), Columns(l));
    ProdSnoc(s[..n], Rank(l));
    ProdSnoc(sb, Rank(l));
    assert l.b.shape == sb + [Rank(l)];
    if Rank(l) > 0 && Prod(s[..n]) * Rank(l) == Prod(sb) * Rank(l) {
      Cancel(Prod(s[..n]), Prod(sb), Rank(l));
    }
  }

  /** Where there are rank and columns, these are the shapes that keep the row length and that the dense tensor
      can have; given entries of which one at most is left open, the pair accepts what the tensor accepts. */
  lemma ReshapeAgrees(l: Lora, dims: seq<int>)
    requires Proper(l) && SharedA(l) && Rank(l) > 0 && Columns(l) > 0
    ensures Reshape(l, dims).Some?
       <==> |dims| >= 2 && Expand(Shape(l), dims).Some? && Expand(Shape(l), dims).value[|dims| - 1] == Columns(l)
            && Prod(Expand(Shape(l), dims).value) == Prod(Shape(l))
    ensures Unknowns(dims) <= 1 ==>
      (Reshape(l, dims).Some?
       <==> |dims| >= 2 && ReshapeDense(Dense(l), dims).Some? && Expand(Shape(l), dims).value[|dims| - 1] == Columns(l))
  {
    if |dims| >= 2 && Expand(Shape(l), dims).Some? {
      SizeAccepted(l, dims, Expand(Shape(l), dims).value, l.b.shape[..|l.b.shape| - 1]);
    }
  }

  lemma SizeAccepted(l: Lora, dims: seq<int>, s: seq<nat>, sb: seq<nat>)
    requires Proper(l) && SharedA(l) && Rank(l) > 0 && Columns(l) > 0
    requires |dims| >= 2 && Expand(Shape(l), dims) == Some(s) && sb == l.b.shape[..|l.b.shape| - 1]
    ensures Reshape(l, dims).Some? <==> s[|s| - 1] == Columns(l) && Prod(s) == Prod(Shape(l))
  {
    var n := |s| - 1;
    RowsAccepted(l, dims, s, sb);
    ProdSnoc(sb, Columns(l));
    if s[n] == Columns(l) {
      ProdSnoc(s[..n], Columns(l));
      assert s == s[..n] + [Columns(l)];
      if Prod(s) == Prod(Shape(l)) {
        Cancel(Prod(s[..n]), Prod(sb), Columns(l));
      }
    }
  }

  // ---------------------------------------------------------------------
  // Several entries left open

  function Power(x: nat, n: nat): nat {
    if n == 0 then 1 else Power(x, n - 1) * x
  }

  function Fill(dims: seq<int>, fill: nat): (r: seq<nat>)
    requires forall i :: 0 <= i < |dims| ==> dims[i] >= -1
    ensures |r| == |dims| && forall i :: 0 <= i < |dims| ==> r[i] == if dims[i] == -1 then fill else dims[i]
  {
    seq(|dims|, i requires 0 <= i < |dims| => if dims[i] == -1 then fill else dims[i])
  }

  lemma {:induction false} ProdFilled(dims: seq<int>, fill: nat)
    requires forall i :: 0 <= i < |dims| ==> dims[i] >= -1
    ensures Prod(Fill(dims, fill)) == ProdOfKnown(dims) * Power(fill, Unknowns(dims))
    decreases |dims|
  {
    if dims != [] {
      var n := |dims| - 1;
      var d, k, q := dims[n], ProdOfKnown(dims[..n]), Power(fill, Unknowns(dims[..n]));
      ProdFilled(dims[..n], fill);
      ProdSnoc(Fill(dims[..n], fill), if d == -1 then fill else d);
      assert Fill(dims, fill) == Fill(dims[..n], fill) + [if d == -1 then fill else d];
      Factors(k, q, if d == -1 then fill else d);
    }
  }

  lemma Factors(k: int, q: int, x: int)
    ensures k * q * x == k * x * q && k * q * x == k * (q * x)
  {
  }

  lemma {:induction false} PowerLarge(x: nat, n: nat)
    requires x > 1 && n > 1
    ensures Power(x, n) > x
    decreases n
  {
    if n > 2 {
      PowerLarge(x, n - 1);
      MulMono(2, Power(x, n - 1), x);
    } else {
      assert Power(x, 2) == Power(x, 1) * x == x * x;
      MulMono(2, x, x);
    }
  }

  lemma {:induction false} PowerSmall(x: nat, n: nat)
    requires x <= 1 && n > 0
    ensures Power(x, n) == x
    decreases n
  {
    if n > 1 {
      PowerSmall(x, n - 1);
    } else {
      assert Power(x, 0) == 1;
    }
  }

  lemma Divided(size: nat, known: nat, fill: nat)
    requires known > 0 && size % known == 0 && fill == size / known
    ensures size == known * fill && (fill == 0 <==> size == 0) && (fill == 1 <==> known == size)
  {
    if known == size {
      Cancel(fill, 1, known);
    }
  }

  /** The sizes agree when each open entry is 0 or 1. */
  lemma SizesAgree(size: nat, known: nat, fill: nat, u: nat)
    requires known > 0 && size == known * fill && u > 1
    ensures known * Power(fill, u) == size <==> fill <= 1
  {
    if fill <= 1 {
      PowerSmall(fill, u);
    } else {
      PowerLarge(fill, u);
      if known * Power(fill, u) == size {
        Cancel(Power(fill, u), fill, known);
      }
    }
  }

  lemma ExpandFill(shape: seq<nat>, dims: seq<int>, s: seq<nat>, known: nat)
    requires Expand(shape, dims) == Some(s) && Unknowns(dims) > 0 && known == ProdOfKnown(dims)
    ensures known > 0 && Prod(shape) % known == 0 && s == Fill(dims, Prod(shape) / known)
  {
    if -1 !in dims {
      NoUnknowns(dims);
    }
  }

  lemma {:induction false} NoUnknowns(dims: seq<int>)
    requires -1 !in dims
    ensures Unknowns(dims) == 0
  {
    if dims != [] {
      NoUnknowns(dims[..|dims| - 1]);
    }
  }

  /** Of the entries with several left open, all of which a tensor refuses, the pair accepts exactly those that are
      complete without them, so that each is filled in with 1, or that make the tensor empty. */
  lemma SeveralUnknown(l: Lora, dims: seq<int>, known: int)
    requires Proper(l) && SharedA(l) && Rank(l) > 0 && Columns(l) > 0 && Unknowns(dims) > 1 && known == ProdOfKnown(dims)
    ensures ReshapeDense(Dense(l), dims).None?
    ensures Reshape(l, dims).Some?
       <==> |dims| >= 2 && Expand(Shape(l), dims).Some? && Expand(Shape(l), dims).value[|dims| - 1] == Columns(l)
            && (known == Prod(Shape(l)) || Prod(Shape(l)) == 0)
  {
    ReshapeAgrees(l, dims);
    if Expand(Shape(l), dims).Some? {
      SeveralSize(Shape(l), dims, Expand(Shape(l), dims).value, known);
    }
  }

  lemma SeveralSize(shape: seq<nat>, dims: seq<int>, s: seq<nat>, known: int)
    requires Expand(shape, dims) == Some(s) && Unknowns(dims) > 1 && known == ProdOfKnown(dims)
    ensures Prod(s) == Prod(shape) <==> known == Prod(shape) || Prod(shape) == 0
  {
    if known > 0 {
      var k: nat := known;
      ExpandFill(shape, dims, s, k);
      var fill: nat := Prod(shape) / k;
      ProdFilled(dims, fill);
      Divided(Prod(shape), k, fill);
      SizesAgree(Prod(shape), k, fill, Unknowns(dims));
    } else {
      ExpandKnown(shape, dims);
    }
  }

  lemma ExpandKnown(shape: seq<nat>, dims: seq<int>)
    requires Unknowns(dims) > 0 && ProdOfKnown(dims) <= 0
    ensures Expand(shape, dims).None?
  {
    if -1 !in dims {
      NoUnknowns(dims);
    }
  }

  lemma OneMore(ds: seq<int>, d: int)
    ensures Unknowns(ds + [d]) == Unknowns(ds) + if d == -1 then 1 else 0
    ensures ProdOfKnown(ds + [d]) == ProdOfKnown(ds) * if d == -1 then 1 else d
  {
    assert (ds + [d])[..|ds|] == ds;
  }

  lemma TwoOpen(c: int)
    requires c > 0
    ensures Unknowns([-1, -1, c]) == 2 && ProdOfKnown([-1, -1, c]) == c
  {
    OneMore([], -1);
    OneMore([-1], -1);
    OneMore([-1, -1], c);
    assert [] + [-1] == [-1] && [-1] + [-1] == [-1, -1] && [-1, -1] + [c] == [-1, -1, c];
  }

  /** A pair of one row takes two open entries in front of its columns. */
  lemma TwoUnknown(l: Lora, c: int)
    requires Matrix(l) && l.b.shape[0] == 1 && Rank(l) > 0 && c == Columns(l) > 0
    ensures Reshape(l, [-1, -1, c]).Some? && ReshapeDense(Dense(l), [-1, -1, c]).None?
  {
    hide Reshape, Dense, Unknowns, ProdOfKnown;
    var dims := [-1, -1, c];
    TwoOpen(c);
    ProdOnes([1], c);
    assert Shape(l) == [1] + [c];
    SeveralUnknown(l, dims, c);
    assert dims[0] == -1 && dims[2] == c;
  }
}
