/** Stacking pairs, and concatenating pairs of more than two axes. */
module LoraStack {
  import opened Basics
  import opened Tensors
  import opened Lora
  import opened LoraParts
  import opened LoraCat
  import opened LoraIndex
  import opened LoraItems
  import opened LoraKeys
  import opened LoraGetItem

  // ---------------------------------------------------------------------
  // Entries of the first axis

  function Stack(ts: seq<Tensor>, shape: seq<nat>): Tensor {
    Tensor([|ts|] + shape, ConcatData(ts))
  }

  /** Entry `i` of the first axis. */
  function Item(t: Tensor, i: nat): Option<Tensor> {
    var w := if t.shape == [] then 0 else Prod(t.shape[1..]);
    if t.shape == [] || i >= t.shape[0] || (i + 1) * w > |t.data| then None
    else
      MulMono(i, i + 1, w);
      Some(Tensor(t.shape[1..], t.data[i * w..(i + 1) * w]))
  }

  lemma {:induction false} ConcatUniform(ts: seq<Tensor>, w: nat)
    requires forall j :: 0 <= j < |ts| ==> |ts[j].data| == w
    ensures |ConcatData(ts)| == |ts| * w
    decreases |ts|
  {
    if ts != [] {
      ConcatUniform(ts[..|ts| - 1], w);
      assert |ts| * w == (|ts| - 1) * w + w;
    }
  }

  /** Where the data of one tensor lies. */
  lemma {:induction false} ConcatSlice(ts: seq<Tensor>, i: nat, x: nat)
    requires i < |ts| && x == |ConcatData(ts[..i])|
    ensures x + |ts[i].data| <= |ConcatData(ts)|
    ensures ConcatData(ts)[x..x + |ts[i].data|] == ts[i].data
    decreases |ts|
  {
    var n := |ts| - 1;
    var head, y := ConcatData(ts[..n]), x + |ts[i].data|;
    assert ConcatData(ts) == head + ts[n].data;
    if i < n {
      assert ts[..n][..i] == ts[..i];
      ConcatSlice(ts[..n], i, x);
      assert (head + ts[n].data)[x..y] == head[x..y];
    } else {
      assert (head + ts[n].data)[x..y] == ts[n].data;
    }
  }

  lemma StackedData(ts: seq<Tensor>, w: nat, i: nat)
    requires (forall j :: 0 <= j < |ts| ==> |ts[j].data| == w) && i < |ts|
    ensures i * w <= (i + 1) * w <= |ConcatData(ts)|
    ensures ConcatData(ts)[i * w..(i + 1) * w] == ts[i].data
  {
    ConcatUniform(ts[..i], w);
    ConcatSlice(ts, i, i * w);
    assert (i + 1) * w == i * w + w;
  }

  /** Indexing a stack of tensors of one shape gives each of them back. */
  lemma ItemOfStack(ts: seq<Tensor>, shape: seq<nat>, i: nat)
    requires i < |ts| && forall j :: 0 <= j < |ts| ==> Valid(ts[j]) && ts[j].shape == shape
    ensures Item(Stack(ts, shape), i) == Some(ts[i])
  {
    StackedData(ts, Prod(shape), i);
    assert ([|ts|] + shape)[1..] == shape;
  }

  function As(ls: seq<Lora>): (r: seq<Tensor>)
    ensures |r| == |ls| && forall i :: 0 <= i < |ls| ==> r[i] == ls[i].a
  {
    seq(|ls|, i requires 0 <= i < |ls| => ls[i].a)
  }

  lemma MulSplit(a: nat, b: nat, n: nat)
    ensures (a + b) * n == a * n + b * n
  {
  }

  lemma {:induction false} ProdCons(m: nat, shape: seq<nat>)
    ensures Prod([m] + shape) == m * Prod(shape)
  {
    var all := [m] + shape;
    if shape == [] {
      assert all[..0] == [];
      assert Prod(all) == Prod(all[..0]) * m;
    } else {
      var k := |shape| - 1;
      ProdCons(m, shape[..k]);
      assert all[..|all| - 1] == [m] + shape[..k];
      MulAssoc(m, Prod(shape[..k]), shape[k]);
    }
  }

  lemma MulAssoc(a: nat, b: nat, c: nat)
    ensures a * b * c == a * (b * c)
  {
  }

  /** The first axis is the slowest. */
  lemma {:induction false} FlatCons(m: nat, shape: seq<nat>, i: nat, idx: Index)
    requires |idx| == |shape|
    ensures Flat([m] + shape, [i] + idx) == i * Prod(shape) + Flat(shape, idx)
  {
    var all, ix := [m] + shape, [i] + idx;
    if shape == [] {
      assert all[..0] == [] && ix[..0] == [];
      assert Flat(all, ix) == Flat(all[..0], ix[..0]) * m + i;
    } else {
      var k := |shape| - 1;
      FlatCons(m, shape[..k], i, idx[..k]);
      assert all[..|all| - 1] == [m] + shape[..k] && ix[..|ix| - 1] == [i] + idx[..k];
      FlatStep(i, Prod(shape[..k]), Flat(shape[..k], idx[..k]), shape[k]);
    }
  }

  lemma FlatStep(i: nat, p: nat, f: nat, n: nat)
    ensures (i * p + f) * n == i * (p * n) + f * n
  {
    MulSplit(i * p, f, n);
    MulAssoc(i, p, n);
  }

  /** One entry of the first axis and all of the others. */
  function PickFirst(i: nat, shape: seq<nat>): seq<Sel> {
    if shape == [] then [Pick(i)] else PickFirst(i, shape[..|shape| - 1]) + [Keep(Range(0, shape[|shape| - 1]))]
  }

  lemma {:induction false} PickShape(i: nat, shape: seq<nat>)
    ensures OutShape(PickFirst(i, shape)) == shape
  {
    if shape == [] {
      OutShapeSnoc([], Pick(i));
      assert [] + [Pick(i)] == [Pick(i)];
    } else {
      var k := |shape| - 1;
      PickShape(i, shape[..k]);
      OutShapeSnoc(PickFirst(i, shape[..k]), Keep(Range(0, shape[k])));
    }
  }

  lemma {:induction false} PickSource(i: nat, shape: seq<nat>, idx: Index)
    requires InBounds(shape, idx)
    ensures Source(PickFirst(i, shape), idx) == [i] + idx
    decreases |shape|
  {
    if shape == [] {
      assert Source([Pick(i)][..0], idx) == [];
    } else {
      var k := |shape| - 1;
      PickSource(i, shape[..k], idx[..k]);
      SourceSnoc(PickFirst(i, shape[..k]), Range(0, shape[k]), idx[..k], idx[k]);
      assert idx == idx[..k] + [idx[k]];
    }
  }

  /** The position that an integer names. */
  function Normal(i: int, m: nat): int {
    if i < 0 then i + m else i
  }

  lemma {:induction false} PickSelected(i: int, m: nat, shape: seq<nat>)
    requires 0 <= Normal(i, m) < m
    ensures ResolveAll([Int(i)] + Fulls(|shape|), [m] + shape) == Some(PickFirst(Normal(i, m), shape))
  {
    if shape == [] {
      ResolveSnoc([], Int(i), [], m);
      assert [] + [Int(i)] == [Int(i)] + Fulls(0) && [] + [m] == [m] + shape;
      assert ResolveAll([], []) == Some([]) && [] + [Pick(Normal(i, m))] == [Pick(Normal(i, m))];
    } else {
      var k := |shape| - 1;
      PickSelected(i, m, shape[..k]);
      ResolveSnoc([Int(i)] + Fulls(k), FULL, [m] + shape[..k], shape[k]);
      ResolveFull(shape[k]);
      assert [Int(i)] + Fulls(k) + [FULL] == [Int(i)] + Fulls(k + 1) && [m] + shape[..k] + [shape[k]] == [m] + shape;
    }
  }

  /** Where entry `i` ends: `x == i * w` and `y == (i + 1) * w`. */
  lemma EntryBounds(i: nat, m: nat, w: nat, x: nat, y: nat)
    requires i < m && x == i * w && y == (i + 1) * w
    ensures x <= y <= m * w && y == x + w
  {
    MulMono(i + 1, m, w);
    MulSplit(i, 1, w);
  }

  lemma ItemIs(t: Tensor, i: nat, m: nat, shape: seq<nat>, w: nat, x: nat, y: nat)
    requires t.shape == [m] + shape && i < m && w == Prod(shape) && x == i * w && y == (i + 1) * w && x <= y <= |t.data|
    ensures Item(t, i) == Some(Tensor(shape, t.data[x..y]))
  {
    assert t.shape[1..] == shape;
  }

  lemma ItemValid(t: Tensor, i: nat, m: nat, shape: seq<nat>)
    requires Valid(t) && t.shape == [m] + shape && i < m
    ensures Item(t, i).Some? && Valid(Item(t, i).value) && Item(t, i).value.shape == shape
    ensures i * Prod(shape) <= (i + 1) * Prod(shape) <= |t.data|
    ensures Item(t, i).value.data == t.data[i * Prod(shape)..(i + 1) * Prod(shape)]
  {
    var w := Prod(shape);
    ProdCons(m, shape);
    EntryBounds(i, m, w, i * w, (i + 1) * w);
    ItemIs(t, i, m, shape, w, i * w, (i + 1) * w);
  }

  lemma AtIs(t: Tensor, shape: seq<nat>, idx: Index, p: nat)
    requires Valid(t) && t.shape == shape && InBounds(shape, idx) && p == Flat(shape, idx)
    ensures p < |t.data| && At(t, idx) == t.data[p]
  {
    FlatUnflat(shape, idx);
  }

  lemma ConsBounds(m: nat, shape: seq<nat>, i: nat, idx: Index)
    requires i < m && InBounds(shape, idx)
    ensures InBounds([m] + shape, [i] + idx)
  {
  }

  lemma SliceAt(d: seq<real>, x: nat, y: nat, z: nat)
    requires x <= y <= |d| && x + z < y
    ensures d[x..y][z] == d[x + z]
  {
  }

  lemma ItemAt(t: Tensor, r: Tensor, i: nat, m: nat, shape: seq<nat>, idx: Index)
    requires Valid(t) && t.shape == [m] + shape && i < m && InBounds(shape, idx) && Item(t, i) == Some(r)
    ensures Valid(r) && At(r, idx) == At(t, [i] + idx)
  {
    hide At, Item;
    var w, p := Prod(shape), Flat(shape, idx);
    ItemValid(t, i, m, shape);
    FlatCons(m, shape, i, idx);
    AtIs(r, shape, idx, p);
    ConsBounds(m, shape, i, idx);
    AtIs(t, [m] + shape, [i] + idx, i * w + p);
    SliceAt(t.data, i * w, (i + 1) * w, p);
  }

  /** An integer index takes an entry of the first axis. */
  lemma ItemIndex(t: Tensor, r: Tensor, i: nat, m: nat, shape: seq<nat>)
    requires Valid(t) && t.shape == [m] + shape && i < m && Item(t, i) == Some(r)
    ensures Valid(r) && r == IndexTensor(t, PickFirst(i, shape))
  {
    ItemValid(t, i, m, shape);
    PickShape(i, shape);
    forall idx | InBounds(shape, idx) ensures At(r, idx) == At(t, Source(PickFirst(i, shape), idx)) {
      ItemAt(t, r, i, m, shape, idx);
      PickSource(i, shape, idx);
    }
    IndexIs(t, r, PickFirst(i, shape));
  }

  lemma IntPadded(i: int, k: nat)
    ensures Padded([Int(i)], k + 1) == [Int(i)] + Fulls(k)
  {
  }

  lemma IntIndex(t: Tensor, i: int, m: nat, shape: seq<nat>)
    requires Valid(t) && t.shape == [m] + shape && 0 <= Normal(i, m) < m
    ensures IndexDense(t, [Int(i)]) == Item(t, Normal(i, m))
  {
    IntPadded(i, |shape|);
    PickSelected(i, m, shape);
    ItemValid(t, Normal(i, m), m, shape);
    ItemIndex(t, Item(t, Normal(i, m)).value, Normal(i, m), m, shape);
  }

  // ---------------------------------------------------------------------
  // Stacking

  function StackLora(ls: seq<Lora>): Lora
    requires ls != []
  {
    Lora(Stack(As(ls), ls[0].a.shape), Stack(Bs(ls), ls[0].b.shape))
  }

  /** Pairs of one shape. */
  predicate OneShape(ls: seq<Lora>) {
    ls != [] && forall j :: 0 <= j < |ls| ==>
      Proper(ls[j]) && ls[j].a.shape == ls[0].a.shape && ls[j].b.shape == ls[0].b.shape
  }

  lemma StackValid(ts: seq<Tensor>, shape: seq<nat>)
    requires forall j :: 0 <= j < |ts| ==> Valid(ts[j]) && ts[j].shape == shape
    ensures Valid(Stack(ts, shape))
  {
    ConcatUniform(ts, Prod(shape));
    ProdCons(|ts|, shape);
  }

  lemma StackProper(ls: seq<Lora>)
    requires OneShape(ls)
    ensures Proper(StackLora(ls))
  {
    StackValid(As(ls), ls[0].a.shape);
    StackValid(Bs(ls), ls[0].b.shape);
    ConsProper(ls[0], StackLora(ls), |ls|);
  }

  lemma ConsProper(l: Lora, r: Lora, m: nat)
    requires Proper(l) && Valid(r.a) && Valid(r.b) && r.a.shape == [m] + l.a.shape && r.b.shape == [m] + l.b.shape
    ensures Proper(r)
  {
  }

  lemma StackedItem(ts: seq<Tensor>, shape: seq<nat>, i: int)
    requires (forall j :: 0 <= j < |ts| ==> Valid(ts[j]) && ts[j].shape == shape) && 0 <= Normal(i, |ts|) < |ts|
    ensures Valid(Stack(ts, shape)) && IndexDense(Stack(ts, shape), [Int(i)]) == Some(ts[Normal(i, |ts|)])
  {
    StackValid(ts, shape);
    IntIndex(Stack(ts, shape), i, |ts|, shape);
    ItemOfStack(ts, shape, Normal(i, |ts|));
  }

  lemma MakeIs(a: Option<Tensor>, b: Option<Tensor>, m: Lora)
    requires a == Some(m.a) && b == Some(m.b) && Proper(m)
    ensures Make(a, b) == Some(m)
  {
  }

  lemma IntKeyIs(l: Lora, i: int, m: Lora)
    requires Proper(l) && |l.b.shape| > 2 && Proper(m)
    requires IndexDense(l.a, [Int(i)]) == Some(m.a) && IndexDense(l.b, [Int(i)]) == Some(m.b)
    ensures GetItem(l, IntKey(i)) == Some(m)
  {
    MakeIs(IndexDense(l.a, [Int(i)]), IndexDense(l.b, [Int(i)]), m);
  }

  lemma StackedIn(t: Tensor, ts: seq<Tensor>, shape: seq<nat>, i: int, u: Tensor)
    requires (forall j :: 0 <= j < |ts| ==> Valid(ts[j]) && ts[j].shape == shape) && 0 <= Normal(i, |ts|) < |ts|
    requires t == Stack(ts, shape) && u == ts[Normal(i, |ts|)]
    ensures Valid(t) && IndexDense(t, [Int(i)]) == Some(u)
  {
    StackedItem(ts, shape, i);
  }

  lemma StackedPairA(ls: seq<Lora>, i: int, s: Lora, m: Lora)
    requires OneShape(ls) && 0 <= Normal(i, |ls|) < |ls| && s == StackLora(ls) && m == ls[Normal(i, |ls|)]
    ensures Valid(s.a) && IndexDense(s.a, [Int(i)]) == Some(m.a)
  {
    StackedIn(s.a, As(ls), ls[0].a.shape, i, m.a);
  }

  lemma StackedPairB(ls: seq<Lora>, i: int, s: Lora, m: Lora)
    requires OneShape(ls) && 0 <= Normal(i, |ls|) < |ls| && s == StackLora(ls) && m == ls[Normal(i, |ls|)]
    ensures Valid(s.b) && IndexDense(s.b, [Int(i)]) == Some(m.b)
  {
    StackedIn(s.b, Bs(ls), ls[0].b.shape, i, m.b);
  }

  lemma StackShape(ls: seq<Lora>)
    requires OneShape(ls)
    ensures |StackLora(ls).b.shape| > 2
  {
  }

  /** Indexing a stack of pairs gives back each member, counted from either end. */
  lemma StackReturnsMembers(ls: seq<Lora>, i: int, s: Lora, m: Lora)
    requires OneShape(ls) && -|ls| <= i < |ls| && s == StackLora(ls) && m == ls[if i < 0 then |ls| + i else i]
    ensures Proper(s) && GetItem(s, IntKey(i)) == Some(m)
  {
    StackProper(ls);
    StackShape(ls);
    StackedPairA(ls, i, s, m);
    StackedPairB(ls, i, s, m);
    IntKeyIs(s, i, m);
  }

  // ---------------------------------------------------------------------
  // Concatenating along the first axis

  /** The lengths of the first axes together. */
  function Lengths(ts: seq<Tensor>): nat
    requires forall j :: 0 <= j < |ts| ==> ts[j].shape != []
  {
    if ts == [] then 0 else Lengths(ts[..|ts| - 1]) + ts[|ts| - 1].shape[0]
  }

  /** Tensors that differ in the first axis only. */
  predicate Alike(ts: seq<Tensor>, shape: seq<nat>) {
    forall j :: 0 <= j < |ts| ==> Valid(ts[j]) && ts[j].shape != [] && ts[j].shape == [ts[j].shape[0]] + shape
  }

  function CatFirst(ts: seq<Tensor>, shape: seq<nat>): Tensor
    requires Alike(ts, shape)
  {
    Tensor([Lengths(ts)] + shape, ConcatData(ts))
  }

  lemma {:induction false} CatData(ts: seq<Tensor>, shape: seq<nat>)
    requires Alike(ts, shape)
    ensures |ConcatData(ts)| == Lengths(ts) * Prod(shape)
  {
    if ts != [] {
      var k := |ts| - 1;
      CatData(ts[..k], shape);
      ProdCons(ts[k].shape[0], shape);
      MulSplit(Lengths(ts[..k]), ts[k].shape[0], Prod(shape));
    }
  }

  lemma CatValid(ts: seq<Tensor>, shape: seq<nat>)
    requires Alike(ts, shape)
    ensures Valid(CatFirst(ts, shape))
  {
    CatData(ts, shape);
    ProdCons(Lengths(ts), shape);
  }

  /** Entry `p` of the concatenation is entry `q` of tensor `i`. */
  predicate Locates(ts: seq<Tensor>, p: nat, i: nat, q: nat)
    requires forall j :: 0 <= j < |ts| ==> ts[j].shape != []
  {
    i < |ts| && q < ts[i].shape[0] && p == Lengths(ts[..i]) + q
  }

  lemma {:induction false} Locate(ts: seq<Tensor>, p: nat) returns (i: nat, q: nat)
    requires (forall j :: 0 <= j < |ts| ==> ts[j].shape != []) && p < Lengths(ts)
    ensures Locates(ts, p, i, q)
    decreases |ts|
  {
    var k := |ts| - 1;
    if p < Lengths(ts[..k]) {
      i, q := Locate(ts[..k], p);
      assert ts[..k][..i] == ts[..i];
    } else {
      i, q := k, p - Lengths(ts[..k]);
    }
  }

  lemma CatSlice(ts: seq<Tensor>, shape: seq<nat>, w: nat, p: nat, i: nat, q: nat, x: nat, y: nat, x': nat, y': nat)
    requires Alike(ts, shape) && w == Prod(shape) && Locates(ts, p, i, q)
    requires x == q * w && y == (q + 1) * w && x' == p * w && y' == (p + 1) * w
    ensures x <= y <= |ts[i].data| && x' <= y' <= |ConcatData(ts)|
    ensures ConcatData(ts)[x'..y'] == ts[i].data[x..y]
  {
    hide Prod;
    var n := Lengths(ts[..i]);
    CatData(ts[..i], shape);
    ConcatSlice(ts, i, n * w);
    ProdCons(ts[i].shape[0], shape);
    EntryBounds(q, ts[i].shape[0], w, x, y);
    MulSplit(n, q, w);
    MulSplit(n, q + 1, w);
    SubSlice(ConcatData(ts), n * w, ts[i].data, x, y);
  }

  lemma SubSlice(d: seq<real>, x: nat, e: seq<real>, a: nat, b: nat)
    requires x + |e| <= |d| && d[x..x + |e|] == e && a <= b <= |e|
    ensures d[x + a..x + b] == e[a..b]
  {
    forall j | 0 <= j < b - a ensures d[x + a..x + b][j] == e[a..b][j] {
      SliceAt(d, x, x + |e|, a + j);
    }
  }

  lemma {:induction false} LocatedBelow(ts: seq<Tensor>, p: nat, i: nat, q: nat)
    requires (forall j :: 0 <= j < |ts| ==> ts[j].shape != []) && Locates(ts, p, i, q)
    ensures p < Lengths(ts)
    decreases |ts|
  {
    var k := |ts| - 1;
    if i < k {
      assert ts[..k][..i] == ts[..i];
      LocatedBelow(ts[..k], p, i, q);
    }
  }

  lemma CatItemIs(ts: seq<Tensor>, shape: seq<nat>, w: nat, p: nat, i: nat, q: nat, x: nat, y: nat, x': nat, y': nat)
    requires Alike(ts, shape) && w == Prod(shape) && i < |ts| && q < ts[i].shape[0] && p < Lengths(ts)
    requires x == q * w && y == (q + 1) * w && x' == p * w && y' == (p + 1) * w
    requires x <= y <= |ts[i].data| && x' <= y' <= |ConcatData(ts)| && ConcatData(ts)[x'..y'] == ts[i].data[x..y]
    ensures Item(CatFirst(ts, shape), p) == Item(ts[i], q)
  {
    ItemIs(CatFirst(ts, shape), p, Lengths(ts), shape, w, x', y');
    ItemIs(ts[i], q, ts[i].shape[0], shape, w, x, y);
  }

  lemma ItemOfCatAt(ts: seq<Tensor>, shape: seq<nat>, w: nat, p: nat, i: nat, q: nat, x: nat, y: nat, x': nat, y': nat)
    requires Alike(ts, shape) && w == Prod(shape) && Locates(ts, p, i, q)
    requires x == q * w && y == (q + 1) * w && x' == p * w && y' == (p + 1) * w
    ensures p < Lengths(ts) && Item(CatFirst(ts, shape), p) == Item(ts[i], q)
  {
    LocatedBelow(ts, p, i, q);
    CatSlice(ts, shape, w, p, i, q, x, y, x', y');
    CatItemIs(ts, shape, w, p, i, q, x, y, x', y');
  }

  lemma ItemOfCat(ts: seq<Tensor>, shape: seq<nat>, p: nat, i: nat, q: nat)
    requires Alike(ts, shape) && Locates(ts, p, i, q)
    ensures p < Lengths(ts) && Item(CatFirst(ts, shape), p) == Item(ts[i], q)
  {
    var w := Prod(shape);
    ItemOfCatAt(ts, shape, w, p, i, q, q * w, (q + 1) * w, p * w, (p + 1) * w);
  }

  lemma {:induction false} SameChunks(d: seq<real>, e: seq<real>, w: nat, n: nat)
    requires n * w <= |d| && n * w <= |e|
    requires forall p: nat :: p < n ==> Chunk(d, p, w) == Chunk(e, p, w)
    ensures d[..n * w] == e[..n * w]
  {
    if n > 0 {
      MulSplit(n - 1, 1, w);
      SameChunks(d, e, w, n - 1);
      assert Chunk(d, n - 1, w) == Chunk(e, n - 1, w);
      assert d[..n * w] == d[..(n - 1) * w] + d[(n - 1) * w..n * w];
      assert e[..n * w] == e[..(n - 1) * w] + e[(n - 1) * w..n * w];
    }
  }

  function Chunk(d: seq<real>, p: nat, w: nat): seq<real> {
    MulSplit(p, 1, w);
    if (p + 1) * w <= |d| then d[p * w..(p + 1) * w] else []
  }

  /** Tensors with the same entries of the first axis are the same. */
  lemma SameItems(t: Tensor, u: Tensor, m: nat, shape: seq<nat>)
    requires Valid(t) && Valid(u) && t.shape == u.shape == [m] + shape
    requires forall p: nat :: p < m ==> Item(t, p) == Item(u, p)
    ensures t == u
  {
    var w := Prod(shape);
    ProdCons(m, shape);
    forall p: nat | p < m ensures Chunk(t.data, p, w) == Chunk(u.data, p, w) {
      ItemValid(t, p, m, shape);
      ItemValid(u, p, m, shape);
    }
    SameChunks(t.data, u.data, w, m);
    assert t.data[..m * w] == t.data && u.data[..m * w] == u.data;
  }

  // ---------------------------------------------------------------------
  // Pairs of more than two axes

  /** Pairs that differ in the first axis only, of more than two axes. */
  predicate AlikePairs(ls: seq<Lora>, ra: seq<nat>, rb: seq<nat>) {
    && ls != [] && |rb| >= 2
    && (forall i :: 0 <= i < |ls| ==> Proper(ls[i]))
    && Alike(As(ls), ra) && Alike(Bs(ls), rb)
  }

  /** Both factors are concatenated. */
  function CatPairs(ls: seq<Lora>, ra: seq<nat>, rb: seq<nat>): Lora
    requires AlikePairs(ls, ra, rb)
  {
    Lora(CatFirst(As(ls), ra), CatFirst(Bs(ls), rb))
  }

  /** A has as many entries as B. */
  predicate SameLengths(ls: seq<Lora>) {
    forall i :: 0 <= i < |ls| ==>
      ls[i].a.shape != [] && ls[i].b.shape != [] && ls[i].a.shape[0] == ls[i].b.shape[0]
  }

  lemma PairShape(ls: seq<Lora>, ra: seq<nat>, rb: seq<nat>, i: nat)
    requires AlikePairs(ls, ra, rb) && i < |ls|
    ensures Proper(ls[i]) && |ls[i].b.shape| > 2 && |ra| == |rb|
    ensures ls[i].a.shape == [ls[i].a.shape[0]] + ra && ls[i].b.shape == [ls[i].b.shape[0]] + rb
    ensures ls[i].a.shape[0] == 1 || ls[i].a.shape[0] == ls[i].b.shape[0]
  {
    assert As(ls)[i] == ls[i].a && Bs(ls)[i] == ls[i].b;
  }

  lemma SameTail(a: seq<nat>, x: nat, b: seq<nat>, y: nat, rest: seq<nat>)
    requires a == [x] + rest && b == [y] + rest
    ensures a[0] == x && b[0] == y && |a| == |b| && forall i :: 0 < i < |a| ==> a[i] == b[i]
  {
  }

  lemma ReheadProper(l: Lora, r: Lora, m: nat, n: nat, ra: seq<nat>, rb: seq<nat>)
    requires Proper(l) && l.a.shape == [l.a.shape[0]] + ra && l.b.shape == [l.b.shape[0]] + rb && |rb| >= 2
    requires Valid(r.a) && Valid(r.b) && r.a.shape == [m] + ra && r.b.shape == [n] + rb
    ensures Proper(r) <==> m == 1 || m == n
  {
    SameTail(r.a.shape, m, l.a.shape, l.a.shape[0], ra);
    SameTail(r.b.shape, n, l.b.shape, l.b.shape[0], rb);
    var k := |r.b.shape|;
    if m == 1 || m == n {
      forall i | 0 <= i < k - 2 ensures r.a.shape[i] == 1 || r.a.shape[i] == r.b.shape[i] {
        if i > 0 {
          assert l.a.shape[i] == 1 || l.a.shape[i] == l.b.shape[i];
        }
      }
    }
    if Proper(r) {
      assert r.a.shape[0] == 1 || r.a.shape[0] == r.b.shape[0];
    }
  }

  lemma ReheadShape(l: Lora, r: Lora, m: nat, n: nat, ra: seq<nat>, rb: seq<nat>)
    requires Proper(l) && l.a.shape == [l.a.shape[0]] + ra && l.b.shape == [l.b.shape[0]] + rb && |rb| >= 2
    requires Proper(r) && r.a.shape == [m] + ra && r.b.shape == [n] + rb
    ensures Shape(r) == [n] + Shape(l)[1..]
  {
    SameTail(r.a.shape, m, l.a.shape, l.a.shape[0], ra);
    SameTail(r.b.shape, n, l.b.shape, l.b.shape[0], rb);
  }

  /** The concatenated factors are a pair exactly when the lengths of the A's are 1 or those of the B's,
      taken together. */
  lemma CatProper(ls: seq<Lora>, ra: seq<nat>, rb: seq<nat>)
    requires AlikePairs(ls, ra, rb)
    ensures Proper(CatPairs(ls, ra, rb)) <==> Lengths(As(ls)) == 1 || Lengths(As(ls)) == Lengths(Bs(ls))
    ensures Proper(CatPairs(ls, ra, rb)) ==> Shape(CatPairs(ls, ra, rb)) == [Lengths(Bs(ls))] + Shape(ls[0])[1..]
  {
    CatValid(As(ls), ra);
    CatValid(Bs(ls), rb);
    PairShape(ls, ra, rb, 0);
    ReheadProper(ls[0], CatPairs(ls, ra, rb), Lengths(As(ls)), Lengths(Bs(ls)), ra, rb);
    if Proper(CatPairs(ls, ra, rb)) {
      ReheadShape(ls[0], CatPairs(ls, ra, rb), Lengths(As(ls)), Lengths(Bs(ls)), ra, rb);
    }
  }

  /** Tensors whose first axes have the same lengths. */
  predicate SameFirst(ts: seq<Tensor>, us: seq<Tensor>) {
    |ts| == |us| && forall j :: 0 <= j < |ts| ==> ts[j].shape != [] && us[j].shape != [] && ts[j].shape[0] == us[j].shape[0]
  }

  lemma {:induction false} SameSums(ts: seq<Tensor>, us: seq<Tensor>)
    requires SameFirst(ts, us)
    ensures Lengths(ts) == Lengths(us)
  {
    if ts != [] {
      SameSums(ts[..|ts| - 1], us[..|us| - 1]);
    }
  }

  lemma SamePlace(ts: seq<Tensor>, us: seq<Tensor>, p: nat, i: nat, q: nat)
    requires SameFirst(ts, us) && Locates(us, p, i, q)
    ensures Locates(ts, p, i, q)
  {
    SameSums(ts[..i], us[..i]);
  }

  // ---------------------------------------------------------------------
  // Entry by entry

  /** Entry `p` of a pair whose A is as long as its B. */
  lemma PairItem(l: Lora, p: nat, ra: seq<nat>, rb: seq<nat>, rd: seq<nat>, m: nat)
    requires Proper(l) && |l.b.shape| > 2 && l.a.shape == [m] + ra && l.b.shape == [m] + rb && Shape(l) == [m] + rd && p < m
    ensures Item(l.a, p).Some? && Item(l.b, p).Some?
    ensures GetItem(l, IntKey(p)) == Make(Item(l.a, p), Item(l.b, p))
    ensures GetItem(l, IntKey(p)).Some? && Proper(GetItem(l, IntKey(p)).value)
    ensures Item(Dense(l), p) == Some(Dense(GetItem(l, IntKey(p)).value))
  {
    IntIndex(l.a, p, m, ra);
    IntIndex(l.b, p, m, rb);
    IntIndex(Dense(l), p, m, rd);
    ItemValid(l.a, p, m, ra);
    ItemValid(l.b, p, m, rb);
    ItemValid(Dense(l), p, m, rd);
    IntExact(l, p, GetItem(l, IntKey(p)));
  }

  /** Pairs with the same entries stand for the same entries. */
  lemma SamePairItem(l: Lora, p: nat, k: Lora, q: nat, ra: seq<nat>, rb: seq<nat>, rd: seq<nat>, m: nat, n: nat)
    requires Proper(l) && |l.b.shape| > 2 && l.a.shape == [m] + ra && l.b.shape == [m] + rb && Shape(l) == [m] + rd && p < m
    requires Proper(k) && |k.b.shape| > 2 && k.a.shape == [n] + ra && k.b.shape == [n] + rb && Shape(k) == [n] + rd && q < n
    requires Item(l.a, p) == Item(k.a, q) && Item(l.b, p) == Item(k.b, q)
    ensures Item(Dense(l), p) == Item(Dense(k), q)
  {
    PairItem(l, p, ra, rb, rd, m);
    PairItem(k, q, ra, rb, rd, n);
  }

  /** The shape of the entries of the dense tensors. */
  function DenseRest(ra: seq<nat>, rb: seq<nat>): seq<nat>
    requires ra != [] && rb != []
  {
    rb[..|rb| - 1] + [ra[|ra| - 1]]
  }

  lemma PairDense(l: Lora, ra: seq<nat>, rb: seq<nat>, n: nat)
    requires Proper(l) && |rb| >= 2 && |ra| == |rb|
    requires l.a.shape == [l.a.shape[0]] + ra && l.b.shape == [n] + rb
    ensures Shape(l) == [n] + DenseRest(ra, rb)
  {
  }

  lemma DensesAlike(ls: seq<Lora>, ra: seq<nat>, rb: seq<nat>)
    requires AlikePairs(ls, ra, rb) && |ra| == |rb|
    ensures Alike(Denses(ls), DenseRest(ra, rb))
  {
    forall j | 0 <= j < |ls|
      ensures Denses(ls)[j].shape != [] && Denses(ls)[j].shape == [Denses(ls)[j].shape[0]] + DenseRest(ra, rb)
    {
      PairShape(ls, ra, rb, j);
      PairDense(ls[j], ra, rb, ls[j].b.shape[0]);
    }
  }

  lemma DenseFirst(ls: seq<Lora>, ra: seq<nat>, rb: seq<nat>)
    requires AlikePairs(ls, ra, rb) && |ra| == |rb|
    ensures SameFirst(Denses(ls), Bs(ls))
  {
    forall j | 0 <= j < |ls|
      ensures Denses(ls)[j].shape != [] && Bs(ls)[j].shape != [] && Denses(ls)[j].shape[0] == Bs(ls)[j].shape[0]
    {
      PairShape(ls, ra, rb, j);
      PairDense(ls[j], ra, rb, ls[j].b.shape[0]);
    }
  }

  lemma FirstAs(ls: seq<Lora>)
    requires SameLengths(ls)
    ensures SameFirst(As(ls), Bs(ls))
  {
  }

  /** One entry of the concatenated pair. */
  lemma CatEntry(ls: seq<Lora>, ra: seq<nat>, rb: seq<nat>, r: Lora, d: Tensor, p: nat, i: nat, q: nat)
    requires AlikePairs(ls, ra, rb) && |ra| == |rb| && SameLengths(ls) && Locates(Bs(ls), p, i, q)
    requires r == CatPairs(ls, ra, rb) && Proper(r) && |r.b.shape| > 2 && Shape(r) == [Lengths(Bs(ls))] + DenseRest(ra, rb)
    requires Alike(Denses(ls), DenseRest(ra, rb)) && d == CatFirst(Denses(ls), DenseRest(ra, rb))
    ensures Item(Dense(r), p) == Item(d, p)
  {
    var n, l, rd := Lengths(Bs(ls)), ls[i], DenseRest(ra, rb);
    FirstAs(ls);
    SameSums(As(ls), Bs(ls));
    SamePlace(As(ls), Bs(ls), p, i, q);
    DenseFirst(ls, ra, rb);
    SamePlace(Denses(ls), Bs(ls), p, i, q);
    ItemOfCat(As(ls), ra, p, i, q);
    ItemOfCat(Bs(ls), rb, p, i, q);
    ItemOfCat(Denses(ls), rd, p, i, q);
    PairShape(ls, ra, rb, i);
    PairDense(l, ra, rb, l.b.shape[0]);
    SamePairItem(r, p, l, q, ra, rb, rd, n, l.b.shape[0]);
  }

  lemma CatEntries(ls: seq<Lora>, ra: seq<nat>, rb: seq<nat>, r: Lora, d: Tensor, n: nat)
    requires AlikePairs(ls, ra, rb) && |ra| == |rb| && SameLengths(ls) && n == Lengths(Bs(ls))
    requires r == CatPairs(ls, ra, rb) && Proper(r) && |r.b.shape| > 2 && Shape(r) == [n] + DenseRest(ra, rb)
    requires Alike(Denses(ls), DenseRest(ra, rb)) && d == CatFirst(Denses(ls), DenseRest(ra, rb))
    ensures forall p: nat :: p < n ==> Item(Dense(r), p) == Item(d, p)
  {
    forall p: nat | p < n ensures Item(Dense(r), p) == Item(d, p) {
      var i, q := Locate(Bs(ls), p);
      CatEntry(ls, ra, rb, r, d, p, i, q);
    }
  }

  lemma CatShape(ls: seq<Lora>, ra: seq<nat>, rb: seq<nat>, r: Lora)
    requires AlikePairs(ls, ra, rb) && r == CatPairs(ls, ra, rb) && Proper(r)
    ensures |ra| == |rb| && |r.b.shape| > 2 && Shape(r) == [Lengths(Bs(ls))] + DenseRest(ra, rb)
  {
    PairShape(ls, ra, rb, 0);
    PairDense(r, ra, rb, Lengths(Bs(ls)));
  }

  /** Where every A is as long as its B, concatenating the factors is concatenating the dense tensors. */
  lemma CatPairsCommute(ls: seq<Lora>, ra: seq<nat>, rb: seq<nat>, r: Lora)
    requires AlikePairs(ls, ra, rb) && SameLengths(ls) && r == CatPairs(ls, ra, rb)
    ensures |ra| == |rb| && Proper(r) && Alike(Denses(ls), DenseRest(ra, rb))
    ensures Dense(r) == CatFirst(Denses(ls), DenseRest(ra, rb))
  {
    FirstAs(ls);
    SameSums(As(ls), Bs(ls));
    CatProper(ls, ra, rb);
    CatShape(ls, ra, rb, r);
    DensesAlike(ls, ra, rb);
    DenseFirst(ls, ra, rb);
    SameSums(Denses(ls), Bs(ls));
    var d, n := CatFirst(Denses(ls), DenseRest(ra, rb)), Lengths(Bs(ls));
    CatValid(Denses(ls), DenseRest(ra, rb));
    CatEntries(ls, ra, rb, r, d, n);
    SameItems(Dense(r), d, n, DenseRest(ra, rb));
  }

  /** One length of an A: that of its B, or 1. */
  predicate SharedFirst(ts: seq<Tensor>, us: seq<Tensor>) {
    |ts| == |us| && forall j :: 0 <= j < |ts| ==>
      && ts[j].shape != [] && us[j].shape != [] && us[j].shape[0] > 0
      && (ts[j].shape[0] == 1 || ts[j].shape[0] == us[j].shape[0])
  }

  lemma {:induction false} SharedSums(ts: seq<Tensor>, us: seq<Tensor>)
    requires SharedFirst(ts, us)
    ensures |ts| <= Lengths(ts) <= Lengths(us)
    ensures Lengths(ts) == Lengths(us) <==> SameFirst(ts, us)
  {
    if ts != [] {
      var k := |ts| - 1;
      SharedSums(ts[..k], us[..k]);
      assert SameFirst(ts, us) <==> SameFirst(ts[..k], us[..k]) && ts[k].shape[0] == us[k].shape[0];
    }
  }

  /** Every pair has entries. */
  predicate Occupied(ls: seq<Lora>) {
    forall i :: 0 <= i < |ls| ==> ls[i].b.shape != [] && ls[i].b.shape[0] > 0
  }

  lemma PairsShared(ls: seq<Lora>, ra: seq<nat>, rb: seq<nat>)
    requires AlikePairs(ls, ra, rb) && Occupied(ls)
    ensures SharedFirst(As(ls), Bs(ls))
    ensures SameFirst(As(ls), Bs(ls)) <==> SameLengths(ls)
  {
    forall i | 0 <= i < |ls| ensures ls[i].a.shape != [] && (ls[i].a.shape[0] == 1 || ls[i].a.shape[0] == ls[i].b.shape[0]) {
      PairShape(ls, ra, rb, i);
    }
    if SameFirst(As(ls), Bs(ls)) {
      assert forall i :: 0 <= i < |ls| ==> As(ls)[i] == ls[i].a && Bs(ls)[i] == ls[i].b;
    }
  }

  /** A single pair is given back as it is. */
  lemma CatOne(t: Tensor, shape: seq<nat>)
    requires Alike([t], shape)
    ensures CatFirst([t], shape) == t
  {
    var ts := [t];
    assert ts[0] == t && ts[..0] == [];
    assert Lengths(ts) == Lengths(ts[..0]) + t.shape[0];
    assert ConcatData(ts) == ConcatData(ts[..0]) + t.data;
    assert ts[0].shape == [t.shape[0]] + shape;
  }

  lemma CatSingle(ls: seq<Lora>, ra: seq<nat>, rb: seq<nat>, r: Lora)
    requires AlikePairs(ls, ra, rb) && |ls| == 1 && r == CatPairs(ls, ra, rb)
    ensures r == ls[0] && Proper(r)
    ensures |ra| == |rb| && Alike(Denses(ls), DenseRest(ra, rb)) && Dense(r) == CatFirst(Denses(ls), DenseRest(ra, rb))
  {
    assert As(ls) == [ls[0].a] && Bs(ls) == [ls[0].b] && Denses(ls) == [Dense(ls[0])];
    CatOne(ls[0].a, ra);
    CatOne(ls[0].b, rb);
    PairShape(ls, ra, rb, 0);
    DensesAlike(ls, ra, rb);
    CatOne(Dense(ls[0]), DenseRest(ra, rb));
  }

  /** Concatenating pairs with entries gives a pair exactly when there is one of them or every A is as long
      as its B, and the pair then stands for the concatenation of the dense tensors. */
  lemma CatExact(ls: seq<Lora>, ra: seq<nat>, rb: seq<nat>, r: Lora)
    requires AlikePairs(ls, ra, rb) && Occupied(ls) && r == CatPairs(ls, ra, rb)
    ensures Proper(r) <==> |ls| == 1 || SameLengths(ls)
    ensures Proper(r) ==> |ra| == |rb| && Alike(Denses(ls), DenseRest(ra, rb)) && Dense(r) == CatFirst(Denses(ls), DenseRest(ra, rb))
  {
    PairsShared(ls, ra, rb);
    SharedSums(As(ls), Bs(ls));
    CatProper(ls, ra, rb);
    if |ls| == 1 {
      CatSingle(ls, ra, rb, r);
    } else if SameLengths(ls) {
      CatPairsCommute(ls, ra, rb, r);
    }
  }

  lemma SharedPair(x: real, y: real, z: real, l: Lora)
    requires l == Lora(Tensor([1, 1, 1], [x]), Tensor([2, 1, 1], [y, z]))
    ensures Proper(l) && l.a.shape == [1] + [1, 1] && l.b.shape == [2] + [1, 1]
  {
    ProdCons(1, [1, 1]);
    ProdCons(2, [1, 1]);
    assert [1] + [1, 1] == [1, 1, 1] && [2] + [1, 1] == [2, 1, 1];
    ProdCons(1, [1]);
    assert [1] + [1] == [1, 1];
  }

  /** Twice the same pair, its A shared by two entries, cannot be concatenated. */
  lemma SharedCatRefused(x: real, y: real, z: real, l: Lora)
    requires l == Lora(Tensor([1, 1, 1], [x]), Tensor([2, 1, 1], [y, z]))
    ensures Proper(l) && AlikePairs([l, l], [1, 1], [1, 1]) && !Proper(CatPairs([l, l], [1, 1], [1, 1]))
  {
    var ls := [l, l];
    SharedPair(x, y, z, l);
    assert ls[0] == l && !SameLengths(ls);
    CatExact(ls, [1, 1], [1, 1], CatPairs(ls, [1, 1], [1, 1]));
  }
}
