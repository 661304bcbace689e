/** Indexing with integers, slices and tuples of them, as tensors are indexed and as pairs are. */
module LoraIndex {
  import opened Basics
  import opened Tensors
  import opened Lora

  // ---------------------------------------------------------------------
  // Indexing a tensor

  datatype Entry = Int(i: int) | Slice(start: Option<int>, stop: Option<int>, step: int)

  const FULL := Slice(None, None, 1)

  /** An entry applied to one axis: one position, which drops the axis, or the positions it keeps. */
  datatype Sel = Pick(i: nat) | Keep(pos: seq<nat>)

  /** A bound of a slice: counted from the end when negative, and never outside the axis. */
  function Clamp(x: int, n: nat): (r: nat)
    ensures r <= n
  {
    var y := if x < 0 then x + n else x;
    if y < 0 then 0 else if y > n then n else y
  }

  function Stride(lo: nat, hi: nat, step: nat): (r: seq<nat>)
    requires step > 0
    ensures |r| <= (if lo < hi then hi - lo else 0)
    ensures forall i :: 0 <= i < |r| ==> lo <= r[i] < hi
    decreases if lo < hi then hi - lo else 0
  {
    if lo >= hi then [] else [lo] + Stride(lo + step, hi, step)
  }

  /** What an entry selects of an axis of length `n`. */
  function Resolve(e: Entry, n: nat): Option<Sel> {
    match e
    case Int(i) => if 0 <= i < n then Some(Pick(i)) else if i < 0 <= i + n then Some(Pick(i + n)) else None
    case Slice(start, stop, step) =>
      if step <= 0 then None
      else
        var lo := match start case None => 0 case Some(x) => Clamp(x, n);
        var hi := match stop case None => n case Some(x) => Clamp(x, n);
        Some(Keep(Stride(lo, hi, step)))
  }

  predicate SelOf(s: Sel, n: nat) {
    match s case Pick(i) => i < n case Keep(pos) => PositionsOf(pos, n)
  }

  lemma ResolveSel(e: Entry, n: nat)
    ensures Resolve(e, n).Some? ==> SelOf(Resolve(e, n).value, n)
    ensures Resolve(e, n).Some? ==> (Resolve(e, n).value.Pick? <==> e.Int?)
  {
  }

  /** One entry for every axis. */
  function ResolveAll(es: seq<Entry>, shape: seq<nat>): (r: Option<seq<Sel>>)
    requires |es| == |shape|
    ensures r.Some? ==> |r.value| == |es|
  {
    if es == [] then Some([])
    else
      var n := |es| - 1;
      match (ResolveAll(es[..n], shape[..n]), Resolve(es[n], shape[n]))
      case (Some(sels), Some(s)) => Some(sels + [s])
      case _ => None
  }

  predicate Selects(sels: seq<Sel>, shape: seq<nat>) {
    |sels| == |shape| && forall i :: 0 <= i < |sels| ==> SelOf(sels[i], shape[i])
  }

  lemma {:induction false} ResolvedAll(es: seq<Entry>, shape: seq<nat>)
    requires |es| == |shape|
    ensures ResolveAll(es, shape).Some? <==> forall i :: 0 <= i < |es| ==> Resolve(es[i], shape[i]).Some?
    ensures ResolveAll(es, shape).Some? ==>
      forall i :: 0 <= i < |es| ==> Resolve(es[i], shape[i]) == Some(ResolveAll(es, shape).value[i])
    ensures ResolveAll(es, shape).Some? ==> Selects(ResolveAll(es, shape).value, shape)
  {
    if es != [] {
      var n := |es| - 1;
      ResolvedAll(es[..n], shape[..n]);
      ResolveSel(es[n], shape[n]);
      assert forall i :: 0 <= i < n ==> es[..n][i] == es[i] && shape[..n][i] == shape[i];
    }
  }

  /** The shape that is left. */
  function OutShape(sels: seq<Sel>): seq<nat> {
    if sels == [] then []
    else
      var n := |sels| - 1;
      match sels[n] case Pick(_) => OutShape(sels[..n]) case Keep(pos) => OutShape(sels[..n]) + [|pos|]
  }

  /** Where an element comes from. */
  function Source(sels: seq<Sel>, idx: Index): Index {
    if sels == [] then []
    else
      var n, m := |sels| - 1, |idx| - 1;
      match sels[n]
      case Pick(i) => Source(sels[..n], idx) + [i]
      case Keep(pos) =>
        if m < 0 || idx[m] >= |pos| then Source(sels[..n], idx) + [0] else Source(sels[..n], idx[..m]) + [pos[idx[m]]]
  }

  lemma {:induction false} SourceInBounds(sels: seq<Sel>, shape: seq<nat>, idx: Index)
    requires Selects(sels, shape) && InBounds(OutShape(sels), idx)
    ensures InBounds(shape, Source(sels, idx))
    decreases |sels|
  {
    if sels != [] {
      var n, m := |sels| - 1, |idx| - 1;
      if sels[n].Pick? {
        SourceInBounds(sels[..n], shape[..n], idx);
      } else {
        SourceInBounds(sels[..n], shape[..n], idx[..m]);
      }
      assert shape == shape[..n] + [shape[n]];
    }
  }

  function IndexTensor(t: Tensor, sels: seq<Sel>): (r: Tensor)
    requires Valid(t)
    ensures Valid(r) && r.shape == OutShape(sels)
  {
    Build(OutShape(sels), (idx: Index) => At(t, Source(sels, idx)))
  }

  lemma IndexTensorAt(t: Tensor, sels: seq<Sel>, idx: Index)
    requires Valid(t) && InBounds(OutShape(sels), idx)
    ensures At(IndexTensor(t, sels), idx) == At(t, Source(sels, idx))
  {
    BuildAt(OutShape(sels), (i: Index) => At(t, Source(sels, i)), idx);
  }

  function Fulls(n: nat): (r: seq<Entry>)
    ensures |r| == n && forall i :: 0 <= i < n ==> r[i] == FULL
  {
    seq(n, _ => FULL)
  }

  /** Missing entries stand for whole axes. */
  function Padded(es: seq<Entry>, n: nat): (r: seq<Entry>)
    ensures |es| <= n ==> |r| == n
  {
    if |es| < n then es + Fulls(n - |es|) else es
  }

  /** What the entries select of a tensor of the given shape. */
  function Selected(es: seq<Entry>, shape: seq<nat>): Option<seq<Sel>> {
    if |es| > |shape| then None else ResolveAll(Padded(es, |shape|), shape)
  }

  function IndexDense(t: Tensor, es: seq<Entry>): (r: Option<Tensor>)
    requires Valid(t)
    ensures r.Some? ==> Valid(r.value)
  {
    match Selected(es, t.shape)
    case None => None
    case Some(sels) => Some(IndexTensor(t, sels))
  }

  // ---------------------------------------------------------------------
  // Indexing a pair

  datatype Key = IntKey(i: int) | SliceKey(slice: Entry) | TupleKey(entries: seq<Entry>)

  function Make(a: Option<Tensor>, b: Option<Tensor>): Option<Lora> {
    if a.Some? && b.Some? && Meets(Lora(a.value, b.value)) then Some(Lora(a.value, b.value)) else None
  }

  /** The entry of a batch axis as it is used on A: integers modulo A's length, slices as whole axes. */
  function EntryA(e: Entry, m: nat): Option<Entry> {
    match e
    case Int(j) => if m == 0 then None else Some(Int(j % m))
    case Slice(_, _, _) => Some(FULL)
  }

  function EntriesA(batch: seq<Entry>, shape: seq<nat>): (r: Option<seq<Entry>>)
    requires |batch| <= |shape|
    ensures r.Some? ==> |r.value| == |batch|
  {
    if batch == [] then Some([])
    else
      var n := |batch| - 1;
      match (EntriesA(batch[..n], shape), EntryA(batch[n], shape[n]))
      case (Some(es), Some(e)) => Some(es + [e])
      case _ => None
  }

  function TupleItem(l: Lora, es: seq<Entry>): Option<Lora>
    requires Proper(l) && |es| == |l.b.shape|
  {
    var n := |es|;
    match EntriesA(es[..n - 2], l.a.shape)
    case None => None
    case Some(batch) =>
      Make(IndexDense(l.a, batch + [FULL, es[n - 1]]), IndexDense(l.b, es[..n - 1]))
  }

  /** The three kinds of indices. */
  function GetItem(l: Lora, key: Key): Option<Lora>
    requires Proper(l)
  {
    var n := |l.b.shape|;
    match key
    case IntKey(i) => if n > 2 then Make(IndexDense(l.a, [Int(i)]), IndexDense(l.b, [Int(i)])) else None
    case SliceKey(s) =>
      if s.Int? then None
      else if n > 2 then Make(IndexDense(l.a, [s]), IndexDense(l.b, [s]))
      else Make(Some(l.a), IndexDense(l.b, [s]))
    case TupleKey(es) => if es == [] || |es| > n then None else TupleItem(l, Padded(es, n))
  }

  /** The same index on the dense tensor. */
  function Entries(key: Key): seq<Entry> {
    match key case IntKey(i) => [Int(i)] case SliceKey(s) => [s] case TupleKey(es) => es
  }

  // ---------------------------------------------------------------------
  // Pairs indexed axis by axis

  /** How the selections of a batch axis of B and of A, which has length `m`, must fit together. */
  predicate AxisOk(s: Sel, sa: Sel, m: nat) {
    match s
    case Pick(j) => sa == Pick(if m == 1 then 0 else j)
    case Keep(pos) => (m == 1 && sa == Keep([0])) || (sa == s && (m == 1 ==> pos == []))
  }

  predicate BatchOk(batch: seq<Sel>, batchA: seq<Sel>, shape: seq<nat>) {
    |batch| == |batchA| == |shape| && forall i :: 0 <= i < |batch| ==> AxisOk(batch[i], batchA[i], shape[i])
  }

  /** Axes of length 1 are shared. */
  function SharedIdx(shape: seq<nat>, idx: Index): (r: Index)
    requires |idx| == |shape|
    ensures |r| == |idx|
  {
    seq(|idx|, i requires 0 <= i < |idx| => if shape[i] == 1 then 0 else idx[i])
  }

  lemma SharedSnoc(shape: seq<nat>, m: nat, idx: Index, x: nat)
    requires |idx| == |shape|
    ensures SharedIdx(shape + [m], idx + [x]) == SharedIdx(shape, idx) + [if m == 1 then 0 else x]
  {
  }

  /** Shapes whose axes agree, or are 1 on the left. */
  predicate Broadcasts(a: seq<nat>, b: seq<nat>) {
    |a| == |b| && forall i :: 0 <= i < |a| ==> a[i] == 1 || a[i] == b[i]
  }

  lemma {:induction false} BatchShapes(batch: seq<Sel>, batchA: seq<Sel>, shape: seq<nat>)
    requires BatchOk(batch, batchA, shape)
    ensures Broadcasts(OutShape(batchA), OutShape(batch))
  {
    if batch != [] {
      var n := |batch| - 1;
      BatchShapes(batch[..n], batchA[..n], shape[..n]);
      assert AxisOk(batch[n], batchA[n], shape[n]);
    }
  }

  lemma OutShapeSnoc(sels: seq<Sel>, s: Sel)
    ensures OutShape(sels + [s]) == if s.Pick? then OutShape(sels) else OutShape(sels) + [|s.pos|]
  {
    assert (sels + [s])[..|sels|] == sels;
  }

  lemma SourceSnoc(sels: seq<Sel>, pos: seq<nat>, idx: Index, x: nat)
    requires x < |pos|
    ensures Source(sels + [Keep(pos)], idx + [x]) == Source(sels, idx) + [pos[x]]
  {
    assert (sels + [Keep(pos)])[..|sels|] == sels && (idx + [x])[..|idx|] == idx;
  }

  lemma SourcePick(sels: seq<Sel>, i: nat, idx: Index)
    ensures Source(sels + [Pick(i)], idx) == Source(sels, idx) + [i]
  {
    assert (sels + [Pick(i)])[..|sels|] == sels;
  }

  /** What A's selections read is what the shared index of B's selections says. */
  predicate SourceShared(batch: seq<Sel>, batchA: seq<Sel>, shape: seq<nat>, idx: Index) {
    && |OutShape(batchA)| == |idx| && |Source(batch, idx)| == |shape|
    && Source(batchA, SharedIdx(OutShape(batchA), idx)) == SharedIdx(shape, Source(batch, idx))
  }

  lemma SharedPick(batch: seq<Sel>, batchA: seq<Sel>, shape: seq<nat>, idx: Index, s: Sel, sa: Sel, m: nat)
    requires SourceShared(batch, batchA, shape, idx) && AxisOk(s, sa, m) && s.Pick?
    ensures SourceShared(batch + [s], batchA + [sa], shape + [m], idx)
  {
    hide SharedIdx, Source, OutShape;
    OutShapeSnoc(batchA, sa);
    SourcePick(batch, s.i, idx);
    SourcePick(batchA, sa.i, SharedIdx(OutShape(batchA), idx));
    SharedSnoc(shape, m, Source(batch, idx), s.i);
  }

  lemma SharedKeep(batch: seq<Sel>, batchA: seq<Sel>, shape: seq<nat>, idx: Index, s: Sel, sa: Sel, m: nat, x: nat)
    requires SourceShared(batch, batchA, shape, idx) && AxisOk(s, sa, m) && s.Keep? && x < |s.pos|
    ensures SourceShared(batch + [s], batchA + [sa], shape + [m], idx + [x])
  {
    hide SharedIdx, Source, OutShape;
    OutShapeSnoc(batchA, sa);
    SourceSnoc(batch, s.pos, idx, x);
    SharedSnoc(OutShape(batchA), |sa.pos|, idx, x);
    SourceSnoc(batchA, sa.pos, SharedIdx(OutShape(batchA), idx), if |sa.pos| == 1 then 0 else x);
    SharedSnoc(shape, m, Source(batch, idx), s.pos[x]);
  }

  lemma {:induction false} BatchSource(batch: seq<Sel>, batchA: seq<Sel>, shape: seq<nat>, idx: Index)
    requires BatchOk(batch, batchA, shape) && InBounds(OutShape(batch), idx)
    ensures SourceShared(batch, batchA, shape, idx)
    decreases |batch|
  {
    if batch != [] {
      hide SourceShared, Source, AxisOk;
      var n, m := |batch| - 1, |idx| - 1;
      assert AxisOk(batch[n], batchA[n], shape[n]);
      LastOf(batch);
      LastOf(batchA);
      LastOf(shape);
      if batch[n].Pick? {
        BatchSource(batch[..n], batchA[..n], shape[..n], idx);
        SharedPick(batch[..n], batchA[..n], shape[..n], idx, batch[n], batchA[n], shape[n]);
      } else {
        LastOf(idx);
        BatchSource(batch[..n], batchA[..n], shape[..n], idx[..m]);
        SharedKeep(batch[..n], batchA[..n], shape[..n], idx[..m], batch[n], batchA[n], shape[n], idx[m]);
      }
    }
  }

  lemma LastOf<T>(s: seq<T>)
    requires s != []
    ensures s == s[..|s| - 1] + [s[|s| - 1]]
  {
  }
}
