/** Exactly when indexing a pair is indexing the dense tensor it stands for. */
module LoraGetItem {
  import opened Basics
  import opened Tensors
  import opened Lora
  import opened LoraParts
  import opened LoraIndex
  import opened LoraItems
  import opened LoraKeys

  /** The batch axes. */
  function Batch(shape: seq<nat>): seq<nat>
    requires |shape| >= 2
  {
    shape[..|shape| - 2]
  }

  lemma ProperShapes(l: Lora)
    requires Proper(l)
    ensures var n, sa, sb := |l.b.shape|, Batch(l.a.shape), Batch(l.b.shape);
      && l.a.shape == sa + [Rank(l)] + [Columns(l)] && l.b.shape == sb + [l.b.shape[n - 2]] + [Rank(l)]
      && Shape(l) == sb + [l.b.shape[n - 2]] + [Columns(l)] && Broadcasts(sa, sb)
  {
  }

  // ---------------------------------------------------------------------
  // Tuples

  /** The shapes of a pair, as a selection of nothing yet. */
  predicate ShapesIn(l: Lora, s: Selection) {
    && Proper(l) && Rank(l) == s.r && Broadcasts(s.sa, s.sb)
    && l.a.shape == s.sa + [s.r] + [s.c] && l.b.shape == s.sb + [s.m] + [s.r] && Shape(l) == s.sb + [s.m] + [s.c]
  }

  /** `s` is what the entries select. */
  predicate TupleSelection(es: seq<Entry>, eb: seq<Entry>, er: Entry, ec: Entry, s: Selection) {
    && TupleOf(es, eb, er, ec) && |eb| == |s.sb| == |s.sa| && s.batchA == BatchSelsA(eb, s.sa)
    && ResolveAll(eb, s.sb) == Some(s.batch)
    && Resolve(er, s.m) == Some(Keep(s.rows)) && Resolve(ec, s.c) == Some(Keep(s.cols))
  }

  lemma SelectionSound(l: Lora, es: seq<Entry>, eb: seq<Entry>, er: Entry, ec: Entry, s: Selection)
    requires ShapesIn(l, s) && TupleSelection(es, eb, er, ec, s)
    ensures ShapesOf(l, s)
  {
    ResolvedAll(eb, s.sb);
    ResolveSel(er, s.m);
    ResolveSel(ec, s.c);
  }

  /** The result of a tuple whose entries all resolve. */
  lemma TupleResult(l: Lora, es: seq<Entry>, eb: seq<Entry>, er: Entry, ec: Entry, s: Selection)
    requires ShapesIn(l, s) && TupleSelection(es, eb, er, ec, s)
    ensures |es| == |l.b.shape| && TupleItem(l, es).Some? && FactorsOf(l, TupleItem(l, es).value, s)
    ensures Selected(es, Shape(l)) == Some(SelsDense(s))
  {
    TupleSelects(es, eb, er, ec, s);
    TupleAxes(eb, s.sb, s.sa, s.batch);
    TupleSelectsA(es, eb, er, ec, s, l.a.shape);
    var l' := TupleItemIs(l, es, EntriesA(es[..|es| - 2], l.a.shape).value, s);
  }

  /** The pair that results is one exactly when all batch entries fit, and then stands for the indexed
      dense tensor. */
  lemma TupleCommutes(l: Lora, l': Lora, es: seq<Entry>, eb: seq<Entry>, er: Entry, ec: Entry, s: Selection)
    requires ShapesIn(l, s) && TupleSelection(es, eb, er, ec, s) && FactorsOf(l, l', s)
    ensures Proper(l') <==> AllFit(eb, s.sb, s.sa)
    ensures Proper(l') ==> Dense(l') == IndexTensor(Dense(l), SelsDense(s))
  {
    TupleAxes(eb, s.sb, s.sa, s.batch);
    FactorsProper(l, l', s);
    if AllFit(eb, s.sb, s.sa) {
      SelectionSound(l, es, eb, er, ec, s);
      FactorsCommute(l, l', s);
    }
  }

  lemma TupleFailure(l: Lora, es: seq<Entry>, eb: seq<Entry>, er: Entry, ec: Entry, s: Selection)
    requires ShapesIn(l, s) && TupleOf(es, eb, er, ec) && |eb| == |s.sb| == |s.sa| && |es| == |l.b.shape|
    requires TupleItem(l, es).Some?
    ensures ResolveAll(eb, s.sb).Some? && Resolve(er, s.m).Some? && Resolve(ec, s.c).Some?
  {
    hide Dense, Prod, IndexTensor, ResolveAll, Resolve, Broadcasts;
    TupleFails(es, eb, er, ec, s.sb, s.m, s.r, s.c);
    TupleFailsA(EntriesA(es[..|es| - 2], l.a.shape).value, ec, s.sa, s.r, s.c);
  }

  function ShapesSelection(l: Lora): Selection
    requires Proper(l)
  {
    var n := |l.b.shape|;
    Selection(Batch(l.a.shape), Batch(l.b.shape), l.b.shape[n - 2], Rank(l), Columns(l), [], [], [], [])
  }

  /** Whether a key is one that the pair supports as the dense tensor does: the result, when it is a
      pair, stands for the indexed dense tensor. */
  predicate Agrees(l: Lora, r: Option<Lora>, es: seq<Entry>)
    requires Proper(l)
  {
    r.Some? && Proper(r.value) ==> IndexDense(Dense(l), es) == Some(Dense(r.value))
  }

  lemma DenseIs(l: Lora, l': Lora, es: seq<Entry>, sels: seq<Sel>)
    requires Proper(l) && Proper(l') && Selected(es, Shape(l)) == Some(sels) && Dense(l') == IndexTensor(Dense(l), sels)
    ensures Agrees(l, Some(l'), es)
  {
  }

  lemma FullTuple(l: Lora, es: seq<Entry>, eb: seq<Entry>, er: Entry, ec: Entry, s0: Selection)
    requires Proper(l) && s0 == ShapesSelection(l) && TupleOf(es, eb, er, ec) && |es| == |l.b.shape|
    ensures TupleItem(l, es).Some? <==> Selected(es, Shape(l)).Some?
    ensures TupleItem(l, es).Some? ==> (Proper(TupleItem(l, es).value) <==> AllFit(eb, s0.sb, s0.sa))
    ensures Agrees(l, TupleItem(l, es), es)
  {
    ProperShapes(l);
    TupleFails(es, eb, er, ec, s0.sb, s0.m, s0.r, s0.c);
    if TupleItem(l, es).Some? {
      TupleFailure(l, es, eb, er, ec, s0);
    }
    if Selected(es, Shape(l)).Some? {
      ResolveSel(er, s0.m);
      ResolveSel(ec, s0.c);
      var s := s0.(batch := ResolveAll(eb, s0.sb).value, batchA := BatchSelsA(eb, s0.sa),
                   rows := Resolve(er, s0.m).value.pos, cols := Resolve(ec, s0.c).value.pos);
      TupleResult(l, es, eb, er, ec, s);
      TupleCommutes(l, TupleItem(l, es).value, es, eb, er, ec, s);
      if Proper(TupleItem(l, es).value) {
        DenseIs(l, TupleItem(l, es).value, es, SelsDense(s));
      }
    }
  }

  /** A tuple whose last two entries, counting those left out, are slices: it is accepted exactly when
      the dense tensor accepts it; the result is a pair exactly when every slice of a batch axis on
      which A is not shared keeps the whole axis; and then it stands for the indexed dense tensor. */
  lemma TupleExact(l: Lora, es: seq<Entry>, whole: seq<Entry>)
    requires Proper(l) && 0 < |es| <= |l.b.shape| && whole == Padded(es, |l.b.shape|)
    requires whole[|whole| - 2].Slice? && whole[|whole| - 1].Slice?
    ensures GetItem(l, TupleKey(es)).Some? <==> IndexDense(Dense(l), es).Some?
    ensures GetItem(l, TupleKey(es)).Some? ==>
      (Proper(GetItem(l, TupleKey(es)).value) <==> AllFit(whole[..|whole| - 2], Batch(l.b.shape), Batch(l.a.shape)))
    ensures Agrees(l, GetItem(l, TupleKey(es)), es)
  {
    var n := |whole|;
    assert whole == whole[..n - 2] + [whole[n - 2]] + [whole[n - 1]];
    FullTuple(l, whole, whole[..n - 2], whole[n - 2], whole[n - 1], ShapesSelection(l));
    assert Selected(es, Shape(l)) == Selected(whole, Shape(l)) by {
      assert Padded(whole, n) == whole;
    }
  }

  lemma SharedFits(l: Lora, eb: seq<Entry>)
    requires Proper(l) && SharedA(l) && |eb| == |l.b.shape| - 2
    ensures AllFit(eb, Batch(l.b.shape), Batch(l.a.shape))
  {
  }

  /** With A's batch axes all 1 every such tuple commutes, integers among its batch entries included. */
  lemma SharedTupleCommutes(l: Lora, es: seq<Entry>, whole: seq<Entry>, r: Option<Lora>)
    requires Proper(l) && SharedA(l) && 0 < |es| <= |l.b.shape| && whole == Padded(es, |l.b.shape|)
    requires whole[|whole| - 2].Slice? && whole[|whole| - 1].Slice? && r == GetItem(l, TupleKey(es))
    ensures r.Some? <==> IndexDense(Dense(l), es).Some?
    ensures r.Some? ==> Proper(r.value)
    ensures Agrees(l, r, es)
  {
    SharedFits(l, whole[..|whole| - 2]);
    TupleExact(l, es, whole);
  }

  // ---------------------------------------------------------------------
  // One integer or one slice

  /** A bare entry fits when A has B's length, when A is shared and the entry keeps its one position,
      or when nothing is left. Integers that A and B both accept always fit. */
  predicate BareFits(e: Entry, n: nat, m: nat) {
    e.Slice? ==> m == n || Resolve(e, 1) == Some(Keep([0])) || Resolve(e, n) == Some(Keep([]))
  }

  lemma ResolveOne(e: Entry)
    requires e.Slice? && Resolve(e, 1).Some?
    ensures Resolve(e, 1) == Some(Keep([])) || Resolve(e, 1) == Some(Keep([0]))
  {
    var pos := Resolve(e, 1).value.pos;
    assert |pos| <= 1 && (pos != [] ==> pos == [pos[0]]);
  }

  lemma BareExactly(e: Entry, n: nat, m: nat)
    requires (m == 1 || m == n) && Resolve(e, n).Some? && Resolve(e, m).Some?
    ensures BareFits(e, n, m) <==> AxisBroadcasts(Resolve(e, n).value, Resolve(e, m).value)
    ensures BareFits(e, n, m) ==> AxisOk(Resolve(e, n).value, Resolve(e, m).value, m)
    ensures Resolve(e, n).value.Pick? <==> Resolve(e, m).value.Pick?
  {
    if e.Slice? && m == 1 {
      ResolveOne(e);
    }
  }

  predicate AllBareFit(es: seq<Entry>, sb: seq<nat>, sa: seq<nat>) {
    |es| == |sb| == |sa| && forall i :: 0 <= i < |es| ==> BareFits(es[i], sb[i], sa[i])
  }

  lemma BareAxes(es: seq<Entry>, sb: seq<nat>, sa: seq<nat>, batch: seq<Sel>, batchA: seq<Sel>)
    requires |es| == |sb| && Broadcasts(sa, sb) && ResolveAll(es, sb) == Some(batch) && ResolveAll(es, sa) == Some(batchA)
    ensures SameKinds(batch, batchA) && |OutShape(batch)| == |OutShape(batchA)|
    ensures Broadcasts(OutShape(batchA), OutShape(batch)) <==> AllBareFit(es, sb, sa)
    ensures AllBareFit(es, sb, sa) ==> BatchOk(batch, batchA, sa)
  {
    ResolvedAll(es, sb);
    ResolvedAll(es, sa);
    forall i | 0 <= i < |es|
      ensures batch[i].Pick? <==> batchA[i].Pick?
      ensures BareFits(es[i], sb[i], sa[i]) <==> AxisBroadcasts(batch[i], batchA[i])
      ensures BareFits(es[i], sb[i], sa[i]) ==> AxisOk(batch[i], batchA[i], sa[i])
    {
      assert Resolve(es[i], sb[i]) == Some(batch[i]) && Resolve(es[i], sa[i]) == Some(batchA[i]);
      BareExactly(es[i], sb[i], sa[i]);
    }
    BroadcastsByAxis(batch, batchA);
  }

  /** A bare entry with those left out, of the batch axes. */
  function BareBatch(e: Entry, k: nat): (r: seq<Entry>)
    requires k > 0
    ensures |r| == k
  {
    [e] + Fulls(k - 1)
  }

  lemma BarePadded(e: Entry, k: nat)
    requires k > 0
    ensures Padded([e], k + 2) == BareBatch(e, k) + [FULL] + [FULL]
  {
  }

  lemma SelectedPadded(es: seq<Entry>, whole: seq<Entry>, shape: seq<nat>)
    requires |es| <= |shape| && whole == Padded(es, |shape|)
    ensures Selected(es, shape) == Selected(whole, shape)
  {
    assert Padded(whole, |shape|) == whole;
  }

  lemma BatchSelects(eb: seq<Entry>, shape: seq<nat>, n: nat, m: nat)
    requires |eb| == |shape|
    ensures var b := ResolveAll(eb, shape);
      Selected(eb + [FULL] + [FULL], shape + [n] + [m]) == if b.Some? then Some(Sels(b.value, Range(0, n), Range(0, m))) else None
  {
    SelectedTwo(eb, FULL, FULL, shape, n, m);
    ResolveFull(n);
    ResolveFull(m);
  }

  lemma BareSelects(e: Entry, shape: seq<nat>, n: nat, m: nat)
    requires shape != []
    ensures var b := ResolveAll(BareBatch(e, |shape|), shape);
      Selected([e], shape + [n] + [m]) == if b.Some? then Some(Sels(b.value, Range(0, n), Range(0, m))) else None
  {
    BarePadded(e, |shape|);
    SelectedPadded([e], BareBatch(e, |shape|) + [FULL] + [FULL], shape + [n] + [m]);
    BatchSelects(BareBatch(e, |shape|), shape, n, m);
  }

  /** Only the entry itself can fail, and only it can fail to fit. */
  lemma BareResolves(e: Entry, shape: seq<nat>)
    requires shape != []
    ensures ResolveAll(BareBatch(e, |shape|), shape).Some? <==> Resolve(e, shape[0]).Some?
  {
    var eb := BareBatch(e, |shape|);
    ResolvedAll(eb, shape);
    forall i | 0 < i < |eb| ensures Resolve(eb[i], shape[i]).Some? {
      ResolveFull(shape[i]);
    }
  }

  lemma BareFitsFirst(e: Entry, sb: seq<nat>, sa: seq<nat>)
    requires sb != [] && |sa| == |sb|
    ensures AllBareFit(BareBatch(e, |sb|), sb, sa) <==> BareFits(e, sb[0], sa[0])
  {
    var eb := BareBatch(e, |sb|);
    ResolveFull(1);
    assert Range(0, 1) == [0];
    assert forall i :: 0 < i < |eb| ==> BareFits(eb[i], sb[i], sa[i]);
    assert eb[0] == e;
  }

  function BareItem(l: Lora, e: Entry): Option<Lora>
    requires Proper(l)
  {
    Make(IndexDense(l.a, [e]), IndexDense(l.b, [e]))
  }

  predicate BareSelection(l: Lora, e: Entry, s: Selection) {
    && ShapesIn(l, s) && s.sb != []
    && ResolveAll(BareBatch(e, |s.sb|), s.sb) == Some(s.batch) && ResolveAll(BareBatch(e, |s.sb|), s.sa) == Some(s.batchA)
    && s.rows == Range(0, s.m) && s.cols == Range(0, s.c)
  }

  lemma BareMade(l: Lora, e: Entry, s: Selection, a: Tensor, b: Tensor)
    requires BareSelection(l, e, s) && a == IndexTensor(l.a, SelsA(s)) && b == IndexTensor(l.b, SelsB(s))
    requires Selected([e], l.a.shape) == Some(SelsA(s)) && Selected([e], l.b.shape) == Some(SelsB(s))
    requires |OutShape(s.batchA)| == |OutShape(s.batch)|
    ensures BareItem(l, e) == Some(Lora(a, b)) && FactorsOf(l, Lora(a, b), s)
  {
    hide Make, IndexTensor, Selected, SelsA, SelsB, FactorsOf, OutShape;
    IndexedFactors(l, s, a, b);
    MakeIndexed(l, s, a, b);
  }

  lemma BareResult(l: Lora, e: Entry, s: Selection) returns (l': Lora)
    requires BareSelection(l, e, s)
    ensures BareItem(l, e) == Some(l') && FactorsOf(l, l', s) && Selected([e], Shape(l)) == Some(SelsDense(s))
  {
    BareSelects(e, s.sa, s.r, s.c);
    BareSelects(e, s.sb, s.m, s.r);
    BareSelects(e, s.sb, s.m, s.c);
    BareAxes(BareBatch(e, |s.sb|), s.sb, s.sa, s.batch, s.batchA);
    var a := IndexNamed(l.a, SelsA(s));
    var b := IndexNamed(l.b, SelsB(s));
    BareMade(l, e, s, a, b);
    l' := Lora(a, b);
  }

  lemma BareSound(l: Lora, e: Entry, s: Selection)
    requires BareSelection(l, e, s)
    ensures ShapesOf(l, s)
  {
    ResolvedAll(BareBatch(e, |s.sb|), s.sb);
  }

  lemma BareCommutes(l: Lora, l': Lora, e: Entry, s: Selection)
    requires BareSelection(l, e, s) && FactorsOf(l, l', s) && Selected([e], Shape(l)) == Some(SelsDense(s))
    ensures Proper(l') <==> BareFits(e, s.sb[0], s.sa[0])
    ensures Agrees(l, Some(l'), [e])
  {
    BareAxes(BareBatch(e, |s.sb|), s.sb, s.sa, s.batch, s.batchA);
    BareFitsFirst(e, s.sb, s.sa);
    FactorsProper(l, l', s);
    if Proper(l') {
      BareSound(l, e, s);
      FactorsCommute(l, l', s);
      DenseIs(l, l', [e], SelsDense(s));
    }
  }

  lemma TensorAccepts(t: Tensor, e: Entry, shape: seq<nat>, n: nat, m: nat)
    requires Valid(t) && t.shape == shape + [n] + [m] && shape != []
    ensures IndexDense(t, [e]).Some? <==> Resolve(e, shape[0]).Some?
  {
    BareSelects(e, shape, n, m);
    BareResolves(e, shape);
  }

  /** Both factors must accept the entry. */
  lemma BareAccepts(l: Lora, e: Entry, s: Selection)
    requires ShapesIn(l, s) && s.sb != []
    ensures IndexDense(l.a, [e]).Some? <==> Resolve(e, s.sa[0]).Some?
    ensures IndexDense(l.b, [e]).Some? <==> Resolve(e, s.sb[0]).Some?
  {
    TensorAccepts(l.a, e, s.sa, s.r, s.c);
    TensorAccepts(l.b, e, s.sb, s.m, s.r);
  }

  lemma BareAccepted(l: Lora, e: Entry, s0: Selection)
    requires ShapesIn(l, s0) && s0.sb != [] && Resolve(e, s0.sb[0]).Some? && Resolve(e, s0.sa[0]).Some?
    ensures BareItem(l, e).Some? && (Proper(BareItem(l, e).value) <==> BareFits(e, s0.sb[0], s0.sa[0]))
    ensures Agrees(l, BareItem(l, e), [e])
  {
    BareResolves(e, s0.sa);
    BareResolves(e, s0.sb);
    var eb := BareBatch(e, |s0.sb|);
    var s := s0.(batch := ResolveAll(eb, s0.sb).value, batchA := ResolveAll(eb, s0.sa).value,
                 rows := Range(0, s0.m), cols := Range(0, s0.c));
    var l' := BareResult(l, e, s);
    BareCommutes(l, l', e, s);
  }

  lemma PairShapes(l: Lora) returns (s: Selection)
    requires Proper(l)
    ensures ShapesIn(l, s) && s.sb == Batch(l.b.shape) && s.sa == Batch(l.a.shape)
  {
    ProperShapes(l);
    s := ShapesSelection(l);
  }

  /** A bare entry on a pair of more than two axes. */
  lemma BareItemExact(l: Lora, e: Entry)
    requires Proper(l) && |l.b.shape| > 2
    ensures BareItem(l, e).Some? <==> Resolve(e, l.b.shape[0]).Some? && Resolve(e, l.a.shape[0]).Some?
    ensures BareItem(l, e).Some? ==> (Proper(BareItem(l, e).value) <==> BareFits(e, l.b.shape[0], l.a.shape[0]))
    ensures Agrees(l, BareItem(l, e), [e])
  {
    var s := PairShapes(l);
    BareAccepts(l, e, s);
    if Resolve(e, s.sb[0]).Some? && Resolve(e, s.sa[0]).Some? {
      BareAccepted(l, e, s);
    }
  }

  lemma DenseAccepts(l: Lora, e: Entry, s: Selection)
    requires ShapesIn(l, s) && s.sb != []
    ensures IndexDense(Dense(l), [e]).Some? <==> Resolve(e, s.sb[0]).Some?
  {
    TensorAccepts(Dense(l), e, s.sb, s.m, s.c);
  }

  lemma DenseAcceptsBare(l: Lora, e: Entry)
    requires Proper(l) && |l.b.shape| > 2
    ensures IndexDense(Dense(l), [e]).Some? <==> Resolve(e, l.b.shape[0]).Some?
  {
    var s := PairShapes(l);
    DenseAccepts(l, e, s);
  }

  /** A bare integer on a pair of more than two axes: it is accepted where the dense tensor accepts it,
      but with a shared A only as 0 or -1; then the result stands for the indexed dense tensor. */
  lemma IntExact(l: Lora, i: int, r: Option<Lora>)
    requires Proper(l) && |l.b.shape| > 2 && r == GetItem(l, IntKey(i))
    ensures r.Some? <==> IndexDense(Dense(l), [Int(i)]).Some? && (l.a.shape[0] == l.b.shape[0] || i == 0 || i == -1)
    ensures r.Some? ==> Proper(r.value)
    ensures Agrees(l, r, [Int(i)])
  {
    hide Dense, Agrees, IndexDense, Prod, Valid;
    BareItemExact(l, Int(i));
    DenseAcceptsBare(l, Int(i));
  }

  /** A bare slice on a pair of more than two axes: it is accepted where the dense tensor accepts it;
      the result is a pair exactly when A has B's length there, or A's one entry is kept, or nothing is
      left; and then it stands for the sliced dense tensor. */
  lemma SliceExact(l: Lora, e: Entry, r: Option<Lora>)
    requires Proper(l) && |l.b.shape| > 2 && e.Slice? && r == GetItem(l, SliceKey(e))
    ensures r.Some? <==> IndexDense(Dense(l), [e]).Some?
    ensures r.Some? ==> (Proper(r.value) <==>
      l.a.shape[0] == l.b.shape[0] || Resolve(e, 1) == Some(Keep([0])) || Resolve(e, l.b.shape[0]) == Some(Keep([])))
    ensures Agrees(l, r, [e])
  {
    BareItemExact(l, e);
    DenseAcceptsBare(l, e);
  }

  // ---------------------------------------------------------------------
  // A slice of a matrix

  lemma RowsSelected(e: Entry, m: nat, c: nat)
    requires e.Slice?
    ensures Selected([e], [m, c]) == if Resolve(e, m).Some? then Some(Sels([], Resolve(e, m).value.pos, Range(0, c))) else None
  {
    SelectedRows([], e, [], m, c);
    assert [] + [e] == [e] && [] + [m] + [c] == [m, c];
  }

  lemma MatrixSource(r: nat, c: nat, sels: seq<Sel>, idx: Index)
    requires sels == Sels([], Range(0, r), Range(0, c)) && InBounds(OutShape(sels), idx)
    ensures Source(sels, idx) == idx
  {
    SelsShape([], Range(0, r), Range(0, c));
    assert [] + [r] + [c] == [r, c];
    SelsSource([], Range(0, r), Range(0, c), [], idx[0], idx[1]);
    assert [] + [idx[0]] + [idx[1]] == idx;
  }

  /** All of a matrix is the matrix. */
  lemma WholeReads(a: Elements, r: nat, c: nat, sels: seq<Sel>)
    requires sels == Sels([], Range(0, r), Range(0, c))
    ensures Reads(a, a, sels)
  {
    forall idx | InBounds(OutShape(sels), idx) ensures a(idx) == a(Source(sels, idx)) {
      MatrixSource(r, c, sels, idx);
    }
  }

  lemma MatrixFactors(l: Lora, s: Selection, b: Tensor)
    requires ShapesIn(l, s) && s.sb == [] && s.batch == [] && s.batchA == [] && s.cols == Range(0, s.c)
    requires b == IndexTensor(l.b, SelsB(s))
    ensures FactorsOf(l, Lora(l.a, b), s)
  {
    SelectionShapes(s);
    IndexReads(l.b, SelsB(s));
    WholeReads(AtOf(l.a), s.r, s.c, SelsA(s));
    assert [] + [s.r] + [s.c] == l.a.shape;
  }

  lemma MatrixSliceMade(l: Lora, e: Entry, s: Selection, b: Tensor)
    requires ShapesIn(l, s) && s.sb == [] && s.batch == [] && s.batchA == [] && s.cols == Range(0, s.c)
    requires e.Slice? && Resolve(e, s.m) == Some(Keep(s.rows)) && b == IndexTensor(l.b, SelsB(s))
    requires Selected([e], l.b.shape) == Some(SelsB(s)) && FactorsOf(l, Lora(l.a, b), s)
    ensures GetItem(l, SliceKey(e)) == Some(Lora(l.a, b))
  {
    MakeIndexed(l, s, l.a, b);
  }

  lemma MatrixSelected(l: Lora, e: Entry, s: Selection)
    requires ShapesIn(l, s) && s.sb == [] && s.batch == [] && s.cols == Range(0, s.c)
    requires e.Slice? && Resolve(e, s.m) == Some(Keep(s.rows))
    ensures Selected([e], l.b.shape) == Some(SelsB(s)) && Selected([e], Shape(l)) == Some(SelsDense(s))
  {
    RowsSelected(e, s.m, s.r);
    RowsSelected(e, s.m, s.c);
    assert [] + [s.m] + [s.r] == [s.m, s.r] && [] + [s.m] + [s.c] == [s.m, s.c];
  }

  lemma MatrixSliceIs(l: Lora, e: Entry, s: Selection) returns (l': Lora)
    requires ShapesIn(l, s) && s.sb == [] && s.batch == [] && s.batchA == [] && s.cols == Range(0, s.c)
    requires e.Slice? && Resolve(e, s.m) == Some(Keep(s.rows)) && Selected([e], l.b.shape) == Some(SelsB(s))
    ensures GetItem(l, SliceKey(e)) == Some(l') && FactorsOf(l, l', s)
  {
    var b := IndexNamed(l.b, SelsB(s));
    MatrixFactors(l, s, b);
    MatrixSliceMade(l, e, s, b);
    l' := Lora(l.a, b);
  }

  lemma MatrixShapesOf(l: Lora, e: Entry, s: Selection)
    requires ShapesIn(l, s) && s.sb == [] && s.batch == [] && s.cols == Range(0, s.c)
    requires e.Slice? && Resolve(e, s.m) == Some(Keep(s.rows))
    ensures ShapesOf(l, s)
  {
    ResolveSel(e, s.m);
  }

  lemma MatrixSliceCommutes(l: Lora, e: Entry, s: Selection)
    requires ShapesIn(l, s) && s.sb == [] && s.sa == [] && s.batch == [] && s.batchA == [] && s.cols == Range(0, s.c)
    requires e.Slice? && Resolve(e, s.m) == Some(Keep(s.rows))
    ensures GetItem(l, SliceKey(e)).Some? && Proper(GetItem(l, SliceKey(e)).value) && Agrees(l, GetItem(l, SliceKey(e)), [e])
  {
    MatrixSelected(l, e, s);
    MatrixShapesOf(l, e, s);
    var l' := MatrixSliceIs(l, e, s);
    FactorsCommute(l, l', s);
    DenseIs(l, l', [e], SelsDense(s));
  }

  /** A slice of a matrix is always right: the rows come from B. */
  lemma MatrixSliceExact(l: Lora, e: Entry)
    requires Proper(l) && |l.b.shape| == 2 && e.Slice?
    ensures GetItem(l, SliceKey(e)).Some? <==> IndexDense(Dense(l), [e]).Some?
    ensures GetItem(l, SliceKey(e)).Some? ==> Proper(GetItem(l, SliceKey(e)).value)
    ensures Agrees(l, GetItem(l, SliceKey(e)), [e])
  {
    var s := PairShapes(l);
    RowsSelected(e, s.m, s.r);
    RowsSelected(e, s.m, s.c);
    assert [] + [s.m] + [s.r] == [s.m, s.r] && [] + [s.m] + [s.c] == [s.m, s.c];
    if Resolve(e, s.m).Some? {
      ResolveSel(e, s.m);
      MatrixSliceCommutes(l, e, s.(batch := [], batchA := [], rows := Resolve(e, s.m).value.pos, cols := Range(0, s.c)));
    }
  }

  // ---------------------------------------------------------------------
  // Where the code and the dense tensor differ

  lemma OneToThree(e: Entry)
    requires e == Slice(Some(1), Some(3), 1)
    ensures Resolve(e, 1) == Some(Keep([])) && Resolve(e, 4).Some? && Resolve(e, 4) != Some(Keep([]))
  {
    assert Stride(1, 3, 1) == [1] + Stride(2, 3, 1);
  }

  /** `l[1:3]` of a pair whose A, of shape (1, r, c), is shared by the four entries of B: A is sliced
      too, nothing of it is left, and what results is no pair. */
  lemma SharedSliceLost(l: Lora, e: Entry, r: Option<Lora>)
    requires Proper(l) && |l.b.shape| == 3 && l.a.shape[0] == 1 && l.b.shape[0] == 4
    requires e == Slice(Some(1), Some(3), 1) && r == GetItem(l, SliceKey(e))
    ensures IndexDense(Dense(l), [e]).Some? && r.Some? && !Proper(r.value)
  {
    OneToThree(e);
    SliceExact(l, e, r);
    DenseAcceptsBare(l, e);
  }

  /** `l[1]` of the same pair: A has no entry 1, and the code fails. */
  lemma SharedIntRefused(l: Lora, r: Option<Lora>)
    requires Proper(l) && |l.b.shape| == 3 && l.a.shape[0] == 1 && l.b.shape[0] == 4 && r == GetItem(l, IntKey(1))
    ensures IndexDense(Dense(l), [Int(1)]).Some? && r.None?
  {
    IntExact(l, 1, r);
    DenseAcceptsBare(l, Int(1));
  }
}
