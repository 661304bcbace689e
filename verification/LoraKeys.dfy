/** The three ways to index a pair, each compared with indexing the dense tensor. */
module LoraKeys {
  import opened Basics
  import opened Tensors
  import opened Lora
  import opened LoraParts
  import opened LoraIndex
  import opened LoraItems

  // ---------------------------------------------------------------------
  // Shapes of an indexed pair

  predicate ShapesOf(l: Lora, s: Selection) {
    && Proper(l) && Rank(l) == s.r
    && l.a.shape == s.sa + [s.r] + [s.c] && l.b.shape == s.sb + [s.m] + [s.r]
    && Selects(s.batch, s.sb) && PositionsOf(s.rows, s.m) && PositionsOf(s.cols, s.c)
  }

  /** `l'` has the indexed factors of `l`. */
  ghost predicate FactorsOf(l: Lora, l': Lora, s: Selection)
    requires Valid(l.a) && Valid(l.b)
  {
    && Valid(l'.a) && Valid(l'.b)
    && l'.a.shape == OutShape(s.batchA) + [s.r] + [|s.cols|] && l'.b.shape == OutShape(s.batch) + [|s.rows|] + [s.r]
    && Reads(AtOf(l'.a), AtOf(l.a), SelsA(s)) && Reads(AtOf(l'.b), AtOf(l.b), SelsB(s))
  }

  lemma IndexedFactors(l: Lora, s: Selection, a: Tensor, b: Tensor)
    requires Valid(l.a) && Valid(l.b) && a == IndexTensor(l.a, SelsA(s)) && b == IndexTensor(l.b, SelsB(s))
    ensures FactorsOf(l, Lora(a, b), s)
  {
    SelectionShapes(s);
    IndexReads(l.a, SelsA(s));
    IndexReads(l.b, SelsB(s));
  }

  lemma FactorsProper(l: Lora, l': Lora, s: Selection)
    requires Valid(l.a) && Valid(l.b) && FactorsOf(l, l', s)
    ensures Proper(l') <==> Broadcasts(OutShape(s.batchA), OutShape(s.batch))
    ensures Proper(l') ==> Rank(l') == s.r && Shape(l') == OutShape(SelsDense(s))
  {
    SelectionShapes(s);
    PartsProper(l', OutShape(s.batchA), OutShape(s.batch), |s.rows|, s.r, |s.cols|);
  }

  lemma SelectsDense(l: Lora, s: Selection)
    requires ShapesOf(l, s)
    ensures Shape(l) == s.sb + [s.m] + [s.c] && Selects(SelsDense(s), Shape(l)) && |s.sa| == |s.sb|
  {
    assert l.b.shape[..|l.b.shape| - 1] == s.sb + [s.m];
    SelectsSnoc(s.batch, Keep(s.rows), s.sb, s.m);
    SelectsSnoc(s.batch + [Keep(s.rows)], Keep(s.cols), s.sb + [s.m], s.c);
  }

  lemma SelectsSnoc(sels: seq<Sel>, sel: Sel, shape: seq<nat>, n: nat)
    requires Selects(sels, shape) && SelOf(sel, n)
    ensures Selects(sels + [sel], shape + [n])
  {
  }

  /** When A's selections fit B's, the indexed pair stands for the indexed dense tensor. */
  lemma FactorsCommute(l: Lora, l': Lora, s: Selection)
    requires ShapesOf(l, s) && FactorsOf(l, l', s) && BatchOk(s.batch, s.batchA, s.sa)
    ensures Proper(l') && Dense(l') == IndexTensor(Dense(l), SelsDense(s))
  {
    BatchShapes(s.batch, s.batchA, s.sa);
    FactorsProper(l, l', s);
    SelectsDense(l, s);
    IndexedCommutes(l, l', s);
  }

  // ---------------------------------------------------------------------
  // Resolving entries

  lemma ResolveSnoc(es: seq<Entry>, e: Entry, shape: seq<nat>, n: nat)
    requires |es| == |shape|
    ensures var r, s := ResolveAll(es, shape), Resolve(e, n);
      ResolveAll(es + [e], shape + [n]) == if r.Some? && s.Some? then Some(r.value + [s.value]) else None
  {
    assert (es + [e])[..|es|] == es && (shape + [n])[..|shape|] == shape;
  }

  lemma ResolveTwo(es: seq<Entry>, e: Entry, f: Entry, shape: seq<nat>, n: nat, m: nat)
    requires |es| == |shape|
    ensures var r, s, t := ResolveAll(es, shape), Resolve(e, n), Resolve(f, m);
      ResolveAll(es + [e] + [f], shape + [n] + [m]) ==
        if r.Some? && s.Some? && t.Some? then Some(r.value + [s.value] + [t.value]) else None
  {
    ResolveSnoc(es, e, shape, n);
    ResolveSnoc(es + [e], f, shape + [n], m);
  }

  lemma {:induction false} StrideRange(lo: nat, hi: nat)
    requires lo <= hi
    ensures Stride(lo, hi, 1) == Range(lo, hi)
    decreases hi - lo
  {
    if lo < hi {
      StrideRange(lo + 1, hi);
    }
  }

  lemma ResolveFull(n: nat)
    ensures Resolve(FULL, n) == Some(Keep(Range(0, n)))
  {
    StrideRange(0, n);
  }

  /** A slice that keeps as many positions as the axis has keeps them all. */
  lemma {:induction false} StrideAll(lo: nat, hi: nat, step: nat)
    requires lo <= hi && step > 0 && |Stride(lo, hi, step)| == hi - lo
    ensures Stride(lo, hi, step) == Range(lo, hi)
    decreases hi - lo
  {
    if lo < hi {
      if step > 1 && hi - lo > 1 {
        assert |Stride(lo + step, hi, step)| <= (if lo + step < hi then hi - (lo + step) else 0);
        assert |Stride(lo, hi, step)| == 1 + |Stride(lo + step, hi, step)|;
      } else if step == 1 {
        StrideAll(lo + 1, hi, step);
      } else {
        assert Stride(lo + step, hi, step) == [];
      }
    }
  }

  lemma KeepsAll(e: Entry, n: nat)
    requires e.Slice? && Resolve(e, n).Some? && |Resolve(e, n).value.pos| == n
    ensures Resolve(e, n) == Some(Keep(Range(0, n)))
  {
    var lo := match e.start case None => 0 case Some(x) => Clamp(x, n);
    var hi := match e.stop case None => n case Some(x) => Clamp(x, n);
    var pos := Stride(lo, hi, e.step);
    assert |pos| <= (if lo < hi then hi - lo else 0);
    if n > 0 {
      assert lo == 0 && hi == n;
      StrideAll(lo, hi, e.step);
    } else {
      assert pos == [];
    }
  }

  // ---------------------------------------------------------------------
  // Which axes fit

  /** The selections of the batch axes of B and A are of the same kinds. */
  predicate SameKinds(batch: seq<Sel>, batchA: seq<Sel>) {
    |batch| == |batchA| && forall i :: 0 <= i < |batch| ==> (batch[i].Pick? <==> batchA[i].Pick?)
  }

  predicate AxisBroadcasts(s: Sel, sa: Sel) {
    s.Keep? && sa.Keep? ==> |sa.pos| == 1 || |sa.pos| == |s.pos|
  }

  lemma {:induction false} BroadcastsByAxis(batch: seq<Sel>, batchA: seq<Sel>)
    requires SameKinds(batch, batchA)
    ensures |OutShape(batch)| == |OutShape(batchA)|
    ensures Broadcasts(OutShape(batchA), OutShape(batch))
       <==> forall i :: 0 <= i < |batch| ==> AxisBroadcasts(batch[i], batchA[i])
  {
    if batch != [] {
      var n := |batch| - 1;
      BroadcastsByAxis(batch[..n], batchA[..n]);
      assert forall i :: 0 <= i < n ==> batch[..n][i] == batch[i] && batchA[..n][i] == batchA[i];
      if batch[n].Keep? {
        BroadcastsSnoc(OutShape(batchA[..n]), |batchA[n].pos|, OutShape(batch[..n]), |batch[n].pos|);
      }
    }
  }

  lemma BroadcastsSnoc(a: seq<nat>, x: nat, b: seq<nat>, y: nat)
    requires |a| == |b|
    ensures Broadcasts(a + [x], b + [y]) <==> Broadcasts(a, b) && (x == 1 || x == y)
  {
    var a', b' := a + [x], b + [y];
    if Broadcasts(a', b') {
      forall i | 0 <= i < |a| ensures a[i] == 1 || a[i] == b[i] {
        assert a'[i] == 1 || a'[i] == b'[i];
      }
      assert a'[|a|] == 1 || a'[|a|] == b'[|a|];
    }
  }

  // ---------------------------------------------------------------------
  // Tuples

  /** What an entry of a batch axis selects of A, whose axis has length `m`. */
  function SelA(e: Entry, m: nat): Sel {
    match e
    case Int(j) => Pick(if m == 0 then 0 else j % m)
    case Slice(_, _, _) => Keep(Range(0, m))
  }

  function BatchSelsA(batch: seq<Entry>, shape: seq<nat>): (r: seq<Sel>)
    requires |batch| == |shape|
    ensures |r| == |batch| && forall i :: 0 <= i < |r| ==> r[i] == SelA(batch[i], shape[i])
  {
    seq(|batch|, i requires 0 <= i < |batch| => SelA(batch[i], shape[i]))
  }

  lemma EntryASel(e: Entry, m: nat)
    requires e.Int? ==> m > 0
    ensures EntryA(e, m).Some? && Resolve(EntryA(e, m).value, m) == Some(SelA(e, m))
  {
    if e.Slice? {
      ResolveFull(m);
    }
  }

  lemma {:induction false} EntriesASels(batch: seq<Entry>, shape: seq<nat>, sa: seq<nat>)
    requires |batch| <= |shape| && sa == shape[..|batch|]
    requires forall i :: 0 <= i < |batch| && batch[i].Int? ==> sa[i] > 0
    ensures EntriesA(batch, shape).Some? && ResolveAll(EntriesA(batch, shape).value, sa) == Some(BatchSelsA(batch, sa))
    decreases |batch|
  {
    hide Resolve, SelA, EntryA;
    if batch != [] {
      var n := |batch| - 1;
      assert shape[..n] == sa[..n];
      EntriesASels(batch[..n], shape, sa[..n]);
      EntryASel(batch[n], sa[n]);
      assert BatchSelsA(batch, sa) == BatchSelsA(batch[..n], sa[..n]) + [SelA(batch[n], sa[n])];
      ResolveSnoc(EntriesA(batch[..n], shape).value, EntryA(batch[n], sa[n]).value, sa[..n], sa[n]);
      assert sa == sa[..n] + [sa[n]];
    }
  }

  /** An entry of a batch axis fits when A is shared there, or it is an integer, or it keeps the axis. */
  predicate Fits(e: Entry, n: nat, m: nat) {
    e.Slice? && m != 1 ==> Resolve(e, n) == Some(Keep(Range(0, n)))
  }

  predicate AllFit(batch: seq<Entry>, sb: seq<nat>, sa: seq<nat>) {
    |batch| == |sb| == |sa| && forall i :: 0 <= i < |batch| ==> Fits(batch[i], sb[i], sa[i])
  }

  /** An axis of A is shared or as long as that of B. */
  lemma FitsExactly(e: Entry, n: nat, m: nat)
    requires Resolve(e, n).Some? && (m == 1 || m == n)
    ensures Fits(e, n, m) <==> AxisBroadcasts(Resolve(e, n).value, SelA(e, m))
    ensures Fits(e, n, m) ==> AxisOk(Resolve(e, n).value, SelA(e, m), m)
    ensures Resolve(e, n).value.Pick? <==> SelA(e, m).Pick?
  {
    if e.Slice? && m != 1 && |Resolve(e, n).value.pos| == n {
      KeepsAll(e, n);
    }
    if e.Slice? && m == 1 {
      assert Range(0, 1) == [0];
    }
  }

  lemma TupleAxes(batch: seq<Entry>, sb: seq<nat>, sa: seq<nat>, sels: seq<Sel>)
    requires |batch| == |sb| && Broadcasts(sa, sb) && ResolveAll(batch, sb) == Some(sels)
    ensures SameKinds(sels, BatchSelsA(batch, sa)) && |OutShape(sels)| == |OutShape(BatchSelsA(batch, sa))|
    ensures Broadcasts(OutShape(BatchSelsA(batch, sa)), OutShape(sels)) <==> AllFit(batch, sb, sa)
    ensures AllFit(batch, sb, sa) ==> BatchOk(sels, BatchSelsA(batch, sa), sa)
    ensures forall i :: 0 <= i < |batch| && batch[i].Int? ==> sa[i] > 0
  {
    ResolvedAll(batch, sb);
    forall i | 0 <= i < |batch|
      ensures sels[i].Pick? <==> BatchSelsA(batch, sa)[i].Pick?
      ensures Fits(batch[i], sb[i], sa[i]) <==> AxisBroadcasts(sels[i], BatchSelsA(batch, sa)[i])
      ensures Fits(batch[i], sb[i], sa[i]) ==> AxisOk(sels[i], BatchSelsA(batch, sa)[i], sa[i])
      ensures batch[i].Int? ==> sa[i] > 0
    {
      assert Resolve(batch[i], sb[i]) == Some(sels[i]);
      FitsExactly(batch[i], sb[i], sa[i]);
    }
    BroadcastsByAxis(sels, BatchSelsA(batch, sa));
  }

  /** Selecting with two slices at the end. */
  lemma SelectedTwo(es: seq<Entry>, e: Entry, f: Entry, shape: seq<nat>, n: nat, m: nat)
    requires |es| == |shape| && e.Slice? && f.Slice?
    ensures var r, s, u := ResolveAll(es, shape), Resolve(e, n), Resolve(f, m);
      Selected(es + [e] + [f], shape + [n] + [m]) ==
        if r.Some? && s.Some? && u.Some? then Some(Sels(r.value, s.value.pos, u.value.pos)) else None
  {
    ResolveTwo(es, e, f, shape, n, m);
    ResolveSel(e, n);
    ResolveSel(f, m);
  }

  lemma SelectedRows(es: seq<Entry>, e: Entry, shape: seq<nat>, n: nat, r: nat)
    requires |es| == |shape| && e.Slice?
    ensures var b, s := ResolveAll(es, shape), Resolve(e, n);
      Selected(es + [e], shape + [n] + [r]) == if b.Some? && s.Some? then Some(Sels(b.value, s.value.pos, Range(0, r))) else None
  {
    SelectedTwo(es, e, FULL, shape, n, r);
    ResolveFull(r);
    assert Padded(es + [e], |shape| + 2) == es + [e] + [FULL];
  }

  lemma SelectedColumns(es: seq<Entry>, f: Entry, shape: seq<nat>, r: nat, c: nat)
    requires |es| == |shape| && f.Slice?
    ensures var b, s := ResolveAll(es, shape), Resolve(f, c);
      Selected(es + [FULL, f], shape + [r] + [c]) == if b.Some? && s.Some? then Some(Sels(b.value, Range(0, r), s.value.pos)) else None
  {
    SelectedTwo(es, FULL, f, shape, r, c);
    ResolveFull(r);
    assert es + [FULL, f] == es + [FULL] + [f];
  }

  /** The entries of a tuple: those of the batch axes, the rows' and the columns'. */
  predicate TupleOf(es: seq<Entry>, eb: seq<Entry>, er: Entry, ec: Entry) {
    es == eb + [er] + [ec] && er.Slice? && ec.Slice?
  }

  /** What a tuple selects of the dense tensor and of B, from the shapes alone. */
  lemma TupleSelects(es: seq<Entry>, eb: seq<Entry>, er: Entry, ec: Entry, s: Selection)
    requires TupleOf(es, eb, er, ec) && |eb| == |s.sb| && ResolveAll(eb, s.sb) == Some(s.batch)
    requires Resolve(er, s.m) == Some(Keep(s.rows)) && Resolve(ec, s.c) == Some(Keep(s.cols))
    ensures Selected(es, s.sb + [s.m] + [s.c]) == Some(SelsDense(s))
    ensures Selected(es[..|es| - 1], s.sb + [s.m] + [s.r]) == Some(SelsB(s))
  {
    assert es[..|es| - 1] == eb + [er];
    SelectedTwo(eb, er, ec, s.sb, s.m, s.c);
    SelectedRows(eb, er, s.sb, s.m, s.r);
  }

  /** And of A. */
  lemma TupleSelectsA(es: seq<Entry>, eb: seq<Entry>, er: Entry, ec: Entry, s: Selection, shape: seq<nat>)
    requires TupleOf(es, eb, er, ec) && |eb| == |s.sa| && s.batchA == BatchSelsA(eb, s.sa) && shape == s.sa + [s.r] + [s.c]
    requires (forall i :: 0 <= i < |eb| && eb[i].Int? ==> s.sa[i] > 0) && Resolve(ec, s.c) == Some(Keep(s.cols))
    ensures EntriesA(es[..|es| - 2], shape).Some?
    ensures Selected(EntriesA(es[..|es| - 2], shape).value + [FULL, es[|es| - 1]], shape) == Some(SelsA(s))
  {
    assert es[..|es| - 2] == eb && shape[..|eb|] == s.sa;
    EntriesASels(eb, shape, s.sa);
    SelectedColumns(EntriesA(eb, shape).value, ec, s.sa, s.r, s.c);
  }

  /** Where an entry does not resolve, neither factor nor the dense tensor can be indexed. */
  lemma TupleFails(es: seq<Entry>, eb: seq<Entry>, er: Entry, ec: Entry, sb: seq<nat>, m: nat, r: nat, c: nat)
    requires TupleOf(es, eb, er, ec) && |eb| == |sb|
    ensures Selected(es, sb + [m] + [c]).Some? <==> ResolveAll(eb, sb).Some? && Resolve(er, m).Some? && Resolve(ec, c).Some?
    ensures Selected(es[..|es| - 1], sb + [m] + [r]).Some? <==> ResolveAll(eb, sb).Some? && Resolve(er, m).Some?
  {
    assert es[..|es| - 1] == eb + [er];
    SelectedTwo(eb, er, ec, sb, m, c);
    SelectedRows(eb, er, sb, m, r);
  }

  lemma TupleFailsA(ea: seq<Entry>, ec: Entry, sa: seq<nat>, r: nat, c: nat)
    requires |ea| == |sa| && ec.Slice? && Selected(ea + [FULL, ec], sa + [r] + [c]).Some?
    ensures Resolve(ec, c).Some?
  {
    SelectedColumns(ea, ec, sa, r, c);
  }

  // ---------------------------------------------------------------------
  // The result of a tuple

  lemma MakeIndexed(l: Lora, s: Selection, a: Tensor, b: Tensor)
    requires Valid(l.a) && Valid(l.b) && FactorsOf(l, Lora(a, b), s) && |OutShape(s.batchA)| == |OutShape(s.batch)|
    ensures Make(Some(a), Some(b)) == Some(Lora(a, b))
  {
  }

  lemma TupleItemMade(l: Lora, es: seq<Entry>, ea: seq<Entry>, s: Selection, a: Tensor, b: Tensor)
    requires Proper(l) && |es| == |l.b.shape| && EntriesA(es[..|es| - 2], l.a.shape) == Some(ea)
    requires Selected(ea + [FULL, es[|es| - 1]], l.a.shape) == Some(SelsA(s)) && Selected(es[..|es| - 1], l.b.shape) == Some(SelsB(s))
    requires a == IndexTensor(l.a, SelsA(s)) && b == IndexTensor(l.b, SelsB(s)) && |OutShape(s.batchA)| == |OutShape(s.batch)|
    ensures TupleItem(l, es) == Some(Lora(a, b)) && FactorsOf(l, Lora(a, b), s)
  {
    hide Make, IndexTensor, Selected, SelsA, SelsB, FactorsOf, OutShape, EntriesA;
    IndexedFactors(l, s, a, b);
    MakeIndexed(l, s, a, b);
  }

  lemma IndexNamed(t: Tensor, sels: seq<Sel>) returns (r: Tensor)
    requires Valid(t)
    ensures r == IndexTensor(t, sels)
  {
    r := IndexTensor(t, sels);
  }

  lemma TupleItemIs(l: Lora, es: seq<Entry>, ea: seq<Entry>, s: Selection) returns (l': Lora)
    requires Proper(l) && |es| == |l.b.shape| && EntriesA(es[..|es| - 2], l.a.shape) == Some(ea)
    requires Selected(ea + [FULL, es[|es| - 1]], l.a.shape) == Some(SelsA(s)) && Selected(es[..|es| - 1], l.b.shape) == Some(SelsB(s))
    requires |OutShape(s.batchA)| == |OutShape(s.batch)|
    ensures TupleItem(l, es) == Some(l') && FactorsOf(l, l', s)
  {
    var a := IndexNamed(l.a, SelsA(s));
    var b := IndexNamed(l.b, SelsB(s));
    TupleItemMade(l, es, ea, s, a, b);
    l' := Lora(a, b);
  }
}
