/** An ellipsis in a tuple: how the code expands it, and when that is what tensors do. */
module LoraEllipsis {
  import opened Basics
  import opened Tensors
  import opened Lora
  import opened LoraIndex
  import opened LoraGetItem

  datatype Element = Dots | Axis(e: Entry)

  /** Every ellipsis becomes `k` whole axes. */
  function Expanded(items: seq<Element>, k: nat): seq<Entry> {
    if items == [] then []
    else
      var n := |items| - 1;
      Expanded(items[..n], k) + match items[n] case Dots => Fulls(k) case Axis(e) => [e]
  }

  /** Indexing a pair: an ellipsis at the end is dropped; any other stands for one whole axis less than
      the tuple has elements. */
  function GetDots(l: Lora, items: seq<Element>): Option<Lora>
    requires Proper(l)
    decreases |items|
  {
    if items == [] then None
    else
      var n := |items| - 1;
      if items[n].Dots? then GetDots(l, items[..n]) else GetItem(l, TupleKey(Expanded(items, n)))
  }

  function Axes(es: seq<Entry>): (r: seq<Element>)
    ensures |r| == |es|
  {
    seq(|es|, i requires 0 <= i < |es| => Axis(es[i]))
  }

  /** A tuple with one ellipsis. */
  function Dotted(front: seq<Entry>, back: seq<Entry>): seq<Element> {
    Axes(front) + [Dots] + Axes(back)
  }

  /** What a tensor of `n` axes takes it for: the ellipsis stands for the axes that are not named. */
  function Meant(front: seq<Entry>, back: seq<Entry>, n: nat): (r: seq<Entry>)
    requires |front| + |back| <= n
    ensures |r| == n
  {
    front + Fulls(n - |front| - |back|) + back
  }

  lemma ExpandedSnoc(items: seq<Element>, x: Element, k: nat)
    ensures Expanded(items + [x], k) == Expanded(items, k) + match x case Dots => Fulls(k) case Axis(e) => [e]
  {
    assert (items + [x])[..|items|] == items;
  }

  lemma AxesSnoc(es: seq<Entry>, n: nat)
    requires |es| == n + 1
    ensures Axes(es) == Axes(es[..n]) + [Axis(es[n])] && es == es[..n] + [es[n]]
  {
  }

  lemma Regroup<T>(a: seq<T>, b: seq<T>, c: seq<T>)
    ensures a + (b + c) == a + b + c
  {
  }

  lemma {:induction false} ExpandedMore(items: seq<Element>, es: seq<Entry>, k: nat)
    ensures Expanded(items + Axes(es), k) == Expanded(items, k) + es
    decreases |es|
  {
    hide Expanded;
    if es == [] {
      assert items + Axes(es) == items && Expanded(items, k) + es == Expanded(items, k);
    } else {
      var n := |es| - 1;
      AxesSnoc(es, n);
      ExpandedMore(items, es[..n], k);
      ExpandedSnoc(items + Axes(es[..n]), Axis(es[n]), k);
      Regroup(items, Axes(es[..n]), [Axis(es[n])]);
      Regroup(Expanded(items, k), es[..n], [es[n]]);
    }
  }

  lemma ExpandedAxes(es: seq<Entry>, k: nat)
    ensures Expanded(Axes(es), k) == es
  {
    ExpandedMore([], es, k);
    assert [] + Axes(es) == Axes(es) && Expanded([], k) + es == es;
  }

  lemma DottedExpanded(front: seq<Entry>, back: seq<Entry>, k: nat)
    ensures Expanded(Dotted(front, back), k) == front + Fulls(k) + back
  {
    hide Expanded;
    ExpandedAxes(front, k);
    ExpandedSnoc(Axes(front), Dots, k);
    ExpandedMore(Axes(front) + [Dots], back, k);
  }

  predicate AllFull(es: seq<Entry>) {
    forall i :: 0 <= i < |es| ==> es[i] == FULL
  }

  /** Whole axes move past entries that are whole axes themselves, and past no others. */
  lemma {:induction false} ShiftedFull(back: seq<Entry>, d: nat, i: nat)
    requires d > 0 && i < |back| && back + Fulls(d) == Fulls(d) + back
    ensures back[i] == FULL
    decreases i
  {
    assert back[i] == (back + Fulls(d))[i] == (Fulls(d) + back)[i];
    if i >= d {
      ShiftedFull(back, d, i - d);
    }
  }

  lemma FullsMove(back: seq<Entry>, d: nat)
    requires d > 0
    ensures back + Fulls(d) == Fulls(d) + back <==> AllFull(back)
  {
    if back + Fulls(d) == Fulls(d) + back {
      forall i | 0 <= i < |back| ensures back[i] == FULL {
        ShiftedFull(back, d, i);
      }
    }
  }

  lemma SameAround(a: seq<Entry>, x: seq<Entry>, y: seq<Entry>)
    ensures a + x == a + y <==> x == y
  {
    if a + x == a + y {
      assert (a + x)[|a|..] == x && (a + y)[|a|..] == y;
    }
  }

  /** The two readings, with whole axes left over behind the one and in front of the other. */
  lemma ReadingsAgree(front: seq<Entry>, back: seq<Entry>, k: nat, d: nat)
    ensures front + Fulls(k) + back + Fulls(d) == front + Fulls(k + d) + back <==> d == 0 || AllFull(back)
  {
    var x, y := back + Fulls(d), Fulls(d) + back;
    assert front + Fulls(k) + back + Fulls(d) == front + Fulls(k) + x;
    assert front + Fulls(k + d) + back == front + Fulls(k) + y;
    SameAround(front + Fulls(k), x, y);
    if d == 0 {
      assert x == back && y == back;
    } else {
      FullsMove(back, d);
    }
  }

  lemma MeantAtEnd(front: seq<Entry>, n: nat)
    requires |front| <= n
    ensures Padded(front, n) == Meant(front, [], n)
  {
  }

  lemma DotsStep(l: Lora, items: seq<Element>, es: seq<Entry>)
    requires Proper(l) && items != [] && !items[|items| - 1].Dots? && es == Expanded(items, |items| - 1)
    ensures GetDots(l, items) == GetItem(l, TupleKey(es))
  {
  }

  lemma DotsDropped(l: Lora, items: seq<Element>)
    requires Proper(l)
    ensures GetDots(l, items + [Dots]) == GetDots(l, items)
  {
    assert (items + [Dots])[..|items|] == items;
  }

  lemma TooMany(l: Lora, es: seq<Entry>)
    requires Proper(l) && |es| > |l.b.shape|
    ensures GetItem(l, TupleKey(es)).None?
  {
  }

  /** What the code makes of an ellipsis in front of other entries; where more than half of the axes are named
      it fails. */
  lemma DotsRead(l: Lora, front: seq<Entry>, back: seq<Entry>, k: nat, es: seq<Entry>)
    requires Proper(l) && back != [] && k == |front| + |back| && es == front + Fulls(k) + back
    ensures GetDots(l, Dotted(front, back)) == GetItem(l, TupleKey(es))
    ensures 2 * k > |l.b.shape| ==> GetDots(l, Dotted(front, back)).None?
  {
    hide GetDots, GetItem, Expanded, Proper;
    var items := Dotted(front, back);
    assert |items| == k + 1 && items[k] == Axis(back[|back| - 1]);
    DottedExpanded(front, back, k);
    DotsStep(l, items, es);
    if 2 * k > |l.b.shape| {
      TooMany(l, es);
    }
  }

  /** It is what the ellipsis means exactly when half of the axes are named, or all entries behind it are
      whole axes. */
  lemma DotsExact(front: seq<Entry>, back: seq<Entry>, n: nat, k: nat, es: seq<Entry>)
    requires k == |front| + |back| && 2 * k <= n && es == front + Fulls(k) + back
    ensures Padded(es, n) == Meant(front, back, n) <==> 2 * k == n || AllFull(back)
  {
    ReadingsAgree(front, back, k, n - 2 * k);
    PaddedIs(es, n, n - 2 * k);
  }

  lemma PaddedIs(es: seq<Entry>, n: nat, d: nat)
    requires n == |es| + d
    ensures Padded(es, n) == es + Fulls(d)
  {
  }

  /** An ellipsis at the end changes nothing, since missing entries are whole axes too; but alone it is
      refused. */
  lemma DotsAtEnd(l: Lora, front: seq<Entry>)
    requires Proper(l)
    ensures front == [] ==> GetDots(l, Axes(front) + [Dots]).None?
    ensures front != [] ==> GetDots(l, Axes(front) + [Dots]) == GetItem(l, TupleKey(front))
    ensures |front| <= |l.b.shape| ==> Padded(front, |l.b.shape|) == Meant(front, [], |l.b.shape|)
  {
    hide GetItem, Expanded, Proper;
    DotsDropped(l, Axes(front));
    if front != [] {
      ExpandedAxes(front, |front| - 1);
      DotsStep(l, Axes(front), front);
    }
    if |front| <= |l.b.shape| {
      MeantAtEnd(front, |l.b.shape|);
    }
  }

  lemma DotsSelect(front: seq<Entry>, back: seq<Entry>, n: nat, k: nat, es: seq<Entry>, shape: seq<nat>)
    requires k == |front| + |back| && 2 * k <= n == |shape| && es == front + Fulls(k) + back
    requires 2 * k == n || AllFull(back)
    ensures Padded(es, n) == Meant(front, back, n) && Selected(es, shape) == Selected(Meant(front, back, n), shape)
  {
    DotsExact(front, back, n, k, es);
    SelectedPadded(es, Meant(front, back, n), shape);
  }

  lemma SameSelection(t: Tensor, es: seq<Entry>, es': seq<Entry>)
    requires Valid(t) && Selected(es, t.shape) == Selected(es', t.shape)
    ensures IndexDense(t, es) == IndexDense(t, es')
  {
  }

  /** So a tuple with an ellipsis that is read right stands for the dense tensor indexed the same way, when A
      is shared. */
  lemma DotsCommute(l: Lora, front: seq<Entry>, back: seq<Entry>, n: nat, k: nat, meant: seq<Entry>, r: Option<Lora>)
    requires Proper(l) && SharedA(l) && back != [] && n == |l.b.shape| && k == |front| + |back|
    requires 2 * k == n || (2 * k < n && AllFull(back))
    requires meant == Meant(front, back, n) && meant[n - 2].Slice? && meant[n - 1].Slice?
    requires r == GetDots(l, Dotted(front, back))
    ensures r.Some? <==> IndexDense(Dense(l), meant).Some?
    ensures r.Some? ==> Proper(r.value)
    ensures r.Some? ==> IndexDense(Dense(l), meant) == Some(Dense(r.value))
  {
    hide GetDots, GetItem, Dense, IndexDense, Selected, SharedA, Fulls, Padded, Meant, Dotted, AllFull;
    var es := front + Fulls(k) + back;
    assert |es| == 2 * k;
    DotsRead(l, front, back, k, es);
    DotsSelect(front, back, n, k, es, Shape(l));
    SharedTupleCommutes(l, es, meant, r);
    SameSelection(Dense(l), es, meant);
  }

  /** `l[..., 0:1]` of a pair of three axes takes the first row where the first column is meant. */
  lemma DotsTakeRows(l: Lora, e: Entry)
    requires Proper(l) && |l.b.shape| == 3 && e == Slice(Some(0), Some(1), 1)
    ensures GetDots(l, Dotted([], [e])) == GetItem(l, TupleKey([FULL, e]))
    ensures Padded([FULL, e], 3) == [FULL, e, FULL] && Meant([], [e], 3) == [FULL, FULL, e]
  {
    hide GetDots, GetItem, Dotted, Proper;
    assert [] + Fulls(1) + [e] == [FULL, e];
    DotsRead(l, [], [e], 1, [FULL, e]);
  }
}
