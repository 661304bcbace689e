/** Splitting low-rank tensors along an axis counted from either end, and what is left when it is counted from
    the end twice. */
module LoraSplit {
  import opened Basics
  import opened Tensors
  import opened Lora
  import opened LoraParts

  /** The axis that a tensor of `n` axes takes `d` for. */
  function AxisOf(d: int, n: nat): (r: Option<nat>)
    ensures r.Some? <==> 0 <= d + n < 2 * n
    ensures r.Some? ==> r.value < n
  {
    if 0 <= d < n then Some(d) else if 0 <= d + n < n then Some(d + n) else None
  }

  function Made(ls: seq<Lora>): Option<seq<Lora>> {
    if forall i :: 0 <= i < |ls| ==> Meets(ls[i]) then Some(ls) else None
  }

  /** The blocks of B, each with A or with the block of A at the same place. */
  function Zipped(l: Lora, axis: nat, ca: seq<nat>, cb: seq<nat>, k: nat): (r: seq<Lora>)
    requires Valid(l.a) && axis < |l.a.shape| && CutsOf(ca, l.a.shape[axis]) && k < |ca|
    requires Valid(l.b) && axis < |l.b.shape| && CutsOf(cb, l.b.shape[axis]) && k < |cb|
    ensures |r| == k
  {
    seq(k, i requires 0 <= i < k => Lora(Block(l.a, axis, ca, i), Block(l.b, axis, cb, i)))
  }

  function Sharing(l: Lora, axis: nat, cb: seq<nat>): (r: seq<Lora>)
    requires Valid(l.b) && axis < |l.b.shape| && CutsOf(cb, l.b.shape[axis])
    ensures |r| == |cb| - 1
  {
    seq(|cb| - 1, i requires 0 <= i < |cb| - 1 => Lora(l.a, Block(l.b, axis, cb, i)))
  }

  /** The third branch: B is split, and A too unless its axis has length 1. */
  function SplitBoth(l: Lora, split: SplitSize, axis: nat): Option<seq<Lora>>
    requires Proper(l) && axis < |l.b.shape|
  {
    match Cuts(l.b.shape[axis], split)
    case None => None
    case Some(cb) =>
      if l.a.shape[axis] == 1 then Made(Sharing(l, axis, cb))
      else
        match Cuts(l.a.shape[axis], split)
        case None => None
        case Some(ca) => Made(Zipped(l, axis, ca, cb, Min(|ca| - 1, |cb| - 1)))
  }

  /** A negative number has the number of axes added once; one that is still negative is handed on to the
      tensors, which count it from the end again. */
  function Split(l: Lora, split: SplitSize, dim: int): Option<seq<Lora>>
    requires Proper(l)
  {
    var n := |l.b.shape|;
    var d := if dim < 0 then dim + n else dim;
    if d == n - 1 || d == n - 2 then
      match Cuts(Shape(l)[d], split)
      case None => None
      case Some(cuts) => Some(PartsAt(l, d, cuts))
    else
      match AxisOf(d, n)
      case None => None
      case Some(axis) => SplitBoth(l, split, axis)
  }

  /** Splitting a tensor. */
  function SplitDense(t: Tensor, split: SplitSize, dim: int): Option<seq<Tensor>>
    requires Valid(t)
  {
    match AxisOf(dim, |t.shape|)
    case None => None
    case Some(axis) =>
      match Cuts(t.shape[axis], split)
      case None => None
      case Some(cuts) => Some(BlocksAt(t, axis, cuts))
  }

  // ---------------------------------------------------------------------
  // Along an axis

  lemma BatchPart(l: Lora, axis: nat, cuts: seq<nat>, i: nat)
    requires Proper(l) && axis < |l.b.shape| - 2 && CutsOf(cuts, l.b.shape[axis]) && i + 1 < |cuts|
    ensures l.a.shape[axis] == 1 ==> Part(l, axis, cuts, i) == Lora(l.a, Block(l.b, axis, cuts, i))
    ensures l.a.shape[axis] != 1 ==> Part(l, axis, cuts, i) == Lora(Block(l.a, axis, cuts, i), Block(l.b, axis, cuts, i))
  {
    hide At, Build, Prod;
    CutBelow(cuts, l.b.shape[axis], i + 1);
  }

  lemma MeetsProper(l: Lora)
    requires Proper(l)
    ensures Meets(l)
  {
  }

  lemma MadeOf(ls: seq<Lora>, ms: seq<Lora>)
    requires |ls| == |ms| && forall i :: 0 <= i < |ls| ==> ls[i] == ms[i] && Proper(ls[i])
    ensures Made(ms) == Some(ls)
  {
    hide Proper, Meets;
    forall i | 0 <= i < |ms| ensures Meets(ms[i]) {
      MeetsProper(ls[i]);
    }
    assert ls == ms;
  }

  lemma BatchMade(l: Lora, axis: nat, cuts: seq<nat>, ls: seq<Lora>)
    requires Proper(l) && axis < |l.b.shape| - 2 && CutsOf(cuts, l.b.shape[axis]) && ls == PartsAt(l, axis, cuts)
    ensures l.a.shape[axis] == 1 ==> Made(Sharing(l, axis, cuts)) == Some(ls)
    ensures l.a.shape[axis] != 1 ==> Made(Zipped(l, axis, cuts, cuts, |cuts| - 1)) == Some(ls)
  {
    hide Block, Part, Made;
    forall i | 0 <= i < |cuts| - 1
      ensures l.a.shape[axis] == 1 ==> ls[i] == Sharing(l, axis, cuts)[i]
      ensures l.a.shape[axis] != 1 ==> ls[i] == Zipped(l, axis, cuts, cuts, |cuts| - 1)[i]
    {
      BatchPart(l, axis, cuts, i);
    }
    if l.a.shape[axis] == 1 {
      MadeOf(ls, Sharing(l, axis, cuts));
    } else {
      MadeOf(ls, Zipped(l, axis, cuts, cuts, |cuts| - 1));
    }
  }

  /** Along a batch axis the third branch gives the parts. */
  lemma BatchSplit(l: Lora, split: SplitSize, axis: nat)
    requires Proper(l) && axis < |l.b.shape| - 2
    ensures SplitBoth(l, split, axis) == match Cuts(Shape(l)[axis], split)
      case None => None
      case Some(cuts) => Some(PartsAt(l, axis, cuts))
  {
    hide PartsAt, Cuts, Made, Sharing, Zipped;
    if Cuts(l.b.shape[axis], split).Some? {
      var cuts := Cuts(l.b.shape[axis], split).value;
      BatchMade(l, axis, cuts, PartsAt(l, axis, cuts));
    }
  }

  lemma SplitAt(l: Lora, split: SplitSize, dim: int, axis: nat)
    requires Proper(l) && axis < |l.b.shape| && (axis == dim || axis == dim + |l.b.shape|)
    ensures Split(l, split, dim) == match Cuts(Shape(l)[axis], split)
      case None => None
      case Some(cuts) => Some(PartsAt(l, axis, cuts))
  {
    hide PartsAt, Cuts, SplitBoth;
    if axis < |l.b.shape| - 2 {
      BatchSplit(l, split, axis);
    }
  }

  lemma SplitRefused(l: Lora, split: SplitSize, dim: int)
    requires Proper(l) && (dim >= |l.b.shape| || dim + 2 * |l.b.shape| < 0)
    ensures Split(l, split, dim).None?
  {
  }

  /** Numbers that the code counts from the end twice. */
  predicate CountedTwice(dim: int, n: nat) {
    0 <= dim + 2 * n < n
  }

  lemma BlocksDense(l: Lora, split: SplitSize, dim: int, axis: nat)
    requires Proper(l) && axis < |l.b.shape| && AxisOf(dim, |l.b.shape|) == Some(axis)
    ensures SplitDense(Dense(l), split, dim).Some? <==> Cuts(Shape(l)[axis], split).Some?
    ensures Cuts(Shape(l)[axis], split).Some? ==>
      DenseOf(SplitDense(Dense(l), split, dim).value, PartsAt(l, axis, Cuts(Shape(l)[axis], split).value))
  {
    hide PartsAt, BlocksAt, Cuts, DenseOf, Build, Prod;
    if Cuts(Shape(l)[axis], split).Some? {
      var cuts := Cuts(Shape(l)[axis], split).value;
      PartsAreBlocks(l, axis, cuts, Dense(l), PartsAt(l, axis, cuts));
    }
  }

  /** Wherever the dense tensor can be split, by one size or by a list of sizes and along any axis counted from
      either end, so can the pair, and gives the pairs of the blocks. The pair accepts nothing else, unless
      the axis is counted from the end twice. */
  lemma SplitCommutes(l: Lora, split: SplitSize, dim: int)
    requires Proper(l)
    ensures SplitDense(Dense(l), split, dim).Some? ==>
      Split(l, split, dim).Some? && DenseOf(SplitDense(Dense(l), split, dim).value, Split(l, split, dim).value)
    ensures !CountedTwice(dim, |l.b.shape|) ==> (Split(l, split, dim).Some? <==> SplitDense(Dense(l), split, dim).Some?)
    ensures CountedTwice(dim, |l.b.shape|) ==> SplitDense(Dense(l), split, dim).None?
  {
    hide Split, PartsAt, Cuts, DenseOf, Dense;
    var n := |l.b.shape|;
    match AxisOf(dim, n)
    case Some(axis) =>
      SplitAt(l, split, dim, axis);
      BlocksDense(l, split, dim, axis);
    case None =>
      if !CountedTwice(dim, n) {
        SplitRefused(l, split, dim);
      }
  }

  // ---------------------------------------------------------------------
  // Axes counted twice

  /** A batch axis is split as if it had been named rightly. */
  lemma TwiceBatch(l: Lora, split: SplitSize, dim: int, axis: nat)
    requires Proper(l) && axis < |l.b.shape| - 2 && axis == dim + 2 * |l.b.shape|
    ensures Split(l, split, dim) == Split(l, split, axis)
  {
    hide PartsAt, Cuts, SplitBoth;
  }

  lemma WholeIndex(idx: Index, axis: nat, n: nat)
    requires axis < |idx| && idx[axis] < n
    ensures idx[axis := Range(0, n)[idx[axis]]] == idx
  {
  }

  lemma WholeSelect(t: Tensor, axis: nat, n: nat)
    requires Valid(t) && axis < |t.shape| && n == t.shape[axis] && PositionsOf(Range(0, n), n)
    ensures Select(t, axis, Range(0, n)) == t
  {
    hide At, Build, Prod;
    var pos := Range(0, n);
    assert t.shape[axis := n] == t.shape;
    forall idx | InBounds(t.shape, idx) ensures At(Select(t, axis, pos), idx) == At(t, idx) {
      WholeIndex(idx, axis, n);
      SelectAt(t, axis, pos, idx);
    }
    SameElements(Select(t, axis, pos), t);
  }

  /** Of the cut points up to `k`, each two next to each other are the whole axis apart. */
  predicate WholePieces(cuts: seq<nat>, total: nat, k: nat)
    requires k < |cuts|
  {
    forall i :: 0 <= i < k ==> cuts[i + 1] == cuts[i] + total
  }

  lemma BlockShape(t: Tensor, axis: nat, cuts: seq<nat>, i: nat)
    requires Valid(t) && axis < |t.shape| && CutsOf(cuts, t.shape[axis]) && i + 1 < |cuts|
    ensures Block(t, axis, cuts, i).shape == t.shape[axis := cuts[i + 1] - cuts[i]]
  {
    CutBelow(cuts, t.shape[axis], i + 1);
  }

  lemma WholeBlock(t: Tensor, axis: nat, cuts: seq<nat>, i: nat)
    requires Valid(t) && axis < |t.shape| && CutsOf(cuts, t.shape[axis]) && i + 1 < |cuts|
    requires cuts[i + 1] - cuts[i] == t.shape[axis]
    ensures Block(t, axis, cuts, i) == t
  {
    hide Select;
    CutBelow(cuts, t.shape[axis], i + 1);
    assert cuts[i] == 0;
    WholeSelect(t, axis, t.shape[axis]);
  }

  lemma RowBlock(l: Lora, axis: nat, cuts: seq<nat>, i: nat)
    requires Proper(l) && axis == |l.b.shape| - 2 && CutsOf(cuts, Shape(l)[axis]) && i + 1 < |cuts|
    ensures Part(l, axis, cuts, i) == Lora(l.a, Block(l.b, axis, cuts, i))
  {
    hide Build, Prod, At;
    CutBelow(cuts, Shape(l)[axis], i + 1);
  }

  lemma ColumnBlock(l: Lora, axis: nat, cuts: seq<nat>, i: nat)
    requires Proper(l) && axis == |l.b.shape| - 1 == |l.a.shape| - 1 && Shape(l)[axis] == l.a.shape[axis]
    requires CutsOf(cuts, l.a.shape[axis]) && i + 1 < |cuts|
    ensures Part(l, axis, cuts, i) == Lora(Block(l.a, axis, cuts, i), l.b)
  {
    hide Build, Prod, At;
    CutBelow(cuts, Shape(l)[axis], i + 1);
  }

  /** A block of A's rank axis fits B only when it is all of A. */
  lemma RowPair(l: Lora, axis: nat, ca: seq<nat>, cb: seq<nat>, i: nat, p: Lora)
    requires Proper(l) && axis == |l.b.shape| - 2 && CutsOf(ca, Rank(l)) && CutsOf(cb, Shape(l)[axis])
    requires i + 1 < |ca| && i + 1 < |cb| && p == Lora(Block(l.a, axis, ca, i), Block(l.b, axis, cb, i))
    ensures Meets(p) <==> ca[i + 1] == ca[i] + Rank(l)
    ensures Meets(p) ==> p == Part(l, axis, cb, i)
  {
    hide Block, Part;
    BlockShape(l.a, axis, ca, i);
    BlockShape(l.b, axis, cb, i);
    if ca[i + 1] == ca[i] + Rank(l) {
      WholeBlock(l.a, axis, ca, i);
      RowBlock(l, axis, cb, i);
    }
  }

  /** A block of B's rank axis fits A only when it is all of B. */
  lemma ColumnPair(l: Lora, axis: nat, ca: seq<nat>, cb: seq<nat>, i: nat, p: Lora)
    requires Proper(l) && axis == |l.b.shape| - 1 && CutsOf(ca, Shape(l)[axis]) && CutsOf(cb, Rank(l))
    requires i + 1 < |ca| && i + 1 < |cb| && p == Lora(Block(l.a, axis, ca, i), Block(l.b, axis, cb, i))
    ensures Meets(p) <==> cb[i + 1] == cb[i] + Rank(l)
    ensures Meets(p) ==> p == Part(l, axis, ca, i)
  {
    hide Block, Part;
    BlockShape(l.a, axis, ca, i);
    BlockShape(l.b, axis, cb, i);
    if cb[i + 1] == cb[i] + Rank(l) {
      WholeBlock(l.b, axis, cb, i);
      ColumnBlock(l, axis, ca, i);
    }
  }

  lemma SharedPair(l: Lora, axis: nat, cb: seq<nat>, i: nat, p: Lora)
    requires Proper(l) && axis == |l.b.shape| - 1 && CutsOf(cb, Rank(l))
    requires i + 1 < |cb| && p == Lora(l.a, Block(l.b, axis, cb, i))
    ensures Meets(p) <==> cb[i + 1] == cb[i] + Rank(l)
    ensures Meets(p) ==> p == l
  {
    hide Block;
    BlockShape(l.b, axis, cb, i);
    if cb[i + 1] == cb[i] + Rank(l) {
      WholeBlock(l.b, axis, cb, i);
    }
  }

  /** Pairs are made exactly when each of them fits, that is, when its block of the rank axis is whole. */
  lemma MadeExactly(ps: seq<Lora>, ls: seq<Lora>, cuts: seq<nat>, total: nat, k: nat)
    requires |ps| == |ls| == k < |cuts|
    requires forall i :: 0 <= i < k ==> (Meets(ps[i]) <==> cuts[i + 1] == cuts[i] + total) && (Meets(ps[i]) ==> ps[i] == ls[i])
    ensures Made(ps) == if WholePieces(cuts, total, k) then Some(ls) else None
  {
    hide Meets;
    if WholePieces(cuts, total, k) {
      forall i | 0 <= i < k ensures Meets(ps[i]) && ps[i] == ls[i] {
        assert cuts[i + 1] == cuts[i] + total;
      }
      assert ps == ls;
    } else {
      var i :| 0 <= i < k && cuts[i + 1] != cuts[i] + total;
      assert !Meets(ps[i]);
    }
  }

  /** With a rank of 1 the rows are split as if they had been named rightly. */
  lemma TwiceRowsOfOne(l: Lora, split: SplitSize, dim: int, axis: nat)
    requires Proper(l) && axis == |l.b.shape| - 2 && axis == dim + 2 * |l.b.shape| && Rank(l) == 1
    ensures Split(l, split, dim) == Split(l, split, axis)
  {
    hide PartsAt, Cuts, Made, Sharing, Zipped;
    if Cuts(Shape(l)[axis], split).Some? {
      var cuts := Cuts(Shape(l)[axis], split).value;
      RowsMade(l, axis, cuts, PartsAt(l, axis, cuts));
    }
  }

  lemma RowsMade(l: Lora, axis: nat, cuts: seq<nat>, ls: seq<Lora>)
    requires Proper(l) && axis == |l.b.shape| - 2 && CutsOf(cuts, Shape(l)[axis]) && ls == PartsAt(l, axis, cuts)
    ensures Made(Sharing(l, axis, cuts)) == Some(ls)
  {
    hide Block, Part, Made;
    forall i | 0 <= i < |cuts| - 1 ensures ls[i] == Sharing(l, axis, cuts)[i] {
      RowBlock(l, axis, cuts, i);
    }
    MadeOf(ls, Sharing(l, axis, cuts));
  }

  lemma RowsZipped(l: Lora, axis: nat, ca: seq<nat>, cb: seq<nat>, k: nat)
    requires Proper(l) && axis == |l.b.shape| - 2 && CutsOf(ca, Rank(l)) && CutsOf(cb, Shape(l)[axis]) && k < |ca| && k < |cb|
    ensures Made(Zipped(l, axis, ca, cb, k)) == if WholePieces(ca, Rank(l), k) then Some(PartsAt(l, axis, cb)[..k]) else None
  {
    hide Block, Part, Made, Meets;
    var ps, ls := Zipped(l, axis, ca, cb, k), PartsAt(l, axis, cb)[..k];
    forall i | 0 <= i < k
      ensures (Meets(ps[i]) <==> ca[i + 1] == ca[i] + Rank(l)) && (Meets(ps[i]) ==> ps[i] == ls[i])
    {
      RowPair(l, axis, ca, cb, i, ps[i]);
    }
    MadeExactly(ps, ls, ca, Rank(l), k);
  }

  /** With another rank A's rank axis is split too. The code fails unless every block of it that meets a block of
      rows is whole; it then gives the parts of the rows that meet one, and loses the others. */
  lemma TwiceRows(l: Lora, split: SplitSize, dim: int, axis: nat, ca: Option<seq<nat>>, cb: Option<seq<nat>>)
    requires Proper(l) && axis == |l.b.shape| - 2 && axis == dim + 2 * |l.b.shape| && Rank(l) != 1
    requires ca == Cuts(Rank(l), split) && cb == Cuts(Shape(l)[axis], split)
    ensures Split(l, split, dim) ==
      if ca.None? || cb.None? then None
      else
        var k := Min(|ca.value| - 1, |cb.value| - 1);
        if WholePieces(ca.value, Rank(l), k) then Some(PartsAt(l, axis, cb.value)[..k]) else None
  {
    hide PartsAt, Cuts, Made, Sharing, Zipped, WholePieces;
    if ca.Some? && cb.Some? {
      RowsZipped(l, axis, ca.value, cb.value, Min(|ca.value| - 1, |cb.value| - 1));
    }
  }

  lemma ColumnsZipped(l: Lora, axis: nat, ca: seq<nat>, cb: seq<nat>, k: nat)
    requires Proper(l) && axis == |l.b.shape| - 1 && CutsOf(ca, Shape(l)[axis]) && CutsOf(cb, Rank(l)) && k < |ca| && k < |cb|
    ensures Made(Zipped(l, axis, ca, cb, k)) == if WholePieces(cb, Rank(l), k) then Some(PartsAt(l, axis, ca)[..k]) else None
  {
    hide Block, Part, Made, Meets;
    var ps, ls := Zipped(l, axis, ca, cb, k), PartsAt(l, axis, ca)[..k];
    forall i | 0 <= i < k
      ensures (Meets(ps[i]) <==> cb[i + 1] == cb[i] + Rank(l)) && (Meets(ps[i]) ==> ps[i] == ls[i])
    {
      ColumnPair(l, axis, ca, cb, i, ps[i]);
    }
    MadeExactly(ps, ls, cb, Rank(l), k);
  }

  lemma ColumnShared(l: Lora, axis: nat, cb: seq<nat>, k: nat)
    requires Proper(l) && axis == |l.b.shape| - 1 && CutsOf(cb, Rank(l)) && k == |cb| - 1
    ensures Made(Sharing(l, axis, cb)) == if WholePieces(cb, Rank(l), k) then Some(Copies(l, k)) else None
  {
    hide Block, Made, Meets;
    var ps, ls := Sharing(l, axis, cb), Copies(l, k);
    forall i | 0 <= i < k
      ensures (Meets(ps[i]) <==> cb[i + 1] == cb[i] + Rank(l)) && (Meets(ps[i]) ==> ps[i] == ls[i])
    {
      SharedPair(l, axis, cb, i, ps[i]);
    }
    MadeExactly(ps, ls, cb, Rank(l), k);
  }

  function Copies(l: Lora, k: nat): seq<Lora> {
    seq(k, _ => l)
  }

  /** Along the last axis B's rank axis is split, where the columns were meant. The code fails unless every block
      of it is whole; a single column then gives the pair itself. */
  lemma TwiceOneColumn(l: Lora, split: SplitSize, dim: int, axis: nat, cb: Option<seq<nat>>)
    requires Proper(l) && axis == |l.b.shape| - 1 && axis == dim + 2 * |l.b.shape| && Columns(l) == 1
    requires cb == Cuts(Rank(l), split)
    ensures Split(l, split, dim) ==
      if cb.Some? && WholePieces(cb.value, Rank(l), |cb.value| - 1) then Some(Copies(l, |cb.value| - 1)) else None
  {
    hide PartsAt, Cuts, Made, Sharing, Zipped, WholePieces, Copies;
    if cb.Some? {
      ColumnShared(l, axis, cb.value, |cb.value| - 1);
    }
  }

  /** More columns are split too. The code fails unless every block of B that meets a block of columns is whole; it
      then gives the parts of the columns that meet one, and loses the others. */
  lemma TwiceColumns(l: Lora, split: SplitSize, dim: int, axis: nat, ca: Option<seq<nat>>, cb: Option<seq<nat>>)
    requires Proper(l) && axis == |l.b.shape| - 1 && axis == dim + 2 * |l.b.shape| && Columns(l) != 1
    requires ca == Cuts(Shape(l)[axis], split) && cb == Cuts(Rank(l), split)
    ensures Split(l, split, dim) ==
      if ca.None? || cb.None? then None
      else
        var k := Min(|ca.value| - 1, |cb.value| - 1);
        if WholePieces(cb.value, Rank(l), k) then Some(PartsAt(l, axis, ca.value)[..k]) else None
  {
    hide PartsAt, Cuts, Made, Sharing, Zipped, WholePieces;
    if cb.Some? && ca.Some? {
      ColumnsZipped(l, axis, ca.value, cb.value, Min(|ca.value| - 1, |cb.value| - 1));
    }
  }

  // ---------------------------------------------------------------------
  // Parts of one size

  lemma OneSize(total: nat, size: nat, cuts: seq<nat>, k: nat)
    requires total > 0 && size > 0 && Cuts(total, Every(size)) == Some(cuts) && 0 < k < |cuts|
    ensures cuts[1] == Min(size, total) && (WholePieces(cuts, total, k) <==> size >= total) && (size >= total ==> k == 1)
  {
    assert cuts == [0] + EveryCuts(Min(size, total), total, size);
    assert EveryCuts(total, total, size) == [total];
  }

  lemma OneSizeCuts(total: nat, size: nat)
    requires size > 0
    ensures Cuts(total, Every(size)).Some? && |Cuts(total, Every(size)).value| > 1
    ensures Cuts(total, Every(size)).value[1] == Min(size, total)
  {
    if total > 0 {
      assert EveryCuts(0, total, size) == [0] + EveryCuts(Min(size, total), total, size);
    }
  }

  /** With one size and a rank above 1 the code fails for sizes below the rank, and for all others gives the first
      part of the rows alone. */
  lemma TwiceRowsOneSize(l: Lora, size: nat, dim: int, axis: nat, cuts: seq<nat>)
    requires Proper(l) && axis == |l.b.shape| - 2 && axis == dim + 2 * |l.b.shape| && Rank(l) > 1 && size > 0
    requires Cuts(Shape(l)[axis], Every(size)) == Some(cuts)
    ensures |cuts| > 1 && cuts[1] == Min(size, Shape(l)[axis])
    ensures Split(l, Every(size), dim) == if size >= Rank(l) then Some([Part(l, axis, cuts, 0)]) else None
  {
    hide Split, Cuts, Part;
    OneSizeCuts(Rank(l), size);
    OneSizeCuts(Shape(l)[axis], size);
    var ca := Cuts(Rank(l), Every(size)).value;
    OneSize(Rank(l), size, ca, Min(|ca| - 1, |cuts| - 1));
    TwiceRows(l, Every(size), dim, axis, Some(ca), Some(cuts));
    assert PartsAt(l, axis, cuts)[..1] == [Part(l, axis, cuts, 0)];
  }

  /** Three rows split in twos along axis -5 of three, with a rank of 2: the third row is lost. */
  lemma RowLost(l: Lora, b: Lora)
    requires Proper(l) && |l.b.shape| == 3 && Shape(l)[1] == 3 && Rank(l) == 2
    requires b == SelectLora(l, 1, Range(0, 2))
    ensures Split(l, Every(2), -5) == Some([b]) && SplitDense(Dense(l), Every(2), -5).None?
  {
    hide Split, Cuts, Dense, SelectLora;
    OneSizeCuts(3, 2);
    var cuts := Cuts(3, Every(2)).value;
    TwiceRowsOneSize(l, 2, -5, 1, cuts);
    assert cuts[0] == 0 && cuts[1] == 2;
    SplitCommutes(l, Every(2), -5);
  }

  /** Axis -6 of three is the first one, where the dense tensor has none. */
  lemma TwiceFirst(l: Lora, split: SplitSize)
    requires Proper(l) && |l.b.shape| == 3
    ensures Split(l, split, -6) == Split(l, split, 0) && SplitDense(Dense(l), split, -6).None?
  {
    hide Split, Dense;
    TwiceBatch(l, split, -6, 0);
    SplitCommutes(l, split, -6);
  }
}
