/** Runs of operations on low-rank tensors. */
module LoraRuns {
  import opened Basics
  import opened Tensors
  import opened Lora
  import opened LoraShapes
  import opened LoraReshape
  import opened LoraIndex
  import opened LoraGetItem

  datatype Op =
    | ReshapeOp(dims: seq<int>)
    | PermuteOp(axes: seq<int>)
    | TransposeOp(dim0: int, dim1: int)
    | IndexOp(key: Key)

  function ApplyLora(l: Lora, op: Op): Option<Lora>
    requires Proper(l)
  {
    match op
    case ReshapeOp(dims) => Reshape(l, dims)
    case PermuteOp(axes) => PermuteLora(l, axes)
    case TransposeOp(dim0, dim1) =>
      (match TransposeDims(|l.b.shape|, dim0, dim1)
       case None => None
       case Some(dims) => PermuteLora(l, dims))
    case IndexOp(key) => GetItem(l, key)
  }

  function ApplyDense(t: Tensor, op: Op): (r: Option<Tensor>)
    requires Valid(t)
    ensures r.Some? ==> Valid(r.value)
  {
    match op
    case ReshapeOp(dims) => ReshapeDense(t, dims)
    case PermuteOp(axes) => PermuteDense(t, axes)
    case TransposeOp(dim0, dim1) =>
      (match TransposeDims(|t.shape|, dim0, dim1)
       case None => None
       case Some(dims) => PermuteDense(t, dims))
    case IndexOp(key) => IndexDense(t, Entries(key))
  }

  /** The last two entries of a tuple, counting those left out, are slices. */
  predicate EndsInSlices(es: seq<Entry>, n: nat) {
    0 < |es| <= n && n >= 2 && var whole := Padded(es, n); whole[n - 2].Slice? && whole[n - 1].Slice?
  }

  /** The pair accepts the operation and what results is a pair. A reshape needs a shared A, a rank and at most one
      open entry; the axes of a permutation are named as tensors name them; a tuple must end in slices.
      `TupleExact`, `SliceExact` and `IntExact` say when an index gives a pair. */
  predicate Supported(l: Lora, op: Op)
    requires Proper(l)
  {
    && ApplyLora(l, op).Some? && Proper(ApplyLora(l, op).value)
    && (op.ReshapeOp? ==> SharedA(l) && Rank(l) > 0 && Unknowns(op.dims) <= 1)
    && (op.PermuteOp? ==> InRange(|l.b.shape|, op.axes))
    && (op.IndexOp? && op.key.TupleKey? ==> EndsInSlices(op.key.entries, |l.b.shape|))
  }

  lemma SliceCommutes(l: Lora, e: Entry, r: Option<Lora>)
    requires Proper(l) && r == GetItem(l, SliceKey(e))
    ensures Agrees(l, r, [e])
  {
    if e.Slice? {
      if |l.b.shape| > 2 {
        SliceExact(l, e, r);
      } else {
        MatrixSliceExact(l, e);
      }
    }
  }

  lemma IntCommutes(l: Lora, i: int, r: Option<Lora>)
    requires Proper(l) && r == GetItem(l, IntKey(i))
    ensures Agrees(l, r, [Int(i)])
  {
    if |l.b.shape| > 2 {
      IntExact(l, i, r);
    }
  }

  lemma TupleAgrees(l: Lora, es: seq<Entry>, r: Option<Lora>)
    requires Proper(l) && r == GetItem(l, TupleKey(es)) && EndsInSlices(es, |l.b.shape|)
    ensures Agrees(l, r, es)
  {
    TupleExact(l, es, Padded(es, |l.b.shape|));
  }

  lemma IndexCommutes(l: Lora, key: Key, r: Option<Lora>)
    requires Proper(l) && r == GetItem(l, key) && (key.TupleKey? ==> EndsInSlices(key.entries, |l.b.shape|))
    ensures Agrees(l, r, Entries(key))
  {
    hide Agrees, GetItem, Proper, EndsInSlices, Dense, IndexDense;
    match key
    case IntKey(i) => IntCommutes(l, i, r);
    case SliceKey(e) => SliceCommutes(l, e, r);
    case TupleKey(es) => TupleAgrees(l, es, r);
  }

  lemma TransposeInRange(n: nat, dim0: int, dim1: int)
    requires TransposeDims(n, dim0, dim1).Some?
    ensures InRange(n, TransposeDims(n, dim0, dim1).value)
  {
  }

  lemma TransposeCommutes(l: Lora, dim0: int, dim1: int, l': Lora)
    requires Proper(l) && ApplyLora(l, TransposeOp(dim0, dim1)) == Some(l')
    ensures Proper(l') && ApplyDense(Dense(l), TransposeOp(dim0, dim1)) == Some(Dense(l'))
  {
    hide Dense, PermuteLora, PermuteDense, TransposeDims, Prod;
    var dims := TransposeDims(|l.b.shape|, dim0, dim1).value;
    TransposeInRange(|l.b.shape|, dim0, dim1);
    PermuteCommutes(l, dims, Negatives(|l.b.shape|, dims));
  }

  lemma OpCommutes(l: Lora, op: Op, l': Lora)
    requires Proper(l) && Supported(l, op) && ApplyLora(l, op) == Some(l')
    ensures ApplyDense(Dense(l), op) == Some(Dense(l'))
  {
    match op
    case ReshapeOp(dims) => ReshapeCommutes(l, dims, Expand(Shape(l), dims).value);
    case PermuteOp(axes) => PermuteCommutes(l, axes, Negatives(|l.b.shape|, axes));
    case TransposeOp(dim0, dim1) => TransposeCommutes(l, dim0, dim1, l');
    case IndexOp(key) => IndexCommutes(l, key, Some(l'));
  }

  /** A run of operations on the pair, stopping at the first one it does not support. */
  function RunLora(l: Lora, ops: seq<Op>): (r: Option<Lora>)
    requires Proper(l)
    ensures r.Some? ==> Proper(r.value)
    decreases |ops|
  {
    if ops == [] then Some(l)
    else if Supported(l, ops[0]) then RunLora(ApplyLora(l, ops[0]).value, ops[1..])
    else None
  }

  function RunDense(t: Tensor, ops: seq<Op>): (r: Option<Tensor>)
    requires Valid(t)
    decreases |ops|
  {
    if ops == [] then Some(t)
    else match ApplyDense(t, ops[0])
      case None => None
      case Some(t') => RunDense(t', ops[1..])
  }

  /** Any run of reshapes, permutations, transposes and indexings that the pair supports gives the pair
      of the dense result. */
  lemma {:induction false} RunCommutes(l: Lora, ops: seq<Op>)
    requires Proper(l) && RunLora(l, ops).Some?
    ensures RunDense(Dense(l), ops) == Some(Dense(RunLora(l, ops).value))
    decreases |ops|
  {
    if ops != [] {
      OpCommutes(l, ops[0], ApplyLora(l, ops[0]).value);
      RunCommutes(ApplyLora(l, ops[0]).value, ops[1..]);
    }
  }
}
