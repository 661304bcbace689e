/** What the checkpoints of a program hold, told from the program alone. */
module CheckpointContents {

  import opened Basics
  import opened Checkpoints

  /** The numbers, the two states, and what is saved in storage for each, if there is storage. */
  datatype Contents = Contents(
    nTokens: int, posMin: int, posMax: int, tgt: seq<Byte>, dft: seq<Byte>,
    tgtStored: Option<seq<Byte>>, dftStored: Option<seq<Byte>>)

  const NOTHING := Contents(0, 0, 0, [], [], None, None)

  function InStorage(h: Heap, p: Option<Handle>): Option<seq<Byte>> {
    match p case None => None case Some(x) => Some(Kept(h, x))
  }

  /** What a checkpoint holds. */
  function HeldBy(h: Heap, c: Checkpoint): Contents {
    Contents(c.nTokens, c.posMin, c.posMax, c.dataTgt, c.dataDft, InStorage(h, c.tgt), InStorage(h, c.dft))
  }

  // ---------------------------------------------------------------------
  // From the program alone

  /** The checkpoints that a program has made. */
  function Made(ops: seq<Op>): nat {
    if ops == [] then 0
    else
      var op := ops[|ops| - 1];
      Made(ops[..|ops| - 1]) + if op.Construct? || op.CopyConstruct? || op.MoveConstruct? then 1 else 0
  }

  /** The states are moved away; the numbers stay. */
  function Emptied(c: Contents): Contents {
    c.(tgt := [], dft := [], tgtStored := None, dftStored := None)
  }

  /** Checkpoint `i` after a program: back through the copies and moves to the last update or clear. */
  function Traced(ops: seq<Op>, i: nat): Contents {
    if ops == [] then NOTHING
    else
      var front, before := ops[..|ops| - 1], Traced(ops[..|ops| - 1], i);
      match ops[|ops| - 1]
      case Construct => if i == Made(front) then NOTHING else before
      case CopyConstruct(src) => if i == Made(front) then Traced(front, src) else before
      case MoveConstruct(src) =>
        if i == Made(front) then Traced(front, src) else if i == src then Emptied(before) else before
      case CopyAssign(dst, src) => if i == dst then Traced(front, src) else before
      case MoveAssign(dst, src) =>
        if dst == src then before
        else if i == dst then Traced(front, src) else if i == src then Emptied(before) else before
      case UpdatePos(obj, nTokens, posMin, posMax) =>
        if i == obj then before.(nTokens := nTokens, posMin := posMin, posMax := posMax) else before
      case UpdateTgt(obj, data, onDevice) =>
        if i == obj && data.Some? then before.(tgt := data.value, tgtStored := if onDevice then Some(data.value) else None)
        else before
      case UpdateDft(obj, data, onDevice) =>
        if i == obj && data.Some? then before.(dft := data.value, dftStored := if onDevice then Some(data.value) else None)
        else before
      case ClearTgt(obj) => if i == obj then before.(tgt := [], tgtStored := None) else before
      case ClearDft(obj) => if i == obj then before.(dft := [], dftStored := None) else before
      case Clear(obj) => if i == obj then NOTHING else before
      case Destroy(_) => before
  }

  // ---------------------------------------------------------------------
  // One operation

  /** Nothing that the checkpoint holds is saved over. */
  ghost predicate Untouched(h: Heap, h': Heap, c: Checkpoint) {
    forall x :: Holds(c, x) > 0 ==> Kept(h', x) == Kept(h, x)
  }

  lemma UntouchedHeld(h: Heap, h': Heap, c: Checkpoint)
    requires Untouched(h, h', c)
    ensures HeldBy(h', c) == HeldBy(h, c)
  {
    if c.tgt.Some? {
      assert Holds(c, c.tgt.value) > 0;
    }
    if c.dft.Some? {
      assert Holds(c, c.dft.value) > 0;
    }
  }

  /** A copy holds what its source holds. */
  lemma CopiedHolds(h: Heap, src: Checkpoint, x: Handle)
    requires Good(h) && Usable(h, src.tgt) && Usable(h, src.dft)
    ensures HeldBy(Copied(h, src).0, Copied(h, src).1) == HeldBy(h, src)
    ensures x < h.next ==> Kept(Copied(h, src).0, x) == Kept(h, x)
  {
    var (h1, t) := Clone(h, src.tgt);
    CloneHolds(h, src.tgt);
    CloneHolds(h1, src.dft);
  }

  lemma CloneHolds(h: Heap, p: Option<Handle>)
    requires Good(h) && Usable(h, p)
    ensures var (h', q) := Clone(h, p);
      && InStorage(h', q) == InStorage(h, p) && Good(h') && h.live <= h'.live && h.next <= h'.next
      && (q.Some? ==> q.value < h'.next) && forall x: Handle :: x < h.next ==> Kept(h', x) == Kept(h, x)
  {
  }

  lemma ReleasedKeeps(h: Heap, c: Checkpoint, x: Handle)
    ensures Kept(Released(h, c), x) == Kept(h, x)
  {
  }

  lemma StoredHolds(h: Heap, p: Option<Handle>, data: seq<Byte>, onDevice: bool, x: Handle)
    requires Good(h) && Usable(h, p)
    ensures var (h', q) := StoredAs(h, p, data, onDevice);
      && InStorage(h', q) == (if onDevice then Some(data) else None)
      && (x < h.next && p != Some(x) ==> Kept(h', x) == Kept(h, x))
  {
  }

  lemma HeldBelow(w: World, i: nat, x: Handle)
    requires Safe(w) && Alive(w, i) && Holds(w.objs[i].value, x) > 0
    ensures x < w.heap.next
  {
    AliveOwns(w, i);
  }

  /** An operation that changes the states of checkpoint `i` only leaves the others what they hold. */
  lemma OthersUntouched(w: World, i: nat, j: nat, h': Heap)
    requires Safe(w) && Alive(w, i) && Alive(w, j) && i != j
    requires forall x: Handle :: x < w.heap.next && Holds(w.objs[i].value, x) == 0 ==> Kept(h', x) == Kept(w.heap, x)
    ensures HeldBy(h', w.objs[j].value) == HeldBy(w.heap, w.objs[j].value)
  {
    forall x | Holds(w.objs[j].value, x) > 0 ensures Kept(h', x) == Kept(w.heap, x) {
      HeldBelow(w, j, x);
      NothingShared(w, i, j, x);
    }
    UntouchedHeld(w.heap, h', w.objs[j].value);
  }

  lemma AllUntouched(w: World, j: nat, h': Heap)
    requires Safe(w) && Alive(w, j)
    requires forall x: Handle :: x < w.heap.next ==> Kept(h', x) == Kept(w.heap, x)
    ensures HeldBy(h', w.objs[j].value) == HeldBy(w.heap, w.objs[j].value)
  {
    forall x | Holds(w.objs[j].value, x) > 0 ensures Kept(h', x) == Kept(w.heap, x) {
      HeldBelow(w, j, x);
    }
    UntouchedHeld(w.heap, h', w.objs[j].value);
  }

  lemma CopyHeld(w: World, src: nat, j: nat)
    requires Safe(w) && Alive(w, src) && Alive(w, j)
    ensures var (h, c) := Copied(w.heap, w.objs[src].value);
      HeldBy(h, c) == HeldBy(w.heap, w.objs[src].value) && HeldBy(h, w.objs[j].value) == HeldBy(w.heap, w.objs[j].value)
  {
    AliveOwns(w, src);
    var h := Copied(w.heap, w.objs[src].value).0;
    CopiedHolds(w.heap, w.objs[src].value, 0);
    forall x: Handle | x < w.heap.next ensures Kept(h, x) == Kept(w.heap, x) {
      CopiedHolds(w.heap, w.objs[src].value, x);
    }
    AllUntouched(w, j, h);
  }

  lemma ReleasedHeld(w: World, i: nat, c: Checkpoint)
    requires Alive(w, i)
    ensures HeldBy(Released(w.heap, w.objs[i].value), c) == HeldBy(w.heap, c)
  {
    forall x ensures Kept(Released(w.heap, w.objs[i].value), x) == Kept(w.heap, x) {
      ReleasedKeeps(w.heap, w.objs[i].value, x);
    }
    UntouchedHeld(w.heap, Released(w.heap, w.objs[i].value), c);
  }

  lemma CopyAssignHeld(w: World, dst: nat, src: nat, j: nat)
    requires Safe(w) && Alive(w, dst) && Alive(w, src) && dst != src && Alive(w, j) && j != dst
    ensures var (h, c) := CopyAssigned(w.heap, w.objs[dst].value, w.objs[src].value);
      HeldBy(h, c) == HeldBy(w.heap, w.objs[src].value) && HeldBy(h, w.objs[j].value) == HeldBy(w.heap, w.objs[j].value)
  {
    var freed := w.(heap := Released(w.heap, w.objs[dst].value), objs := w.objs[dst := None]);
    StepSafe(w, Destroy(dst));
    assert freed == Step(w, Destroy(dst));
    CopyHeld(freed, src, j);
    ReleasedHeld(w, dst, w.objs[src].value);
    ReleasedHeld(w, dst, w.objs[j].value);
  }

  lemma UpdateTgtHeld(w: World, i: nat, data: seq<Byte>, onDevice: bool, j: nat)
    requires Safe(w) && Alive(w, i) && Alive(w, j)
    ensures var (h, c) := UpdatedTgt(w.heap, w.objs[i].value, data, onDevice);
      && HeldBy(h, c) == HeldBy(w.heap, w.objs[i].value).(tgt := data, tgtStored := if onDevice then Some(data) else None)
      && (j != i ==> HeldBy(h, w.objs[j].value) == HeldBy(w.heap, w.objs[j].value))
  {
    var c := w.objs[i].value;
    var h := UpdatedTgt(w.heap, c, data, onDevice).0;
    AliveOwns(w, i);
    forall x: Handle ensures x < w.heap.next && c.tgt != Some(x) ==> Kept(h, x) == Kept(w.heap, x) {
      StoredHolds(w.heap, c.tgt, data, onDevice, x);
    }
    if j != i {
      OthersUntouched(w, i, j, h);
    }
  }

  lemma UpdateDftHeld(w: World, i: nat, data: seq<Byte>, onDevice: bool, j: nat)
    requires Safe(w) && Alive(w, i) && Alive(w, j)
    ensures var (h, c) := UpdatedDft(w.heap, w.objs[i].value, data, onDevice);
      && HeldBy(h, c) == HeldBy(w.heap, w.objs[i].value).(dft := data, dftStored := if onDevice then Some(data) else None)
      && (j != i ==> HeldBy(h, w.objs[j].value) == HeldBy(w.heap, w.objs[j].value))
  {
    var c := w.objs[i].value;
    var h := UpdatedDft(w.heap, c, data, onDevice).0;
    AliveOwns(w, i);
    forall x: Handle ensures x < w.heap.next && c.dft != Some(x) ==> Kept(h, x) == Kept(w.heap, x) {
      StoredHolds(w.heap, c.dft, data, onDevice, x);
    }
    if j != i {
      OthersUntouched(w, i, j, h);
    }
  }

  /** The world holds what the program says. */
  ghost predicate Tells(w: World, ops: seq<Op>) {
    |w.objs| == Made(ops) && forall i: nat :: Alive(w, i) ==> HeldBy(w.heap, w.objs[i].value) == Traced(ops, i)
  }

  lemma FreshHeld(h: Heap)
    ensures HeldBy(h, FRESH) == NOTHING
  {
  }

  lemma MovedHeld(h: Heap, c: Checkpoint)
    ensures HeldBy(h, MovedFrom(c)) == Emptied(HeldBy(h, c))
  {
  }

  lemma NumbersHeld(h: Heap, c: Checkpoint, nTokens: int, posMin: int, posMax: int)
    ensures HeldBy(h, c.(nTokens := nTokens, posMin := posMin, posMax := posMax))
         == HeldBy(h, c).(nTokens := nTokens, posMin := posMin, posMax := posMax)
  {
  }

  /** What the last operation of a program does to what a checkpoint holds. */
  lemma ConstructHeld(ops: seq<Op>, i: nat, w: World, w': World, op: Op)
    requires Told(ops, w, op) && w' == Step(w, op) && Alive(w', i)
    requires op.Construct? || op.CopyConstruct? || op.MoveConstruct?
    ensures HeldBy(w'.heap, w'.objs[i].value) == Traced(ops + [op], i)
  {
    hide Copied, HeldBy, Safe, MovedFrom;
    assert (ops + [op])[..|ops|] == ops;
    if op.Construct? {
      FreshHeld(w.heap);
    } else if op.CopyConstruct? {
      CopyHeld(w, op.src, if i < |w.objs| then i else op.src);
    } else {
      MovedHeld(w.heap, w.objs[op.src].value);
    }
  }

  lemma AssignHeld(ops: seq<Op>, i: nat, w: World, w': World, op: Op)
    requires Told(ops, w, op) && w' == Step(w, op) && Alive(w', i)
    requires op.CopyAssign? || op.MoveAssign?
    ensures HeldBy(w'.heap, w'.objs[i].value) == Traced(ops + [op], i)
  {
    hide CopyAssigned, Released, HeldBy, Safe, MovedFrom;
    assert (ops + [op])[..|ops|] == ops;
    if op.dst != op.src {
      if op.CopyAssign? {
        CopyAssignHeld(w, op.dst, op.src, if i == op.dst then op.src else i);
      } else {
        MovedHeld(Released(w.heap, w.objs[op.dst].value), w.objs[op.src].value);
        ReleasedHeld(w, op.dst, w.objs[i].value);
        ReleasedHeld(w, op.dst, w.objs[op.src].value);
      }
    }
  }

  lemma UpdateHeld(ops: seq<Op>, i: nat, w: World, w': World, op: Op)
    requires Told(ops, w, op) && w' == Step(w, op) && Alive(w', i)
    requires op.UpdatePos? || op.UpdateTgt? || op.UpdateDft?
    ensures HeldBy(w'.heap, w'.objs[i].value) == Traced(ops + [op], i)
  {
    hide UpdatedTgt, UpdatedDft, HeldBy, Safe;
    assert (ops + [op])[..|ops|] == ops;
    if op.UpdatePos? {
      NumbersHeld(w.heap, w.objs[op.obj].value, op.nTokens, op.posMin, op.posMax);
    } else if op.data.Some? {
      if op.UpdateTgt? {
        UpdateTgtHeld(w, op.obj, op.data.value, op.onDevice, i);
      } else {
        UpdateDftHeld(w, op.obj, op.data.value, op.onDevice, i);
      }
    }
  }

  lemma ClearedHeld(h: Heap, c: Checkpoint)
    ensures var (h', c') := ClearedTgt(h, c); HeldBy(h', c') == HeldBy(h, c).(tgt := [], tgtStored := None)
    ensures var (h', c') := ClearedDft(h, c); HeldBy(h', c') == HeldBy(h, c).(dft := [], dftStored := None)
  {
  }

  lemma FreedHeld(h: Heap, p: Option<Handle>, c: Checkpoint)
    ensures HeldBy(Free(h, p), c) == HeldBy(h, c)
  {
  }

  lemma EmptyHeld(ops: seq<Op>, i: nat, w: World, w': World, op: Op)
    requires Told(ops, w, op) && w' == Step(w, op) && Alive(w', i)
    requires op.ClearTgt? || op.ClearDft? || op.Clear? || op.Destroy?
    ensures HeldBy(w'.heap, w'.objs[i].value) == Traced(ops + [op], i)
  {
    hide Free, HeldBy, Safe;
    assert (ops + [op])[..|ops|] == ops;
    var c := w.objs[op.obj].value;
    ClearedHeld(w.heap, c);
    FreedHeld(w.heap, c.tgt, w.objs[i].value);
    FreedHeld(w.heap, c.dft, w.objs[i].value);
    FreedHeld(Free(w.heap, c.tgt), c.dft, w.objs[i].value);
    FreshHeld(Released(w.heap, c));
  }

  /** A program has come to a safe world that holds what it says, and can go on with `op`. */
  ghost predicate Told(ops: seq<Op>, w: World, op: Op) {
    Tells(w, ops) && Safe(w) && Legal(w, op)
  }

  lemma StepTells(ops: seq<Op>, w: World, op: Op)
    requires Told(ops, w, op)
    ensures Tells(Step(w, op), ops + [op])
  {
    hide HeldBy, Traced, Copied, CopyAssigned, Released, UpdatedTgt, UpdatedDft;
    var w' := Step(w, op);
    assert (ops + [op])[..|ops|] == ops;
    forall i: nat | Alive(w', i) ensures HeldBy(w'.heap, w'.objs[i].value) == Traced(ops + [op], i) {
      if op.Construct? || op.CopyConstruct? || op.MoveConstruct? {
        ConstructHeld(ops, i, w, w', op);
      } else if op.CopyAssign? || op.MoveAssign? {
        AssignHeld(ops, i, w, w', op);
      } else if op.UpdatePos? || op.UpdateTgt? || op.UpdateDft? {
        UpdateHeld(ops, i, w, w', op);
      } else {
        EmptyHeld(ops, i, w, w', op);
      }
    }
  }

  /** After any program every live checkpoint holds exactly what the program gave it, along its chain of copies
      and moves: numbers, both states, and the same states in storage where they were saved there. */
  lemma {:induction false} RunTells(ops: seq<Op>)
    requires LegalRun(EMPTY_WORLD, ops)
    ensures Tells(Run(EMPTY_WORLD, ops), ops)
    decreases |ops|
  {
    hide Tells, Safe, Legal, Step;
    if ops == [] {
      NothingTold();
    } else {
      var n := |ops| - 1;
      var front := ops[..n];
      RunOneMore(EMPTY_WORLD, ops, n);
      assert ops[..n + 1] == ops && ops == front + [ops[n]];
      RunTells(front);
      NothingUnsafe();
      RunSafe(EMPTY_WORLD, front);
      StepTells(front, Run(EMPTY_WORLD, front), ops[n]);
    }
  }

  lemma NothingTold()
    ensures Tells(EMPTY_WORLD, [])
  {
  }

  lemma NothingUnsafe()
    ensures Safe(EMPTY_WORLD)
  {
  }

  /** Storage, where there is some, always has the state of its own side. */
  lemma {:induction false} StorageMatches(ops: seq<Op>, i: nat)
    ensures Traced(ops, i).tgtStored.Some? ==> Traced(ops, i).tgtStored == Some(Traced(ops, i).tgt)
    ensures Traced(ops, i).dftStored.Some? ==> Traced(ops, i).dftStored == Some(Traced(ops, i).dft)
    decreases |ops|
  {
    if ops != [] {
      var front, op := ops[..|ops| - 1], ops[|ops| - 1];
      StorageMatches(front, i);
      if op.CopyConstruct? || op.MoveConstruct? || op.CopyAssign? || op.MoveAssign? {
        StorageMatches(front, op.src);
      }
    }
  }
}
