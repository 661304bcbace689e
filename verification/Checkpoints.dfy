/** Prompt checkpoints and the device storage they own. */
module Checkpoints {

  import opened Basics

  type Handle = nat

  /** The storage library: which handles are live, what was last saved under each, and whether it was ever
      misused. */
  datatype Heap = Heap(live: set<Handle>, next: nat, fault: bool, stored: map<Handle, seq<Byte>>)

  const EMPTY_HEAP := Heap({}, 0, false, map[])

  /** What was last saved under a handle. */
  function Kept(h: Heap, x: Handle): seq<Byte> {
    if x in h.stored then h.stored[x] else []
  }

  function Write(h: Heap, p: Option<Handle>, data: seq<Byte>): Heap {
    match p
    case None => h
    case Some(x) => h.(stored := h.stored[x := data])
  }

  /** Freeing null does nothing; freeing a handle that is not live is a fault. */
  function Free(h: Heap, p: Option<Handle>): Heap {
    match p
    case None => h
    case Some(x) => if x in h.live then h.(live := h.live - {x}) else h.(fault := true)
  }

  function Init(h: Heap): (Heap, Option<Handle>) {
    (h.(live := h.live + {h.next}, next := h.next + 1, stored := h.stored[h.next := []]), Some(h.next))
  }

  /** Cloning null gives null; cloning a handle that is not live is a fault. */
  function Clone(h: Heap, p: Option<Handle>): (Heap, Option<Handle>) {
    match p
    case None => (h, None)
    case Some(x) =>
      if x in h.live then
        var (h', q) := Init(h);
        (Write(h', q, Kept(h, x)), q)
      else (h.(fault := true), None)
  }

  datatype Checkpoint = Checkpoint(
    nTokens: int, posMin: int, posMax: int,
    dataTgt: seq<Byte>, dataDft: seq<Byte>,
    tgt: Option<Handle>, dft: Option<Handle>)

  const FRESH := Checkpoint(0, 0, 0, [], [], None, None)

  // ---------------------------------------------------------------------
  // Operations on one or two checkpoints

  function Copied(h: Heap, src: Checkpoint): (Heap, Checkpoint) {
    var (h1, t) := Clone(h, src.tgt);
    var (h2, d) := Clone(h1, src.dft);
    (h2, src.(tgt := t, dft := d))
  }

  function Released(h: Heap, c: Checkpoint): Heap {
    Free(Free(h, c.tgt), c.dft)
  }

  /** Assignment from another checkpoint: the old storage goes first. */
  function CopyAssigned(h: Heap, dst: Checkpoint, src: Checkpoint): (Heap, Checkpoint) {
    Copied(Released(h, dst), src)
  }

  function MovedFrom(c: Checkpoint): Checkpoint {
    c.(dataTgt := [], dataDft := [], tgt := None, dft := None)
  }

  function ClearedTgt(h: Heap, c: Checkpoint): (Heap, Checkpoint) {
    (Free(h, c.tgt), c.(dataTgt := [], tgt := None))
  }

  function ClearedDft(h: Heap, c: Checkpoint): (Heap, Checkpoint) {
    (Free(h, c.dft), c.(dataDft := [], dft := None))
  }

  /** State saved from a context: kept on the device in storage made on first use, or in the data
      alone, in which case storage left over from before is given back. */
  function StoredAs(h: Heap, p: Option<Handle>, data: seq<Byte>, onDevice: bool): (Heap, Option<Handle>) {
    if onDevice then
      var (h', q) := if p.None? then Init(h) else (h, p);
      (Write(h', q, data), q)
    else (Free(h, p), None)
  }

  function UpdatedTgt(h: Heap, c: Checkpoint, data: seq<Byte>, onDevice: bool): (Heap, Checkpoint) {
    var (h', p) := StoredAs(h, c.tgt, data, onDevice);
    (h', c.(dataTgt := data, tgt := p))
  }

  function UpdatedDft(h: Heap, c: Checkpoint, data: seq<Byte>, onDevice: bool): (Heap, Checkpoint) {
    var (h', p) := StoredAs(h, c.dft, data, onDevice);
    (h', c.(dataDft := data, dft := p))
  }

  // ---------------------------------------------------------------------
  // Programs over any number of checkpoints

  /** Checkpoints by number; None once destroyed. */
  datatype World = World(heap: Heap, objs: seq<Option<Checkpoint>>)

  const EMPTY_WORLD := World(EMPTY_HEAP, [])

  /** `data` is what the context gives; a null context changes nothing. */
  datatype Op =
    | Construct
    | CopyConstruct(src: nat)
    | MoveConstruct(src: nat)
    | CopyAssign(dst: nat, src: nat)
    | MoveAssign(dst: nat, src: nat)
    | UpdatePos(obj: nat, nTokens: int, posMin: int, posMax: int)
    | UpdateTgt(obj: nat, data: Option<seq<Byte>>, onDevice: bool)
    | UpdateDft(obj: nat, data: Option<seq<Byte>>, onDevice: bool)
    | ClearTgt(obj: nat)
    | ClearDft(obj: nat)
    | Clear(obj: nat)
    | Destroy(obj: nat)

  predicate Alive(w: World, i: nat) {
    i < |w.objs| && w.objs[i].Some?
  }

  /** Only live checkpoints are used. */
  predicate Legal(w: World, op: Op) {
    match op
    case Construct => true
    case CopyConstruct(src) => Alive(w, src)
    case MoveConstruct(src) => Alive(w, src)
    case CopyAssign(dst, src) => Alive(w, dst) && Alive(w, src)
    case MoveAssign(dst, src) => Alive(w, dst) && Alive(w, src)
    case _ => Alive(w, op.obj)
  }

  function Set(w: World, i: nat, r: (Heap, Checkpoint)): World
    requires i < |w.objs|
  {
    World(r.0, w.objs[i := Some(r.1)])
  }

  function Step(w: World, op: Op): World
    requires Legal(w, op)
  {
    match op
    case Construct => w.(objs := w.objs + [Some(FRESH)])
    case CopyConstruct(src) =>
      var (h, c) := Copied(w.heap, w.objs[src].value);
      World(h, w.objs + [Some(c)])
    case MoveConstruct(src) =>
      var c := w.objs[src].value;
      w.(objs := w.objs[src := Some(MovedFrom(c))] + [Some(c)])
    case CopyAssign(dst, src) =>
      if dst == src then w else Set(w, dst, CopyAssigned(w.heap, w.objs[dst].value, w.objs[src].value))
    case MoveAssign(dst, src) =>
      if dst == src then w
      else
        var c := w.objs[src].value;
        World(Released(w.heap, w.objs[dst].value), w.objs[dst := Some(c)][src := Some(MovedFrom(c))])
    case UpdatePos(i, nTokens, posMin, posMax) =>
      Set(w, i, (w.heap, w.objs[i].value.(nTokens := nTokens, posMin := posMin, posMax := posMax)))
    case UpdateTgt(i, data, onDevice) =>
      if data.None? then w else Set(w, i, UpdatedTgt(w.heap, w.objs[i].value, data.value, onDevice))
    case UpdateDft(i, data, onDevice) =>
      if data.None? then w else Set(w, i, UpdatedDft(w.heap, w.objs[i].value, data.value, onDevice))
    case ClearTgt(i) => Set(w, i, ClearedTgt(w.heap, w.objs[i].value))
    case ClearDft(i) => Set(w, i, ClearedDft(w.heap, w.objs[i].value))
    case Clear(i) => Set(w, i, (Released(w.heap, w.objs[i].value), FRESH))
    case Destroy(i) => World(Released(w.heap, w.objs[i].value), w.objs[i := None])
  }

  /** A program: operations on live checkpoints, one after the other. */
  predicate LegalRun(w: World, ops: seq<Op>)
    decreases |ops|
  {
    ops == [] || (Legal(w, ops[0]) && LegalRun(Step(w, ops[0]), ops[1..]))
  }

  function Run(w: World, ops: seq<Op>): World
    requires LegalRun(w, ops)
    decreases |ops|
  {
    if ops == [] then w else Run(Step(w, ops[0]), ops[1..])
  }

  // ---------------------------------------------------------------------
  // Ownership: how many slots hold a handle

  function Is(p: Option<Handle>, x: Handle): nat {
    if p == Some(x) then 1 else 0
  }

  function Holds(c: Checkpoint, x: Handle): nat {
    Is(c.tgt, x) + Is(c.dft, x)
  }

  function HoldsAt(o: Option<Checkpoint>, x: Handle): nat {
    match o case None => 0 case Some(c) => Holds(c, x)
  }

  /** The number of slots, over all checkpoints, that hold `x`. */
  function Holders(objs: seq<Option<Checkpoint>>, x: Handle): nat {
    if objs == [] then 0 else Holders(objs[..|objs| - 1], x) + HoldsAt(objs[|objs| - 1], x)
  }

  function Lives(h: Heap, x: Handle): nat {
    if x in h.live then 1 else 0
  }

  /** Handles not yet given out are not live. */
  predicate Good(h: Heap) {
    forall x :: x in h.live ==> x < h.next
  }

  /** The library was never misused, and a live handle is in exactly one slot, a dead one in none. */
  ghost predicate Safe(w: World) {
    && !w.heap.fault
    && Good(w.heap)
    && (forall x :: Holders(w.objs, x) == Lives(w.heap, x))
  }

  /** The library goes from one state to another without misuse. */
  predicate Sound(h: Heap, h': Heap) {
    h'.fault == h.fault && (Good(h) ==> Good(h'))
  }

  predicate Usable(h: Heap, p: Option<Handle>) {
    p.Some? ==> p.value in h.live
  }

  /** What a checkpoint holds is live, in two different slots. */
  predicate Owns(h: Heap, c: Checkpoint) {
    Usable(h, c.tgt) && Usable(h, c.dft) && (c.tgt.Some? ==> c.tgt != c.dft)
  }

  lemma ReleasedLives(h: Heap, c: Checkpoint, x: Handle)
    requires Owns(h, c)
    ensures Sound(h, Released(h, c)) && Lives(Released(h, c), x) == Lives(h, x) - Holds(c, x)
  {
  }

  lemma CopiedLives(h: Heap, src: Checkpoint, x: Handle)
    requires Good(h) && Usable(h, src.tgt) && Usable(h, src.dft)
    ensures Sound(h, Copied(h, src).0) && Lives(Copied(h, src).0, x) == Lives(h, x) + Holds(Copied(h, src).1, x)
  {
  }

  lemma StoredLives(h: Heap, p: Option<Handle>, data: seq<Byte>, onDevice: bool, x: Handle)
    requires Good(h) && Usable(h, p)
    ensures var (h', q) := StoredAs(h, p, data, onDevice);
      Sound(h, h') && Lives(h', x) + Is(p, x) == Lives(h, x) + Is(q, x)
  {
  }

  // Changing one checkpoint changes the count by what it holds.

  lemma {:induction false} SetHolders(objs: seq<Option<Checkpoint>>, i: nat, o: Option<Checkpoint>, x: Handle)
    requires i < |objs|
    ensures Holders(objs[i := o], x) + HoldsAt(objs[i], x) == Holders(objs, x) + HoldsAt(o, x)
    decreases |objs|
  {
    var n := |objs| - 1;
    if i == n {
      assert objs[i := o][..n] == objs[..n];
    } else {
      SetHolders(objs[..n], i, o, x);
      assert objs[..n][i := o] == objs[i := o][..n];
    }
  }

  lemma AppendHolders(objs: seq<Option<Checkpoint>>, o: Option<Checkpoint>, x: Handle)
    ensures Holders(objs + [o], x) == Holders(objs, x) + HoldsAt(o, x)
  {
    assert (objs + [o])[..|objs|] == objs;
  }

  /** Two checkpoints' shares are both part of the count. */
  lemma TwoHolders(objs: seq<Option<Checkpoint>>, i: nat, j: nat, x: Handle)
    requires i < |objs| && j < |objs| && i != j
    ensures HoldsAt(objs[i], x) + HoldsAt(objs[j], x) <= Holders(objs, x)
  {
    SetHolders(objs, i, None, x);
    SetHolders(objs[i := None], j, None, x);
  }

  lemma OneHolder(w: World, i: nat, x: Handle)
    requires Safe(w) && Alive(w, i)
    ensures Holds(w.objs[i].value, x) <= Lives(w.heap, x)
  {
    SetHolders(w.objs, i, None, x);
  }

  lemma AliveOwns(w: World, i: nat)
    requires Safe(w) && Alive(w, i)
    ensures Owns(w.heap, w.objs[i].value)
  {
    var c := w.objs[i].value;
    if c.tgt.Some? { OneHolder(w, i, c.tgt.value); }
    if c.dft.Some? { OneHolder(w, i, c.dft.value); }
  }

  /** Two different checkpoints never share a handle. */
  lemma NothingShared(w: World, i: nat, j: nat, x: Handle)
    requires Safe(w) && Alive(w, i) && Alive(w, j) && i != j
    ensures Holds(w.objs[i].value, x) == 0 || Holds(w.objs[j].value, x) == 0
  {
    TwoHolders(w.objs, i, j, x);
  }

  // ---------------------------------------------------------------------
  // Every operation keeps it

  /** Replacing checkpoint `i` keeps safety when the library gains and loses what the checkpoint does. */
  lemma SetSafe(w: World, i: nat, h: Heap, o: Option<Checkpoint>)
    requires Safe(w) && i < |w.objs| && Sound(w.heap, h)
    requires forall x :: Lives(h, x) + HoldsAt(w.objs[i], x) == Lives(w.heap, x) + HoldsAt(o, x)
    ensures Safe(World(h, w.objs[i := o]))
  {
    forall x ensures Holders(w.objs[i := o], x) == Lives(h, x) {
      SetHolders(w.objs, i, o, x);
    }
  }

  /** A checkpoint goes on owning its storage when another one's is given back. */
  lemma StillOwns(w: World, i: nat, j: nat)
    requires Safe(w) && Alive(w, i) && Alive(w, j) && i != j
    ensures Owns(Released(w.heap, w.objs[i].value), w.objs[j].value)
  {
    AliveOwns(w, i);
    AliveOwns(w, j);
    var c := w.objs[j].value;
    if c.tgt.Some? { NothingShared(w, i, j, c.tgt.value); }
    if c.dft.Some? { NothingShared(w, i, j, c.dft.value); }
  }

  lemma CopyAssignSafe(w: World, dst: nat, src: nat)
    requires Safe(w) && Alive(w, dst) && Alive(w, src) && dst != src
    ensures Safe(Step(w, CopyAssign(dst, src)))
  {
    var d, s := w.objs[dst].value, w.objs[src].value;
    var (h, c) := CopyAssigned(w.heap, d, s);
    AliveOwns(w, dst);
    StillOwns(w, dst, src);
    forall x ensures Sound(w.heap, h) && Lives(h, x) + Holds(d, x) == Lives(w.heap, x) + Holds(c, x) {
      ReleasedLives(w.heap, d, x);
      CopiedLives(Released(w.heap, d), s, x);
    }
    SetSafe(w, dst, h, Some(c));
  }

  lemma MoveAssignSafe(w: World, dst: nat, src: nat)
    requires Safe(w) && Alive(w, dst) && Alive(w, src) && dst != src
    ensures Safe(Step(w, MoveAssign(dst, src)))
  {
    var d, s := w.objs[dst].value, w.objs[src].value;
    var h, objs := Released(w.heap, d), w.objs[dst := Some(s)];
    AliveOwns(w, dst);
    forall x ensures Sound(w.heap, h) && Holders(objs[src := Some(MovedFrom(s))], x) == Lives(h, x) {
      ReleasedLives(w.heap, d, x);
      SetHolders(w.objs, dst, Some(s), x);
      SetHolders(objs, src, Some(MovedFrom(s)), x);
    }
  }

  lemma MoveConstructSafe(w: World, src: nat)
    requires Safe(w) && Alive(w, src)
    ensures Safe(Step(w, MoveConstruct(src)))
  {
    var s := w.objs[src].value;
    var objs := w.objs[src := Some(MovedFrom(s))];
    forall x ensures Holders(objs + [Some(s)], x) == Lives(w.heap, x) {
      SetHolders(w.objs, src, Some(MovedFrom(s)), x);
      AppendHolders(objs, Some(s), x);
    }
  }

  lemma CopyConstructSafe(w: World, src: nat)
    requires Safe(w) && Alive(w, src)
    ensures Safe(Step(w, CopyConstruct(src)))
  {
    var s := w.objs[src].value;
    var (h, c) := Copied(w.heap, s);
    AliveOwns(w, src);
    forall x ensures Sound(w.heap, h) && Holders(w.objs + [Some(c)], x) == Lives(h, x) {
      CopiedLives(w.heap, s, x);
      AppendHolders(w.objs, Some(c), x);
    }
  }

  lemma UpdateTgtSafe(w: World, i: nat, data: seq<Byte>, onDevice: bool)
    requires Safe(w) && Alive(w, i)
    ensures var (h, c) := UpdatedTgt(w.heap, w.objs[i].value, data, onDevice); Safe(World(h, w.objs[i := Some(c)]))
  {
    var c := w.objs[i].value;
    var (h, c') := UpdatedTgt(w.heap, c, data, onDevice);
    AliveOwns(w, i);
    forall x ensures Sound(w.heap, h) && Lives(h, x) + Holds(c, x) == Lives(w.heap, x) + Holds(c', x) {
      StoredLives(w.heap, c.tgt, data, onDevice, x);
    }
    SetSafe(w, i, h, Some(c'));
  }

  lemma UpdateDftSafe(w: World, i: nat, data: seq<Byte>, onDevice: bool)
    requires Safe(w) && Alive(w, i)
    ensures var (h, c) := UpdatedDft(w.heap, w.objs[i].value, data, onDevice); Safe(World(h, w.objs[i := Some(c)]))
  {
    var c := w.objs[i].value;
    var (h, c') := UpdatedDft(w.heap, c, data, onDevice);
    AliveOwns(w, i);
    forall x ensures Sound(w.heap, h) && Lives(h, x) + Holds(c, x) == Lives(w.heap, x) + Holds(c', x) {
      StoredLives(w.heap, c.dft, data, onDevice, x);
    }
    SetSafe(w, i, h, Some(c'));
  }

  lemma ReleaseSafe(w: World, i: nat, o: Option<Checkpoint>)
    requires Safe(w) && Alive(w, i) && (o.Some? ==> o.value == FRESH)
    ensures Safe(World(Released(w.heap, w.objs[i].value), w.objs[i := o]))
  {
    var c := w.objs[i].value;
    var h := Released(w.heap, c);
    AliveOwns(w, i);
    forall x ensures Sound(w.heap, h) && Lives(h, x) + Holds(c, x) == Lives(w.heap, x) {
      ReleasedLives(w.heap, c, x);
    }
    SetSafe(w, i, h, o);
  }

  lemma PosSafe(w: World, op: Op)
    requires Safe(w) && Legal(w, op) && op.UpdatePos?
    ensures Safe(Step(w, op))
  {
    var c := w.objs[op.obj].value.(nTokens := op.nTokens, posMin := op.posMin, posMax := op.posMax);
    SetSafe(w, op.obj, w.heap, Some(c));
  }

  lemma StepSafe(w: World, op: Op)
    requires Safe(w) && Legal(w, op)
    ensures Safe(Step(w, op))
  {
    match op
    case Construct => forall x ensures Holders(w.objs + [Some(FRESH)], x) == Lives(w.heap, x) { AppendHolders(w.objs, Some(FRESH), x); }
    case CopyConstruct(src) => CopyConstructSafe(w, src);
    case MoveConstruct(src) => MoveConstructSafe(w, src);
    case CopyAssign(dst, src) => if dst != src { CopyAssignSafe(w, dst, src); }
    case MoveAssign(dst, src) => if dst != src { MoveAssignSafe(w, dst, src); }
    case UpdatePos(_, _, _, _) => PosSafe(w, op);
    case UpdateTgt(i, data, onDevice) => if data.Some? { UpdateTgtSafe(w, i, data.value, onDevice); }
    case UpdateDft(i, data, onDevice) => if data.Some? { UpdateDftSafe(w, i, data.value, onDevice); }
    case ClearTgt(i) => UpdateTgtSafe(w, i, [], false);
    case ClearDft(i) => UpdateDftSafe(w, i, [], false);
    case Clear(i) => ReleaseSafe(w, i, Some(FRESH));
    case Destroy(i) => ReleaseSafe(w, i, None);
  }

  /** After any program every live handle is held exactly once, nothing dead is held, and no handle
      was freed twice or used after it was freed. */
  lemma {:induction false} RunSafe(w: World, ops: seq<Op>)
    requires Safe(w) && LegalRun(w, ops)
    ensures Safe(Run(w, ops))
    decreases |ops|
  {
    if ops != [] {
      StepSafe(w, ops[0]);
      RunSafe(Step(w, ops[0]), ops[1..]);
    }
  }

  lemma {:induction false} RunOneMore(w: World, ops: seq<Op>, k: nat)
    requires LegalRun(w, ops) && k < |ops|
    ensures LegalRun(w, ops[..k]) && Legal(Run(w, ops[..k]), ops[k])
    ensures LegalRun(w, ops[..k + 1]) && Run(w, ops[..k + 1]) == Step(Run(w, ops[..k]), ops[k])
    decreases k
  {
    if k > 0 {
      RunOneMore(Step(w, ops[0]), ops[1..], k - 1);
      assert ops[..k][1..] == ops[1..][..k - 1] && ops[..k + 1][1..] == ops[1..][..k];
    } else {
      assert ops[..1][1..] == [];
    }
  }

  lemma {:induction false} AllGone(objs: seq<Option<Checkpoint>>, x: Handle)
    requires forall i :: 0 <= i < |objs| ==> objs[i].None?
    ensures Holders(objs, x) == 0
  {
    if objs != [] {
      AllGone(objs[..|objs| - 1], x);
    }
  }

  /** A program that destroys all its checkpoints leaks nothing. */
  lemma NothingLeaks(ops: seq<Op>)
    requires LegalRun(EMPTY_WORLD, ops)
    requires forall i :: 0 <= i < |Run(EMPTY_WORLD, ops).objs| ==> Run(EMPTY_WORLD, ops).objs[i].None?
    ensures Run(EMPTY_WORLD, ops).heap.live == {} && !Run(EMPTY_WORLD, ops).heap.fault
  {
    var w := Run(EMPTY_WORLD, ops);
    RunSafe(EMPTY_WORLD, ops);
    forall x ensures x !in w.heap.live {
      AllGone(w.objs, x);
      assert Lives(w.heap, x) == 0;
    }
  }

  /** Without the test for self-assignment, a checkpoint that owns storage would clone what it had
      just freed; one that owns none would not notice. */
  lemma SelfAssignmentGuard(h: Heap, c: Checkpoint)
    requires !h.fault && Good(h) && Owns(h, c)
    ensures CopyAssigned(h, c, c).0.fault <==> c.tgt.Some? || c.dft.Some?
  {
  }

  /** Without leaving the source of a move without storage, the same storage would be freed twice; a source that owns
      none would not notice. */
  lemma SourceLeftEmpty(h: Heap, c: Checkpoint)
    requires !h.fault && Good(h) && Owns(h, c)
    ensures Released(Released(h, c), c).fault <==> c.tgt.Some? || c.dft.Some?
    ensures Released(Released(h, c), MovedFrom(c)) == Released(h, c) && !Released(h, c).fault
  {
  }
}
