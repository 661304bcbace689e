/** The checkpoint class itself: each member does to the object and the storage library what the
    corresponding function of `Checkpoints` does to their values. */
module CheckpointObjects {

  import opened Basics
  import opened Checkpoints

  class Library {
    var live: set<Handle>
    var next: nat
    var fault: bool
    var stored: map<Handle, seq<Byte>>

    ghost function State(): Heap
      reads this
    {
      Heap(live, next, fault, stored)
    }

    constructor ()
      ensures State() == EMPTY_HEAP
    {
      live, next, fault, stored := {}, 0, false, map[];
    }

    method Free(p: Option<Handle>)
      modifies this
      ensures State() == Checkpoints.Free(old(State()), p)
    {
      if p.Some? {
        if p.value in live {
          live := live - {p.value};
        } else {
          fault := true;
        }
      }
    }

    method Init() returns (p: Option<Handle>)
      modifies this
      ensures (State(), p) == Checkpoints.Init(old(State()))
    {
      p := Some(next);
      live, stored := live + {next}, stored[next := []];
      next := next + 1;
    }

    method Clone(p: Option<Handle>) returns (q: Option<Handle>)
      modifies this
      ensures (State(), q) == Checkpoints.Clone(old(State()), p)
    {
      q := None;
      if p.Some? {
        if p.value in live {
          var data := Read(p.value);
          q := Init();
          Write(q, data);
        } else {
          fault := true;
        }
      }
    }

    method Read(x: Handle) returns (data: seq<Byte>)
      ensures data == Kept(State(), x)
    {
      data := if x in stored then stored[x] else [];
    }

    /** Saving state under a handle. */
    method Write(p: Option<Handle>, data: seq<Byte>)
      modifies this
      ensures State() == Checkpoints.Write(old(State()), p, data)
    {
      if p.Some? {
        stored := stored[p.value := data];
      }
    }
  }

  /** Two checkpoints have the same token count and positions. */
  predicate SameNumbers(a: PromptCheckpoint, b: PromptCheckpoint)
    reads a, b
  {
    a.nTokens == b.nTokens && a.posMin == b.posMin && a.posMax == b.posMax
  }

  class PromptCheckpoint {
    var nTokens: int
    var posMin: int
    var posMax: int
    var dataTgt: seq<Byte>
    var dataDft: seq<Byte>
    var storageTgt: Option<Handle>
    var storageDft: Option<Handle>

    ghost function Value(): Checkpoint
      reads this
    {
      Checkpoint(nTokens, posMin, posMax, dataTgt, dataDft, storageTgt, storageDft)
    }

    constructor ()
      ensures Value() == FRESH
    {
      nTokens, posMin, posMax := 0, 0, 0;
      dataTgt, dataDft := [], [];
      storageTgt, storageDft := None, None;
    }

    constructor Copy(lib: Library, other: PromptCheckpoint)
      modifies lib
      ensures (lib.State(), Value()) == Copied(old(lib.State()), other.Value())
      ensures other.Value() == old(other.Value()) && SameNumbers(this, other)
      ensures dataTgt == other.dataTgt && dataDft == other.dataDft
      ensures Usable(old(lib.State()), other.storageTgt) && Usable(old(lib.State()), other.storageDft) ==>
        (storageTgt.None? <==> other.storageTgt.None?) && (storageDft.None? <==> other.storageDft.None?)
    {
      nTokens, posMin, posMax := other.nTokens, other.posMin, other.posMax;
      dataTgt, dataDft := other.dataTgt, other.dataDft;
      var t := lib.Clone(other.storageTgt);
      var d := lib.Clone(other.storageDft);
      storageTgt, storageDft := t, d;
    }

    constructor Move(other: PromptCheckpoint)
      modifies other
      ensures Value() == old(other.Value())
      ensures other.Value() == MovedFrom(old(other.Value()))
    {
      nTokens, posMin, posMax := other.nTokens, other.posMin, other.posMax;
      dataTgt, dataDft := other.dataTgt, other.dataDft;
      storageTgt, storageDft := other.storageTgt, other.storageDft;
      new;
      other.dataTgt, other.dataDft := [], [];
      other.storageTgt, other.storageDft := None, None;
    }

    method CopyAssign(lib: Library, other: PromptCheckpoint)
      modifies lib, this
      ensures this == other ==> (lib.State(), Value()) == old((lib.State(), Value()))
      ensures this != other ==> (lib.State(), Value()) == CopyAssigned(old(lib.State()), old(Value()), old(other.Value()))
      ensures other.dataTgt == old(other.dataTgt) && other.dataDft == old(other.dataDft) && SameNumbers(this, other)
      ensures dataTgt == other.dataTgt && dataDft == other.dataDft
    {
      if this == other {
        return;
      }
      nTokens, posMin, posMax := other.nTokens, other.posMin, other.posMax;
      dataTgt, dataDft := other.dataTgt, other.dataDft;
      lib.Free(storageTgt);
      lib.Free(storageDft);
      storageTgt := lib.Clone(other.storageTgt);
      storageDft := lib.Clone(other.storageDft);
    }

    method MoveAssign(lib: Library, other: PromptCheckpoint)
      modifies lib, this, other
      ensures this == other ==> (lib.State(), Value()) == old((lib.State(), Value()))
      ensures this != other ==> lib.State() == Released(old(lib.State()), old(Value()))
      ensures this != other ==> Value() == old(other.Value()) && other.Value() == MovedFrom(old(other.Value()))
    {
      if this == other {
        return;
      }
      lib.Free(storageTgt);
      lib.Free(storageDft);
      nTokens, posMin, posMax := other.nTokens, other.posMin, other.posMax;
      dataTgt, dataDft := other.dataTgt, other.dataDft;
      other.dataTgt, other.dataDft := [], [];
      storageTgt, storageDft := other.storageTgt, other.storageDft;
      other.storageTgt, other.storageDft := None, None;
    }

    method Clear(lib: Library)
      modifies lib, this
      ensures lib.State() == Released(old(lib.State()), old(Value()))
      ensures Value() == FRESH
    {
      nTokens, posMin, posMax := 0, 0, 0;
      dataTgt, dataDft := [], [];
      lib.Free(storageTgt);
      lib.Free(storageDft);
      storageTgt, storageDft := None, None;
    }

    method UpdatePos(nTokens: int, posMin: int, posMax: int)
      modifies this
      ensures Value() == old(Value()).(nTokens := nTokens, posMin := posMin, posMax := posMax)
    {
      this.nTokens, this.posMin, this.posMax := nTokens, posMin, posMax;
    }

    /** `state` is what the context hands out, None for a null context. */
    method UpdateTgt(lib: Library, state: Option<seq<Byte>>, onDevice: bool)
      modifies lib, this
      ensures state.None? ==> (lib.State(), Value()) == old((lib.State(), Value()))
      ensures state.Some? ==> (lib.State(), Value()) == UpdatedTgt(old(lib.State()), old(Value()), state.value, onDevice)
    {
      if state.None? {
        return;
      }
      if onDevice {
        if storageTgt.None? {
          storageTgt := lib.Init();
        }
        lib.Write(storageTgt, state.value);
      } else {
        lib.Free(storageTgt);
        storageTgt := None;
      }
      dataTgt := state.value;
    }

    method UpdateDft(lib: Library, state: Option<seq<Byte>>, onDevice: bool)
      modifies lib, this
      ensures state.None? ==> (lib.State(), Value()) == old((lib.State(), Value()))
      ensures state.Some? ==> (lib.State(), Value()) == UpdatedDft(old(lib.State()), old(Value()), state.value, onDevice)
    {
      if state.None? {
        return;
      }
      if onDevice {
        if storageDft.None? {
          storageDft := lib.Init();
        }
        lib.Write(storageDft, state.value);
      } else {
        lib.Free(storageDft);
        storageDft := None;
      }
      dataDft := state.value;
    }

    method ClearTgt(lib: Library)
      modifies lib, this
      ensures (lib.State(), Value()) == ClearedTgt(old(lib.State()), old(Value()))
    {
      dataTgt := [];
      lib.Free(storageTgt);
      storageTgt := None;
    }

    method ClearDft(lib: Library)
      modifies lib, this
      ensures (lib.State(), Value()) == ClearedDft(old(lib.State()), old(Value()))
    {
      dataDft := [];
      lib.Free(storageDft);
      storageDft := None;
    }

    /** The destructor. */
    method Destroy(lib: Library)
      modifies lib
      ensures lib.State() == Released(old(lib.State()), old(Value()))
    {
      lib.Free(storageTgt);
      lib.Free(storageDft);
    }
  }

  // ---------------------------------------------------------------------
  // Programs over checkpoint objects

  /** Checkpoints by number, null once destroyed; no two numbers name the same object. */
  predicate Apart(objs: seq<PromptCheckpoint?>) {
    forall i, j :: 0 <= i < j < |objs| && objs[i] != null ==> objs[i] != objs[j]
  }

  ghost function View(o: PromptCheckpoint?): Option<Checkpoint>
    reads o
  {
    if o == null then None else Some(o.Value())
  }

  ghost function Views(objs: seq<PromptCheckpoint?>): (v: seq<Option<Checkpoint>>)
    reads objs
    ensures |v| == |objs| && forall i :: 0 <= i < |objs| ==> v[i] == View(objs[i])
  {
    if objs == [] then [] else Views(objs[..|objs| - 1]) + [View(objs[|objs| - 1])]
  }

  ghost function WorldOf(lib: Library, objs: seq<PromptCheckpoint?>): World
    reads lib, objs
  {
    World(lib.State(), Views(objs))
  }

  /** Objects and library in the state `w`. */
  ghost predicate InState(lib: Library, objs: seq<PromptCheckpoint?>, w: World)
    reads lib, objs
  {
    Apart(objs) && WorldOf(lib, objs) == w
  }

  method MakeOne(lib: Library, objs: seq<PromptCheckpoint?>, op: Op) returns (objs': seq<PromptCheckpoint?>)
    requires Apart(objs) && Legal(WorldOf(lib, objs), op) && (op.Construct? || op.CopyConstruct? || op.MoveConstruct?)
    modifies lib, objs
    ensures InState(lib, objs', Step(old(WorldOf(lib, objs)), op))
    ensures forall i :: 0 <= i < |objs'| && objs'[i] !in objs ==> fresh(objs'[i])
  {
    var o;
    if op.Construct? {
      o := new PromptCheckpoint();
    } else if op.CopyConstruct? {
      o := new PromptCheckpoint.Copy(lib, objs[op.src]);
    } else {
      o := new PromptCheckpoint.Move(objs[op.src]);
    }
    objs' := objs + [o];
  }

  method Assign(lib: Library, objs: seq<PromptCheckpoint?>, op: Op)
    requires Apart(objs) && Legal(WorldOf(lib, objs), op) && (op.CopyAssign? || op.MoveAssign?)
    modifies lib, objs
    ensures InState(lib, objs, Step(old(WorldOf(lib, objs)), op))
  {
    hide Copied, Released, MovedFrom, CopyAssigned;
    if op.CopyAssign? {
      objs[op.dst].CopyAssign(lib, objs[op.src]);
    } else {
      objs[op.dst].MoveAssign(lib, objs[op.src]);
    }
  }

  method Update(lib: Library, objs: seq<PromptCheckpoint?>, op: Op)
    requires Apart(objs) && Legal(WorldOf(lib, objs), op) && (op.UpdatePos? || op.UpdateTgt? || op.UpdateDft?)
    modifies lib, objs
    ensures InState(lib, objs, Step(old(WorldOf(lib, objs)), op))
  {
    hide UpdatedTgt, UpdatedDft;
    match op {
      case UpdatePos(i, nTokens, posMin, posMax) => objs[i].UpdatePos(nTokens, posMin, posMax);
      case UpdateTgt(i, data, onDevice) => objs[i].UpdateTgt(lib, data, onDevice);
      case UpdateDft(i, data, onDevice) => objs[i].UpdateDft(lib, data, onDevice);
    }
  }

  method Empty(lib: Library, objs: seq<PromptCheckpoint?>, op: Op)
    requires Apart(objs) && Legal(WorldOf(lib, objs), op) && (op.ClearTgt? || op.ClearDft? || op.Clear?)
    modifies lib, objs
    ensures InState(lib, objs, Step(old(WorldOf(lib, objs)), op))
  {
    hide Released, Free, ClearedTgt, ClearedDft;
    match op {
      case ClearTgt(i) => objs[i].ClearTgt(lib);
      case ClearDft(i) => objs[i].ClearDft(lib);
      case Clear(i) => objs[i].Clear(lib);
    }
  }

  method Remove(lib: Library, objs: seq<PromptCheckpoint?>, i: nat) returns (objs': seq<PromptCheckpoint?>)
    requires Apart(objs) && Legal(WorldOf(lib, objs), Destroy(i))
    modifies lib, objs
    ensures InState(lib, objs', Step(old(WorldOf(lib, objs)), Destroy(i)))
    ensures forall i :: 0 <= i < |objs'| && objs'[i] != null ==> objs'[i] in objs
  {
    objs[i].Destroy(lib);
    objs' := objs[i := null];
  }

  /** One operation on the objects makes the step of the model, and what was owned safely stays so. */
  method Perform(lib: Library, objs: seq<PromptCheckpoint?>, op: Op) returns (objs': seq<PromptCheckpoint?>)
    requires Apart(objs) && Legal(WorldOf(lib, objs), op) && Safe(WorldOf(lib, objs))
    modifies lib, objs
    ensures InState(lib, objs', Step(old(WorldOf(lib, objs)), op)) && Safe(WorldOf(lib, objs'))
    ensures forall i :: 0 <= i < |objs'| && objs'[i] != null && objs'[i] !in objs ==> fresh(objs'[i])
  {
    StepSafe(WorldOf(lib, objs), op);
    objs' := objs;
    if op.Construct? || op.CopyConstruct? || op.MoveConstruct? {
      objs' := MakeOne(lib, objs, op);
    } else if op.CopyAssign? || op.MoveAssign? {
      Assign(lib, objs, op);
    } else if op.UpdatePos? || op.UpdateTgt? || op.UpdateDft? {
      Update(lib, objs, op);
    } else if op.Destroy? {
      objs' := Remove(lib, objs, op.obj);
    } else {
      Empty(lib, objs, op);
    }
  }

  /** Any program over objects, from an unused library on: the library is never misused, each live handle is
      in exactly one object, and the objects are what the model's run says. */
  method PerformAll(ops: seq<Op>) returns (lib: Library, objs: seq<PromptCheckpoint?>)
    requires LegalRun(EMPTY_WORLD, ops)
    ensures InState(lib, objs, Run(EMPTY_WORLD, ops)) && Safe(WorldOf(lib, objs))
  {
    lib := new Library();
    objs := [];
    RunSafe(EMPTY_WORLD, []);
    for k := 0 to |ops|
      invariant fresh(lib) && forall i :: 0 <= i < |objs| && objs[i] != null ==> fresh(objs[i])
      invariant LegalRun(EMPTY_WORLD, ops[..k]) && InState(lib, objs, Run(EMPTY_WORLD, ops[..k])) && Safe(WorldOf(lib, objs))
    {
      RunOneMore(EMPTY_WORLD, ops, k);
      objs := Perform(lib, objs, ops[k]);
    }
    assert ops[..|ops|] == ops;
  }
}
