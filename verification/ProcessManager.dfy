/**
 The process manager and its resource pool. A removal waits twice for other code, so it
 is modelled as a suspension that is resumed segment by segment; between two segments
 any other call may come.
 */
module ProcessManager {
  import opened Collections

  datatype Proc<R> = Proc(id: string, resources: seq<R>)

  /** Where a removal is suspended: in the cleanup callback, or after the process was told to terminate. */
  datatype Stage = Cleaning | Terminating

  datatype Removal<R> = Removal(proc: Proc<R>, stage: Stage)

  /** Processes are listed in the order of their creation. */
  datatype State<R> = State(available: seq<R>, procs: seq<Proc<R>>, removals: seq<Removal<R>>)

  datatype Op = Create(id: string, count: int) | Begin(id: string) | Resume(k: nat, ok: bool) | Cleanup

  function FindProc<R>(procs: seq<Proc<R>>, id: string): (i: int)
    ensures -1 <= i < |procs|
    ensures i >= 0 ==> procs[i].id == id
    ensures i < 0 ==> forall k :: 0 <= k < |procs| ==> procs[k].id != id
  {
    if procs == [] then -1
    else if procs[|procs| - 1].id == id then |procs| - 1
    else FindProc(procs[..|procs| - 1], id)
  }

  /** How many elements a request takes; a negative count takes none. */
  function Taken(count: int): (r: nat) {
    Max(0, count)
  }

  function CreateStep<R>(s: State<R>, id: string, count: int): (r: (State<R>, bool)) {
    if FindProc(s.procs, id) >= 0 || (count != 0 && |s.available| < count) then (s, false)
    else
      var n := Taken(count);
      (s.(available := s.available[n..], procs := s.procs + [Proc(id, s.available[..n])]), true)
  }

  function BeginStep<R>(s: State<R>, id: string): (r: State<R>) {
    var i := FindProc(s.procs, id);
    if i < 0 then s else s.(removals := s.removals + [Removal(s.procs[i], Cleaning)])
  }

  /** Whatever is now stored under an id is deleted. */
  function Delete<R>(procs: seq<Proc<R>>, id: string): (r: seq<Proc<R>>) {
    var i := FindProc(procs, id);
    if i < 0 then procs else RemoveAt(procs, i)
  }

  /** A suspended removal goes on; `ok` says whether the cleanup callback succeeded. */
  function ResumeStep<R>(s: State<R>, k: nat, ok: bool): (r: State<R>) {
    if k >= |s.removals| then s
    else
      var removal := s.removals[k];
      match removal.stage
      case Cleaning =>
        if ok then s.(removals := s.removals[k := removal.(stage := Terminating)])
        else s.(removals := RemoveAt(s.removals, k))
      case Terminating =>
        State(s.available + removal.proc.resources, Delete(s.procs, removal.proc.id), RemoveAt(s.removals, k))
  }

  function BeginAll<R>(s: State<R>, procs: seq<Proc<R>>): (r: State<R>) {
    if procs == [] then s else BeginStep(BeginAll(s, procs[..|procs| - 1]), procs[|procs| - 1].id)
  }

  function Step<R>(s: State<R>, op: Op): (r: State<R>) {
    match op
    case Create(id, count) => CreateStep(s, id, count).0
    case Begin(id) => BeginStep(s, id)
    case Resume(k, ok) => ResumeStep(s, k, ok)
    case Cleanup => BeginAll(s, s.procs)
  }

  function Run<R>(s: State<R>, ops: seq<Op>): (r: State<R>) {
    if ops == [] then s else Step(Run(s, ops[..|ops| - 1]), ops[|ops| - 1])
  }

  // ---------- the classes ----------

  class ResourcePool<R> {
    var available: seq<R>

    constructor (resources: seq<R>)
      ensures available == resources
    {
      available := resources;
    }

    method Allocate(count: int) returns (resources: Option<seq<R>>)
      modifies this
      ensures old(|available|) < count ==> resources == None && available == old(available)
      ensures 0 <= count <= old(|available|) ==>
        resources == Some(old(available)[..count]) && available == old(available)[count..]
      ensures count < 0 ==> resources == Some([]) && available == old(available)
    {
      if |available| < count {
        return None;
      }
      resources := Some(available[..Max(0, count)]);
      available := available[Max(0, count)..];
    }

    method Release(resources: seq<R>)
      modifies this
      ensures available == old(available) + resources
    {
      available := available + resources;
    }
  }

  datatype ProcessState = Waiting | Starting | Running

  class ManagedProcess<R> {
    const id: string
    const resources: seq<R>
    var state: ProcessState
    var startTime: int
    var timer: Option<int>
    var expectedStop: bool

    constructor (id: string, state: ProcessState, startTime: int, resources: seq<R>)
      ensures this.id == id && this.resources == resources && this.state == state && this.startTime == startTime
      ensures timer == None && !expectedStop
    {
      this.id, this.state, this.startTime, this.resources := id, state, startTime, resources;
      timer, expectedStop := None, false;
    }

    ghost function Value(): (r: Proc<R>) {
      Proc(id, resources)
    }
  }

  datatype Suspension<R> = Suspension(process: ManagedProcess<R>, stage: Stage)

  ghost function Values<R>(processes: seq<ManagedProcess<R>>): (r: seq<Proc<R>>)
    ensures |r| == |processes|
    ensures forall i :: 0 <= i < |r| ==> r[i] == processes[i].Value()
  {
    seq(|processes|, i requires 0 <= i < |processes| => processes[i].Value())
  }

  ghost function Removals<R>(suspended: seq<Suspension<R>>): (r: seq<Removal<R>>)
    ensures |r| == |suspended|
    ensures forall i :: 0 <= i < |r| ==> r[i] == Removal(suspended[i].process.Value(), suspended[i].stage)
  {
    seq(|suspended|, i requires 0 <= i < |suspended| =>
      Removal(suspended[i].process.Value(), suspended[i].stage))
  }

  class ProcessManager<R> {
    const pool: ResourcePool<R>
    var processes: seq<ManagedProcess<R>>
    var suspended: seq<Suspension<R>>

    constructor (pool: ResourcePool<R>)
      ensures this.pool == pool && Abs() == State(pool.available, [], [])
    {
      this.pool := pool;
      processes, suspended := [], [];
    }

    ghost function Abs(): (r: State<R>)
      reads this, pool
    {
      State(pool.available, Values(processes), Removals(suspended))
    }

    /** The position of the process stored under an id, or -1. */
    method Lookup(id: string) returns (i: int)
      ensures i == FindProc(Values(processes), id)
    {
      i := |processes| - 1;
      ghost var all := Values(processes);
      assert all[..|all|] == all;
      while i >= 0
        invariant -1 <= i < |processes|
        invariant FindProc(all, id) == FindProc(all[..i + 1], id)
      {
        assert all[..i + 1][..i] == all[..i];
        if processes[i].id == id {
          return;
        }
        i := i - 1;
      }
    }

    method Create(id: string, count: int, initialState: ProcessState, now: int) returns (created: bool)
      modifies this, pool
      ensures (Abs(), created) == CreateStep(old(Abs()), id, count)
      ensures created <==>
        (forall p <- old(processes) :: p.id != id) && (count == 0 || count <= old(|pool.available|))
      ensures suspended == old(suspended)
      ensures processes == if created then old(processes) + [processes[|processes| - 1]] else old(processes)
      ensures created ==>
        var p := processes[|processes| - 1];
        fresh(p) && p.state == initialState && p.startTime == now && p.timer == None && !p.expectedStop
    {
      var i := Lookup(id);
      if i >= 0 {
        return false;
      }
      var resources := [];
      if count != 0 {
        var taken := pool.Allocate(count);
        if taken == None {
          return false;
        }
        resources := taken.value;
      }
      var process := new ManagedProcess(id, initialState, now, resources);
      processes := processes + [process];
      assert Values(processes) == old(Values(processes)) + [process.Value()];
      return true;
    }

    /** The first segment of a stop: the process is marked, then its cleanup callback runs. */
    method BeginStop(process: ManagedProcess<R>)
      modifies process`expectedStop
      ensures process.expectedStop
    {
      process.expectedStop := true;
    }

    /** The first segment of a removal, up to the cleanup callback. */
    method BeginRemove(id: string)
      modifies `suspended, processes`expectedStop
      ensures Abs() == BeginStep(old(Abs()), id)
      ensures var i := FindProc(Values(processes), id);
        suspended == old(suspended) + if i >= 0 then [Suspension(processes[i], Cleaning)] else []
      ensures forall p <- processes :: p.expectedStop == (old(p.expectedStop) ||
                p == (var i := FindProc(Values(processes), id); if i >= 0 then processes[i] else null))
    {
      var i := Lookup(id);
      if i < 0 {
        return;
      }
      var process := processes[i];
      BeginStop(process);
      suspended := suspended + [Suspension(process, Cleaning)];
      assert Removals(suspended) == old(Removals(suspended)) + [Removal(process.Value(), Cleaning)];
    }

    /** A later segment of the k-th suspended removal. */
    method ResumeRemove(k: nat, ok: bool)
      modifies this, pool, (set s | s in suspended :: s.process)`timer
      ensures Abs() == ResumeStep(old(Abs()), k, ok)
      ensures var last := k < old(|suspended|) && old(suspended[k].stage) == Terminating;
        forall p | p in (set s | s in old(suspended) :: s.process) ::
          p.timer == if last && p == old(suspended[k].process) then None else old(p.timer)
      ensures var last := k < old(|suspended|) && old(suspended[k].stage) == Terminating;
        var i := if last then old(FindProc(Values(processes), suspended[k].process.id)) else -1;
        processes == if i >= 0 then RemoveAt(old(processes), i) else old(processes)
      ensures k < old(|suspended|) ==>
        var s := old(suspended)[k];
        suspended ==
          if s.stage == Cleaning && ok then old(suspended)[k := s.(stage := Terminating)]
          else RemoveAt(old(suspended), k)
    {
      if k >= |suspended| {
        return;
      }
      var process := suspended[k].process;
      match suspended[k].stage
      case Cleaning =>
        if ok {
          suspended := suspended[k := Suspension(process, Terminating)];
          assert Removals(suspended) == old(Removals(suspended))[k := Removal(process.Value(), Terminating)];
        } else {
          suspended := RemoveAt(suspended, k);
          assert Removals(suspended) == RemoveAt(old(Removals(suspended)), k);
        }
      case Terminating =>
        process.timer := None;
        if |process.resources| > 0 {
          pool.Release(process.resources);
        }
        var i := Lookup(process.id);
        if i >= 0 {
          processes := RemoveAt(processes, i);
          assert Values(processes) == RemoveAt(old(Values(processes)), i);
        }
        suspended := RemoveAt(suspended, k);
        assert Removals(suspended) == RemoveAt(old(Removals(suspended)), k);
        assert pool.available == old(pool.available) + process.resources;
    }

    /** Every stored process begins to be removed, one after the other. */
    method BeginCleanup()
      modifies `suspended, processes`expectedStop
      ensures Abs() == BeginAll(old(Abs()), old(Abs()).procs)
      ensures processes == old(processes)
    {
      var ids := seq(|processes|, i requires 0 <= i < |processes| reads this => processes[i].id);
      ghost var before, procs := Abs(), Values(processes);
      for i := 0 to |ids|
        invariant processes == old(processes) && |ids| == |processes|
        invariant Abs() == BeginAll(before, procs[..i])
      {
        assert procs[..i + 1][..i] == procs[..i];
        BeginRemove(ids[i]);
      }
      assert procs[..|ids|] == procs;
    }
  }
}
