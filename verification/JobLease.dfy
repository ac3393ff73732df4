/** Mutual exclusion of job executions: a registry per process and a file lock per job directory. */
module JobLease {
  /** How far an execution got. A failed one is still registered; a releasing one still has its file locked. */
  datatype Stage = Registered | Failed | Holding | Releasing

  datatype Lease = Lease(process: nat, key: string, dir: string, stage: Stage)

  /** The machine. Owners are kept for the proofs: no step looks at whose an entry is. */
  datatype State = State(registry: map<(nat, string), nat>, locks: map<string, nat>, live: map<nat, Lease>)

  const EMPTY: State := State(map[], map[], map[])

  /** What the processes do, each part on its own, so that all of them interleave. */
  datatype Step =
    | Register(id: nat, process: nat, key: string, dir: string)
    | TakeLock(id: nat)
    | OpenFails(id: nat)
    | Withdraw(id: nat)
    | Unregister(id: nat)
    | Close(id: nat)
    | Crash(process: nat)

  predicate At(s: State, id: nat, stage: Stage)
  {
    id in s.live && s.live[id].stage == stage
  }

  function Moved(s: State, id: nat, stage: Stage): (live: map<nat, Lease>)
    requires id in s.live
  {
    s.live[id := s.live[id].(stage := stage)]
  }

  function Next(s: State, step: Step): (r: State)
  {
    match step
    case Register(id, process, key, dir) =>
      if id in s.live || (process, key) in s.registry then s
      else s.(registry := s.registry[(process, key) := id], live := s.live[id := Lease(process, key, dir, Registered)])
    case TakeLock(id) =>
      if !At(s, id, Registered) then s
      else if s.live[id].dir in s.locks then s.(live := Moved(s, id, Failed))
      else s.(locks := s.locks[s.live[id].dir := id], live := Moved(s, id, Holding))
    case OpenFails(id) =>
      if At(s, id, Registered) then s.(live := Moved(s, id, Failed)) else s
    case Withdraw(id) =>
      if !At(s, id, Failed) then s
      else s.(registry := s.registry - {(s.live[id].process, s.live[id].key)}, live := s.live - {id})
    case Unregister(id) =>
      if !At(s, id, Holding) then s
      else s.(registry := s.registry - {(s.live[id].process, s.live[id].key)}, live := Moved(s, id, Releasing))
    case Close(id) =>
      if !At(s, id, Releasing) then s
      else s.(locks := s.locks - {s.live[id].dir}, live := s.live - {id})
    case Crash(process) =>
      State(map pk | pk in s.registry && pk.0 != process :: s.registry[pk],
            map d | d in s.locks && !(s.locks[d] in s.live && s.live[s.locks[d]].process == process) :: s.locks[d],
            map id | id in s.live && s.live[id].process != process :: s.live[id])
  }

  function RunOf(steps: seq<Step>): (r: State)
  {
    if steps == [] then EMPTY else Next(RunOf(steps[..|steps| - 1]), steps[|steps| - 1])
  }

  lemma RunSnoc(steps: seq<Step>, step: Step)
    ensures RunOf(steps + [step]) == Next(RunOf(steps), step)
  {
    assert (steps + [step])[..|steps|] == steps;
  }

  // ---------------------------------------------------------------- registry and locks mirror the executions

  ghost predicate OwnsKey(s: State, pk: (nat, string), id: nat)
  {
    id in s.live && (s.live[id].process, s.live[id].key) == pk && s.live[id].stage != Releasing
  }

  ghost predicate OwnsDir(s: State, dir: string, id: nat)
  {
    id in s.live && s.live[id].dir == dir && s.live[id].stage in {Holding, Releasing}
  }

  ghost predicate KeysMirror(s: State)
  {
    forall pk, id :: OwnsKey(s, pk, id) <==> pk in s.registry && s.registry[pk] == id
  }

  ghost predicate DirsMirror(s: State)
  {
    forall dir, id :: OwnsDir(s, dir, id) <==> dir in s.locks && s.locks[dir] == id
  }

  ghost predicate Consistent(s: State)
  {
    KeysMirror(s) && DirsMirror(s)
  }

  lemma KeysKept(s: State, step: Step)
    requires KeysMirror(s)
    ensures KeysMirror(Next(s, step))
  {
    var t := Next(s, step);
    forall id | id in s.live && s.live[id].stage != Releasing
      ensures OwnsKey(s, (s.live[id].process, s.live[id].key), id)
    {
    }
    forall pk, id ensures OwnsKey(t, pk, id) <==> pk in t.registry && t.registry[pk] == id {
      assert OwnsKey(s, pk, id) <==> pk in s.registry && s.registry[pk] == id;
    }
  }

  lemma DirsKept(s: State, step: Step)
    requires DirsMirror(s)
    ensures DirsMirror(Next(s, step))
  {
    var t := Next(s, step);
    forall id | id in s.live && s.live[id].stage in {Holding, Releasing} ensures OwnsDir(s, s.live[id].dir, id) {
    }
    forall dir, id ensures OwnsDir(t, dir, id) <==> dir in t.locks && t.locks[dir] == id {
      assert OwnsDir(s, dir, id) <==> dir in s.locks && s.locks[dir] == id;
    }
  }

  lemma ConsistentKept(s: State, step: Step)
    requires Consistent(s)
    ensures Consistent(Next(s, step))
  {
    KeysKept(s, step);
    DirsKept(s, step);
  }

  lemma {:induction false} ConsistentAlways(steps: seq<Step>)
    ensures Consistent(RunOf(steps))
  {
    if steps != [] {
      ConsistentAlways(steps[..|steps| - 1]);
      ConsistentKept(RunOf(steps[..|steps| - 1]), steps[|steps| - 1]);
    }
  }

  /** Two executions never hold leases in one directory, nor for one job in one process. */
  lemma MutualExclusion(steps: seq<Step>, a: nat, b: nat)
    requires a != b && At(RunOf(steps), a, Holding) && At(RunOf(steps), b, Holding)
    ensures RunOf(steps).live[a].dir != RunOf(steps).live[b].dir
    ensures (RunOf(steps).live[a].process, RunOf(steps).live[a].key)
         != (RunOf(steps).live[b].process, RunOf(steps).live[b].key)
  {
    ConsistentAlways(steps);
    var s := RunOf(steps);
    assert OwnsDir(s, s.live[a].dir, a) && OwnsDir(s, s.live[b].dir, b);
    assert OwnsKey(s, (s.live[a].process, s.live[a].key), a) && OwnsKey(s, (s.live[b].process, s.live[b].key), b);
  }

  /** When no execution is left, neither a registration nor a lock is: failures, drops and crashes leak nothing. */
  lemma NothingLeaks(steps: seq<Step>)
    requires RunOf(steps).live == map[]
    ensures RunOf(steps) == EMPTY
  {
    ConsistentAlways(steps);
    var s := RunOf(steps);
    forall pk ensures pk !in s.registry {
      if pk in s.registry { KeyIsOwned(s, pk); }
    }
    forall dir ensures dir !in s.locks {
      if dir in s.locks { DirIsOwned(s, dir); }
    }
  }

  lemma KeyIsOwned(s: State, pk: (nat, string))
    requires Consistent(s) && pk in s.registry
    ensures s.registry[pk] in s.live
  {
    assert OwnsKey(s, pk, s.registry[pk]);
  }

  lemma DirIsOwned(s: State, dir: string)
    requires Consistent(s) && dir in s.locks
    ensures s.locks[dir] in s.live
  {
    assert OwnsDir(s, dir, s.locks[dir]);
  }

  /** One execution that holds its lease, alone. */
  lemma OneHolds(id: nat, process: nat, key: string, dir: string) returns (steps: seq<Step>)
    ensures RunOf(steps)
         == State(map[(process, key) := id], map[dir := id], map[id := Lease(process, key, dir, Holding)])
  {
    steps := [Register(id, process, key, dir)];
    RunSnoc([], steps[0]);
    RunSnoc(steps, TakeLock(id));
    steps := steps + [TakeLock(id)];
  }

  /** In some run both executions hold leases of this kind at once. */
  ghost predicate CanBothHold(a: Lease, b: Lease)
  {
    exists steps: seq<Step>, i: nat, j: nat :: BothHold(steps, i, j, a, b)
  }

  ghost predicate BothHold(steps: seq<Step>, i: nat, j: nat, a: Lease, b: Lease)
  {
    i != j && i in RunOf(steps).live && RunOf(steps).live[i] == a && j in RunOf(steps).live && RunOf(steps).live[j] == b
  }

  /** Two executions can both hold a lease exactly when directories differ and process or job differs. */
  lemma BothHoldIff(a: Lease, b: Lease)
    requires a.stage == b.stage == Holding
    ensures CanBothHold(a, b) <==> a.dir != b.dir && (a.process, a.key) != (b.process, b.key)
  {
    if a.dir != b.dir && (a.process, a.key) != (b.process, b.key) {
      var steps := OneHolds(0, a.process, a.key, a.dir);
      RunSnoc(steps, Register(1, b.process, b.key, b.dir));
      steps := steps + [Register(1, b.process, b.key, b.dir)];
      RunSnoc(steps, TakeLock(1));
      steps := steps + [TakeLock(1)];
      assert BothHold(steps, 0, 1, a, b);
    }
    if CanBothHold(a, b) {
      var steps: seq<Step>, i: nat, j: nat :| BothHold(steps, i, j, a, b);
      MutualExclusion(steps, i, j);
    }
  }

  /** Two executions of one job can both hold exactly when both their processes and their directories differ. */
  lemma SameJobTwiceIff(a: Lease, b: Lease)
    requires a.stage == b.stage == Holding && a.key == b.key
    ensures CanBothHold(a, b) <==> a.process != b.process && a.dir != b.dir
  {
    BothHoldIff(a, b);
  }

  // ---------------------------------------------------------------- acquire and drop

  /** The shared state that one process works on, between two steps of the others. */
  class Host {
    var state: State

    ghost predicate Valid()
      reads this
    {
      Consistent(state)
    }

    constructor ()
      ensures Valid() && state == EMPTY
    {
      state := EMPTY;
    }

    /** Undisturbed, it succeeds exactly when no one has the job in this process or the directory in any. */
    method Acquire(id: nat, process: nat, key: string, dir: string, opens: bool) returns (acquired: bool)
      requires Valid() && id !in state.live
      modifies this
      ensures Valid()
      ensures acquired <==> (&& opens && !(exists other :: OwnsKey(old(state), (process, key), other))
                             && !(exists other :: OwnsDir(old(state), dir, other)))
      ensures acquired ==> state == Next(Next(old(state), Register(id, process, key, dir)), TakeLock(id))
      ensures acquired ==> At(state, id, Holding)
      ensures !acquired ==> state == old(state)
    {
      ghost var before := state;
      AcquireLaw(state, id, process, key, dir);
      if (process, key) in state.registry { return false; }
      state := Next(state, Register(id, process, key, dir));
      state := Next(state, if opens then TakeLock(id) else OpenFails(id));
      acquired := state.live[id].stage == Holding;
      if acquired {
        ConsistentKept(before, Register(id, process, key, dir));
        ConsistentKept(Next(before, Register(id, process, key, dir)), TakeLock(id));
      } else {
        state := Next(state, Withdraw(id));
        assert state.registry == before.registry && state.live == before.live;
      }
    }

    /** Gives back all that the lease took: the registration first, then the lock. */
    method Drop(id: nat)
      requires Valid() && At(state, id, Holding)
      modifies this
      ensures Valid() && state.live == old(state.live) - {id}
      ensures state.registry == old(state.registry) - {(old(state).live[id].process, old(state).live[id].key)}
      ensures state.locks == old(state.locks) - {old(state).live[id].dir}
      ensures state == Next(Next(old(state), Unregister(id)), Close(id))
    {
      ConsistentKept(state, Unregister(id));
      ConsistentKept(Next(state, Unregister(id)), Close(id));
      state := Next(state, Unregister(id));
      state := Next(state, Close(id));
    }

    /** A whole execution: with or without the lease, it leaves no trace. */
    method Execute(id: nat, process: nat, key: string, dir: string, opens: bool) returns (acquired: bool)
      requires Valid() && id !in state.live
      modifies this
      ensures Valid() && state == old(state)
      ensures acquired <==> (&& opens && !(exists other :: OwnsKey(old(state), (process, key), other))
                             && !(exists other :: OwnsDir(old(state), dir, other)))
    {
      AcquireLaw(state, id, process, key, dir);
      ghost var before := state;
      acquired := Acquire(id, process, key, dir, opens);
      if acquired {
        AcquireThenDrop(before, id, process, key, dir);
        Drop(id);
      }
    }
  }

  lemma AcquireLaw(s: State, id: nat, process: nat, key: string, dir: string)
    requires Consistent(s)
    ensures (exists other :: OwnsKey(s, (process, key), other)) <==> (process, key) in s.registry
    ensures (exists other :: OwnsDir(s, dir, other)) <==> dir in s.locks
  {
    if (process, key) in s.registry { assert OwnsKey(s, (process, key), s.registry[(process, key)]); }
    if dir in s.locks { assert OwnsDir(s, dir, s.locks[dir]); }
  }

  /** A lease that is taken and dropped, with nothing in between, leaves no trace. */
  lemma AcquireThenDrop(s: State, id: nat, process: nat, key: string, dir: string)
    requires Consistent(s) && id !in s.live && (process, key) !in s.registry && dir !in s.locks
    ensures Next(Next(Next(Next(s, Register(id, process, key, dir)), TakeLock(id)), Unregister(id)), Close(id)) == s
  {
    var t := Next(Next(s, Register(id, process, key, dir)), TakeLock(id));
    assert Next(t, Unregister(id)).registry == s.registry;
    assert Next(Next(t, Unregister(id)), Close(id)).locks == s.locks;
    assert Next(Next(t, Unregister(id)), Close(id)).live == s.live;
  }
}
