/** The scheduler and the system calls that drive it, updating their tables in place
    (kernel/src/task/scheduler.rs, kernel/src/syscall/operations.rs). */
module Schedulers {
  import opened Scheduling

  class Scheduler {
    var current: map<nat, nat>
    var ready: seq<nat>
    /** The threads and processes the scheduler only holds weak references to. */
    var process: map<nat, nat>
    var registered: set<nat>
    var contexts: map<nat, int>
    var nextThread: nat
    var nextProcess: nat

    function Value(): State
      reads this
    {
      State(current, ready, process, registered, contexts, nextThread, nextProcess)
    }

    ghost predicate Valid()
      reads this
    {
      Inv(Value())
    }

    /** One kernel thread for each CPU, running on it. */
    constructor (cpus: seq<nat>)
      requires Distinct(cpus)
      ensures Initial(Value(), Members(cpus)) && Valid()
    {
      current, ready, process, registered, contexts, nextThread, nextProcess := map[], [], map[], {KERNEL}, map[], 0, 1;
      new;
      hide Inv, Initial, Members, Running, Distinct;
      var i := 0;
      while i < |cpus|
        invariant 0 <= i <= |cpus|
        invariant ready == [] && registered == {KERNEL} && nextThread == i && nextProcess == 1
        invariant forall c :: c in current <==> c in cpus[..i]
        invariant forall k :: 0 <= k < i ==> cpus[k] in current && current[cpus[k]] == k
        invariant forall t :: t in process <==> 0 <= t < i
        invariant forall t :: t in process ==> process[t] == KERNEL
        invariant contexts.Keys == process.Keys
      {
        NotBefore(cpus, i);
        process, contexts := process[nextThread := KERNEL], contexts[nextThread := 0];
        current := current[cpus[i] := nextThread];
        nextThread := nextThread + 1;
        i := i + 1;
      }
      assert cpus[..i] == cpus;
      Started(Value(), cpus);
      InitialInv(Value(), Members(cpus));
    }

    /** The first queued thread of a process; every thread looked at is alive. */
    method Find(pid: nat) returns (found: Option<nat>)
      requires AllAlive(Value())
      ensures found == (if First(Value(), pid, 0) < |ready| then Some(ready[First(Value(), pid, 0)]) else None)
      ensures found == None <==> forall k :: 0 <= k < |ready| ==> process[ready[k]] != pid
      ensures found.Some? ==> found.value in ready && process[found.value] == pid
    {
      var i := 0;
      while i < |ready|
        invariant 0 <= i <= |ready|
        invariant First(Value(), pid, 0) == First(Value(), pid, i)
      {
        assert Alive(Value(), ready[i]);
        if process[ready[i]] == pid { return Some(ready[i]); }
        i := i + 1;
      }
      return None;
    }

    method Add(t: nat)
      modifies this`ready
      ensures ready == old(ready) + [t]
    {
      ready := ready + [t];
    }

    /** Drops a thread from the queue, keeping the order of the others; all of them are dereferenced. */
    method Remove(t: nat)
      requires AllAlive(Value()) && (ready != [] ==> Alive(Value(), t))
      modifies this`ready
      ensures ready == Without(old(ready), t)
      ensures forall u :: u in ready <==> u in old(ready) && u != t
      ensures Distinct(old(ready)) ==>
        forall i :: 0 <= i < |old(ready)| && old(ready)[i] == t ==> ready == old(ready)[..i] + old(ready)[i + 1..]
    {
      var kept, i := [], 0;
      while i < |ready|
        invariant 0 <= i <= |ready| && kept == Without(ready[..i], t)
      {
        assert Alive(Value(), ready[i]) && Alive(Value(), t);
        assert ready[..i + 1][..i] == ready[..i];
        if ready[i] != t { kept := kept + [ready[i]]; }
        i := i + 1;
      }
      assert ready[..i] == ready;
      WithoutMembers(ready, t);
      if Distinct(ready) && t in ready {
        var i :| 0 <= i < |ready| && ready[i] == t;
        WithoutAt(ready, i);
      }
      ready := kept;
    }

    /** A timer interrupt: the interrupted thread's context is kept and the context to resume returned. */
    method Schedule(cpu: nat, saved: int) returns (resumed: int)
      requires Valid() && cpu in current
      modifies this`current, this`ready, this`contexts
      ensures Step(old(Value()), Event.Schedule(cpu, saved)) == Some(Value()) && Valid()
      ensures cpu in current && Alive(Value(), current[cpu])
      ensures current[cpu] in contexts && resumed == contexts[current[cpu]]
      ensures old(ready) != [] ==> current[cpu] == old(ready)[0] && resumed == old(contexts)[current[cpu]]
      ensures old(ready) == [] ==> current[cpu] == old(current)[cpu] && resumed == saved
      ensures old(Alive(Value(), current[cpu])) ==>
        old(current)[cpu] in contexts && contexts[old(current)[cpu]] == saved
      ensures forall t :: t in old(contexts) && !(t == old(current)[cpu] && old(Alive(Value(), current[cpu]))) ==>
        t in contexts && contexts[t] == old(contexts)[t]
      ensures old(ready) != [] ==>
        ready == old(ready)[1..] + (if old(Alive(Value(), current[cpu])) then [old(current)[cpu]] else [])
      ensures forall c :: c in old(current) && c != cpu ==> c in current && current[c] == old(current)[c]
    {
      ghost var s := Value();
      ScheduleIs(s, cpu, saved);
      Scheduled(s, cpu, saved);
      hide Inv, Step;
      var last := current[cpu];
      var alive := Alive(Value(), last);
      if alive { contexts := contexts[last := saved]; }
      assert Value() == Save(s, cpu, saved);
      hide Save, Switch, Alive;
      Rotate(cpu, alive);
      assert Alive(Value(), current[cpu]);
      resumed := contexts[current[cpu]];
    }

    /** The first ready thread takes the CPU from the last one, which queues again if it lives. */
    method Rotate(cpu: nat, alive: bool)
      requires cpu in current && alive == Alive(Value(), current[cpu])
      modifies this`current, this`ready
      ensures Value() == Switch(old(Value()), cpu)
    {
      SwitchIs(Value(), cpu);
      hide Switch, Alive;
      if |ready| > 0 {
        var next, last := ready[0], current[cpu];
        ready := ready[1..];
        current := current[cpu := next];
        if alive { ready := ready + [last]; }
      }
    }

    /** The running thread's process ends; the thread stays on its CPU, dead, until the next interrupt. */
    method Exit(cpu: nat)
      requires Valid() && cpu in current && Alive(Value(), current[cpu])
      modifies this`ready, this`registered
      ensures Step(old(Value()), Event.Exit(cpu)) == Some(Value()) && Valid()
      ensures ready == old(ready) && (process[current[cpu]] != KERNEL ==> !Alive(Value(), current[cpu]))
    {
      ExitKeeps(Value(), cpu);
      OnlyWaiting(Value(), cpu);
      hide Inv, Without;
      var t := current[cpu];
      Remove(t);
      if Alive(Value(), t) { registered := registered - {process[t]}; }
    }

    /** Ends a process one of whose threads is queued; any other process is left alone. */
    method KillProcess(pid: nat)
      requires Valid() && Harmless(Value(), pid)
      modifies this`ready, this`registered
      ensures Step(old(Value()), Kill(pid)) == Some(Value()) && Valid()
      ensures pid != KERNEL ==>
        forall t :: t in process && process[t] == pid && t in old(ready) ==> !Alive(Value(), t) && t !in ready
      ensures forall t :: t in process && process[t] != pid ==> (Alive(Value(), t) <==> old(Alive(Value(), t)))
      ensures if exists i :: 0 <= i < |old(ready)| && process[old(ready)[i]] == pid
        then forall i :: 0 <= i < |old(ready)| && process[old(ready)[i]] == pid && pid != KERNEL ==>
          ready == old(ready)[..i] + old(ready)[i + 1..]
        else ready == old(ready) && registered == old(registered)
    {
      ghost var s := Value();
      KillKeeps(s, pid);
      KillEnds(s, pid);
      hide Inv, Without, Step, First;
      var found := Find(pid);
      if found.Some? {
        var t := found.value;
        Remove(t);
        if Alive(Value(), t) { registered := registered - {process[t]}; }
      }
    }

    method NewKernelThread(context: int)
      requires Valid()
      modifies this
      ensures Step(old(Value()), SpawnKernel(context)) == Some(Value()) && Valid()
      ensures ready == old(ready) + [old(nextThread)] && Alive(Value(), old(nextThread))
      ensures contexts == old(contexts)[old(nextThread) := context]
    {
      StepKeeps(Value(), SpawnKernel(context));
      hide Inv;
      Create(KERNEL, context);
    }

    method NewUserProcess(context: int)
      requires Valid()
      modifies this
      ensures Step(old(Value()), SpawnUser(context)) == Some(Value()) && Valid()
      ensures ready == old(ready) + [old(nextThread)] && Alive(Value(), old(nextThread))
      ensures contexts == old(contexts)[old(nextThread) := context]
      ensures process == old(process)[old(nextThread) := old(nextProcess)] && old(nextProcess) !in old(process).Values
    {
      ghost var s := Value();
      StepKeeps(s, SpawnUser(context));
      UserStep(s, context);
      hide Inv, Step, Spawn;
      var pid := nextProcess;
      nextProcess, registered := nextProcess + 1, registered + {pid};
      assert Value() == Registering(s);
      Create(pid, context);
    }

    method Create(pid: nat, context: int)
      modifies this
      ensures Value() == Spawn(old(Value()), pid, context)
    {
      var t := nextThread;
      nextThread := nextThread + 1;
      process, contexts := process[t := pid], contexts[t := context];
      Add(t);
    }
  }

  lemma ContextKnown(s: State, t: nat)
    requires Inv(s) && Alive(s, t)
    ensures t in s.contexts
  {
  }

  lemma OnlyWaiting(s: State, cpu: nat)
    requires Inv(s) && cpu in s.current
    ensures AllAlive(s) && Without(s.ready, s.current[cpu]) == s.ready
  {
    WithoutAbsent(s.ready, s.current[cpu]);
  }

  lemma SwitchIs(s: State, cpu: nat)
    requires cpu in s.current
    ensures s.ready == [] ==> Switch(s, cpu) == s
    ensures s.ready != [] ==> Switch(s, cpu) == s.(current := s.current[cpu := s.ready[0]],
      ready := if Alive(s, s.current[cpu]) then s.ready[1..] + [s.current[cpu]] else s.ready[1..])
  {
    assert s.ready != [] ==> s.ready[1..] + [] == s.ready[1..];
  }

  /** What a timer interrupt comes to. */
  /** The interrupted thread's context is the one saved, all others are kept, and the queue has moved on by one. */
  lemma Scheduled(s: State, cpu: nat, saved: int)
    requires cpu in s.current
    ensures var s', last := Switch(Save(s, cpu, saved), cpu), s.current[cpu];
      && (Alive(s, last) ==> last in s'.contexts && s'.contexts[last] == saved)
      && (forall t :: t in s.contexts && !(t == last && Alive(s, last)) ==>
            t in s'.contexts && s'.contexts[t] == s.contexts[t])
      && (s.ready != [] ==> s'.ready == s.ready[1..] + (if Alive(s, last) then [last] else []))
      && (forall c :: c in s.current && c != cpu ==> c in s'.current && s'.current[c] == s.current[c])
  {
  }

  lemma ScheduleIs(s: State, cpu: nat, saved: int)
    requires Inv(s) && cpu in s.current
    ensures var s' := Switch(Save(s, cpu, saved), cpu);
      && Step(s, Schedule(cpu, saved)) == Some(s') && Inv(s') && cpu in s'.current
      && Alive(s', s'.current[cpu]) && s'.current[cpu] in s'.contexts
      && (s.ready != [] ==>
            && s'.current[cpu] == s.ready[0] && s.ready[0] in s.contexts
            && s'.contexts[s.ready[0]] == s.contexts[s.ready[0]])
      && (s.ready == [] ==> s'.current[cpu] == s.current[cpu] && s'.contexts[s.current[cpu]] == saved)
  {
    ScheduleKeeps(s, cpu, saved);
    if s.ready != [] { WaitFacts(s, 0); }
    ContextKnown(Switch(Save(s, cpu, saved), cpu), Switch(Save(s, cpu, saved), cpu).current[cpu]);
    hide Inv;
  }

  lemma KillEnds(s: State, pid: nat)
    requires Inv(s) && Step(s, Kill(pid)).Some?
    ensures var s' := Step(s, Kill(pid)).value;
      && (pid != KERNEL ==> forall t :: t in s.process && s.process[t] == pid && t in s.ready ==>
          !Alive(s', t) && t !in s'.ready)
      && (forall t :: t in s.process && s.process[t] != pid ==> (Alive(s', t) <==> Alive(s, t)))
      && AllAlive(s)
      && s' == (if First(s, pid, 0) == |s.ready| then s
                else s.(ready := Without(s.ready, s.ready[First(s, pid, 0)]), registered := s.registered - {pid}))
  {
    var i := First(s, pid, 0);
    if i < |s.ready| { WithoutMembers(s.ready, s.ready[i]); }
  }

  /** The next process, still without a thread. */
  function Registering(s: State): State
  {
    s.(registered := s.registered + {s.nextProcess}, nextProcess := s.nextProcess + 1)
  }

  lemma UserStep(s: State, context: int)
    ensures Step(s, SpawnUser(context)) == Some(Spawn(Registering(s), s.nextProcess, context))
  {
  }

  lemma NotBefore(q: seq<nat>, i: nat)
    requires Distinct(q) && i < |q|
    ensures q[i] !in q[..i] && q[..i + 1] == q[..i] + [q[i]]
    ensures forall k :: 0 <= k < i ==> q[k] != q[i]
  {
  }
}
