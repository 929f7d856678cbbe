/** The scheduler's protocol: one current thread per CPU, one queue of ready threads, processes that can go away. */
module Scheduling {

  datatype Option<T> = None | Some(value: T)

  /** The kernel process; it is held forever, so its threads never die. */
  const KERNEL: nat := 0

  /** `process` says whose every thread ever made was, `registered` which processes still exist. A thread lives as long
      as its process. A context is an opaque value. */
  datatype State = State(
    current: map<nat, nat>, ready: seq<nat>,
    process: map<nat, nat>, registered: set<nat>, contexts: map<nat, int>,
    nextThread: nat, nextProcess: nat)

  /** A new kernel thread or user process, a timer interrupt on a CPU, and the two system calls that end a process. */
  datatype Event =
    | SpawnKernel(context: int)
    | SpawnUser(context: int)
    | Schedule(cpu: nat, saved: int)
    | Exit(cpu: nat)
    | Kill(pid: nat)

  predicate Alive(s: State, t: nat) { t in s.process && (s.process[t] == KERNEL || s.process[t] in s.registered) }

  predicate AllAlive(s: State) { forall i :: 0 <= i < |s.ready| ==> Alive(s, s.ready[i]) }

  /** The queue without `t`. */
  function Without(queue: seq<nat>, t: nat): seq<nat>
  {
    if queue == [] then []
    else Without(queue[..|queue| - 1], t) + (if queue[|queue| - 1] == t then [] else [queue[|queue| - 1]])
  }

  /** The position of the first queued thread of a process, or the length of the queue. */
  function First(s: State, pid: nat, from: nat): (i: nat)
    requires from <= |s.ready| && forall k :: 0 <= k < |s.ready| ==> s.ready[k] in s.process
    ensures from <= i <= |s.ready|
    ensures forall k :: from <= k < i ==> s.process[s.ready[k]] != pid
    ensures i < |s.ready| ==> s.process[s.ready[i]] == pid
    decreases |s.ready| - from
  {
    if from == |s.ready| || s.process[s.ready[from]] == pid then from else First(s, pid, from + 1)
  }

  function Spawn(s: State, pid: nat, context: int): State
  {
    s.(ready := s.ready + [s.nextThread], process := s.process[s.nextThread := pid],
       contexts := s.contexts[s.nextThread := context], nextThread := s.nextThread + 1)
  }

  function Save(s: State, cpu: nat, saved: int): State
    requires cpu in s.current
  {
    if Alive(s, s.current[cpu]) then s.(contexts := s.contexts[s.current[cpu] := saved]) else s
  }

  /** The first ready thread takes the CPU; the thread it had goes to the end of the queue if it lives. */
  function Switch(s: State, cpu: nat): State
    requires cpu in s.current
  {
    if s.ready == [] then s
    else
      var last := s.current[cpu];
      s.(current := s.current[cpu := s.ready[0]], ready := s.ready[1..] + (if Alive(s, last) then [last] else []))
  }

  /** What an event does; no state if it dereferences a dead thread or asks an unknown CPU. */
  function Step(s: State, e: Event): Option<State>
  {
    match e
    case SpawnKernel(context) => Some(Spawn(s, KERNEL, context))
    case SpawnUser(context) =>
      Some(Spawn(s.(registered := s.registered + {s.nextProcess}, nextProcess := s.nextProcess + 1), s.nextProcess,
          context))
    case Schedule(cpu, saved) =>
      if cpu !in s.current then None
      else
        var s' := Switch(Save(s, cpu, saved), cpu);
        if Alive(s', s'.current[cpu]) then Some(s') else None
    case Exit(cpu) =>
      if cpu !in s.current || !AllAlive(s) then None
      else
        var t := s.current[cpu];
        if s.ready != [] && !Alive(s, t) then None
        else
          var s1 := s.(ready := Without(s.ready, t));
          Some(if Alive(s, t) then s1.(registered := s1.registered - {s1.process[t]}) else s1)
    case Kill(pid) =>
      if !AllAlive(s) then None
      else
        var i := First(s, pid, 0);
        Some(if i == |s.ready| then s
             else s.(ready := Without(s.ready, s.ready[i]), registered := s.registered - {pid}))
  }

  /** The state after a run of events. */
  function Run(s: State, events: seq<Event>): Option<State>
    decreases |events|
  {
    if events == [] then Some(s)
    else match Step(s, events[0])
      case None => None
      case Some(s1) => Run(s1, events[1..])
  }

  // ---------------------------------------------------------------- the invariant

  ghost function KernelThreads(s: State): set<nat> { set t | t in s.process && s.process[t] == KERNEL }

  ghost predicate Running(s: State, t: nat) { exists c :: c in s.current && s.current[c] == t }

  ghost predicate Distinct(queue: seq<nat>) { forall i, j :: 0 <= i < j < |queue| ==> queue[i] != queue[j] }

  /** No thread has two places. */
  ghost predicate Placed(s: State)
  {
    && (forall c, d :: c in s.current && d in s.current && c != d ==> s.current[c] != s.current[d])
    && Distinct(s.ready)
    && (forall c, i :: c in s.current && 0 <= i < |s.ready| ==> s.current[c] != s.ready[i])
  }

  /** Every living thread has a place, and every queued thread lives. */
  ghost predicate Conserved(s: State)
  {
    && AllAlive(s)
    && (forall c :: c in s.current ==> s.current[c] in s.process)
    && (forall t :: Alive(s, t) ==> t in s.ready || Running(s, t))
  }

  /** A process other than the kernel has one thread. */
  ghost predicate Lone(process: map<nat, nat>)
  {
    forall t, u :: t in process && u in process && t != u && process[t] == process[u] ==> process[t] == KERNEL
  }

  /** Identifiers are handed out once, a user process has one thread, and there is a kernel thread for each CPU. */
  ghost predicate Numbered(s: State)
  {
    && (forall t :: t in s.process ==> t < s.nextThread && s.process[t] < s.nextProcess)
    && (forall p :: p in s.registered ==> p < s.nextProcess)
    && Lone(s.process)
    && (forall t :: t in s.contexts <==> t in s.process)
    && s.nextProcess > KERNEL
    && |KernelThreads(s)| >= |s.current|
  }

  ghost predicate Inv(s: State) { Placed(s) && Conserved(s) && Numbered(s) }

  // ---------------------------------------------------------------- pigeonhole

  lemma {:induction false} ImageCard(current: map<nat, nat>, cpus: set<nat>, image: set<nat>)
    requires cpus <= current.Keys
    requires forall t :: t in image ==> exists c :: c in cpus && current[c] == t
    ensures |image| <= |cpus|
    decreases |image|
  {
    if image != {} {
      var t :| t in image;
      var c :| c in cpus && current[c] == t;
      ImageCard(current, cpus - {c}, image - {t});
    }
  }

  /** With an empty queue and a dead thread on some CPU there would be fewer kernel threads than CPUs. */
  lemma Crowded(s: State, cpu: nat)
    requires Conserved(s) && s.ready == [] && cpu in s.current && !Alive(s, s.current[cpu])
    ensures |KernelThreads(s)| < |s.current|
  {
    forall t | t in KernelThreads(s)
      ensures exists c :: c in s.current.Keys - {cpu} && s.current[c] == t
    {
      assert Alive(s, t);
      var c :| c in s.current && s.current[c] == t;
      assert c in s.current.Keys - {cpu};
    }
    ImageCard(s.current, s.current.Keys - {cpu}, KernelThreads(s));
    assert |s.current.Keys - {cpu}| == |s.current| - 1;
  }

  /** If the thread of a CPU is dead, some thread is ready. */
  lemma DeadMeansReady(s: State, cpu: nat)
    requires Inv(s) && cpu in s.current && !Alive(s, s.current[cpu])
    ensures s.ready != []
  {
    if s.ready == [] { Crowded(s, cpu); }
  }

  // ---------------------------------------------------------------- every step keeps the invariant

  lemma {:induction false} WithoutMembers(queue: seq<nat>, t: nat)
    ensures forall u :: u in Without(queue, t) <==> u in queue && u != t
    ensures Distinct(queue) ==> Distinct(Without(queue, t))
  {
    if queue != [] {
      var front, last := queue[..|queue| - 1], queue[|queue| - 1];
      WithoutMembers(front, t);
      assert queue == front + [last];
      if Distinct(queue) {
        assert Distinct(front) && last !in front;
        DistinctPush(Without(front, t), last);
      }
    }
  }

  lemma DistinctPush(queue: seq<nat>, t: nat)
    requires Distinct(queue) && t !in queue
    ensures Distinct(queue + [t])
  {
  }

  /** Dropping keeps the order: it works on the parts of a queue one after another. */
  lemma {:induction false} WithoutSum(a: seq<nat>, b: seq<nat>, t: nat)
    ensures Without(a + b, t) == Without(a, t) + Without(b, t)
    decreases |b|
  {
    hide Without, Distinct;
    if b == [] {
      WithoutNone(t);
      assert a + b == a && Without(a, t) + [] == Without(a, t);
    } else {
      var front, last := b[..|b| - 1], b[|b| - 1];
      WithoutSum(a, front, t);
      WithoutPush(a + front, last, t);
      WithoutPush(front, last, t);
      Regrouped(a, front, [last]);
      Regrouped(Without(a, t), Without(front, t), if last == t then [] else [last]);
      assert b == front + [last];
    }
  }

  lemma Regrouped(a: seq<nat>, b: seq<nat>, c: seq<nat>)
    ensures (a + b) + c == a + (b + c)
  {
  }

  lemma WithoutNone(t: nat)
    ensures Without([], t) == []
  {
  }

  lemma WithoutOne(t: nat)
    ensures Without([t], t) == [] && forall u :: u != t ==> Without([u], t) == [u]
  {
    assert Without([], t) == [];
    forall u | u != t
      ensures Without([u], t) == [u]
    {
      assert [u][..0] == [];
    }
    assert [t][..0] == [];
  }

  lemma WithoutPush(queue: seq<nat>, u: nat, t: nat)
    ensures Without(queue + [u], t) == Without(queue, t) + (if u == t then [] else [u])
  {
    assert (queue + [u])[..|queue|] == queue;
  }

  /** From a queue without repetitions exactly one position goes. */
  lemma WithoutAt(queue: seq<nat>, i: nat)
    requires Distinct(queue) && i < |queue|
    ensures Without(queue, queue[i]) == queue[..i] + queue[i + 1..]
  {
    hide Without;
    var t, a, b := queue[i], queue[..i], queue[i + 1..];
    Around(queue, i);
    hide Distinct;
    WithoutSum(a, [t] + b, t);
    WithoutSum([t], b, t);
    WithoutOne(t);
    WithoutAbsent(a, t);
    WithoutAbsent(b, t);
    assert [] + b == b;
  }

  lemma Around(queue: seq<nat>, i: nat)
    requires Distinct(queue) && i < |queue|
    ensures queue[i] !in queue[..i] && queue[i] !in queue[i + 1..]
    ensures queue == queue[..i] + ([queue[i]] + queue[i + 1..])
  {
    var t, a, b := queue[i], queue[..i], queue[i + 1..];
    assert forall k :: 0 <= k < |a| ==> a[k] == queue[k] != t;
    assert forall k :: 0 <= k < |b| ==> b[k] == queue[i + 1 + k] != t;
  }

  lemma {:induction false} WithoutAbsent(queue: seq<nat>, t: nat)
    requires t !in queue
    ensures Without(queue, t) == queue
  {
    if queue != [] {
      WithoutAbsent(queue[..|queue| - 1], t);
      assert queue == queue[..|queue| - 1] + [queue[|queue| - 1]];
    }
  }

  /** A new thread of process `pid` in the queue. */
  lemma SpawnKeeps(s: State, pid: nat, context: int)
    requires Inv(s) && pid < s.nextProcess
    requires pid == KERNEL || (pid in s.registered && forall t :: t in s.process ==> s.process[t] != pid)
    ensures Inv(Spawn(s, pid, context))
  {
    hide Placed, Conserved, Alive;
    var s' := Spawn(s, pid, context);
    SpawnPlaced(s, pid, context);
    SpawnConserved(s, pid, context);
    SpawnNumbered(s, s', pid, context);
    hide Numbered, Spawn;
  }

  lemma SpawnNumbered(s: State, s': State, pid: nat, context: int)
    requires Numbered(s) && pid < s.nextProcess && s' == Spawn(s, pid, context)
    requires pid == KERNEL || forall t :: t in s.process ==> s.process[t] != pid
    ensures Numbered(s')
  {
    LonePush(s.process, s.nextThread, pid);
    KernelGrows(s, s');
    hide Lone, KernelThreads;
  }

  lemma LonePush(process: map<nat, nat>, t: nat, pid: nat)
    requires Lone(process) && t !in process && (pid == KERNEL || forall u :: u in process ==> process[u] != pid)
    ensures Lone(process[t := pid])
  {
  }

  lemma SpawnPlaced(s: State, pid: nat, context: int)
    requires Inv(s)
    ensures Placed(Spawn(s, pid, context))
  {
    assert s.nextThread !in s.ready;
    DistinctPush(s.ready, s.nextThread);
  }

  lemma SpawnConserved(s: State, pid: nat, context: int)
    requires Inv(s) && (pid == KERNEL || pid in s.registered)
    ensures Conserved(Spawn(s, pid, context))
  {
    var s' := Spawn(s, pid, context);
    forall t | Alive(s', t)
      ensures t in s'.ready || Running(s', t)
    {
      if t == s.nextThread {
        assert s'.ready[|s.ready|] == t;
      } else {
        assert Alive(s, t);
        if t in s.ready {
          var i :| 0 <= i < |s.ready| && s.ready[i] == t;
          assert s'.ready[i] == t;
        } else {
          var c :| c in s.current && s.current[c] == t;
          assert c in s'.current && s'.current[c] == t;
        }
      }
    }
  }

  lemma KernelGrows(s: State, s': State)
    requires s.process.Keys <= s'.process.Keys && forall t :: t in s.process ==> s'.process[t] == s.process[t]
    ensures |KernelThreads(s)| <= |KernelThreads(s')|
  {
    SubsetCard(KernelThreads(s), KernelThreads(s'));
  }

  lemma {:induction false} SubsetCard(a: set<nat>, b: set<nat>)
    requires a <= b
    ensures |a| <= |b|
  {
    assert b == a + (b - a) && |a + (b - a)| == |a| + |b - a|;
  }

  lemma SameAlive(s: State, s': State)
    requires s'.process == s.process && s'.registered == s.registered
    ensures forall t :: Alive(s', t) == Alive(s, t)
  {
  }

  lemma SaveKeeps(s: State, cpu: nat, saved: int)
    requires Inv(s) && cpu in s.current
    ensures Inv(Save(s, cpu, saved)) && forall t :: Alive(Save(s, cpu, saved), t) == Alive(s, t)
  {
    var s' := Save(s, cpu, saved);
    SameAlive(s, s');
    assert Conserved(s') by { hide Placed, Numbered, Alive; assert forall t :: Running(s, t) ==> Running(s', t); }
    assert Numbered(s') by { hide Placed; assert KernelThreads(s') == KernelThreads(s); }
    hide Conserved, Numbered, Alive;
  }

  lemma SwitchPlaced(s: State, cpu: nat)
    requires Placed(s) && cpu in s.current
    ensures Placed(Switch(s, cpu))
  {
    hide Alive;
    if s.ready != [] {
      var s', last := Switch(s, cpu), s.current[cpu];
      assert last !in s.ready[1..];
      assert Distinct(s.ready[1..]);
      DistinctPush(s.ready[1..], last);
      assert s.ready[1..] + [] == s.ready[1..];
      forall c, i | c in s'.current && 0 <= i < |s'.ready|
        ensures s'.current[c] != s'.ready[i]
      {
        if i < |s.ready| - 1 { assert s'.ready[i] == s.ready[i + 1]; } else { assert s'.ready[i] == last; }
      }
    }
  }

  lemma SwitchConserved(s: State, cpu: nat)
    requires Conserved(s) && cpu in s.current
    ensures Conserved(Switch(s, cpu))
  {
    if s.ready != [] {
      var s', last := Switch(s, cpu), s.current[cpu];
      assert forall t :: Alive(s', t) == Alive(s, t);
      assert AllAlive(s');
      forall t | Alive(s, t)
        ensures t in s'.ready || Running(s', t)
      {
        if t in s.ready {
          var i :| 0 <= i < |s.ready| && s.ready[i] == t;
          if i == 0 { assert s'.current[cpu] == t; } else { assert s'.ready[i - 1] == t; }
        } else {
          var c :| c in s.current && s.current[c] == t;
          if c == cpu { assert s'.ready[|s.ready| - 1] == t; } else { assert s'.current[c] == t; }
        }
      }
    }
  }

  /** A timer interrupt never finds a dead thread to resume. */
  lemma ScheduleKeeps(s: State, cpu: nat, saved: int)
    requires Inv(s) && cpu in s.current
    ensures Step(s, Schedule(cpu, saved)).Some? && Inv(Step(s, Schedule(cpu, saved)).value)
  {
    hide Placed, Conserved, Numbered, Alive;
    var s1 := Save(s, cpu, saved);
    SaveKeeps(s, cpu, saved);
    SwitchPlaced(s1, cpu);
    SwitchConserved(s1, cpu);
    SwitchNumbered(s1, cpu);
    if !Alive(s, s.current[cpu]) { DeadMeansReady(s, cpu); }
    NextAlive(s1, cpu);
  }

  lemma NextAlive(s: State, cpu: nat)
    requires Conserved(s) && cpu in s.current && (Alive(s, s.current[cpu]) || s.ready != [])
    ensures Alive(Switch(s, cpu), Switch(s, cpu).current[cpu])
  {
  }

  lemma SwitchNumbered(s: State, cpu: nat)
    requires Numbered(s) && cpu in s.current
    ensures Numbered(Switch(s, cpu))
  {
    var s' := Switch(s, cpu);
    assert KernelThreads(s') == KernelThreads(s);
    assert s'.current.Keys == s.current.Keys;
  }

  /** The only thread of a user process leaves its place as the process goes away. */
  lemma EndKeeps(s: State, t: nat)
    requires Inv(s) && Alive(s, t)
    requires s.process[t] == KERNEL ==> t !in s.ready
    ensures Inv(s.(ready := Without(s.ready, t), registered := s.registered - {s.process[t]}))
  {
    assert Distinct(s.ready);
    hide Placed, Conserved, Numbered;
    var s' := s.(ready := Without(s.ready, t), registered := s.registered - {s.process[t]});
    WithoutMembers(s.ready, t);
    EndPlaced(s, s');
    EndConserved(s, t, s');
    EndNumbered(s, s');
  }

  lemma EndPlaced(s: State, s': State)
    requires Placed(s) && s'.current == s.current && Distinct(s'.ready)
    requires forall u :: u in s'.ready ==> u in s.ready
    ensures Placed(s')
  {
    hide Distinct;
    forall c, i | c in s'.current && 0 <= i < |s'.ready|
      ensures s'.current[c] != s'.ready[i]
    {
      assert s'.ready[i] in s.ready;
    }
  }

  lemma EndNumbered(s: State, s': State)
    requires Numbered(s) && s' == s.(ready := s'.ready, registered := s'.registered) && s'.registered <= s.registered
    ensures Numbered(s')
  {
    assert KernelThreads(s') == KernelThreads(s);
  }

  lemma EndConserved(s: State, t: nat, s': State)
    requires Inv(s) && Alive(s, t)
    requires s.process[t] == KERNEL ==> t !in s.ready
    requires s' == s.(ready := s'.ready, registered := s.registered - {s.process[t]})
    requires forall u :: u in s'.ready <==> u in s.ready && u != t
    ensures Conserved(s')
  {
    forall i | 0 <= i < |s'.ready|
      ensures Alive(s', s'.ready[i])
    {
      assert s'.ready[i] in s.ready;
    }
    forall u | Alive(s', u)
      ensures u in s'.ready || Running(s', u)
    {
      assert Alive(s, u);
      if u in s.ready { assert u in s'.ready; } else {
        var c :| c in s.current && s.current[c] == u;
        assert c in s'.current && s'.current[c] == u;
      }
    }
  }

  /** A kernel thread that calls exit stays where it is; a user thread dies on its CPU. */
  lemma ExitKeeps(s: State, cpu: nat)
    requires Inv(s) && cpu in s.current
    ensures Step(s, Exit(cpu)).Some? <==> Alive(s, s.current[cpu])
    ensures Step(s, Exit(cpu)).Some? ==> Inv(Step(s, Exit(cpu)).value)
  {
    var t := s.current[cpu];
    assert t !in s.ready;
    if Alive(s, t) {
      hide Placed, Conserved, Numbered;
      EndKeeps(s, t);
    } else {
      DeadMeansReady(s, cpu);
    }
  }

  /** The kernel process is killed only while none of its threads waits. */
  ghost predicate Harmless(s: State, pid: nat)
  {
    pid == KERNEL ==> forall i :: 0 <= i < |s.ready| && s.ready[i] in s.process ==> s.process[s.ready[i]] != KERNEL
  }

  /** Killing keeps the invariant unless it takes a kernel thread out of the queue: that thread lives on without a
      place. */
  lemma KillKeeps(s: State, pid: nat)
    requires Inv(s)
    ensures Step(s, Kill(pid)).Some?
    ensures Inv(Step(s, Kill(pid)).value) <==> Harmless(s, pid)
  {
    var i := First(s, pid, 0);
    if i < |s.ready| {
      var t := s.ready[i];
      WithoutMembers(s.ready, t);
      if pid != KERNEL {
        EndKeeps(s, t);
      } else {
        var s' := Step(s, Kill(pid)).value;
        assert Alive(s', t) && t !in s'.ready && !Running(s', t);
      }
    }
  }

  // ---------------------------------------------------------------- every run

  /** The CPUs with one kernel thread each, numbered from zero. */
  ghost predicate Initial(s: State, cpus: set<nat>)
  {
    && s.current.Keys == cpus && s.ready == [] && s.registered == {KERNEL}
    && s.nextThread == |cpus| && s.nextProcess == 1
    && (forall c, d :: c in cpus && d in cpus && c != d ==> s.current[c] != s.current[d])
    && (forall t :: t in s.process <==> 0 <= t < |cpus|)
    && (forall t :: t in s.process ==> s.process[t] == KERNEL && Running(s, t))
    && (forall c :: c in cpus ==> s.current[c] in s.process)
    && s.contexts.Keys == s.process.Keys
  }

  lemma InitialInv(s: State, cpus: set<nat>)
    requires Initial(s, cpus)
    ensures Inv(s)
  {
    assert KernelThreads(s) == s.process.Keys;
    NatRange(|cpus|, s.process.Keys);
  }

  lemma {:induction false} NatRange(n: nat, range: set<nat>)
    requires forall t: nat :: t in range <==> t < n
    ensures |range| == n
  {
    if n > 0 {
      NatRange(n - 1, range - {n - 1});
    } else {
      assert range == {};
    }
  }

  lemma Started(s: State, cpus: seq<nat>)
    requires Distinct(cpus) && s.ready == [] && s.registered == {KERNEL} && s.nextThread == |cpus| && s.nextProcess == 1
    requires forall c :: c in s.current <==> c in cpus
    requires forall k :: 0 <= k < |cpus| ==> cpus[k] in s.current && s.current[cpus[k]] == k
    requires forall t :: t in s.process <==> 0 <= t < |cpus|
    requires forall t :: t in s.process ==> s.process[t] == KERNEL
    requires s.contexts.Keys == s.process.Keys
    ensures Initial(s, Members(cpus))
  {
    DistinctCard(cpus);
    forall t | t in s.process
      ensures Running(s, t)
    {
      assert s.current[cpus[t]] == t;
    }
    assert s.current.Keys == Members(cpus);
    forall c, d | c in s.current && d in s.current && c != d
      ensures s.current[c] != s.current[d]
    {
      var k :| 0 <= k < |cpus| && cpus[k] == c;
      var l :| 0 <= l < |cpus| && cpus[l] == d;
    }
  }

  ghost function Members(q: seq<nat>): set<nat> { set c | c in q }

  lemma {:induction false} DistinctCard(q: seq<nat>)
    requires Distinct(q)
    ensures |Members(q)| == |q|
  {
    if q != [] {
      var front, last := q[..|q| - 1], q[|q| - 1];
      assert Distinct(front) && last !in front;
      DistinctCard(front);
      MembersPush(front, last);
      assert q == front + [last];
      hide Members;
      assert |Members(front) + {last}| == |Members(front)| + 1;
    } else {
      assert Members(q) == {};
    }
  }

  lemma MembersPush(q: seq<nat>, t: nat)
    ensures Members(q + [t]) == Members(q) + {t} && (t in Members(q) <==> t in q)
  {
  }

  /** What a machine may do in a state: its CPUs take interrupts, and the kernel process is not killed while one of its
      threads waits. */
  ghost predicate Tame(s: State, e: Event)
  {
    match e
    case Schedule(cpu, _) => cpu in s.current
    case Exit(cpu) => cpu in s.current
    case Kill(pid) => Harmless(s, pid)
    case _ => true
  }

  /** A thread that exits is alive. */
  ghost predicate Living(s: State, e: Event)
  {
    e.Exit? && e.cpu in s.current ==> Alive(s, s.current[e.cpu])
  }

  ghost predicate Fair(s: State, e: Event) { Tame(s, e) && Living(s, e) }

  /** The run is tame as far as it goes. */
  ghost predicate TameRun(s: State, events: seq<Event>)
    decreases |events|
  {
    events == [] || (Tame(s, events[0]) && (Step(s, events[0]).Some? ==>
        TameRun(Step(s, events[0]).value, events[1..])))
  }

  /** Every thread that exits in the run is alive when it does. */
  ghost predicate LivingRun(s: State, events: seq<Event>)
    decreases |events|
  {
    events == [] || (Living(s, events[0]) && (Step(s, events[0]).Some? ==>
        LivingRun(Step(s, events[0]).value, events[1..])))
  }

  ghost predicate FairRun(s: State, events: seq<Event>)
    decreases |events|
  {
    events == [] || (Fair(s, events[0]) && (Step(s, events[0]).Some? ==>
        FairRun(Step(s, events[0]).value, events[1..])))
  }

  lemma StepKeeps(s: State, e: Event)
    requires Inv(s) && Fair(s, e)
    ensures Step(s, e).Some? && Inv(Step(s, e).value)
  {
    hide Placed, Conserved, Numbered, Alive;
    match e
    case SpawnKernel(context) => KernelIsProcess(s); SpawnKeeps(s, KERNEL, context);
    case SpawnUser(context) =>
      NewProcess(s);
      SpawnKeeps(s.(registered := s.registered + {s.nextProcess}, nextProcess := s.nextProcess + 1), s.nextProcess,
          context);
    case Schedule(cpu, saved) => ScheduleKeeps(s, cpu, saved);
    case Exit(cpu) => ExitKeeps(s, cpu);
    case Kill(pid) => KillKeeps(s, pid);
  }

  lemma KernelIsProcess(s: State)
    requires Numbered(s)
    ensures KERNEL < s.nextProcess
  {
  }

  lemma NewProcess(s: State)
    requires Inv(s)
    ensures Inv(s.(registered := s.registered + {s.nextProcess}, nextProcess := s.nextProcess + 1))
    ensures forall t :: t in s.process ==> s.process[t] != s.nextProcess
  {
    var s' := s.(registered := s.registered + {s.nextProcess}, nextProcess := s.nextProcess + 1);
    assert forall t :: Alive(s', t) == Alive(s, t);
    assert forall t :: Running(s, t) ==> Running(s', t);
    assert KernelThreads(s') == KernelThreads(s);
  }

  /** No run dereferences a dead thread, and every run keeps each thread in at most one place. */
  lemma {:induction false} RunSafe(s: State, events: seq<Event>)
    requires Inv(s) && FairRun(s, events)
    ensures Run(s, events).Some? && Inv(Run(s, events).value)
    decreases |events|
  {
    if events != [] {
      StepKeeps(s, events[0]);
      hide Inv, Step, Fair;
      RunSafe(Step(s, events[0]).value, events[1..]);
    }
  }

  /** A tame run goes through to the end exactly if no dead thread exits in it. */
  lemma {:induction false} RunIff(s: State, events: seq<Event>)
    requires Inv(s) && TameRun(s, events)
    ensures Run(s, events).Some? <==> LivingRun(s, events)
    ensures LivingRun(s, events) ==> FairRun(s, events)
    decreases |events|
  {
    if events != [] {
      if Living(s, events[0]) {
        StepKeeps(s, events[0]);
        hide Inv, Step, Living, Tame;
        RunIff(Step(s, events[0]).value, events[1..]);
      } else {
        ExitKeeps(s, events[0].cpu);
      }
    }
  }

  /** From the start of the machine: a tame run goes through exactly if no dead thread exits, and then no thread has two
      places and every living thread has one. */
  lemma EveryRunSafe(s: State, cpus: set<nat>, events: seq<Event>)
    requires Initial(s, cpus) && TameRun(s, events)
    ensures Run(s, events).Some? <==> LivingRun(s, events)
    ensures Run(s, events).Some? ==> Placed(Run(s, events).value) && Conserved(Run(s, events).value)
  {
    InitialInv(s, cpus);
    RunIff(s, events);
    if LivingRun(s, events) { RunSafe(s, events); }
  }

  /** One CPU with its kernel thread. */
  function OneCpu(): State { State(map[0 := 0], [], map[0 := KERNEL], {KERNEL}, map[0 := 0], 1, 1) }

  /** After a user process was started: waiting, then running, then alone, then gone. */
  function Waiting(): State { State(map[0 := 0], [1], map[0 := KERNEL, 1 := 1], {KERNEL, 1}, map[0 := 0, 1 := 7], 2,
      2) }
  function Alone(queue: seq<nat>, registered: set<nat>): State
  {
    State(map[0 := 1], queue, map[0 := KERNEL, 1 := 1], registered, map[0 := 1, 1 := 7], 2, 2)
  }

  lemma UserStarts()
    ensures Step(OneCpu(), SpawnUser(7)) == Some(Waiting())
    ensures Step(Waiting(), Schedule(0, 1)) == Some(Alone([0], {KERNEL, 1}))
  {
    assert [] + [1] == [1] && {KERNEL} + {1} == {KERNEL, 1};
    assert map[0 := KERNEL][1 := 1] == map[0 := KERNEL, 1 := 1] && map[0 := 0][1 := 7] == map[0 := 0, 1 := 7];
    var s := Save(Waiting(), 0, 1);
    assert s.contexts == map[0 := 1, 1 := 7];
    assert [1][1..] + [0] == [0] && map[0 := 0][0 := 1] == map[0 := 1];
    assert Switch(s, 0) == Alone([0], {KERNEL, 1});
  }

  lemma UserEnds()
    ensures Step(Alone([0], {KERNEL, 1}), Kill(KERNEL)) == Some(Alone([], {1}))
    ensures Step(Alone([], {1}), Exit(0)) == Some(Alone([], {}))
    ensures Step(Alone([], {}), Schedule(0, 2)) == None
  {
    assert Without([0], 0) == [] && {KERNEL, 1} - {KERNEL} == {1};
    assert {1} - {1} == {};
    assert Without([], 1) == [];
  }

  lemma RunCons(s: State, e: Event, rest: seq<Event>)
    ensures Run(s, [e] + rest) == match Step(s, e) case None => None case Some(s1) => Run(s1, rest)
  {
    assert ([e] + rest)[1..] == rest;
  }

  lemma OneCpuInitial()
    ensures Initial(OneCpu(), {0})
  {
    assert Members([0]) == {0};
    Started(OneCpu(), [0]);
  }

  /** A user thread that exits twice: the second time it is dead. */
  lemma ExitTwiceFails()
    ensures Initial(OneCpu(), {0})
    ensures Run(OneCpu(), [SpawnUser(7)] + ([Schedule(0, 1)] + ([Exit(0)] + ([Exit(0)] + [])))) == None
  {
    hide Step, Run, OneCpu, Waiting, Alone, Initial;
    OneCpuInitial();
    UserStarts();
    UserExits();
    RunCons(Alone([0], {KERNEL}), Exit(0), []);
    RunCons(Alone([0], {KERNEL, 1}), Exit(0), [Exit(0)] + []);
    RunCons(Waiting(), Schedule(0, 1), [Exit(0)] + ([Exit(0)] + []));
    RunCons(OneCpu(), SpawnUser(7), [Schedule(0, 1)] + ([Exit(0)] + ([Exit(0)] + [])));
  }

  lemma UserExits()
    ensures Step(Alone([0], {KERNEL, 1}), Exit(0)) == Some(Alone([0], {KERNEL}))
    ensures Step(Alone([0], {KERNEL}), Exit(0)) == None
  {
    assert Without([0], 1) == [0] by { WithoutAbsent([0], 1); }
    assert {KERNEL, 1} - {1} == {KERNEL};
    var s, t := Alone([0], {KERNEL, 1}), Alone([0], {KERNEL});
    assert AllAlive(s) && Alive(s, 1) && AllAlive(t) && !Alive(t, 1);
  }

  /** With the kernel process killed while its thread waits, the next exit leaves the CPU nothing to run. */
  lemma KernelKillStrands()
    ensures Initial(OneCpu(), {0})
    ensures var last := [Kill(KERNEL)] + ([Exit(0)] + ([Schedule(0, 2)] + []));
      Run(OneCpu(), [SpawnUser(7)] + ([Schedule(0, 1)] + last)) == None
  {
    hide Step, Run, OneCpu, Waiting, Alone, Initial;
    OneCpuInitial();
    UserStarts();
    UserEnds();
    RunCons(Alone([], {}), Schedule(0, 2), []);
    RunCons(Alone([], {1}), Exit(0), [Schedule(0, 2)] + []);
    RunCons(Alone([0], {KERNEL, 1}), Kill(KERNEL), [Exit(0)] + ([Schedule(0, 2)] + []));
    RunCons(Waiting(), Schedule(0, 1), [Kill(KERNEL)] + ([Exit(0)] + ([Schedule(0, 2)] + [])));
    RunCons(OneCpu(), SpawnUser(7), [Schedule(0, 1)] + ([Kill(KERNEL)] + ([Exit(0)] + ([Schedule(0, 2)] + []))));
  }

  // ---------------------------------------------------------------- contexts

  /** Whose contexts an event touches: a thread that is interrupted alive keeps what was saved, a new thread has what it
      was given, and every other thread what it had. */
  lemma ContextStep(s: State, e: Event, t: nat)
    requires Inv(s) && Fair(s, e) && Step(s, e).Some?
    ensures var s' := Step(s, e).value;
      if e.Schedule? && s.current[e.cpu] == t && Alive(s, t) then t in s'.contexts && s'.contexts[t] == e.saved
      else if (e.SpawnKernel? || e.SpawnUser?) && t == s.nextThread then t in s'.contexts && s'.contexts[t] == e.context
      else (t in s'.contexts <==> t in s.contexts) && (t in s.contexts ==> s'.contexts[t] == s.contexts[t])
  {
    hide Inv, First, Without;
  }

  // ---------------------------------------------------------------- bounded wait

  ghost function Interrupts(events: seq<Event>): nat
  {
    if events == [] then 0 else (if events[0].Schedule? then 1 else 0) + Interrupts(events[1..])
  }

  lemma {:induction false} WithoutIndex(queue: seq<nat>, u: nat, i: nat) returns (i': nat)
    requires i < |queue| && queue[i] != u
    ensures i' <= i && i' < |Without(queue, u)| && Without(queue, u)[i'] == queue[i]
  {
    var front := queue[..|queue| - 1];
    if i < |front| { i' := WithoutIndex(front, u, i); } else {
      i' := |Without(front, u)|;
      WithoutShorter(front, u);
    }
  }

  lemma {:induction false} WithoutShorter(queue: seq<nat>, u: nat)
    ensures |Without(queue, u)| <= |queue|
  {
    if queue != [] { WithoutShorter(queue[..|queue| - 1], u); }
  }

  lemma WaitFacts(s: State, i: nat)
    requires Inv(s) && i < |s.ready|
    ensures s.ready[i] in s.process && s.ready[i] in s.contexts && s.ready[i] < s.nextThread
    ensures forall c :: c in s.current ==> s.current[c] !in s.ready
  {
  }

  /** A waiting thread that is not killed moves up with every interrupt and never back; its context is left alone. */
  lemma WaitStep(s: State, e: Event, i: nat) returns (i': nat)
    requires Inv(s) && Fair(s, e) && Step(s, e).Some? && i < |s.ready| && s.ready[i] in s.process
    requires e != Kill(s.process[s.ready[i]])
    requires e.Schedule? ==> i > 0
    ensures i' < |Step(s, e).value.ready| && Step(s, e).value.ready[i'] == s.ready[i]
    ensures i' <= i && (e.Schedule? ==> i' == i - 1)
    ensures s.ready[i] in s.process && s.ready[i] in Step(s, e).value.process
    ensures Step(s, e).value.process[s.ready[i]] == s.process[s.ready[i]]
    ensures SameContext(s, Step(s, e).value, s.ready[i])
  {
    WaitFacts(s, i);
    hide Inv;
    i' := i;
    match e
    case SpawnKernel(_) =>
    case SpawnUser(_) =>
    case Schedule(cpu, _) => i' := i - 1;
    case Exit(cpu) => WithoutAbsent(s.ready, s.current[cpu]);
    case Kill(pid) =>
      hide Without;
      var j := First(s, pid, 0);
      if j < |s.ready| { i' := WithoutIndex(s.ready, s.ready[j], i); }
  }

  /** At the `k`-th event `t` is put on a CPU; no more than `i` interrupts came before, and its context is that of
      `s`. */
  ghost predicate Runs(s: State, events: seq<Event>, t: nat, i: nat, k: nat)
  {
    && k < |events| && events[k].Schedule? && Interrupts(events[..k + 1]) <= i + 1
    && Run(s, events[..k + 1]).Some?
    && OnCpu(Run(s, events[..k + 1]).value, events[k].cpu, t)
    && SameContext(s, Run(s, events[..k + 1]).value, t)
  }

  ghost predicate OnCpu(s: State, cpu: nat, t: nat) { cpu in s.current && s.current[cpu] == t }

  ghost predicate SameContext(s: State, s': State, t: nat)
  {
    t in s.contexts && t in s'.contexts && s'.contexts[t] == s.contexts[t]
  }

  lemma Dispatch(s: State, e: Event)
    requires Inv(s) && Fair(s, e) && e.Schedule? && s.ready != [] && Step(s, e).Some?
    ensures OnCpu(Step(s, e).value, e.cpu, s.ready[0]) && SameContext(s, Step(s, e).value, s.ready[0])
  {
    assert s.current[e.cpu] != s.ready[0];
  }

  lemma RunsNow(s: State, events: seq<Event>, t: nat)
    requires events != [] && events[0].Schedule? && Step(s, events[0]).Some?
    requires OnCpu(Step(s, events[0]).value, events[0].cpu, t) && SameContext(s, Step(s, events[0]).value, t)
    ensures Runs(s, events, t, 0, 0)
  {
    hide Step, OnCpu, SameContext;
    assert events[..1] == [events[0]] + [] && Interrupts([]) == 0;
    RunCons(s, events[0], []);
  }

  lemma RunsLater(s: State, s1: State, events: seq<Event>, t: nat, i: nat, i': nat, k: nat)
    requires events != [] && Step(s, events[0]) == Some(s1) && SameContext(s, s1, t)
    requires Runs(s1, events[1..], t, i', k) && i' <= i && (events[0].Schedule? ==> i' < i)
    ensures Runs(s, events, t, i, k + 1)
  {
    hide Step, OnCpu;
    var rest := events[1..k + 2];
    assert events[1..][..k + 1] == rest && events[..k + 2] == [events[0]] + rest;
    RunCons(s, events[0], rest);
    assert events[..k + 2][1..] == rest;
  }

  /** Whatever else happens, a thread with `i` threads before it that is not killed runs by the (i+1)-th interrupt, on
      the CPU that took it and with the context it had. */
  lemma {:induction false} BoundedWait(s: State, events: seq<Event>, t: nat, i: nat) returns (k: nat)
    requires Inv(s) && FairRun(s, events)
    requires i < |s.ready| && s.ready[i] == t && Interrupts(events) > i
    requires t in s.process && forall j :: 0 <= j < |events| ==> events[j] != Kill(s.process[t])
    ensures Runs(s, events, t, i, k)
    decreases |events|
  {
    hide Inv, Step, Fair, Runs, SameContext, OnCpu;
    var e, rest := events[0], events[1..];
    StepKeeps(s, e);
    if e.Schedule? && i == 0 {
      Dispatch(s, e);
      RunsNow(s, events, t);
      k := 0;
    } else {
      var s1 := Step(s, e).value;
      var i' := WaitStep(s, e, i);
      assert forall j :: 0 <= j < |rest| ==> rest[j] == events[j + 1];
      var k' := BoundedWait(s1, rest, t, i');
      k := k' + 1;
      RunsLater(s, s1, events, t, i, i', k');
    }
  }

  /** A thread that is interrupted alive while others wait, and is not killed, runs again within as many interrupts as
      there are threads waiting, and then has the context that was saved when it was interrupted. */
  lemma ResumesWhereItStopped(s: State, e: Event, events: seq<Event>) returns (k: nat)
    requires Inv(s) && Fair(s, e) && e.Schedule? && s.ready != [] && Alive(s, s.current[e.cpu])
    requires Step(s, e).Some? ==> FairRun(Step(s, e).value, events)
    requires Interrupts(events) >= |s.ready|
    requires forall j :: 0 <= j < |events| ==> events[j] != Kill(s.process[s.current[e.cpu]])
    ensures Step(s, e).Some? && Runs(Step(s, e).value, events, s.current[e.cpu], |s.ready| - 1, k)
    ensures var s' := Run(Step(s, e).value, events[..k + 1]).value;
      s.current[e.cpu] in s'.contexts && s'.contexts[s.current[e.cpu]] == e.saved
  {
    var t := s.current[e.cpu];
    StepKeeps(s, e);
    ContextStep(s, e, t);
    Requeued(s, e);
    var s1 := Step(s, e).value;
    hide Inv, Step, Fair;
    k := BoundedWait(s1, events, t, |s.ready| - 1);
  }

  /** The interrupted thread is the last in the queue. */
  lemma Requeued(s: State, e: Event)
    requires Inv(s) && Fair(s, e) && e.Schedule? && s.ready != [] && Alive(s, s.current[e.cpu]) && Step(s, e).Some?
    ensures var s' := Step(s, e).value;
      && |s'.ready| == |s.ready| && s'.ready[|s.ready| - 1] == s.current[e.cpu]
      && s'.process == s.process
  {
    hide Inv;
  }
}
