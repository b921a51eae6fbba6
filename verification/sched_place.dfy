// At every step each process is in exactly one place, and its state says which.
module SchedPlace {
  import opened Basics
  import opened SchedModel

  // ---- The invariant ---------------------------------------------------------

  /** CPU and I/O alternate, beginning and ending with CPU, before the terminator. */
  ghost predicate Shape(ops: seq<Op>) {
    && |ops| >= 2 && |ops| % 2 == 0 && ops[|ops| - 1] == End
    && forall i :: 0 <= i < |ops| - 1 ==> (i % 2 == 0 ==> ops[i].Cpu?) && (i % 2 == 1 ==> ops[i].Io?)
  }

  ghost predicate PcbOk(p: Pcb) {
    && Shape(p.ops) && p.pc < |p.ops|
    && (match p.state
        case New => p.pc == 0
        case Ready => p.ops[p.pc].Cpu?
        case Running => p.ops[p.pc].Cpu?
        case Waiting => p.ops[p.pc].Io?
        case Terminated => p.ops[p.pc].End?)
  }

  ghost predicate HasState(s: Sim, p: nat, st: State) {
    p < |s.procs| && s.procs[p].state == st
  }

  ghost predicate Pcbs(s: Sim, created: nat) {
    && |s.current| == |s.cpus| && created <= |s.procs|
    && forall p: nat :: p < |s.procs| ==> PcbOk(s.procs[p]) && (s.procs[p].state == New <==> created <= p)
  }

  /** The ready list holds exactly the ready processes, each once. */
  ghost predicate ReadyList(s: Sim) {
    && (forall i: nat, j: nat :: i < j < |s.ready| ==> s.ready[i] != s.ready[j])
    && (forall p: nat :: HasState(s, p, Ready) <==> p in s.ready)
  }

  ghost predicate On(s: Sim, cpu: nat, p: nat) {
    cpu < |s.current| && s.current[cpu] == Some(p)
  }

  /** Leaving out CPU `hole`: both tables agree, and the CPUs run exactly the running
      processes, each on one CPU. */
  ghost predicate CpuTable(s: Sim, hole: int) {
    && |s.current| == |s.cpus|
    && (forall n: nat :: n < |s.cpus| && n != hole ==> s.cpus[n].current == s.current[n])
    && (forall n: nat, p: nat :: n != hole && On(s, n, p) ==> HasState(s, p, Running))
    && (forall n: nat, m: nat, p: nat :: n != hole && m != hole && On(s, n, p) && On(s, m, p) ==> n == m)
    && (forall p: nat :: HasState(s, p, Running) ==> exists n: nat :: n != hole && On(s, n, p))
  }

  ghost predicate Queued(s: Sim, i: nat, p: nat) {
    i < |s.io| && s.io[i].pid == p
  }

  /** The I/O queue holds exactly the waiting processes, each once. */
  ghost predicate IoQueue(s: Sim) {
    && (forall i: nat, p: nat :: Queued(s, i, p) ==> HasState(s, p, Waiting))
    && (forall i: nat, j: nat, p: nat :: Queued(s, i, p) && Queued(s, j, p) ==> i == j)
    && (forall p: nat :: HasState(s, p, Waiting) ==> exists i: nat :: Queued(s, i, p))
  }

  ghost predicate Placed(s: Sim, hole: int, created: nat) {
    Pcbs(s, created) && ReadyList(s) && CpuTable(s, hole) && IoQueue(s)
  }

  ghost predicate Inv(s: Sim) { Placed(s, -1, s.created) }

  // ---- Moving one process ------------------------------------------------------

  /** s' is s with only process p's block replaced. */
  ghost predicate OnlyProcess(s: Sim, s': Sim, p: nat) {
    && p < |s.procs| && |s'.procs| == |s.procs|
    && forall q: nat :: q < |s.procs| && q != p ==> s'.procs[q] == s.procs[q]
  }

  lemma ScheduleKeeps(s: Sim, cpu: nat, created: nat)
    requires Placed(s, cpu, created) && cpu < |s.cpus|
    ensures Placed(Schedule(s, cpu), -1, created)
  {
    var s' := Schedule(s, cpu);
    if s.ready != [] {
      var i := PopIndex(s);
      var p := s.ready[i];
      assert HasState(s, p, Ready);
      assert OnlyProcess(s, s', p) && s'.procs[p] == s.procs[p].(state := Running);
      ScheduleReady(s, s', i, p);
      ScheduleCpus(s, s', cpu, p);
      ScheduleIo(s, s', p);
    } else {
      assert s'.procs == s.procs;
      forall q: nat
        ensures HasState(s', q, Ready) <==> HasState(s, q, Ready)
        ensures HasState(s', q, Running) <==> HasState(s, q, Running)
        ensures HasState(s', q, Waiting) <==> HasState(s, q, Waiting)
      {
      }
      IdleCpus(s, s', cpu);
      SameIo(s, s');
    }
  }

  lemma ScheduleReady(s: Sim, s': Sim, i: nat, p: nat)
    requires ReadyList(s) && i < |s.ready| && p == s.ready[i]
    requires OnlyProcess(s, s', p) && s'.procs[p].state == Running && s'.ready == RemoveAt(s.ready, i)
    ensures ReadyList(s')
  {
    forall q: nat
      ensures HasState(s', q, Ready) <==> q in s'.ready
    {
      RemovedMembers(s.ready, i, q);
      assert HasState(s', q, Ready) <==> HasState(s, q, Ready) && q != p;
    }
  }

  lemma RemovedMembers(q: seq<nat>, i: nat, x: nat)
    requires i < |q| && forall j: nat, k: nat :: j < k < |q| ==> q[j] != q[k]
    ensures x in RemoveAt(q, i) <==> x in q && x != q[i]
  {
    if x in q && x != q[i] {
      var j: nat :| j < |q| && q[j] == x;
      assert RemoveAt(q, i)[if j < i then j else j - 1] == x;
    }
  }

  lemma ScheduleCpus(s: Sim, s': Sim, cpu: nat, p: nat)
    requires CpuTable(s, cpu) && cpu < |s.cpus| && HasState(s, p, Ready)
    requires OnlyProcess(s, s', p) && s'.procs[p].state == Running
    requires s'.current == s.current[cpu := Some(p)]
    requires |s'.cpus| == |s.cpus| && s'.cpus == s.cpus[cpu := s'.cpus[cpu]] && s'.cpus[cpu].current == Some(p)
    ensures CpuTable(s', -1)
  {
    forall n: nat, q: nat
      ensures On(s', n, q) <==> if n == cpu then q == p else On(s, n, q)
    {
    }
    forall q: nat
      ensures HasState(s', q, Running) <==> HasState(s, q, Running) || q == p
    {
    }
    forall q: nat | HasState(s', q, Running)
      ensures exists n: nat :: n != -1 && On(s', n, q)
    {
      if q == p {
        assert On(s', cpu, p);
      } else {
        var n: nat :| n != cpu && On(s, n, q);
        assert On(s', n, q);
      }
    }
  }

  lemma IdleCpus(s: Sim, s': Sim, cpu: nat)
    requires CpuTable(s, cpu) && cpu < |s.cpus| && s'.procs == s.procs
    requires s'.current == s.current[cpu := None]
    requires |s'.cpus| == |s.cpus| && s'.cpus == s.cpus[cpu := s'.cpus[cpu]] && s'.cpus[cpu].current == None
    ensures CpuTable(s', -1)
  {
    forall n: nat, q: nat
      ensures On(s', n, q) <==> n != cpu && On(s, n, q)
    {
    }
    forall q: nat | HasState(s', q, Running)
      ensures exists n: nat :: n != -1 && On(s', n, q)
    {
      assert HasState(s, q, Running);
      var n: nat :| n != cpu && On(s, n, q);
      assert On(s', n, q);
    }
  }

  lemma ScheduleIo(s: Sim, s': Sim, p: nat)
    requires IoQueue(s) && HasState(s, p, Ready)
    requires OnlyProcess(s, s', p) && s'.procs[p].state == Running && s'.io == s.io
    ensures IoQueue(s')
  {
    forall i: nat, q: nat
      ensures Queued(s', i, q) <==> Queued(s, i, q)
    {
    }
    forall q: nat
      ensures HasState(s', q, Waiting) <==> HasState(s, q, Waiting)
    {
    }
    forall q: nat | HasState(s', q, Waiting)
      ensures exists i: nat :: Queued(s', i, q)
    {
      var i: nat :| Queued(s, i, q);
      assert Queued(s', i, q);
    }
  }

  lemma SameIo(s: Sim, s': Sim)
    requires IoQueue(s) && s'.procs == s.procs && s'.io == s.io
    ensures IoQueue(s')
  {
    forall i: nat, q: nat
      ensures Queued(s', i, q) <==> Queued(s, i, q)
    {
    }
    forall q: nat | HasState(s', q, Waiting)
      ensures exists i: nat :: Queued(s', i, q)
    {
      assert HasState(s, q, Waiting);
      var i: nat :| Queued(s, i, q);
      assert Queued(s', i, q);
    }
  }

  // ---- A process leaves its CPU ------------------------------------------------

  /** Process p, running on `cpu`, takes a new block; what it leaves behind is a hole. */
  lemma LeavesCpu(s: Sim, s': Sim, cpu: nat, p: nat)
    requires CpuTable(s, -1) && On(s, cpu, p)
    requires OnlyProcess(s, s', p) && s'.procs[p].state != Running
    requires s'.current == s.current && |s'.cpus| == |s.cpus| && s'.cpus == s.cpus[cpu := s'.cpus[cpu]]
    ensures CpuTable(s', cpu)
  {
    forall n: nat, q: nat
      ensures On(s', n, q) <==> On(s, n, q)
    {
    }
    forall n: nat, q: nat | n != cpu && On(s', n, q)
      ensures HasState(s', q, Running)
    {
      assert HasState(s, q, Running);
      assert q == p ==> n == cpu;
    }
    forall q: nat | HasState(s', q, Running)
      ensures exists n: nat :: n != cpu && On(s', n, q)
    {
      assert q != p && HasState(s, q, Running);
      var n: nat :| n != -1 && On(s, n, q);
      assert On(s', n, q);
      assert n == cpu ==> q == p;
    }
  }

  /** A process not in the queue joins it ready. */
  lemma JoinsReady(s: Sim, s': Sim, p: nat)
    requires ReadyList(s) && p < |s.procs| && s.procs[p].state != Ready
    requires OnlyProcess(s, s', p) && s'.procs[p].state == Ready && s'.ready == s.ready + [p]
    ensures ReadyList(s')
  {
    assert !HasState(s, p, Ready);
    forall q: nat
      ensures HasState(s', q, Ready) <==> q in s'.ready
    {
      assert HasState(s', q, Ready) <==> HasState(s, q, Ready) || q == p;
    }
  }

  lemma KeepsReady(s: Sim, s': Sim, p: nat)
    requires ReadyList(s) && p < |s.procs| && s.procs[p].state != Ready
    requires OnlyProcess(s, s', p) && s'.procs[p].state != Ready && s'.ready == s.ready
    ensures ReadyList(s')
  {
    forall q: nat
      ensures HasState(s', q, Ready) <==> HasState(s, q, Ready)
    {
    }
  }

  lemma KeepsIo(s: Sim, s': Sim, p: nat)
    requires IoQueue(s) && p < |s.procs| && s.procs[p].state != Waiting
    requires OnlyProcess(s, s', p) && s'.procs[p].state != Waiting && s'.io == s.io
    ensures IoQueue(s')
  {
    forall i: nat, q: nat
      ensures Queued(s', i, q) <==> Queued(s, i, q)
    {
    }
    forall q: nat
      ensures HasState(s', q, Waiting) <==> HasState(s, q, Waiting)
    {
    }
    forall q: nat | HasState(s', q, Waiting)
      ensures exists i: nat :: Queued(s', i, q)
    {
      var i: nat :| Queued(s, i, q);
      assert Queued(s', i, q);
    }
  }

  lemma JoinsIo(s: Sim, s': Sim, p: nat, t: nat)
    requires IoQueue(s) && p < |s.procs| && s.procs[p].state != Waiting
    requires OnlyProcess(s, s', p) && s'.procs[p].state == Waiting && s'.io == s.io + [IoRequest(p, t)]
    ensures IoQueue(s')
  {
    assert !HasState(s, p, Waiting);
    forall i: nat, q: nat
      ensures Queued(s', i, q) <==> Queued(s, i, q) || (i == |s.io| && q == p)
    {
    }
    forall q: nat
      ensures HasState(s', q, Waiting) <==> HasState(s, q, Waiting) || q == p
    {
    }
    forall q: nat | HasState(s', q, Waiting)
      ensures exists i: nat :: Queued(s', i, q)
    {
      if q == p {
        assert Queued(s', |s.io|, p);
      } else {
        var i: nat :| Queued(s, i, q);
        assert Queued(s', i, q);
      }
    }
  }

  /** The head of the I/O queue leaves it. */
  lemma LeavesIo(s: Sim, s': Sim, p: nat)
    requires IoQueue(s) && s.io != [] && s.io[0].pid == p
    requires OnlyProcess(s, s', p) && s'.procs[p].state != Waiting && s'.io == s.io[1..]
    ensures IoQueue(s')
  {
    assert Queued(s, 0, p);
    forall i: nat, q: nat
      ensures Queued(s', i, q) <==> Queued(s, i + 1, q)
    {
    }
    forall q: nat
      ensures HasState(s', q, Waiting) <==> HasState(s, q, Waiting) && q != p
    {
    }
    forall i: nat, q: nat | Queued(s', i, q)
      ensures HasState(s', q, Waiting)
    {
      assert Queued(s, i + 1, q);
    }
    forall i: nat, j: nat, q: nat | Queued(s', i, q) && Queued(s', j, q)
      ensures i == j
    {
      assert Queued(s, i + 1, q) && Queued(s, j + 1, q);
    }
    forall q: nat | HasState(s', q, Waiting)
      ensures exists i: nat :: Queued(s', i, q)
    {
      var i: nat :| Queued(s, i, q);
      assert i > 0;
      assert Queued(s', i - 1, q);
    }
  }

  lemma KeepsCpus(s: Sim, s': Sim, p: nat)
    requires CpuTable(s, -1) && p < |s.procs| && s.procs[p].state != Running
    requires OnlyProcess(s, s', p) && s'.procs[p].state != Running
    requires s'.current == s.current && s'.cpus == s.cpus
    ensures CpuTable(s', -1)
  {
    forall n: nat, q: nat
      ensures On(s', n, q) <==> On(s, n, q)
    {
    }
    forall q: nat
      ensures HasState(s', q, Running) <==> HasState(s, q, Running)
    {
    }
    forall q: nat | HasState(s', q, Running)
      ensures exists n: nat :: n != -1 && On(s', n, q)
    {
      var n: nat :| n != -1 && On(s, n, q);
      assert On(s', n, q);
    }
  }
}
