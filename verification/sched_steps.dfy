// Every handler and every supervisor step keeps each process in exactly one place.
module SchedSteps {
  import opened Basics
  import opened SchedModel
  import opened SchedPlace

  lemma PcbsReplaced(s: Sim, s': Sim, p: nat, created: nat)
    requires Pcbs(s, created) && OnlyProcess(s, s', p) && PcbOk(s'.procs[p])
    requires s'.procs[p].state == New <==> created <= p
    requires |s'.current| == |s'.cpus|
    ensures Pcbs(s', created)
  {
  }

  /** A preempted process goes to the back of the queue before the CPU is given away. */
  lemma PreemptKeeps(s: Sim, cpu: nat, created: nat)
    requires Placed(s, -1, created) && cpu < |s.cpus|
    ensures Placed(Preempt(s, cpu), -1, created)
  {
    if s.current[cpu].Some? {
      var p := s.current[cpu].value;
      assert On(s, cpu, p);
      var s1 := Push(SetState(s, p, Ready), p);
      PcbsReplaced(s, s1, p, created);
      LeavesCpu(s, s1, cpu, p);
      JoinsReady(s, s1, p);
      KeepsIo(s, s1, p);
      ScheduleKeeps(s1, cpu, created);
    }
  }

  /** The rest of a wake-up, once the process is in the queue: at most one preemption. */
  lemma AdmittedKeeps(s: Sim, p: nat, created: nat)
    requires Placed(Push(SetState(s, p, Ready), p), -1, created)
    ensures Placed(WakeUp(s, p), -1, created)
  {
    var s1 := Push(SetState(s, p, Ready), p);
    var (id, low) := Lowest(s1, 0, 10, -1);
    if 0 <= id < |s1.cpus| {
      PreemptKeeps(s1, id, created);
    }
  }

  // ---- A CPU's turn ------------------------------------------------------------

  /** A burst counts down: same places, one tick less. */
  lemma CountdownKeeps(s: Sim, s': Sim, cpu: nat, p: nat, created: nat)
    requires Placed(s, -1, created) && On(s, cpu, p)
    requires OnlyProcess(s, s', p) && s'.procs[p].state == Running && PcbOk(s'.procs[p])
    requires s'.ready == s.ready && s'.io == s.io && s'.current == s.current
    requires |s'.cpus| == |s.cpus| && s'.cpus == s.cpus[cpu := s.cpus[cpu].(timer := s'.cpus[cpu].timer)]
    ensures Placed(s', -1, created)
  {
    assert HasState(s, p, Running);
    PcbsReplaced(s, s', p, created);
    KeepsReady(s, s', p);
    KeepsIo(s, s', p);
    forall n: nat, q: nat
      ensures On(s', n, q) <==> On(s, n, q)
    {
    }
    forall q: nat
      ensures HasState(s', q, Running) <==> HasState(s, q, Running)
    {
    }
    forall q: nat | HasState(s', q, Running)
      ensures exists n: nat :: n != -1 && On(s', n, q)
    {
      var n: nat :| n != -1 && On(s, n, q);
      assert On(s', n, q);
    }
  }

  // ---- The two halves of a CPU turn ----------------------------------------------

  predicate AtBurst(s: Sim, cpu: nat, p: nat) {
    && cpu < |s.cpus| == |s.current| && s.cpus[cpu].current == s.current[cpu] == Some(p) && p < |s.procs|
    && s.procs[p].pc < |s.procs[p].ops| && s.procs[p].ops[s.procs[p].pc].Cpu?
  }

  function TimeLeft(s: Sim, p: nat): nat
    requires p < |s.procs| && s.procs[p].pc < |s.procs[p].ops|
  {
    OpTime(s.procs[p].ops[s.procs[p].pc])
  }

  /** One tick off the burst and off the timer, before any preemption. */
  function Countdown(s: Sim, cpu: nat, p: nat): Sim
    requires AtBurst(s, cpu, p) && TimeLeft(s, p) > 0
  {
    var pcb, t := s.procs[p], TimeLeft(s, p);
    s.(procs := s.procs[p := pcb.(ops := pcb.ops[pcb.pc := Cpu(t - 1)], timeRemaining := t)],
       cpus := s.cpus[cpu := s.cpus[cpu].(timer := s.cpus[cpu].timer - 1)])
  }

  lemma CountdownTurn(s: Sim, cpu: nat, p: nat)
    requires AtBurst(s, cpu, p) && TimeLeft(s, p) > 0
    ensures CpuTurn(s, cpu)
         == if s.cpus[cpu].timer == 1 then Preempt(Countdown(s, cpu, p), cpu) else Countdown(s, cpu, p)
  {
  }

  predicate Ending(s: Sim, p: nat) {
    && p < |s.procs| && s.procs[p].pc + 1 < |s.procs[p].ops| && s.procs[p].ops[s.procs[p].pc] == Cpu(0)
    && !s.procs[p].ops[s.procs[p].pc + 1].Cpu?
  }

  /** A finished burst: the process waits for I/O or has terminated, its CPU still to be given away. */
  function BurstDone(s: Sim, p: nat): Sim
    requires Ending(s, p)
  {
    var next := Advance(s.procs[p]);
    match next.ops[next.pc]
    case Io(u) => SetState(s.(procs := s.procs[p := next], io := s.io + [IoRequest(p, u)]), p, Waiting)
    case _ => SetState(s.(procs := s.procs[p := next], terminated := s.terminated + 1), p, Terminated)
  }

  lemma BurstEndTurn(s: Sim, cpu: nat, p: nat)
    requires AtBurst(s, cpu, p) && Ending(s, p)
    ensures CpuTurn(s, cpu) == Schedule(BurstDone(s, p), cpu)
  {
    var next := Advance(s.procs[p]);
    var s1 := s.(procs := s.procs[p := next]);
    if next.ops[next.pc].Io? {
      var u := next.ops[next.pc].time;
      assert CpuTurn(s, cpu) == Yield(s1.(io := s.io + [IoRequest(p, u)]), cpu);
    } else {
      assert CpuTurn(s, cpu) == Terminate(s1, cpu);
    }
  }

  /** What the invariant says of a busy CPU. */
  lemma BusyCpu(s: Sim, cpu: nat, created: nat)
    requires Placed(s, -1, created) && cpu < |s.cpus| && s.cpus[cpu].current.Some?
    ensures var p := s.cpus[cpu].current.value;
      && On(s, cpu, p) && HasState(s, p, Running) && AtBurst(s, cpu, p) && PcbOk(s.procs[p])
      && (TimeLeft(s, p) == 0 ==> Ending(s, p))
  {
    var p := s.cpus[cpu].current.value;
    assert On(s, cpu, p) && HasState(s, p, Running) && PcbOk(s.procs[p]);
  }

  lemma CountdownPlaced(s: Sim, cpu: nat, p: nat, created: nat)
    requires Placed(s, -1, created) && On(s, cpu, p) && HasState(s, p, Running)
    requires AtBurst(s, cpu, p) && TimeLeft(s, p) > 0
    ensures Placed(Countdown(s, cpu, p), -1, created)
  {
    CountdownKeeps(s, Countdown(s, cpu, p), cpu, p, created);
  }

  /** A finished burst: the process goes to the I/O queue or terminates. */
  lemma BurstEndKeeps(s: Sim, cpu: nat, p: nat, created: nat)
    requires Placed(s, -1, created) && On(s, cpu, p) && HasState(s, p, Running) && Ending(s, p)
    ensures Placed(BurstDone(s, p), cpu, created)
  {
    var r := BurstDone(s, p);
    assert r.procs[p].ops == s.procs[p].ops;
    PcbsReplaced(s, r, p, created);
    LeavesCpu(s, r, cpu, p);
    KeepsReady(s, r, p);
    if r.procs[p].state == Waiting {
      JoinsIo(s, r, p, s.procs[p].ops[s.procs[p].pc + 1].time);
    } else {
      KeepsIo(s, r, p);
    }
  }

  lemma CpuTurnKeeps(s: Sim, cpu: nat, created: nat)
    requires Placed(s, -1, created) && cpu < |s.cpus|
    ensures Placed(CpuTurn(s, cpu), -1, created)
  {
    if s.cpus[cpu].current.Some? {
      BusyCpu(s, cpu, created);
      var p := s.cpus[cpu].current.value;
      if TimeLeft(s, p) > 0 {
        CountdownPlaced(s, cpu, p, created);
        CountdownTurn(s, cpu, p);
        PreemptKeeps(Countdown(s, cpu, p), cpu, created);
      } else {
        BurstEndKeeps(s, cpu, p, created);
        BurstEndTurn(s, cpu, p);
        ScheduleKeeps(BurstDone(s, p), cpu, created);
      }
    }
  }

  // ---- I/O, creation, idle -----------------------------------------------------

  /** The head of the I/O queue has left it, its process moved to the next operation. */
  function IoFinished(s: Sim): Sim
    requires s.io != [] && s.io[0].pid < |s.procs|
  {
    var p := s.io[0].pid;
    s.(io := s.io[1..], procs := s.procs[p := Advance(s.procs[p])])
  }

  /** The process whose request completes was waiting, and has its place once it is pushed. */
  lemma IoAdmits(s: Sim, created: nat)
    requires Placed(s, -1, created) && s.io != []
    ensures var p := s.io[0].pid;
      && HasState(s, p, Waiting) && s.procs[p].ops[s.procs[p].pc].Io?
      && p !in s.ready && Placed(Push(SetState(IoFinished(s), p, Ready), p), -1, created)
  {
    var p := s.io[0].pid;
    assert Queued(s, 0, p) && HasState(s, p, Waiting) && !HasState(s, p, Ready);
    var s1 := Push(SetState(IoFinished(s), p, Ready), p);
    assert PcbOk(s.procs[p]) && s1.procs[p].ops == s.procs[p].ops;
    PcbsReplaced(s, s1, p, created);
    LeavesIo(s, s1, p);
    JoinsReady(s, s1, p);
    KeepsCpus(s, s1, p);
  }

  lemma IoTurnKeeps(s: Sim, created: nat)
    requires Placed(s, -1, created)
    ensures Placed(IoTurn(s), -1, created)
  {
    if s.io != [] {
      IoAdmits(s, created);
      if s.io[0].time > 0 {
        var s1 := s.(io := s.io[0 := s.io[0].(time := s.io[0].time - 1)]);
        CountdownIo(s, s1);
        SamePlaces(s, s1, created);
      } else {
        AdmittedKeeps(IoFinished(s), s.io[0].pid, created);
      }
    }
  }

  lemma CountdownIo(s: Sim, s': Sim)
    requires IoQueue(s) && s'.procs == s.procs && |s'.io| == |s.io|
    requires forall i :: 0 <= i < |s.io| ==> s'.io[i].pid == s.io[i].pid
    ensures IoQueue(s')
  {
    forall i: nat, q: nat
      ensures Queued(s', i, q) <==> Queued(s, i, q)
    {
    }
    forall q: nat | HasState(s', q, Waiting)
      ensures exists i: nat :: Queued(s', i, q)
    {
      assert HasState(s, q, Waiting);
      var i: nat :| Queued(s, i, q);
      assert Queued(s', i, q);
    }
  }

  /** The next process to create is new, and has its place once it is pushed. */
  lemma CreatAdmits(s: Sim)
    requires Inv(s) && s.created < |s.procs|
    ensures HasState(s, s.created, New) && s.created !in s.ready
    ensures Placed(Push(SetState(s, s.created, Ready), s.created), -1, s.created + 1)
  {
    var p := s.created;
    assert PcbOk(s.procs[p]) && HasState(s, p, New) && !HasState(s, p, Ready);
    var s1 := Push(SetState(s, p, Ready), p);
    JoinsReady(s, s1, p);
    KeepsIo(s, s1, p);
    KeepsCpus(s, s1, p);
    assert Pcbs(s1, p + 1);
  }

  lemma CreatTurnKeeps(s: Sim)
    requires Inv(s)
    ensures Inv(CreatTurn(s))
  {
    if s.time % 10 == 0 && s.created < |s.procs| {
      var woken := CreatWakes(s);
      CreatIs(s, woken);
      CreatedIrrelevant(woken, woken.created + 1);
    }
  }

  lemma CreatWakes(s: Sim) returns (woken: Sim)
    requires Inv(s) && s.created < |s.procs|
    ensures woken == WakeUp(s, s.created) && woken.created == s.created && Placed(woken, -1, woken.created + 1)
  {
    CreatAdmits(s);
    AdmittedKeeps(s, s.created, s.created + 1);
    woken := WakeUp(s, s.created);
  }

  lemma CreatIs(s: Sim, woken: Sim)
    requires s.time % 10 == 0 && s.created < |s.procs| && woken == WakeUp(s, s.created)
    ensures CreatTurn(s) == woken.(created := woken.created + 1)
    ensures woken.created == s.created
  {
  }

  lemma CreatedIrrelevant(s: Sim, created: nat)
    requires Placed(s, -1, created)
    ensures Inv(s.(created := created))
  {
    SameProcesses(s, s.(created := created), created);
  }

  /** Clock and creation count are no part of any place. */
  lemma SameProcesses(s: Sim, s': Sim, created: nat)
    requires Placed(s, -1, created)
    requires s'.procs == s.procs && s'.ready == s.ready && s'.current == s.current && s'.cpus == s.cpus && s'.io == s.io
    ensures Placed(s', -1, created)
  {
    SameIo(s, s');
    SamePlaces(s, s', created);
  }

  lemma SamePlaces(s: Sim, s': Sim, created: nat)
    requires Placed(s, -1, created) && IoQueue(s')
    requires s'.procs == s.procs && s'.ready == s.ready && s'.current == s.current && s'.cpus == s.cpus
    ensures Placed(s', -1, created)
  {
    forall q: nat, st: State
      ensures HasState(s', q, st) <==> HasState(s, q, st)
    {
    }
    forall n: nat, q: nat
      ensures On(s', n, q) <==> On(s, n, q)
    {
    }
    forall q: nat | HasState(s', q, Running)
      ensures exists n: nat :: n != -1 && On(s', n, q)
    {
      assert HasState(s, q, Running);
      var n: nat :| n != -1 && On(s, n, q);
      assert On(s', n, q);
    }
  }

  lemma IdleKeeps(s: Sim, cpu: nat, created: nat)
    requires Placed(s, -1, created) && cpu < |s.cpus|
    ensures Placed(Idle(s, cpu), -1, created)
  {
    if s.cpus[cpu].current.None? && s.ready != [] {
      EmptyIsHole(s, cpu, created);
      ScheduleKeeps(s, cpu, created);
    }
  }

  lemma EmptyIsHole(s: Sim, cpu: nat, created: nat)
    requires Placed(s, -1, created) && cpu < |s.cpus| && s.cpus[cpu].current.None?
    ensures Placed(s, cpu, created)
  {
    assert s.current[cpu].None?;
    forall q: nat | HasState(s, q, Running)
      ensures exists n: nat :: n != cpu && On(s, n, q)
    {
      var n: nat :| n != -1 && On(s, n, q);
      assert n != cpu;
    }
  }

  // ---- Runs --------------------------------------------------------------------

  /** The steps of a run, in any order: a superset of the simulator's interleavings, with
      idle CPUs free to step at any point. */
  datatype Event = CpuStep(cpu: nat) | IdleStep(cpu: nat) | IoStep | CreatStep | ClockStep

  function Do(s: Sim, e: Event): (r: Sim)
    requires |s.current| == |s.cpus|
    ensures SameMachine(s, r)
  {
    match e
    case CpuStep(n) => if n < |s.cpus| then CpuTurn(s, n) else s
    case IdleStep(n) => if n < |s.cpus| then Idle(s, n) else s
    case IoStep => IoTurn(s)
    case CreatStep => CreatTurn(s)
    case ClockStep => s.(time := s.time + 1)
  }

  function DoAll(s: Sim, es: seq<Event>): (r: Sim)
    requires |s.current| == |s.cpus|
    ensures SameMachine(s, r)
  {
    if es == [] then s else Do(DoAll(s, es[..|es| - 1]), es[|es| - 1])
  }

  lemma ClockKeeps(s: Sim)
    requires Inv(s)
    ensures Inv(s.(time := s.time + 1))
  {
    SameProcesses(s, s.(time := s.time + 1), s.created);
  }

  lemma StepKeeps(s: Sim, e: Event)
    requires Inv(s)
    ensures Inv(Do(s, e))
  {
    match e {
      case CpuStep(n) =>
        if n < |s.cpus| {
          CpuTurnKeeps(s, n, s.created);
          CpuTurnCreated(s, n);
        }
      case IdleStep(n) =>
        if n < |s.cpus| { IdleKeeps(s, n, s.created); }
      case IoStep => IoTurnKeeps(s, s.created);
      case CreatStep => CreatTurnKeeps(s);
      case ClockStep => ClockKeeps(s);
    }
  }

  lemma CpuTurnCreated(s: Sim, cpu: nat)
    requires cpu < |s.current| && cpu < |s.cpus|
    ensures CpuTurn(s, cpu).created == s.created
  {
  }

  lemma StartInv(policy: Policy, slice: int, programs: seq<seq<Op>>, estimates: seq<nat>, cpuCount: nat)
    requires |estimates| == |programs| && forall p :: 0 <= p < |programs| ==> Shape(programs[p])
    ensures Inv(Start(policy, slice, programs, estimates, cpuCount))
  {
  }

  /** After any steps in any order, under any policy: each process is in exactly one place,
      its state names it, and the scheduler's table agrees with the simulator's. */
  lemma {:induction false} RunKeepsPlaces(s: Sim, es: seq<Event>)
    requires Inv(s)
    ensures Inv(DoAll(s, es))
  {
    if es != [] {
      RunKeepsPlaces(s, es[..|es| - 1]);
      StepKeeps(DoAll(s, es[..|es| - 1]), es[|es| - 1]);
    }
  }

  /** The places are exclusive: a process is new, in the ready list, on a CPU, in the I/O
      queue or terminated, exactly as its state says. */
  lemma ExactlyOnePlace(s: Sim, p: nat)
    requires Inv(s) && p < |s.procs|
    ensures s.procs[p].state == New <==> s.created <= p
    ensures s.procs[p].state == Ready <==> p in s.ready
    ensures s.procs[p].state == Running <==> exists n: nat :: On(s, n, p)
    ensures s.procs[p].state == Waiting <==> exists i: nat :: Queued(s, i, p)
    ensures s.procs[p].state == Terminated <==>
      s.created > p && p !in s.ready && (forall n: nat :: !On(s, n, p)) && (forall i: nat :: !Queued(s, i, p))
    ensures forall n: nat, m: nat :: On(s, n, p) && On(s, m, p) ==> n == m
  {
    assert PcbOk(s.procs[p]);
    assert HasState(s, p, s.procs[p].state);
    if s.procs[p].state == Running {
      var n: nat :| n != -1 && On(s, n, p);
    }
  }

  /** A process on a CPU is always at a CPU operation: the simulator's complaints about
      scheduling a blocked or terminated process are never printed. */
  lemma RunningIsAtCpuOp(s: Sim, cpu: nat)
    requires Inv(s) && cpu < |s.cpus| && s.cpus[cpu].current.Some?
    ensures var p := s.cpus[cpu].current.value;
      p < |s.procs| && s.procs[p].pc < |s.procs[p].ops| && s.procs[p].ops[s.procs[p].pc].Cpu?
  {
    assert On(s, cpu, s.cpus[cpu].current.value);
  }

  // ---- Induction over the loops of a tick, and over ticks ---------------------------

  lemma {:induction false} TurnsInduct(s: Sim, n: nat, holds: (Sim, nat) -> bool)
    requires n <= |s.current| == |s.cpus| && holds(s, 0)
    requires forall t: Sim, k: nat {:trigger holds(t, k), CpuTurn(t, k)} ::
      k < n && SameMachine(s, t) && holds(t, k) ==> holds(CpuTurn(t, k), k + 1)
    ensures holds(CpuTurns(s, n), n)
  {
    if n > 0 {
      TurnsInduct(s, n - 1, holds);
    }
  }

  lemma {:induction false} IdleInduct(s: Sim, n: nat, holds: (Sim, nat) -> bool)
    requires n <= |s.current| == |s.cpus| && holds(s, 0)
    requires forall t: Sim, k: nat {:trigger holds(t, k), Idle(t, k)} ::
      k < n && SameMachine(s, t) && holds(t, k) ==> holds(Idle(t, k), k + 1)
    ensures holds(IdleTurns(s, n), n)
  {
    if n > 0 {
      IdleInduct(s, n - 1, holds);
    }
  }

  lemma {:induction false} TicksInduct(s: Sim, n: nat, holds: (Sim, nat) -> bool)
    requires |s.current| == |s.cpus| && holds(s, 0)
    requires forall t: Sim, k: nat {:trigger holds(t, k), Tick(t)} ::
      SameMachine(s, t) && holds(t, k) ==> holds(Tick(t), k + 1)
    ensures holds(Ticks(s, n), n)
  {
    if n > 0 {
      TicksInduct(s, n - 1, holds);
      TickHolds(s, Ticks(s, n - 1), n - 1, holds);
    }
  }

  lemma TickHolds(s: Sim, r: Sim, k: nat, holds: (Sim, nat) -> bool)
    requires |s.current| == |s.cpus| && SameMachine(s, r) && holds(r, k)
    requires forall t: Sim, j: nat {:trigger holds(t, j), Tick(t)} ::
      SameMachine(s, t) && holds(t, j) ==> holds(Tick(t), j + 1)
    ensures holds(Tick(r), k + 1)
  {
  }
}
