// The simulation terminates: total work plus ten ticks per process bounds it, under
// every policy and any number of CPUs.
module SchedFinish {
  import opened SchedModel
  import opened SchedPlace
  import opened SchedSteps
  import opened SchedWork

  // ---- Total work --------------------------------------------------------------

  /** Work left to processes 0..n-1. */
  function WorkTo(s: Sim, n: nat): nat
    requires n <= |s.procs|
  {
    if n == 0 then 0 else WorkTo(s, n - 1) + CpuLeft(s, n - 1) + IoLeft(s, n - 1)
  }

  function Work(s: Sim): nat { WorkTo(s, |s.procs|) }

  /** Whether a step is charged to some process. */
  predicate ChargesSomeone(s: Sim, e: Event) {
    (e.CpuStep? && e.cpu < |s.cpus| && s.cpus[e.cpu].current.Some?) || (e.IoStep? && s.io != [])
  }

  function ChargedTo(s: Sim, e: Event): nat {
    if e.CpuStep? && e.cpu < |s.cpus| && s.cpus[e.cpu].current.Some? then s.cpus[e.cpu].current.value
    else if e.IoStep? && s.io != [] then s.io[0].pid
    else 0
  }

  ghost predicate StepCharged(s: Sim, r: Sim, e: Event, p: nat) {
    && p < |s.procs| == |r.procs|
    && CpuLeft(s, p) + IoLeft(s, p) ==
         CpuLeft(r, p) + IoLeft(r, p) + (if ChargesSomeone(s, e) && ChargedTo(s, e) == p then 1 else 0)
  }

  lemma AllStepsCharged(s: Sim, e: Event)
    requires Inv(s)
    ensures forall p: nat :: p < |s.procs| ==> StepCharged(s, Do(s, e), e, p)
  {
    forall p: nat | p < |s.procs|
      ensures StepCharged(s, Do(s, e), e, p)
    {
      StepCharges(s, e, p);
    }
  }

  lemma {:induction false} StepWorkTo(s: Sim, r: Sim, e: Event, n: nat)
    requires n <= |s.procs| == |r.procs| && forall p: nat :: p < |s.procs| ==> StepCharged(s, r, e, p)
    ensures WorkTo(s, n) == WorkTo(r, n) + (if ChargesSomeone(s, e) && ChargedTo(s, e) < n then 1 else 0)
  {
    if n > 0 {
      StepWorkTo(s, r, e, n - 1);
      assert StepCharged(s, r, e, n - 1);
    }
  }

  /** Each charged step is one tick off the total; no other step changes it. */
  lemma StepWork(s: Sim, e: Event)
    requires Inv(s)
    ensures Inv(Do(s, e))
    ensures Work(s) == Work(Do(s, e)) + (if ChargesSomeone(s, e) then 1 else 0)
  {
    StepKeeps(s, e);
    AllStepsCharged(s, e);
    StepWorkTo(s, Do(s, e), e, |s.procs|);
    if ChargesSomeone(s, e) {
      if e.CpuStep? {
        assert On(s, e.cpu, ChargedTo(s, e));
        assert HasState(s, ChargedTo(s, e), Running);
      } else {
        assert Queued(s, 0, ChargedTo(s, e));
        assert HasState(s, ChargedTo(s, e), Waiting);
      }
    }
  }

  ghost predicate Finished(s: Sim) {
    forall p: nat :: p < |s.procs| ==> s.procs[p].state == Terminated
  }

  lemma {:induction false} NoWorkFinished(s: Sim, n: nat)
    requires Inv(s) && n <= |s.procs|
    ensures WorkTo(s, n) == 0 <==> forall p: nat :: p < n ==> s.procs[p].state == Terminated
  {
    if n > 0 {
      NoWorkFinished(s, n - 1);
      TerminatedIffNoWork(s, n - 1);
    }
  }

  // ---- The CPU turns of a tick -------------------------------------------------

  lemma TurnWork(s: Sim, cpu: nat)
    requires Inv(s) && cpu < |s.cpus|
    ensures var r := CpuTurn(s, cpu);
      Inv(r) && Work(s) == Work(r) + (if s.cpus[cpu].current.Some? then 1 else 0)
  {
    StepWork(s, CpuStep(cpu));
  }

  /** A turn touches its own CPU and leaves the clock and the creation count alone. */
  ghost predicate LocalTo(s: Sim, r: Sim, lo: nat, hi: nat) {
    && |r.cpus| == |s.cpus|
    && (forall m: nat :: m < |s.cpus| && !(lo <= m < hi) ==> r.cpus[m] == s.cpus[m])
    && r.created == s.created && r.time == s.time && |r.io| >= |s.io|
  }

  lemma ScheduleLocal(s: Sim, cpu: nat)
    requires cpu < |s.cpus| == |s.current|
    ensures LocalTo(s, Schedule(s, cpu), cpu, cpu + 1)
  {
  }

  lemma PreemptLocal(s: Sim, cpu: nat)
    requires cpu < |s.cpus| == |s.current|
    ensures LocalTo(s, Preempt(s, cpu), cpu, cpu + 1)
  {
    if s.current[cpu].Some? {
      ScheduleLocal(Push(SetState(s, s.current[cpu].value, Ready), s.current[cpu].value), cpu);
    }
  }

  lemma CpuTurnLocal(s: Sim, cpu: nat)
    requires Inv(s) && cpu < |s.cpus|
    ensures LocalTo(s, CpuTurn(s, cpu), cpu, cpu + 1)
  {
    if s.cpus[cpu].current.Some? {
      BusyCpu(s, cpu, s.created);
      var p := s.cpus[cpu].current.value;
      if TimeLeft(s, p) > 0 {
        CountdownTurn(s, cpu, p);
        PreemptLocal(Countdown(s, cpu, p), cpu);
      } else {
        BurstEndTurn(s, cpu, p);
        ScheduleLocal(BurstDone(s, p), cpu);
      }
    }
  }

  /** After the turns of CPUs 0..k-1 from s: work never rises, and has dropped once busy CPU m
      has had its turn. */
  ghost predicate TurnedTo(s: Sim, t: Sim, k: nat, m: nat) {
    && Inv(t) && LocalTo(s, t, 0, k)
    && Work(t) + (if m < k && m < |s.cpus| && s.cpus[m].current.Some? then 1 else 0) <= Work(s)
  }

  lemma OneMoreTurn(s: Sim, t: Sim, k: nat, m: nat)
    requires k < |s.cpus| && TurnedTo(s, t, k, m)
    ensures TurnedTo(s, CpuTurn(t, k), k + 1, m)
  {
    TurnWork(t, k);
    CpuTurnLocal(t, k);
  }

  lemma TurnsKeep(s: Sim, n: nat, m: nat)
    requires Inv(s) && n <= |s.cpus|
    ensures TurnedTo(s, CpuTurns(s, n), n, m)
  {
    var holds := (t: Sim, k: nat) => TurnedTo(s, t, k, m);
    forall t: Sim, k: nat | k < n && holds(t, k)
      ensures k < |t.current| && k < |t.cpus| && holds(CpuTurn(t, k), k + 1)
    {
      OneMoreTurn(s, t, k, m);
    }
    TurnsInduct(s, n, holds);
  }

  // ---- Idle CPUs between ticks -------------------------------------------------

  ghost predicate BusyBelow(s: Sim, n: nat) {
    n <= |s.cpus| && forall m: nat :: m < n ==> s.cpus[m].current.Some?
  }

  /** No CPU idles while a process is ready. */
  ghost predicate Settled(s: Sim) {
    s.ready == [] || BusyBelow(s, |s.cpus|)
  }

  lemma IdleWork(s: Sim, cpu: nat)
    requires Inv(s) && cpu < |s.cpus|
    ensures var r := Idle(s, cpu);
      Inv(r) && Work(r) == Work(s) && r.created == s.created && r.time == s.time
  {
    StepWork(s, IdleStep(cpu));
  }

  lemma IdleFills(s: Sim, cpu: nat)
    requires cpu < |s.cpus| == |s.current| && (s.ready == [] || BusyBelow(s, cpu))
    ensures Idle(s, cpu).ready == [] || BusyBelow(Idle(s, cpu), cpu + 1)
  {
  }

  ghost predicate IdleKept(s: Sim, r: Sim) {
    Inv(r) && Work(r) == Work(s) && r.created == s.created && r.time == s.time
  }

  lemma OneMoreIdle(s: Sim, t: Sim, k: nat)
    requires k < |t.cpus| && IdleKept(s, t) && (t.ready == [] || BusyBelow(t, k))
    ensures IdleKept(s, Idle(t, k)) && (Idle(t, k).ready == [] || BusyBelow(Idle(t, k), k + 1))
  {
    IdleWork(t, k);
    IdleFills(t, k);
  }

  lemma IdleTurnsKeep(s: Sim, n: nat)
    requires Inv(s) && n <= |s.cpus|
    ensures IdleKept(s, IdleTurns(s, n))
    ensures IdleTurns(s, n).ready == [] || BusyBelow(IdleTurns(s, n), n)
  {
    var holds := (t: Sim, k: nat) => IdleKept(s, t) && (t.ready == [] || BusyBelow(t, k));
    forall t: Sim, k: nat | k < n && SameMachine(s, t) && holds(t, k)
      ensures k < |t.current| && holds(Idle(t, k), k + 1)
    {
      OneMoreIdle(s, t, k);
    }
    assert BusyBelow(s, 0);
    IdleInduct(s, n, holds);
  }

  // ---- One tick ----------------------------------------------------------------

  function CreatedBy(n: nat, time: nat): nat {
    if (time + 9) / 10 < n then (time + 9) / 10 else n
  }

  /** A process is created every tenth tick until all are. */
  ghost predicate OnSchedule(s: Sim) { s.created == CreatedBy(|s.procs|, s.time) }

  lemma IoTurnWork(s: Sim)
    requires Inv(s)
    ensures var r := IoTurn(s);
      && Inv(r) && Work(s) == Work(r) + (if s.io != [] then 1 else 0)
      && r.created == s.created && r.time == s.time
  {
    StepWork(s, IoStep);
  }

  lemma CreatTurnWork(s: Sim)
    requires Inv(s) && OnSchedule(s)
    ensures var r := CreatTurn(s);
      && Inv(r) && Work(r) == Work(s) && r.time == s.time
      && r.created == CreatedBy(|s.procs|, s.time + 1)
  {
    StepWork(s, CreatStep);
  }

  lemma ClockWork(s: Sim)
    requires Inv(s)
    ensures Inv(s.(time := s.time + 1)) && Work(s.(time := s.time + 1)) == Work(s)
  {
    StepWork(s, ClockStep);
  }

  lemma SuperviseIs(s: Sim, t: Sim)
    requires |s.current| == |s.cpus| && t == IoTurn(s)
    ensures Supervise(s) == CreatTurn(t).(time := CreatTurn(t).time + 1)
  {
  }

  /** What the rest of an iteration guarantees: d units of work done. */
  ghost predicate Supervised(s: Sim, r: Sim, d: nat) {
    Inv(r) && OnSchedule(r) && r.time == s.time + 1 && Work(r) + d == Work(s)
  }

  lemma AfterIoKeeps(t: Sim, r: Sim)
    requires Inv(t) && OnSchedule(t) && r == CreatTurn(t).(time := CreatTurn(t).time + 1)
    ensures Supervised(t, r, 0)
  {
    CreatTurnWork(t);
    ClockWork(CreatTurn(t));
  }

  /** I/O, creation and clock, before the idle CPUs step. */
  lemma SuperviseKeeps(s: Sim)
    requires Inv(s) && OnSchedule(s)
    ensures Supervised(s, Supervise(s), if s.io != [] then 1 else 0)
  {
    IoTurnWork(s);
    SuperviseIs(s, IoTurn(s));
    AfterIoKeeps(IoTurn(s), Supervise(s));
  }

  lemma IdleCpusKeep(s: Sim)
    requires Inv(s) && OnSchedule(s)
    ensures var r := IdleTurns(s, |s.cpus|);
      Inv(r) && OnSchedule(r) && Settled(r) && r.time == s.time && Work(r) == Work(s)
  {
    IdleTurnsKeep(s, |s.cpus|);
  }

  lemma CpusKeep(s: Sim)
    requires Inv(s) && OnSchedule(s)
    ensures var r := CpuTurns(s, |s.cpus|);
      && Inv(r) && OnSchedule(r) && r.time == s.time && Work(r) <= Work(s) && |r.io| >= |s.io|
      && r.created == s.created
  {
    TurnsKeep(s, |s.cpus|, 0);
  }

  lemma TickKeeps(s: Sim)
    requires Inv(s) && OnSchedule(s)
    ensures var r := Tick(s);
      && Inv(r) && OnSchedule(r) && Settled(r) && r.time == s.time + 1
      && Work(r) <= Work(CpuTurns(s, |s.cpus|)) <= Work(s)
      && (s.io != [] ==> Work(r) < Work(s))
  {
    CpusKeep(s);
    var s1 := CpuTurns(s, |s.cpus|);
    SuperviseKeeps(s1);
    IdleCpusKeep(Supervise(s1));
  }

  /** Once all are created, a tick of an unfinished, settled system does some work. */
  lemma TickWorks(s: Sim)
    requires Inv(s) && OnSchedule(s) && Settled(s) && |s.cpus| >= 1
    requires s.created == |s.procs| && !Finished(s)
    ensures Work(Tick(s)) < Work(s)
  {
    TickKeeps(s);
    if m: nat :| m < |s.cpus| && s.cpus[m].current.Some? {
      TurnsKeep(s, |s.cpus|, m);
    } else {
      WaitingRemains(s);
    }
  }

  /** With every CPU idle and nobody ready, an unfinished process waits for I/O. */
  lemma WaitingRemains(s: Sim)
    requires Inv(s) && Settled(s) && |s.cpus| >= 1 && s.created == |s.procs| && !Finished(s)
    requires forall m: nat :: m < |s.cpus| ==> s.cpus[m].current.None?
    ensures s.io != []
  {
    var p: nat :| p < |s.procs| && s.procs[p].state != Terminated;
    assert HasState(s, p, s.procs[p].state);
    assert s.cpus[0].current.None?;
    assert forall n: nat :: !On(s, n, p);
    assert s.procs[p].state == Waiting;
    var i: nat :| Queued(s, i, p);
  }

  // ---- The bound ---------------------------------------------------------------

  ghost predicate Live(s: Sim) { Inv(s) && OnSchedule(s) && Settled(s) }

  /** What one tick guarantees. */
  ghost predicate TickOk(s: Sim, r: Sim) {
    && Live(r) && r.time == s.time + 1 && |r.procs| == |s.procs|
    && Work(r) <= Work(s)
    && (s.created == |s.procs| && Work(s) > 0 ==> Work(r) < Work(s))
  }

  lemma TickIsOk(s: Sim)
    requires Live(s) && |s.cpus| >= 1
    ensures TickOk(s, Tick(s))
  {
    TickKeeps(s);
    NoWorkFinished(s, |s.procs|);
    if s.created == |s.procs| && Work(s) > 0 {
      TickWorks(s);
    }
  }

  /** s after k ticks stands at t: once time allows every creation, each tick has taken at
      least one unit off the work until none is left. */
  ghost predicate TickedTo(s: Sim, t: Sim, k: nat) {
    && Live(t) && t.time == s.time + k && |t.procs| == |s.procs| && |t.cpus| == |s.cpus| >= 1
    && Work(t) <= Work(s)
    && (k + 9 >= 10 * |s.procs| ==> Work(t) == 0 || Work(t) + k + 9 <= Work(s) + 10 * |s.procs|)
  }

  lemma OneMoreTick(s: Sim, t: Sim, k: nat)
    requires TickedTo(s, t, k)
    ensures TickedTo(s, Tick(t), k + 1)
  {
    TickIsOk(t);
  }

  lemma TicksKeep(s: Sim, n: nat)
    requires Live(s) && |s.cpus| >= 1 && |s.procs| >= 1
    ensures TickedTo(s, Ticks(s, n), n)
  {
    var holds := (t: Sim, k: nat) => TickedTo(s, t, k);
    forall t: Sim, k: nat | SameMachine(s, t) && holds(t, k)
      ensures holds(Tick(t), k + 1)
    {
      OneMoreTick(s, t, k);
    }
    TicksInduct(s, n, holds);
  }

  lemma StartLive(policy: Policy, slice: int, programs: seq<seq<Op>>, estimates: seq<nat>, cpuCount: nat)
    requires |estimates| == |programs| && forall p :: 0 <= p < |programs| ==> Shape(programs[p])
    ensures Live(Start(policy, slice, programs, estimates, cpuCount))
  {
    StartInv(policy, slice, programs, estimates, cpuCount);
  }

  lemma WorkGone(s: Sim, n: nat)
    requires Live(s) && |s.cpus| >= 1 && |s.procs| >= 1
    requires n + 9 >= 10 * |s.procs| + Work(s)
    ensures Live(Ticks(s, n)) && |Ticks(s, n).procs| == |s.procs| && Work(Ticks(s, n)) == 0
  {
    TicksKeep(s, n);
  }

  /** The whole simulation, from no process created: all have terminated once ten ticks per
      process (less nine) and one tick per unit of work have passed. */
  lemma AllTerminate(s: Sim, policy: Policy, slice: int, programs: seq<seq<Op>>, estimates: seq<nat>, cpuCount: nat, n: nat)
    requires |estimates| == |programs| >= 1 && cpuCount >= 1
    requires forall p :: 0 <= p < |programs| ==> Shape(programs[p])
    requires s == Start(policy, slice, programs, estimates, cpuCount)
    requires n >= 10 * |programs| - 9 + Work(s)
    ensures Finished(Ticks(s, n))
  {
    StartLive(policy, slice, programs, estimates, cpuCount);
    WorkGone(s, n);
    NoWorkFinished(Ticks(s, n), |programs|);
  }
}
