// The supervisor's exit test: its counter is right on every run, and its loop reaches it
// in bounded time.
module SchedExit {
  import opened SchedModel
  import opened SchedPlace
  import opened SchedSteps
  import opened SchedFinish

  // ---- Counting the terminated -------------------------------------------------

  /** Terminated processes among 0..n-1. */
  function Dead(s: Sim, n: nat): (k: nat)
    requires n <= |s.procs|
    ensures k <= n
  {
    if n == 0 then 0 else Dead(s, n - 1) + (if s.procs[n - 1].state == Terminated then 1 else 0)
  }

  ghost predicate CountsDead(s: Sim) { s.terminated == Dead(s, |s.procs|) }

  lemma {:induction false} DeadSame(s: Sim, s': Sim, n: nat)
    requires n <= |s.procs| == |s'.procs|
    requires forall p: nat :: p < n ==> (s'.procs[p].state == Terminated <==> s.procs[p].state == Terminated)
    ensures Dead(s', n) == Dead(s, n)
  {
    if n > 0 {
      DeadSame(s, s', n - 1);
    }
  }

  lemma {:induction false} DeadOneMore(s: Sim, s': Sim, p: nat, n: nat)
    requires p < n <= |s.procs| && OnlyProcess(s, s', p)
    requires s.procs[p].state != Terminated && s'.procs[p].state == Terminated
    ensures Dead(s', n) == Dead(s, n) + 1
  {
    if n - 1 == p {
      DeadSame(s, s', n - 1);
    } else {
      DeadOneMore(s, s', p, n - 1);
    }
  }

  /** Dispatching revives nobody: the queue holds only ready processes. */
  lemma ScheduleDead(s: Sim, cpu: nat)
    requires ReadyList(s) && cpu < |s.current| && cpu < |s.cpus|
    ensures Dead(Schedule(s, cpu), |s.procs|) == Dead(s, |s.procs|) && Schedule(s, cpu).terminated == s.terminated
  {
    if s.ready != [] {
      assert HasState(s, s.ready[PopIndex(s)], Ready);
    }
    DeadSame(s, Schedule(s, cpu), |s.procs|);
  }

  lemma PreemptDead(s: Sim, cpu: nat, created: nat)
    requires Placed(s, -1, created) && cpu < |s.cpus|
    ensures Dead(Preempt(s, cpu), |s.procs|) == Dead(s, |s.procs|) && Preempt(s, cpu).terminated == s.terminated
  {
    if s.current[cpu].Some? {
      var p := s.current[cpu].value;
      assert On(s, cpu, p) && HasState(s, p, Running);
      var s1 := Push(SetState(s, p, Ready), p);
      JoinsReady(s, s1, p);
      DeadSame(s, s1, |s.procs|);
      ScheduleDead(s1, cpu);
    }
  }

  /** From s to r, n more processes have terminated, and are counted. */
  ghost predicate DeadBy(s: Sim, r: Sim, n: nat) {
    && |r.procs| == |s.procs|
    && Dead(r, |r.procs|) == Dead(s, |s.procs|) + n && r.terminated == s.terminated + n
  }

  lemma CountdownDead(s: Sim, cpu: nat, p: nat, created: nat)
    requires Placed(s, -1, created) && On(s, cpu, p) && HasState(s, p, Running)
    requires AtBurst(s, cpu, p) && TimeLeft(s, p) > 0
    ensures DeadBy(s, CpuTurn(s, cpu), 0)
  {
    var r := Countdown(s, cpu, p);
    CountdownPlaced(s, cpu, p, created);
    DeadSame(s, r, |s.procs|);
    CountdownTurn(s, cpu, p);
    PreemptDead(r, cpu, created);
  }

  lemma CpuTurnDead(s: Sim, cpu: nat, created: nat)
    requires Placed(s, -1, created) && CountsDead(s) && cpu < |s.cpus|
    ensures CountsDead(CpuTurn(s, cpu))
  {
    if s.cpus[cpu].current.Some? {
      BusyCpu(s, cpu, created);
      var p := s.cpus[cpu].current.value;
      if TimeLeft(s, p) > 0 {
        CountdownDead(s, cpu, p, created);
      } else {
        BurstEndKeeps(s, cpu, p, created);
        BurstDoneDead(s, p);
        BurstEndTurn(s, cpu, p);
        ScheduleDead(BurstDone(s, p), cpu);
      }
    }
  }

  lemma BurstDoneDead(s: Sim, p: nat)
    requires Ending(s, p) && s.procs[p].state == Running
    ensures DeadBy(s, BurstDone(s, p), BurstDone(s, p).terminated - s.terminated)
  {
    var r := BurstDone(s, p);
    if r.procs[p].state == Terminated {
      DeadOneMore(s, r, p, |s.procs|);
    } else {
      DeadSame(s, r, |s.procs|);
    }
  }

  /** Preempting CPU id from t, or nobody if there is no such CPU, terminates nobody. */
  ghost predicate PreemptSpares(t: Sim, id: int) {
    0 <= id < |t.cpus| && id < |t.current| ==> DeadBy(t, Preempt(t, id), 0)
  }

  lemma PlacedSpares(t: Sim, id: int, created: nat)
    requires Placed(t, -1, created)
    ensures PreemptSpares(t, id)
  {
    if 0 <= id < |t.cpus| {
      PreemptDead(t, id, created);
    }
  }

  /** A wake-up of a process that is not dead. */
  lemma WakeUpDead(s: Sim, p: nat, created: nat)
    requires p < |s.procs| && s.procs[p].state != Terminated
    requires Placed(Push(SetState(s, p, Ready), p), -1, created)
    ensures DeadBy(s, WakeUp(s, p), 0)
  {
    var t := Push(SetState(s, p, Ready), p);
    PlacedSpares(t, Lowest(t, 0, 10, -1).0, created);
    WakeUpSpares(s, p, t);
  }

  lemma WakeUpSpares(s: Sim, p: nat, t: Sim)
    requires p < |s.procs| && s.procs[p].state != Terminated && t == Push(SetState(s, p, Ready), p)
    requires PreemptSpares(t, Lowest(t, 0, 10, -1).0)
    ensures DeadBy(s, WakeUp(s, p), 0)
  {
    DeadSame(s, t, |s.procs|);
    WakeUpTurn(s, p, t);
  }

  /** A wake-up pushes, and preempts at most the CPU its scan found. */
  lemma WakeUpTurn(s: Sim, p: nat, t: Sim)
    requires t == Push(SetState(s, p, Ready), p)
    ensures var id := Lowest(t, 0, 10, -1).0;
      WakeUp(s, p) == t || (0 <= id < |t.cpus| && id < |t.current| && WakeUp(s, p) == Preempt(t, id))
  {
  }

  lemma IoTurnDead(s: Sim)
    requires Inv(s) && CountsDead(s)
    ensures CountsDead(IoTurn(s))
  {
    if s.io != [] && s.io[0].time == 0 {
      IoAdmits(s, s.created);
      DeadSame(s, IoFinished(s), |s.procs|);
      WakeUpDead(IoFinished(s), s.io[0].pid, s.created);
    } else {
      DeadSame(s, IoTurn(s), |s.procs|);
    }
  }

  lemma StepDead(s: Sim, e: Event)
    requires Inv(s) && CountsDead(s)
    ensures CountsDead(Do(s, e))
  {
    match e {
      case CpuStep(n) =>
        if n < |s.cpus| { CpuTurnDead(s, n, s.created); }
      case IdleStep(n) =>
        if n < |s.cpus| { ScheduleDead(s, n); }
      case IoStep => IoTurnDead(s);
      case CreatStep =>
        if s.time % 10 == 0 && s.created < |s.procs| { CreatTurnDead(s); }
      case ClockStep => DeadSame(s, Do(s, e), |s.procs|);
    }
  }

  lemma CreatTurnDead(s: Sim)
    requires Inv(s) && CountsDead(s) && s.time % 10 == 0 && s.created < |s.procs|
    ensures CountsDead(CreatTurn(s))
  {
    CreatAdmits(s);
    WakeUpDead(s, s.created, s.created + 1);
    DeadSame(WakeUp(s, s.created), CreatTurn(s), |s.procs|);
  }

  lemma {:induction false} RunCountsDead(s: Sim, es: seq<Event>)
    requires Inv(s) && CountsDead(s)
    ensures CountsDead(DoAll(s, es))
  {
    if es != [] {
      RunKeepsPlaces(s, es[..|es| - 1]);
      RunCountsDead(s, es[..|es| - 1]);
      StepDead(DoAll(s, es[..|es| - 1]), es[|es| - 1]);
    }
  }

  lemma {:induction false} DeadAll(s: Sim, n: nat)
    requires n <= |s.procs|
    ensures Dead(s, n) == n <==> forall p: nat :: p < n ==> s.procs[p].state == Terminated
  {
    if n > 0 {
      DeadAll(s, n - 1);
    }
  }

  lemma {:induction false} StartHasNoDead(s: Sim, n: nat)
    requires n <= |s.procs| && forall p: nat :: p < |s.procs| ==> s.procs[p].state == New
    ensures Dead(s, n) == 0
  {
    if n > 0 {
      StartHasNoDead(s, n - 1);
    }
  }

  /** The supervisor's exit test is right: its counter reaches the number of processes exactly
      when every process has terminated, on every run. */
  lemma ExitTestExact(policy: Policy, slice: int, programs: seq<seq<Op>>, estimates: seq<nat>, cpuCount: nat, es: seq<Event>)
    requires |estimates| == |programs| && forall p :: 0 <= p < |programs| ==> Shape(programs[p])
    ensures var r := DoAll(Start(policy, slice, programs, estimates, cpuCount), es);
      r.terminated >= |programs| <==> Finished(r)
  {
    var s := Start(policy, slice, programs, estimates, cpuCount);
    StartInv(policy, slice, programs, estimates, cpuCount);
    StartHasNoDead(s, |s.procs|);
    RunCountsDead(s, es);
    var r := DoAll(s, es);
    DeadAll(r, |r.procs|);
  }

  // ---- The loop to the exit test ---------------------------------------------------

  lemma CpuTurnsDead(s: Sim)
    requires Inv(s) && CountsDead(s)
    ensures Inv(CpuTurns(s, |s.cpus|)) && CountsDead(CpuTurns(s, |s.cpus|))
  {
    var holds := (t: Sim, k: nat) => Inv(t) && CountsDead(t);
    forall t: Sim, k: nat | k < |s.cpus| && SameMachine(s, t) && holds(t, k)
      ensures k < |t.current| && holds(CpuTurn(t, k), k + 1)
    {
      StepCounts(t, CpuStep(k), CpuTurn(t, k));
    }
    TurnsInduct(s, |s.cpus|, holds);
  }

  lemma IdleTurnsDead(s: Sim)
    requires Inv(s) && CountsDead(s)
    ensures Inv(IdleTurns(s, |s.cpus|)) && CountsDead(IdleTurns(s, |s.cpus|))
  {
    var holds := (t: Sim, k: nat) => Inv(t) && CountsDead(t);
    forall t: Sim, k: nat | k < |s.cpus| && SameMachine(s, t) && holds(t, k)
      ensures k < |t.current| && holds(Idle(t, k), k + 1)
    {
      StepCounts(t, IdleStep(k), Idle(t, k));
    }
    IdleInduct(s, |s.cpus|, holds);
  }

  lemma StepCounts(s: Sim, e: Event, r: Sim)
    requires Inv(s) && CountsDead(s) && r == Do(s, e)
    ensures Inv(r) && CountsDead(r)
  {
    StepKeeps(s, e);
    StepDead(s, e);
  }

  lemma SuperviseSteps(s: Sim, s1: Sim, s2: Sim)
    requires |s.current| == |s.cpus| && s1 == Do(s, IoStep) && s2 == Do(s1, CreatStep)
    ensures Supervise(s) == Do(s2, ClockStep)
  {
  }

  lemma SuperviseDead(s: Sim, s1: Sim, s2: Sim, r: Sim)
    requires Inv(s) && CountsDead(s)
    requires s1 == Do(s, IoStep) && s2 == Do(s1, CreatStep) && r == Supervise(s)
    ensures Inv(r) && CountsDead(r)
  {
    StepCounts(s, IoStep, s1);
    StepCounts(s1, CreatStep, s2);
    SuperviseSteps(s, s1, s2);
    StepCounts(s2, ClockStep, r);
  }

  /** The exit counter stays right over a tick. */
  lemma TickDead(s: Sim)
    requires Inv(s) && CountsDead(s)
    ensures CountsDead(Tick(s))
  {
    CpuTurnsDead(s);
    var t := CpuTurns(s, |s.cpus|);
    var r := Supervise(t);
    SuperviseDead(t, Do(t, IoStep), Do(Do(t, IoStep), CreatStep), r);
    IdleTurnsDead(r);
  }

  /** s is where a run from s0 stands at its time. */
  ghost predicate Reached(s0: Sim, s: Sim) {
    && Live(s0) && s0.time == 0 && |s0.cpus| >= 1 && |s0.procs| >= 1
    && Live(s) && CountsDead(s) && |s.procs| == |s0.procs| && |s.cpus| == |s0.cpus|
    && s == Ticks(s0, s.time)
  }

  lemma FirstReached(s0: Sim)
    requires Live(s0) && CountsDead(s0) && s0.time == 0 && |s0.cpus| >= 1 && |s0.procs| >= 1
    ensures Reached(s0, s0)
  {
    assert Ticks(s0, s0.time) == s0;
  }

  /** An unfinished run is within its bound, and takes another tick. */
  lemma ReachedNext(s0: Sim, s: Sim)
    requires Reached(s0, s) && s.terminated < |s.procs|
    ensures s.time < 10 * |s0.procs| + Work(s0)
    ensures Reached(s0, Tick(s)) && Tick(s).time == s.time + 1
  {
    if s.time >= 10 * |s0.procs| + Work(s0) {
      OutOfWork(s0, s);
      assert false;
    }
    TickIsOk(s);
    TickDead(s);
    TickAfter(s0, s);
  }

  lemma TickAfter(s0: Sim, s: Sim)
    requires |s0.cpus| == |s0.current| && |s.current| == |s.cpus| && s == Ticks(s0, s.time)
    ensures Tick(s) == Ticks(s0, s.time + 1)
  {
  }

  lemma OutOfWork(s0: Sim, s: Sim)
    requires Reached(s0, s) && s.time >= 10 * |s0.procs| + Work(s0)
    ensures s.terminated == |s.procs|
  {
    WorkGone(s0, s.time);
    NoWorkFinished(s, |s.procs|);
    DeadAll(s, |s.procs|);
  }

  lemma ReachedEnd(s0: Sim, s: Sim)
    requires Reached(s0, s) && s.terminated >= |s.procs|
    ensures Finished(s) && s == Ticks(s0, s.time)
  {
    DeadAll(s, |s.procs|);
  }
}
