// The time slice: what the preemption timer of a CPU says, and when a process loses its CPU.
module SchedSlice {
  import opened Basics
  import opened SchedModel
  import opened SchedPlace
  import opened SchedSteps
  import opened SchedFair
  import opened SchedLrtf

  // ---- Dispatches and ticks --------------------------------------------------------

  /** The CPU an LRTF wake-up of p preempts, -1 for none or under another policy. */
  function Displaced(s: Sim, p: nat): int {
    if s.policy == Lrtf then PreemptedBy(Push(SetState(s, p, Ready), p), p) else -1
  }

  /** The step calls schedule for CPU n: its slice runs out, its burst ends, it idles beside a
      ready process, or an LRTF wake-up takes it. */
  predicate Dispatches(s: Sim, e: Event, n: nat) {
    match e
    case CpuStep(c) => c == n && (Expires(s, n) || BurstEnds(s, n))
    case IdleStep(c) => c == n < |s.cpus| && s.cpus[n].current.None? && s.ready != []
    case IoStep => IoDone(s, e) && s.io[0].pid < |s.procs| && Displaced(IoFinished(s), s.io[0].pid) == n
    case CreatStep => s.time % 10 == 0 && s.created < |s.procs| && Displaced(s, s.created) == n
    case ClockStep => false
  }

  /** CPU n runs a tick of an unfinished burst. */
  predicate RunsTick(s: Sim, e: Event, n: nat) { e == CpuStep(n) && TicksOfBurst(s, n) > 0 }

  /** Ticks CPU n has run since its last dispatch. */
  function TicksSince(s: Sim, es: seq<Event>, n: nat): nat
    requires |s.current| == |s.cpus|
  {
    if es == [] then 0
    else
      var front, e := es[..|es| - 1], es[|es| - 1];
      var r := DoAll(s, front);
      if Dispatches(r, e, n) then 0 else TicksSince(s, front, n) + (if RunsTick(r, e, n) then 1 else 0)
  }

  // ---- One step ----------------------------------------------------------------------

  /** From s to r: a dispatch gives CPU n the whole slice; otherwise it keeps its process, and its
      timer drops by the ticks it runs. */
  ghost predicate TimerMoves(s: Sim, r: Sim, n: nat, dispatched: bool, ran: bool) {
    && n < |s.cpus| == |r.cpus|
    && (if dispatched then r.cpus[n].timer == s.slice
        else r.cpus[n] == CpuData(s.cpus[n].current, s.cpus[n].timer - (if ran then 1 else 0)))
  }

  lemma ScheduleTimer(s: Sim, cpu: nat, n: nat)
    requires cpu < |s.current| && cpu < |s.cpus| && n < |s.cpus|
    ensures TimerMoves(s, Schedule(s, cpu), n, n == cpu, false)
  {
  }

  lemma PreemptTimer(s: Sim, cpu: nat, n: nat)
    requires cpu < |s.current| && cpu < |s.cpus| && n < |s.cpus| && s.current[cpu].Some?
    ensures TimerMoves(s, Preempt(s, cpu), n, n == cpu, false)
  {
    ScheduleTimer(Push(SetState(s, s.current[cpu].value, Ready), s.current[cpu].value), cpu, n);
  }

  lemma CountdownTimer(s: Sim, cpu: nat, p: nat, n: nat)
    requires AtBurst(s, cpu, p) && TimeLeft(s, p) > 0 && n < |s.cpus|
    ensures TimerMoves(s, CpuTurn(s, cpu), n, Dispatches(s, CpuStep(cpu), n), RunsTick(s, CpuStep(cpu), n))
  {
    CountdownTurn(s, cpu, p);
    if s.cpus[cpu].timer == 1 {
      PreemptTimer(Countdown(s, cpu, p), cpu, n);
    }
  }

  lemma BurstEndTimer(s: Sim, cpu: nat, p: nat, n: nat)
    requires AtBurst(s, cpu, p) && Ending(s, p) && n < |s.cpus|
    ensures TimerMoves(s, CpuTurn(s, cpu), n, Dispatches(s, CpuStep(cpu), n), RunsTick(s, CpuStep(cpu), n))
  {
    BurstEndTurn(s, cpu, p);
    ScheduleTimer(BurstDone(s, p), cpu, n);
  }

  lemma CpuTurnTimer(s: Sim, cpu: nat, n: nat)
    requires Inv(s) && cpu < |s.cpus| && n < |s.cpus|
    ensures TimerMoves(s, CpuTurn(s, cpu), n, Dispatches(s, CpuStep(cpu), n), RunsTick(s, CpuStep(cpu), n))
  {
    if s.cpus[cpu].current.Some? {
      BusyCpu(s, cpu, s.created);
      var p := s.cpus[cpu].current.value;
      if TimeLeft(s, p) > 0 {
        CountdownTimer(s, cpu, p, n);
      } else {
        BurstEndTimer(s, cpu, p, n);
      }
    }
  }

  /** A wake-up moves no timer but that of the CPU it takes. */
  lemma WakeUpTimer(s: Sim, p: nat, created: nat, n: nat)
    requires Placed(Push(SetState(s, p, Ready), p), -1, created) && n < |s.cpus|
    ensures TimerMoves(s, WakeUp(s, p), n, Displaced(s, p) == n, false)
  {
    if s.policy == Lrtf {
      WakeUpMeaning(s, p, created);
      var s1 := Push(SetState(s, p, Ready), p);
      var id := PreemptedBy(s1, p);
      if id != -1 {
        PreemptTimer(s1, id, n);
      }
    }
  }

  lemma IoTimer(s: Sim, n: nat)
    requires Inv(s) && n < |s.cpus|
    ensures TimerMoves(s, IoTurn(s), n, Dispatches(s, IoStep, n), false)
  {
    if s.io != [] {
      IoAdmits(s, s.created);
      if s.io[0].time == 0 {
        WakeUpTimer(IoFinished(s), s.io[0].pid, s.created, n);
        assert IoTurn(s) == WakeUp(IoFinished(s), s.io[0].pid);
      }
    }
  }

  lemma CreatTimer(s: Sim, n: nat)
    requires Inv(s) && n < |s.cpus|
    ensures TimerMoves(s, CreatTurn(s), n, Dispatches(s, CreatStep, n), false)
  {
    if s.time % 10 == 0 && s.created < |s.procs| {
      CreatAdmits(s);
      WakeUpTimer(s, s.created, s.created + 1, n);
    }
  }

  lemma StepTimer(s: Sim, e: Event, n: nat)
    requires Inv(s) && n < |s.cpus|
    ensures TimerMoves(s, Do(s, e), n, Dispatches(s, e, n), RunsTick(s, e, n))
  {
    match e {
      case CpuStep(c) =>
        if c < |s.cpus| { CpuTurnTimer(s, c, n); }
      case IdleStep(c) =>
        if c < |s.cpus| && s.cpus[c].current.None? && s.ready != [] { ScheduleTimer(s, c, n); }
      case IoStep => IoTimer(s, n);
      case CreatStep => CreatTimer(s, n);
      case ClockStep =>
    }
  }

  // ---- Whole runs --------------------------------------------------------------------

  lemma {:induction false} TimerAlong(s: Sim, es: seq<Event>, n: nat)
    requires Inv(s) && n < |s.cpus| && s.cpus[n].current.None?
    ensures var r := DoAll(s, es);
      r.cpus[n].current.Some? ==> r.cpus[n].timer == s.slice - TicksSince(s, es, n)
  {
    if es != [] {
      var front := es[..|es| - 1];
      TimerAlong(s, front, n);
      RunKeepsPlaces(s, front);
      StepTimer(DoAll(s, front), es[|es| - 1], n);
    }
  }

  /** On every run under any policy: the timer of a busy CPU is the slice less the ticks the CPU
      has run since its last dispatch. */
  lemma TimerIsSliceLessTicks(policy: Policy, slice: int, programs: seq<seq<Op>>, estimates: seq<nat>, cpuCount: nat,
                              es: seq<Event>, n: nat)
    requires |estimates| == |programs| && n < cpuCount
    requires forall p :: 0 <= p < |programs| ==> Shape(programs[p])
    ensures var s := Start(policy, slice, programs, estimates, cpuCount);
      Busy(DoAll(s, es), n) ==> DoAll(s, es).cpus[n].timer == slice - TicksSince(s, es, n)
  {
    StartInv(policy, slice, programs, estimates, cpuCount);
    TimerAlong(Start(policy, slice, programs, estimates, cpuCount), es, n);
  }

  /** On every run a busy CPU's process runs on with its burst unfinished, except that under FIFO
      and round robin it is preempted in exactly the tick that completes the slice: never without
      one, and under LRTF by a wake-up besides. */
  lemma LeavesAfterSlice(policy: Policy, slice: int, programs: seq<seq<Op>>, estimates: seq<nat>, cpuCount: nat,
                         es: seq<Event>, e: Event, n: nat)
    requires |estimates| == |programs| && n < cpuCount
    requires forall p :: 0 <= p < |programs| ==> Shape(programs[p])
    ensures var s := Start(policy, slice, programs, estimates, cpuCount);
      var r := DoAll(s, es);
      Busy(r, n) && TicksOfBurst(r, n) > 0 ==>
        && (e == CpuStep(n) ==> (Dispatches(r, e, n) <==> TicksSince(s, es, n) + 1 == slice))
        && (e != CpuStep(n) && policy != Lrtf ==> !Dispatches(r, e, n))
        && (!Dispatches(r, e, n) ==> Do(r, e).cpus[n].current == r.cpus[n].current)
  {
    var s := Start(policy, slice, programs, estimates, cpuCount);
    StartInv(policy, slice, programs, estimates, cpuCount);
    TimerAlong(s, es, n);
    RunKeepsPlaces(s, es);
    StepTimer(DoAll(s, es), e, n);
  }

  /** A slice that runs out sends the process to the back of the ready queue, and the CPU takes
      the next one, if only the same again. */
  lemma ExpiryRequeues(s: Sim, n: nat)
    requires Inv(s) && s.policy != Lrtf && n < |s.cpus| && Expires(s, n)
    ensures var r, q := CpuTurn(s, n), s.ready + [Pid(s, n)];
      r.current[n] == Some(q[0]) && r.cpus[n] == CpuData(Some(q[0]), s.slice) && r.ready == q[1..]
  {
    BusyCpu(s, n, s.created);
    var p := Pid(s, n);
    ExpiryTakesHead(s, n, p);
    CountdownTurn(s, n, p);
  }

  // ---- One iteration of the supervisor -------------------------------------------------

  function CpuSteps(n: nat): seq<Event> { if n == 0 then [] else CpuSteps(n - 1) + [CpuStep(n - 1)] }

  function IdleSteps(n: nat): seq<Event> { if n == 0 then [] else IdleSteps(n - 1) + [IdleStep(n - 1)] }

  /** Each CPU in turn, the I/O queue, a creation, the clock, then each CPU's idle step. */
  function TickSteps(n: nat): seq<Event> { CpuSteps(n) + [IoStep] + [CreatStep] + [ClockStep] + IdleSteps(n) }

  /** The last event is applied last. */
  ghost function Fold<S, E>(f: (S, E) -> S, s: S, es: seq<E>): S {
    if es == [] then s else f(Fold(f, s, es[..|es| - 1]), es[|es| - 1])
  }

  lemma FoldOne<S, E>(f: (S, E) -> S, s: S, es: seq<E>, r: S, e: E)
    requires Fold(f, s, es) == r
    ensures Fold(f, s, es + [e]) == f(r, e)
  {
    var all := es + [e];
    assert all[..|all| - 1] == es && all[|all| - 1] == e;
  }

  lemma {:induction false} FoldOn<S, E>(f: (S, E) -> S, s: S, es: seq<E>, r: S, fs: seq<E>)
    requires Fold(f, s, es) == r
    ensures Fold(f, s, es + fs) == Fold(f, r, fs)
    decreases |fs|
  {
    if fs == [] {
      assert es + fs == es;
    } else {
      var front, e := fs[..|fs| - 1], fs[|fs| - 1];
      FoldOn(f, s, es, r, front);
      FoldOne(f, s, es + front, Fold(f, r, front), e);
      assert es + fs == es + front + [e];
    }
  }

  /** One step as a function value, the identity on a state without a process table entry per CPU. */
  ghost function StepOf(): (Sim, Event) -> Sim { (s: Sim, e: Event) => if |s.current| == |s.cpus| then Do(s, e) else s }

  lemma {:induction false} DoAllIsFold(s: Sim, es: seq<Event>)
    requires |s.current| == |s.cpus|
    ensures DoAll(s, es) == Fold(StepOf(), s, es)
  {
    if es != [] {
      DoAllIsFold(s, es[..|es| - 1]);
    }
  }

  lemma {:induction false} CpuStepsDone(s: Sim, n: nat, f: (Sim, Event) -> Sim)
    requires n <= |s.current| == |s.cpus| && f == StepOf()
    ensures Fold(f, s, CpuSteps(n)) == CpuTurns(s, n)
  {
    if n > 0 {
      CpuStepsDone(s, n - 1, f);
      FoldOne(f, s, CpuSteps(n - 1), CpuTurns(s, n - 1), CpuStep(n - 1));
      CpuStepIsTurn(CpuTurns(s, n - 1), n - 1);
    }
  }

  lemma CpuStepIsTurn(s: Sim, n: nat)
    requires n < |s.current| == |s.cpus|
    ensures StepOf()(s, CpuStep(n)) == CpuTurn(s, n)
  {
  }

  lemma {:induction false} IdleStepsDone(s: Sim, n: nat, f: (Sim, Event) -> Sim)
    requires n <= |s.current| == |s.cpus| && f == StepOf()
    ensures Fold(f, s, IdleSteps(n)) == IdleTurns(s, n)
  {
    if n > 0 {
      IdleStepsDone(s, n - 1, f);
      FoldOne(f, s, IdleSteps(n - 1), IdleTurns(s, n - 1), IdleStep(n - 1));
      IdleStepIsTurn(s, n);
    }
  }

  lemma IdleStepIsTurn(s: Sim, n: nat)
    requires 0 < n <= |s.current| == |s.cpus|
    ensures StepOf()(IdleTurns(s, n - 1), IdleStep(n - 1)) == IdleTurns(s, n)
  {
  }

  lemma SuperviseIsSteps(s: Sim, es: seq<Event>, r: Sim, f: (Sim, Event) -> Sim)
    requires |r.current| == |r.cpus| && f == StepOf() && Fold(f, s, es) == r
    ensures Fold(f, s, es + [IoStep] + [CreatStep] + [ClockStep]) == Supervise(r)
  {
    var r1 := IoTurn(r);
    var r2 := CreatTurn(r1);
    FoldOne(f, s, es, r, IoStep);
    FoldOne(f, s, es + [IoStep], r1, CreatStep);
    FoldOne(f, s, es + [IoStep] + [CreatStep], r2, ClockStep);
  }

  /** An iteration is exactly these steps, in this order: what holds of all runs of steps holds
      of simulated time. */
  lemma TickIsSteps(s: Sim)
    requires |s.current| == |s.cpus|
    ensures Tick(s) == DoAll(s, TickSteps(|s.cpus|))
  {
    TickIsFold(s, StepOf());
    DoAllIsFold(s, TickSteps(|s.cpus|));
  }

  lemma TickIsFold(s: Sim, f: (Sim, Event) -> Sim)
    requires |s.current| == |s.cpus| && f == StepOf()
    ensures Tick(s) == Fold(f, s, TickSteps(|s.cpus|))
  {
    var n := |s.cpus|;
    var r := CpuTurns(s, n);
    CpuStepsDone(s, n, f);
    SuperviseIsSteps(s, CpuSteps(n), r, f);
    IdleStepsDone(Supervise(r), n, f);
    FoldOn(f, s, CpuSteps(n) + [IoStep] + [CreatStep] + [ClockStep], Supervise(r), IdleSteps(n));
  }
}
