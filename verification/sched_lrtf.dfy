// Longest remaining time first: what pop takes, and when a wake-up preempts.
module SchedLrtf {
  import opened Basics
  import opened SchedModel
  import opened SchedPlace
  import opened SchedSteps

  /** Pop takes the earliest node of greatest time remaining; the others keep their order. */
  lemma PopTakesGreatest(s: Sim, j: nat)
    requires s.policy == Lrtf && j < |s.ready|
    ensures Remaining(s, s.ready[j]) <= Remaining(s, s.ready[PopIndex(s)])
    ensures j < PopIndex(s) ==> Remaining(s, s.ready[j]) < Remaining(s, s.ready[PopIndex(s)])
    ensures j < PopIndex(s) ==> RemoveAt(s.ready, PopIndex(s))[j] == s.ready[j]
    ensures j > PopIndex(s) ==> RemoveAt(s.ready, PopIndex(s))[j - 1] == s.ready[j]
  {
    HighestMeaning(s, s.ready);
    FirstWithMeaning(s, s.ready, Highest(s, s.ready));
  }

  // ---- The scan of a wake-up ---------------------------------------------------

  ghost predicate AnyIdle(s: Sim) {
    exists i: nat :: i < |s.current| && s.current[i].None?
  }

  function OnCpuTime(s: Sim, i: nat): nat
    requires i < |s.current|
  {
    if s.current[i].Some? then Remaining(s, s.current[i].value) else 0
  }

  ghost predicate LowestBelow(s: Sim, i: nat, id: int, low: nat) {
    && i <= |s.current|
    && (forall k: nat :: k < i ==> s.current[k].Some? && low <= OnCpuTime(s, k))
    && (id == -1 ==> low == 10)
    && (id != -1 ==> 0 <= id < i && OnCpuTime(s, id) == low < 10
                     && forall k: nat :: k < id ==> low < OnCpuTime(s, k))
  }

  /** The scan ends at -1 if some CPU idles or all have ten or more ticks left; else at the
      first CPU with the fewest. */
  lemma {:induction false} LowestFrom(s: Sim, i: nat, id: int, low: nat)
    requires LowestBelow(s, i, id, low)
    ensures var (id', low') := Lowest(s, i, low, id);
      if AnyIdle(s) then id' == -1 else LowestBelow(s, |s.current|, id', low')
    decreases |s.current| - i
  {
    if i < |s.current| && s.current[i].Some? {
      var r := Remaining(s, s.current[i].value);
      if r < low {
        LowestFrom(s, i + 1, i, r);
      } else {
        LowestFrom(s, i + 1, id, low);
      }
    }
  }

  /** What the handler's description promises: preempt when no CPU idles and some CPU has less
      time remaining than the process just woken. */
  ghost predicate ShouldPreempt(s: Sim, woken: nat) {
    !AnyIdle(s) && exists i: nat :: i < |s.current| && OnCpuTime(s, i) < Remaining(s, woken)
  }

  ghost predicate SomeBelowTen(s: Sim) {
    exists i: nat :: i < |s.current| && OnCpuTime(s, i) < 10
  }

  /** The CPU a wake-up preempts, -1 for none. */
  function PreemptedBy(s: Sim, woken: nat): int {
    var (id, low) := Lowest(s, 0, 10, -1);
    if id != -1 && low < Remaining(s, woken) then id else -1
  }

  /** A wake-up preempts exactly when the description says so and, because the scan starts from
      the constant 10, some CPU has fewer than ten ticks left; then it takes the first CPU with
      the fewest. */
  lemma WakeUpPreemptsIff(s: Sim, woken: nat)
    ensures PreemptedBy(s, woken) != -1 <==> ShouldPreempt(s, woken) && SomeBelowTen(s)
    ensures PreemptedBy(s, woken) != -1 ==>
      var id := PreemptedBy(s, woken);
      && 0 <= id < |s.current| && OnCpuTime(s, id) < Remaining(s, woken)
      && (forall k: nat :: k < |s.current| ==> OnCpuTime(s, id) <= OnCpuTime(s, k))
      && (forall k: nat :: k < id ==> OnCpuTime(s, id) < OnCpuTime(s, k))
  {
    LowestFrom(s, 0, -1, 10);
    var (id, low) := Lowest(s, 0, 10, -1);
    if id != -1 {
      assert OnCpuTime(s, id) == low;
    }
    if ShouldPreempt(s, woken) && SomeBelowTen(s) {
      var i: nat :| i < |s.current| && OnCpuTime(s, i) < 10;
      var j: nat :| j < |s.current| && OnCpuTime(s, j) < Remaining(s, woken);
      assert low <= OnCpuTime(s, i) && low <= OnCpuTime(s, j);
    }
  }

  /** A wake-up is an admission plus at most one preemption, of that CPU. */
  lemma WakeUpMeaning(s: Sim, p: nat, created: nat)
    requires s.policy == Lrtf && Placed(Push(SetState(s, p, Ready), p), -1, created)
    ensures var s1 := Push(SetState(s, p, Ready), p);
      var id := PreemptedBy(s1, p);
      if id == -1 then WakeUp(s, p) == s1
      else 0 <= id < |s1.cpus| && WakeUp(s, p) == Preempt(s1, id) && s1.current[id].Some?
  {
    var s1 := Push(SetState(s, p, Ready), p);
    WakeUpPreemptsIff(s1, p);
    var id := PreemptedBy(s1, p);
    if id != -1 {
      assert s1.cpus[id].current == s1.current[id];
    }
  }

  // ---- The count the scan runs to ------------------------------------------------

  /** The scan over the first `count` CPUs. */
  function LowestOf(s: Sim, count: nat, i: nat, low: nat, lowId: int): (r: (int, nat))
    requires i <= count <= |s.current|
    decreases count - i
  {
    if i == count then (lowId, low)
    else if s.current[i].None? then (-1, low)
    else if Remaining(s, s.current[i].value) < low then LowestOf(s, count, i + 1, Remaining(s, s.current[i].value), i)
    else LowestOf(s, count, i + 1, low, lowId)
  }

  /** The wake-up handler when its loop runs to `count`. */
  function WakeUpTo(s: Sim, p: nat, count: nat): Sim
    requires count <= |s.current|
  {
    var s1 := Push(SetState(s, p, Ready), p);
    if s.policy != Lrtf then s1
    else
      var (id, low) := LowestOf(s1, count, 0, 10, -1);
      if 0 <= id < |s1.current| && id < |s1.cpus| && low < Remaining(s1, p) then ForcePreempt(s1, id) else s1
  }

  lemma {:induction false} LowestOfAll(s: Sim, i: nat, low: nat, lowId: int)
    requires i <= |s.current|
    ensures LowestOf(s, |s.current|, i, low, lowId) == Lowest(s, i, low, lowId)
    decreases |s.current| - i
  {
    if i < |s.current| && s.current[i].Some? {
      var r := Remaining(s, s.current[i].value);
      if r < low {
        LowestOfAll(s, i + 1, r, i);
      } else {
        LowestOfAll(s, i + 1, low, lowId);
      }
    }
  }

  /** With the number of CPUs it is the handler of the model; with the 0 that the shadowed
      variable leaves in the loop's bound no wake-up ever preempts. */
  lemma WakeUpByCount(s: Sim, p: nat)
    ensures WakeUpTo(s, p, |s.current|) == WakeUp(s, p)
    ensures WakeUpTo(s, p, 0) == Push(SetState(s, p, Ready), p)
  {
    LowestOfAll(Push(SetState(s, p, Ready), p), 0, 10, -1);
  }

  // ---- Who gets the CPU -----------------------------------------------------------

  /** What a CPU gets at a dispatch: a process of the queue with the greatest time remaining. */
  lemma ScheduleGivesGreatest(s: Sim, cpu: nat)
    requires s.policy == Lrtf && cpu < |s.current| && cpu < |s.cpus| && s.ready != []
    ensures Schedule(s, cpu).current[cpu].Some?
    ensures var got := Schedule(s, cpu).current[cpu].value;
      got in s.ready && forall q :: q in s.ready ==> Remaining(s, q) <= Remaining(s, got)
  {
    var i := PopIndex(s);
    forall q | q in s.ready
      ensures Remaining(s, q) <= Remaining(s, s.ready[i])
    {
      var j: nat :| j < |s.ready| && s.ready[j] == q;
      PopTakesGreatest(s, j);
    }
  }

  /** The preempted CPU then gets a process with the greatest time remaining of those ready,
      the one displaced and the one woken. */
  lemma PreemptGivesGreatest(s: Sim, cpu: nat, created: nat)
    requires s.policy == Lrtf && Placed(s, -1, created) && cpu < |s.cpus| && s.current[cpu].Some?
    ensures var victim := s.current[cpu].value;
      var r := Preempt(s, cpu);
      && r.current[cpu].Some?
      && (var got := r.current[cpu].value;
          && (got in s.ready || got == victim)
          && Remaining(s, victim) <= Remaining(s, got)
          && forall q :: q in s.ready ==> Remaining(s, q) <= Remaining(s, got))
  {
    var victim := s.current[cpu].value;
    assert On(s, cpu, victim) && HasState(s, victim, Running);
    var s1 := Push(SetState(s, victim, Ready), victim);
    assert forall q: nat :: Remaining(s1, q) == Remaining(s, q);
    assert s1.ready[|s.ready|] == victim;
    assert forall q :: q in s.ready ==> q in s1.ready;
    ScheduleGivesGreatest(s1, cpu);
  }

  // ---- A run on which the promised preemption does not happen ---------------------------

  /** One CPU and two processes of one burst each. */
  function TwoBursts(t: nat, u: nat, first: nat, second: nat): Sim {
    Start(Lrtf, -1, [[Cpu(t), End], [Cpu(u), End]], [first, second], 1)
  }

  /** After n ticks the first process has run n - 1 of them, alone. */
  function Alone(t: nat, u: nat, second: nat, remaining: nat, n: nat): Sim
    requires 1 <= n <= t
  {
    var timer := -(n as int);
    Sim(Lrtf, -1,
        [Pcb(Running, [Cpu(t + 1 - n), End], 0, remaining), Pcb(New, [Cpu(u), End], 0, second)],
        [], [Some(0)], [CpuData(Some(0), timer)], [], n, 1, 0)
  }

  function RemainingAt(t: nat, first: nat, n: nat): nat
    requires 1 <= n <= t
  {
    if n == 1 then first else t + 2 - n
  }

  lemma FirstTickAlone(t: nat, u: nat, first: nat, second: nat)
    requires t >= 1
    ensures Tick(TwoBursts(t, u, first, second)) == Alone(t, u, second, first, 1)
  {
    var s := TwoBursts(t, u, first, second);
    assert s.procs == [Pcb(New, [Cpu(t), End], 0, first), Pcb(New, [Cpu(u), End], 0, second)];
    assert CpuTurns(s, 0) == s && CpuTurns(s, 1) == s && IoTurn(s) == s;
    var s1 := Push(SetState(s, 0, Ready), 0);
    assert WakeUp(s, 0) == s1;
    var s2 := s1.(created := 1, time := 1);
    assert Supervise(s) == s2;
    assert s2.ready == [0] && PopIndex(s2) == 0 && RemoveAt([0], 0) == [];
    assert Schedule(s2, 0).procs == Alone(t, u, second, first, 1).procs;
    assert IdleTurns(s2, 0) == s2 && IdleTurns(s2, 1) == Idle(s2, 0);
  }

  /** The CPU turn of a tick in which the first process runs on. */
  lemma TurnAlone(t: nat, u: nat, second: nat, remaining: nat, n: nat)
    requires 1 <= n < t
    ensures var s := Alone(t, u, second, remaining, n);
      && |s.current| == |s.cpus| == 1
      && CpuTurns(s, 1) == Alone(t, u, second, t + 1 - n, n + 1).(time := n)
  {
    var s := Alone(t, u, second, remaining, n);
    assert CpuTurns(s, 0) == s;
    assert s.procs[0].ops[0 := Cpu(t - n)] == [Cpu(t - n), End];
  }

  /** A whole tick with nothing to create. */
  lemma TickAlone(t: nat, u: nat, second: nat, remaining: nat, n: nat)
    requires 1 <= n < t && n % 10 != 0
    ensures var s := Alone(t, u, second, remaining, n);
      |s.current| == |s.cpus| && Tick(s) == Alone(t, u, second, t + 1 - n, n + 1)
  {
    TurnAlone(t, u, second, remaining, n);
    var s := Alone(t, u, second, t + 1 - n, n + 1);
    assert IdleTurns(s, 0) == s && IdleTurns(s, 1) == s;
  }

  ghost predicate AloneAt(t: nat, u: nat, first: nat, second: nat, s: Sim, n: nat) {
    n <= 10 <= t ==> s == if n == 0 then TwoBursts(t, u, first, second) else Alone(t, u, second, RemainingAt(t, first, n), n)
  }

  lemma AloneNext(t: nat, u: nat, first: nat, second: nat, s: Sim, n: nat)
    requires AloneAt(t, u, first, second, s, n) && |s.current| == |s.cpus|
    ensures AloneAt(t, u, first, second, Tick(s), n + 1)
  {
    if n < 10 <= t {
      if n == 0 {
        FirstTickAlone(t, u, first, second);
      } else {
        TickAlone(t, u, second, RemainingAt(t, first, n), n);
      }
    }
  }

  lemma RunsAlone(t: nat, u: nat, first: nat, second: nat, n: nat)
    ensures AloneAt(t, u, first, second, Ticks(TwoBursts(t, u, first, second), n), n)
  {
    var holds := (s: Sim, k: nat) => AloneAt(t, u, first, second, s, k);
    forall s: Sim, k: nat | SameMachine(TwoBursts(t, u, first, second), s) && holds(s, k)
      ensures holds(Tick(s), k + 1)
    {
      AloneNext(t, u, first, second, s, k);
    }
    TicksInduct(TwoBursts(t, u, first, second), n, holds);
  }

  /** The description is not met on this run: in its eleventh tick the second process is created
      with more time remaining than the first, which runs on the only CPU with ten ticks or more
      left, and is not displaced by it. */
  lemma LongWakeUpNotPreempting(t: nat, u: nat, first: nat, second: nat)
    requires t >= 19 && second > t - 9
    ensures var s := IoTurn(CpuTurns(Ticks(TwoBursts(t, u, first, second), 10), 1));
      var woken := Push(SetState(s, 1, Ready), 1);
      && Remaining(woken, 0) == t - 9 && Remaining(woken, 1) == second && ShouldPreempt(woken, 1)
      && WakeUp(s, 1) == woken && CreatTurn(s) == woken.(created := 2) && woken.current == [Some(0)]
  {
    RunsAlone(t, u, first, second, 10);
    NotDisplaced(t, u, second, RemainingAt(t, first, 10));
  }

  lemma NotDisplaced(t: nat, u: nat, second: nat, remaining: nat)
    requires t >= 19 && second > t - 9
    ensures var s := IoTurn(CpuTurns(Alone(t, u, second, remaining, 10), 1));
      var woken := Push(SetState(s, 1, Ready), 1);
      && Remaining(woken, 0) == t - 9 && Remaining(woken, 1) == second && ShouldPreempt(woken, 1)
      && WakeUp(s, 1) == woken && CreatTurn(s) == woken.(created := 2) && woken.current == [Some(0)]
  {
    TurnAlone(t, u, second, remaining, 10);
    var s := IoTurn(CpuTurns(Alone(t, u, second, remaining, 10), 1));
    var woken := Push(SetState(s, 1, Ready), 1);
    assert OnCpuTime(woken, 0) == t - 9;
    assert Lowest(woken, 1, 10, -1) == (-1, 10);
    assert Lowest(woken, 0, 10, -1) == (-1, 10);
  }
}
