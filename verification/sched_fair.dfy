// Queues are first in, first out, and round robin serves every ready process within
// a bounded number of ticks.
module SchedFair {
  import opened Basics
  import opened SchedModel
  import opened SchedPlace
  import opened SchedSteps
  import opened SchedWork
  import opened SchedFinish

  // ---- Arrivals and departures ---------------------------------------------------

  predicate Busy(s: Sim, n: nat) { n < |s.cpus| && s.cpus[n].current.Some? }

  function Pid(s: Sim, n: nat): nat { if Busy(s, n) then s.cpus[n].current.value else 0 }

  function TicksOfBurst(s: Sim, n: nat): int {
    var p := Pid(s, n);
    if Busy(s, n) && p < |s.procs| && s.procs[p].pc < |s.procs[p].ops| && s.procs[p].ops[s.procs[p].pc].Cpu?
    then s.procs[p].ops[s.procs[p].pc].time else -1
  }

  /** A turn in which the slice runs out before the burst does. */
  predicate Expires(s: Sim, n: nat) { TicksOfBurst(s, n) > 0 && s.cpus[n].timer == 1 }

  /** A turn that finds the burst done. */
  predicate BurstEnds(s: Sim, n: nat) { TicksOfBurst(s, n) == 0 }

  predicate ToIo(s: Sim, n: nat) {
    BurstEnds(s, n) && var pcb := s.procs[Pid(s, n)]; pcb.pc + 1 < |pcb.ops| && pcb.ops[pcb.pc + 1].Io?
  }

  predicate IoDone(s: Sim, e: Event) { e.IoStep? && s.io != [] && s.io[0].time == 0 }

  /** The process that joins the back of the ready queue in a step. */
  function Enters(s: Sim, e: Event): seq<nat> {
    if e.CpuStep? && Expires(s, e.cpu) then [Pid(s, e.cpu)]
    else if IoDone(s, e) then [s.io[0].pid]
    else if e.CreatStep? && s.time % 10 == 0 && s.created < |s.procs| then [s.created]
    else []
  }

  /** The process that a step puts on a CPU. */
  function Dispatched(s: Sim, e: Event): seq<nat>
    requires |s.current| == |s.cpus|
  {
    if e.CpuStep? && (Expires(s, e.cpu) || BurstEnds(s, e.cpu)) && Do(s, e).current[e.cpu].Some?
    then [Do(s, e).current[e.cpu].value]
    else if e.IdleStep? && e.cpu < |s.cpus| && s.cpus[e.cpu].current.None? && Do(s, e).current[e.cpu].Some?
    then [Do(s, e).current[e.cpu].value]
    else []
  }

  // ---- First in, first out -----------------------------------------------------

  lemma ScheduleFifo(s: Sim, cpu: nat)
    requires s.policy != Lrtf && cpu < |s.current| && cpu < |s.cpus|
    ensures Schedule(s, cpu).ready == (if s.ready == [] then [] else s.ready[1..])
    ensures Schedule(s, cpu).current[cpu] == (if s.ready == [] then None else Some(s.ready[0]))
  {
  }

  lemma CpuTurnFifo(s: Sim, cpu: nat)
    requires Inv(s) && s.policy != Lrtf && cpu < |s.cpus|
    ensures s.ready + Enters(s, CpuStep(cpu)) == Dispatched(s, CpuStep(cpu)) + CpuTurn(s, cpu).ready
  {
    if Busy(s, cpu) {
      BusyCpu(s, cpu, s.created);
      var p := Pid(s, cpu);
      if TimeLeft(s, p) > 0 {
        ExpiryFifo(s, cpu, p);
      } else {
        BurstEndFifo(s, cpu, p);
      }
    }
  }

  /** A dispatch takes the head of the queue, if there is one. */
  ghost predicate TakesHead(q: seq<nat>, r: Sim, cpu: nat) {
    && cpu < |r.current| && r.ready == (if q == [] then [] else q[1..])
    && r.current[cpu] == (if q == [] then None else Some(q[0]))
  }

  lemma HeadFirst(q: seq<nat>, r: Sim, cpu: nat)
    requires TakesHead(q, r, cpu)
    ensures q == (if r.current[cpu].Some? then [r.current[cpu].value] else []) + r.ready
  {
  }

  lemma ExpiryTakesHead(s: Sim, cpu: nat, p: nat)
    requires s.policy != Lrtf && AtBurst(s, cpu, p) && TimeLeft(s, p) > 0 && s.cpus[cpu].timer == 1
    ensures TakesHead(s.ready + [p], CpuTurn(s, cpu), cpu)
  {
    CountdownTurn(s, cpu, p);
    ScheduleFifo(Push(SetState(Countdown(s, cpu, p), p, Ready), p), cpu);
  }

  lemma ExpiryFifo(s: Sim, cpu: nat, p: nat)
    requires s.policy != Lrtf && AtBurst(s, cpu, p) && TimeLeft(s, p) > 0
    ensures s.ready + Enters(s, CpuStep(cpu)) == Dispatched(s, CpuStep(cpu)) + CpuTurn(s, cpu).ready
  {
    if Expires(s, cpu) {
      ExpiryTakesHead(s, cpu, p);
      HeadFirst(s.ready + [p], CpuTurn(s, cpu), cpu);
    } else {
      CountdownTurn(s, cpu, p);
      assert s.ready + [] == s.ready == [] + s.ready;
    }
  }

  lemma BurstEndTakesHead(s: Sim, cpu: nat, p: nat)
    requires s.policy != Lrtf && AtBurst(s, cpu, p) && Ending(s, p)
    ensures TakesHead(s.ready, CpuTurn(s, cpu), cpu)
  {
    BurstEndTurn(s, cpu, p);
    ScheduleFifo(BurstDone(s, p), cpu);
  }

  lemma BurstEndFifo(s: Sim, cpu: nat, p: nat)
    requires s.policy != Lrtf && AtBurst(s, cpu, p) && Ending(s, p)
    ensures s.ready + Enters(s, CpuStep(cpu)) == Dispatched(s, CpuStep(cpu)) + CpuTurn(s, cpu).ready
  {
    BurstEndTakesHead(s, cpu, p);
    HeadFirst(s.ready, CpuTurn(s, cpu), cpu);
    assert s.ready + [] == s.ready;
  }

  lemma IdleFifo(s: Sim, n: nat)
    requires s.policy != Lrtf && n < |s.cpus| == |s.current| && s.cpus[n].current == s.current[n]
    ensures s.ready == Dispatched(s, IdleStep(n)) + Idle(s, n).ready
  {
    if s.cpus[n].current.None? && s.ready != [] {
      ScheduleFifo(s, n);
      HeadFirst(s.ready, Schedule(s, n), n);
    }
  }

  lemma StepFifo(s: Sim, e: Event)
    requires Inv(s) && s.policy != Lrtf
    ensures s.ready + Enters(s, e) == Dispatched(s, e) + Do(s, e).ready
  {
    match e {
      case CpuStep(n) =>
        if n < |s.cpus| { CpuTurnFifo(s, n); }
      case IdleStep(n) =>
        if n < |s.cpus| { IdleFifo(s, n); }
      case IoStep =>
        if s.io != [] { assert Queued(s, 0, s.io[0].pid); assert HasState(s, s.io[0].pid, Waiting); }
      case CreatStep =>
      case ClockStep =>
    }
  }

  function Entered(s: Sim, es: seq<Event>): seq<nat>
    requires |s.current| == |s.cpus|
  {
    if es == [] then [] else Entered(s, es[..|es| - 1]) + Enters(DoAll(s, es[..|es| - 1]), es[|es| - 1])
  }

  function DispatchOrder(s: Sim, es: seq<Event>): seq<nat>
    requires |s.current| == |s.cpus|
  {
    if es == [] then [] else DispatchOrder(s, es[..|es| - 1]) + Dispatched(DoAll(s, es[..|es| - 1]), es[|es| - 1])
  }

  lemma Regroup(a: seq<nat>, b: seq<nat>, c: seq<nat>, d: seq<nat>, e: seq<nat>, f: seq<nat>)
    requires a + b == c + d && d + e == f
    ensures a + (b + e) == c + f
  {
    assert a + (b + e) == (a + b) + e;
  }

  lemma Associate(a: seq<nat>, b: seq<nat>, c: seq<nat>)
    ensures a + b + c == a + (b + c)
  {
  }

  /** Under FIFO and round robin dispatch order is queue-entry order: on every run the queue at
      the start with everything that entered is everything dispatched with the queue at the end. */
  lemma {:induction false} DispatchInEntryOrder(s: Sim, es: seq<Event>)
    requires Inv(s) && s.policy != Lrtf
    ensures s.ready + Entered(s, es) == DispatchOrder(s, es) + DoAll(s, es).ready
  {
    if es != [] {
      var front := es[..|es| - 1];
      var r, e := DoAll(s, front), es[|es| - 1];
      DispatchInEntryOrder(s, front);
      RunKeepsPlaces(s, front);
      StepFifo(r, e);
      Regroup(s.ready, Entered(s, front), DispatchOrder(s, front), r.ready, Enters(r, e),
              Dispatched(r, e) + DoAll(s, es).ready);
      Associate(DispatchOrder(s, front), Dispatched(r, e), DoAll(s, es).ready);
    }
  }

  // ---- I/O in submission order ---------------------------------------------------

  function Pids(io: seq<IoRequest>): seq<nat> {
    seq(|io|, i requires 0 <= i < |io| => io[i].pid)
  }

  function Submits(s: Sim, e: Event): seq<nat> {
    if e.CpuStep? && ToIo(s, e.cpu) then [Pid(s, e.cpu)] else []
  }

  function Completes(s: Sim, e: Event): seq<nat> {
    if IoDone(s, e) then [s.io[0].pid] else []
  }

  lemma BurstDoneIo(s: Sim, n: nat, p: nat)
    requires AtBurst(s, n, p) && Ending(s, p)
    ensures Pids(s.io) + Submits(s, CpuStep(n)) == Pids(CpuTurn(s, n).io)
  {
    BurstEndTurn(s, n, p);
    ScheduleSame(BurstDone(s, p), n);
    assert Pids(BurstDone(s, p).io) == Pids(s.io) + Submits(s, CpuStep(n));
  }

  lemma CpuStepIo(s: Sim, n: nat)
    requires Inv(s) && Busy(s, n)
    ensures Pids(s.io) + Submits(s, CpuStep(n)) == Pids(CpuTurn(s, n).io)
  {
    BusyCpu(s, n, s.created);
    var p := Pid(s, n);
    if TimeLeft(s, p) == 0 {
      BurstDoneIo(s, n, p);
    } else {
      CountdownIoSame(s, n, p);
    }
  }

  lemma CountdownIoSame(s: Sim, n: nat, p: nat)
    requires AtBurst(s, n, p) && TimeLeft(s, p) > 0
    ensures Pids(s.io) + Submits(s, CpuStep(n)) == Pids(CpuTurn(s, n).io)
  {
    CountdownTurn(s, n, p);
    PreemptSame(Countdown(s, n, p), n);
    assert Pids(s.io) + [] == Pids(s.io);
  }

  lemma IoStepIo(s: Sim)
    requires Inv(s) && s.io != []
    ensures Pids(s.io) == Completes(s, IoStep) + Pids(IoTurn(s).io)
  {
    var p := s.io[0].pid;
    assert Queued(s, 0, p) && HasState(s, p, Waiting);
    if IoDone(s, IoStep) {
      IoFinishedTurn(s);
      WakeUpSame(IoFinished(s), p);
    }
  }

  /** Handlers leave the I/O queue alone. */
  lemma StepIo(s: Sim, e: Event)
    requires Inv(s)
    ensures Pids(s.io) + Submits(s, e) == Completes(s, e) + Pids(Do(s, e).io)
  {
    match e {
      case CpuStep(n) =>
        if Busy(s, n) { CpuStepIo(s, n); }
      case IdleStep(n) =>
        if n < |s.cpus| { ScheduleSame(s, n); }
      case IoStep =>
        if s.io != [] { IoStepIo(s); }
      case CreatStep => WakeUpSame(s, s.created);
      case ClockStep =>
    }
  }

  function Submitted(s: Sim, es: seq<Event>): seq<nat>
    requires |s.current| == |s.cpus|
  {
    if es == [] then [] else Submitted(s, es[..|es| - 1]) + Submits(DoAll(s, es[..|es| - 1]), es[|es| - 1])
  }

  function Completed(s: Sim, es: seq<Event>): seq<nat>
    requires |s.current| == |s.cpus|
  {
    if es == [] then [] else Completed(s, es[..|es| - 1]) + Completes(DoAll(s, es[..|es| - 1]), es[|es| - 1])
  }

  /** Under every policy I/O requests complete in submission order. */
  lemma {:induction false} IoInSubmissionOrder(s: Sim, es: seq<Event>)
    requires Inv(s)
    ensures Pids(s.io) + Submitted(s, es) == Completed(s, es) + Pids(DoAll(s, es).io)
  {
    if es != [] {
      var front := es[..|es| - 1];
      var r, e := DoAll(s, front), es[|es| - 1];
      IoInSubmissionOrder(s, front);
      RunKeepsPlaces(s, front);
      StepIo(r, e);
      Regroup(Pids(s.io), Submitted(s, front), Completed(s, front), Pids(r.io), Submits(r, e),
              Completes(r, e) + Pids(DoAll(s, es).io));
      Associate(Completed(s, front), Completes(r, e), Pids(DoAll(s, es).io));
    }
  }

  // ---- Round robin -------------------------------------------------------------

  /** While slices are positive, a busy CPU's timer is between 1 and the slice. */
  ghost predicate Timers(s: Sim) {
    s.slice >= 1 && forall m: nat :: m < |s.cpus| && s.cpus[m].current.Some? ==> 1 <= s.cpus[m].timer <= s.slice
  }

  lemma ScheduleTimers(s: Sim, cpu: nat)
    requires cpu < |s.cpus| == |s.current| && s.slice >= 1
    requires forall m: nat :: m < |s.cpus| && m != cpu && s.cpus[m].current.Some? ==> 1 <= s.cpus[m].timer <= s.slice
    ensures Timers(Schedule(s, cpu))
  {
  }

  /** Ticks that q may still wait, counted at CPU 0: its timer, then a slice per place. */
  function Wait(s: Sim, pos: nat): int
    requires |s.cpus| >= 1
  {
    pos * s.slice + s.cpus[0].timer
  }

  /** q stands in the queue with at most b ticks to wait, CPU 0 busy. */
  ghost predicate WaitsAt(s: Sim, q: nat, b: int, pos: nat) {
    && |s.cpus| >= 1 && s.cpus[0].current.Some?
    && pos < |s.ready| && s.ready[pos] == q && Wait(s, pos) <= b
  }

  /** q already runs on a CPU below n, or waits at most b ticks. */
  ghost predicate Served(s: Sim, q: nat, n: nat, b: int) {
    (exists c: nat :: c < n && On(s, c, q)) || (exists pos: nat :: WaitsAt(s, q, b, pos))
  }

  lemma SliceMonotone(pos: nat, slice: int)
    requires pos >= 1
    ensures (pos - 1) * slice + slice == pos * slice
  {
  }

  /** Dispatching on CPU n, from a state where q waits at pos behind a full slice's slack on CPU 0. */
  lemma ScheduleServes(s: Sim, n: nat, q: nat, b: int, pos: nat)
    requires s.policy == RoundRobin && s.slice >= 1 && n < |s.cpus| == |s.current|
    requires pos < |s.ready| && s.ready[pos] == q
    requires if n == 0 then pos * s.slice <= b else s.cpus[0].current.Some? && Wait(s, pos) <= b
    ensures Served(Schedule(s, n), q, n + 1, b)
  {
    ScheduleFifo(s, n);
    var r := Schedule(s, n);
    if pos == 0 {
      assert On(r, n, q);
    } else {
      SliceMonotone(pos, s.slice);
      assert r.ready[pos - 1] == q;
      assert WaitsAt(r, q, b, pos - 1);
    }
  }

  /** CPU n's turn: q, if running on an earlier CPU, stays there; else its wait does not grow,
      and drops by one when n is 0. */
  lemma CpuTurnServes(s: Sim, n: nat, q: nat, b: int, created: nat)
    requires Placed(s, -1, created) && Timers(s) && s.policy == RoundRobin && n < |s.cpus|
    requires Served(s, q, n, b)
    ensures Timers(CpuTurn(s, n))
    ensures Served(CpuTurn(s, n), q, n + 1, if n == 0 then b - 1 else b)
  {
    CpuTurnTimers(s, n, created);
    if c: nat :| c < n && On(s, c, q) {
      StaysOn(s, n, c, q);
    } else {
      var pos: nat :| WaitsAt(s, q, b, pos);
      CpuTurnWaits(s, n, q, b, pos, created);
    }
  }

  lemma StaysOn(s: Sim, n: nat, c: nat, q: nat)
    requires n < |s.current| && n < |s.cpus| && c < n && On(s, c, q)
    ensures On(CpuTurn(s, n), c, q)
  {
  }

  lemma CpuTurnTimers(s: Sim, n: nat, created: nat)
    requires Placed(s, -1, created) && Timers(s) && n < |s.cpus|
    ensures Timers(CpuTurn(s, n))
  {
    if s.cpus[n].current.Some? {
      BusyCpu(s, n, created);
      var p := s.cpus[n].current.value;
      if TimeLeft(s, p) > 0 {
        CountdownTimers(s, n, p);
      } else {
        BurstEndTimers(s, n, p);
      }
    }
  }

  lemma BurstEndTimers(s: Sim, n: nat, p: nat)
    requires Timers(s) && AtBurst(s, n, p) && Ending(s, p)
    ensures Timers(CpuTurn(s, n))
  {
    BurstEndTurn(s, n, p);
    ScheduleTimers(BurstDone(s, p), n);
  }

  lemma CountdownTimers(s: Sim, n: nat, p: nat)
    requires Timers(s) && AtBurst(s, n, p) && TimeLeft(s, p) > 0
    ensures Timers(CpuTurn(s, n))
  {
    var t := Countdown(s, n, p);
    if s.cpus[n].timer == 1 {
      ScheduleTimers(Push(SetState(t, p, Ready), p), n);
    } else {
      assert CpuTurn(s, n) == t;
    }
  }

  lemma CpuTurnWaits(s: Sim, n: nat, q: nat, b: int, pos: nat, created: nat)
    requires Placed(s, -1, created) && Timers(s) && s.policy == RoundRobin && n < |s.cpus|
    requires WaitsAt(s, q, b, pos)
    ensures Served(CpuTurn(s, n), q, n + 1, if n == 0 then b - 1 else b)
  {
    var after := if n == 0 then b - 1 else b;
    if s.cpus[n].current.None? {
      assert WaitsAt(CpuTurn(s, n), q, after, pos);
    } else {
      BusyCpu(s, n, created);
      var p := s.cpus[n].current.value;
      if TimeLeft(s, p) > 0 {
        CountdownWaits(s, n, p, q, b, pos);
      } else {
        BurstEndTurn(s, n, p);
        ScheduleServes(BurstDone(s, p), n, q, after, pos);
      }
    }
  }

  lemma CountdownWaits(s: Sim, n: nat, p: nat, q: nat, b: int, pos: nat)
    requires Timers(s) && s.policy == RoundRobin && AtBurst(s, n, p) && TimeLeft(s, p) > 0
    requires WaitsAt(s, q, b, pos)
    ensures Served(CpuTurn(s, n), q, n + 1, if n == 0 then b - 1 else b)
  {
    var after := if n == 0 then b - 1 else b;
    var t := Countdown(s, n, p);
    if s.cpus[n].timer == 1 {
      ScheduleServes(Push(SetState(t, p, Ready), p), n, q, after, pos);
    } else {
      assert CpuTurn(s, n) == t;
      assert WaitsAt(t, q, after, pos);
    }
  }

  // ---- Round robin over a tick ---------------------------------------------------

  /** After the turns of CPUs 0..k-1, from a state where q may wait b ticks. */
  ghost predicate TurnServed(t: Sim, k: nat, q: nat, b: int) {
    && Inv(t) && t.policy == RoundRobin && Timers(t) && k <= |t.cpus|
    && Served(t, q, k, if k == 0 then b else b - 1)
  }

  lemma OneMoreServed(t: Sim, k: nat, q: nat, b: int)
    requires TurnServed(t, k, q, b) && k < |t.cpus|
    ensures TurnServed(CpuTurn(t, k), k + 1, q, b)
  {
    CpuTurnServes(t, k, q, if k == 0 then b else b - 1, t.created);
    TurnWork(t, k);
  }

  lemma TurnsServe(s: Sim, q: nat, b: int, pos: nat)
    requires Inv(s) && Timers(s) && s.policy == RoundRobin && WaitsAt(s, q, b, pos)
    ensures TurnServed(CpuTurns(s, |s.cpus|), |s.cpus|, q, b)
  {
    var holds := (t: Sim, k: nat) => TurnServed(t, k, q, b);
    forall t: Sim, k: nat | k < |s.cpus| && SameMachine(s, t) && holds(t, k)
      ensures k < |t.current| && holds(CpuTurn(t, k), k + 1)
    {
      OneMoreServed(t, k, q, b);
    }
    TurnsInduct(s, |s.cpus|, holds);
  }

  /** Pushing a process behind q costs q nothing. */
  lemma PushServes(s: Sim, r: Sim, q: nat, n: nat, b: int)
    requires Served(s, q, n, b) && r.current == s.current && r.cpus == s.cpus && r.slice == s.slice
    requires s.ready <= r.ready
    ensures Served(r, q, n, b)
  {
    if c: nat :| c < n && On(s, c, q) {
      assert On(r, c, q);
    } else {
      var pos: nat :| WaitsAt(s, q, b, pos);
      assert WaitsAt(r, q, b, pos);
    }
  }

  /** Under round robin, I/O and creation only push. */
  lemma SuperviseServes(s: Sim, q: nat, n: nat, b: int)
    requires |s.current| == |s.cpus| && s.policy == RoundRobin && Timers(s) && Served(s, q, n, b)
    ensures Timers(Supervise(s)) && Served(Supervise(s), q, n, b)
  {
    var s1 := IoTurn(s);
    PushServes(s, s1, q, n, b);
    var s2 := CreatTurn(s1);
    PushServes(s1, s2, q, n, b);
    PushServes(s2, Supervise(s), q, n, b);
  }

  lemma IdleServes(s: Sim, n: nat, q: nat, b: int)
    requires |s.current| == |s.cpus| && s.policy == RoundRobin && Timers(s) && n < |s.cpus|
    requires s.cpus[n].current == s.current[n] && Served(s, q, |s.cpus|, b)
    ensures Timers(Idle(s, n)) && Served(Idle(s, n), q, |s.cpus|, b)
  {
    if s.cpus[n].current.None? && s.ready != [] {
      ScheduleTimers(s, n);
      if c: nat :| c < |s.cpus| && On(s, c, q) {
        assert On(Idle(s, n), c, q);
      } else {
        var pos: nat :| WaitsAt(s, q, b, pos);
        ScheduleServes(s, n, q, b, pos);
        var r := Schedule(s, n);
        if c: nat :| c < n + 1 && On(r, c, q) {
          assert c < |s.cpus|;
        }
      }
    }
  }

  ghost predicate IdleServed(t: Sim, q: nat, b: int) {
    Inv(t) && t.policy == RoundRobin && Timers(t) && Served(t, q, |t.cpus|, b)
  }

  lemma OneIdleServed(t: Sim, k: nat, q: nat, b: int)
    requires IdleServed(t, q, b) && k < |t.cpus|
    ensures IdleServed(Idle(t, k), q, b)
  {
    IdleServes(t, k, q, b);
    IdleWork(t, k);
  }

  lemma IdleTurnsServe(s: Sim, q: nat, b: int)
    requires IdleServed(s, q, b)
    ensures IdleServed(IdleTurns(s, |s.cpus|), q, b)
  {
    var holds := (t: Sim, k: nat) => IdleServed(t, q, b);
    forall t: Sim, k: nat | k < |s.cpus| && SameMachine(s, t) && holds(t, k)
      ensures k < |t.current| && holds(Idle(t, k), k + 1)
    {
      OneIdleServed(t, k, q, b);
    }
    IdleInduct(s, |s.cpus|, holds);
  }

  lemma TickServes(s: Sim, q: nat, b: int, pos: nat)
    requires Live(s) && Timers(s) && s.policy == RoundRobin && WaitsAt(s, q, b, pos)
    ensures Timers(Tick(s)) && Served(Tick(s), q, |s.cpus|, b - 1)
  {
    TurnsServe(s, q, b, pos);
    CpusKeep(s);
    AfterTurnsServe(CpuTurns(s, |s.cpus|), q, b - 1);
  }

  lemma AfterTurnsServe(t: Sim, q: nat, b: int)
    requires Inv(t) && OnSchedule(t) && Timers(t) && t.policy == RoundRobin && Served(t, q, |t.cpus|, b)
    ensures IdleServed(IdleTurns(Supervise(t), |t.cpus|), q, b)
  {
    SuperviseServes(t, q, |t.cpus|, b);
    SuperviseKeeps(t);
    IdleTurnsServe(Supervise(t), q, b);
  }

  /** q is on some CPU. */
  ghost predicate OnSomeCpu(s: Sim, q: nat) {
    exists c: nat :: On(s, c, q)
  }

  ghost predicate ServedWithin(s: Sim, q: nat, b: int)
    requires |s.current| == |s.cpus|
  {
    exists j: nat :: 1 <= j <= b && OnSomeCpu(Ticks(s, j), q)
  }

  lemma TicksUnfold(s: Sim, n: nat)
    requires |s.current| == |s.cpus|
    ensures Ticks(s, n + 1) == Tick(Ticks(s, n))
  {
  }

  /** Runs of ticks from s and from t, the latter one tick ahead. */
  ghost predicate OneAhead(s: Sim, t: Sim, n: nat) {
    |s.current| == |s.cpus| && |t.current| == |t.cpus| && Ticks(t, n) == Ticks(s, n + 1)
  }

  lemma StaysAhead(s: Sim, t: Sim, n: nat)
    requires OneAhead(s, t, n)
    ensures OneAhead(s, t, n + 1)
  {
    TicksUnfold(t, n);
    TicksUnfold(s, n + 1);
  }

  lemma {:induction false} TicksShift(s: Sim, t: Sim, n: nat)
    requires OneAhead(s, t, 0)
    ensures OneAhead(s, t, n)
  {
    var holds: nat -> bool := (k: nat) => OneAhead(s, t, k);
    forall k: nat | holds(k)
      ensures holds(k + 1)
    {
      StaysAhead(s, t, k);
    }
    assert holds(0);
    UpTo(holds, n);
    assert holds(n);
  }

  lemma {:induction false} UpTo(holds: nat -> bool, n: nat)
    requires holds(0) && forall k: nat :: holds(k) ==> holds(k + 1)
    ensures holds(n)
  {
    if n > 0 {
      UpTo(holds, n - 1);
      assert holds(n - 1) ==> holds(n - 1 + 1);
    }
  }

  lemma FirstTick(s: Sim)
    requires |s.current| == |s.cpus|
    ensures Ticks(s, 1) == Tick(s)
  {
    TicksUnfold(s, 0);
  }

  /** Process q is ready, to be dispatched within b ticks. */
  ghost predicate Waits(s: Sim, q: nat, b: int) {
    exists pos: nat :: WaitsAt(s, q, b, pos)
  }

  lemma OneTickServes(s: Sim, q: nat, b: int, pos: nat)
    requires Live(s) && Timers(s) && s.policy == RoundRobin && WaitsAt(s, q, b, pos)
    ensures b >= 1 && Live(Tick(s)) && Timers(Tick(s))
    ensures OnSomeCpu(Tick(s), q) || Waits(Tick(s), q, b - 1)
  {
    TickKeeps(s);
    TickServes(s, q, b, pos);
    WaitPositive(s, pos);
  }

  lemma WaitPositive(s: Sim, pos: nat)
    requires Timers(s) && |s.cpus| >= 1 && s.cpus[0].current.Some?
    ensures Wait(s, pos) >= 1 && Wait(s, pos) <= (pos + 1) * s.slice
  {
  }

  lemma WithinLater(s: Sim, q: nat, b: int)
    requires |s.current| == |s.cpus| && ServedWithin(Tick(s), q, b - 1)
    ensures ServedWithin(s, q, b)
  {
    var j: nat :| 1 <= j <= b - 1 && OnSomeCpu(Ticks(Tick(s), j), q);
    FirstTick(s);
    TicksShift(s, Tick(s), j);
    assert OnSomeCpu(Ticks(s, j + 1), q);
  }

  lemma {:induction false} WaitsThenRuns(s: Sim, q: nat, b: int, pos: nat)
    requires Live(s) && Timers(s) && s.policy == RoundRobin && WaitsAt(s, q, b, pos)
    ensures ServedWithin(s, q, b)
    decreases b
  {
    OneTickServes(s, q, b, pos);
    var r := Tick(s);
    if OnSomeCpu(r, q) {
      FirstTick(s);
      assert OnSomeCpu(Ticks(s, 1), q);
    } else {
      var next: nat :| WaitsAt(r, q, b - 1, next);
      WaitsThenRuns(r, q, b - 1, next);
      WithinLater(s, q, b);
    }
  }

  /** With slice k > 0, a ready process with `pos` others ahead of it is on a CPU within
      (pos + 1) * k ticks, for any number of CPUs. */
  lemma RoundRobinBound(s: Sim, q: nat, pos: nat)
    requires Live(s) && Timers(s) && s.policy == RoundRobin && |s.cpus| >= 1
    requires pos < |s.ready| && s.ready[pos] == q
    ensures ServedWithin(s, q, (pos + 1) * s.slice)
  {
    assert s.cpus[0].current.Some?;
    WaitPositive(s, pos);
    WaitsThenRuns(s, q, (pos + 1) * s.slice, pos);
  }

  /** Between ticks, while slices are positive. */
  ghost predicate Sliced(t: Sim) {
    Live(t) && Timers(t) && t.policy == RoundRobin && |t.cpus| >= 1
  }

  lemma TickSliced(t: Sim)
    requires Sliced(t)
    ensures Sliced(Tick(t))
  {
    TickKeeps(t);
    TurnsTimers(t);
    CpusKeep(t);
    AfterTurnsTimers(CpuTurns(t, |t.cpus|));
  }

  lemma AfterTurnsTimers(t: Sim)
    requires |t.current| == |t.cpus| && t.policy == RoundRobin && Timers(t)
    ensures Timers(IdleTurns(Supervise(t), |t.cpus|))
  {
    assert Timers(Supervise(t));
    IdleTurnsTimers(Supervise(t));
  }

  /** From the start of the simulation every state between ticks is such a state. */
  lemma TicksKeepTimers(s: Sim, n: nat)
    requires Sliced(s)
    ensures Sliced(Ticks(s, n))
  {
    var holds := (t: Sim, k: nat) => Sliced(t);
    forall t: Sim, k: nat | SameMachine(s, t) && holds(t, k)
      ensures holds(Tick(t), k + 1)
    {
      TickSliced(t);
    }
    TicksInduct(s, n, holds);
  }

  lemma TurnsTimers(s: Sim)
    requires Inv(s) && Timers(s)
    ensures Timers(CpuTurns(s, |s.cpus|))
  {
    var holds := (t: Sim, k: nat) => Inv(t) && Timers(t);
    forall t: Sim, k: nat | k < |s.cpus| && SameMachine(s, t) && holds(t, k)
      ensures k < |t.current| && holds(CpuTurn(t, k), k + 1)
    {
      CpuTurnTimers(t, k, t.created);
      TurnWork(t, k);
    }
    TurnsInduct(s, |s.cpus|, holds);
  }

  lemma IdleTurnsTimers(s: Sim)
    requires |s.current| == |s.cpus| && Timers(s)
    ensures Timers(IdleTurns(s, |s.cpus|))
  {
    var holds := (t: Sim, k: nat) => Timers(t);
    forall t: Sim, k: nat | k < |s.cpus| && SameMachine(s, t) && holds(t, k)
      ensures k < |t.current| && holds(Idle(t, k), k + 1)
    {
      if t.cpus[k].current.None? && t.ready != [] {
        ScheduleTimers(t, k);
      }
    }
    IdleInduct(s, |s.cpus|, holds);
  }

  /** Round robin from the start: at any time, whoever is ready runs within a slice per place. */
  lemma NobodyStarves(s: Sim, slice: int, programs: seq<seq<Op>>, estimates: seq<nat>, cpuCount: nat, n: nat, pos: nat)
    requires |estimates| == |programs| && cpuCount >= 1 && slice >= 1
    requires forall p :: 0 <= p < |programs| ==> Shape(programs[p])
    requires s == Start(RoundRobin, slice, programs, estimates, cpuCount)
    requires pos < |Ticks(s, n).ready|
    ensures ServedWithin(Ticks(s, n), Ticks(s, n).ready[pos], (pos + 1) * slice)
  {
    StartLive(RoundRobin, slice, programs, estimates, cpuCount);
    TicksKeepTimers(s, n);
    RoundRobinBound(Ticks(s, n), Ticks(s, n).ready[pos], pos);
  }
}
