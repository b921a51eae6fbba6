// Burst by burst: each CPU burst of length n is charged n + 1 CPU ticks and each I/O burst of
// length n is charged n + 1 ticks at the head of the I/O queue, on every run of any policy.
module SchedBursts {
  import opened SchedModel
  import opened SchedPlace
  import opened SchedSteps
  import opened SchedWork

  // ---- One step, seen from one process -----------------------------------------------

  /** Ticks left in the operation a process is at. */
  function Left(s: Sim, p: nat): int
    requires p < |s.procs| && s.procs[p].pc < |s.procs[p].ops|
  {
    if s.procs[p].ops[s.procs[p].pc].Io? then RequestTime(s.io, p) else TimeLeft(s, p)
  }

  /** What an uncharged step does to a process: nothing that a tick would. */
  ghost predicate Stays(s: Sim, r: Sim, p: nat) {
    && p < |s.procs| == |r.procs| && s.procs[p].pc < |s.procs[p].ops|
    && r.procs[p].ops == s.procs[p].ops && r.procs[p].pc == s.procs[p].pc
    && Left(r, p) == Left(s, p) && r.procs[p].timeRemaining == s.procs[p].timeRemaining
  }

  /** A charged step: one tick less, or on to the next operation once none is left. */
  ghost predicate Ticks1(s: Sim, r: Sim, p: nat) {
    && p < |s.procs| == |r.procs|
    && var a, b := s.procs[p], r.procs[p];
       && a.pc + 1 < |a.ops| == |b.ops|
       && if Left(s, p) > 0 then
            && b.pc == a.pc && b.ops == a.ops[a.pc := b.ops[a.pc]]
            && (a.ops[a.pc].Io? ==> b.ops == a.ops) && (a.ops[a.pc].Cpu? ==> b.ops[a.pc].Cpu?)
            && Left(r, p) == Left(s, p) - 1
            && b.timeRemaining == (if a.ops[a.pc].Io? then a.timeRemaining else OpTime(b.ops[b.pc]) + 1)
          else
            && Left(s, p) == 0 && b.pc == a.pc + 1 && b.ops == a.ops
            && Left(r, p) == OpTime(a.ops[a.pc + 1]) && b.timeRemaining == OpTime(b.ops[b.pc]) + 1
  }

  ghost predicate Moves(s: Sim, r: Sim, p: nat, cpu: nat, io: nat) {
    && p < |s.procs| && s.procs[p].pc < |s.procs[p].ops|
    && var op := s.procs[p].ops[s.procs[p].pc];
       || (cpu == io == 0 && Stays(s, r, p))
       || (cpu == 1 && io == 0 && op.Cpu? && Ticks1(s, r, p))
       || (cpu == 0 && io == 1 && op.Io? && Ticks1(s, r, p))
  }

  lemma SameStays(s: Sim, t: Sim, r: Sim, p: nat, cpu: nat, io: nat)
    requires Moves(s, t, p, cpu, io) && SamePrograms(t, r)
    ensures Moves(s, r, p, cpu, io)
  {
  }

  lemma CountdownMoves(s: Sim, cpu: nat, q: nat, p: nat)
    requires AtBurst(s, cpu, q) && TimeLeft(s, q) > 0 && p < |s.procs| && s.procs[p].pc < |s.procs[p].ops|
    requires s.procs[q].pc + 1 < |s.procs[q].ops|
    ensures Moves(s, Countdown(s, cpu, q), p, if p == q then 1 else 0, 0)
  {
  }

  lemma BurstDoneMoves(s: Sim, q: nat, p: nat)
    requires Ending(s, q) && p < |s.procs| && s.procs[p].pc < |s.procs[p].ops| && RequestTime(s.io, q) == -1
    ensures Moves(s, BurstDone(s, q), p, if p == q then 1 else 0, 0)
  {
    var op := s.procs[q].ops[s.procs[q].pc + 1];
    if op.Io? {
      RequestAppended(s.io, IoRequest(q, op.time), p);
    }
  }

  lemma CpuTurnMoves(s: Sim, cpu: nat, p: nat)
    requires Inv(s) && cpu < |s.cpus| && p < |s.procs|
    ensures Moves(s, CpuTurn(s, cpu), p, CpuCharge(s, CpuStep(cpu), p), 0)
  {
    assert PcbOk(s.procs[p]);
    if s.cpus[cpu].current.Some? {
      BusyCpu(s, cpu, s.created);
      var q := s.cpus[cpu].current.value;
      RunningNotQueued(s, cpu, q, s.created);
      if TimeLeft(s, q) > 0 {
        CountdownMoves(s, cpu, q, p);
        CountdownTurn(s, cpu, q);
        PreemptSame(Countdown(s, cpu, q), cpu);
        SameStays(s, Countdown(s, cpu, q), CpuTurn(s, cpu), p, if p == q then 1 else 0, 0);
      } else {
        BurstDoneMoves(s, q, p);
        BurstEndTurn(s, cpu, q);
        ScheduleSame(BurstDone(s, q), cpu);
        SameStays(s, BurstDone(s, q), CpuTurn(s, cpu), p, if p == q then 1 else 0, 0);
      }
    }
  }

  lemma IoTurnMoves(s: Sim, p: nat)
    requires Inv(s) && p < |s.procs|
    ensures Moves(s, IoTurn(s), p, 0, IoCharge(s, IoStep, p))
  {
    assert PcbOk(s.procs[p]);
    if s.io != [] {
      IoAdmits(s, s.created);
      HeadIsOnly(s, s.created);
      var q := s.io[0].pid;
      assert PcbOk(s.procs[q]);
      if s.io[0].time > 0 {
        assert IoTurn(s).io[1..] == s.io[1..];
      } else {
        IoFinishedMoves(s, p);
        WakeUpSame(IoFinished(s), q);
        SameStays(s, IoFinished(s), IoTurn(s), p, 0, if p == q then 1 else 0);
      }
    }
  }

  lemma IoFinishedMoves(s: Sim, p: nat)
    requires p < |s.procs| && s.procs[p].pc < |s.procs[p].ops| && s.io != [] && s.io[0].time == 0
    requires var q := s.io[0].pid;
      && q < |s.procs| && RequestTime(s.io[1..], q) == -1
      && s.procs[q].pc + 1 < |s.procs[q].ops| && s.procs[q].ops[s.procs[q].pc].Io?
      && s.procs[q].ops[s.procs[q].pc + 1].Cpu?
    ensures Moves(s, IoFinished(s), p, 0, if p == s.io[0].pid then 1 else 0)
  {
  }

  /** Every step either charges a process exactly one tick of the operation it is at, or leaves
      its program, its position and its request alone. */
  lemma StepMoves(s: Sim, e: Event, p: nat)
    requires Inv(s) && p < |s.procs|
    ensures Moves(s, Do(s, e), p, CpuCharge(s, e, p), IoCharge(s, e, p))
  {
    assert PcbOk(s.procs[p]);
    match e {
      case CpuStep(n) =>
        if n < |s.cpus| { CpuTurnMoves(s, n, p); }
      case IdleStep(n) =>
        if n < |s.cpus| { ScheduleSame(s, n); }
      case IoStep => IoTurnMoves(s, p);
      case CreatStep => WakeUpSame(s, s.created);
      case ClockStep =>
    }
  }

  // ---- Whole runs --------------------------------------------------------------------

  /** CPU ticks charged to p along a run while it was at operation i. */
  function CpuTicksAt(s: Sim, es: seq<Event>, p: nat, i: nat): nat
    requires |s.current| == |s.cpus| && p < |s.procs|
  {
    if es == [] then 0
    else
      var r, e := DoAll(s, es[..|es| - 1]), es[|es| - 1];
      CpuTicksAt(s, es[..|es| - 1], p, i) + (if r.procs[p].pc == i then CpuCharge(r, e, p) else 0)
  }

  /** Ticks p's requests spent at the head of the I/O queue while it was at operation i. */
  function IoTicksAt(s: Sim, es: seq<Event>, p: nat, i: nat): nat
    requires |s.current| == |s.cpus| && p < |s.procs|
  {
    if es == [] then 0
    else
      var r, e := DoAll(s, es[..|es| - 1]), es[|es| - 1];
      IoTicksAt(s, es[..|es| - 1], p, i) + (if r.procs[p].pc == i then IoCharge(r, e, p) else 0)
  }

  /** What is not yet done of the program is still the program. */
  ghost predicate Follows(program: seq<Op>, pcb: Pcb) {
    && |pcb.ops| == |program| && pcb.pc < |program|
    && (forall j: nat :: pcb.pc < j < |program| ==> pcb.ops[j] == program[j])
    && (program[pcb.pc].Cpu? <==> pcb.ops[pcb.pc].Cpu?)
    && (!program[pcb.pc].Cpu? ==> pcb.ops[pcb.pc] == program[pcb.pc])
  }

  /** The ticks a burst of n has taken: none before its turn, n + 1 after it, and during it what
      is no longer left. */
  ghost predicate Taken(s: Sim, p: nat, i: nat, n: nat, ticks: nat)
    requires p < |s.procs|
  {
    var pcb := s.procs[p];
    if pcb.pc > i then ticks == n + 1
    else if pcb.pc < i then ticks == 0
    else pcb.pc < |pcb.ops| && Left(s, p) >= 0 && ticks + Left(s, p) == n
  }

  /** The tally for operation i: ticks of its own kind as its length says, none of the other. */
  ghost predicate Tally(program: seq<Op>, s: Sim, p: nat, i: nat, cpu: nat, io: nat)
    requires p < |s.procs| && i < |program|
  {
    match program[i]
    case Cpu(n) => io == 0 && Taken(s, p, i, n, cpu)
    case Io(n) => cpu == 0 && Taken(s, p, i, n, io)
    case End => cpu == io == 0
  }

  lemma MoveKeepsTally(program: seq<Op>, s: Sim, r: Sim, p: nat, i: nat, cpu: nat, io: nat, c: nat, d: nat)
    requires Moves(s, r, p, c, d) && i < |program|
    requires Follows(program, s.procs[p]) && Tally(program, s, p, i, cpu, io)
    ensures p < |r.procs| && Follows(program, r.procs[p])
    ensures var here := s.procs[p].pc == i;
      Tally(program, r, p, i, cpu + (if here then c else 0), io + (if here then d else 0))
  {
  }

  lemma {:induction false} RunTallies(program: seq<Op>, s: Sim, es: seq<Event>, p: nat, i: nat)
    requires Inv(s) && p < |s.procs| && i < |program|
    requires Follows(program, s.procs[p]) && Tally(program, s, p, i, 0, 0)
    ensures var r := DoAll(s, es);
      Follows(program, r.procs[p]) && Tally(program, r, p, i, CpuTicksAt(s, es, p, i), IoTicksAt(s, es, p, i))
  {
    if es != [] {
      var front := es[..|es| - 1];
      var r, e := DoAll(s, front), es[|es| - 1];
      RunTallies(program, s, front, p, i);
      RunKeepsPlaces(s, front);
      StepMoves(r, e, p);
      MoveKeepsTally(program, r, Do(r, e), p, i, CpuTicksAt(s, front, p, i), IoTicksAt(s, front, p, i),
                     CpuCharge(r, e, p), IoCharge(r, e, p));
    }
  }

  /** On every run of any policy: a CPU burst of length n has been charged exactly n + 1 CPU ticks
      once the process is past it, an I/O burst of length n exactly n + 1 ticks at the head of the
      queue; during a burst, charged plus left is its length; before it, nothing. */
  lemma ExactBursts(policy: Policy, slice: int, programs: seq<seq<Op>>, estimates: seq<nat>, cpuCount: nat,
                    es: seq<Event>, p: nat, i: nat)
    requires |estimates| == |programs| && p < |programs| && i < |programs[p]|
    requires forall q :: 0 <= q < |programs| ==> Shape(programs[q])
    ensures var s := Start(policy, slice, programs, estimates, cpuCount);
      Tally(programs[p], DoAll(s, es), p, i, CpuTicksAt(s, es, p, i), IoTicksAt(s, es, p, i))
  {
    var s := Start(policy, slice, programs, estimates, cpuCount);
    StartInv(policy, slice, programs, estimates, cpuCount);
    RunTallies(programs[p], s, es, p, i);
  }

  // ---- What LRTF compares --------------------------------------------------------------

  /** time_remaining: the estimate until the first tick, then one more than what is left of the
      operation the process is at. */
  ghost predicate Timed(program: seq<Op>, estimate: nat, pcb: Pcb, ticks: nat) {
    if ticks == 0 then pcb.pc == 0 && pcb.ops == program && pcb.timeRemaining == estimate
    else pcb.pc < |pcb.ops| && pcb.timeRemaining == OpTime(pcb.ops[pcb.pc]) + 1
  }

  lemma MoveKeepsTimed(program: seq<Op>, estimate: nat, s: Sim, r: Sim, p: nat, ticks: nat, c: nat, d: nat)
    requires Moves(s, r, p, c, d) && Shape(program) && Timed(program, estimate, s.procs[p], ticks)
    ensures p < |r.procs| && Timed(program, estimate, r.procs[p], ticks + c + d)
  {
  }

  /** In every reachable state, under any policy, a process that has been charged a tick has as
      time remaining one more than what is left of its current operation: what LRTF compares is
      work really left. Only a process never charged still carries its estimate. */
  lemma {:induction false} RemainingIsReal(policy: Policy, slice: int, programs: seq<seq<Op>>, estimates: seq<nat>,
                                           cpuCount: nat, es: seq<Event>, p: nat)
    requires |estimates| == |programs| && p < |programs|
    requires forall q :: 0 <= q < |programs| ==> Shape(programs[q])
    ensures var s := Start(policy, slice, programs, estimates, cpuCount);
      Timed(programs[p], estimates[p], DoAll(s, es).procs[p], CpuTicks(s, es, p) + IoTicks(s, es, p))
    decreases |es|
  {
    var s := Start(policy, slice, programs, estimates, cpuCount);
    if es != [] {
      var front := es[..|es| - 1];
      var r, e := DoAll(s, front), es[|es| - 1];
      RemainingIsReal(policy, slice, programs, estimates, cpuCount, front, p);
      StartInv(policy, slice, programs, estimates, cpuCount);
      RunKeepsPlaces(s, front);
      StepMoves(r, e, p);
      MoveKeepsTimed(programs[p], estimates[p], r, Do(r, e), p, CpuTicks(s, front, p) + IoTicks(s, front, p),
                     CpuCharge(r, e, p), IoCharge(r, e, p));
    }
  }
}
