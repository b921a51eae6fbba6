// Every tick charged to a process is a tick off its remaining work, whatever the
// policy and however often it is preempted.
module SchedWork {
  import opened Basics
  import opened SchedModel
  import opened SchedPlace
  import opened SchedSteps

  // ---- Remaining work ----------------------------------------------------------

  /** Ticks still due to CPU operations from position i on: n + 1 for a burst of n. */
  function CpuWork(ops: seq<Op>, i: nat): nat
    decreases |ops| - i
  {
    if i >= |ops| then 0
    else (match ops[i] case Cpu(t) => t + 1 case _ => 0) + CpuWork(ops, i + 1)
  }

  /** Ticks still due to I/O operations from position i on. */
  function IoWork(ops: seq<Op>, i: nat): nat
    decreases |ops| - i
  {
    if i >= |ops| then 0
    else (match ops[i] case Io(t) => t + 1 case _ => 0) + IoWork(ops, i + 1)
  }

  /** The ticks left in a process's I/O request, -1 if it has none in the queue. */
  function RequestTime(io: seq<IoRequest>, p: nat): (t: int)
    ensures t == -1 || t >= 0
    ensures t == -1 <==> forall i :: 0 <= i < |io| ==> io[i].pid != p
  {
    if io == [] then -1
    else if io[0].pid == p then io[0].time
    else
      var t := RequestTime(io[1..], p);
      assert forall i :: 1 <= i < |io| ==> io[i] == io[1..][i - 1];
      t
  }

  function CpuLeft(s: Sim, p: nat): nat
    requires p < |s.procs|
  {
    CpuWork(s.procs[p].ops, s.procs[p].pc)
  }

  function IoLeft(s: Sim, p: nat): nat
    requires p < |s.procs|
  {
    var t := RequestTime(s.io, p);
    if t == -1 then IoWork(s.procs[p].ops, s.procs[p].pc) else t + 1 + IoWork(s.procs[p].ops, s.procs[p].pc + 1)
  }

  // ---- Who is charged ----------------------------------------------------------

  function CpuCharge(s: Sim, e: Event, p: nat): nat {
    if e.CpuStep? && e.cpu < |s.cpus| && s.cpus[e.cpu].current == Some(p) then 1 else 0
  }

  function IoCharge(s: Sim, e: Event, p: nat): nat {
    if e.IoStep? && s.io != [] && s.io[0].pid == p then 1 else 0
  }

  // ---- Handlers charge nobody --------------------------------------------------

  ghost predicate SamePrograms(s: Sim, s': Sim) {
    && |s'.procs| == |s.procs| && s'.io == s.io
    && forall p: nat :: p < |s.procs| ==>
      && s'.procs[p].ops == s.procs[p].ops && s'.procs[p].pc == s.procs[p].pc
      && s'.procs[p].timeRemaining == s.procs[p].timeRemaining
  }

  lemma ScheduleSame(s: Sim, cpu: nat)
    requires cpu < |s.current| && cpu < |s.cpus|
    ensures SamePrograms(s, Schedule(s, cpu))
  {
  }

  lemma PreemptSame(s: Sim, cpu: nat)
    requires cpu < |s.current| && cpu < |s.cpus|
    ensures SamePrograms(s, Preempt(s, cpu))
  {
    if s.current[cpu].Some? {
      ScheduleSame(Push(SetState(s, s.current[cpu].value, Ready), s.current[cpu].value), cpu);
    }
  }

  lemma WakeUpSame(s: Sim, p: nat)
    ensures SamePrograms(s, WakeUp(s, p))
  {
    var s1 := Push(SetState(s, p, Ready), p);
    var (id, low) := Lowest(s1, 0, 10, -1);
    if 0 <= id < |s1.current| && id < |s1.cpus| {
      PreemptSame(s1, id);
    }
  }

  // ---- Work arithmetic ---------------------------------------------------------

  /** Work behind position j does not see a change at or before it. */
  lemma {:induction false} WorkBehind(a: seq<Op>, b: seq<Op>, j: nat)
    requires |a| == |b| && forall i :: j <= i < |a| ==> a[i] == b[i]
    ensures CpuWork(a, j) == CpuWork(b, j) && IoWork(a, j) == IoWork(b, j)
    decreases |a| - j
  {
    if j < |a| {
      WorkBehind(a, b, j + 1);
    }
  }

  lemma CountdownWork(ops: seq<Op>, pc: nat, t: nat)
    requires pc < |ops| && ops[pc] == Cpu(t) && t > 0
    ensures CpuWork(ops[pc := Cpu(t - 1)], pc) + 1 == CpuWork(ops, pc)
    ensures IoWork(ops[pc := Cpu(t - 1)], pc) == IoWork(ops, pc)
    ensures IoWork(ops[pc := Cpu(t - 1)], pc + 1) == IoWork(ops, pc + 1)
  {
    WorkBehind(ops, ops[pc := Cpu(t - 1)], pc + 1);
  }

  lemma {:induction false} RequestAppended(io: seq<IoRequest>, r: IoRequest, p: nat)
    requires RequestTime(io, r.pid) == -1
    ensures RequestTime(io + [r], p) == if p == r.pid then r.time else RequestTime(io, p)
  {
    if io == [] {
      assert [r][1..] == [];
    } else {
      assert (io + [r])[1..] == io[1..] + [r];
      assert RequestTime(io[1..], r.pid) == -1;
      RequestAppended(io[1..], r, p);
    }
  }

  // ---- One step ----------------------------------------------------------------

  /** A process on a CPU has no request in the queue. */
  lemma RunningNotQueued(s: Sim, cpu: nat, p: nat, created: nat)
    requires Placed(s, -1, created) && On(s, cpu, p)
    ensures HasState(s, p, Running) && RequestTime(s.io, p) == -1
  {
    forall i: nat | i < |s.io|
      ensures s.io[i].pid != p
    {
      assert Queued(s, i, s.io[i].pid);
      assert HasState(s, s.io[i].pid, Waiting);
    }
  }

  /** From s to r, p is charged c CPU ticks and no I/O tick. */
  ghost predicate Charged(s: Sim, r: Sim, p: nat, c: nat) {
    && p < |s.procs| == |r.procs|
    && CpuLeft(s, p) == CpuLeft(r, p) + c && IoLeft(s, p) == IoLeft(r, p)
  }

  lemma SameCharges(s: Sim, t: Sim, r: Sim, p: nat, c: nat)
    requires Charged(s, t, p, c) && SamePrograms(t, r)
    ensures Charged(s, r, p, c)
  {
  }

  lemma CpuTurnCharges(s: Sim, cpu: nat, p: nat, created: nat)
    requires Placed(s, -1, created) && cpu < |s.cpus| && p < |s.procs|
    ensures Charged(s, CpuTurn(s, cpu), p, CpuCharge(s, CpuStep(cpu), p))
  {
    if s.cpus[cpu].current.Some? {
      BusyCpu(s, cpu, created);
      var q := s.cpus[cpu].current.value;
      RunningNotQueued(s, cpu, q, created);
      if TimeLeft(s, q) > 0 {
        CountdownCharges(s, cpu, q, p);
      } else {
        BurstEndCharges(s, cpu, q, p);
      }
    }
  }

  lemma CountdownCharges(s: Sim, cpu: nat, q: nat, p: nat)
    requires AtBurst(s, cpu, q) && TimeLeft(s, q) > 0 && p < |s.procs|
    requires RequestTime(s.io, q) == -1
    ensures Charged(s, CpuTurn(s, cpu), p, if p == q then 1 else 0)
  {
    var r := Countdown(s, cpu, q);
    CountdownWork(s.procs[q].ops, s.procs[q].pc, TimeLeft(s, q));
    assert Charged(s, r, p, if p == q then 1 else 0);
    CountdownTurn(s, cpu, q);
    PreemptSame(r, cpu);
    SameCharges(s, r, CpuTurn(s, cpu), p, if p == q then 1 else 0);
  }

  lemma BurstEndCharges(s: Sim, cpu: nat, q: nat, p: nat)
    requires AtBurst(s, cpu, q) && Ending(s, q) && p < |s.procs| && RequestTime(s.io, q) == -1
    ensures Charged(s, CpuTurn(s, cpu), p, if p == q then 1 else 0)
  {
    BurstDoneCharges(s, q, p);
    BurstEndTurn(s, cpu, q);
    ScheduleSame(BurstDone(s, q), cpu);
    SameCharges(s, BurstDone(s, q), CpuTurn(s, cpu), p, if p == q then 1 else 0);
  }

  lemma BurstDoneCharges(s: Sim, q: nat, p: nat)
    requires Ending(s, q) && p < |s.procs| && RequestTime(s.io, q) == -1
    ensures Charged(s, BurstDone(s, q), p, if p == q then 1 else 0)
  {
    var ops, pc := s.procs[q].ops, s.procs[q].pc;
    assert CpuWork(ops, pc) == 1 + CpuWork(ops, pc + 1);
    assert IoWork(ops, pc) == IoWork(ops, pc + 1);
    if ops[pc + 1].Io? {
      RequestAppended(s.io, IoRequest(q, ops[pc + 1].time), p);
      assert IoWork(ops, pc + 1) == ops[pc + 1].time + 1 + IoWork(ops, pc + 2);
    }
  }

  /** Only the head of the queue is a request of its process. */
  lemma HeadIsOnly(s: Sim, created: nat)
    requires Placed(s, -1, created) && s.io != []
    ensures RequestTime(s.io[1..], s.io[0].pid) == -1
  {
    forall i: nat | i < |s.io[1..]|
      ensures s.io[1..][i].pid != s.io[0].pid
    {
      assert Queued(s, 0, s.io[0].pid) && Queued(s, i + 1, s.io[i + 1].pid);
    }
  }

  /** From s to r, p is charged d I/O ticks and no CPU tick. */
  ghost predicate IoCharged(s: Sim, r: Sim, p: nat, d: nat) {
    && p < |s.procs| == |r.procs|
    && CpuLeft(s, p) == CpuLeft(r, p) && IoLeft(s, p) == IoLeft(r, p) + d
  }

  lemma IoWaits(s: Sim, p: nat)
    requires p < |s.procs| && s.io != [] && s.io[0].time > 0
    ensures IoCharged(s, IoTurn(s), p, if p == s.io[0].pid then 1 else 0)
  {
    assert IoTurn(s).io[1..] == s.io[1..];
  }

  lemma IoFinishes(s: Sim, p: nat)
    requires p < |s.procs| && s.io != [] && s.io[0].time == 0 && s.io[0].pid < |s.procs|
    requires var pcb := s.procs[s.io[0].pid]; pcb.pc < |pcb.ops| && pcb.ops[pcb.pc].Io?
    requires RequestTime(s.io[1..], s.io[0].pid) == -1
    ensures IoCharged(s, IoFinished(s), p, if p == s.io[0].pid then 1 else 0)
  {
  }

  lemma IoFinishedTurn(s: Sim)
    requires s.io != [] && s.io[0].time == 0 && s.io[0].pid < |s.procs|
    ensures IoTurn(s) == WakeUp(IoFinished(s), s.io[0].pid)
  {
  }

  lemma IoTurnCharges(s: Sim, p: nat, created: nat)
    requires Placed(s, -1, created) && p < |s.procs|
    ensures IoCharged(s, IoTurn(s), p, IoCharge(s, IoStep, p))
  {
    if s.io != [] {
      IoAdmits(s, created);
      if s.io[0].time > 0 {
        IoWaits(s, p);
      } else {
        HeadIsOnly(s, created);
        IoFinishedCharges(s, p);
      }
    }
  }

  lemma IoFinishedCharges(s: Sim, p: nat)
    requires p < |s.procs| && s.io != [] && s.io[0].time == 0 && s.io[0].pid < |s.procs|
    requires var pcb := s.procs[s.io[0].pid]; pcb.pc < |pcb.ops| && pcb.ops[pcb.pc].Io?
    requires RequestTime(s.io[1..], s.io[0].pid) == -1
    ensures IoCharged(s, IoTurn(s), p, if p == s.io[0].pid then 1 else 0)
  {
    var r, d := IoFinished(s), if p == s.io[0].pid then 1 else 0;
    IoFinishes(s, p);
    IoFinishedTurn(s);
    WakeUpSame(r, s.io[0].pid);
    SameIoCharges(s, r, IoTurn(s), p, d);
  }

  lemma SameIoCharges(s: Sim, t: Sim, r: Sim, p: nat, d: nat)
    requires IoCharged(s, t, p, d) && SamePrograms(t, r)
    ensures IoCharged(s, r, p, d)
  {
  }

  lemma StepCharges(s: Sim, e: Event, p: nat)
    requires Inv(s) && p < |s.procs|
    ensures var s' := Do(s, e);
      && CpuLeft(s, p) == CpuLeft(s', p) + CpuCharge(s, e, p)
      && IoLeft(s, p) == IoLeft(s', p) + IoCharge(s, e, p)
  {
    match e {
      case CpuStep(n) =>
        if n < |s.cpus| { CpuTurnCharges(s, n, p, s.created); }
      case IdleStep(n) =>
        if n < |s.cpus| { ScheduleSame(s, n); }
      case IoStep => IoTurnCharges(s, p, s.created);
      case CreatStep =>
        WakeUpSame(s, s.created);
      case ClockStep =>
    }
  }

  // ---- Whole runs --------------------------------------------------------------

  /** CPU ticks charged to p along a run. */
  function CpuTicks(s: Sim, es: seq<Event>, p: nat): nat
    requires |s.current| == |s.cpus|
  {
    if es == [] then 0
    else CpuTicks(s, es[..|es| - 1], p) + CpuCharge(DoAll(s, es[..|es| - 1]), es[|es| - 1], p)
  }

  /** Ticks p's requests spent at the head of the I/O queue along a run. */
  function IoTicks(s: Sim, es: seq<Event>, p: nat): nat
    requires |s.current| == |s.cpus|
  {
    if es == [] then 0
    else IoTicks(s, es[..|es| - 1], p) + IoCharge(DoAll(s, es[..|es| - 1]), es[|es| - 1], p)
  }

  /** Ticks charged plus work left is the work there was. */
  lemma {:induction false} RunCharges(s: Sim, es: seq<Event>, p: nat)
    requires Inv(s) && p < |s.procs|
    ensures CpuTicks(s, es, p) + CpuLeft(DoAll(s, es), p) == CpuLeft(s, p)
    ensures IoTicks(s, es, p) + IoLeft(DoAll(s, es), p) == IoLeft(s, p)
  {
    if es != [] {
      var front := es[..|es| - 1];
      RunCharges(s, front, p);
      RunKeepsPlaces(s, front);
      StepCharges(DoAll(s, front), es[|es| - 1], p);
    }
  }

  lemma TerminatedIffNoWork(s: Sim, p: nat)
    requires Inv(s) && p < |s.procs|
    ensures s.procs[p].state == Terminated <==> CpuLeft(s, p) == 0
    ensures s.procs[p].state == Terminated ==> IoLeft(s, p) == 0
  {
    var pcb := s.procs[p];
    assert PcbOk(pcb);
    if pcb.state == Terminated {
      assert pcb.pc == |pcb.ops| - 1;
      assert IoWork(pcb.ops, |pcb.ops|) == CpuWork(pcb.ops, |pcb.ops|) == 0;
      forall i: nat | i < |s.io|
        ensures s.io[i].pid != p
      {
        assert Queued(s, i, s.io[i].pid);
        assert HasState(s, s.io[i].pid, Waiting);
      }
    } else if pcb.ops[pcb.pc].Io? {
      assert pcb.ops[pcb.pc + 1].Cpu?;
      assert CpuWork(pcb.ops, pcb.pc + 1) >= 1;
    }
  }

  /** A process that terminates has been charged, in total, n + 1 CPU ticks for each CPU burst of
      length n and n + 1 ticks at the head of the I/O queue for each I/O burst of length n. */
  lemma ExactCharge(policy: Policy, slice: int, programs: seq<seq<Op>>, estimates: seq<nat>, cpuCount: nat,
                    es: seq<Event>, p: nat)
    requires |estimates| == |programs| && p < |programs|
    requires forall q :: 0 <= q < |programs| ==> Shape(programs[q])
    ensures var s := Start(policy, slice, programs, estimates, cpuCount);
      DoAll(s, es).procs[p].state == Terminated ==>
        CpuTicks(s, es, p) == CpuWork(programs[p], 0) && IoTicks(s, es, p) == IoWork(programs[p], 0)
  {
    var s := Start(policy, slice, programs, estimates, cpuCount);
    StartInv(policy, slice, programs, estimates, cpuCount);
    RunCharges(s, es, p);
    RunKeepsPlaces(s, es);
    TerminatedIffNoWork(DoAll(s, es), p);
  }
}
