// The multiprocessor scheduling simulation as atomic handlers over one state:
// the simulator's supervisor steps and the scheduler's handlers they trigger.
module SchedModel {
  import opened Basics

  /** One operation of a process; the simulator counts a CPU operation's time down in place. */
  datatype Op = Cpu(time: nat) | Io(time: nat) | End

  datatype State = New | Ready | Running | Waiting | Terminated

  datatype Pcb = Pcb(state: State, ops: seq<Op>, pc: nat, timeRemaining: nat)

  /** `simulator_cpu_data`: the process on the CPU and its preemption timer. */
  datatype CpuData = CpuData(current: Option<nat>, timer: int)

  datatype IoRequest = IoRequest(pid: nat, time: nat)

  datatype Policy = Fifo | RoundRobin | Lrtf

  /** `slice` is the time slice given at each dispatch, -1 for none; `current` is the
      scheduler's own table of running processes. */
  datatype Sim = Sim(
    policy: Policy, slice: int,
    procs: seq<Pcb>,
    ready: seq<nat>,
    current: seq<Option<nat>>,
    cpus: seq<CpuData>,
    io: seq<IoRequest>,
    time: nat, created: nat, terminated: nat)

  function OpTime(op: Op): nat {
    match op
    case Cpu(t) => t
    case Io(t) => t
    case End => 0
  }

  /** pc moved to the next operation; nothing follows the last one. */
  function Advance(p: Pcb): Pcb {
    p.(pc := p.pc + 1,
       timeRemaining := if p.pc + 1 < |p.ops| then OpTime(p.ops[p.pc + 1]) + 1 else p.timeRemaining)
  }

  /** The machine does not change: CPUs, processes, policy, slice. */
  predicate SameMachine(s: Sim, r: Sim) {
    && |r.current| == |s.current| && |r.cpus| == |s.cpus| && |r.procs| == |s.procs|
    && r.policy == s.policy && r.slice == s.slice
  }

  function SetState(s: Sim, p: nat, st: State): (r: Sim)
    ensures SameMachine(s, r)
  {
    if p < |s.procs| then s.(procs := s.procs[p := s.procs[p].(state := st)]) else s
  }

  // ---- The ready queue -------------------------------------------------------

  function Push(s: Sim, p: nat): Sim { s.(ready := s.ready + [p]) }

  function Remaining(s: Sim, p: nat): nat {
    if p < |s.procs| then s.procs[p].timeRemaining else 0
  }

  /** The greatest time remaining in the queue, 0 if it is empty. */
  function Highest(s: Sim, q: seq<nat>): nat {
    if q == [] then 0
    else
      var h := Highest(s, q[1..]);
      if Remaining(s, q[0]) > h then Remaining(s, q[0]) else h
  }

  /** It bounds every process of the queue, and some process attains it. */
  lemma {:induction false} HighestMeaning(s: Sim, q: seq<nat>)
    ensures forall i :: 0 <= i < |q| ==> Remaining(s, q[i]) <= Highest(s, q)
    ensures q != [] ==> exists i :: 0 <= i < |q| && Remaining(s, q[i]) == Highest(s, q)
  {
    if q != [] {
      HighestMeaning(s, q[1..]);
      assert forall i :: 1 <= i < |q| ==> q[i] == q[1..][i - 1];
      if q[1..] != [] {
        var i :| 0 <= i < |q[1..]| && Remaining(s, q[1..][i]) == Highest(s, q[1..]);
        assert q[i + 1] == q[1..][i];
      }
      assert Remaining(s, q[0]) <= Highest(s, q);
    }
  }

  /** The position of the first node with the given time remaining, the length if there is none. */
  function FirstWith(s: Sim, q: seq<nat>, h: nat): nat {
    if q == [] || Remaining(s, q[0]) == h then 0 else FirstWith(s, q[1..], h) + 1
  }

  lemma {:induction false} FirstWithMeaning(s: Sim, q: seq<nat>, h: nat)
    ensures var i := FirstWith(s, q, h);
      && i <= |q| && (i < |q| ==> Remaining(s, q[i]) == h)
      && forall j :: 0 <= j < i ==> Remaining(s, q[j]) != h
  {
    if q != [] && Remaining(s, q[0]) != h {
      FirstWithMeaning(s, q[1..], h);
      assert forall j :: 1 <= j < |q| ==> q[j] == q[1..][j - 1];
    }
  }

  /** The position pop takes: the first of greatest time remaining, or the head. */
  function PopIndex(s: Sim): (i: nat)
    requires s.ready != []
    ensures i < |s.ready|
  {
    if s.policy == Lrtf then
      PopInRange(s, s.ready);
      FirstWith(s, s.ready, Highest(s, s.ready))
    else 0
  }

  lemma PopInRange(s: Sim, q: seq<nat>)
    requires q != []
    ensures FirstWith(s, q, Highest(s, q)) < |q|
  {
    HighestMeaning(s, q);
    FirstWithMeaning(s, q, Highest(s, q));
  }

  // ---- Handlers --------------------------------------------------------------

  /** Put the next ready process, or none, on a CPU with a fresh timer. */
  function Schedule(s: Sim, cpu: nat): (r: Sim)
    requires cpu < |s.current| && cpu < |s.cpus|
    ensures SameMachine(s, r)
  {
    if s.ready == [] then
      s.(current := s.current[cpu := None], cpus := s.cpus[cpu := CpuData(None, s.slice)])
    else
      var i := PopIndex(s);
      var p := s.ready[i];
      var s1 := SetState(s.(ready := RemoveAt(s.ready, i)), p, Running);
      s1.(current := s1.current[cpu := Some(p)], cpus := s1.cpus[cpu := CpuData(Some(p), s.slice)])
  }

  /** `idle` blocks until the queue is non-empty; here it does nothing until then. */
  function Idle(s: Sim, cpu: nat): (r: Sim)
    requires cpu < |s.current| && cpu < |s.cpus|
    ensures SameMachine(s, r)
  {
    if s.cpus[cpu].current.None? && s.ready != [] then Schedule(s, cpu) else s
  }

  function Preempt(s: Sim, cpu: nat): (r: Sim)
    requires cpu < |s.current| && cpu < |s.cpus|
    ensures SameMachine(s, r)
  {
    if s.current[cpu].None? then s
    else Schedule(Push(SetState(s, s.current[cpu].value, Ready), s.current[cpu].value), cpu)
  }

  function Yield(s: Sim, cpu: nat): (r: Sim)
    requires cpu < |s.current| && cpu < |s.cpus|
    ensures SameMachine(s, r)
  {
    if s.current[cpu].None? then s
    else Schedule(SetState(s, s.current[cpu].value, Waiting), cpu)
  }

  function Terminate(s: Sim, cpu: nat): (r: Sim)
    requires cpu < |s.current| && cpu < |s.cpus|
    ensures SameMachine(s, r)
  {
    if s.current[cpu].None? then s
    else Schedule(SetState(s.(terminated := s.terminated + 1), s.current[cpu].value, Terminated), cpu)
  }

  /** The CPU an LRTF wake-up looks at: none if any CPU idles, else the first with the least
      time remaining below the initial bound of 10. */
  function Lowest(s: Sim, i: nat, low: nat, lowId: int): (r: (int, nat))
    requires i <= |s.current|
    decreases |s.current| - i
  {
    if i == |s.current| then (lowId, low)
    else if s.current[i].None? then (-1, low)
    else if Remaining(s, s.current[i].value) < low then Lowest(s, i + 1, Remaining(s, s.current[i].value), i)
    else Lowest(s, i + 1, low, lowId)
  }

  function ForcePreempt(s: Sim, cpu: nat): (r: Sim)
    requires cpu < |s.current| && cpu < |s.cpus|
    ensures SameMachine(s, r)
  {
    if s.cpus[cpu].current.Some? then Preempt(s, cpu) else s
  }

  function WakeUp(s: Sim, p: nat): (r: Sim)
    ensures SameMachine(s, r)
  {
    var s1 := Push(SetState(s, p, Ready), p);
    if s.policy != Lrtf then s1
    else
      var (id, low) := Lowest(s1, 0, 10, -1);
      if 0 <= id < |s1.current| && id < |s1.cpus| && low < Remaining(s1, p) then ForcePreempt(s1, id) else s1
  }

  // ---- The supervisor's steps ------------------------------------------------

  /** One tick of the process on a CPU. */
  function CpuTurn(s: Sim, cpu: nat): (r: Sim)
    requires cpu < |s.current| && cpu < |s.cpus|
    ensures SameMachine(s, r)
  {
    if s.cpus[cpu].current.None? then s
    else
      var p := s.cpus[cpu].current.value;
      if !(p < |s.procs|) || !(s.procs[p].pc < |s.procs[p].ops|) then s
      else
        var pcb := s.procs[p];
        match pcb.ops[pcb.pc]
        case Cpu(t) =>
          if t > 0 then
            var timer := s.cpus[cpu].timer - 1;
            var s1 := s.(procs := s.procs[p := pcb.(ops := pcb.ops[pcb.pc := Cpu(t - 1)], timeRemaining := t)],
                         cpus := s.cpus[cpu := s.cpus[cpu].(timer := timer)]);
            if timer == 0 then Preempt(s1, cpu) else s1
          else
            var next := Advance(pcb);
            var s1 := s.(procs := s.procs[p := next]);
            if !(next.pc < |next.ops|) then s1
            else
              (match next.ops[next.pc]
               case Io(u) => Yield(s1.(io := s1.io + [IoRequest(p, u)]), cpu)
               case End => Terminate(s1, cpu)
               case Cpu(_) => s1)
        case _ => s
  }

  /** One tick of the request at the head of the I/O queue. */
  function IoTurn(s: Sim): (r: Sim)
    ensures SameMachine(s, r)
  {
    if s.io == [] then s
    else
      var r := s.io[0];
      if r.time > 0 then s.(io := s.io[0 := r.(time := r.time - 1)])
      else
        var s1 := s.(io := s.io[1..]);
        if r.pid < |s.procs| then WakeUp(s1.(procs := s.procs[r.pid := Advance(s.procs[r.pid])]), r.pid) else s1
  }

  function CreatTurn(s: Sim): (r: Sim)
    ensures SameMachine(s, r)
  {
    if s.time % 10 == 0 && s.created < |s.procs| then
      WakeUp(s, s.created).(created := s.created + 1)
    else s
  }

  /** Turns of CPUs 0..n-1. */
  function CpuTurns(s: Sim, n: nat): (r: Sim)
    requires n <= |s.current| && |s.current| == |s.cpus|
    ensures SameMachine(s, r)
  {
    if n == 0 then s else CpuTurn(CpuTurns(s, n - 1), n - 1)
  }

  /** Idle steps of CPUs 0..n-1. */
  function IdleTurns(s: Sim, n: nat): (r: Sim)
    requires n <= |s.current| && |s.current| == |s.cpus|
    ensures SameMachine(s, r)
  {
    if n == 0 then s else Idle(IdleTurns(s, n - 1), n - 1)
  }

  /** The rest of a supervisor iteration after the CPU turns. */
  function Supervise(s: Sim): (r: Sim)
    requires |s.current| == |s.cpus|
    ensures SameMachine(s, r)
  {
    var s1 := CreatTurn(IoTurn(s));
    s1.(time := s1.time + 1)
  }

  /** One supervisor iteration, then a step of every idle CPU. */
  function Tick(s: Sim): (r: Sim)
    requires |s.current| == |s.cpus|
    ensures SameMachine(s, r)
  {
    IdleTurns(Supervise(CpuTurns(s, |s.current|)), |s.current|)
  }

  function Ticks(s: Sim, n: nat): (r: Sim)
    requires |s.current| == |s.cpus|
    ensures SameMachine(s, r)
  {
    if n == 0 then s else Tick(Ticks(s, n - 1))
  }

  /** Every process new, at its first operation. */
  function Start(policy: Policy, slice: int, programs: seq<seq<Op>>, estimates: seq<nat>, cpuCount: nat): Sim
    requires |estimates| == |programs|
  {
    Sim(policy, slice, seq(|programs|, p requires 0 <= p < |programs| => Pcb(New, programs[p], 0, estimates[p])),
        [], seq(cpuCount, _ => None), seq(cpuCount, _ => CpuData(None, -1)), [], 0, 0, 0)
  }
}
