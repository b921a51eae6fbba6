// The simulation with its tables updated in place and the ready queue linked through the
// process blocks, proved against the steps on values. A pointer to a process is its index
// in the process table.
module SchedMachine {
  import opened Basics
  import opened SchedModel
  import opened SchedPlace
  import opened SchedSteps
  import opened SchedWork
  import opened SchedFinish
  import opened SchedExit
  import opened SchedIo

  class OsSim {
    const policy: Policy
    const slice: int
    const processes: array<Pcb>
    const next: array<Option<nat>>
    const current: array<Option<nat>>
    const cpus: array<CpuData>
    const ioQueue: IoQueue
    var head: Option<nat>
    var time: nat
    var created: nat
    var terminated: nat
    ghost var ready: seq<nat>

    /** The list runs from `head` through `ready`, each process once. */
    ghost predicate Valid()
      reads `head, `ready, next
    {
      && next.Length == processes.Length && cpus.Length == current.Length && next != current
      && Linked(head, next[..], ready)
    }

    ghost function State(): Sim
      reads this, processes, current, cpus, ioQueue
    {
      Sim(policy, slice, processes[..], ready, current[..], cpus[..], ioQueue.requests, time, created, terminated)
    }

    /** main and start_simulator: the process table as given, every CPU idle, no timer. */
    constructor (policy: Policy, slice: int, programs: seq<seq<Op>>, estimates: seq<nat>, cpuCount: nat)
      requires |estimates| == |programs|
      ensures Valid() && State() == Start(policy, slice, programs, estimates, cpuCount)
      ensures ioQueue.Valid() && fresh(ioQueue) && fresh(ioQueue.repr)
      ensures fresh(processes) && fresh(next) && fresh(current) && fresh(cpus)
    {
      this.policy, this.slice := policy, slice;
      processes := new Pcb[|programs|](p requires 0 <= p < |programs| => Pcb(New, programs[p], 0, estimates[p]));
      next := new Option<nat>[|programs|](_ => None);
      current := new Option<nat>[cpuCount](_ => None);
      cpus := new CpuData[cpuCount](_ => CpuData(None, -1));
      ioQueue := new IoQueue();
      head, ready := None, [];
      time, created, terminated := 0, 0, 0;
    }

    // ---- The ready queue -----------------------------------------------------

    /** Walk to the last node and hang the process behind it. */
    method PushToQueue(p: nat)
      requires Valid() && p < processes.Length && p !in ready
      modifies `head, `ready, next
      ensures Valid() && State() == Push(old(State()), p)
    {
      ghost var links := next[..];
      if head.None? {
        head := Some(p);
      } else {
        var curr := head.value;
        ghost var k: nat := 0;
        assert LinkAt(links, ready, 0);
        while next[curr].Some?
          invariant k < |ready| && curr == ready[k] && curr < next.Length
          decreases |ready| - k
        {
          assert LinkAt(links, ready, k) && LinkAt(links, ready, k + 1);
          curr := next[curr].value;
          k := k + 1;
        }
        assert LinkAt(links, ready, k);
        next[curr] := Some(p);
      }
      next[p] := None;
      PushLinks(links, next[..], ready, p);
      ready := ready + [p];
    }

    /** LRTF's first pass: the greatest time remaining in the queue. */
    method FindHighest() returns (high: nat)
      requires Valid()
      ensures high == Highest(State(), ready)
    {
      high := 0;
      var curr := head;
      ghost var k: nat := 0;
      assert ready[0..] == ready;
      while curr.Some?
        invariant k <= |ready| && curr == NodeAt(ready, k)
        invariant Highest(State(), ready) == Larger(high, Highest(State(), ready[k..]))
        decreases |ready| - k
      {
        assert LinkAt(next[..], ready, k) && ready[k..][1..] == ready[k + 1..];
        if processes[curr.value].timeRemaining > high {
          high := processes[curr.value].timeRemaining;
        }
        curr := next[curr.value];
        k := k + 1;
      }
    }

    /** LRTF's second pass: the first node with that time, and the node before it. */
    method FindFirst(high: nat) returns (node: nat, prev: nat)
      requires Valid() && FirstWith(State(), ready, high) < |ready|
      ensures var k := FirstWith(State(), ready, high);
        node == ready[k] && prev == ready[if k == 0 then 0 else k - 1]
    {
      node, prev := head.value, head.value;
      ghost var k: nat := 0;
      assert ready[0..] == ready && LinkAt(next[..], ready, 0);
      while processes[node].timeRemaining != high
        invariant k < |ready| && node == ready[k] && prev == ready[if k == 0 then 0 else k - 1]
        invariant node < processes.Length
        invariant FirstWith(State(), ready, high) == k + FirstWith(State(), ready[k..], high)
        decreases |ready| - k
      {
        assert LinkAt(next[..], ready, k) && ready[k..][1..] == ready[k + 1..];
        assert k + 1 < |ready|;
        assert LinkAt(next[..], ready, k + 1);
        prev := node;
        node := next[node].value;
        k := k + 1;
      }
    }

    /** Take node k out of the list, its predecessor at hand. */
    method Unlink(node: nat, prev: nat, ghost k: nat)
      requires Valid() && k < |ready| && node == ready[k] && prev == ready[if k == 0 then 0 else k - 1]
      modifies `head, `ready, next
      ensures Valid() && State() == old(State()).(ready := RemoveAt(old(ready), k))
    {
      ghost var links := next[..];
      assert LinkAt(links, ready, k) && LinkAt(links, ready, if k == 0 then 0 else k - 1);
      if Some(node) == head {
        head := next[node];
      } else {
        next[prev] := next[node];
      }
      UnlinkLinks(links, next[..], ready, k);
      ready := RemoveAt(ready, k);
    }

    /** The policy's next process, taken off the queue; none if the queue is empty. */
    method PopFromQueue() returns (node: Option<nat>)
      requires Valid()
      modifies `head, `ready, next
      ensures Valid() && (node.None? <==> old(ready) == [])
      ensures node.None? ==> State() == old(State())
      ensures node.Some? ==> var i := PopIndex(old(State()));
        && node == Some(old(ready)[i]) && node.value < processes.Length
        && State() == old(State()).(ready := RemoveAt(old(ready), i))
    {
      if head.None? { return None; }
      assert LinkAt(next[..], ready, PopIndex(State())) && LinkAt(next[..], ready, 0);
      match policy
      case Lrtf =>
        var high := FindHighest();
        ghost var k := PopIndex(State());
        var first, prev := FindFirst(high);
        Unlink(first, prev, k);
        node := Some(first);
      case _ =>
        node := head;
        Unlink(head.value, head.value, 0);
    }

    // ---- The scheduler's handlers --------------------------------------------

    method ContextSwitch(cpu: nat, pcb: Option<nat>, preemptionTime: int)
      requires cpu < cpus.Length
      modifies cpus
      ensures cpus[..] == old(cpus[..])[cpu := CpuData(pcb, preemptionTime)]
    {
      cpus[cpu] := CpuData(pcb, preemptionTime);
    }

    method Schedule(cpu: nat)
      requires Valid() && cpu < cpus.Length
      modifies `head, `ready, next, processes, current, cpus
      ensures Valid() && State() == SchedModel.Schedule(old(State()), cpu)
    {
      var pcb := PopFromQueue();
      if pcb.Some? {
        processes[pcb.value] := processes[pcb.value].(state := Running);
      }
      current[cpu] := pcb;
      ContextSwitch(cpu, pcb, slice);
    }

    /** The body of the idle loop once the queue is not empty. */
    method Idle(cpu: nat)
      requires Valid() && cpu < cpus.Length
      modifies `head, `ready, next, processes, current, cpus
      ensures Valid() && State() == SchedModel.Idle(old(State()), cpu)
    {
      if cpus[cpu].current.None? && head.Some? {
        Schedule(cpu);
      }
    }

    /** The CPU's process is not in the ready queue. */
    ghost predicate Busy(cpu: nat)
      reads `ready, current
    {
      && cpu < current.Length == cpus.Length && current[cpu].Some?
      && current[cpu].value < processes.Length && current[cpu].value !in ready
    }

    method Preempt(cpu: nat)
      requires Valid() && Busy(cpu)
      modifies `head, `ready, next, processes, current, cpus
      ensures Valid() && State() == SchedModel.Preempt(old(State()), cpu)
    {
      var pcb := current[cpu].value;
      processes[pcb] := processes[pcb].(state := Ready);
      PushToQueue(pcb);
      Schedule(cpu);
    }

    method Yield(cpu: nat)
      requires Valid() && Busy(cpu)
      modifies `head, `ready, next, processes, current, cpus
      ensures Valid() && State() == SchedModel.Yield(old(State()), cpu)
    {
      var pcb := current[cpu].value;
      processes[pcb] := processes[pcb].(state := Waiting);
      Schedule(cpu);
    }

    /** The CPU thread counts the process, then calls the handler. */
    method Terminate(cpu: nat)
      requires Valid() && Busy(cpu)
      modifies `head, `ready, `terminated, next, processes, current, cpus
      ensures Valid() && State() == SchedModel.Terminate(old(State()), cpu)
    {
      ghost var s := State();
      MarkTerminated(current[cpu].value);
      ghost var t := State();
      Schedule(cpu);
      TerminateIs(s, t, State(), cpu);
    }

    method MarkTerminated(pcb: nat)
      requires pcb < processes.Length
      modifies `terminated, processes
      ensures State() == SetState(old(State()).(terminated := old(terminated) + 1), pcb, Terminated)
    {
      terminated := terminated + 1;
      processes[pcb] := processes[pcb].(state := Terminated);
    }

    method ForcePreempt(cpu: nat)
      requires Valid() && cpu < cpus.Length && (cpus[cpu].current.Some? ==> Busy(cpu))
      modifies `head, `ready, next, processes, current, cpus
      ensures Valid() && State() == SchedModel.ForcePreempt(old(State()), cpu)
    {
      if cpus[cpu].current.Some? {
        Preempt(cpu);
      }
    }

    /** The scan of the running processes for the least time remaining below 10. */
    method FindLowest() returns (lowId: int, low: nat)
      requires forall c: nat :: c < current.Length && current[c].Some? ==> current[c].value < processes.Length
      ensures (lowId, low) == Lowest(State(), 0, 10, -1)
    {
      lowId, low := -1, 10;
      for i: nat := 0 to current.Length
        invariant Lowest(State(), i, low, lowId) == Lowest(State(), 0, 10, -1)
      {
        if current[i].None? { return -1, low; }
        if processes[current[i].value].timeRemaining < low {
          low := processes[current[i].value].timeRemaining;
          lowId := i;
        }
      }
    }

    method WakeUp(p: nat, ghost count: nat)
      requires Valid() && p < processes.Length && p !in ready
      requires Placed(Push(SetState(State(), p, Ready), p), -1, count)
      modifies `head, `ready, next, processes, current, cpus
      ensures Valid() && State() == SchedModel.WakeUp(old(State()), p)
    {
      processes[p] := processes[p].(state := Ready);
      PushToQueue(p);
      PlacedMeans(State(), count);
      if policy == Lrtf {
        var lowId, low := FindLowest();
        if lowId != -1 && low < processes[p].timeRemaining {
          LowestInRange(State(), 0, 10, -1);
          ForcePreempt(lowId);
        }
      }
    }

    // ---- The supervisor --------------------------------------------------------

    /** One tick of the process on a CPU. */
    method SimulateProcess(cpu: nat)
      requires Valid() && ioQueue.Valid() && Placed(State(), -1, created) && cpu < cpus.Length && cpus[cpu].current.Some?
      modifies this, next, processes, current, cpus, ioQueue, ioQueue.repr
      ensures ioQueue.Valid() && fresh(ioQueue.repr - old(ioQueue.repr))
      ensures Valid() && State() == CpuTurn(old(State()), cpu)
    {
      PlacedMeans(State(), created);
      BusyCpu(State(), cpu, created);
      var p := cpus[cpu].current.value;
      var pcb := processes[p];
      match pcb.ops[pcb.pc]
      case Cpu(t) =>
        if t > 0 {
          RunBurst(cpu, p, t);
        } else {
          NextOperation(cpu, p);
        }
      case _ =>
    }

    /** One tick off the burst and the timer; a timer at zero preempts. */
    method RunBurst(cpu: nat, p: nat, t: nat)
      requires Valid() && Busy(cpu) && current[cpu] == cpus[cpu].current == Some(p)
      requires processes[p].pc < |processes[p].ops| && processes[p].ops[processes[p].pc] == Cpu(t) && t > 0
      modifies `head, `ready, next, processes, current, cpus
      ensures Valid() && State() == CpuTurn(old(State()), cpu)
    {
      CountdownTurn(State(), cpu, p);
      CountDown(cpu, p, t);
      if cpus[cpu].timer == 0 {
        Preempt(cpu);
      }
    }

    method CountDown(cpu: nat, p: nat, t: nat)
      requires cpu < cpus.Length && p < processes.Length && AtBurst(State(), cpu, p)
      requires processes[p].ops[processes[p].pc] == Cpu(t) && t > 0
      modifies processes, cpus
      ensures State() == Countdown(old(State()), cpu, p)
    {
      var pcb := processes[p];
      processes[p] := pcb.(ops := pcb.ops[pcb.pc := Cpu(t - 1)], timeRemaining := t);
      cpus[cpu] := cpus[cpu].(timer := cpus[cpu].timer - 1);
    }

    /** A finished burst: move on, and hand the CPU over if the process blocks or ends. */
    method NextOperation(cpu: nat, p: nat)
      requires Valid() && ioQueue.Valid() && Busy(cpu) && current[cpu] == cpus[cpu].current == Some(p)
      requires processes[p].pc < |processes[p].ops| && processes[p].ops[processes[p].pc] == Cpu(0)
      requires processes[p].pc + 1 < |processes[p].ops|
      modifies this, next, processes, current, cpus, ioQueue, ioQueue.repr
      ensures ioQueue.Valid() && fresh(ioQueue.repr - old(ioQueue.repr))
      ensures Valid() && State() == CpuTurn(old(State()), cpu)
    {
      ghost var s := State();
      MoveOn(p);
      NextTurn(s, State(), cpu, p);
      match processes[p].ops[processes[p].pc]
      case Io(u) =>
        Block(cpu, p, u);
      case End => Terminate(cpu);
      case Cpu(_) =>
    }

    /** Submit the request, then yield. */
    method Block(cpu: nat, p: nat, u: nat)
      requires Valid() && ioQueue.Valid() && Busy(cpu)
      modifies `head, `ready, next, processes, current, cpus, ioQueue, ioQueue.repr
      ensures ioQueue.Valid() && fresh(ioQueue.repr - old(ioQueue.repr))
      ensures Valid() && State() == SchedModel.Yield(old(State()).(io := old(State()).io + [IoRequest(p, u)]), cpu)
    {
      SubmitIoRequest(p, u);
      Yield(cpu);
    }

    method MoveOn(p: nat)
      requires p < processes.Length
      modifies processes
      ensures State() == old(State()).(procs := old(State()).procs[p := Advance(old(State()).procs[p])])
    {
      processes[p] := Advance(processes[p]);
    }

    method SubmitIoRequest(p: nat, u: nat)
      requires ioQueue.Valid()
      modifies ioQueue, ioQueue.repr
      ensures ioQueue.Valid() && fresh(ioQueue.repr - old(ioQueue.repr))
      ensures State() == old(State()).(io := old(State()).io + [IoRequest(p, u)])
    {
      ioQueue.Submit(p, u);
    }

    method SimulateCpus()
      requires Valid() && ioQueue.Valid() && Inv(State())
      modifies this, next, processes, current, cpus, ioQueue, ioQueue.repr
      ensures ioQueue.Valid() && fresh(ioQueue.repr - old(ioQueue.repr))
      ensures Valid() && State() == CpuTurns(old(State()), cpus.Length)
    {
      ghost var s0 := State();
      for n: nat := 0 to cpus.Length
        invariant ioQueue.Valid() && fresh(ioQueue.repr - old(ioQueue.repr))
        invariant Valid() && State() == CpuTurns(s0, n)
      {
        ghost var s := State();
        TurnsInv(s0, n, s);
        TurnOf(n);
        OneTurn(s0, n, s, State());
      }
    }

    /** A CPU without a process has no turn. */
    method TurnOf(n: nat)
      requires Valid() && ioQueue.Valid() && Inv(State()) && n < cpus.Length
      modifies this, next, processes, current, cpus, ioQueue, ioQueue.repr
      ensures ioQueue.Valid() && fresh(ioQueue.repr - old(ioQueue.repr))
      ensures Valid() && State() == CpuTurn(old(State()), n)
    {
      if cpus[n].current.Some? {
        SimulateProcess(n);
      }
    }

    method SimulateIo()
      requires Valid() && ioQueue.Valid() && Inv(State())
      modifies this, next, processes, current, cpus, ioQueue, ioQueue.repr
      ensures ioQueue.Valid() && fresh(ioQueue.repr - old(ioQueue.repr))
      ensures Valid() && State() == IoTurn(old(State()))
    {
      if ioQueue.head == null { return; }
      ghost var s := State();
      var p := TickIo();
      if p == -1 { return; }
      HeadWakes(s, p);
      Complete(p, s);
    }

    /** The process of a completed request moves on and wakes up. */
    method Complete(p: nat, ghost s: Sim)
      requires Valid() && p < processes.Length && p !in ready
      requires s.io != [] && s.io[0].pid == p && s.io[0].time == 0 && State() == s.(io := s.io[1..])
      requires Placed(Push(SetState(IoFinished(s), p, Ready), p), -1, created)
      modifies `head, `ready, next, processes, current, cpus
      ensures Valid() && State() == IoTurn(s)
    {
      MoveOn(p);
      assert State() == IoFinished(s);
      WakeUp(p, created);
      IoFinishedTurn(s);
    }

    /** The head's tick; the process of a completed request. */
    method TickIo() returns (p: int)
      requires ioQueue.Valid() && ioQueue.head != null
      modifies ioQueue, ioQueue.repr
      ensures ioQueue.Valid() && ioQueue.repr == old(ioQueue.repr)
      ensures var s := old(State());
        && s.io != []
        && if p == -1 then s.io[0].time > 0 && State() == IoTurn(s)
           else p == s.io[0].pid && s.io[0].time == 0 && State() == s.(io := s.io[1..])
    {
      p := ioQueue.TickHead();
    }

    method SimulateCreat()
      requires Valid() && Inv(State())
      modifies this, next, processes, current, cpus
      ensures Valid() && State() == CreatTurn(old(State()))
    {
      if time % 10 == 0 && created < processes.Length {
        CreatAdmits(State());
        WakeUp(created, created + 1);
        created := created + 1;
      }
    }

    /** Each idle CPU's thread runs once. */
    method IdleCpus()
      requires Valid()
      modifies `head, `ready, next, processes, current, cpus
      ensures Valid() && State() == IdleTurns(old(State()), cpus.Length)
    {
      ghost var s0 := State();
      for n: nat := 0 to cpus.Length
        invariant Valid() && State() == IdleTurns(s0, n)
      {
        Idle(n);
      }
    }

    /** One iteration of the supervisor's loop. */
    method Iterate()
      requires Valid() && ioQueue.Valid() && Inv(State())
      modifies this, next, processes, current, cpus, ioQueue, ioQueue.repr
      ensures ioQueue.Valid() && fresh(ioQueue.repr - old(ioQueue.repr))
      ensures Valid() && State() == Tick(old(State()))
    {
      ghost var s0 := State();
      SimulateCpus();
      TurnsInv(s0, cpus.Length, State());
      AfterCpus();
      IdleCpus();
    }

    /** The supervisor's half of an iteration behind the CPUs. */
    method AfterCpus()
      requires Valid() && ioQueue.Valid() && Inv(State())
      modifies this, next, processes, current, cpus, ioQueue, ioQueue.repr
      ensures ioQueue.Valid() && fresh(ioQueue.repr - old(ioQueue.repr))
      ensures Valid() && State() == SchedModel.Supervise(old(State()))
    {
      ghost var s1 := State();
      SimulateIo();
      StepInv(s1, IoStep, State());
      ghost var s2 := State();
      SimulateCreat();
      ghost var s3 := State();
      time := time + 1;
      SuperviseFrom(s1, s2, s3, State());
    }

    /** The supervisor's loop, to its exit test: it ends, within ten ticks per process plus the
        total work, with every process terminated. */
    method Supervise()
      requires Valid() && ioQueue.Valid() && Live(State()) && CountsDead(State()) && cpus.Length >= 1
      requires time == 0 && processes.Length >= 1
      modifies this, next, processes, current, cpus, ioQueue, ioQueue.repr
      ensures ioQueue.Valid() && fresh(ioQueue.repr - old(ioQueue.repr))
      ensures Valid() && Finished(State())
      ensures time <= 10 * processes.Length + old(Work(State()))
      ensures State() == Ticks(old(State()), time)
    {
      ghost var s0 := State();
      ghost var bound := 10 * processes.Length + Work(s0);
      FirstReached(s0);
      while terminated < processes.Length
        invariant ioQueue.Valid() && fresh(ioQueue.repr - old(ioQueue.repr))
        invariant Valid() && Reached(s0, State()) && time <= bound
        decreases bound - time
      {
        ReachedNext(s0, State());
        Iterate();
      }
      ReachedEnd(s0, State());
    }
  }

  /** The whole program, for any processes and any policy: it ends with all terminated. */
  method Simulate(policy: Policy, slice: int, programs: seq<seq<Op>>, estimates: seq<nat>, cpuCount: nat)
    returns (sim: OsSim)
    requires |estimates| == |programs| >= 1 && cpuCount >= 1
    requires forall p :: 0 <= p < |programs| ==> Shape(programs[p])
    ensures fresh(sim) && sim.Valid() && Finished(sim.State())
    ensures var s0 := Start(policy, slice, programs, estimates, cpuCount);
      sim.State() == Ticks(s0, sim.time) && sim.time <= 10 * |programs| + Work(s0)
  {
    ghost var s0 := Start(policy, slice, programs, estimates, cpuCount);
    StartLive(policy, slice, programs, estimates, cpuCount);
    StartHasNoDead(s0, |s0.procs|);
    sim := new OsSim(policy, slice, programs, estimates, cpuCount);
    sim.Supervise();
  }

  // ---- The list ----------------------------------------------------------------

  /** The node at position k, none at the end. */
  function NodeAt(ready: seq<nat>, k: nat): Option<nat> {
    if k < |ready| then Some(ready[k]) else None
  }

  ghost predicate LinkAt(next: seq<Option<nat>>, ready: seq<nat>, i: nat)
    requires i < |ready|
  {
    ready[i] < |next| && next[ready[i]] == NodeAt(ready, i + 1)
  }

  ghost predicate Linked(head: Option<nat>, next: seq<Option<nat>>, ready: seq<nat>) {
    && head == NodeAt(ready, 0)
    && (forall i: nat :: i < |ready| ==> LinkAt(next, ready, i))
    && (forall i: nat, j: nat :: i < j < |ready| ==> ready[i] != ready[j])
  }

  lemma PushLinks(links: seq<Option<nat>>, links': seq<Option<nat>>, ready: seq<nat>, p: nat)
    requires |links| == |links'| && p < |links| && p !in ready
    requires forall i: nat :: i < |ready| ==> LinkAt(links, ready, i)
    requires forall i: nat, j: nat :: i < j < |ready| ==> ready[i] != ready[j]
    requires links'[p] == None && (ready != [] ==> ready[|ready| - 1] < |links| && links'[ready[|ready| - 1]] == Some(p))
    requires forall x: nat :: x < |links| && x != p && (ready == [] || x != ready[|ready| - 1]) ==> links'[x] == links[x]
    ensures Linked(NodeAt(ready + [p], 0), links', ready + [p])
  {
    forall i: nat | i < |ready + [p]|
      ensures LinkAt(links', ready + [p], i)
    {
      assert i < |ready| ==> LinkAt(links, ready, i);
    }
  }

  lemma UnlinkLinks(links: seq<Option<nat>>, links': seq<Option<nat>>, ready: seq<nat>, k: nat)
    requires |links| == |links'| && k < |ready|
    requires forall i: nat :: i < |ready| ==> LinkAt(links, ready, i)
    requires forall i: nat, j: nat :: i < j < |ready| ==> ready[i] != ready[j]
    requires k == 0 ==> links' == links
    requires k > 0 ==> ready[k - 1] < |links| && links' == links[ready[k - 1] := NodeAt(ready, k + 1)]
    ensures Linked(NodeAt(RemoveAt(ready, k), 0), links', RemoveAt(ready, k))
  {
    var rest := RemoveAt(ready, k);
    forall i: nat | i < |rest|
      ensures rest[i] == ready[if i < k then i else i + 1]
      ensures LinkAt(links', rest, i)
    {
      assert LinkAt(links, ready, if i < k then i else i + 1);
    }
  }

  function Larger(a: nat, b: nat): nat {
    if a > b then a else b
  }

  // ---- What the handlers may assume ------------------------------------------------

  lemma PlacedMeans(s: Sim, count: nat)
    requires Placed(s, -1, count)
    ensures forall c: nat :: c < |s.current| ==> s.current[c] == s.cpus[c].current
    ensures forall c: nat :: c < |s.current| && s.current[c].Some? ==>
      s.current[c].value < |s.procs| && s.current[c].value !in s.ready
  {
    forall c: nat | c < |s.current| && s.current[c].Some?
      ensures s.current[c].value < |s.procs| && s.current[c].value !in s.ready
    {
      var p := s.current[c].value;
      assert On(s, c, p) && HasState(s, p, Running);
      assert !HasState(s, p, Ready);
    }
  }

  lemma HeadWakes(s: Sim, p: nat)
    requires Inv(s) && s.io != [] && s.io[0].pid == p
    ensures p < |s.procs| && p !in s.ready
    ensures Placed(Push(SetState(IoFinished(s), p, Ready), p), -1, s.created)
  {
    IoAdmits(s, s.created);
  }

  lemma NextTurn(s: Sim, t: Sim, cpu: nat, p: nat)
    requires cpu < |s.current| && cpu < |s.cpus| && s.cpus[cpu].current == Some(p) && p < |s.procs|
    requires var pcb := s.procs[p]; pcb.pc + 1 < |pcb.ops| && pcb.ops[pcb.pc] == Cpu(0)
    requires t == s.(procs := s.procs[p := Advance(s.procs[p])])
    ensures CpuTurn(s, cpu) == match t.procs[p].ops[t.procs[p].pc]
      case Io(u) => SchedModel.Yield(t.(io := t.io + [IoRequest(p, u)]), cpu)
      case End => SchedModel.Terminate(t, cpu)
      case Cpu(_) => t
  {
  }

  lemma TerminateIs(s: Sim, t: Sim, r: Sim, cpu: nat)
    requires cpu < |s.current| && cpu < |s.cpus| && s.current[cpu].Some?
    requires t == SetState(s.(terminated := s.terminated + 1), s.current[cpu].value, Terminated)
    requires r == SchedModel.Schedule(t, cpu)
    ensures r == SchedModel.Terminate(s, cpu)
  {
  }

  lemma OneTurn(s0: Sim, n: nat, s: Sim, r: Sim)
    requires n < |s0.cpus| == |s0.current| && s == CpuTurns(s0, n) && r == CpuTurn(s, n)
    ensures r == CpuTurns(s0, n + 1)
  {
  }

  lemma TurnsInv(s0: Sim, n: nat, s: Sim)
    requires Inv(s0) && n <= |s0.cpus| && s == CpuTurns(s0, n)
    ensures Inv(s)
  {
    TurnsKeep(s0, n, 0);
  }

  lemma StepInv(s: Sim, e: Event, r: Sim)
    requires Inv(s) && r == Do(s, e)
    ensures Inv(r)
  {
    StepKeeps(s, e);
  }

  lemma SuperviseFrom(s1: Sim, s2: Sim, s3: Sim, r: Sim)
    requires |s1.current| == |s1.cpus| && s2 == IoTurn(s1) && s3 == CreatTurn(s2) && r == s3.(time := s3.time + 1)
    ensures r == SchedModel.Supervise(s1)
  {
  }

  lemma LowestInRange(s: Sim, i: nat, low: nat, lowId: int)
    requires i <= |s.current| && -1 <= lowId < |s.current|
    ensures -1 <= Lowest(s, i, low, lowId).0 < |s.current|
    decreases |s.current| - i
  {
  }
}
