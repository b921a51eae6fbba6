// Whole runs of the pipeline: for every program free of hazards and every number
// of cycles, the visible state is that of the sequential machine.
module PipeRuns {
  import opened MipsIsa
  import opened MachineWords
  import opened PipeCore
  import opened PipeRefines

  // ---- Counting instructions by the stall history ------------------------------

  /** Whether decode stalls in cycle n. */
  type History = nat -> bool

  function StallHistory(iram: Program, p: Pipe): History {
    (n: nat) => Stalls(Cycles(iram, p, n))
  }

  /** Instructions that have left decode after n cycles: one per cycle without a stall. */
  function Issued(st: History, n: nat): (k: nat)
    ensures k <= n
  {
    if n == 0 then 0 else Issued(st, n - 1) + (if st(n - 1) then 0 else 1)
  }

  /** Whether a stage holds an instruction after n cycles; d = 0, 1, 2 for EX, MEM, WB. */
  predicate Occupied(st: History, n: nat, d: nat) {
    n > d && !st(n - 1 - d)
  }

  /** Instructions past EX, past MEM and past WB after n cycles. */
  function PastEx(st: History, n: nat): int {
    Issued(st, n) - (if Occupied(st, n, 0) then 1 else 0)
  }

  function PastMem(st: History, n: nat): int {
    PastEx(st, n) - (if Occupied(st, n, 1) then 1 else 0)
  }

  function PastWb(st: History, n: nat): int {
    PastMem(st, n) - (if Occupied(st, n, 2) then 1 else 0)
  }

  lemma StagesShift(st: History, n: nat)
    ensures PastEx(st, n + 1) == Issued(st, n)
    ensures PastMem(st, n + 1) == PastEx(st, n)
    ensures PastWb(st, n + 1) == PastMem(st, n)
    ensures Occupied(st, n + 1, 0) == !st(n)
    ensures Occupied(st, n + 1, 1) == Occupied(st, n, 0)
    ensures Occupied(st, n + 1, 2) == Occupied(st, n, 1)
    ensures Issued(st, n + 1) == Issued(st, n) + (if st(n) then 0 else 1)
  {
  }

  lemma {:induction false} StageBounds(st: History, n: nat)
    ensures 0 <= PastWb(st, n) <= PastMem(st, n) <= PastEx(st, n) <= Issued(st, n) <= PastWb(st, n) + 3
  {
    if n >= 1 {
      StageBounds(st, n - 1);
      StagesShift(st, n - 1);
    }
  }

  // ---- The in-flight view of a run ---------------------------------------------

  /** How many instructions have left decode, and which of EX, MEM and WB they fill. */
  datatype Stages = Stages(issued: nat, ex: bool, mem: bool, wb: bool) {
    function PastEx(): int { issued - (if ex then 1 else 0) }
    function PastMem(): int { PastEx() - (if mem then 1 else 0) }
    function PastWb(): int { PastMem() - (if wb then 1 else 0) }
  }

  type Filling = s: Stages | 0 <= s.PastWb() witness Stages(0, false, false, false)

  /** Decode stalls behind a load in EX whose target the R-type instruction in it reads. */
  predicate StallsIn(run: Run, s: Filling) {
    s.ex && LoadUse(run(s.PastEx()).ir, run(s.issued).ir)
  }

  function Advance(s: Filling, stall: bool): Filling {
    Stages(if stall then s.issued else s.issued + 1, !stall, s.ex, s.mem)
  }

  /** The stages after n cycles, read off the sequential run alone. */
  function StagesAt(run: Run, n: nat): (s: Filling)
    ensures s.issued <= n
  {
    if n == 0 then Stages(0, false, false, false)
    else
      var s := StagesAt(run, n - 1);
      Advance(s, StallsIn(run, s))
  }

  /** The in-flight view of those stages. */
  function FlightOf(run: Run, s: Filling): Flight {
    Flight(run(s.PastWb()), run(s.PastMem()), run(s.PastEx()), run(s.issued), s.wb, s.mem, s.ex)
  }

  lemma FlightMoves(run: Run, s: Filling, stall: bool)
    ensures FlightOf(run, Advance(s, stall)) == NextFlight(FlightOf(run, s), stall, run(s.issued + 1))
  {
  }

  /** Hazard freedom of the sequential run covers the instructions in EX and in decode. */
  lemma FlightIsSafe(run: Run, s: Filling, n: nat)
    requires HazardFree(run, n) && s.issued <= n
    ensures HazardFreeFlight(FlightOf(run, s))
  {
    assert HazardFreeAt(run, s.PastWb());
    assert HazardFreeAt(run, s.PastEx());
    assert HazardFreeAt(run, s.issued);
  }

  /** A stall history that stalls as the sequential run says counts the same stages. */
  ghost predicate Counted(st: History, n: nat, s: Filling) {
    && Issued(st, n) == s.issued
    && Occupied(st, n, 0) == s.ex && Occupied(st, n, 1) == s.mem && Occupied(st, n, 2) == s.wb
  }

  lemma CountedStages(st: History, n: nat, s: Filling)
    requires Counted(st, n, s)
    ensures PastEx(st, n) == s.PastEx() && PastMem(st, n) == s.PastMem() && PastWb(st, n) == s.PastWb()
  {
  }

  lemma CountedNext(st: History, n: nat, s: Filling, stall: bool)
    requires Counted(st, n, s) && st(n) == stall
    ensures Counted(st, n + 1, Advance(s, stall))
  {
    StagesShift(st, n);
  }

  /** The states of the sequential machine, one instruction after the other. */
  ghost predicate Sequential(iram: Program, run: Run) {
    forall k: nat {:trigger Exec(iram, run(k))} :: run(k + 1) == Exec(iram, run(k))
  }

  lemma RunFromIsSequential(iram: Program, a: Arch)
    ensures Sequential(iram, RunFrom(iram, a))
  {
  }

  lemma CyclesStep(iram: Program, p: Pipe, n: nat)
    ensures Cycles(iram, p, n + 1) == Cycle(iram, Cycles(iram, p, n))
    ensures StallHistory(iram, p)(n) == Stalls(Cycles(iram, p, n))
  {
  }

  // ---- Tracking -----------------------------------------------------------------

  /** The pipeline state is that of the sequential run with these stages filled. */
  ghost predicate Tracks(iram: Program, q: Pipe, run: Run, s: Filling) {
    Related(iram, q, FlightOf(run, s))
  }

  ghost predicate Safe(run: Run, s: Filling) {
    ExecuteSafe(FlightOf(run, s)) && StallSafe(FlightOf(run, s))
  }

  lemma TrackStep(iram: Program, q: Pipe, run: Run, s: Filling)
    requires Sequential(iram, run) && Tracks(iram, q, run, s)
    ensures Stalls(q) == StallsIn(run, s)
    ensures Tracks(iram, Cycle(iram, q), run, Advance(s, StallsIn(run, s))) <==> Safe(run, s)
  {
    assert run(s.issued + 1) == Exec(iram, run(s.issued));
    StallIff(iram, q, FlightOf(run, s));
    FlightMoves(run, s, StallsIn(run, s));
    CycleRelatedIff(iram, q, FlightOf(run, s));
  }

  /** After m cycles. */
  ghost predicate TracksAt(iram: Program, p: Pipe, run: Run, m: nat) {
    Tracks(iram, Cycles(iram, p, m), run, StagesAt(run, m))
  }

  ghost predicate SafeAt(run: Run, m: nat) {
    Safe(run, StagesAt(run, m))
  }

  lemma TrackStepAt(iram: Program, p: Pipe, run: Run, n: nat)
    requires Sequential(iram, run) && TracksAt(iram, p, run, n)
    ensures StallHistory(iram, p)(n) == StallsIn(run, StagesAt(run, n))
    ensures TracksAt(iram, p, run, n + 1) <==> SafeAt(run, n)
  {
    CyclesStep(iram, p, n);
    TrackStep(iram, Cycles(iram, p, n), run, StagesAt(run, n));
  }

  lemma PowerUpTracks(iram: Program, regs: Memory, dram: Memory)
    ensures TracksAt(iram, PowerUp(regs, dram), RunFrom(iram, Reset(regs, dram)), 0)
  {
  }

  /** A property that holds at first, and carries over a step exactly when the step is good. */
  lemma {:induction false} HoldsIffGood(holds: nat -> bool, good: nat -> bool, n: nat)
    requires holds(0)
    requires forall m: nat :: holds(m) ==> (holds(m + 1) <==> good(m))
    ensures (forall m: nat :: m <= n ==> holds(m)) <==> (forall m: nat :: m < n ==> good(m))
  {
    if n > 0 {
      HoldsIffGood(holds, good, n - 1);
      assert holds(n - 1) ==> (holds(n - 1 + 1) <==> good(n - 1));
    }
  }

  /** Every program, every start, every number of cycles: the pipeline tracks the sequential
      machine exactly as long as every execute and every stall of the sequential run is safe. */
  lemma PipelineTracksIff(iram: Program, regs: Memory, dram: Memory, n: nat)
    ensures var p, run := PowerUp(regs, dram), RunFrom(iram, Reset(regs, dram));
      (forall m: nat :: m <= n ==> TracksAt(iram, p, run, m)) <==> (forall m: nat :: m < n ==> SafeAt(run, m))
  {
    PowerUpTracks(iram, regs, dram);
    RunFromIsSequential(iram, Reset(regs, dram));
    TracksIff(iram, PowerUp(regs, dram), RunFrom(iram, Reset(regs, dram)), n);
  }

  lemma TracksIff(iram: Program, p: Pipe, run: Run, n: nat)
    requires Sequential(iram, run) && TracksAt(iram, p, run, 0)
    ensures (forall m: nat :: m <= n ==> TracksAt(iram, p, run, m)) <==> (forall m: nat :: m < n ==> SafeAt(run, m))
  {
    ghost var holds: nat -> bool := (m: nat) => TracksAt(iram, p, run, m);
    ghost var good: nat -> bool := (m: nat) => SafeAt(run, m);
    forall m: nat | holds(m)
      ensures holds(m + 1) <==> good(m)
    {
      TrackStepAt(iram, p, run, m);
    }
    HoldsIffGood(holds, good, n);
    assert forall m: nat :: holds(m) == TracksAt(iram, p, run, m);
    assert forall m: nat :: good(m) == SafeAt(run, m);
  }

  /** Programs without the four hazards are safe throughout. */
  lemma HazardFreeTracks(iram: Program, regs: Memory, dram: Memory, n: nat)
    requires HazardFree(RunFrom(iram, Reset(regs, dram)), n)
    ensures TracksAt(iram, PowerUp(regs, dram), RunFrom(iram, Reset(regs, dram)), n)
  {
    PowerUpTracks(iram, regs, dram);
    RunFromIsSequential(iram, Reset(regs, dram));
    HazardFreeRun(iram, PowerUp(regs, dram), RunFrom(iram, Reset(regs, dram)), n);
  }

  ghost predicate RunsOn(iram: Program, p: Pipe, run: Run, m: nat) {
    TracksAt(iram, p, run, m) && Counted(StallHistory(iram, p), m, StagesAt(run, m))
  }

  lemma HazardFreeRun(iram: Program, p: Pipe, run: Run, n: nat)
    requires Sequential(iram, run) && TracksAt(iram, p, run, 0) && HazardFree(run, n)
    ensures RunsOn(iram, p, run, n)
  {
    ghost var holds: nat -> bool := (m: nat) => m <= n ==> RunsOn(iram, p, run, m);
    assert holds(0);
    forall m: nat | holds(m)
      ensures holds(m + 1)
    {
      if m < n {
        RunsOnNext(iram, p, run, m, n);
      }
    }
    HoldsIffGood(holds, (m: nat) => true, n);
    assert holds(n);
  }

  lemma RunsOnNext(iram: Program, p: Pipe, run: Run, m: nat, n: nat)
    requires Sequential(iram, run) && HazardFree(run, n) && m < n && RunsOn(iram, p, run, m)
    ensures RunsOn(iram, p, run, m + 1)
  {
    assert HazardFree(run, m);
    CyclesStep(iram, p, m);
    HazardFreeNext(iram, Cycles(iram, p, m), run, StagesAt(run, m), StallHistory(iram, p), m);
  }

  lemma HazardFreeNext(iram: Program, q: Pipe, run: Run, s: Filling, st: History, n: nat)
    requires Sequential(iram, run) && HazardFree(run, n) && s.issued <= n
    requires Tracks(iram, q, run, s) && Counted(st, n, s) && st(n) == Stalls(q)
    ensures var s' := Advance(s, StallsIn(run, s));
      Tracks(iram, Cycle(iram, q), run, s') && Counted(st, n + 1, s')
  {
    HazardFreeStep(iram, q, run, s, n);
    TrackStep(iram, q, run, s);
    CountedNext(st, n, s, StallsIn(run, s));
  }

  lemma HazardFreeStep(iram: Program, q: Pipe, run: Run, s: Filling, n: nat)
    requires HazardFree(run, n) && s.issued <= n && Tracks(iram, q, run, s)
    ensures Safe(run, s)
  {
    FlightIsSafe(run, s, n);
    HazardFreeIsSafe(iram, q, FlightOf(run, s));
  }

  /** Such programs stall exactly when their sequential run says so. */
  lemma StallsPredicted(iram: Program, regs: Memory, dram: Memory, n: nat)
    requires HazardFree(RunFrom(iram, Reset(regs, dram)), n)
    ensures var st, run := StallHistory(iram, PowerUp(regs, dram)), RunFrom(iram, Reset(regs, dram));
      Counted(st, n, StagesAt(run, n)) && st(n) == StallsIn(run, StagesAt(run, n))
  {
    var p, run := PowerUp(regs, dram), RunFrom(iram, Reset(regs, dram));
    PowerUpTracks(iram, regs, dram);
    RunFromIsSequential(iram, Reset(regs, dram));
    HazardFreeRun(iram, p, run, n);
    TrackStepAt(iram, p, run, n);
  }

  /** What tracking shows from outside. */
  lemma TrackedShows(iram: Program, q: Pipe, run: Run, s: Filling, st: History, n: nat)
    requires Tracks(iram, q, run, s) && Counted(st, n, s)
    ensures 0 <= PastMem(st, n) <= PastEx(st, n)
    ensures q.regs == run(PastMem(st, n)).regs && q.dram == run(PastEx(st, n)).dram
    ensures q.ifId == IfId(run(Issued(st, n)).pc4, run(Issued(st, n)).ir) && q.pc == run(Issued(st, n)).f1
  {
    CountedStages(st, n, s);
  }

  /** After any number of cycles: registers are those after the instructions that reached WB,
      data memory those after the ones that reached MEM, and decode and PC hold the next fetches. */
  lemma PipelineRefines(iram: Program, regs: Memory, dram: Memory, n: nat)
    requires HazardFree(RunFrom(iram, Reset(regs, dram)), n)
    ensures var p, run := PowerUp(regs, dram), RunFrom(iram, Reset(regs, dram));
      var now, st := Cycles(iram, p, n), StallHistory(iram, p);
      && 0 <= PastMem(st, n) <= PastEx(st, n)
      && now.regs == run(PastMem(st, n)).regs
      && now.dram == run(PastEx(st, n)).dram
      && now.ifId == IfId(run(Issued(st, n)).pc4, run(Issued(st, n)).ir)
      && now.pc == run(Issued(st, n)).f1
  {
    var p, run := PowerUp(regs, dram), RunFrom(iram, Reset(regs, dram));
    HazardFreeTracks(iram, regs, dram, n);
    StallsPredicted(iram, regs, dram, n);
    TrackedShows(iram, Cycles(iram, p, n), run, StagesAt(run, n), StallHistory(iram, p), n);
  }

  /** A stall lasts one cycle; decode holds the same instruction through it and EX gets a bubble. */
  lemma StallIsOneCycle(iram: Program, p: Pipe)
    requires Stalls(p)
    ensures !Stalls(Cycle(iram, p))
    ensures Cycle(iram, p).ifId == p.ifId && Cycle(iram, p).pc == p.pc && Cycle(iram, p).idEx == BUBBLE
  {
  }

  /** At least one instruction issues in any two cycles, and all but the last three have retired. */
  lemma {:induction false} ProgressBound(st: History, n: nat)
    requires forall m: nat :: st(m) ==> !st(m + 1)
    ensures n <= 2 * Issued(st, n) + (if n > 0 && st(n - 1) then 1 else 0)
    ensures Issued(st, n) - 3 <= PastWb(st, n)
  {
    StageBounds(st, n);
    if n >= 1 {
      ProgressBound(st, n - 1);
      assert n >= 2 && st(n - 2) ==> !st(n - 2 + 1);
    }
  }

  lemma PipelineProgress(iram: Program, p: Pipe, n: nat)
    ensures var st := StallHistory(iram, p);
      n <= 2 * Issued(st, n) + 1 && Issued(st, n) - 3 <= PastWb(st, n)
  {
    var st := StallHistory(iram, p);
    forall m: nat | st(m)
      ensures !st(m + 1)
    {
      CyclesStep(iram, p, m);
      CyclesStep(iram, p, m + 1);
      StallIsOneCycle(iram, Cycles(iram, p, m));
    }
    ProgressBound(st, n);
  }

  /** ALU operands during every cycle of a hazard-free run: the values after all older instructions. */
  lemma OperandsThroughoutRun(iram: Program, regs: Memory, dram: Memory, n: nat)
    requires HazardFree(RunFrom(iram, Reset(regs, dram)), n)
    ensures var p, run := PowerUp(regs, dram), RunFrom(iram, Reset(regs, dram));
      var x, st := Cycles(iram, p, n), StallHistory(iram, p);
      0 <= PastEx(st, n) &&
      (Occupied(st, n, 0) ==>
        var older := run(PastEx(st, n));
        var i := older.ir;
        && x.idEx.instr == i
        && (i.IsR() || i.IsLw() || i.IsSw() || i.IsBeq() ==>
            && AInput(x.idEx, x.exMem, x.memWb) == older.regs[i.rs]
            && (!x.idEx.ctl.aluSrc ==> BInput(x.idEx, x.exMem, x.memWb) == older.regs[i.rt])))
  {
    var p, run := PowerUp(regs, dram), RunFrom(iram, Reset(regs, dram));
    HazardFreeTracks(iram, regs, dram, n);
    StallsPredicted(iram, regs, dram, n);
    TrackedOperands(iram, Cycles(iram, p, n), run, StagesAt(run, n), StallHistory(iram, p), n);
  }

  lemma TrackedOperands(iram: Program, x: Pipe, run: Run, s: Filling, st: History, n: nat)
    requires Tracks(iram, x, run, s) && Counted(st, n, s) && HazardFree(run, n) && s.issued <= n
    ensures 0 <= PastEx(st, n)
    ensures Occupied(st, n, 0) ==>
      var older := run(PastEx(st, n));
      var i := older.ir;
      && x.idEx.instr == i
      && (i.IsR() || i.IsLw() || i.IsSw() || i.IsBeq() ==>
          && AInput(x.idEx, x.exMem, x.memWb) == older.regs[i.rs]
          && (!x.idEx.ctl.aluSrc ==> BInput(x.idEx, x.exMem, x.memWb) == older.regs[i.rt]))
  {
    FlightIsSafe(run, s, n);
    var f := FlightOf(run, s);
    var i := f.s2.ir;
    if f.ex && (i.IsR() || i.IsLw() || i.IsSw() || i.IsBeq()) {
      OperandsAreRight(iram, x, f);
    }
  }

  /** Three delay slots: a taken branch changes the fourth fetch after it, and only that one. */
  lemma ThreeDelaySlots(iram: Program, a: Arch)
    ensures var f1, f2, f3 := a.f1, a.f2, a.f3;
      && SeqRun(iram, a, 1).ir == Fetch(iram, f1)
      && SeqRun(iram, a, 2).ir == Fetch(iram, f2)
      && SeqRun(iram, a, 3).ir == Fetch(iram, f3)
      && SeqRun(iram, a, 4).ir == Fetch(iram, if Taken(a) then BranchTarget(a.pc4, a.ir) else Next(f3))
  {
    assert SeqRun(iram, a, 1) == Exec(iram, a);
    assert SeqRun(iram, a, 2) == Exec(iram, SeqRun(iram, a, 1));
    assert SeqRun(iram, a, 3) == Exec(iram, SeqRun(iram, a, 2));
    assert SeqRun(iram, a, 4) == Exec(iram, SeqRun(iram, a, 3));
  }

  /** The fetch addresses decided when instruction k executes, as they come up later in a run. */
  lemma FetchesAfter(iram: Program, run: Run, k: nat)
    requires Sequential(iram, run)
    ensures run(k + 1).f1 == run(k).f2 && run(k + 2).f1 == run(k).f3 && run(k + 3).f1 == Decided(run(k))
    ensures run(k + 1).ir == Fetch(iram, run(k).f1) && run(k + 2).ir == Fetch(iram, run(k).f2)
    ensures run(k + 3).ir == Fetch(iram, run(k).f3) && run(k + 4).ir == Fetch(iram, Decided(run(k)))
  {
    assert run(k + 1) == Exec(iram, run(k));
    assert run(k + 1 + 1) == Exec(iram, run(k + 1));
    assert run(k + 2 + 1) == Exec(iram, run(k + 2));
    assert run(k + 3 + 1) == Exec(iram, run(k + 3));
  }

  /** From reset the addresses fetched are 0, 4, 8 and 12, and then each is the word after the one before,
      except the fourth after a taken branch, which is its signed offset away from the word behind it. */
  lemma ProgramOrder(iram: Program, regs: Memory, dram: Memory, run: Run, k: nat)
    requires Sequential(iram, run) && run(0) == Reset(regs, dram)
    ensures run(k + 1).ir == Fetch(iram, run(k).f1)
    ensures run(0).f1 == 0 && run(1).f1 == 4 && run(2).f1 == 8 && run(3).f1 == 12
    ensures SameWord(run(k + 4).f1,
      if Taken(run(k + 1)) then run(k).f1 + 4 + 4 * SignedHalf(run(k + 1).ir.imm) else run(k + 3).f1 + 4)
  {
    FetchesAfter(iram, run, 0);
    FetchesAfter(iram, run, k);
    FetchesAfter(iram, run, k + 1);
    assert run(k + 1) == Exec(iram, run(k));
    DecidedFrom(run(k + 1), run(k).f1);
  }

  lemma DecidedFrom(a: Arch, at: Word)
    requires a.pc4 == Next(at)
    ensures SameWord(Decided(a), if Taken(a) then at + 4 + 4 * SignedHalf(a.ir.imm) else a.f3 + 4)
  {
    TargetFrom(at, a.ir);
    BranchMeaning(a.f3, a.ir);
  }

  /** The same on the pipeline: for a hazard-free program, once the three instructions behind a
      branch have left decode, decode holds the word at the branch target if the branch is taken
      and the next word in line if not. */
  lemma PipelineDelaySlots(iram: Program, regs: Memory, dram: Memory, n: nat, k: nat)
    requires HazardFree(RunFrom(iram, Reset(regs, dram)), n)
    requires Issued(StallHistory(iram, PowerUp(regs, dram)), n) == k + 4
    ensures var branch := RunFrom(iram, Reset(regs, dram))(k);
      Cycles(iram, PowerUp(regs, dram), n).ifId.instr
        == Fetch(iram, if Taken(branch) then BranchTarget(branch.pc4, branch.ir) else Next(branch.f3))
  {
    var run := RunFrom(iram, Reset(regs, dram));
    PipelineRefines(iram, regs, dram, n);
    RunFromIsSequential(iram, Reset(regs, dram));
    FetchesAfter(iram, run, k);
  }
}
