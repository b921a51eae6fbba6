// What the pipeline shows - registers, data memory, decode register and PC - and exactly
// which sequential runs it shows right. A wrong value in flight counts only if it comes out.
module PipeVisible {
  import opened MipsIsa
  import opened PipeCore
  import opened PipeRefines
  import opened PipeRuns

  /** The visible state is that of the sequential run with these instructions in flight. */
  ghost predicate Shows(p: Pipe, f: Flight) {
    && p.regs == f.s1.regs && p.dram == f.s2.dram
    && p.ifId == IfId(f.s3.pc4, f.s3.ir) && p.pc == f.s3.f1
  }

  // ---- Values as the pipeline has them -----------------------------------------------

  /** What the instruction in MEM took from EX, right or wrong: its ALU result, and whether the
      operands were equal. */
  datatype Carried = Carried(alu: Word, equal: bool)

  /** The value EX uses for a register when MEM carries c: behind a load it is the load's address. */
  function Used(f: Flight, c: Carried, r: Reg): Word {
    if r == 0 then f.s0.regs[0]
    else if f.mem && f.s1.ir.IsLw() && f.s1.ir.rt == r then c.alu
    else f.s2.regs[r]
  }

  function Computes(f: Flight, c: Carried): Carried {
    var i := f.s2.ir;
    var a, b := Used(f, c, i.rs), Used(f, c, i.rt);
    Carried(if i.IsR() then RType(i.Funct(), a, b) else Add(a, SignExtend(i.imm)), a == b)
  }

  /** What the instruction in EX computes comes out right: the sum, the word loaded, the memory
      stored to. */
  ghost predicate ComesOutRight(f: Flight, c: Carried) {
    var i, alu := f.s2.ir, Computes(f, c).alu;
    f.ex ==>
      && (i.IsR() ==> alu == Result(f.s2))
      && (i.IsLw() ==> f.s2.dram[Cell(alu)] == Result(f.s2))
      && (i.IsSw() ==> f.s2.dram[Cell(alu) := f.s0.regs[i.rt]] == DramAfter(f.s2))
  }

  /** Without a stall the next fetch is the sequential one. */
  ghost predicate FetchesRight(f: Flight, c: Carried) {
    !(f.ex && LoadUse(f.s2.ir, f.s3.ir)) ==>
      f.s3.f2 == if f.mem && f.s1.ir.IsBeq() && c.equal then BranchTarget(f.s1.pc4, f.s1.ir) else Next(f.s3.f1)
  }

  ghost predicate Carries(x: ExMem, f: Flight, c: Carried) {
    var i := f.s1.ir;
    if f.mem then
      && x.regWrite == (i.IsR() || i.IsLw()) && x.memToReg == x.memRead == i.IsLw()
      && x.memWrite == i.IsSw() && x.branch == i.IsBeq()
      && x.wreg == (if i.IsR() then i.Rd() else i.rt)
      && (i.IsR() ==> x.aluResult == Result(f.s1))
      && (i.IsLw() ==> x.aluResult == c.alu && f.s1.dram[Cell(c.alu)] == Result(f.s1))
      && (i.IsBeq() ==> x.zero == c.equal && x.branchPc == BranchTarget(f.s1.pc4, i))
    else !x.regWrite && !x.memWrite && !x.branch
  }

  ghost predicate Carrying(iram: Program, p: Pipe, f: Flight, c: Carried) {
    && Linked(iram, f) && Shows(p, f)
    && InExecute(p.idEx, f) && Carries(p.exMem, f, c) && InWriteBack(p.memWb, f)
  }

  // ---- One cycle ----------------------------------------------------------------------

  lemma UsedIsForwarded(iram: Program, p: Pipe, f: Flight, c: Carried, r: Reg)
    requires Carrying(iram, p, f, c)
    ensures Forwarded(ForwardUnit(r, p.exMem, p.memWb), f.s0.regs[r], p.exMem, p.memWb) == Used(f, c, r)
  {
    WriteBackShows(iram, f.s0, r);
    WriteBackShows(iram, f.s1, r);
  }

  /** What EX hands on, whatever its operands. */
  lemma Executed(iram: Program, p: Pipe, f: Flight, c: Carried)
    requires Carrying(iram, p, f, c) && f.ex
    ensures var x, i := Execute(p.idEx, p.exMem, p.memWb), f.s2.ir;
      && x.regWrite == (i.IsR() || i.IsLw()) && x.memToReg == x.memRead == i.IsLw()
      && x.memWrite == i.IsSw() && x.branch == i.IsBeq()
      && x.wreg == (if i.IsR() then i.Rd() else i.rt) && x.writeData == f.s0.regs[i.rt]
      && (i.IsR() || i.IsLw() || i.IsSw() ==> x.aluResult == Computes(f, c).alu)
      && (i.IsBeq() ==> x.zero == Computes(f, c).equal && x.branchPc == BranchTarget(f.s2.pc4, i))
  {
    var i, x := f.s2.ir, p.idEx;
    UsedIsForwarded(iram, p, f, c, i.rs);
    UsedIsForwarded(iram, p, f, c, i.rt);
    AluMeaning(x, i, AInput(x, p.exMem, p.memWb), BInput(x, p.exMem, p.memWb));
    TargetsAgree(x, i);
    SubZero(Used(f, c, i.rs), Used(f, c, i.rt));
  }

  lemma StallSeen(iram: Program, p: Pipe, f: Flight, c: Carried)
    requires Carrying(iram, p, f, c)
    ensures Stalls(p) <==> f.ex && LoadUse(f.s2.ir, f.s3.ir)
  {
  }

  lemma WrittenBack(iram: Program, p: Pipe, f: Flight, c: Carried)
    requires Carrying(iram, p, f, c)
    ensures var q := Cycle(iram, p);
      InWriteBack(q.memWb, NextFlight(f, Stalls(p), Exec(iram, f.s3))) && q.regs == f.s2.regs
  {
  }

  lemma MemoryShows(iram: Program, p: Pipe, f: Flight, c: Carried)
    requires Carrying(iram, p, f, c)
    ensures Cycle(iram, p).dram == f.s3.dram <==>
      (f.ex && f.s2.ir.IsSw() ==> f.s2.dram[Cell(Computes(f, c).alu) := f.s0.regs[f.s2.ir.rt]] == DramAfter(f.s2))
  {
    if f.ex {
      Executed(iram, p, f, c);
    }
  }

  lemma FetchShows(iram: Program, p: Pipe, f: Flight, c: Carried)
    requires Carrying(iram, p, f, c)
    ensures var q, f' := Cycle(iram, p), NextFlight(f, Stalls(p), Exec(iram, f.s3));
      && q.ifId == IfId(f'.s3.pc4, f'.s3.ir)
      && (q.pc == f'.s3.f1 <==> FetchesRight(f, c))
  {
    StallSeen(iram, p, f, c);
  }

  lemma CarriedOn(iram: Program, p: Pipe, f: Flight, c: Carried)
    requires Carrying(iram, p, f, c)
    ensures var q, f' := Cycle(iram, p), NextFlight(f, Stalls(p), Exec(iram, f.s3));
      && InExecute(q.idEx, f')
      && (Carries(q.exMem, f', Computes(f, c)) <==>
          (f.ex && f.s2.ir.IsR() ==> Computes(f, c).alu == Result(f.s2)) &&
          (f.ex && f.s2.ir.IsLw() ==> f.s2.dram[Cell(Computes(f, c).alu)] == Result(f.s2)))
  {
    StallSeen(iram, p, f, c);
    if f.ex {
      Executed(iram, p, f, c);
    }
  }

  /** One edge carries on exactly when EX comes out right and the fetch is right. */
  lemma CarryingIff(iram: Program, p: Pipe, f: Flight, c: Carried)
    requires Carrying(iram, p, f, c)
    ensures Carrying(iram, Cycle(iram, p), NextFlight(f, Stalls(p), Exec(iram, f.s3)), Computes(f, c))
       <==> ComesOutRight(f, c) && FetchesRight(f, c)
  {
    WrittenBack(iram, p, f, c);
    MemoryShows(iram, p, f, c);
    FetchShows(iram, p, f, c);
    CarriedOn(iram, p, f, c);
  }

  /** A wrong value comes out: memory and fetch one edge later, a register two edges later. */
  lemma WrongShows(iram: Program, p: Pipe, f: Flight, c: Carried, q: Pipe)
    requires Carrying(iram, p, f, c) && q == Cycle(iram, p)
    requires Shows(q, NextFlight(f, Stalls(p), Exec(iram, f.s3))) && Cycle(iram, q).regs == f.s3.regs
    ensures ComesOutRight(f, c) && FetchesRight(f, c)
  {
    MemoryShows(iram, p, f, c);
    FetchShows(iram, p, f, c);
    WrittenBack(iram, p, f, c);
    if f.ex && (f.s2.ir.IsR() || f.s2.ir.IsLw()) {
      Executed(iram, p, f, c);
      RegisterShows(iram, f, q);
    }
  }

  /** The register file two edges on holds what EX handed on. */
  lemma RegisterShows(iram: Program, f: Flight, q: Pipe)
    requires f.s3 == Exec(iram, f.s2) && (f.s2.ir.IsR() || f.s2.ir.IsLw())
    requires q.regs == f.s2.regs && q.dram == f.s3.dram && Cycle(iram, q).regs == f.s3.regs
    requires q.exMem.regWrite && q.exMem.memToReg == q.exMem.memRead == f.s2.ir.IsLw()
    requires q.exMem.wreg == if f.s2.ir.IsR() then f.s2.ir.Rd() else f.s2.ir.rt
    ensures f.s2.ir.IsR() ==> q.exMem.aluResult == Result(f.s2)
    ensures f.s2.ir.IsLw() ==> f.s2.dram[Cell(q.exMem.aluResult)] == Result(f.s2)
  {
    var r := q.exMem.wreg;
    assert Cycle(iram, q).regs[r] == f.s3.regs[r];
  }

  // ---- Whole runs -----------------------------------------------------------------------

  /** What MEM carries after n cycles, by the values of the sequential run alone. */
  function CarriedAt(run: Run, n: nat): Carried {
    if n == 0 then Carried(0, false)
    else Computes(FlightOf(run, StagesAt(run, n - 1)), CarriedAt(run, n - 1))
  }

  /** In cycle m what EX computes comes out right, and the fetch is right. */
  ghost predicate RightAt(run: Run, m: nat) {
    var f, c := FlightOf(run, StagesAt(run, m)), CarriedAt(run, m);
    ComesOutRight(f, c) && FetchesRight(f, c)
  }

  /** After m cycles the visible state is the sequential machine's. */
  ghost predicate ShowsAt(iram: Program, p: Pipe, run: Run, m: nat) {
    Shows(Cycles(iram, p, m), FlightOf(run, StagesAt(run, m)))
  }

  ghost predicate CarryingAt(iram: Program, p: Pipe, run: Run, m: nat) {
    Carrying(iram, Cycles(iram, p, m), FlightOf(run, StagesAt(run, m)), CarriedAt(run, m))
  }

  lemma PowerUpCarries(iram: Program, regs: Memory, dram: Memory)
    ensures CarryingAt(iram, PowerUp(regs, dram), RunFrom(iram, Reset(regs, dram)), 0)
  {
  }

  lemma CarryStep(iram: Program, q: Pipe, run: Run, s: Filling, c: Carried)
    requires Sequential(iram, run) && Carrying(iram, q, FlightOf(run, s), c)
    ensures Stalls(q) == StallsIn(run, s)
    ensures FlightOf(run, Advance(s, StallsIn(run, s))) == NextFlight(FlightOf(run, s), Stalls(q), Exec(iram, run(s.issued)))
  {
    assert run(s.issued + 1) == Exec(iram, run(s.issued));
    StallSeen(iram, q, FlightOf(run, s), c);
    FlightMoves(run, s, StallsIn(run, s));
  }

  lemma CarryStepAt(iram: Program, p: Pipe, run: Run, m: nat)
    requires Sequential(iram, run) && CarryingAt(iram, p, run, m)
    ensures CarryingAt(iram, p, run, m + 1) <==> RightAt(run, m)
  {
    CyclesStep(iram, p, m);
    var q, s, c := Cycles(iram, p, m), StagesAt(run, m), CarriedAt(run, m);
    CarryStep(iram, q, run, s, c);
    CarryingIff(iram, q, FlightOf(run, s), c);
  }

  lemma TwoStagesOn(run: Run, s: Filling, stall: bool, stall': bool)
    ensures FlightOf(run, Advance(Advance(s, stall), stall')).s1 == FlightOf(run, s).s3
  {
  }

  /** Shown right for two more cycles, a cycle was right. */
  lemma ShownStep(iram: Program, q: Pipe, f: Flight, c: Carried, f1: Flight, f2: Flight)
    requires Carrying(iram, q, f, c) && f1 == NextFlight(f, Stalls(q), Exec(iram, f.s3)) && f2.s1 == f.s3
    requires Shows(Cycle(iram, q), f1) && Shows(Cycle(iram, Cycle(iram, q)), f2)
    ensures ComesOutRight(f, c) && FetchesRight(f, c)
  {
    WrongShows(iram, q, f, c, Cycle(iram, q));
  }

  lemma ShownIsRight(iram: Program, p: Pipe, run: Run, m: nat)
    requires Sequential(iram, run) && CarryingAt(iram, p, run, m)
    requires ShowsAt(iram, p, run, m + 1) && ShowsAt(iram, p, run, m + 2)
    ensures RightAt(run, m)
  {
    CyclesStep(iram, p, m);
    CyclesStep(iram, p, m + 1);
    StagesNext(run, m);
    StagesNext(run, m + 1);
    var s, s1, s2 := StagesAt(run, m), StagesAt(run, m + 1), StagesAt(run, m + 2);
    CarryStep(iram, Cycles(iram, p, m), run, s, CarriedAt(run, m));
    TwoStagesOn(run, s, StallsIn(run, s), StallsIn(run, s1));
    ShownStep(iram, Cycles(iram, p, m), FlightOf(run, s), CarriedAt(run, m), FlightOf(run, s1), FlightOf(run, s2));
  }

  lemma StagesNext(run: Run, m: nat)
    ensures StagesAt(run, m + 1) == Advance(StagesAt(run, m), StallsIn(run, StagesAt(run, m)))
  {
  }

  /** Every program and every start: the pipeline shows the sequential machine's registers, data
      memory, decode register and PC in every cycle if and only if every cycle is right. */
  lemma PipelineShowsIff(iram: Program, regs: Memory, dram: Memory)
    ensures var p, run := PowerUp(regs, dram), RunFrom(iram, Reset(regs, dram));
      (forall m: nat :: ShowsAt(iram, p, run, m)) <==> (forall m: nat :: RightAt(run, m))
  {
    var p, run := PowerUp(regs, dram), RunFrom(iram, Reset(regs, dram));
    PowerUpCarries(iram, regs, dram);
    RunFromIsSequential(iram, Reset(regs, dram));
    if forall m: nat :: RightAt(run, m) {
      forall n: nat
        ensures ShowsAt(iram, p, run, n)
      {
        ShowsWhileRight(iram, p, run, n);
      }
    }
    if forall m: nat :: ShowsAt(iram, p, run, m) {
      forall n: nat
        ensures RightAt(run, n)
      {
        RightIfShown(iram, p, run, n);
      }
    }
  }

  lemma CarriesIff(iram: Program, p: Pipe, run: Run, n: nat)
    requires Sequential(iram, run) && CarryingAt(iram, p, run, 0)
    ensures (forall m: nat :: m <= n ==> CarryingAt(iram, p, run, m)) <==> (forall m: nat :: m < n ==> RightAt(run, m))
  {
    ghost var holds: nat -> bool := (m: nat) => CarryingAt(iram, p, run, m);
    ghost var good: nat -> bool := (m: nat) => RightAt(run, m);
    forall m: nat | holds(m)
      ensures holds(m + 1) <==> good(m)
    {
      CarryStepAt(iram, p, run, m);
    }
    HoldsIffGood(holds, good, n);
    assert forall m: nat :: holds(m) == CarryingAt(iram, p, run, m);
    assert forall m: nat :: good(m) == RightAt(run, m);
  }

  lemma CarryingShows(iram: Program, p: Pipe, run: Run, m: nat)
    requires CarryingAt(iram, p, run, m)
    ensures ShowsAt(iram, p, run, m)
  {
  }

  /** As long as the cycles before it are right, a cycle shows the sequential machine's state. */
  lemma ShowsWhileRight(iram: Program, p: Pipe, run: Run, n: nat)
    requires Sequential(iram, run) && CarryingAt(iram, p, run, 0)
    requires forall m: nat :: m < n ==> RightAt(run, m)
    ensures ShowsAt(iram, p, run, n)
  {
    CarriesIff(iram, p, run, n);
    CarryingShows(iram, p, run, n);
  }

  /** And if the state is shown throughout, every cycle was right. */
  lemma RightIfShown(iram: Program, p: Pipe, run: Run, n: nat)
    requires Sequential(iram, run) && CarryingAt(iram, p, run, 0)
    requires forall m: nat :: ShowsAt(iram, p, run, m)
    ensures RightAt(run, n)
  {
    ghost var holds: nat -> bool := (m: nat) => CarryingAt(iram, p, run, m);
    forall m: nat | holds(m)
      ensures holds(m + 1)
    {
      ShownIsRight(iram, p, run, m);
      CarryStepAt(iram, p, run, m);
    }
    HoldsIffGood(holds, (m: nat) => true, n);
    assert holds(n);
    ShownIsRight(iram, p, run, n);
  }

  /** A pipeline that tracks the run shows it. */
  lemma TrackedShows(iram: Program, p: Pipe, run: Run, m: nat)
    requires TracksAt(iram, p, run, m)
    ensures ShowsAt(iram, p, run, m)
  {
  }

  /** Programs free of the four hazards are right in every cycle. */
  lemma HazardFreeIsRight(iram: Program, regs: Memory, dram: Memory, m: nat)
    requires forall n: nat :: HazardFree(RunFrom(iram, Reset(regs, dram)), n)
    ensures RightAt(RunFrom(iram, Reset(regs, dram)), m)
  {
    var p, run := PowerUp(regs, dram), RunFrom(iram, Reset(regs, dram));
    forall n: nat
      ensures ShowsAt(iram, p, run, n)
    {
      HazardFreeTracks(iram, regs, dram, n);
      TrackedShows(iram, p, run, n);
    }
    PipelineShowsIff(iram, regs, dram);
  }
}
