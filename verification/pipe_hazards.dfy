// Each hazard condition is needed: a program that violates it, and the first
// visible difference from the sequential machine.
module PipeHazards {
  import opened MipsIsa
  import opened PipeCore
  import opened PipeRefines

  // ---- The first three edges ---------------------------------------------------------

  /** Sequential states of a run: the reset word, then the first two program words. */
  ghost predicate Starting(iram: Program, a: Arch, a1: Arch, a2: Arch, a3: Arch) {
    && a.ir == NOP && a.regs[0] == 0 && a.f1 == 0 && a.f2 == 4 && a.f3 == 8 && a.pc4 == 0
    && a1 == Exec(iram, a) && a2 == Exec(iram, a1) && a3 == Exec(iram, a2)
  }

  lemma NopKeepsRegisters(iram: Program, a: Arch, a1: Arch)
    requires a.ir == NOP && a.regs[0] == 0 && a1 == Exec(iram, a)
    ensures a1.regs == a.regs && a1.dram == a.dram && !Taken(a)
    ensures a1.ir == Fetch(iram, a.f1) && a1.pc4 == Next(a.f1) && a1.f1 == a.f2 && a1.f2 == a.f3
  {
  }

  lemma FirstEdge(iram: Program, a: Arch, a1: Arch, p: Pipe, q: Pipe)
    requires a.ir == NOP && a.regs[0] == 0 && a.f1 == 0 && a.f2 == 4 && a.f3 == 8 && a.pc4 == 0
    requires a1 == Exec(iram, a) && p == PowerUp(a.regs, a.dram) && q == Cycle(iram, p)
    ensures Related(iram, q, Flight(a, a, a, a1, false, false, true))
  {
    var f := Flight(a, a, a, a, false, false, false);
    assert Related(iram, p, f);
    StallIff(iram, p, f);
    CycleRelatedIff(iram, p, f);
  }

  lemma SecondEdge(iram: Program, a: Arch, a1: Arch, a2: Arch, p: Pipe, q: Pipe)
    requires a.ir == NOP && a.regs[0] == 0 && a1 == Exec(iram, a) && a2 == Exec(iram, a1)
    requires Related(iram, p, Flight(a, a, a, a1, false, false, true)) && q == Cycle(iram, p)
    ensures Related(iram, q, Flight(a, a, a1, a2, false, true, true))
  {
    var f := Flight(a, a, a, a1, false, false, true);
    StallIff(iram, p, f);
    CycleRelatedIff(iram, p, f);
  }

  lemma ThirdEdge(iram: Program, a: Arch, a1: Arch, a2: Arch, a3: Arch, p: Pipe, q: Pipe)
    requires a.ir == NOP && a1.regs == a.regs && a2 == Exec(iram, a1) && a3 == Exec(iram, a2)
    requires Related(iram, p, Flight(a, a, a1, a2, false, true, true)) && q == Cycle(iram, p)
    requires !LoadUse(a1.ir, a2.ir)
    ensures Related(iram, q, Flight(a, a1, a2, a3, true, true, true))
  {
    var f := Flight(a, a, a1, a2, false, true, true);
    StallIff(iram, p, f);
    CycleRelatedIff(iram, p, f);
  }

  /** Three cycles after power-up the first word is in MEM and the second in EX. */
  lemma ThreeEdges(iram: Program, a: Arch, a1: Arch, a2: Arch, a3: Arch, p: Pipe) returns (p3: Pipe)
    requires Starting(iram, a, a1, a2, a3) && p == PowerUp(a.regs, a.dram) && !LoadUse(a1.ir, a2.ir)
    ensures p3 == Cycle(iram, Cycle(iram, Cycle(iram, p)))
    ensures Related(iram, p3, Flight(a, a1, a2, a3, true, true, true))
  {
    var p1 := Cycle(iram, p);
    FirstEdge(iram, a, a1, p, p1);
    var p2 := Cycle(iram, p1);
    SecondEdge(iram, a, a1, a2, p1, p2);
    p3 := Cycle(iram, p2);
    NopKeepsRegisters(iram, a, a1);
    ThirdEdge(iram, a, a1, a2, a3, p2, p3);
  }

  // ---- What the second word does -------------------------------------------------------

  /** What EX hands to MEM when its operands are whatever forwarding delivers. */
  lemma HandedOn(iram: Program, p: Pipe, f: Flight)
    requires Related(iram, p, f) && f.ex
    ensures var x, i := Cycle(iram, p).exMem, f.s2.ir;
      && (i.IsR() ==> x.aluResult == RType(i.Funct(), Seen(f, i.rs), Seen(f, i.rt)))
      && (i.IsLw() || i.IsSw() ==> x.aluResult == Add(Seen(f, i.rs), SignExtend(i.imm)))
      && x.regWrite == (i.IsR() || i.IsLw()) && x.memRead == x.memToReg == i.IsLw() && x.memWrite == i.IsSw()
      && x.wreg == (if i.IsR() then i.Rd() else i.rt) && x.writeData == f.s0.regs[i.rt]
  {
    ForwardingDelivers(iram, p, f, f.s2.ir.rs);
    ForwardingDelivers(iram, p, f, f.s2.ir.rt);
    AluMeaning(p.idEx, f.s2.ir, AInput(p.idEx, p.exMem, p.memWb), BInput(p.idEx, p.exMem, p.memWb));
  }

  /** The write-back one edge later. */
  lemma WrittenBack(iram: Program, p: Pipe, r: Reg)
    requires p.exMem.regWrite && p.exMem.wreg == r && p.exMem.memToReg == p.exMem.memRead
    ensures Cycle(iram, p).regs[r] == if p.exMem.memRead then p.dram[Cell(p.exMem.aluResult)] else p.exMem.aluResult
  {
  }

  /** What an instruction in EX has written two edges later: it computes from what it sees. */
  lemma TwoEdgesOn(iram: Program, p: Pipe, f: Flight, q: Pipe, r: Pipe)
    requires Related(iram, p, f) && f.ex && q == Cycle(iram, p) && r == Cycle(iram, q)
    ensures var i := f.s2.ir;
      && (i.IsR() ==> r.regs[i.Rd()] == RType(i.Funct(), Seen(f, i.rs), Seen(f, i.rt)))
      && (i.IsLw() ==> r.regs[i.rt] == f.s2.dram[Cell(Add(Seen(f, i.rs), SignExtend(i.imm)))])
      && (i.IsSw() ==> q.dram[Cell(Add(Seen(f, i.rs), SignExtend(i.imm)))] == f.s0.regs[i.rt])
  {
    HandedOn(iram, p, f);
    var i := f.s2.ir;
    if i.IsR() || i.IsLw() {
      WrittenBack(iram, q, if i.IsR() then i.Rd() else i.rt);
    }
  }

  lemma CyclesByEdges(iram: Program, p: Pipe, p3: Pipe)
    requires p3 == Cycle(iram, Cycle(iram, Cycle(iram, p)))
    ensures Cycles(iram, p, 4) == Cycle(iram, p3)
    ensures Cycles(iram, p, 5) == Cycle(iram, Cycle(iram, p3))
  {
    assert Cycles(iram, p, 1) == Cycle(iram, p);
    assert Cycles(iram, p, 2) == Cycle(iram, Cycle(iram, p));
    assert Cycles(iram, p, 3) == p3;
  }

  lemma SeqRunByStates(iram: Program, a: Arch, a1: Arch, a2: Arch, a3: Arch)
    requires a1 == Exec(iram, a) && a2 == Exec(iram, a1) && a3 == Exec(iram, a2)
    ensures SeqRun(iram, a, 3) == a3 && SeqRun(iram, a, 4) == Exec(iram, a3)
    ensures SeqRun(iram, a, 5) == Exec(iram, Exec(iram, a3))
  {
    assert SeqRun(iram, a, 1) == a1;
    assert SeqRun(iram, a, 2) == a2;
  }

  /** The first two program words on both machines, up to where the second one's effect shows. */
  lemma BothMachines(iram: Program, regs: Memory, dram: Memory, a1: Arch, a2: Arch, a3: Arch) returns (p4: Pipe, p5: Pipe)
    requires regs[0] == 0 && Starting(iram, Reset(regs, dram), a1, a2, a3) && !LoadUse(a1.ir, a2.ir)
    ensures Cycles(iram, PowerUp(regs, dram), 4) == p4 && Cycles(iram, PowerUp(regs, dram), 5) == p5
    ensures SeqRun(iram, Reset(regs, dram), 3) == a3
    ensures a1.regs == regs && a1.dram == dram && a1.ir == Fetch(iram, 0) && a2.ir == Fetch(iram, 4)
    ensures var f, i := Flight(Reset(regs, dram), a1, a2, a3, true, true, true), a2.ir;
      && (i.IsR() ==> p5.regs[i.Rd()] == RType(i.Funct(), Seen(f, i.rs), Seen(f, i.rt)))
      && (i.IsLw() ==> p5.regs[i.rt] == a2.dram[Cell(Add(Seen(f, i.rs), SignExtend(i.imm)))])
      && (i.IsSw() ==> p4.dram[Cell(Add(Seen(f, i.rs), SignExtend(i.imm)))] == regs[i.rt])
  {
    var a, p := Reset(regs, dram), PowerUp(regs, dram);
    NopKeepsRegisters(iram, a, a1);
    var p3 := ThreeEdges(iram, a, a1, a2, a3, p);
    p4 := Cycle(iram, p3);
    p5 := Cycle(iram, p4);
    TwoEdgesOn(iram, p3, Flight(a, a1, a2, a3, true, true, true), p4, p5);
    CyclesByEdges(iram, p, p3);
    SeqRunByStates(iram, a, a1, a2, a3);
  }

  // ---- Pairs of instructions, on both machines -----------------------------------------

  /** Two loads, the second based on the first: the pipeline adds to the first one's address. */
  lemma LoadPair(iram: Program, regs: Memory, dram: Memory, x: Instr, y: Instr)
    requires x == Fetch(iram, 0) && y == Fetch(iram, 4) && x.IsLw() && y.IsLw()
    requires regs[0] == 0 && y.rs == x.rt != 0
    ensures var address := Add(regs[x.rs], SignExtend(x.imm));
      && Cycles(iram, PowerUp(regs, dram), 5).regs[y.rt] == dram[Cell(Add(address, SignExtend(y.imm)))]
      && SeqRun(iram, Reset(regs, dram), 3).regs[y.rt] == dram[Cell(Add(dram[Cell(address)], SignExtend(y.imm)))]
  {
    var a1 := Exec(iram, Reset(regs, dram));
    var a2 := Exec(iram, a1);
    var p4, p5 := BothMachines(iram, regs, dram, a1, a2, Exec(iram, a2));
  }

  /** A load, then a store based on the register it loads: the store goes to the load's address. */
  lemma LoadThenStore(iram: Program, regs: Memory, dram: Memory, x: Instr, y: Instr)
    requires x == Fetch(iram, 0) && y == Fetch(iram, 4) && x.IsLw() && y.IsSw()
    requires regs[0] == 0 && y.rs == x.rt != 0 && y.rt != x.rt
    ensures var address := Add(regs[x.rs], SignExtend(x.imm));
      && Cycles(iram, PowerUp(regs, dram), 4).dram[Cell(Add(address, SignExtend(y.imm)))] == regs[y.rt]
      && SeqRun(iram, Reset(regs, dram), 3).dram == dram[Cell(Add(dram[Cell(address)], SignExtend(y.imm))) := regs[y.rt]]
  {
    var a1 := Exec(iram, Reset(regs, dram));
    var a2 := Exec(iram, a1);
    var p4, p5 := BothMachines(iram, regs, dram, a1, a2, Exec(iram, a2));
  }

  /** A store based on $0 of a register computed just before: it stores the old value. */
  lemma ComputeThenStore(iram: Program, regs: Memory, dram: Memory, x: Instr, y: Instr)
    requires x == Fetch(iram, 0) && y == Fetch(iram, 4) && x.IsR() && y.IsSw()
    requires regs[0] == 0 && y.rt == x.Rd() != 0 && y.rs == 0
    ensures var cell := Cell(Add(0, SignExtend(y.imm)));
      && Cycles(iram, PowerUp(regs, dram), 4).dram[cell] == regs[y.rt]
      && SeqRun(iram, Reset(regs, dram), 3).dram[cell] == RType(x.Funct(), regs[x.rs], regs[x.rt])
  {
    var a1 := Exec(iram, Reset(regs, dram));
    var a2 := Exec(iram, a1);
    var p4, p5 := BothMachines(iram, regs, dram, a1, a2, Exec(iram, a2));
  }

  /** Two R-type instructions, the first writing $0 and the second reading only $0. */
  lemma ZeroWriteThenRead(iram: Program, regs: Memory, dram: Memory, x: Instr, y: Instr)
    requires x == Fetch(iram, 0) && y == Fetch(iram, 4) && x.IsR() && y.IsR()
    requires regs[0] == 0 && x.Rd() == 0 && y.rs == y.rt == 0
    ensures var v := RType(x.Funct(), regs[x.rs], regs[x.rt]);
      && Cycles(iram, PowerUp(regs, dram), 5).regs[y.Rd()] == RType(y.Funct(), 0, 0)
      && SeqRun(iram, Reset(regs, dram), 3).regs[y.Rd()] == RType(y.Funct(), v, v)
  {
    var a1 := Exec(iram, Reset(regs, dram));
    var a2 := Exec(iram, a1);
    var p4, p5 := BothMachines(iram, regs, dram, a1, a2, Exec(iram, a2));
  }

  // ---- One program for each pattern --------------------------------------------
  // Instructions are counted from the reset word.

  predicate IsAdd(i: Instr, rd: Reg, rs: Reg, rt: Reg) {
    i.IsR() && i.Funct() == 32 && i.Rd() == rd && i.rs == rs && i.rt == rt
  }

  /** lw rt, 0(rs) */
  predicate IsLoad(i: Instr, rt: Reg, rs: Reg) { i.IsLw() && i.rs == rs && i.rt == rt && i.imm == 0 }

  /** sw rt, 0(rs) */
  predicate IsStore(i: Instr, rt: Reg, rs: Reg) { i.IsSw() && i.rs == rs && i.rt == rt && i.imm == 0 }

  predicate IsBranch(i: Instr, rs: Reg, rt: Reg, imm: Half) { i.IsBeq() && i.rs == rs && i.rt == rt && i.imm == imm }

  lemma ZeroOffset(v: Word)
    ensures Add(v, SignExtend(0)) == v && Cell(0) == 0 && Cell(4) == 1
  {
  }

  /** Two chained loads without offsets. */
  lemma LoadChain(iram: Program, regs: Memory, dram: Memory, x: Instr, y: Instr)
    requires x == Fetch(iram, 0) && y == Fetch(iram, 4) && IsLoad(x, x.rt, x.rs) && IsLoad(y, y.rt, x.rt)
    requires regs[0] == 0 && x.rt != 0
    ensures Cycles(iram, PowerUp(regs, dram), 5).regs[y.rt] == dram[Cell(regs[x.rs])]
    ensures SeqRun(iram, Reset(regs, dram), 3).regs[y.rt] == dram[Cell(dram[Cell(regs[x.rs])])]
  {
    LoadPair(iram, regs, dram, x, y);
    ZeroOffset(regs[x.rs]);
    ZeroOffset(dram[Cell(regs[x.rs])]);
  }

  /** lw $1, 0($0); lw $2, 0($1). Without H1 the second load uses the first one's address as its base. */
  lemma WithoutH1(iram: Program, regs: Memory, dram: Memory)
    requires IsLoad(Fetch(iram, 0), 1, 0) && IsLoad(Fetch(iram, 4), 2, 1)
    requires regs[0] == 0 && dram[0] == 4 && dram[1] == 9
    ensures H1(Fetch(iram, 0), Fetch(iram, 4))
    ensures Cycles(iram, PowerUp(regs, dram), 5).regs[2] == 4
    ensures SeqRun(iram, Reset(regs, dram), 3).regs[2] == 9
  {
    LoadChain(iram, regs, dram, Fetch(iram, 0), Fetch(iram, 4));
    ZeroOffset(0);
  }

  /** lw $1, 0($0); sw $2, 0($1). The store goes to the load's address. */
  lemma WithoutH1Store(iram: Program, regs: Memory, dram: Memory)
    requires IsLoad(Fetch(iram, 0), 1, 0) && IsStore(Fetch(iram, 4), 2, 1)
    requires regs[0] == 0 && regs[2] == 5 && dram[0] == 4
    ensures H1(Fetch(iram, 0), Fetch(iram, 4))
    ensures Cycles(iram, PowerUp(regs, dram), 4).dram[0] == 5
    ensures SeqRun(iram, Reset(regs, dram), 3).dram[0] == 4
  {
    LoadThenStore(iram, regs, dram, Fetch(iram, 0), Fetch(iram, 4));
    ZeroOffset(0);
    ZeroOffset(4);
  }

  /** The fourth edge, behind a branch in EX: what the branch compares decides the next fetch. */
  lemma BranchDecides(iram: Program, p: Pipe, f: Flight)
    requires Related(iram, p, f) && f.ex && f.s2.ir.IsBeq() && f.s3.ir == NOP
    ensures Cycle(iram, Cycle(iram, p)).pc ==
      if Seen(f, f.s2.ir.rs) == Seen(f, f.s2.ir.rt) then BranchTarget(f.s2.pc4, f.s2.ir) else Next(Cycle(iram, p).pc)
  {
    var i, x := f.s2.ir, p.idEx;
    ForwardingDelivers(iram, p, f, i.rs);
    ForwardingDelivers(iram, p, f, i.rt);
    AluMeaning(x, i, AInput(x, p.exMem, p.memWb), BInput(x, p.exMem, p.memWb));
    TargetsAgree(x, i);
    SubZero(Seen(f, i.rs), Seen(f, i.rt));
  }

  ghost predicate FetchFollows(x: Arch, y: Arch) {
    y.f1 == x.f2 && y.f2 == x.f3 && y.f3 == Decided(x) && y.pc4 == Next(x.f1)
  }

  lemma FetchMoves(iram: Program, x: Arch)
    ensures FetchFollows(x, Exec(iram, x))
  {
  }

  /** A branch as second word that is not taken leaves the fetches in line. */
  lemma FallsThrough(a: Arch, a1: Arch, a2: Arch, a3: Arch, a4: Arch, a5: Arch)
    requires a.f1 == 0 && a.f2 == 4 && a.f3 == 8 && !Taken(a) && !Taken(a1) && !Taken(a2)
    requires FetchFollows(a, a1) && FetchFollows(a1, a2) && FetchFollows(a2, a3) && FetchFollows(a3, a4)
    requires FetchFollows(a4, a5)
    ensures a5.f1 == 20 && a2.pc4 == 8
  {
  }

  lemma LoadedValue(iram: Program, a: Arch, a1: Arch, a2: Arch)
    requires a.ir == NOP && a.regs[0] == 0 && a1 == Exec(iram, a) && a2 == Exec(iram, a1)
    requires IsLoad(a1.ir, 1, 0)
    ensures a2.regs == a.regs[1 := a.dram[0]] && Address(a1) == 0 && a2.ir == Fetch(iram, a.f2)
  {
    NopKeepsRegisters(iram, a, a1);
    ZeroOffset(0);
  }

  lemma TargetOf(i: Instr)
    requires i.imm == 5
    ensures BranchTarget(4, i) == 24 && BranchTarget(8, i) == 28
  {
  }

  /** In EX, behind the load, the branch sees its address. */
  lemma BranchSeesAddress(iram: Program, p: Pipe, f: Flight)
    requires Related(iram, p, f) && f.ex && f.mem && IsLoad(f.s1.ir, 1, 0) && IsBranch(f.s2.ir, 1, 0, 5)
    requires f.s0.regs[0] == 0 && Address(f.s1) == 0 && f.s3.ir == NOP && f.s2.pc4 == 8
    ensures Cycle(iram, Cycle(iram, p)).pc == 28
  {
    BranchDecides(iram, p, f);
    TargetOf(f.s2.ir);
    assert Seen(f, 1) == 0 == Seen(f, 0);
  }

  /** lw $1, 0($0); beq $1, $0, 5. The branch compares the load's address, 0, and is taken. */
  lemma WithoutH1Branch(iram: Program, regs: Memory, dram: Memory)
    requires IsLoad(Fetch(iram, 0), 1, 0) && IsBranch(Fetch(iram, 4), 1, 0, 5) && Fetch(iram, 8) == NOP
    requires regs[0] == 0 && dram[0] == 4
    ensures H1(Fetch(iram, 0), Fetch(iram, 4))
    ensures Cycles(iram, PowerUp(regs, dram), 5).pc == 28
    ensures SeqRun(iram, Reset(regs, dram), 5).f1 == 20
  {
    LoadThenBranch(iram, Reset(regs, dram), PowerUp(regs, dram));
  }

  lemma LoadThenBranch(iram: Program, a: Arch, p: Pipe)
    requires a == Reset(a.regs, a.dram) && p == PowerUp(a.regs, a.dram) && a.regs[0] == 0 && a.dram[0] == 4
    requires IsLoad(Fetch(iram, 0), 1, 0) && IsBranch(Fetch(iram, 4), 1, 0, 5) && Fetch(iram, 8) == NOP
    ensures Cycles(iram, p, 5).pc == 28 && SeqRun(iram, a, 5).f1 == 20
  {
    var a1 := Exec(iram, a);
    var a2 := Exec(iram, a1);
    var a3 := Exec(iram, a2);
    var a4 := Exec(iram, a3);
    LoadedValue(iram, a, a1, a2);
    FetchMoves(iram, a);
    FetchMoves(iram, a1);
    FetchMoves(iram, a2);
    FetchMoves(iram, a3);
    FetchMoves(iram, a4);
    FallsThrough(a, a1, a2, a3, a4, Exec(iram, a4));
    var p3 := ThreeEdges(iram, a, a1, a2, a3, p);
    BranchSeesAddress(iram, p3, Flight(a, a1, a2, a3, true, true, true));
    CyclesByEdges(iram, p, p3);
    SeqRunByStates(iram, a, a1, a2, a3);
  }

  /** add $1, $2, $2; sw $1, 0($0). Without H2 the store writes the register's old value. */
  lemma WithoutH2(iram: Program, regs: Memory, dram: Memory)
    requires IsAdd(Fetch(iram, 0), 1, 2, 2) && IsStore(Fetch(iram, 4), 1, 0)
    requires regs[0] == 0 && regs[1] == 7 && regs[2] == 5
    ensures H2(Fetch(iram, 0), Fetch(iram, 4))
    ensures Cycles(iram, PowerUp(regs, dram), 4).dram[0] == 7
    ensures SeqRun(iram, Reset(regs, dram), 3).dram[0] == 10
  {
    ComputeThenStore(iram, regs, dram, Fetch(iram, 0), Fetch(iram, 4));
  }

  lemma FourthEdge(iram: Program, a: Arch, a1: Arch, a2: Arch, a3: Arch, a4: Arch, p: Pipe, q: Pipe)
    requires Related(iram, p, Flight(a, a1, a2, a3, true, true, true)) && q == Cycle(iram, p)
    requires a2.ir == NOP && a.regs[0] == a2.regs[0] && !a1.ir.IsBeq() && a4 == Exec(iram, a3)
    requires !LoadUse(a2.ir, a3.ir)
    ensures Related(iram, q, Flight(a1, a2, a3, a4, true, true, true))
  {
    var f := Flight(a, a1, a2, a3, true, true, true);
    StallIff(iram, p, f);
    CycleRelatedIff(iram, p, f);
  }

  /** add $1, $2, $2; nop; sw $1, 0($0). Two instructions behind the sum the store still writes
      the old value. */
  lemma WithoutH2Apart(iram: Program, regs: Memory, dram: Memory)
    requires IsAdd(Fetch(iram, 0), 1, 2, 2) && Fetch(iram, 4) == NOP && IsStore(Fetch(iram, 8), 1, 0)
    requires regs[0] == 0 && regs[1] == 7 && regs[2] == 5
    ensures H2(Fetch(iram, 0), Fetch(iram, 8))
    ensures Cycles(iram, PowerUp(regs, dram), 5).dram[0] == 7
    ensures SeqRun(iram, Reset(regs, dram), 4).dram[0] == 10
  {
    var a, p := Reset(regs, dram), PowerUp(regs, dram);
    var a1 := Exec(iram, a);
    var a2 := Exec(iram, a1);
    var a3 := Exec(iram, a2);
    var a4 := Exec(iram, a3);
    NopKeepsRegisters(iram, a, a1);
    ZeroOffset(0);
    var p3 := ThreeEdges(iram, a, a1, a2, a3, p);
    var p4 := Cycle(iram, p3);
    FourthEdge(iram, a, a1, a2, a3, a4, p3, p4);
    HandedOn(iram, p4, Flight(a1, a2, a3, a4, true, true, true));
    CyclesByEdges(iram, p, p3);
    SeqRunByStates(iram, a, a1, a2, a3);
  }

  /** A sum lost in $0, then $0 added to itself. */
  lemma LostSum(iram: Program, regs: Memory, dram: Memory, x: Instr, y: Instr)
    requires x == Fetch(iram, 0) && y == Fetch(iram, 4)
    requires IsAdd(x, 0, x.rs, x.rt) && IsAdd(y, y.Rd(), 0, 0) && regs[0] == 0
    ensures var v := Add(regs[x.rs], regs[x.rt]);
      && Cycles(iram, PowerUp(regs, dram), 5).regs[y.Rd()] == Add(0, 0)
      && SeqRun(iram, Reset(regs, dram), 3).regs[y.Rd()] == Add(v, v)
  {
    ZeroWriteThenRead(iram, regs, dram, x, y);
  }

  lemma Sums()
    ensures Add(0, 0) == 0 && Add(5, 5) == 10 && Add(10, 10) == 20
  {
  }

  /** add $0, $2, $2; add $1, $0, $0. Without H3 forwarding skips a write that the registers keep. */
  lemma WithoutH3(iram: Program, regs: Memory, dram: Memory)
    requires IsAdd(Fetch(iram, 0), 0, 2, 2) && IsAdd(Fetch(iram, 4), 1, 0, 0)
    requires regs[0] == 0 && regs[2] == 5
    ensures Cycles(iram, PowerUp(regs, dram), 5).regs[1] == 0
    ensures SeqRun(iram, Reset(regs, dram), 3).regs[1] == 20
  {
    Sums();
    LostSum(iram, regs, dram, Fetch(iram, 0), Fetch(iram, 4));
  }

  /** With a taken branch in MEM a stall holds the PC, and the next edge fetches on in line. */
  lemma StallDropsRedirect(iram: Program, p: Pipe, f: Flight)
    requires Related(iram, p, f) && Stalls(p)
    ensures Cycle(iram, Cycle(iram, p)).pc == Next(p.pc)
  {
    StallIff(iram, p, f);
  }

  /** A taken branch, then a load-use pair in its first two delay slots: fetch runs on in line. */
  lemma PairAfterBranch(iram: Program, regs: Memory, dram: Memory)
    requires regs[0] == 0 && Fetch(iram, 0).IsBeq() && LoadUse(Fetch(iram, 4), Fetch(iram, 8))
    requires regs[Fetch(iram, 0).rs] == regs[Fetch(iram, 0).rt]
    ensures Cycles(iram, PowerUp(regs, dram), 5).pc == 16
    ensures SeqRun(iram, Reset(regs, dram), 4).f1 == BranchTarget(4, Fetch(iram, 0))
  {
    var a, p := Reset(regs, dram), PowerUp(regs, dram);
    var a1 := Exec(iram, a);
    var a2 := Exec(iram, a1);
    var a3 := Exec(iram, a2);
    NopKeepsRegisters(iram, a, a1);
    var p3 := ThreeEdges(iram, a, a1, a2, a3, p);
    var f := Flight(a, a1, a2, a3, true, true, true);
    StallIff(iram, p3, f);
    StallDropsRedirect(iram, p3, f);
    CyclesByEdges(iram, p, p3);
    SeqRunByStates(iram, a, a1, a2, a3);
  }

  /** beq $0, $0, 5; lw $1, 0($0); add $2, $1, $1. Without H4 the stall swallows the redirect. */
  lemma WithoutH4(iram: Program, regs: Memory, dram: Memory)
    requires IsBranch(Fetch(iram, 0), 0, 0, 5) && IsLoad(Fetch(iram, 4), 1, 0) && IsAdd(Fetch(iram, 8), 2, 1, 1)
    requires regs[0] == 0
    ensures LoadUse(Fetch(iram, 4), Fetch(iram, 8))
    ensures Cycles(iram, PowerUp(regs, dram), 5).pc == 16
    ensures SeqRun(iram, Reset(regs, dram), 4).f1 == 24
  {
    PairAfterBranch(iram, regs, dram);
    TargetOf(Fetch(iram, 0));
  }
}
