// The pipeline refines the sequential machine on every hazard-free program, with
// stall cycles as stuttering steps.
module PipeRefines {
  import opened MipsIsa
  import opened PipeCore

  // ---- In-flight instructions ------------------------------------------------

  /** The sequential states between the stages: before write-back, after it, after
      memory, after execute; a stage without an instruction leaves the state alone. */
  datatype Flight = Flight(s0: Arch, s1: Arch, s2: Arch, s3: Arch, wb: bool, mem: bool, ex: bool)

  ghost predicate Linked(iram: Program, f: Flight) {
    && f.s1 == (if f.wb then Exec(iram, f.s0) else f.s0)
    && f.s2 == (if f.mem then Exec(iram, f.s1) else f.s1)
    && f.s3 == (if f.ex then Exec(iram, f.s2) else f.s2)
  }

  /** ID/EX holds the decoded instruction with the register values read a cycle ago. */
  ghost predicate InExecute(x: IdEx, f: Flight) {
    if f.ex then
      && x == DecodeStage(IfId(f.s2.pc4, f.s2.ir), f.s0.regs)
      && (f.mem ==> !LoadUse(f.s1.ir, f.s2.ir))
    else x == BUBBLE
  }

  /** EX/MEM holds what the instruction computed from the registers before it. */
  ghost predicate InMemory(x: ExMem, f: Flight) {
    if f.mem then Computed(x, f.s1)
    else !x.regWrite && !x.memWrite && !x.branch
  }

  ghost predicate Computed(x: ExMem, a: Arch) {
    var i := a.ir;
    && x.regWrite == (i.IsR() || i.IsLw()) && x.memToReg == x.memRead == i.IsLw()
    && x.memWrite == i.IsSw() && x.branch == i.IsBeq()
    && x.wreg == (if i.IsR() then i.Rd() else i.rt)
    && (i.IsR() ==> x.aluResult == Result(a))
    && (i.IsLw() || i.IsSw() ==> x.aluResult == Address(a))
    && (i.IsSw() ==> x.writeData == a.regs[i.rt])
    && (i.IsBeq() ==> x.zero == Taken(a) && x.branchPc == BranchTarget(a.pc4, i))
  }

  /** MEM/WB holds the value that the instruction writes. */
  ghost predicate InWriteBack(x: MemWb, f: Flight) {
    if f.wb then
      && x.regWrite == (f.s0.ir.IsR() || f.s0.ir.IsLw())
      && (x.regWrite ==> x.wreg == (if f.s0.ir.IsR() then f.s0.ir.Rd() else f.s0.ir.rt) && WriteValue(x) == Result(f.s0))
    else !x.regWrite
  }

  /** The fetch side: what the instruction in decode already decided, plus the branch in MEM. */
  ghost predicate Fetching(p: Pipe, f: Flight) {
    && p.ifId == IfId(f.s3.pc4, f.s3.ir)
    && p.pc == f.s3.f1
    && f.s3.f2 == (if p.exMem.branch && p.exMem.zero then p.exMem.branchPc else Next(p.pc))
    && (!f.ex ==> f.s3.f3 == Next(f.s3.f2))
  }

  ghost predicate Related(iram: Program, p: Pipe, f: Flight) {
    && Linked(iram, f)
    && p.regs == f.s1.regs && p.dram == f.s2.dram
    && InExecute(p.idEx, f) && InMemory(p.exMem, f) && InWriteBack(p.memWb, f)
    && Fetching(p, f)
  }

  /** The value the execute stage uses for register r: the register as read at decode when
      r is $0, the address of a load just ahead of it, and else the architectural value. */
  function Seen(f: Flight, r: Reg): Word {
    if r == 0 then f.s0.regs[0]
    else if f.mem && f.s1.ir.IsLw() && f.s1.ir.rt == r then Address(f.s1)
    else f.s2.regs[r]
  }

  /** The instruction in execute computes what it should from the values it sees. */
  ghost predicate ExecuteSafe(f: Flight) {
    var i, a := f.s2.ir, f.s2;
    f.ex ==>
      && (i.IsR() ==> RType(i.Funct(), Seen(f, i.rs), Seen(f, i.rt)) == Result(a))
      && (i.IsLw() || i.IsSw() ==> Seen(f, i.rs) == a.regs[i.rs])
      && (i.IsSw() ==> f.s0.regs[i.rt] == a.regs[i.rt])
      && (i.IsBeq() ==> (Seen(f, i.rs) == Seen(f, i.rt)) == Taken(a))
  }

  /** A stall drops the redirect of a taken branch in MEM, which is harmless only when the
      branch goes to the next instruction anyway. */
  ghost predicate StallSafe(f: Flight) {
    f.ex && f.mem && LoadUse(f.s2.ir, f.s3.ir) && Taken(f.s1) ==> BranchTarget(f.s1.pc4, f.s1.ir) == Next(f.s3.f1)
  }

  /** One cycle later: a stall keeps the instruction in decode, else the next one follows. */
  function NextFlight(f: Flight, stall: bool, next: Arch): Flight {
    Flight(f.s1, f.s2, f.s3, if stall then f.s3 else next, f.mem, f.ex, !stall)
  }

  // ---- Operands --------------------------------------------------------------

  lemma WriteBackShows(iram: Program, a: Arch, r: Reg)
    ensures Exec(iram, a).regs[r] == if Writes(a.ir, r) then Result(a) else a.regs[r]
  {
  }

  /** What forwarding delivers, in every related state and for every register. */
  lemma ForwardingDelivers(iram: Program, p: Pipe, f: Flight, r: Reg)
    requires Related(iram, p, f)
    ensures Forwarded(ForwardUnit(r, p.exMem, p.memWb), f.s0.regs[r], p.exMem, p.memWb) == Seen(f, r)
  {
    WriteBackShows(iram, f.s0, r);
    WriteBackShows(iram, f.s1, r);
  }

  lemma AluOfR(x: IdEx, i: Instr, a: Word, b: Word)
    requires x.ctl == Decode(i) && x.signExtend == SignExtend(i.imm) && i.IsR()
    ensures Alu(AluControl(x), a, b) == RType(i.Funct(), a, b)
  {
    assert x.signExtend % 64 == i.Funct();
  }

  /** The ALU control equations select the operation of the instruction. */
  lemma AluMeaning(x: IdEx, i: Instr, a: Word, b: Word)
    requires x.ctl == Decode(i) && x.signExtend == SignExtend(i.imm)
    ensures i.IsR() ==> Alu(AluControl(x), a, b) == RType(i.Funct(), a, b)
    ensures i.IsLw() || i.IsSw() ==> Alu(AluControl(x), a, b) == Add(a, b)
    ensures i.IsBeq() ==> Alu(AluControl(x), a, b) == Sub(a, b)
  {
    if i.IsR() {
      AluOfR(x, i, a, b);
    }
  }

  lemma AddInjective(a: Word, b: Word, c: Word)
    ensures Add(a, c) == Add(b, c) <==> a == b
  {
  }

  lemma TargetsAgree(x: IdEx, i: Instr)
    requires x.signExtend == SignExtend(i.imm)
    ensures (x.pc4 + (x.signExtend * 4) % WORDS) % WORDS == BranchTarget(x.pc4, i)
  {
  }

  // ---- One cycle -------------------------------------------------------------

  /** The execute stage is right exactly when its operands are good enough. */
  lemma ExecuteStep(iram: Program, p: Pipe, f: Flight)
    requires Related(iram, p, f) && f.ex
    ensures Computed(Execute(p.idEx, p.exMem, p.memWb), f.s2) <==> ExecuteSafe(f)
  {
    var i, x := f.s2.ir, p.idEx;
    ForwardingDelivers(iram, p, f, i.rs);
    ForwardingDelivers(iram, p, f, i.rt);
    AluMeaning(x, i, AInput(x, p.exMem, p.memWb), BInput(x, p.exMem, p.memWb));
    TargetsAgree(x, i);
    if i.IsLw() || i.IsSw() {
      AddInjective(Seen(f, i.rs), f.s2.regs[i.rs], SignExtend(i.imm));
    }
    if i.IsBeq() {
      SubZero(Seen(f, i.rs), Seen(f, i.rt));
    }
  }

  lemma MemoryStep(iram: Program, p: Pipe, f: Flight)
    requires Related(iram, p, f)
    ensures var x := Cycle(iram, p).memWb;
      if f.mem then
        && x.regWrite == (f.s1.ir.IsR() || f.s1.ir.IsLw())
        && (x.regWrite ==> x.wreg == (if f.s1.ir.IsR() then f.s1.ir.Rd() else f.s1.ir.rt) && WriteValue(x) == Result(f.s1))
      else !x.regWrite
  {
  }

  lemma StallIff(iram: Program, p: Pipe, f: Flight)
    requires Related(iram, p, f)
    ensures Stalls(p) <==> f.ex && LoadUse(f.s2.ir, f.s3.ir)
  {
  }

  lemma FetchStep(iram: Program, p: Pipe, f: Flight)
    requires Related(iram, p, f) && ExecuteSafe(f)
    ensures Fetching(Cycle(iram, p), NextFlight(f, Stalls(p), Exec(iram, f.s3))) <==> StallSafe(f)
  {
    StallIff(iram, p, f);
    if f.ex {
      ExecuteStep(iram, p, f);
    }
  }

  /** One clock edge keeps the relation - an instruction moves on in every stage, or decode
      holds and a bubble enters - exactly when execute and stall are safe. */
  lemma CycleRelatedIff(iram: Program, p: Pipe, f: Flight)
    requires Related(iram, p, f)
    ensures Related(iram, Cycle(iram, p), NextFlight(f, Stalls(p), Exec(iram, f.s3)))
       <==> ExecuteSafe(f) && StallSafe(f)
  {
    StallIff(iram, p, f);
    if f.ex {
      ExecuteStep(iram, p, f);
    }
    MemoryStep(iram, p, f);
    if ExecuteSafe(f) {
      FetchStep(iram, p, f);
    }
  }

  // ---- The conditions on programs ----------------------------------------------

  /** The hazards of the instruction in execute and of the one in decode, on instruction fields. */
  ghost predicate HazardFreeFlight(f: Flight) {
    && f.s0.regs[0] == 0 && f.s2.regs[0] == 0
    && (f.ex && f.mem ==> !H1(f.s1.ir, f.s2.ir) && !H2(f.s1.ir, f.s2.ir))
    && (f.ex && f.wb ==> !H2(f.s0.ir, f.s2.ir))
    && (f.ex && f.mem && Taken(f.s1) ==> !LoadUse(f.s2.ir, f.s3.ir))
  }

  /** ALU inputs of a hazard-free state: the values after all older instructions. */
  lemma OperandsAreRight(iram: Program, p: Pipe, f: Flight)
    requires Related(iram, p, f) && HazardFreeFlight(f) && f.ex
    requires f.s2.ir.IsR() || f.s2.ir.IsLw() || f.s2.ir.IsSw() || f.s2.ir.IsBeq()
    ensures AInput(p.idEx, p.exMem, p.memWb) == f.s2.regs[f.s2.ir.rs]
    ensures BInput(p.idEx, p.exMem, p.memWb)
         == if p.idEx.ctl.aluSrc then SignExtend(f.s2.ir.imm) else f.s2.regs[f.s2.ir.rt]
  {
    ForwardingDelivers(iram, p, f, f.s2.ir.rs);
    ForwardingDelivers(iram, p, f, f.s2.ir.rt);
  }

  lemma HazardFreeIsSafe(iram: Program, p: Pipe, f: Flight)
    requires Related(iram, p, f) && HazardFreeFlight(f)
    ensures ExecuteSafe(f) && StallSafe(f)
  {
    var i := f.s2.ir;
    if f.ex && (i.IsR() || i.IsLw() || i.IsSw() || i.IsBeq()) {
      OperandsAreRight(iram, p, f);
      ForwardingDelivers(iram, p, f, i.rs);
      ForwardingDelivers(iram, p, f, i.rt);
    }
    if f.ex && i.IsSw() {
      WriteBackShows(iram, f.s0, i.rt);
      WriteBackShows(iram, f.s1, i.rt);
    }
  }
}
