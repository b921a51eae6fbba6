// The five-stage pipeline: control, forwarding, ALU, pipeline registers and one
// clock edge, as functions of the state between edges.
module PipeCore {
  import opened MipsIsa

  // ---- Control (decode stage) ------------------------------------------------

  datatype Control = Control(
    regDst: bool, aluSrc: bool, memToReg: bool, regWrite: bool,
    memRead: bool, memWrite: bool, branch: bool, aluOp1: bool, aluOp0: bool)

  function Decode(i: Instr): Control {
    var rformat, lw, sw, beq := i.IsR(), i.IsLw(), i.IsSw(), i.IsBeq();
    Control(rformat, lw || sw, lw, rformat || lw, lw, sw, beq, rformat, beq)
  }

  /** The load-use detector: it only fires when the decoded instruction is R-type. */
  predicate PcStall(id: Instr, exOpcode: Bits6, exWreg: Reg) {
    id.opcode == 0 && exOpcode == 35 && (id.rs == exWreg || id.rt == exWreg)
  }

  // ---- Pipeline registers ----------------------------------------------------

  datatype IfId = IfId(pc4: Word, instr: Instr)

  datatype IdEx = IdEx(ctl: Control, pc4: Word, rs: Word, rt: Word, signExtend: Word, instr: Instr,
                       wregRd: Reg, wregRt: Reg, wregRs: Reg)

  datatype ExMem = ExMem(memToReg: bool, regWrite: bool, memWrite: bool, memRead: bool, branch: bool, zero: bool,
                         aluResult: Word, writeData: Word, branchPc: Word, wreg: Reg)

  datatype MemWb = MemWb(memToReg: bool, regWrite: bool, memoryData: Word, aluResult: Word, wreg: Reg)

  const BUBBLE: IdEx :=
    IdEx(Control(false, false, false, false, false, false, false, false, false), 0, 0, 0, 0, NOP, 0, 0, 0)
  const EX_MEM_RESET: ExMem := ExMem(false, false, false, false, false, false, 0, 0, 0, 0)
  const MEM_WB_RESET: MemWb := MemWb(false, false, 0, 0, 0)

  /** The state between two clock edges. The register file already shows the write of
      the WB stage, and the data memory the write of the MEM stage. */
  datatype Pipe = Pipe(pc: Word, ifId: IfId, idEx: IdEx, exMem: ExMem, memWb: MemWb, regs: Memory, dram: Memory)

  // ---- Execute stage ---------------------------------------------------------

  datatype Forward = FromDecode | FromWb | FromMem

  function ForwardUnit(source: Reg, exMem: ExMem, memWb: MemWb): Forward {
    var mem := exMem.regWrite && exMem.wreg != 0 && exMem.wreg == source;
    if memWb.regWrite && memWb.wreg != 0 && !mem && memWb.wreg == source then FromWb
    else if mem then FromMem
    else FromDecode
  }

  function Forwarded(fwd: Forward, register: Word, exMem: ExMem, memWb: MemWb): Word {
    match fwd
    case FromDecode => register
    case FromWb => if memWb.memToReg then memWb.memoryData else memWb.aluResult
    case FromMem => exMem.aluResult
  }

  function AInput(x: IdEx, exMem: ExMem, memWb: MemWb): Word {
    Forwarded(ForwardUnit(x.wregRs, exMem, memWb), x.rs, exMem, memWb)
  }

  function BInput(x: IdEx, exMem: ExMem, memWb: MemWb): Word {
    if x.ctl.aluSrc then x.signExtend
    else Forwarded(ForwardUnit(x.wregRt, exMem, memWb), x.rt, exMem, memWb)
  }

  function AluControl(x: IdEx): (bool, bool, bool) {
    var funct := x.signExtend % 64;
    var f0, f1, f2, f3 := funct % 2 == 1, (funct / 2) % 2 == 1, (funct / 4) % 2 == 1, (funct / 8) % 2 == 1;
    ((f1 && x.ctl.aluOp1) || x.ctl.aluOp0, !f2 || !x.ctl.aluOp1, (f0 || f3) && x.ctl.aluOp1)
  }

  function Alu(ctl: (bool, bool, bool), a: Word, b: Word): Word {
    match ctl
    case (false, false, false) => And(a, b)
    case (false, false, true) => Or(a, b)
    case (false, true, false) => Add(a, b)
    case (false, true, true) => 0
    case (true, false, _) => 0
    case (true, true, _) => Sub(a, b)
  }

  function WregAddress(x: IdEx): Reg { if x.ctl.regDst then x.wregRd else x.wregRt }

  function Execute(x: IdEx, exMem: ExMem, memWb: MemWb): ExMem {
    var result := Alu(AluControl(x), AInput(x, exMem, memWb), BInput(x, exMem, memWb));
    ExMem(x.ctl.memToReg, x.ctl.regWrite, x.ctl.memWrite, x.ctl.memRead, x.ctl.branch, result == 0,
          result, x.rt, (x.pc4 + (x.signExtend * 4) % WORDS) % WORDS, WregAddress(x))
  }

  // ---- Memory and write-back stages ------------------------------------------

  function ReadData(x: ExMem, dram: Memory): Word {
    if x.memRead then dram[Cell(x.aluResult)] else WORDS - 1
  }

  function WriteMemory(x: ExMem, dram: Memory): Memory {
    if x.memWrite then dram[Cell(x.aluResult) := x.writeData] else dram
  }

  function WriteValue(x: MemWb): Word { if x.memToReg then x.memoryData else x.aluResult }

  function WriteRegister(x: MemWb, regs: Memory): Memory {
    if x.regWrite then regs[x.wreg := WriteValue(x)] else regs
  }

  // ---- One clock edge --------------------------------------------------------

  function DecodeStage(d: IfId, regs: Memory): IdEx {
    IdEx(Decode(d.instr), d.pc4, regs[d.instr.rs], regs[d.instr.rt], SignExtend(d.instr.imm), d.instr,
         d.instr.Rd(), d.instr.rt, d.instr.rs)
  }

  predicate Stalls(p: Pipe) {
    PcStall(p.ifId.instr, p.idEx.instr.opcode, WregAddress(p.idEx))
  }

  function NextPc(p: Pipe): Word {
    if Stalls(p) then p.pc
    else if p.exMem.branch && p.exMem.zero then p.exMem.branchPc
    else Next(p.pc)
  }

  function Cycle(iram: Program, p: Pipe): Pipe {
    var stall := Stalls(p);
    var exMem := Execute(p.idEx, p.exMem, p.memWb);
    var memWb := MemWb(p.exMem.memToReg, p.exMem.regWrite, ReadData(p.exMem, p.dram), p.exMem.aluResult, p.exMem.wreg);
    Pipe(NextPc(p),
         if stall then p.ifId else IfId(Next(p.pc), Fetch(iram, p.pc)),
         if stall then BUBBLE else DecodeStage(p.ifId, p.regs),
         exMem, memWb,
         WriteRegister(memWb, p.regs), WriteMemory(exMem, p.dram))
  }

  function PowerUp(regs: Memory, dram: Memory): Pipe {
    Pipe(0, IfId(0, NOP), BUBBLE, EX_MEM_RESET, MEM_WB_RESET, regs, dram)
  }

  function Cycles(iram: Program, p: Pipe, n: nat): Pipe {
    if n == 0 then p else Cycle(iram, Cycles(iram, p, n - 1))
  }
}
