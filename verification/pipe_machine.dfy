// The processor as clocked state: pipeline registers, register array and data
// memory updated in place at each rising edge.
module PipeMachine {
  import opened MipsIsa
  import opened PipeCore
  import opened PipeRuns

  class SpimPipe {
    const iram: Program
    const registerArray: array<Word>
    const dram: array<Word>
    var pc: Word
    var ifId: IfId
    var idEx: IdEx
    var exMem: ExMem
    var memWb: MemWb

    ghost predicate Valid()
      reads this
    {
      registerArray.Length == 32 && dram.Length == 32 && registerArray != dram
    }

    ghost function State(): Pipe
      requires Valid()
      reads this, registerArray, dram
    {
      Pipe(pc, ifId, idEx, exMem, memWb, registerArray[..], dram[..])
    }

    constructor (program: Program, regs: Memory, data: Memory)
      ensures Valid() && fresh(registerArray) && fresh(dram) && iram == program
      ensures State() == PowerUp(regs, data)
    {
      iram := program;
      registerArray := new Word[32](i requires 0 <= i < 32 => regs[i]);
      dram := new Word[32](i requires 0 <= i < 32 => data[i]);
      pc := 0;
      ifId := IfId(0, NOP);
      idEx, exMem, memWb := BUBBLE, EX_MEM_RESET, MEM_WB_RESET;
      new;
      assert registerArray[..] == regs;
      assert dram[..] == data;
    }

    /** PC register: a stall takes priority over a taken branch. */
    method ClockPc(pcStall: bool, pcSource: bool, branchPc: Word)
      modifies `pc
      ensures pc == if pcStall then old(pc) else if pcSource then branchPc else Next(old(pc))
    {
      if !pcStall {
        pc := if pcSource then branchPc else Next(pc);
      }
    }

    /** IF/ID holds on a stall. */
    method ClockIfId(pcStall: bool, ifPc4: Word, instruction: Instr)
      modifies `ifId
      ensures ifId == if pcStall then old(ifId) else IfId(ifPc4, instruction)
    {
      if !pcStall {
        ifId := IfId(ifPc4, instruction);
      }
    }

    /** ID/EX takes a bubble on a stall. */
    method ClockIdEx(pcStall: bool, decoded: IdEx)
      modifies `idEx
      ensures idEx == if pcStall then BUBBLE else decoded
    {
      if pcStall {
        idEx := BUBBLE;
      } else {
        idEx := decoded;
      }
    }

    /** Register file and data memory follow the new WB and MEM contents within the cycle. */
    method Settle()
      requires Valid()
      modifies registerArray, dram
      ensures registerArray[..] == WriteRegister(memWb, old(registerArray[..]))
      ensures dram[..] == WriteMemory(exMem, old(dram[..]))
    {
      if memWb.regWrite {
        registerArray[memWb.wreg] := WriteValue(memWb);
      }
      if exMem.memWrite {
        dram[Cell(exMem.aluResult)] := exMem.writeData;
      }
    }

    method RisingEdge()
      requires Valid()
      modifies this, registerArray, dram
      ensures State() == Cycle(iram, old(State()))
    {
      var pcStall := PcStall(ifId.instr, idEx.instr.opcode, WregAddress(idEx));
      var pcSource := exMem.branch && exMem.zero;
      var fetched, pc4 := Fetch(iram, pc), Next(pc);
      var decoded := DecodeStage(ifId, registerArray[..]);
      var executed := Execute(idEx, exMem, memWb);
      var read := ReadData(exMem, dram[..]);
      ClockPc(pcStall, pcSource, exMem.branchPc);
      ClockIfId(pcStall, pc4, fetched);
      ClockIdEx(pcStall, decoded);
      memWb := MemWb(exMem.memToReg, exMem.regWrite, read, exMem.aluResult, exMem.wreg);
      exMem := executed;
      Settle();
    }

    /** n clock cycles from power-up; a hazard-free program is left in the sequential machine's state. */
    method RunClock(n: nat, ghost regs: Memory, ghost data: Memory)
      requires Valid() && State() == PowerUp(regs, data)
      modifies this, registerArray, dram
      ensures State() == Cycles(iram, PowerUp(regs, data), n)
      ensures var run, st := RunFrom(iram, Reset(regs, data)), StallHistory(iram, PowerUp(regs, data));
        HazardFree(run, n) ==>
        && 0 <= PastMem(st, n) <= PastEx(st, n)
        && registerArray[..] == run(PastMem(st, n)).regs
        && dram[..] == run(PastEx(st, n)).dram
        && pc == run(Issued(st, n)).f1
    {
      for k := 0 to n
        invariant State() == Cycles(iram, PowerUp(regs, data), k)
      {
        RisingEdge();
      }
      if HazardFree(RunFrom(iram, Reset(regs, data)), n) {
        PipelineRefines(iram, regs, data, n);
      }
    }
  }
}
