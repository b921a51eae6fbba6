// Machine words, instruction fields, and the sequential machine that the
// pipeline is measured against: one instruction at a time, three delay slots.
module MipsIsa {
  import opened Basics

  const WORDS: nat := 0x1_0000_0000
  type Word = x: int | 0 <= x < WORDS witness 0
  type Reg = r: int | 0 <= r < 32 witness 0
  type Bits6 = b: int | 0 <= b < 64 witness 0
  type Half = h: int | 0 <= h < 0x1_0000 witness 0

  // ---- Words -----------------------------------------------------------------

  function Add(a: Word, b: Word): Word { (a + b) % WORDS }

  function Sub(a: Word, b: Word): Word { (a - b) % WORDS }

  /** Bit by bit AND (or OR). */
  function Bitwise(or: bool, a: nat, b: nat): nat
    decreases a + b
  {
    if a == 0 && b == 0 then 0
    else
      var both := a % 2 == 1 && b % 2 == 1;
      var one := a % 2 == 1 || b % 2 == 1;
      2 * Bitwise(or, a / 2, b / 2) + (if if or then one else both then 1 else 0)
  }

  lemma {:induction false} BitwiseBelow(or: bool, a: nat, b: nat, n: nat)
    requires a < Pow2(n) && b < Pow2(n)
    ensures Bitwise(or, a, b) < Pow2(n)
    decreases n
  {
    if n > 0 && (a > 0 || b > 0) {
      BitwiseBelow(or, a / 2, b / 2, n - 1);
    }
  }

  lemma Pow2Of32()
    ensures Pow2(32) == WORDS
  {
    assert Pow2(8) == 256;
    assert Pow2(16) == 0x1_0000;
    assert Pow2(24) == 0x100_0000;
  }

  function And(a: Word, b: Word): Word {
    Pow2Of32();
    BitwiseBelow(false, a, b, 32);
    Bitwise(false, a, b)
  }

  function Or(a: Word, b: Word): Word {
    Pow2Of32();
    BitwiseBelow(true, a, b, 32);
    Bitwise(true, a, b)
  }

  lemma SubZero(a: Word, b: Word)
    ensures Sub(a, b) == 0 <==> a == b
  {
  }

  function SignExtend(h: Half): Word {
    if h < 0x8000 then h else 0xFFFF_0000 + h
  }

  // ---- Instructions ----------------------------------------------------------

  /** The fields of an instruction word; rd and funct are slices of the immediate. */
  datatype Instr = Instr(opcode: Bits6, rs: Reg, rt: Reg, imm: Half) {
    function Rd(): Reg { imm / 2048 }
    function Funct(): Bits6 { imm % 64 }
    predicate IsR() { opcode == 0 }
    predicate IsLw() { opcode == 35 }
    predicate IsSw() { opcode == 43 }
    predicate IsBeq() { opcode == 4 }
  }

  /** Bits 31..26, 25..21, 20..16 and 15..0. */
  function Fields(w: Word): Instr {
    var high := w / 0x1_0000;
    Instr((high / 32) / 32, (high / 32) % 32, high % 32, w % 0x1_0000)
  }

  function Encode(i: Instr): Word {
    ((i.opcode * 32 + i.rs) * 32 + i.rt) * 0x1_0000 + i.imm
  }

  lemma FieldsRoundTrip(i: Instr, w: Word)
    ensures Fields(Encode(i)) == i && Encode(Fields(w)) == w
  {
    var high := (i.opcode * 32 + i.rs) * 32 + i.rt;
    assert Encode(i) / 0x1_0000 == high && Encode(i) % 0x1_0000 == i.imm;
    assert high / 32 == i.opcode * 32 + i.rs && high % 32 == i.rt;
  }

  const NOP: Instr := Instr(0, 0, 0, 0)

  type Memory = m: seq<Word> | |m| == 32 witness seq(32, _ => 0)
  /** Only the first eight words of the instruction memory are addressable. */
  type Program = m: seq<Word> | |m| >= 8 witness seq(8, _ => 0)

  function Fetch(iram: Program, pc: Word): Instr { Fields(iram[(pc / 4) % 8]) }

  /** Address bits 6 down to 2. */
  function Cell(address: Word): (c: nat)
    ensures c < 32
  {
    (address / 4) % 32
  }

  function BranchTarget(pc4: Word, i: Instr): Word { (pc4 + SignExtend(i.imm) * 4) % WORDS }

  function Next(pc: Word): Word { (pc + 4) % WORDS }

  // ---- The sequential machine ------------------------------------------------

  /** Registers, data memory, the fetched instruction with its PC+4, and the three
      fetch addresses already decided behind it. */
  datatype Arch = Arch(regs: Memory, dram: Memory, ir: Instr, pc4: Word, f1: Word, f2: Word, f3: Word)

  /** add, sub, and, or; every other function code goes through the ALU control equations. */
  function RType(funct: Bits6, a: Word, b: Word): Word {
    if funct == 32 then Add(a, b)
    else if funct == 34 then Sub(a, b)
    else if funct == 36 then And(a, b)
    else if funct == 37 then Or(a, b)
    else OtherFunct(funct, a, b)
  }

  function OtherFunct(funct: Bits6, a: Word, b: Word): Word {
    var f0, f1, f2, f3 := funct % 2 == 1, (funct / 2) % 2 == 1, (funct / 4) % 2 == 1, (funct / 8) % 2 == 1;
    if f2 then (if f1 then 0 else if f0 || f3 then Or(a, b) else And(a, b))
    else if f1 then Sub(a, b)
    else if f0 || f3 then 0
    else Add(a, b)
  }

  function Address(a: Arch): Word { Add(a.regs[a.ir.rs], SignExtend(a.ir.imm)) }

  predicate Taken(a: Arch) { a.ir.IsBeq() && a.regs[a.ir.rs] == a.regs[a.ir.rt] }

  predicate Writes(i: Instr, r: Reg) { (i.IsR() && i.Rd() == r) || (i.IsLw() && i.rt == r) }

  /** The value an R-type or load instruction puts in its destination. */
  function Result(a: Arch): Word {
    if a.ir.IsLw() then a.dram[Cell(Address(a))]
    else RType(a.ir.Funct(), a.regs[a.ir.rs], a.regs[a.ir.rt])
  }

  function RegsAfter(a: Arch): Memory {
    if a.ir.IsR() then a.regs[a.ir.Rd() := Result(a)]
    else if a.ir.IsLw() then a.regs[a.ir.rt := Result(a)]
    else a.regs
  }

  function DramAfter(a: Arch): Memory {
    if a.ir.IsSw() then a.dram[Cell(Address(a)) := a.regs[a.ir.rt]] else a.dram
  }

  /** The fetch address this instruction decides: three instructions follow it first. */
  function Decided(a: Arch): Word {
    if Taken(a) then BranchTarget(a.pc4, a.ir) else Next(a.f3)
  }

  function Exec(iram: Program, a: Arch): Arch {
    Arch(RegsAfter(a), DramAfter(a), Fetch(iram, a.f1), Next(a.f1), a.f2, a.f3, Decided(a))
  }

  /** After reset the decode stage holds the all-zero word and the PC is 0. */
  function Reset(regs: Memory, dram: Memory): Arch {
    Arch(regs, dram, NOP, 0, 0, 4, 8)
  }

  function SeqRun(iram: Program, a: Arch, n: nat): Arch {
    if n == 0 then a else Exec(iram, SeqRun(iram, a, n - 1))
  }

  // ---- Hazards ---------------------------------------------------------------

  /** A load followed at once by an R-type reader: the pair that stalls. */
  predicate LoadUse(prev: Instr, cur: Instr) {
    prev.IsLw() && cur.IsR() && (cur.rs == prev.rt || cur.rt == prev.rt)
  }

  /** A load whose value is needed one instruction later by an address or a branch. */
  predicate H1(prev: Instr, cur: Instr) {
    && prev.IsLw() && prev.rt != 0
    && ((cur.rs == prev.rt && (cur.IsLw() || cur.IsSw() || cur.IsBeq())) || (cur.rt == prev.rt && cur.IsBeq()))
  }

  /** A store whose stored register was just written. */
  predicate H2(prev: Instr, cur: Instr) {
    cur.IsSw() && cur.rt != 0 && Writes(prev, cur.rt)
  }

  /** The sequential states, by number of executed instructions. */
  type Run = nat -> Arch

  function RunFrom(iram: Program, a: Arch): Run {
    (n: nat) => SeqRun(iram, a, n)
  }

  /** No hazard at the k-th instruction of a run. H3 asks that $0 stays zero; H4 that no
      load-use pair sits in the first two delay slots of a taken branch. */
  ghost predicate HazardFreeAt(run: Run, k: nat) {
    && run(k).regs[0] == 0
    && (k >= 1 ==> !H1(run(k - 1).ir, run(k).ir) && !H2(run(k - 1).ir, run(k).ir))
    && (k >= 2 ==> !H2(run(k - 2).ir, run(k).ir))
    && (k >= 2 && Taken(run(k - 2)) ==> !LoadUse(run(k - 1).ir, run(k).ir))
  }

  ghost predicate HazardFree(run: Run, n: nat) {
    forall k: nat :: k <= n ==> HazardFreeAt(run, k)
  }
}
