// What the machine words compute: arithmetic against the integers, logic and instruction
// fields bit by bit. Both machines use these functions, so their agreement says nothing of them.
module MachineWords {
  import opened Basics
  import opened MipsIsa

  /** Bit i of a number, bit 0 the lowest. */
  predicate Bit(w: nat, i: nat) {
    if i == 0 then w % 2 == 1 else Bit(w / 2, i - 1)
  }

  /** The two's complement value of a word, and of a 16-bit immediate. */
  function Signed(w: Word): int { if w < 0x8000_0000 then w else w - WORDS }

  function SignedHalf(h: Half): int { if h < 0x8000 then h else h - 0x1_0000 }

  /** Equal modulo 2^32. */
  predicate SameWord(x: int, y: int) { (x - y) % WORDS == 0 }

  // ---- Arithmetic --------------------------------------------------------------

  /** A word is determined by any integer it is equal to modulo 2^32. */
  lemma WordIsUnique(v: Word, w: Word)
    requires SameWord(v, w)
    ensures v == w
  {
  }

  lemma SumMeaning(a: Word, b: Word)
    ensures SameWord(Add(a, b), a + b)
    ensures a + b < WORDS ==> Add(a, b) == a + b
  {
  }

  /** Subtraction takes its second operand off the first: adding it back gives the first. */
  lemma DifferenceMeaning(a: Word, b: Word)
    ensures SameWord(Sub(a, b), a - b)
    ensures b <= a ==> Sub(a, b) == a - b
    ensures Add(Sub(a, b), b) == a
  {
  }

  /** Sign extension keeps the two's complement value. */
  lemma SignExtendMeaning(h: Half)
    ensures Signed(SignExtend(h)) == SignedHalf(h)
    ensures if h < 0x8000 then SignExtend(h) == h else Add(SignExtend(h), 0x1_0000 - h) == 0
  {
  }

  /** A branch goes to the word its signed offset is away from the next instruction. */
  lemma BranchMeaning(pc4: Word, i: Instr)
    ensures SameWord(BranchTarget(pc4, i), pc4 + 4 * SignedHalf(i.imm))
    ensures 0 <= pc4 + 4 * SignedHalf(i.imm) < WORDS ==> BranchTarget(pc4, i) == pc4 + 4 * SignedHalf(i.imm)
    ensures SameWord(Next(pc4), pc4 + 4)
  {
    var d := SignExtend(i.imm);
    assert d == SignedHalf(i.imm) || d == SignedHalf(i.imm) + WORDS;
  }

  /** The same from the address of the branch itself. */
  lemma TargetFrom(at: Word, i: Instr)
    ensures SameWord(BranchTarget(Next(at), i), at + 4 + 4 * SignedHalf(i.imm))
  {
    BranchMeaning(Next(at), i);
    var t, d := BranchTarget(Next(at), i), 4 * SignedHalf(i.imm);
    if at + 4 >= WORDS {
      OneTurnMore(t, Next(at) + d);
    }
  }

  lemma OneTurnMore(x: int, y: int)
    requires SameWord(x, y)
    ensures SameWord(x, y + WORDS)
  {
  }

  // ---- Logic -------------------------------------------------------------------

  lemma {:induction false} BitwiseBit(or: bool, a: nat, b: nat, i: nat)
    ensures Bit(Bitwise(or, a, b), i) <==> if or then Bit(a, i) || Bit(b, i) else Bit(a, i) && Bit(b, i)
    decreases i
  {
    if a == 0 && b == 0 {
      NoBits(i);
    } else {
      var one := Bitwise(or, a / 2, b / 2);
      assert Bitwise(or, a, b) / 2 == one;
      if i > 0 {
        BitwiseBit(or, a / 2, b / 2, i - 1);
      }
    }
  }

  lemma {:induction false} NoBits(i: nat)
    ensures !Bit(0, i)
  {
    if i > 0 {
      NoBits(i - 1);
    }
  }

  lemma AndOrBits(a: Word, b: Word, i: nat)
    ensures Bit(And(a, b), i) <==> Bit(a, i) && Bit(b, i)
    ensures Bit(Or(a, b), i) <==> Bit(a, i) || Bit(b, i)
  {
    BitwiseBit(false, a, b, i);
    BitwiseBit(true, a, b, i);
  }

  // ---- Slices of a word ----------------------------------------------------------

  /** The number without its lowest k bits, and those bits. */
  function Above(w: nat, k: nat): nat {
    if k == 0 then w else Above(w / 2, k - 1)
  }

  function Below(w: nat, k: nat): nat {
    if k == 0 then 0 else 2 * Below(w / 2, k - 1) + w % 2
  }

  lemma {:induction false} AboveBit(w: nat, k: nat, j: nat)
    ensures Bit(Above(w, k), j) <==> Bit(w, k + j)
    decreases k
  {
    if k > 0 {
      AboveBit(w / 2, k - 1, j);
    }
  }

  lemma {:induction false} BelowBit(w: nat, k: nat, j: nat)
    ensures Bit(Below(w, k), j) <==> j < k && Bit(w, j)
    decreases k
  {
    if k == 0 {
      NoBits(j);
    } else {
      assert Below(w, k) / 2 == Below(w / 2, k - 1);
      if j > 0 {
        BelowBit(w / 2, k - 1, j - 1);
      }
    }
  }

  lemma {:induction false} DividedAt(w: nat, k: nat)
    ensures w == Above(w, k) * Pow2(k) + Below(w, k) && Below(w, k) < Pow2(k)
    decreases k
  {
    if k > 0 {
      DividedAt(w / 2, k - 1);
      Doubled(w, Above(w, k), Below(w / 2, k - 1), Pow2(k - 1));
    }
  }

  lemma Doubled(w: nat, q: nat, r: nat, m: nat)
    requires w / 2 == q * m + r && r < m
    ensures w == q * (2 * m) + (2 * r + w % 2) && 2 * r + w % 2 < 2 * m
  {
  }

  lemma AboveBelow(w: nat, k: nat, m: nat)
    requires m == Pow2(k)
    ensures w / m == Above(w, k) && w % m == Below(w, k)
  {
    DividedAt(w, k);
    DivisionUnique(w, m, Above(w, k), Below(w, k));
  }

  /** x holds the n bits of w from bit `low` on, and nothing else. */
  ghost predicate Slice(x: nat, w: nat, low: nat, n: nat) {
    forall j: nat :: Bit(x, j) <==> j < n && Bit(w, low + j)
  }

  lemma SliceOf(w: nat, low: nat, n: nat)
    ensures Slice(Below(Above(w, low), n), w, low, n)
  {
    forall j: nat
      ensures Bit(Below(Above(w, low), n), j) <==> j < n && Bit(w, low + j)
    {
      BelowBit(Above(w, low), n, j);
      AboveBit(w, low, j);
    }
  }

  lemma SliceByDivision(w: nat, low: nat, n: nat, m: nat, k: nat)
    requires m == Pow2(low) && k == Pow2(n)
    ensures Slice((w / m) % k, w, low, n)
  {
    SliceOf(w, low, n);
    AboveBelow(w, low, m);
    AboveBelow(w / m, n, k);
  }

  lemma {:induction false} SameBits(x: nat, y: nat)
    requires forall j: nat :: Bit(x, j) <==> Bit(y, j)
    ensures x == y
    decreases x + y
  {
    assert Bit(x, 0) <==> Bit(y, 0);
    if x > 0 || y > 0 {
      forall j: nat
        ensures Bit(x / 2, j) <==> Bit(y / 2, j)
      {
        assert Bit(x, j + 1) <==> Bit(y, j + 1);
      }
      SameBits(x / 2, y / 2);
    }
  }

  lemma SmallPowers()
    ensures Pow2(0) == 1 && Pow2(1) == 2 && Pow2(2) == 4 && Pow2(3) == 8 && Pow2(5) == 32 && Pow2(6) == 64 && Pow2(11) == 2048
    ensures Pow2(16) == 0x1_0000 && Pow2(21) == 0x20_0000 && Pow2(26) == 0x400_0000
  {
    assert Pow2(8) == 256;
    assert Pow2(11) == 2048;
    assert Pow2(16) == 0x1_0000;
    assert Pow2(21) == 0x20_0000;
  }

  // ---- What an instruction is made of, and what it does ----------------------------

  /** The fields are the bits 31..26, 25..21, 20..16 and 15..0 of the word; rd and the function
      code are bits 15..11 and 5..0. */
  lemma FieldBits(w: Word)
    ensures var i := Fields(w);
      && Slice(i.opcode, w, 26, 6) && Slice(i.rs, w, 21, 5) && Slice(i.rt, w, 16, 5) && Slice(i.imm, w, 0, 16)
      && Slice(i.Rd(), w, 11, 5) && Slice(i.Funct(), w, 0, 6)
  {
    SmallPowers();
    SliceByDivision(w, 26, 6, 0x400_0000, 64);
    SliceByDivision(w, 21, 5, 0x20_0000, 32);
    SliceByDivision(w, 16, 5, 0x1_0000, 32);
    SliceByDivision(w, 0, 16, 1, 0x1_0000);
    SliceByDivision(w, 11, 5, 2048, 32);
    SliceByDivision(w, 0, 6, 1, 64);
    UpperFields(w);
    LowerFields(w);
  }

  lemma UpperFields(w: Word)
    ensures var i := Fields(w);
      i.opcode == (w / 0x400_0000) % 64 && i.rs == (w / 0x20_0000) % 32 && i.rt == (w / 0x1_0000) % 32
  {
    var high := w / 0x1_0000;
    assert high / 32 == w / 0x20_0000;
    assert high / 32 / 32 == w / 0x400_0000;
  }

  lemma LowerFields(w: Word)
    ensures var i := Fields(w);
      i.imm == (w / 1) % 0x1_0000 && i.Rd() == (w / 2048) % 32 && i.Funct() == (w / 1) % 64
  {
    assert w / 1 == w;
    LowHalf(w, w / 0x1_0000, w % 0x1_0000);
  }

  lemma LowHalf(w: nat, high: nat, low: nat)
    requires w == high * 0x1_0000 + low && low < 0x1_0000
    ensures low / 2048 == (w / 2048) % 32 && low % 64 == w % 64
  {
    assert w / 2048 == high * 32 + low / 2048;
    assert w / 64 == high * 1024 + low / 64;
  }

  /** A data address selects the cell in its bits 6..2. */
  lemma CellBits(address: Word)
    ensures Slice(Cell(address), address, 2, 5)
  {
    SmallPowers();
    SliceByDivision(address, 2, 5, 4, 32);
  }

  /** A fetch address selects the word in its bits 4..2. */
  lemma FetchBits(iram: Program, pc: Word, k: nat)
    requires k < 8 && Slice(k, pc, 2, 3)
    ensures Fetch(iram, pc) == Fields(iram[k])
  {
    SmallPowers();
    SliceByDivision(pc, 2, 3, 4, 8);
    SameBits(k, (pc / 4) % 8);
  }

  /** add, sub, and, or by their function codes; slt, without an ALU operation of its own, subtracts. */
  lemma OperationMeaning(a: Word, b: Word, i: nat)
    ensures SameWord(RType(32, a, b), a + b)
    ensures SameWord(RType(34, a, b), a - b) && SameWord(RType(42, a, b), a - b)
    ensures Bit(RType(36, a, b), i) <==> Bit(a, i) && Bit(b, i)
    ensures Bit(RType(37, a, b), i) <==> Bit(a, i) || Bit(b, i)
  {
    SumMeaning(a, b);
    DifferenceMeaning(a, b);
    AndOrBits(a, b, i);
  }

  /** Every function code, by its four lowest bits. */
  lemma OperationByCode(funct: Bits6, a: Word, b: Word)
    ensures RType(funct, a, b) ==
      if Bit(funct, 2) then
        if Bit(funct, 1) then 0 else if Bit(funct, 0) || Bit(funct, 3) then Or(a, b) else And(a, b)
      else if Bit(funct, 1) then Sub(a, b)
      else if Bit(funct, 0) || Bit(funct, 3) then 0
      else Add(a, b)
  {
    LowBits(funct);
    if funct == 32 || funct == 34 || funct == 36 || funct == 37 {
      NamedCodes();
    }
  }

  lemma OneBit(n: nat, k: nat, m: nat)
    requires m == Pow2(k)
    ensures Bit(n, k) <==> (n / m) % 2 == 1
  {
    AboveBelow(n, k, m);
    AboveBit(n, k, 0);
  }

  lemma LowBits(n: nat)
    ensures Bit(n, 0) == (n % 2 == 1) && Bit(n, 1) == ((n / 2) % 2 == 1)
    ensures Bit(n, 2) == ((n / 4) % 2 == 1) && Bit(n, 3) == ((n / 8) % 2 == 1)
  {
    SmallPowers();
    OneBit(n, 1, 2);
    OneBit(n, 2, 4);
    OneBit(n, 3, 8);
  }

  lemma NamedCodes()
    ensures !Bit(32, 0) && !Bit(32, 1) && !Bit(32, 2) && !Bit(32, 3)
    ensures !Bit(34, 0) && Bit(34, 1) && !Bit(34, 2)
    ensures !Bit(36, 0) && !Bit(36, 1) && Bit(36, 2) && !Bit(36, 3)
    ensures Bit(37, 0) && !Bit(37, 1) && Bit(37, 2)
  {
    LowBits(32);
    LowBits(34);
    LowBits(36);
    LowBits(37);
  }

  /** One instruction of the sequential machine, by register r and memory cell c. */
  lemma ExecMeaning(iram: Program, a: Arch, r: Reg, c: nat)
    requires c < 32
    ensures SameWord(Address(a), a.regs[a.ir.rs] + SignedHalf(a.ir.imm))
    ensures Exec(iram, a).regs[r] ==
      if a.ir.opcode == 0 && r == a.ir.Rd() then RType(a.ir.Funct(), a.regs[a.ir.rs], a.regs[a.ir.rt])
      else if a.ir.opcode == 35 && r == a.ir.rt then a.dram[Cell(Address(a))]
      else a.regs[r]
    ensures Exec(iram, a).dram[c] ==
      if a.ir.opcode == 43 && c == Cell(Address(a)) then a.regs[a.ir.rt] else a.dram[c]
    ensures Taken(a) <==> a.ir.opcode == 4 && a.regs[a.ir.rs] == a.regs[a.ir.rt]
  {
    var d := SignExtend(a.ir.imm);
    assert d == SignedHalf(a.ir.imm) || d == SignedHalf(a.ir.imm) + WORDS;
    SumMeaning(a.regs[a.ir.rs], d);
  }
}
