// The cache simulator with its global arrays and counters, proved against the
// step function, and the trace theorems restated for addresses.
module CacheSim {
  import opened Basics
  import opened CacheAddress
  import opened LruSet
  import opened CacheModel

  /** 256 direct-mapped lines of 64 bytes. */
  const L1_GEOMETRY: Geometry := Geometry(6, 8, L1_LINES, 1)

  datatype Access = Access(addr: Addr, op: char)

  lemma Powers()
    ensures Pow2(8) == 256 && L1_GEOMETRY.Valid()
    ensures Pow2(64) == NO_TAG + 1
  {
    assert Pow2(8) == 256;
    assert Pow2(16) == 0x1_0000;
    assert Pow2(24) == 0x100_0000;
    assert Pow2(32) == 0x1_0000_0000;
    Pow2Add(32, 32);
  }

  function Split(g: Geometry, a: Access): (q: Request)
    requires g.Valid()
    ensures InRange(q, g.sets)
  {
    Powers();
    SplitIsDivMod(L1_GEOMETRY, a.addr);
    SplitIsDivMod(g, a.addr);
    Request(a.op, L1_GEOMETRY.Index(a.addr), L1_GEOMETRY.Tag(a.addr), g.Index(a.addr), g.Tag(a.addr))
  }

  function SplitAll(g: Geometry, trace: seq<Access>): (qs: seq<Request>)
    requires g.Valid()
    ensures |qs| == |trace| && TraceInRange(qs, g.sets)
  {
    seq(|trace|, k requires 0 <= k < |trace| => Split(g, trace[k]))
  }

  class Cache {
    const g: Geometry
    const l2: array<L2Set>
    const data: array<Line>
    const instr: array<Line>
    var accesses: nat
    var dHit: nat
    var dMiss: nat
    var iHit: nat
    var iMiss: nat
    var l2Hit: nat
    var l2Miss: nat
    var writebacks: nat
    var writeMiss: nat
    var writeCount: nat

    ghost predicate Valid()
      reads this
    {
      && g.Valid() && g.ways <= SLOTS
      && l2.Length == g.sets && data.Length == L1_LINES && instr.Length == L1_LINES
      && data != instr
    }

    ghost function State(): Sim
      reads this, l2, data, instr
    {
      Sim(l2[..], L1(data[..], instr[..]),
          CacheModel.Counters(accesses, dHit, dMiss, iHit, iMiss, l2Hit, l2Miss, writebacks, writeMiss, writeCount))
    }

    constructor (blockSize: int, cacheSize: int, ways: int)
      requires ValidArguments(blockSize, cacheSize, ways)
      ensures Valid() && g == MakeGeometry(blockSize, cacheSize, ways)
      ensures fresh(l2) && fresh(data) && fresh(instr)
      ensures State() == Run(g.sets, g.ways, [])
    {
      var geometry := MakeGeometry(blockSize, cacheSize, ways);
      g := geometry;
      l2 := new L2Set[geometry.sets](_ => InitSet(geometry.ways));
      data := new Line[L1_LINES](_ => Line(0, 0, 0));
      instr := new Line[L1_LINES](_ => Line(0, 0, 0));
      accesses, dHit, dMiss, iHit, iMiss := 0, 0, 0, 0, 0;
      l2Hit, l2Miss, writebacks, writeMiss, writeCount := 0, 0, 0, 0, 0;
      new;
      assert State() == Start(g.sets, g.ways);
    }

    /** The slot whose counter is 0; the struct is passed by value. */
    static method GetLruIndex(cache: L2Set) returns (b: int)
      requires cache.Shape()
      ensures b == FindLru(cache, 0)
    {
      for i := 0 to SLOTS
        invariant FindLru(cache, i) == FindLru(cache, 0)
      {
        if cache.lru[i] == 0 { return i; }
      }
      return -1;
    }

    static method CheckTagAndValidBit(cache: L2Set, tag: int) returns (b: int)
      requires cache.Shape()
      ensures b == FindTag(cache, tag, 0)
    {
      for i := 0 to SLOTS
        invariant FindTag(cache, tag, i) == FindTag(cache, tag, 0)
      {
        if cache.tag[i] != NO_TAG && cache.valid[i] != 0 && cache.tag[i] == tag { return i; }
      }
      return -1;
    }

    /** The counter loop at the end of an L2 access. */
    method TouchCounters(index: nat, b: nat)
      requires Valid() && index < l2.Length && b < SLOTS && l2[index].Shape()
      modifies l2
      ensures l2[..] == old(l2[..])[index := old(l2[index]).(lru := Touch(old(l2[index].lru), b, g.ways))]
    {
      ghost var lru0 := l2[index].lru;
      for i := 0 to SLOTS
        invariant l2[index].Shape()
        invariant l2[index] == old(l2[index]).(lru := l2[index].lru)
        invariant forall k :: 0 <= k < l2.Length && k != index ==> l2[k] == old(l2[k])
        invariant l2[index].lru[b] == lru0[b]
        invariant forall j :: i <= j < SLOTS ==> l2[index].lru[j] == lru0[j]
        invariant forall j :: 0 <= j < i && j != b ==> l2[index].lru[j] == Touch(lru0, b, g.ways)[j]
      {
        var lru := l2[index].lru;
        if lru[i] != -1 {
          if lru[i] > lru[b] {
            l2[index] := l2[index].(lru := lru[i := lru[i] - 1]);
          }
        }
      }
      l2[index] := l2[index].(lru := l2[index].lru[b := g.ways - 1]);
      assert l2[index].lru == Touch(lru0, b, g.ways);
    }

    /** The body of an L2 access, after the address is split. */
    method L2AccessAt(index: nat, tag: int, input: char) returns (ghost o: Outcome)
      requires Valid() && index < l2.Length && CanAccess(l2[index], tag)
      modifies l2, `l2Hit, `l2Miss, `writebacks, `writeMiss
      ensures o == LruSet.Access(old(l2[index]), g.ways, tag, input == 'w')
      ensures l2[..] == old(l2[..])[index := o.set_]
      ensures l2Hit == old(l2Hit) + (if o.hit then 1 else 0)
      ensures l2Miss == old(l2Miss) + (if o.hit then 0 else 1)
      ensures writebacks == old(writebacks) + (if o.writeback then 1 else 0)
      ensures writeMiss == old(writeMiss) + (if input == 'w' && !o.hit then 1 else 0)
    {
      o := LruSet.Access(l2[index], g.ways, tag, input == 'w');
      var b := CheckTagAndValidBit(l2[index], tag);
      if b != -1 {
        l2Hit := l2Hit + 1;
        if input == 'w' {
          l2[index] := l2[index].(dirty := l2[index].dirty[b := 1]);
        }
      } else {
        l2Miss := l2Miss + 1;
        b := GetLruIndex(l2[index]);
        Replace(index, b, tag, input);
      }
      TouchCounters(index, b);
    }

    /** Evict slot b and fill it: write back if dirty, then tag, valid and dirty bits. */
    method Replace(index: nat, b: nat, tag: int, input: char)
      requires Valid() && index < l2.Length && b < SLOTS && l2[index].Shape()
      modifies l2, `writebacks, `writeMiss
      ensures var s := old(l2[index]);
        && writebacks == old(writebacks) + (if s.dirty[b] == 1 then 1 else 0)
        && writeMiss == old(writeMiss) + (if input == 'w' then 1 else 0)
        && (var clean := if s.dirty[b] == 1 then s.dirty[b := 0] else s.dirty;
            l2[..] == old(l2[..])[index := L2Set(s.tag[b := tag], s.valid[b := 1],
                                                 if input == 'w' then clean[b := 1] else clean, s.lru)])
    {
      var line := l2[index];
      if line.dirty[b] == 1 {
        writebacks := writebacks + 1;
        line := line.(dirty := line.dirty[b := 0]);
      }
      line := line.(tag := line.tag[b := tag]);
      line := line.(valid := line.valid[b := 1]);
      if input == 'w' {
        line := line.(dirty := line.dirty[b := 1]);
        writeMiss := writeMiss + 1;
      }
      l2[index] := line;
    }

    method L2Access(q: Request)
      requires Valid() && InRange(q, g.sets) && CanAccess(l2[q.l2Index], q.l2Tag)
      modifies l2, `accesses, `l2Hit, `l2Miss, `writebacks, `writeMiss, `writeCount
      ensures State() == StepL2(old(State()), g.ways, q)
    {
      ghost var m := State();
      CountAccess(q.op);
      ghost var o := L2AccessAt(q.l2Index, q.l2Tag, q.op);
      StepL2Is(m, g.ways, q, o, State());
    }

    method CountAccess(input: char)
      modifies `accesses, `writeCount
      ensures accesses == old(accesses) + 1
      ensures writeCount == old(writeCount) + (if input == 'w' then 1 else 0)
    {
      accesses := accesses + 1;
      if input == 'w' {
        writeCount := writeCount + 1;
      }
    }

    /** An L2 step in terms of its outcome. */
    static lemma StepL2Is(m: Sim, ways: nat, q: Request, o: Outcome, r: Sim)
      requires q.l2Index < |m.l2| && CanAccess(m.l2[q.l2Index], q.l2Tag)
      requires o == LruSet.Access(m.l2[q.l2Index], ways, q.l2Tag, q.op == 'w')
      requires r == Sim(m.l2[q.l2Index := o.set_], m.l1, CountL2(m.n, q.op == 'w', o.hit, o.writeback))
      ensures r == StepL2(m, ways, q)
    {
    }

    /** Both levels split the same address; the split is a function of it, made once here. */
    method L1Access(physicalAddr: Addr, input: char)
      requires Valid()
      requires var q := Split(g, Access.Access(physicalAddr, input)); CanAccess(l2[q.l2Index], q.l2Tag)
      modifies this, l2, data, instr
      ensures State() == Step(old(State()), g.ways, Split(g, Access.Access(physicalAddr, input)))
    {
      var q := Split(g, Access.Access(physicalAddr, input));
      L1AccessAt(q);
    }

    method L1AccessAt(q: Request)
      requires Valid() && InRange(q, g.sets) && CanAccess(l2[q.l2Index], q.l2Tag)
      modifies this, l2, data, instr
      ensures State() == Step(old(State()), g.ways, q)
    {
      ghost var m := State();
      accesses := accesses + 1;
      ghost var m1 := State();
      assert m1 == m.(n := m.n.(accesses := m.n.accesses + 1));
      L1Dispatch(q);
      StepIs(m, m1, g.ways, q, State());
    }

    static lemma StepIs(m: Sim, m1: Sim, ways: nat, q: Request, r: Sim)
      requires m.l1.Shape() && q.l1Index < L1_LINES
      requires q.l2Index < |m.l2| && CanAccess(m.l2[q.l2Index], q.l2Tag)
      requires m1 == m.(n := m.n.(accesses := m.n.accesses + 1)) && r == Serve(m1, ways, q)
      ensures r == Step(m, ways, q)
    {
    }

    /** To the data or the instruction cache; any other operation is only counted. */
    method L1Dispatch(q: Request)
      requires Valid() && InRange(q, g.sets) && CanAccess(l2[q.l2Index], q.l2Tag)
      modifies this, l2, data, instr
      ensures State() == Serve(old(State()), g.ways, q)
    {
      if q.op == 'w' || q.op == 'r' {
        L1Data(q);
      } else if q.op == 'i' {
        L1Instruction(q);
      }
    }

    /** An L1 miss: drop the dirty bit, then set tag, valid and, for a write, dirty. */
    static method FillLine(lines: array<Line>, index: nat, tag: int, input: char)
      requires index < lines.Length && lines[index].tag != tag
      modifies lines
      ensures lines[..] == old(lines[..])[index := StepLine(old(lines[index]), tag, input == 'w')]
    {
      if lines[index].dirty == 1 {
        lines[index] := lines[index].(dirty := 0);
      }
      lines[index] := lines[index].(tag := tag);
      lines[index] := lines[index].(valid := 1);
      if input == 'w' {
        lines[index] := lines[index].(dirty := 1);
      }
    }

    method L1Data(q: Request)
      requires Valid() && InRange(q, g.sets) && IsData(q.op) && CanAccess(l2[q.l2Index], q.l2Tag)
      modifies this, l2, data
      ensures State() == Serve(old(State()), g.ways, q)
    {
      ghost var m := State();
      if data[q.l1Index].tag == q.l1Tag {
        dHit := dHit + 1;
        if q.op == 'w' {
          data[q.l1Index] := data[q.l1Index].(dirty := 1);
        }
        assert data[..] == StepLines(m.l1, q).data;
      } else {
        dMiss := dMiss + 1;
        assert State() == m.(n := CountL1(m.n, q.op, true));
        L2Access(q);
        FillLine(data, q.l1Index, q.l1Tag, q.op);
        ServeMiss(m, g.ways, q);
      }
    }

    method L1Instruction(q: Request)
      requires Valid() && InRange(q, g.sets) && q.op == 'i' && CanAccess(l2[q.l2Index], q.l2Tag)
      modifies this, l2, instr
      ensures State() == Serve(old(State()), g.ways, q)
    {
      ghost var m := State();
      if instr[q.l1Index].tag == q.l1Tag {
        iHit := iHit + 1;
        assert instr[..] == StepLines(m.l1, q).instr;
      } else {
        iMiss := iMiss + 1;
        assert State() == m.(n := CountL1(m.n, q.op, true));
        L2Access(q);
        FillLine(instr, q.l1Index, q.l1Tag, q.op);
        ServeMiss(m, g.ways, q);
      }
    }

    /** The main loop: the whole trace through the L1 caches. */
    method Simulate(trace: seq<Access>)
      requires Valid() && State() == Run(g.sets, g.ways, [])
      modifies this, l2, data, instr
      ensures Valid()
      ensures State() == Run(g.sets, g.ways, SplitAll(g, trace))
    {
      ghost var qs := SplitAll(g, trace);
      for k := 0 to |trace|
        invariant Valid()
        invariant State() == Run(g.sets, g.ways, qs[..k])
      {
        RunOneMore(g.sets, g.ways, qs, k);
        L1Access(trace[k].addr, trace[k].op);
      }
      assert qs[..|trace|] == qs;
    }
  }

  lemma RunOneMore(sets: nat, ways: nat, qs: seq<Request>, k: nat)
    requires 1 <= ways <= SLOTS && TraceInRange(qs, sets) && k < |qs|
    ensures var m := Run(sets, ways, qs[..k]);
      && m.l1.Shape() && qs[k].l2Index < |m.l2| && CanAccess(m.l2[qs[k].l2Index], qs[k].l2Tag)
      && Run(sets, ways, qs[..k + 1]) == Step(m, ways, qs[k])
  {
    assert qs[..k + 1][..k] == qs[..k] && qs[..k + 1][k] == qs[k];
    StepDefined(Run(sets, ways, qs[..k]), sets, ways, MissStream(qs[..k]), qs[k]);
  }

  lemma StepDefined(m: Sim, sets: nat, ways: nat, stream: seq<Request>, q: Request)
    requires Good(m, sets, ways, stream) && InRange(q, sets)
    ensures m.l1.Shape() && q.l2Index < |m.l2| && CanAccess(m.l2[q.l2Index], q.l2Tag)
  {
    StepGood(m, sets, ways, stream, q);
  }

  /** For equal set count and block size, no trace of addresses misses more in L2 with more ways. */
  lemma AddressTraceMonotone(g: Geometry, g': Geometry, trace: seq<Access>)
    requires g.Valid() && g'.Valid() && g.ways <= g'.ways
    requires g.offsetBits == g'.offsetBits && g.indexBits == g'.indexBits && g.sets == g'.sets
    ensures Run(g'.sets, g'.ways, SplitAll(g', trace)).n.l2Miss <= Run(g.sets, g.ways, SplitAll(g, trace)).n.l2Miss
  {
    assert SplitAll(g, trace) == SplitAll(g', trace);
    MoreWaysNeverMissMore(g.sets, g.ways, g'.ways, SplitAll(g, trace));
  }

  // ---- Hits on blocks that were never brought in ---------------------------------------

  lemma SmallTag(a: Addr)
    ensures L1_GEOMETRY.Valid() && (L1_GEOMETRY.Tag(a) == 0 <==> a < 0x4000)
    ensures L1_GEOMETRY.Index(a) == (a / 64) % 256
  {
    Powers();
    SplitIsDivMod(L1_GEOMETRY, a);
    assert Pow2(6) == 64;
  }

  /** The two accesses go to the same L1 cache and the same of its 256 lines. */
  predicate SharesLine(a: Access, b: Access) {
    ((IsData(a.op) && IsData(b.op)) || (a.op == 'i' && b.op == 'i')) && (a.addr / 64) % 256 == (b.addr / 64) % 256
  }

  /** Every access of the trace to a's line is below 2^14. */
  ghost predicate LineKeptLow(trace: seq<Access>, a: Access) {
    forall k: nat :: k < |trace| && SharesLine(trace[k], a) ==> trace[k].addr < 0x4000
  }

  lemma LowIsTagZero(g: Geometry, trace: seq<Access>, a: Access)
    requires g.Valid()
    ensures Split(g, a).l1Tag == 0 <==> a.addr < 0x4000
    ensures OnlyTagZero(SplitAll(g, trace), Split(g, a)) <==> LineKeptLow(trace, a)
  {
    var qs, q := SplitAll(g, trace), Split(g, a);
    SmallTag(a.addr);
    forall k: nat | k < |trace|
      ensures SameLine(qs[k], q) <==> SharesLine(trace[k], a)
      ensures qs[k].l1Tag == 0 <==> trace[k].addr < 0x4000
    {
      SmallTag(trace[k].addr);
    }
  }

  /** On every trace of addresses and in every geometry: an access that hits L1 hits a block that was
      brought in - some access sent on to L2 was for it - exactly unless its address and those of
      all earlier accesses to its line are below 2^14. */
  lemma HitIsHonestIff(g: Geometry, trace: seq<Access>, a: Access)
    requires g.Valid() && (IsData(a.op) || a.op == 'i')
    ensures var qs, q := SplitAll(g, trace), Split(g, a);
      !Misses(L1After(qs), q) ==> (BroughtIn(MissStream(qs), q) <==> !(a.addr < 0x4000 && LineKeptLow(trace, a)))
  {
    var qs, q := SplitAll(g, trace), Split(g, a);
    LowIsTagZero(g, trace, a);
    if !Misses(L1After(qs), q) {
      HonestHitIff(qs, q);
    }
  }

  /** Such accesses do hit: as long as a line is only used below 2^14, nothing is brought in for it. */
  lemma LowLineNeverMisses(g: Geometry, trace: seq<Access>, a: Access)
    requires g.Valid() && (IsData(a.op) || a.op == 'i')
    requires a.addr < 0x4000 && LineKeptLow(trace, a)
    ensures !Misses(L1After(SplitAll(g, trace)), Split(g, a))
  {
    LowIsTagZero(g, trace, a);
    ZeroLineHits(SplitAll(g, trace), Split(g, a));
  }

  /** On an empty cache: a first access, read, write or fetch, hits exactly below 2^14. */
  lemma ColdHitIff(g: Geometry, a: Access)
    requires g.Valid() && (IsData(a.op) || a.op == 'i')
    ensures var q := Split(g, a);
      Latest([], q) == -1 && (MissStream([q]) == [] <==> a.addr < 0x4000)
  {
    var q := Split(g, a);
    SmallTag(a.addr);
    assert [q][..0] == [];
  }
}
