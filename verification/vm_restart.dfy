// A process restarted while it is still current. The simulator skips the context switch,
// so the next access goes through a page table that is no longer the process's own.
module VmRestart {
  import opened Basics
  import opened VmState
  import opened VmOps
  import opened VmInv
  import opened VmSteps
  import opened VmRefine

  // ---- The first write after a restart ---------------------------------------------

  /** A process just started: nothing mapped, nothing in swap. */
  ghost predicate Fresh(s: Vm, p: nat) {
    Running(s, p) && forall v: nat :: v < s.geo.pages ==> EntryOf(s, p, v) == FREE_PTE
  }

  lemma StartIsFresh(s: Vm, p: nat, coins: Coins)
    requires Inv(s) && p < |s.procs| && !Running(s, p)
    ensures ProcInit(s, p, coins).Ok? ==> Fresh(ProcInit(s, p, coins).value, p)
  {
    FreeFrameKeeps(s, coins);
    if FreeFrame(s, coins).Ok? {
      var (s1, f) := FreeFrame(s, coins).value;
      InstallEntries(s1, p, f);
    }
  }

  /** Through a foreign table a byte other than 0 lands elsewhere, or lands in the page without
      marking it dirty. */
  lemma ForeignTouch(s: Vm, m: Flat, p: nat, address: nat, data: Byte, t: nat)
    requires Inv(s) && Running(s, p) && address < s.geo.pages * s.geo.pageSize && data != 0
    requires t != s.procs[p].ptbr && m.Get(p, address) == data
    requires var e := EntryOf(s, p, Vpn(s.geo, address));
      e.swap == 0 && !e.dirty && (e.valid ==> Bytes(s, e.pfn) == Zeros(s.geo.pageSize))
    ensures var r := Touch(s, t, Vpn(s.geo, address), Offset(s.geo, address), Write(data));
      r.Ok? ==> !(Inv(r.value.0) && Agrees(r.value.0, m))
  {
    var v, o := Vpn(s.geo, address), Offset(s.geo, address);
    var r := Touch(s, t, v, o, Write(data));
    if r.Ok? {
      var s', e, g := r.value.0, EntryOf(s, p, v), PteAt(s, t, v).pfn;
      assert TableOf(s, p);
      assert EntryOf(s', p, v) == e;
      assert PageOk(s, p, v);
      assert Inv(s') ==> PageOk(s', p, v);
      assert Agrees(s', m) ==> ByteAgrees(s', m, p, address);
    }
  }

  /** The first write after the restart of the current process, when it goes through, keeps
      processes and flat memory in step if and only if PTBR is the process's own table. */
  lemma RestartedWriteIff(s: Vm, m: Flat, p: nat, address: nat, data: Byte, coins: Coins)
    requires Inv(s) && Agrees(s, m) && s.current == Some(p) && Fresh(s, p)
    requires address < s.geo.pages * s.geo.pageSize && data != 0
    ensures var op := Access(p, Write(data), address);
      var r := Step(s, op, coins);
      r.Ok? ==> (Inv(r.value.0) && Agrees(r.value.0, FlatStep(m, op).0) <==> s.ptbr == s.procs[p].ptbr)
  {
    var op := Access(p, Write(data), address);
    if s.ptbr == s.procs[p].ptbr {
      StepRefines(s, m, op, coins);
    } else {
      ForeignWrite(s, FlatStep(m, op).0, p, address, data, coins);
    }
  }

  lemma ForeignWrite(s: Vm, m: Flat, p: nat, address: nat, data: Byte, coins: Coins)
    requires Inv(s) && s.current == Some(p) && Fresh(s, p) && s.ptbr != s.procs[p].ptbr
    requires address < s.geo.pages * s.geo.pageSize && data != 0 && m.Get(p, address) == data
    ensures var r := MemAccess(s, address, Write(data), coins);
      r.Ok? ==> !(Inv(r.value.0) && Agrees(r.value.0, m))
  {
    AddressInside(s.geo, address);
    var v := Vpn(s.geo, address);
    if HasEntry(s, s.ptbr, v) {
      if PteAt(s, s.ptbr, v).valid {
        ForeignTouch(s, m, p, address, data, s.ptbr);
      } else {
        FreeFrameKeeps(s, coins);
        if FreeFrame(s, coins).Ok? {
          var (s1, f) := FreeFrame(s, coins).value;
          PageInKeeps(s1, p, v, f);
          PageInEffect(s1, p, v, f);
          ForeignTouch(PageIn(s1, s1.procs[p].ptbr, p, v, f).value, m, p, address, data, s.ptbr);
        }
      }
    }
  }

  // ---- A trace on which a read goes wrong --------------------------------------------

  /** START 0, START 1, write 42 as 1, STOP 0, STOP 1, START 1, read as 1. */
  function OpAt(k: nat): Op {
    if k == 0 then Start(0) else if k == 1 then Start(1) else if k == 2 then Access(1, Write(42), 0)
    else if k == 3 then Stop(0) else if k == 4 then Stop(1) else if k == 5 then Start(1) else Access(1, Read, 0)
  }

  function LinesFrom(cs: nat -> Coins, k: nat): seq<Line>
    requires k <= 7
  {
    seq(7 - k, (i: nat) => Line(OpAt(k + i), cs(k + i)))
  }

  lemma FirstLine(cs: nat -> Coins, k: nat)
    requires k <= 6
    ensures LinesFrom(cs, k) == [Line(OpAt(k), cs(k))] + LinesFrom(cs, k + 1)
  {
  }

  ghost predicate Free(s: Vm, f: nat) {
    f < |s.ft| && !s.ft[f].protected_ && !s.ft[f].mapped
  }

  /** Enough memory for the trace, two processes, nothing in swap, frame 0 taken. */
  ghost predicate Roomy(s: Vm) {
    && s.geo.frames >= 4 && s.geo.pages >= 1 && s.geo.pageSize >= 1 && |s.ft| == |s.mem| == s.geo.frames
    && |s.procs| >= 2 && s.swap == map[] && s.ft[0].protected_
  }

  /** Process p runs on the table in frame t, all of whose entries but the given first one are free. */
  ghost predicate OnTable(s: Vm, p: nat, t: nat, first: Pte) {
    && p < |s.procs| && s.procs[p] == Pcb(true, t) && t < |s.mem| && t < |s.ft| && s.ft[t].protected_
    && TableIs(s, t, first)
  }

  ghost predicate TableIs(s: Vm, t: nat, first: Pte) {
    && t < |s.mem| && s.mem[t].Table? && |s.mem[t].entries| == s.geo.pages >= 1
    && s.mem[t].entries == EmptyTable(s.geo.pages)[0 := first]
  }

  const DIRTY: Pte := Pte(true, true, 3, 0)

  /** The page the write left behind in frame 3. */
  ghost predicate Left(s: Vm) {
    && s.current == Some(1) && s.ptbr == 2
    && 3 < |s.mem| && s.mem[3].Data? && s.mem[3].bytes != [] && s.mem[3].bytes[0] == 42
  }

  /** What holds in front of line k. */
  ghost predicate Before(s: Vm, k: nat) {
    && Roomy(s)
    && (k <= 2 ==> s.current == None && Free(s, 3))
    && (k <= 1 ==> !Running(s, 1) && Free(s, 2))
    && (k == 0 ==> !Running(s, 0) && Free(s, 1))
    && (1 <= k <= 3 ==> OnTable(s, 0, 1, FREE_PTE))
    && (k == 2 ==> OnTable(s, 1, 2, FREE_PTE))
    && (3 <= k <= 4 ==> OnTable(s, 1, 2, DIRTY))
    && (k >= 3 ==> Left(s) && TableIs(s, 2, DIRTY))
    && (4 <= k <= 5 ==> Free(s, 1))
    && (k == 5 ==> !Running(s, 1))
  }

  /** The lowest free frame f becomes a table; nothing else changes but its referenced bit. */
  lemma StartsAt(s: Vm, p: nat, f: nat, c: Coins)
    requires Roomy(s) && p < |s.procs| && 1 <= f <= 3 && Free(s, f)
    requires forall k: nat :: k < f ==> s.ft[k].protected_
    ensures var r := ProcInit(s, p, c);
      && r.Ok?
      && r.value == s.(ft := r.value.ft, mem := s.mem[f := Table(EmptyTable(s.geo.pages))],
                       procs := s.procs[p := Pcb(true, f)])
      && r.value.ft == s.ft[f := s.ft[f].(referenced := false, protected_ := true)]
  {
    VictimMeaning(s.ft, c);
    assert SelectVictim(s.ft, c) == Ok(f);
  }

  /** Releasing a table with nothing in swap only unmaps frames. */
  lemma {:induction false} ReleaseUnmaps(s: Vm, t: nat, n: nat)
    requires TableIs(s, t, FREE_PTE) || (TableIs(s, t, DIRTY) && |s.ft| > 3)
    requires n <= s.geo.pages
    ensures var r := ReleasePages(s, t, n);
      r == Ok(s) || (r.Ok? && TableIs(s, t, DIRTY) && |s.ft| > 3 && r.value == s.(ft := s.ft[3 := s.ft[3].(mapped := false)]))
  {
    if n > 0 {
      ReleaseUnmaps(s, t, n - 1);
      assert n > 1 ==> s.mem[t].entries[n - 1] == FREE_PTE;
    }
  }

  lemma StopsAt(s: Vm, p: nat, t: nat)
    requires Roomy(s) && 1 <= t <= 2 && (OnTable(s, p, t, FREE_PTE) || OnTable(s, p, t, DIRTY))
    ensures var r := ProcCleanup(s, p);
      && r.Ok? && |r.value.ft| == |s.ft|
      && r.value == s.(ft := r.value.ft, procs := s.procs[p := Pcb(false, 0)])
      && r.value.ft[t] == s.ft[t].(protected_ := false, mapped := false, referenced := false)
      && forall f: nat :: f < |s.ft| && f != t ==> r.value.ft[f] == s.ft[f] || r.value.ft[f] == s.ft[f].(mapped := false)
  {
    ReleaseUnmaps(s, t, s.geo.pages);
  }

  lemma StartLine(s: Vm, k: nat, c: Coins)
    requires Before(s, k) && (k == 0 || k == 1 || k == 5)
    ensures var r := Step(s, OpAt(k), c); r.Ok? && r.value.1 == None && Before(r.value.0, k + 1)
  {
    StartsAt(s, if k == 0 then 0 else 1, if k == 1 then 2 else 1, c);
    assert EmptyTable(s.geo.pages)[0 := FREE_PTE] == EmptyTable(s.geo.pages);
  }

  lemma StopLine(s: Vm, k: nat, c: Coins)
    requires Before(s, k) && 3 <= k <= 4
    ensures var r := Step(s, OpAt(k), c); r.Ok? && r.value.1 == None && Before(r.value.0, k + 1)
  {
    StopsAt(s, k - 3, k - 2);
  }

  /** The write faults its page into frame 3. */
  lemma WriteLine(s: Vm, c: Coins)
    requires Before(s, 2)
    ensures var r := Step(s, OpAt(2), c); r.Ok? && r.value.1 == Some(42) && Before(r.value.0, 3)
  {
    var s0 := ContextSwitch(s, 1);
    ZeroSplits(s.geo);
    VictimMeaning(s.ft, c);
    assert SelectVictim(s.ft, c) == Ok(3);
    var s1 := SetFte(s0, 3, s0.ft[3].(referenced := false));
    assert FreeFrame(s0, c) == Ok((s1, 3));
    var s2 := PageIn(s1, 2, 1, 0, 3).value;
    var empty := EmptyTable(s.geo.pages);
    assert s2.mem == s.mem[2 := Table(empty[0 := Pte(true, false, 3, 0)])][3 := Data(Zeros(s.geo.pageSize))] by {
      assert empty[0 := FREE_PTE] == empty;
    }
    assert PageFault(s0, 0, c) == Ok(s2);
    var s3 := Touch(s2, 2, 0, 0, Write(42)).value.0;
    assert s3.mem == s.mem[2 := Table(empty[0 := DIRTY])][3 := Data(Zeros(s.geo.pageSize)[0 := 42])] by {
      assert empty[0 := Pte(true, false, 3, 0)][0 := DIRTY] == empty[0 := DIRTY];
    }
    assert s3.ft[..3] == s.ft[..3];
  }

  lemma ZeroSplits(g: Geometry)
    requires g.pageSize >= 1
    ensures Vpn(g, 0) == 0 && Offset(g, 0) == 0
  {
  }

  lemma LastLine(s: Vm, c: Coins)
    requires Before(s, 6)
    ensures var r := Step(s, OpAt(6), c); r.Ok? && r.value.1 == Some(42) && r.value.0.geo == s.geo
  {
    ZeroSplits(s.geo);
  }

  /** One line taken from s to s'. */
  ghost predicate LineDone(s: Vm, line: Line, s': Vm, out: Option<Byte>) {
    s.geo.pageSize >= 1 && s'.geo.pageSize >= 1 && Step(s, line.op, line.coins) == Ok((s', out))
  }

  /** The lines of a trace taken one after the other through the states ss. */
  ghost predicate LinesDone(ss: seq<Vm>, trace: seq<Line>, outs: seq<Option<Byte>>) {
    |ss| == |trace| + 1 && |outs| == |trace| &&
    forall i: nat :: i < |trace| ==> LineDone(ss[i], trace[i], ss[i + 1], outs[i])
  }

  lemma {:induction false} RunByLines(ss: seq<Vm>, trace: seq<Line>, outs: seq<Option<Byte>>)
    requires LinesDone(ss, trace, outs) && ss[0].geo.pageSize >= 1
    ensures Run(ss[0], trace).printed == outs
    decreases |trace|
  {
    if trace != [] {
      assert LineDone(ss[0], trace[0], ss[1], outs[0]);
      forall i: nat | i < |trace[1..]|
        ensures LineDone(ss[1..][i], trace[1..][i], ss[1..][i + 1], outs[1..][i])
      {
        assert LineDone(ss[i + 1], trace[i + 1], ss[i + 2], outs[i + 1]);
      }
      RunByLines(ss[1..], trace[1..], outs[1..]);
    }
  }

  lemma OneMoreLine(s: Vm, line: Line, out: Option<Byte>, ss: seq<Vm>, trace: seq<Line>, outs: seq<Option<Byte>>)
    requires LinesDone(ss, trace, outs) && LineDone(s, line, ss[0], out)
    ensures LinesDone([s] + ss, [line] + trace, [out] + outs)
  {
    forall i: nat | i <= |trace|
      ensures LineDone(([s] + ss)[i], ([line] + trace)[i], ([s] + ss)[i + 1], ([out] + outs)[i])
    {
      assert i > 0 ==> LineDone(ss[i - 1], trace[i - 1], ss[i], outs[i - 1]);
    }
  }

  lemma LineGoes(s: Vm, k: nat, line: Line) returns (s': Vm, out: Option<Byte>)
    requires Before(s, k) && k <= 6 && line.op == OpAt(k)
    ensures LineDone(s, line, s', out)
    ensures if k == 6 then out == Some(42) else Before(s', k + 1)
  {
    if k == 2 {
      WriteLine(s, line.coins);
    } else if k == 3 || k == 4 {
      StopLine(s, k, line.coins);
    } else if k == 6 {
      LastLine(s, line.coins);
    } else {
      StartLine(s, k, line.coins);
    }
    var r := Step(s, line.op, line.coins);
    s', out := r.value.0, r.value.1;
  }

  lemma {:induction false} LinesGo(s: Vm, cs: nat -> Coins, k: nat) returns (ss: seq<Vm>, outs: seq<Option<Byte>>)
    requires k <= 6 && Before(s, k)
    ensures LinesDone(ss, LinesFrom(cs, k), outs) && ss[0] == s && outs[6 - k] == Some(42)
    decreases 6 - k
  {
    FirstLine(cs, k);
    var line := Line(OpAt(k), cs(k));
    var s', out := LineGoes(s, k, line);
    if k == 6 {
      ss, outs := [s'], [];
    } else {
      ss, outs := LinesGo(s', cs, k + 1);
    }
    OneMoreLine(s, line, out, ss, LinesFrom(cs, k + 1), outs);
    ss, outs := [s] + ss, [out] + outs;
  }

  /** In every memory of four frames or more, whatever the coins: process 1 is started again
      while still current, and the read prints 42, although nothing was written since the start. */
  lemma RestartReadsOldByte(g: Geometry, maxPid: nat, cs: nat -> Coins)
    requires g.frames >= 4 && g.pages >= 1 && g.pageSize >= 1 && maxPid >= 2
    ensures |Run(SystemInit(g, maxPid), LinesFrom(cs, 0)).printed| == 7
    ensures Run(SystemInit(g, maxPid), LinesFrom(cs, 0)).printed[6] == Some(42)
  {
    var ss, outs := LinesGo(SystemInit(g, maxPid), cs, 0);
    RunByLines(ss, LinesFrom(cs, 0), outs);
  }

  /** The line in front of that read is the start: the flat memory prints 0. */
  lemma RestartShouldReadZero(cs: nat -> Coins)
    ensures LinesFrom(cs, 0)[6].op == Access(1, Read, 0)
    ensures LastWrite(Ops(LinesFrom(cs, 0)[..6]), 1, 0) == 0
  {
    assert LinesFrom(cs, 0)[5].op == OpAt(5) && LinesFrom(cs, 0)[6].op == OpAt(6);
    var ops := Ops(LinesFrom(cs, 0)[..6]);
    assert ops[|ops| - 1] == Start(1);
  }
}
