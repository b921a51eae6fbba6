// The statistics of a run and the referenced bits, exactly.
module VmStats {
  import opened Basics
  import opened VmState
  import opened VmOps
  import opened VmInv
  import opened VmSteps
  import opened VmRefine

  // ---- What one line adds ----------------------------------------------------------

  /** The access finds its page unmapped. */
  ghost predicate Faults(s: Vm, op: Op) {
    s.geo.pageSize >= 1 && op.Access? && !EntryOf(s, op.pid, Vpn(s.geo, op.address)).valid
  }

  /** The page in frame f is dirty. */
  ghost predicate HoldsDirty(s: Vm, f: nat) {
    f < |s.ft| && s.ft[f].mapped && EntryOf(s, s.ft[f].process, s.ft[f].vpn).dirty
  }

  /** The line takes a frame, and a dirty page has to leave it. */
  ghost predicate Evicts(s: Vm, op: Op, coins: Coins) {
    NeedsFrame(s, op) && SelectVictim(s.ft, coins).Ok? && HoldsDirty(s, SelectVictim(s.ft, coins).value)
  }

  function One(b: bool): nat { if b then 1 else 0 }

  function Adding(n: Stats, read: nat, written: nat, faults: nat, evictions: nat): Stats {
    Stats(n.writeCount + written, n.readCount + read, n.accesses + read + written,
          n.pageFaults + faults, n.writebacks + evictions)
  }

  lemma FreeFrameStats(s: Vm, coins: Coins)
    requires Inv(s) && FreeFrame(s, coins).Ok?
    ensures SelectVictim(s.ft, coins).Ok?
    ensures FreeFrame(s, coins).value.0.stats
         == Adding(s.stats, 0, 0, 0, One(HoldsDirty(s, SelectVictim(s.ft, coins).value)))
  {
    VictimMeaning(s.ft, coins);
    var f := SelectVictim(s.ft, coins).value;
    if s.ft[f].mapped {
      EvictEffect(s, f);
    }
  }

  lemma TouchStats(s: Vm, t: nat, v: nat, o: nat, rw: ReadWrite, r: Result<(Vm, Byte)>)
    requires r == Touch(s, t, v, o, rw)
    ensures r.Ok? ==> r.value.0.stats == Adding(s.stats, One(rw.Read?), One(rw.Write?), 0, 0)
  {
  }

  lemma AccessStats(s: Vm, p: nat, rw: ReadWrite, address: nat, coins: Coins)
    requires Inv(s) && Running(s, p) && s.current == Some(p) && s.ptbr == s.procs[p].ptbr
    requires address < s.geo.pages * s.geo.pageSize
    ensures var r, op := MemAccess(s, address, rw, coins), Access(p, rw, address);
      r.Ok? ==> (r.value.0.stats ==
        Adding(s.stats, One(rw.Read?), One(rw.Write?), One(Faults(s, op)), One(Evicts(s, op, coins))))
  {
    AddressInside(s.geo, address);
    assert TableOf(s, p);
    var v, o, r := Vpn(s.geo, address), Offset(s.geo, address), MemAccess(s, address, rw, coins);
    if !Faults(s, Access(p, rw, address)) {
      TouchStats(s, s.ptbr, v, o, rw, r);
    } else if FreeFrame(s, coins).Ok? {
      FreeFrameStats(s, coins);
      FreeFrameKeeps(s, coins);
      FaultStats(s, p, address, coins);
      var s1 := PageFault(s, address, coins);
      if s1.Ok? {
        TouchStats(s1.value, s.ptbr, v, o, rw, r);
      }
    }
  }

  lemma FaultStats(s: Vm, p: nat, address: nat, coins: Coins)
    requires Inv(s) && Running(s, p) && s.current == Some(p) && address < s.geo.pages * s.geo.pageSize
    requires FreeFrame(s, coins).Ok? && Vpn(s.geo, address) < s.geo.pages
    ensures var r := PageFault(s, address, coins);
      var n := FreeFrame(s, coins).value.0.stats;
      r.Ok? ==> r.value.stats == n.(pageFaults := n.pageFaults + 1)
  {
  }

  /** The switch before an access changes neither its fault nor its eviction. */
  lemma SwitchKeeps(s: Vm, p: nat, rw: ReadWrite, address: nat, coins: Coins, s0: Vm)
    requires Inv(s) && Running(s, p) && s0 == (if s.current != Some(p) then ContextSwitch(s, p) else s)
    requires address < s.geo.pages * s.geo.pageSize
    ensures Inv(s0) && s0.stats == s.stats && s0.nextToken == s.nextToken
    ensures var op := Access(p, rw, address);
      && (Faults(s0, op) <==> Faults(s, op)) && (Evicts(s0, op, coins) <==> Evicts(s, op, coins))
      && (DrawsToken(s0, op, coins) <==> DrawsToken(s, op, coins))
  {
    AgreeInv(s, s0);
    AddressInside(s.geo, address);
    assert EntryOf(s0, p, Vpn(s.geo, address)) == EntryOf(s, p, Vpn(s.geo, address));
    assert forall f: nat :: HoldsDirty(s0, f) <==> HoldsDirty(s, f);
    assert forall f: nat :: Unsaved(s0, f) <==> Unsaved(s, f);
  }

  lemma AccessLineStats(s: Vm, p: nat, rw: ReadWrite, address: nat, coins: Coins)
    requires Inv(s) && WellFormed(s, Access(p, rw, address))
    ensures var r, op := Step(s, Access(p, rw, address), coins), Access(p, rw, address);
      r.Ok? ==> (r.value.0.stats ==
        Adding(s.stats, One(rw.Read?), One(rw.Write?), One(Faults(s, op)), One(Evicts(s, op, coins))))
  {
    var s0 := if s.current != Some(p) then ContextSwitch(s, p) else s;
    SwitchKeeps(s, p, rw, address, coins, s0);
    AccessStats(s0, p, rw, address, coins);
  }

  /** Every line, any coins: one read or write counted as an access, a page fault if the page was
      unmapped, a write-back if a dirty page had to leave the frame taken; nothing else moves. */
  lemma StepStats(s: Vm, op: Op, coins: Coins)
    requires Inv(s) && WellFormed(s, op)
    ensures var r := Step(s, op, coins);
      r.Ok? ==> (r.value.0.stats ==
        Adding(s.stats, One(op.Access? && op.rw.Read?), One(op.Access? && op.rw.Write?),
               One(Faults(s, op)), One(Evicts(s, op, coins))))
  {
    match op {
      case Start(p) =>
        if FreeFrame(s, coins).Ok? { FreeFrameStats(s, coins); }
      case Stop(p) =>
        CleanupEffect(s, p);
      case Access(p, rw, address) =>
        AccessLineStats(s, p, rw, address, coins);
    }
  }

  // ---- What a run adds ----------------------------------------------------------------

  function Reads(trace: seq<Line>): nat {
    if trace == [] then 0 else One(trace[0].op.Access? && trace[0].op.rw.Read?) + Reads(trace[1..])
  }

  function Writes(trace: seq<Line>): nat {
    if trace == [] then 0 else One(trace[0].op.Access? && trace[0].op.rw.Write?) + Writes(trace[1..])
  }

  /** Lines that fault along the run. */
  ghost function FaultLines(s: Vm, trace: seq<Line>): nat
    decreases |trace|
  {
    if trace == [] || s.geo.pageSize < 1 then 0
    else
      var r := Step(s, trace[0].op, trace[0].coins);
      One(Faults(s, trace[0].op)) + (if r.Ok? then FaultLines(r.value.0, trace[1..]) else 0)
  }

  /** Lines that evict a dirty page along the run. */
  ghost function EvictLines(s: Vm, trace: seq<Line>): nat
    decreases |trace|
  {
    if trace == [] || s.geo.pageSize < 1 then 0
    else
      var r := Step(s, trace[0].op, trace[0].coins);
      One(Evicts(s, trace[0].op, trace[0].coins)) + (if r.Ok? then EvictLines(r.value.0, trace[1..]) else 0)
  }

  lemma RunOn(s: Vm, trace: seq<Line>, s1: Vm)
    requires s.geo.pageSize >= 1 && trace != []
    requires Step(s, trace[0].op, trace[0].coins).Ok? && s1 == Step(s, trace[0].op, trace[0].coins).value.0
    requires s1.geo.pageSize >= 1
    ensures Run(s, trace).end == Run(s1, trace[1..]).end
    ensures FaultLines(s, trace) == One(Faults(s, trace[0].op)) + FaultLines(s1, trace[1..])
    ensures EvictLines(s, trace) == One(Evicts(s, trace[0].op, trace[0].coins)) + EvictLines(s1, trace[1..])
  {
  }

  lemma {:induction false} RunStats(s: Vm, m: Flat, trace: seq<Line>)
    requires Inv(s) && Agrees(s, m) && WellFormedRun(s, trace)
    ensures var r := Run(s, trace);
      r.end.Ok? ==> (r.end.value.stats ==
        Adding(s.stats, Reads(trace), Writes(trace), FaultLines(s, trace), EvictLines(s, trace)))
    decreases |trace|
  {
    if trace != [] {
      var op, coins := trace[0].op, trace[0].coins;
      StepRefines(s, m, op, coins);
      StepStats(s, op, coins);
      if Step(s, op, coins).Ok? {
        var s1 := Step(s, op, coins).value.0;
        RunStats(s1, FlatStep(m, op).0, trace[1..]);
        RunOn(s, trace, s1);
      }
    }
  }

  /** From a fresh system, every well-formed trace, any coins: each statistic is the number of
      lines it counts, and accesses are reads plus writes. */
  lemma StatsExact(g: Geometry, maxPid: nat, trace: seq<Line>)
    requires g.frames >= 1 && g.pages >= 1 && g.pageSize >= 1
    requires WellFormedRun(SystemInit(g, maxPid), trace)
    ensures var s := SystemInit(g, maxPid);
      var r := Run(s, trace);
      r.end.Ok? ==>
        var n := r.end.value.stats;
        && n.readCount == Reads(trace) && n.writeCount == Writes(trace) && n.accesses == Reads(trace) + Writes(trace)
        && n.pageFaults == FaultLines(s, trace) && n.writebacks == EvictLines(s, trace)
  {
    InitInv(g, maxPid);
    RunStats(SystemInit(g, maxPid), Flat({}, map[]), trace);
  }

  // ---- Swap tokens ------------------------------------------------------------------

  /** The line evicts a dirty page that is not in swap yet. */
  ghost predicate DrawsToken(s: Vm, op: Op, coins: Coins) {
    Evicts(s, op, coins) && Unsaved(s, SelectVictim(s.ft, coins).value)
  }

  ghost predicate Unsaved(s: Vm, f: nat) {
    f < |s.ft| && EntryOf(s, s.ft[f].process, s.ft[f].vpn).swap == 0
  }

  lemma FreeFrameTokens(s: Vm, coins: Coins)
    requires Inv(s) && FreeFrame(s, coins).Ok?
    ensures SelectVictim(s.ft, coins).Ok?
    ensures var f := SelectVictim(s.ft, coins).value;
      FreeFrame(s, coins).value.0.nextToken == s.nextToken + One(HoldsDirty(s, f) && Unsaved(s, f))
  {
    VictimMeaning(s.ft, coins);
    var f := SelectVictim(s.ft, coins).value;
    if s.ft[f].mapped {
      EvictEffect(s, f);
      assert FrameOk(s, f) && PageOk(s, s.ft[f].process, s.ft[f].vpn);
      assert 0 in s.swap ==> TokenOk(s, 0);
    }
  }

  lemma FaultTokens(s: Vm, p: nat, address: nat, coins: Coins)
    requires Inv(s) && Running(s, p) && s.current == Some(p) && address < s.geo.pages * s.geo.pageSize
    requires FreeFrame(s, coins).Ok? && Vpn(s.geo, address) < s.geo.pages
    ensures var r := PageFault(s, address, coins);
      r.Ok? ==> r.value.nextToken == FreeFrame(s, coins).value.0.nextToken
  {
  }

  lemma AccessTokens(s: Vm, p: nat, rw: ReadWrite, address: nat, coins: Coins)
    requires Inv(s) && Running(s, p) && s.current == Some(p) && s.ptbr == s.procs[p].ptbr
    requires address < s.geo.pages * s.geo.pageSize
    ensures var r, op := MemAccess(s, address, rw, coins), Access(p, rw, address);
      r.Ok? ==> r.value.0.nextToken == s.nextToken + One(DrawsToken(s, op, coins))
  {
    AddressInside(s.geo, address);
    assert TableOf(s, p);
    if Faults(s, Access(p, rw, address)) && FreeFrame(s, coins).Ok? {
      FreeFrameTokens(s, coins);
      FreeFrameKeeps(s, coins);
      FaultTokens(s, p, address, coins);
    }
  }

  lemma AccessLineTokens(s: Vm, p: nat, rw: ReadWrite, address: nat, coins: Coins)
    requires Inv(s) && WellFormed(s, Access(p, rw, address))
    ensures var r, op := Step(s, Access(p, rw, address), coins), Access(p, rw, address);
      r.Ok? ==> r.value.0.nextToken == s.nextToken + One(DrawsToken(s, op, coins))
  {
    var s0 := if s.current != Some(p) then ContextSwitch(s, p) else s;
    SwitchKeeps(s, p, rw, address, coins, s0);
    AccessTokens(s0, p, rw, address, coins);
  }

  /** A token is drawn by exactly the lines that evict a dirty page not in swap yet. */
  lemma StepTokens(s: Vm, op: Op, coins: Coins)
    requires Inv(s) && WellFormed(s, op)
    ensures var r := Step(s, op, coins);
      r.Ok? ==> r.value.0.nextToken == s.nextToken + One(DrawsToken(s, op, coins))
  {
    match op {
      case Start(p) =>
        if FreeFrame(s, coins).Ok? { FreeFrameTokens(s, coins); }
      case Stop(p) =>
        CleanupEffect(s, p);
      case Access(p, rw, address) =>
        AccessLineTokens(s, p, rw, address, coins);
    }
  }

  /** Lines that draw a token along the run. */
  ghost function TokenLines(s: Vm, trace: seq<Line>): nat
    decreases |trace|
  {
    if trace == [] || s.geo.pageSize < 1 then 0
    else
      var r := Step(s, trace[0].op, trace[0].coins);
      One(DrawsToken(s, trace[0].op, trace[0].coins)) + (if r.Ok? then TokenLines(r.value.0, trace[1..]) else 0)
  }

  lemma {:induction false} RunTokens(s: Vm, m: Flat, trace: seq<Line>)
    requires Inv(s) && Agrees(s, m) && WellFormedRun(s, trace)
    ensures Run(s, trace).end.Ok? ==> Run(s, trace).end.value.nextToken == s.nextToken + TokenLines(s, trace)
    decreases |trace|
  {
    if trace != [] {
      var op, coins := trace[0].op, trace[0].coins;
      StepRefines(s, m, op, coins);
      StepTokens(s, op, coins);
      if Step(s, op, coins).Ok? {
        RunTokens(Step(s, op, coins).value.0, FlatStep(m, op).0, trace[1..]);
      }
    }
  }

  /** From a fresh system the tokens drawn are 1, 2, 3 and so on, one for each first write-back of a page. */
  lemma TokensExact(g: Geometry, maxPid: nat, trace: seq<Line>)
    requires g.frames >= 1 && g.pages >= 1 && g.pageSize >= 1
    requires WellFormedRun(SystemInit(g, maxPid), trace)
    ensures var s := SystemInit(g, maxPid);
      Run(s, trace).end.Ok? ==> Run(s, trace).end.value.nextToken == 1 + TokenLines(s, trace)
  {
    InitInv(g, maxPid);
    RunTokens(SystemInit(g, maxPid), Flat({}, map[]), trace);
  }

  // ---- Referenced bits -------------------------------------------------------------

  /** A mapped frame is marked referenced, a protected one never is. */
  ghost predicate Marked(s: Vm) {
    forall f: nat :: f < |s.ft| ==> MarkedAt(s.ft[f])
  }

  predicate MarkedAt(e: Fte) { (e.mapped ==> e.referenced) && (e.protected_ ==> !e.referenced) }

  /** Taking a frame clears its mark and touches no other. */
  lemma FreeFrameMarks(s: Vm, coins: Coins)
    requires Inv(s) && Marked(s) && FreeFrame(s, coins).Ok?
    ensures var (s', f) := FreeFrame(s, coins).value;
      && f < |s.ft| == |s'.ft| && !s'.ft[f].mapped && !s'.ft[f].protected_ && !s'.ft[f].referenced
      && s'.ft[..f] == s.ft[..f] && s'.ft[f + 1..] == s.ft[f + 1..] && Marked(s')
  {
    FreeFrameKeeps(s, coins);
    var f := FreeFrame(s, coins).value.1;
    if s.ft[f].mapped {
      EvictEffect(s, f);
    }
  }

  lemma AccessMarks(s: Vm, p: nat, rw: ReadWrite, address: nat, coins: Coins)
    requires Inv(s) && Running(s, p) && s.current == Some(p) && s.ptbr == s.procs[p].ptbr && Marked(s)
    requires address < s.geo.pages * s.geo.pageSize
    ensures var r := MemAccess(s, address, rw, coins); r.Ok? ==> Marked(r.value.0)
  {
    AddressInside(s.geo, address);
    var v, o := Vpn(s.geo, address), Offset(s.geo, address);
    assert TableOf(s, p) && PageOk(s, p, v);
    if EntryOf(s, p, v).valid {
      TouchMarks(s, p, v, o, rw);
    } else if FreeFrame(s, coins).Ok? {
      var s2 := FaultMarks(s, p, address, coins);
      TouchMarks(s2, p, v, o, rw);
    }
  }

  /** After a fault every frame but that of the page is marked as it should be. */
  lemma FaultMarks(s: Vm, p: nat, address: nat, coins: Coins) returns (s2: Vm)
    requires Inv(s) && Running(s, p) && s.current == Some(p) && Marked(s)
    requires address < s.geo.pages * s.geo.pageSize
    requires FreeFrame(s, coins).Ok? && !EntryOf(s, p, Vpn(s.geo, address)).valid
    ensures PageFault(s, address, coins) == Ok(s2)
    ensures Inv(s2) && s2.geo == s.geo && s2.procs == s.procs && EntryOf(s2, p, Vpn(s.geo, address)).valid
    ensures var f := EntryOf(s2, p, Vpn(s.geo, address)).pfn;
      forall g: nat :: g < |s2.ft| && g != f ==> MarkedAt(s2.ft[g])
  {
    AddressInside(s.geo, address);
    var v := Vpn(s.geo, address);
    FreeFrameMarks(s, coins);
    FreeFrameKeeps(s, coins);
    var (s1, f) := FreeFrame(s, coins).value;
    PageInKeeps(s1, p, v, f);
    PageInEffect(s1, p, v, f);
    s2 := PageIn(s1, s1.procs[p].ptbr, p, v, f).value;
    assert EntryOf(s2, p, v).pfn == f;
  }

  /** An access marks the frame of its page and no other. */
  lemma TouchMarks(s: Vm, p: nat, v: nat, o: nat, rw: ReadWrite)
    requires Inv(s) && Running(s, p) && v < s.geo.pages && EntryOf(s, p, v).valid && o < s.geo.pageSize
    ensures var r, f := Touch(s, s.procs[p].ptbr, v, o, rw), EntryOf(s, p, v).pfn;
      && r.Ok? && f < |s.ft| && !s.ft[f].protected_
      && r.value.0.ft == s.ft[f := s.ft[f].(referenced := true)]
  {
    assert TableOf(s, p) && PageOk(s, p, v);
  }

  /** On every run the referenced bit of a mapped frame is set, that of a page table is not. */
  lemma StepMarks(s: Vm, op: Op, coins: Coins)
    requires Inv(s) && WellFormed(s, op) && Marked(s)
    ensures var r := Step(s, op, coins); r.Ok? ==> Marked(r.value.0)
  {
    match op {
      case Start(p) =>
        if FreeFrame(s, coins).Ok? {
          FreeFrameMarks(s, coins);
        }
      case Stop(p) =>
        StopMarks(s, p);
      case Access(p, rw, address) =>
        var s0 := if s.current != Some(p) then ContextSwitch(s, p) else s;
        AgreeInv(s, s0);
        AccessMarks(s0, p, rw, address, coins);
    }
  }

  lemma StopMarks(s: Vm, p: nat)
    requires Inv(s) && Running(s, p) && Marked(s)
    ensures ProcCleanup(s, p).Ok? && Marked(ProcCleanup(s, p).value)
  {
    ReleasePagesEffect(s, p, s.geo.pages);
    CleanupEffect(s, p);
    var s' := ProcCleanup(s, p).value;
    forall f: nat | f < |s'.ft|
      ensures MarkedAt(s'.ft[f])
    {
      assert MarkedAt(s.ft[f]);
    }
  }

  lemma {:induction false} RunMarks(s: Vm, m: Flat, trace: seq<Line>)
    requires Inv(s) && Agrees(s, m) && WellFormedRun(s, trace) && Marked(s)
    ensures Run(s, trace).end.Ok? ==> Marked(Run(s, trace).end.value)
    decreases |trace|
  {
    if trace != [] {
      var op, coins := trace[0].op, trace[0].coins;
      StepRefines(s, m, op, coins);
      StepMarks(s, op, coins);
      if Step(s, op, coins).Ok? {
        RunMarks(Step(s, op, coins).value.0, FlatStep(m, op).0, trace[1..]);
      }
    }
  }

  /** From a fresh system, on every run. */
  lemma MarksOnRuns(g: Geometry, maxPid: nat, trace: seq<Line>)
    requires g.frames >= 1 && g.pages >= 1 && g.pageSize >= 1
    requires WellFormedRun(SystemInit(g, maxPid), trace)
    ensures var r := Run(SystemInit(g, maxPid), trace); r.end.Ok? ==> Marked(r.end.value)
  {
    InitInv(g, maxPid);
    RunMarks(SystemInit(g, maxPid), Flat({}, map[]), trace);
  }
}
