// Counting over whole runs: write-backs against writes, memory that is full, swap
// that is empty.
module VmCounts {
  import opened Basics
  import opened VmState
  import opened VmOps
  import opened VmInv
  import opened VmSteps
  import opened VmRefine

  // ---- Sets ------------------------------------------------------------------

  lemma {:induction false} SubsetSize<T>(a: set<T>, b: set<T>)
    requires a <= b
    ensures |a| <= |b|
  {
    if a != {} {
      var x :| x in a;
      SubsetSize(a - {x}, b - {x});
    }
  }

  lemma SubsetSameSize<T>(a: set<T>, b: set<T>)
    requires a <= b && |a| == |b|
    ensures a == b
  {
    if x :| x in b && x !in a {
      SubsetSize(a, b - {x});
    }
  }

  // ---- Dirty resident pages ----------------------------------------------------

  ghost predicate IsDirty(s: Vm, f: nat) {
    f < |s.ft| && s.ft[f].mapped && EntryOf(s, s.ft[f].process, s.ft[f].vpn).dirty
  }

  ghost function DirtyFrames(s: Vm): set<nat> {
    set f: nat | f < |s.ft| && IsDirty(s, f)
  }

  /** An eviction pays for its write-back with a page that is dirty no longer. */
  lemma EvictDirty(s: Vm, f: nat)
    requires Inv(s) && f < |s.ft| && s.ft[f].mapped
    ensures Evict(s, f).Ok?
    ensures var s' := Evict(s, f).value;
      && s'.stats.writebacks + |DirtyFrames(s')| <= s.stats.writebacks + |DirtyFrames(s)|
      && s.stats.writebacks <= s'.stats.writebacks <= s.stats.writebacks + 1
      && s'.stats == s.stats.(writebacks := s'.stats.writebacks)
  {
    EvictEffect(s, f);
    var s' := Evict(s, f).value;
    var p, v := s.ft[f].process, s.ft[f].vpn;
    forall g: nat | IsDirty(s', g)
      ensures IsDirty(s, g) && g != f
    {
      assert FrameOk(s, g);
    }
    if EntryOf(s, p, v).dirty {
      assert IsDirty(s, f);
      SubsetSize(DirtyFrames(s'), DirtyFrames(s) - {f});
    } else {
      SubsetSize(DirtyFrames(s'), DirtyFrames(s));
    }
  }

  lemma SameDirty(s: Vm, s': Vm)
    requires Agree(s, s')
    ensures DirtyFrames(s') == DirtyFrames(s)
  {
    forall f: nat | f < |s.ft|
      ensures IsDirty(s', f) <==> IsDirty(s, f)
    {
    }
  }

  lemma FreeFrameDirty(s: Vm, coins: Coins)
    requires Inv(s) && FreeFrame(s, coins).Ok?
    ensures var s' := FreeFrame(s, coins).value.0;
      && s'.stats.writebacks + |DirtyFrames(s')| <= s.stats.writebacks + |DirtyFrames(s)|
      && s'.stats.writebacks <= s.stats.writebacks + 1
      && s'.stats == s.stats.(writebacks := s'.stats.writebacks)
  {
    FreeFrameKeeps(s, coins);
    VictimMeaning(s.ft, coins);
    var f := SelectVictim(s.ft, coins).value;
    var s1 := s;
    if s.ft[f].mapped {
      EvictDirty(s, f);
      s1 := Evict(s, f).value;
    }
    SameDirty(s1, SetFte(s1, f, s1.ft[f].(referenced := false)));
  }

  lemma PageInDirty(s: Vm, p: nat, v: nat, f: nat)
    requires Inv(s) && Running(s, p) && v < s.geo.pages && FreeAt(s, f) && !EntryOf(s, p, v).valid
    ensures var r := PageIn(s, s.procs[p].ptbr, p, v, f);
      && r.Ok? && |DirtyFrames(r.value)| <= |DirtyFrames(s)|
      && r.value.stats == s.stats.(pageFaults := s.stats.pageFaults + 1)
  {
    PageInEffect(s, p, v, f);
    var s' := PageIn(s, s.procs[p].ptbr, p, v, f).value;
    forall g: nat | IsDirty(s', g)
      ensures IsDirty(s, g)
    {
      assert FrameOk(s, g);
    }
    SubsetSize(DirtyFrames(s'), DirtyFrames(s));
  }

  lemma TouchDirty(s: Vm, p: nat, v: nat, offset: nat, rw: ReadWrite)
    requires Inv(s) && Running(s, p) && v < s.geo.pages && EntryOf(s, p, v).valid && offset < s.geo.pageSize
    ensures var r := Touch(s, s.procs[p].ptbr, v, offset, rw);
      && r.Ok? && |DirtyFrames(r.value.0)| <= |DirtyFrames(s)| + (if rw.Write? then 1 else 0)
      && r.value.0.stats.writeCount == s.stats.writeCount + (if rw.Write? then 1 else 0)
      && r.value.0.stats.writebacks == s.stats.writebacks && r.value.0.stats.pageFaults == s.stats.pageFaults
  {
    TouchKeeps(s, p, v, offset, rw);
    var s' := Touch(s, s.procs[p].ptbr, v, offset, rw).value.0;
    if rw.Read? {
      SameDirty(s, s');
    } else {
      StoreEffect(s, p, v, offset, rw.data);
      var pfn := EntryOf(s, p, v).pfn;
      forall g: nat | IsDirty(s', g)
        ensures IsDirty(s, g) || g == pfn
      {
        assert FrameOk(s, g);
      }
      SubsetSize(DirtyFrames(s'), DirtyFrames(s) + {pfn});
    }
  }

  lemma InstallDirty(s: Vm, p: nat, f: nat)
    requires Inv(s) && p < |s.procs| && !Running(s, p) && FreeAt(s, f)
    ensures |DirtyFrames(InstallTable(s, p, f))| <= |DirtyFrames(s)|
  {
    var s' := InstallTable(s, p, f);
    InstallEntries(s, p, f);
    forall g: nat | IsDirty(s', g)
      ensures IsDirty(s, g)
    {
      assert FrameOk(s, g);
    }
    SubsetSize(DirtyFrames(s'), DirtyFrames(s));
  }

  lemma CleanupDirty(s: Vm, p: nat)
    requires Inv(s) && Running(s, p)
    ensures ProcCleanup(s, p).Ok? && |DirtyFrames(ProcCleanup(s, p).value)| <= |DirtyFrames(s)|
    ensures ProcCleanup(s, p).value.stats == s.stats
  {
    CleanupEffect(s, p);
    var s' := ProcCleanup(s, p).value;
    CleanedEntries(s, s', p);
    forall g: nat | IsDirty(s', g)
      ensures IsDirty(s, g)
    {
      assert FrameOk(s, g);
    }
    SubsetSize(DirtyFrames(s'), DirtyFrames(s));
  }

  // ---- The counters of a run ---------------------------------------------------

  ghost predicate Counted(s: Vm, starts: nat) {
    && s.stats.writebacks + |DirtyFrames(s)| <= s.stats.writeCount
    && s.stats.writebacks <= s.stats.pageFaults + starts
  }

  lemma AccessCounts(s: Vm, p: nat, rw: ReadWrite, address: nat, coins: Coins, starts: nat)
    requires Inv(s) && Running(s, p) && s.current == Some(p) && s.ptbr == s.procs[p].ptbr
    requires address < s.geo.pages * s.geo.pageSize && Counted(s, starts)
    ensures var r := MemAccess(s, address, rw, coins);
      r.Ok? ==> Counted(r.value.0, starts)
  {
    MemAccessKeeps(s, p, rw, address, coins);
    var v, o := Vpn(s.geo, address), Offset(s.geo, address);
    assert TableOf(s, p);
    if EntryOf(s, p, v).valid {
      TouchDirty(s, p, v, o, rw);
    } else if FreeFrame(s, coins).Ok? {
      FreeFrameKeeps(s, coins);
      FreeFrameDirty(s, coins);
      var (s1, f) := FreeFrame(s, coins).value;
      PageInKeeps(s1, p, v, f);
      PageInDirty(s1, p, v, f);
      var s2 := PageIn(s1, s1.procs[p].ptbr, p, v, f).value;
      TouchDirty(s2, p, v, o, rw);
      assert PageFault(s, address, coins) == Ok(s2);
    }
  }

  lemma StepCounts(s: Vm, op: Op, coins: Coins, starts: nat)
    requires Inv(s) && WellFormed(s, op) && Counted(s, starts)
    ensures var r := Step(s, op, coins);
      r.Ok? ==> Counted(r.value.0, starts + (if op.Start? then 1 else 0))
  {
    match op {
      case Start(p) =>
        if FreeFrame(s, coins).Ok? {
          FreeFrameKeeps(s, coins);
          FreeFrameDirty(s, coins);
          InstallDirty(FreeFrame(s, coins).value.0, p, FreeFrame(s, coins).value.1);
        }
      case Stop(p) =>
        CleanupDirty(s, p);
      case Access(p, rw, address) =>
        var s0 := if s.current != Some(p) then ContextSwitch(s, p) else s;
        AgreeInv(s, s0);
        SameDirty(s, s0);
        AccessCounts(s0, p, rw, address, coins, starts);
    }
  }

  function Starts(trace: seq<Line>): nat {
    if trace == [] then 0 else (if trace[0].op.Start? then 1 else 0) + Starts(trace[1..])
  }

  /** On every run write-backs plus dirty resident pages stay within the writes, and
      write-backs within the page faults plus the process starts. */
  lemma {:induction false} RunCounts(s: Vm, m: Flat, trace: seq<Line>, starts: nat)
    requires Inv(s) && Agrees(s, m) && WellFormedRun(s, trace) && Counted(s, starts)
    ensures var r := Run(s, trace);
      r.end.Ok? ==> Counted(r.end.value, starts + Starts(trace))
    decreases |trace|
  {
    if trace != [] {
      var op, coins := trace[0].op, trace[0].coins;
      StepRefines(s, m, op, coins);
      StepCounts(s, op, coins, starts);
      var r := Step(s, op, coins);
      if r.Ok? {
        RunCounts(r.value.0, FlatStep(m, op).0, trace[1..], starts + (if op.Start? then 1 else 0));
      }
    }
  }

  lemma WritebacksBounded(g: Geometry, maxPid: nat, trace: seq<Line>)
    requires g.frames >= 1 && g.pages >= 1 && g.pageSize >= 1
    requires WellFormedRun(SystemInit(g, maxPid), trace)
    ensures var r := Run(SystemInit(g, maxPid), trace);
      r.end.Ok? ==>
        && r.end.value.stats.writebacks + |DirtyFrames(r.end.value)| <= r.end.value.stats.writeCount
        && r.end.value.stats.writebacks <= r.end.value.stats.pageFaults + Starts(trace)
  {
    InitInv(g, maxPid);
    var s := SystemInit(g, maxPid);
    assert DirtyFrames(s) == {};
    RunCounts(s, Flat({}, map[]), trace, 0);
  }

  // ---- Full memory, empty swap -------------------------------------------------

  ghost function RunningSet(s: Vm): set<nat> {
    set p: nat | p < |s.procs| && Running(s, p)
  }

  ghost function TableFrames(s: Vm): set<nat> {
    set f: nat | f < |s.ft| && IsTable(s, f)
  }

  ghost function Below(n: nat): (r: set<nat>)
    ensures |r| == n
    ensures forall f: nat :: f in r <==> f < n
  {
    if n == 0 then {} else Below(n - 1) + {n - 1}
  }

  /** Page-table frames of a set of running processes: one each. */
  lemma {:induction false} TablesCount(s: Vm, ps: set<nat>, fs: set<nat>)
    requires Shape(s) && Apart(s) && forall p :: p in ps ==> Running(s, p)
    requires forall f :: f in fs <==> exists p :: p in ps && s.procs[p].ptbr == f
    ensures |fs| == |ps|
  {
    if ps == {} {
      assert fs == {};
    } else {
      var p :| p in ps;
      var f := s.procs[p].ptbr;
      assert f in fs;
      forall g
        ensures g in fs - {f} <==> exists q :: q in ps - {p} && s.procs[q].ptbr == g
      {
        if g in fs - {f} {
          var q :| q in ps && s.procs[q].ptbr == g;
          assert q in ps - {p};
        }
      }
      TablesCount(s, ps - {p}, fs - {f});
    }
  }

  /** Memory has run out exactly when every frame but frame 0 is a running process's page table. */
  lemma FullIffTablesFill(s: Vm)
    requires Inv(s)
    ensures AllProtected(s) <==> |RunningSet(s)| + 1 == s.geo.frames
  {
    var ts, ps := TableFrames(s), RunningSet(s);
    forall f
      ensures f in ts <==> exists p :: p in ps && s.procs[p].ptbr == f
    {
      if f in ts {
        var p: nat :| Running(s, p) && s.procs[p].ptbr == f;
        assert p in ps;
      }
      if exists p :: p in ps && s.procs[p].ptbr == f {
        var p :| p in ps && s.procs[p].ptbr == f;
        assert TableOf(s, p);
        assert Running(s, p);
      }
    }
    TablesCount(s, ps, ts);
    var others := Below(s.geo.frames) - {0};
    assert 0 in Below(s.geo.frames);
    assert ts <= others by {
      forall f | f in ts
        ensures f in others
      {
        var p: nat :| Running(s, p) && s.procs[p].ptbr == f;
        assert TableOf(s, p);
      }
    }
    if |ps| + 1 == s.geo.frames {
      SubsetSameSize(ts, others);
      forall f: nat | f < |s.ft|
        ensures s.ft[f].protected_
      {
        assert f == 0 || f in others;
      }
    }
    if AllProtected(s) {
      assert ts == others;
    }
  }

  /** The tokens in the swap store are exactly the non-zero swap fields of running processes' pages, each held once. */
  lemma SwapTokensExact(s: Vm, t: nat)
    requires Inv(s)
    ensures t in s.swap <==> t != 0 && exists p: nat, v: nat :: Owns(s, p, v, t)
    ensures forall p: nat, v: nat, q: nat, w: nat :: t in s.swap && Owns(s, p, v, t) && Owns(s, q, w, t) ==> p == q && v == w
  {
    if t in s.swap {
      assert TokenOk(s, t);
    }
    if t != 0 && exists p: nat, v: nat :: Owns(s, p, v, t) {
      var p: nat, v: nat :| Owns(s, p, v, t);
      assert PageOk(s, p, v);
    }
  }

  /** While anything is swapped out some process runs: swap is empty once every process has stopped. */
  lemma SwapHeldByRunning(s: Vm)
    requires Inv(s)
    ensures s.swap == map[] || exists p: nat :: Running(s, p)
  {
    if s.swap != map[] {
      var t :| t in s.swap;
      assert TokenOk(s, t);
      var p: nat, v: nat :| Owns(s, p, v, t);
      assert Running(s, p);
    }
  }
}
