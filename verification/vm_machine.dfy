// The simulator with its global tables updated in place, proved against the
// operations on values.
module VmMachine {
  import opened Basics
  import opened VmState
  import opened VmOps
  import opened VmInv
  import opened VmSteps
  import opened VmRefine
  import opened VmSwap

  class PageSim {
    const geo: VmState.Geometry
    const frameTable: array<Fte>
    const mem: array<Frame>
    const procs: array<Pcb>
    const swapQueue: SwapQueue
    var current: Option<nat>
    var ptbr: nat
    var stats: Stats

    ghost predicate Valid()
      reads this, swapQueue, swapQueue.nodes
    {
      swapQueue.Valid()
    }

    ghost function State(): Vm
      reads this, frameTable, mem, procs, swapQueue
    {
      Vm(geo, frameTable[..], mem[..], procs[..], current, ptbr, swapQueue.pages, swapQueue.nextToken, stats)
    }

    /** system_init, on zeroed memory. */
    constructor (g: VmState.Geometry, maxPid: nat)
      requires g.frames >= 1 && g.pages >= 1 && g.pageSize >= 1
      ensures Valid() && State() == SystemInit(g, maxPid)
      ensures fresh(frameTable) && fresh(mem) && fresh(procs) && fresh(swapQueue) && fresh(swapQueue.nodes)
    {
      geo := g;
      frameTable := new Fte[g.frames](_ => FREE_FTE);
      mem := new Frame[g.frames](_ => Raw);
      procs := new Pcb[maxPid](_ => Pcb(false, 0));
      swapQueue := new SwapQueue(g.pageSize);
      current, ptbr := None, 0;
      stats := Stats(0, 0, 0, 0, 0);
      new;
      frameTable[0] := frameTable[0].(protected_ := true);
      assert frameTable[..] == SystemInit(g, maxPid).ft;
    }

    /** Scan for a free frame, then for an unprotected one whose coin comes up. */
    method SelectVictimFrame(coins: Coins) returns (r: Result<nat>)
      ensures r == SelectVictim(frameTable[..], coins)
    {
      for i := 0 to frameTable.Length
        invariant FindFree(frameTable[..], i) == FindFree(frameTable[..], 0)
      {
        if !frameTable[i].protected_ && !frameTable[i].mapped { return Ok(i); }
      }
      var lastUnprotected: nat := frameTable.Length;
      for i: nat := 0 to frameTable.Length
        invariant FindByCoin(frameTable[..], coins, i, lastUnprotected)
               == FindByCoin(frameTable[..], coins, 0, frameTable.Length)
      {
        if !frameTable[i].protected_ {
          lastUnprotected := i;
          if coins(i) { return Ok(i); }
        }
      }
      if lastUnprotected < frameTable.Length { return Ok(lastUnprotected); }
      return OutOfMemory;
    }

    /** A page-table entry written in place. */
    method SetEntry(t: nat, v: nat, e: Pte)
      requires HasEntry(State(), t, v)
      modifies mem
      ensures State() == SetPte(old(State()), t, v, e)
    {
      mem[t] := Table(mem[t].entries[v := e]);
    }

    /** A frame-table entry written in place. */
    method SetFrame(f: nat, e: Fte)
      requires f < frameTable.Length
      modifies frameTable
      ensures State() == SetFte(old(State()), f, e)
    {
      frameTable[f] := e;
    }

    /** Evict the page in a mapped frame: write it back if dirty, then invalidate its entry. */
    method EvictFrame(f: nat)
      requires Valid() && f < frameTable.Length && Evict(State(), f).Ok?
      modifies this, frameTable, mem, swapQueue, swapQueue.nodes
      ensures Valid() && SwapFrame(old(swapQueue.nodes))
      ensures Ok(State()) == Evict(old(State()), f)
    {
      var vpn := frameTable[f].vpn;
      var t := procs[frameTable[f].process].ptbr;
      var entry := mem[t].entries[vpn];
      if entry.dirty {
        entry := WriteBack(entry, f);
      }
      entry := entry.(valid := false);
      SetEntry(t, vpn, entry);
      SetFrame(f, frameTable[f].(mapped := false));
    }

    /** The page of frame f goes to swap; the entry comes back clean, with its token. */
    method WriteBack(entry: Pte, f: nat) returns (clean: Pte)
      requires Valid() && f < mem.Length && mem[f].Data?
      modifies `stats, swapQueue, swapQueue.nodes
      ensures Valid() && SwapFrame(old(swapQueue.nodes))
      ensures var s := old(State());
        && clean == entry.(swap := SwapToken(s, entry), dirty := false)
        && State() == SwapWrite(s, entry, s.mem[f].bytes).(stats := s.stats.(writebacks := s.stats.writebacks + 1))
    {
      var token := swapQueue.Write(entry.swap, mem[f].bytes);
      clean := entry.(swap := token, dirty := false);
      stats := stats.(writebacks := stats.writebacks + 1);
    }

    /** New nodes of the swap list are fresh objects. */
    twostate predicate SwapFrame(nodes0: seq<SwapInfo>)
      reads swapQueue
    {
      forall n :: n in swapQueue.nodes && n !in nodes0 ==> fresh(n)
    }

    method FreeFrame(coins: Coins) returns (r: Result<nat>)
      requires Valid() && Inv(State())
      modifies this, frameTable, mem, swapQueue, swapQueue.nodes
      ensures Valid() && SwapFrame(old(swapQueue.nodes))
      ensures var spec := VmOps.FreeFrame(old(State()), coins);
        if spec.Ok? then r == Ok(spec.value.1) && State() == spec.value.0
        else r.OutOfMemory? && spec.OutOfMemory? && State() == old(State())
    {
      r := SelectVictimFrame(coins);
      VictimMeaning(frameTable[..], coins);
      if r.OutOfMemory? { return; }
      var victim := r.value;
      if frameTable[victim].mapped {
        EvictDefined(State(), victim);
        EvictFrame(victim);
      }
      frameTable[victim] := frameTable[victim].(referenced := false);
    }

    /** The page fault handler: make a frame free, map it, fill it from swap or with zeros. */
    method PageFault(address: nat, coins: Coins) returns (r: Result<()>)
      requires Valid() && Inv(State()) && address < geo.pages * geo.pageSize
      requires current.Some? && Running(State(), current.value)
      requires !EntryOf(State(), current.value, Vpn(geo, address)).valid
      modifies this, frameTable, mem, swapQueue, swapQueue.nodes
      ensures Valid() && SwapFrame(old(swapQueue.nodes))
      ensures var spec := VmOps.PageFault(old(State()), address, coins);
        if spec.Ok? then r == Ok(()) && State() == spec.value
        else r.OutOfMemory? && spec.OutOfMemory? && State() == old(State())
    {
      ghost var s0 := State();
      AddressInside(geo, address);
      FreeFrameKeeps(s0, coins);
      var vpn, p := Vpn(geo, address), current.value;
      var free := FreeFrame(coins);
      if free.OutOfMemory? { return OutOfMemory; }
      PageInDefined(State(), p, vpn, free.value);
      Install(p, vpn, free.value);
      r := Ok(());
    }

    /** Map a page to a free frame: entry, frame table, then the bytes. */
    method Install(p: nat, vpn: nat, frame: nat)
      requires Valid() && p < procs.Length && PageIn(State(), procs[p].ptbr, p, vpn, frame).Ok?
      modifies `stats, frameTable, mem
      ensures Valid()
      ensures Ok(State()) == PageIn(old(State()), old(State()).procs[p].ptbr, p, vpn, frame)
    {
      var t := procs[p].ptbr;
      var entry := mem[t].entries[vpn];
      entry := entry.(pfn := frame);
      entry := entry.(valid := true);
      entry := entry.(dirty := false);
      SetEntry(t, vpn, entry);
      SetFrame(frame, frameTable[frame].(mapped := true, protected_ := false, vpn := vpn, process := p));
      Fill(entry.swap, frame);
    }

    /** The page of a token, or zeros, read into a frame. */
    method Fill(token: nat, frame: nat)
      requires Valid() && frame < mem.Length && (token != 0 ==> token in swapQueue.pages)
      modifies `stats, mem
      ensures Valid()
      ensures var s := old(State());
        var page := if token != 0 then s.swap[token] else Zeros(s.geo.pageSize);
        State() == s.(mem := s.mem[frame := Data(page)], stats := s.stats.(pageFaults := s.stats.pageFaults + 1))
    {
      if token != 0 {
        var info := swapQueue.Find(token);
        ghost var i: nat :| i < |swapQueue.nodes| && swapQueue.nodes[i] == info;
        assert SwapQueue.KeyedAt(swapQueue.nodes, swapQueue.pages, i);
        mem[frame] := Data(info.page);
      } else {
        mem[frame] := Data(Zeros(geo.pageSize));
      }
      stats := stats.(pageFaults := stats.pageFaults + 1);
    }

    method MemAccess(address: nat, rw: ReadWrite, coins: Coins) returns (r: Result<Byte>)
      requires Valid() && Inv(State()) && address < geo.pages * geo.pageSize
      requires current.Some? && Running(State(), current.value) && ptbr == procs[current.value].ptbr
      modifies this, frameTable, mem, swapQueue, swapQueue.nodes
      ensures Valid() && SwapFrame(old(swapQueue.nodes))
      ensures var spec := VmOps.MemAccess(old(State()), address, rw, coins);
        if spec.Ok? then r == Ok(spec.value.1) && State() == spec.value.0
        else r.OutOfMemory? && spec.OutOfMemory?
    {
      MemAccessKeeps(State(), current.value, rw, address, coins);
      AddressInside(geo, address);
      assert TableOf(State(), current.value);
      var vpn, offset := Vpn(geo, address), Offset(geo, address);
      if !mem[ptbr].entries[vpn].valid {
        var fault := PageFault(address, coins);
        if fault.OutOfMemory? { return OutOfMemory; }
      }
      var b := TouchByte(vpn, offset, rw);
      r := Ok(b);
    }

    /** The access itself, behind a valid entry. */
    method TouchByte(vpn: nat, offset: nat, rw: ReadWrite) returns (b: Byte)
      requires Valid() && Touch(State(), ptbr, vpn, offset, rw).Ok?
      modifies `stats, frameTable, mem
      ensures Valid()
      ensures Ok((State(), b)) == Touch(old(State()), ptbr, vpn, offset, rw)
    {
      var pfn := mem[ptbr].entries[vpn].pfn;
      frameTable[pfn] := frameTable[pfn].(referenced := true);
      stats := stats.(accesses := stats.accesses + 1);
      match rw
      case Read =>
        stats := stats.(readCount := stats.readCount + 1);
        b := mem[pfn].bytes[offset];
      case Write(data) =>
        var bytes := mem[pfn].bytes[offset := data];
        mem[ptbr] := Table(mem[ptbr].entries[vpn := mem[ptbr].entries[vpn].(dirty := true)]);
        mem[pfn] := Data(bytes);
        stats := stats.(writeCount := stats.writeCount + 1);
        b := data;
    }

    method ProcInit(p: nat, coins: Coins) returns (r: Result<()>)
      requires Valid() && Inv(State()) && p < procs.Length && !Running(State(), p)
      modifies this, frameTable, mem, procs, swapQueue, swapQueue.nodes
      ensures Valid() && SwapFrame(old(swapQueue.nodes))
      ensures var spec := VmOps.ProcInit(old(State()), p, coins);
        if spec.Ok? then r == Ok(()) && State() == spec.value
        else r.OutOfMemory? && spec.OutOfMemory?
    {
      var free := FreeFrame(coins);
      if free.OutOfMemory? { return OutOfMemory; }
      PutTable(p, free.value);
      r := Ok(());
    }

    /** An empty page table in a frame, protected from eviction. */
    method PutTable(p: nat, frame: nat)
      requires p < procs.Length && frame < mem.Length && frame < frameTable.Length
      modifies frameTable, mem, procs
      ensures State() == InstallTable(old(State()), p, frame)
    {
      mem[frame] := Table(EmptyTable(geo.pages));
      procs[p] := Pcb(true, frame);
      frameTable[frame] := frameTable[frame].(protected_ := true);
    }

    method ContextSwitch(p: nat)
      requires p < procs.Length
      modifies `ptbr, `current
      ensures State() == VmOps.ContextSwitch(old(State()), p)
    {
      ptbr := procs[p].ptbr;
      current := Some(p);
    }

    /** Release the pages one by one, then free the table's frame and clear the PCB. */
    method ProcCleanup(p: nat)
      requires Valid() && Inv(State()) && Running(State(), p)
      modifies this, frameTable, mem, procs, swapQueue, swapQueue.nodes
      ensures Valid() && SwapFrame(old(swapQueue.nodes))
      ensures Ok(State()) == VmOps.ProcCleanup(old(State()), p)
    {
      CleanupEffect(State(), p);
      var t := procs[p].ptbr;
      assert Releases(State(), t) by { PagesRelease(State(), p); }
      CleanupPages(t);
      frameTable[t] := frameTable[t].(protected_ := false, mapped := false, referenced := false);
      procs[p] := Pcb(false, 0);
    }

    static ghost predicate Within(ns: seq<SwapInfo>, ms: seq<SwapInfo>) {
      forall i: nat :: i < |ns| ==> ns[i] in ms
    }

    static lemma WithinTrans(ns: seq<SwapInfo>, ms: seq<SwapInfo>, ls: seq<SwapInfo>)
      requires Within(ns, ms) && Within(ms, ls)
      ensures Within(ns, ls)
    {
    }

    method CleanupPages(t: nat)
      requires Valid() && Releases(State(), t)
      modifies frameTable, mem, swapQueue, swapQueue.nodes
      ensures Valid() && Within(swapQueue.nodes, old(swapQueue.nodes))
      ensures Ok(State()) == ReleasePages(old(State()), t, geo.pages)
    {
      ghost var s0 := State();
      for i: nat := 0 to geo.pages
        invariant Valid() && Within(swapQueue.nodes, old(swapQueue.nodes))
        invariant Ok(State()) == ReleasePages(s0, t, i)
      {
        assert ReleasesAt(s0, t, i);
        ghost var nodes := swapQueue.nodes;
        CleanupPage(t, i);
        WithinTrans(swapQueue.nodes, nodes, old(swapQueue.nodes));
      }
    }

    /** One turn of the loop: unmap the frame of a valid entry, free its swap entry. */
    method CleanupPage(t: nat, i: nat)
      requires Valid() && ReleasePage(State(), t, i).Ok?
      modifies frameTable, mem, swapQueue, swapQueue.nodes
      ensures Valid() && Within(swapQueue.nodes, old(swapQueue.nodes))
      ensures Ok(State()) == ReleasePage(old(State()), t, i)
    {
      var entry := mem[t].entries[i];
      if entry.valid {
        frameTable[entry.pfn] := frameTable[entry.pfn].(mapped := false);
      }
      if entry.swap != 0 {
        SwapFree(t, i);
      }
    }

    method SwapFree(t: nat, i: nat)
      requires Valid() && HasEntry(State(), t, i) && PteAt(State(), t, i).swap in swapQueue.pages
      modifies mem, swapQueue, swapQueue.nodes
      ensures Valid() && Within(swapQueue.nodes, old(swapQueue.nodes))
      ensures var s, e := old(State()), PteAt(old(State()), t, i);
        State() == SetPte(s.(swap := s.swap - {e.swap}), t, i, e.(swap := 0))
    {
      var entry := mem[t].entries[i];
      swapQueue.Dequeue(entry.swap);
      mem[t] := Table(mem[t].entries[i := entry.(swap := 0)]);
    }

    /** One trace line. */
    method TraceStep(op: Op, coins: Coins) returns (r: Result<Option<Byte>>)
      requires Valid() && Inv(State()) && WellFormed(State(), op)
      modifies this, frameTable, mem, procs, swapQueue, swapQueue.nodes
      ensures Valid() && SwapFrame(old(swapQueue.nodes))
      ensures var spec := Step(old(State()), op, coins);
        if spec.Ok? then r == Ok(spec.value.1) && State() == spec.value.0
        else r.OutOfMemory? && spec.OutOfMemory?
    {
      match op
      case Start(p) =>
        var started := ProcInit(p, coins);
        if started.OutOfMemory? { return OutOfMemory; }
        r := Ok(None);
      case Stop(p) =>
        ProcCleanup(p);
        r := Ok(None);
      case Access(p, rw, address) =>
        var b := AccessLine(p, rw, address, coins);
        if b.OutOfMemory? { return OutOfMemory; }
        r := Ok(Some(b.value));
    }

    /** An access, behind a context switch if another process is current. */
    method AccessLine(p: nat, rw: ReadWrite, address: nat, coins: Coins) returns (b: Result<Byte>)
      requires Valid() && Inv(State()) && WellFormed(State(), Access(p, rw, address))
      modifies this, frameTable, mem, swapQueue, swapQueue.nodes
      ensures Valid() && SwapFrame(old(swapQueue.nodes))
      ensures var spec := Step(old(State()), Access(p, rw, address), coins);
        if spec.Ok? then b.Ok? && spec.value == (State(), Some(b.value))
        else b.OutOfMemory? && spec.OutOfMemory?
    {
      if current != Some(p) {
        ghost var s0 := State();
        ContextSwitch(p);
        AgreeInv(s0, State());
      }
      b := MemAccess(address, rw, coins);
    }

    /** The whole trace: prints what the flat memory prints, to the end or until memory runs out. */
    method Simulate(trace: seq<Line>) returns (printed: seq<Option<Byte>>, end: Result<()>)
      requires Valid() && geo.frames >= 1 && geo.pages >= 1 && geo.pageSize >= 1
      requires State() == SystemInit(geo, procs.Length) && WellFormedRun(State(), trace)
      modifies this, frameTable, mem, procs, swapQueue, swapQueue.nodes
      ensures Valid()
      ensures printed == Run(old(State()), trace).printed <= FlatRun(Flat({}, map[]), trace)
      ensures end.Ok? || end.OutOfMemory?
      ensures end.Ok? ==> printed == FlatRun(Flat({}, map[]), trace) && Inv(State())
    {
      InitInv(geo, procs.Length);
      PagingRefinesFlatMemory(geo, procs.Length, trace);
      ghost var m := Flat({}, map[]);
      AtFirstLine(State(), trace, m);
      printed, end := TraceLoop(State(), trace, m);
    }

    /** The loop body at line k. */
    method NextLine(ghost s0: Vm, trace: seq<Line>, k: nat, ghost printed: seq<Option<Byte>>, ghost m: Flat)
      returns (r: Result<Option<Byte>>)
      requires Valid() && k < |trace| && AtLine(s0, State(), trace, k, printed, m)
      modifies this, frameTable, mem, procs, swapQueue, swapQueue.nodes
      ensures Valid() && SwapFrame(old(swapQueue.nodes)) && (r.Ok? || r.OutOfMemory?)
      ensures if r.Ok? then AtLine(s0, State(), trace, k + 1, printed + [r.value], FlatStep(m, trace[k].op).0)
              else printed == Run(s0, trace).printed
    {
      AtLineStep(s0, State(), trace, k, printed, m);
      r := TraceStep(trace[k].op, trace[k].coins);
    }

    method TraceLoop(ghost s0: Vm, trace: seq<Line>, ghost m0: Flat)
      returns (printed: seq<Option<Byte>>, end: Result<()>)
      requires Valid() && AtLine(s0, State(), trace, 0, [], m0)
      modifies this, frameTable, mem, procs, swapQueue, swapQueue.nodes
      ensures Valid() && (end.Ok? || end.OutOfMemory?)
      ensures printed == Run(s0, trace).printed
      ensures end.Ok? ==> Run(s0, trace).end == Ok(State()) && Inv(State())
    {
      ghost var m := m0;
      printed := [];
      var k: nat := 0;
      while k < |trace|
        invariant Valid()
        invariant forall i: nat :: i < |swapQueue.nodes| ==>
          swapQueue.nodes[i] in old(swapQueue.nodes) || fresh(swapQueue.nodes[i])
        invariant AtLine(s0, State(), trace, k, printed, m)
      {
        ghost var nodes := swapQueue.nodes;
        label before:
        var r := NextLine(s0, trace, k, printed, m);
        assert forall i: nat :: i < |swapQueue.nodes| ==>
          swapQueue.nodes[i] in swapQueue.nodes && (swapQueue.nodes[i] in nodes || fresh@before(swapQueue.nodes[i]));
        if r.OutOfMemory? {
          return printed, OutOfMemory;
        }
        m := FlatStep(m, trace[k].op).0;
        printed := printed + [r.value];
        k := k + 1;
      }
      AtLastLine(s0, State(), trace, printed, m);
      end := Ok(());
    }
  }

  /** After k lines of a run from s0: the state, what was printed, and what is still to come. */
  ghost predicate AtLine(s0: Vm, s: Vm, trace: seq<Line>, k: nat, printed: seq<Option<Byte>>, m: Flat) {
    && k <= |trace| && s0.geo.pageSize >= 1
    && Inv(s) && Agrees(s, m) && WellFormedRun(s, trace[k..])
    && Run(s0, trace) == RunOutcome(printed + Run(s, trace[k..]).printed, Run(s, trace[k..]).end)
  }

  lemma AtLineStep(s0: Vm, s: Vm, trace: seq<Line>, k: nat, printed: seq<Option<Byte>>, m: Flat)
    requires k < |trace| && AtLine(s0, s, trace, k, printed, m)
    ensures WellFormed(s, trace[k].op)
    ensures var r := Step(s, trace[k].op, trace[k].coins);
      && (r.Ok? ==> AtLine(s0, r.value.0, trace, k + 1, printed + [r.value.1], FlatStep(m, trace[k].op).0))
      && (!r.Ok? ==> Run(s0, trace).printed == printed)
  {
    assert trace[k..][0] == trace[k] && trace[k..][1..] == trace[k + 1..];
    StepRefines(s, m, trace[k].op, trace[k].coins);
    var r := Step(s, trace[k].op, trace[k].coins);
    if r.Ok? {
      var rest := Run(r.value.0, trace[k + 1..]).printed;
      assert printed + ([r.value.1] + rest) == printed + [r.value.1] + rest;
    }
  }

  lemma AtFirstLine(s: Vm, trace: seq<Line>, m: Flat)
    requires Inv(s) && Agrees(s, m) && WellFormedRun(s, trace)
    ensures AtLine(s, s, trace, 0, [], m)
  {
    assert trace[0..] == trace;
    assert [] + Run(s, trace).printed == Run(s, trace).printed;
  }

  lemma AtLastLine(s0: Vm, s: Vm, trace: seq<Line>, printed: seq<Option<Byte>>, m: Flat)
    requires AtLine(s0, s, trace, |trace|, printed, m)
    ensures Run(s0, trace) == RunOutcome(printed, Ok(s))
  {
    assert trace[|trace|..] == [];
    assert printed + [] == printed;
  }
}
