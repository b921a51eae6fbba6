// The simulator's own consistency check, loop by loop, and why it never panics.
module VmCheck {
  import opened VmState
  import opened VmInv
  import opened VmMachine
  import opened VmCounts
  import opened VmSwap

  // ---- What the check looks for ------------------------------------------------

  /** One frame-table entry for every frame of memory. */
  ghost predicate Sized(s: Vm) {
    s.geo.frames >= 1 && |s.ft| == |s.mem| == s.geo.frames
  }

  /** The check reads page tables through saved_ptbr. Its comparison lets the number of frames
      through, and nothing tests that the frame holds a page table. */
  ghost predicate ReadableTable(s: Vm, t: nat) {
    t == 0 || t > s.geo.frames || (t < |s.mem| && s.mem[t].Table? && |s.mem[t].entries| == s.geo.pages)
  }

  ghost predicate Readable(s: Vm) {
    forall p: nat :: Running(s, p) ==> ReadableTable(s, s.procs[p].ptbr)
  }

  ghost predicate PtbrChecks(s: Vm, p: nat)
    requires p < |s.procs|
  {
    var t := s.procs[p].ptbr;
    0 < t < |s.ft| && s.ft[t].protected_
  }

  ghost predicate EntryChecks(s: Vm, p: nat, v: nat) {
    var e := EntryOf(s, p, v);
    && (e.valid ==>
      && 0 < e.pfn < |s.ft| && !IsTable(s, e.pfn)
      && s.ft[e.pfn].mapped && s.ft[e.pfn].process == p && s.ft[e.pfn].vpn == v)
    && (e.swap != 0 ==> e.swap in s.swap)
  }

  /** Some page before (p, v) in scan order is mapped to frame f. */
  ghost predicate Claimed(s: Vm, f: nat, p: nat, v: nat) {
    exists q: nat, w: nat :: Scanned(s, q, w, p, v) && EntryOf(s, q, w).pfn == f
  }

  ghost predicate Scanned(s: Vm, q: nat, w: nat, p: nat, v: nat) {
    Running(s, q) && w < s.geo.pages && (q < p || (q == p && w < v)) && EntryOf(s, q, w).valid
  }

  ghost predicate Checks(s: Vm) {
    && s.geo.frames >= 1 && |s.ft| == s.geo.frames && s.ft[0].protected_
    && TablesCheck(s)
    && (forall f: nat :: f < |s.ft| && s.ft[f].protected_ ==> f == 0 || IsTable(s, f))
    && AllEntriesCheck(s) && AllMappedClaimed(s)
  }

  ghost predicate TablesCheck(s: Vm) {
    forall p: nat :: Running(s, p) ==> PtbrChecks(s, p)
  }

  ghost predicate AllEntriesCheck(s: Vm) {
    forall p: nat, v: nat :: Running(s, p) && v < s.geo.pages ==> EntryChecks(s, p, v)
  }

  ghost predicate AllMappedClaimed(s: Vm) {
    forall f: nat :: f < |s.ft| && !s.ft[f].protected_ && s.ft[f].mapped ==> Claimed(s, f, |s.procs|, 0)
  }

  /** In every state of the invariant the check passes. */
  lemma InvChecks(s: Vm)
    requires Inv(s)
    ensures Sized(s) && Readable(s) && Checks(s)
  {
    forall p: nat | Running(s, p)
      ensures PtbrChecks(s, p) && ReadableTable(s, s.procs[p].ptbr)
    {
      assert TableOf(s, p) && IsTable(s, s.procs[p].ptbr);
    }
    forall p: nat, v: nat | Running(s, p) && v < s.geo.pages
      ensures EntryChecks(s, p, v)
    {
      assert PageOk(s, p, v);
    }
    forall f: nat | f < |s.ft| && !s.ft[f].protected_ && s.ft[f].mapped
      ensures Claimed(s, f, |s.procs|, 0)
    {
      assert FrameOk(s, f);
      assert Scanned(s, s.ft[f].process, s.ft[f].vpn, |s.procs|, 0);
    }
  }

  /** And when it passes: protected frames are exactly frame 0 and the page tables, and valid
      entries and mapped frames are inverse to each other across all processes. */
  lemma ChecksMean(s: Vm)
    requires Checks(s)
    ensures Guarded(s)
    ensures forall p: nat, v: nat, f: nat :: Running(s, p) && v < s.geo.pages && f < |s.ft| && !s.ft[f].protected_ ==>
      ((EntryOf(s, p, v).valid && EntryOf(s, p, v).pfn == f)
       <==> (s.ft[f].mapped && s.ft[f].process == p && s.ft[f].vpn == v))
  {
    forall f: nat | f < |s.ft| && IsTable(s, f)
      ensures s.ft[f].protected_
    {
      var p: nat :| Running(s, p) && s.procs[p].ptbr == f;
      assert PtbrChecks(s, p);
    }
    forall p: nat, v: nat, f: nat | Running(s, p) && v < s.geo.pages && f < |s.ft| && !s.ft[f].protected_
      ensures (EntryOf(s, p, v).valid && EntryOf(s, p, v).pfn == f)
         <==> (s.ft[f].mapped && s.ft[f].process == p && s.ft[f].vpn == v)
    {
      assert EntryChecks(s, p, v);
      if s.ft[f].mapped && s.ft[f].process == p && s.ft[f].vpn == v {
        assert Claimed(s, f, |s.procs|, 0);
        var q: nat, w: nat :| Scanned(s, q, w, |s.procs|, 0) && EntryOf(s, q, w).pfn == f;
        assert EntryChecks(s, q, w);
      }
    }
  }

  // ---- The check as code -------------------------------------------------------

  /** How the check ends: to the end, in a panic, or by reading what is no page table. */
  datatype Verdict = Passes | Panics | Unreadable

  /** Running processes' page-table frames, marked. */
  method CheckTables(sim: PageSim, accounted: array<bool>) returns (r: Verdict)
    requires Sized(sim.State()) && accounted.Length == sim.geo.frames
    requires forall f: nat :: f < accounted.Length ==> accounted[f] == (f == 0)
    modifies accounted
    ensures r.Passes? ==> TablesCheck(sim.State())
    ensures r.Panics? ==> !TablesCheck(sim.State())
    ensures r.Unreadable? ==> !Readable(sim.State())
    ensures r.Passes? ==> forall f: nat :: f < accounted.Length ==> (accounted[f] <==> f == 0 || IsTable(sim.State(), f))
  {
    ghost var s := sim.State();
    for pid: nat := 0 to sim.procs.Length
      invariant sim.State() == s
      invariant forall p: nat :: p < pid && Running(s, p) ==> PtbrChecks(s, p)
      invariant forall f: nat :: f < accounted.Length ==>
        (accounted[f] <==> f == 0 || TableBelow(s, f, pid))
    {
      if sim.procs[pid].running {
        assert Running(s, pid);
        var t := sim.procs[pid].ptbr;
        r := CheckTable(sim, t);
        if r.Panics? {
          assert !PtbrChecks(s, pid);
          return;
        }
        if r.Unreadable? {
          assert !ReadableTable(s, t);
          return;
        }
        accounted[t] := true;
      }
      TableBelowNext(s, pid);
    }
    forall f: nat | f < accounted.Length
      ensures TableBelow(s, f, sim.procs.Length) <==> IsTable(s, f)
    {
    }
    r := Passes;
  }

  /** The tests on one saved_ptbr. */
  method CheckTable(sim: PageSim, t: nat) returns (r: Verdict)
    requires sim.frameTable.Length == sim.geo.frames
    ensures r.Passes? <==> 0 < t < sim.geo.frames && sim.frameTable[t].protected_
    ensures r.Unreadable? <==> 0 < t == sim.geo.frames
  {
    if t <= 0 || t > sim.geo.frames { return Panics; }
    if t == sim.geo.frames { return Unreadable; }
    if !sim.frameTable[t].protected_ { return Panics; }
    r := Passes;
  }

  ghost predicate TableBelow(s: Vm, f: nat, n: nat) {
    exists p: nat :: p < n && Running(s, p) && s.procs[p].ptbr == f
  }

  lemma TableBelowNext(s: Vm, n: nat)
    ensures forall f: nat :: TableBelow(s, f, n + 1) <==> TableBelow(s, f, n) || (Running(s, n) && s.procs[n].ptbr == f)
  {
    if Running(s, n) {
      assert TableBelow(s, s.procs[n].ptbr, n + 1);
    }
  }

  /** No protected frame beyond those accounted for. */
  method CheckProtected(sim: PageSim, accounted: array<bool>) returns (ok: bool)
    requires accounted.Length == sim.frameTable.Length
    ensures ok <==> forall f: nat :: f < sim.frameTable.Length && sim.frameTable[f].protected_ ==> accounted[f]
  {
    for f: nat := 0 to sim.frameTable.Length
      invariant forall g: nat :: g < f && sim.frameTable[g].protected_ ==> accounted[g]
    {
      if sim.frameTable[f].protected_ && !accounted[f] { return false; }
    }
    ok := true;
  }

  /** One page-table entry against the frame table and the swap list. */
  method CheckEntry(sim: PageSim, p: nat, v: nat, accounted: array<bool>, claimed: array<bool>) returns (r: Verdict)
    requires sim.Valid() && Sized(sim.State()) && Running(sim.State(), p) && v < sim.geo.pages
    requires PtbrChecks(sim.State(), p)
    requires accounted.Length == claimed.Length == sim.geo.frames && accounted != claimed
    requires forall f: nat :: f < accounted.Length ==> (accounted[f] <==> f == 0 || IsTable(sim.State(), f))
    requires forall f: nat :: f < claimed.Length ==> (claimed[f] <==> Claimed(sim.State(), f, p, v))
    requires forall q: nat, w: nat :: Scanned(sim.State(), q, w, p, v) ==> EntryChecks(sim.State(), q, w)
    modifies claimed
    ensures r.Unreadable? <==> !ReadableTable(sim.State(), sim.State().procs[p].ptbr)
    ensures !r.Unreadable? ==> (r.Passes? <==> EntryChecks(sim.State(), p, v))
    ensures r.Passes? ==> forall f: nat :: f < claimed.Length ==> (claimed[f] <==> Claimed(sim.State(), f, p, v + 1))
  {
    ghost var s := sim.State();
    var table := sim.mem[sim.procs[p].ptbr];
    if !table.Table? || |table.entries| != sim.geo.pages { return Unreadable; }
    var entry := table.entries[v];
    if entry.valid {
      var pfn := entry.pfn;
      if pfn <= 0 || pfn > sim.geo.frames - 1 { return Panics; }
      if accounted[pfn] { return Panics; }
      if claimed[pfn] {
        ghost var q: nat, w: nat :| Scanned(s, q, w, p, v) && EntryOf(s, q, w).pfn == pfn;
        assert EntryChecks(s, q, w);
        return Panics;
      }
      var fte := sim.frameTable[pfn];
      if !(fte.process < sim.procs.Length) { return Panics; }
      if !fte.mapped || fte.process != p || fte.vpn != v { return Panics; }
      claimed[pfn] := true;
    }
    if entry.swap != 0 {
      var info := sim.swapQueue.Find(entry.swap);
      if info == null { return Panics; }
    }
    r := Passes;
    forall f: nat | f < claimed.Length
      ensures Claimed(s, f, p, v + 1) <==> Claimed(s, f, p, v) || (entry.valid && entry.pfn == f)
    {
      ClaimedStep(s, f, p, v);
    }
  }

  lemma ClaimedStep(s: Vm, f: nat, p: nat, v: nat)
    requires Running(s, p) && v < s.geo.pages
    ensures Claimed(s, f, p, v + 1) <==> Claimed(s, f, p, v) || (EntryOf(s, p, v).valid && EntryOf(s, p, v).pfn == f)
  {
    if Claimed(s, f, p, v) {
      var q: nat, w: nat :| Scanned(s, q, w, p, v) && EntryOf(s, q, w).pfn == f;
      assert Scanned(s, q, w, p, v + 1);
    }
    if EntryOf(s, p, v).valid && EntryOf(s, p, v).pfn == f {
      assert Scanned(s, p, v, p, v + 1);
    }
    if Claimed(s, f, p, v + 1) {
      var q: nat, w: nat :| Scanned(s, q, w, p, v + 1) && EntryOf(s, q, w).pfn == f;
      assert Scanned(s, q, w, p, v) || (q == p && w == v);
    }
  }

  /** Past the last page of p, or past a stopped p, the scan goes on with the next process. */
  lemma ClaimedNext(s: Vm, f: nat, p: nat)
    ensures Claimed(s, f, p + 1, 0) <==> Claimed(s, f, p, if Running(s, p) then s.geo.pages else 0)
  {
    var n := if Running(s, p) then s.geo.pages else 0;
    if Claimed(s, f, p, n) {
      var q: nat, w: nat :| Scanned(s, q, w, p, n) && EntryOf(s, q, w).pfn == f;
      assert Scanned(s, q, w, p + 1, 0);
    }
    if Claimed(s, f, p + 1, 0) {
      var q: nat, w: nat :| Scanned(s, q, w, p + 1, 0) && EntryOf(s, q, w).pfn == f;
      assert Scanned(s, q, w, p, n);
    }
  }

  /** The nested scan over every page table. */
  method CheckEntries(sim: PageSim, accounted: array<bool>, claimed: array<bool>) returns (r: Verdict)
    requires sim.Valid() && Sized(sim.State())
    requires TablesCheck(sim.State())
    requires accounted.Length == claimed.Length == sim.geo.frames && accounted != claimed
    requires forall f: nat :: f < accounted.Length ==> (accounted[f] <==> f == 0 || IsTable(sim.State(), f))
    requires forall f: nat :: f < claimed.Length ==> !claimed[f]
    modifies claimed
    ensures r.Passes? ==> AllEntriesCheck(sim.State())
    ensures r.Panics? ==> !AllEntriesCheck(sim.State())
    ensures r.Unreadable? ==> !Readable(sim.State())
    ensures r.Passes? ==>
      forall f: nat :: f < claimed.Length ==> (claimed[f] <==> Claimed(sim.State(), f, |sim.State().procs|, 0))
  {
    ghost var s := sim.State();
    for pid: nat := 0 to sim.procs.Length
      invariant sim.Valid() && sim.State() == s
      invariant forall f: nat :: f < claimed.Length ==> (claimed[f] <==> Claimed(s, f, pid, 0))
      invariant forall p: nat, v: nat :: Running(s, p) && v < s.geo.pages && p < pid ==> EntryChecks(s, p, v)
    {
      if sim.procs[pid].running {
        for vpn: nat := 0 to sim.geo.pages
          invariant sim.Valid() && sim.State() == s
          invariant forall f: nat :: f < claimed.Length ==> (claimed[f] <==> Claimed(s, f, pid, vpn))
          invariant forall p: nat, v: nat :: Running(s, p) && v < s.geo.pages && (p < pid || (p == pid && v < vpn)) ==>
            EntryChecks(s, p, v)
        {
          assert Running(s, pid);
          r := CheckEntry(sim, pid, vpn, accounted, claimed);
          if !r.Passes? { return; }
        }
      }
      forall f: nat | f < claimed.Length
        ensures claimed[f] <==> Claimed(s, f, pid + 1, 0)
      {
        ClaimedNext(s, f, pid);
      }
    }
    r := Passes;
  }

  /** No mapped frame without an entry. */
  method CheckMapped(sim: PageSim, claimed: array<bool>) returns (ok: bool)
    requires claimed.Length == sim.frameTable.Length
    ensures ok <==> forall f: nat ::
      f < sim.frameTable.Length && !sim.frameTable[f].protected_ && sim.frameTable[f].mapped ==> claimed[f]
  {
    for f: nat := 0 to sim.frameTable.Length
      invariant forall g: nat :: g < f && !sim.frameTable[g].protected_ && sim.frameTable[g].mapped ==> claimed[g]
    {
      if !sim.frameTable[f].protected_ && sim.frameTable[f].mapped && !claimed[f] { return false; }
    }
    ok := true;
  }

  /** The whole check. It passes or panics as its meaning says, reads what is no page table
      only where a running process's saved_ptbr names none, and passes in every reachable state. */
  method CheckValidity(sim: PageSim) returns (r: Verdict)
    requires sim.Valid() && Sized(sim.State())
    ensures r.Passes? ==> Checks(sim.State())
    ensures r.Panics? ==> !Checks(sim.State())
    ensures r.Unreadable? ==> !Readable(sim.State())
    ensures Inv(sim.State()) ==> r.Passes?
  {
    if Inv(sim.State()) {
      InvChecks(sim.State());
    }
    if !sim.frameTable[0].protected_ { return Panics; }
    var accounted := new bool[sim.geo.frames](f => f == 0);
    r := CheckTables(sim, accounted);
    if !r.Passes? { return; }
    var ok := CheckProtected(sim, accounted);
    if !ok { return Panics; }
    r := CheckPages(sim, accounted);
  }

  /** The second half of the check, the tables and the protected frames being right. */
  method CheckPages(sim: PageSim, accounted: array<bool>) returns (r: Verdict)
    requires sim.Valid() && Sized(sim.State()) && accounted.Length == sim.geo.frames
    requires TablesCheck(sim.State())
    requires forall f: nat :: f < accounted.Length ==> (accounted[f] <==> f == 0 || IsTable(sim.State(), f))
    ensures r.Passes? ==> AllEntriesCheck(sim.State()) && AllMappedClaimed(sim.State())
    ensures r.Panics? ==> !(AllEntriesCheck(sim.State()) && AllMappedClaimed(sim.State()))
    ensures r.Unreadable? ==> !Readable(sim.State())
  {
    var claimed := new bool[sim.geo.frames](_ => false);
    r := CheckEntries(sim, accounted, claimed);
    if !r.Passes? { return; }
    var ok := CheckMapped(sim, claimed);
    if !ok { return Panics; }
  }

  // ---- The swap list -----------------------------------------------------------

  /** Along the linked list tokens rise strictly, and they are exactly the non-zero swap fields
      of running processes; size and tail are right; and with nobody running the list is empty. */
  lemma SwapListExact(sim: PageSim, t: nat)
    requires sim.Valid() && Inv(sim.State())
    ensures var q := sim.swapQueue;
      && (SwapQueue.HasToken(q.nodes, t) <==> t != 0 && exists p: nat, v: nat :: Owns(sim.State(), p, v, t))
      && SwapQueue.Increasing(q.nodes) && q.size == |q.nodes|
      && q.tail == (if q.nodes == [] then null else q.nodes[|q.nodes| - 1])
      && ((forall p: nat :: !Running(sim.State(), p)) ==> q.head == null && q.size == 0)
  {
    var q := sim.swapQueue;
    SwapTokensExact(sim.State(), t);
    SwapHeldByRunning(sim.State());
    if SwapQueue.HasToken(q.nodes, t) {
      var i: nat :| i < |q.nodes| && q.nodes[i].token == t;
      assert SwapQueue.KeyedAt(q.nodes, q.pages, i);
    }
    if q.nodes != [] {
      assert SwapQueue.KeyedAt(q.nodes, q.pages, 0);
    }
  }
}
