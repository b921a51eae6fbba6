// The operations of paging.c, page_fault.c, page_replacement.c and swapops.c on that state.
module VmOps {
  import opened Basics
  import opened VmState

  // ---- Address split ---------------------------------------------------------

  function Vpn(g: Geometry, address: nat): nat
    requires g.pageSize >= 1
  {
    address / g.pageSize
  }

  function Offset(g: Geometry, address: nat): nat
    requires g.pageSize >= 1
  {
    address % g.pageSize
  }

  // ---- Victim selection ------------------------------------------------------

  /** The outcome of the coin drawn at each frame of one scan. */
  type Coins = nat -> bool

  function FindFree(ft: seq<Fte>, i: nat): (r: nat)
    requires i <= |ft|
    ensures i <= r <= |ft|
    ensures r < |ft| ==> !ft[r].protected_ && !ft[r].mapped
    ensures forall k :: i <= k < r ==> ft[k].protected_ || ft[k].mapped
    decreases |ft| - i
  {
    if i == |ft| then i
    else if !ft[i].protected_ && !ft[i].mapped then i
    else FindFree(ft, i + 1)
  }

  /** The first unprotected frame from i on whose coin comes up, else the last unprotected one. */
  function FindByCoin(ft: seq<Fte>, coins: Coins, i: nat, last: nat): (r: nat)
    requires i <= |ft|
    ensures r == last || (i <= r < |ft| && !ft[r].protected_)
    ensures r == last ==> last < |ft| || forall k :: i <= k < |ft| ==> ft[k].protected_
    decreases |ft| - i
  {
    if i == |ft| then last
    else if ft[i].protected_ then FindByCoin(ft, coins, i + 1, last)
    else if coins(i) then i
    else FindByCoin(ft, coins, i + 1, i)
  }

  function SelectVictim(ft: seq<Fte>, coins: Coins): Result<nat> {
    var free := FindFree(ft, 0);
    if free < |ft| then Ok(free)
    else
      var v := FindByCoin(ft, coins, 0, |ft|);
      if v < |ft| then Ok(v) else OutOfMemory
  }

  /** A victim is never protected; a free frame goes first; only a fully protected memory has none. */
  lemma VictimMeaning(ft: seq<Fte>, coins: Coins)
    ensures SelectVictim(ft, coins).OutOfMemory? <==> forall k :: 0 <= k < |ft| ==> ft[k].protected_
    ensures SelectVictim(ft, coins).Ok? || SelectVictim(ft, coins).OutOfMemory?
    ensures SelectVictim(ft, coins).Ok? ==>
      var v := SelectVictim(ft, coins).value;
      && v < |ft| && !ft[v].protected_
      && (ft[v].mapped ==> forall k :: 0 <= k < |ft| ==> ft[k].protected_ || ft[k].mapped)
      && (!ft[v].mapped ==> forall k :: 0 <= k < v ==> ft[k].protected_ || ft[k].mapped)
  {
    var free := FindFree(ft, 0);
    if free < |ft| {
      assert !ft[free].protected_;
    }
  }

  ghost predicate Comes(ft: seq<Fte>, coins: Coins, k: nat) { k < |ft| && !ft[k].protected_ && coins(k) }

  /** From frame i on: the first unprotected frame whose coin comes up, else the last unprotected
      one, else `last`. */
  lemma {:induction false} FindByCoinMeaning(ft: seq<Fte>, coins: Coins, i: nat, last: nat)
    requires i <= |ft| && (last < i || last >= |ft|)
    ensures var v := FindByCoin(ft, coins, i, last);
      && (v == last || (i <= v < |ft| && !ft[v].protected_))
      && (forall k: nat :: i <= k < |ft| && (v == last || k < v) ==> !Comes(ft, coins, k))
      && (v != last && !coins(v) ==> forall k: nat :: i <= k ==> !Comes(ft, coins, k))
      && (v == last || !coins(v) ==> forall k: nat :: i <= k < |ft| && (v == last || v < k) ==> ft[k].protected_)
    decreases |ft| - i
  {
    if i < |ft| {
      if ft[i].protected_ {
        FindByCoinMeaning(ft, coins, i + 1, last);
      } else if !coins(i) {
        FindByCoinMeaning(ft, coins, i + 1, i);
      }
    }
  }

  /** With no frame free: the first unprotected frame whose coin comes up goes, and if none comes
      up the last unprotected frame. */
  lemma VictimByCoin(ft: seq<Fte>, coins: Coins)
    requires forall k :: 0 <= k < |ft| ==> ft[k].protected_ || ft[k].mapped
    requires exists k: nat :: k < |ft| && !ft[k].protected_
    ensures SelectVictim(ft, coins).Ok?
    ensures var v := SelectVictim(ft, coins).value;
      && v < |ft| && !ft[v].protected_
      && if exists k: nat :: Comes(ft, coins, k)
         then coins(v) && forall k: nat :: k < v ==> ft[k].protected_ || !coins(k)
         else forall k: nat :: v < k < |ft| ==> ft[k].protected_
  {
    VictimMeaning(ft, coins);
    FindByCoinMeaning(ft, coins, 0, |ft|);
    var v := SelectVictim(ft, coins).value;
    assert v == FindByCoin(ft, coins, 0, |ft|) && (Comes(ft, coins, v) <==> coins(v));
    forall k: nat | k < v && !ft[k].protected_
      ensures !coins(k)
    {
      assert !Comes(ft, coins, k);
    }
  }

  /** Every unprotected frame of a full memory can be the victim: some coins select it. */
  lemma AnyFrameCanBeVictim(ft: seq<Fte>, v: nat)
    requires v < |ft| && !ft[v].protected_
    requires forall k :: 0 <= k < |ft| ==> ft[k].protected_ || ft[k].mapped
    ensures SelectVictim(ft, i => i == v) == Ok(v)
  {
    CoinPicks(ft, v, 0, |ft|);
  }

  lemma {:induction false} CoinPicks(ft: seq<Fte>, v: nat, i: nat, last: nat)
    requires i <= v < |ft| && !ft[v].protected_
    ensures FindByCoin(ft, i => i == v, i, last) == v
    decreases v - i
  {
    if i < v {
      CoinPicks(ft, v, i + 1, if ft[i].protected_ then last else i);
    }
  }

  // ---- Swap ------------------------------------------------------------------

  /** The token a page is written under: its own if the swap list has it, else a fresh one. */
  function SwapToken(s: Vm, e: Pte): nat {
    if e.swap in s.swap then e.swap else s.nextToken
  }

  function SwapWrite(s: Vm, e: Pte, page: seq<Byte>): Vm {
    s.(swap := s.swap[SwapToken(s, e) := page],
       nextToken := if e.swap in s.swap then s.nextToken else s.nextToken + 1)
  }

  // ---- Freeing a frame -------------------------------------------------------

  /** Evict the page in frame f: write it back if dirty, invalidate its entry, unmap the frame. */
  function Evict(s: Vm, f: nat): Result<Vm>
    requires f < |s.ft|
  {
    var fte := s.ft[f];
    if !(fte.process < |s.procs|) then Undefined
    else
      var t := s.procs[fte.process].ptbr;
      if !HasEntry(s, t, fte.vpn) || !(f < |s.mem| && s.mem[f].Data?) then Undefined
      else
        var e := PteAt(s, t, fte.vpn);
        var s1 :=
          if e.dirty then
            var w := SwapWrite(s, e, s.mem[f].bytes);
            SetPte(w, t, fte.vpn, Pte(false, false, e.pfn, SwapToken(s, e)))
              .(stats := s.stats.(writebacks := s.stats.writebacks + 1))
          else SetPte(s, t, fte.vpn, e.(valid := false));
        Ok(SetFte(s1, f, fte.(mapped := false)))
  }

  function FreeFrame(s: Vm, coins: Coins): Result<(Vm, nat)> {
    var f :- SelectVictim(s.ft, coins);
    if !(f < |s.ft|) then Undefined
    else
      var s1 :- if s.ft[f].mapped then Evict(s, f) else Ok(s);
      if !(f < |s1.ft|) then Undefined
      else Ok((SetFte(s1, f, s1.ft[f].(referenced := false)), f))
  }

  // ---- Page faults and accesses ----------------------------------------------

  /** Map page v of process p to frame f and fill the frame from swap or with zeros.
      The entry is in frame t. */
  function PageIn(s: Vm, t: nat, p: nat, v: nat, f: nat): Result<Vm> {
    if !HasEntry(s, t, v) || !(f < |s.ft| && f < |s.mem|) || f == t then Undefined
    else
      var e := PteAt(s, t, v);
      if e.swap != 0 && e.swap !in s.swap then BadSwapEntry
      else
        var page := if e.swap != 0 then s.swap[e.swap] else Zeros(s.geo.pageSize);
        var s1 := SetPte(s, t, v, Pte(true, false, f, e.swap));
        var s2 := SetFte(s1, f, s1.ft[f].(mapped := true, protected_ := false, vpn := v, process := p));
        Ok(s2.(mem := s2.mem[f := Data(page)],
               stats := s2.stats.(pageFaults := s2.stats.pageFaults + 1)))
  }

  /** The handler goes through the current process's saved page table, not through PTBR. */
  function PageFault(s: Vm, address: nat, coins: Coins): Result<Vm>
    requires s.geo.pageSize >= 1
  {
    if s.current.None? || !(s.current.value < |s.procs|) then Undefined
    else
      var p := s.current.value;
      var t := s.procs[p].ptbr;
      var r :- FreeFrame(s, coins);
      PageIn(r.0, t, p, Vpn(s.geo, address), r.1)
  }

  datatype ReadWrite = Read | Write(data: Byte)

  /** Read or write the byte behind a valid entry of the table in frame t. */
  function Touch(s: Vm, t: nat, v: nat, offset: nat, rw: ReadWrite): Result<(Vm, Byte)> {
    if !HasEntry(s, t, v) then Undefined
    else
      var e := PteAt(s, t, v);
      if !(e.pfn < |s.ft| && e.pfn < |s.mem| && s.mem[e.pfn].Data? && offset < |s.mem[e.pfn].bytes|) then Undefined
      else
        var s1 := SetFte(s, e.pfn, s.ft[e.pfn].(referenced := true));
        var bytes := s.mem[e.pfn].bytes;
        match rw
        case Read =>
          Ok((s1.(stats := s.stats.(accesses := s.stats.accesses + 1, readCount := s.stats.readCount + 1)), bytes[offset]))
        case Write(data) =>
          var s2 := SetPte(s1, t, v, e.(dirty := true));
          Ok((s2.(mem := s2.mem[e.pfn := Data(bytes[offset := data])],
                  stats := s.stats.(accesses := s.stats.accesses + 1, writeCount := s.stats.writeCount + 1)), data))
  }

  /** A memory access: the entry is looked up through PTBR, before and after the fault. */
  function MemAccess(s: Vm, address: nat, rw: ReadWrite, coins: Coins): Result<(Vm, Byte)>
    requires s.geo.pageSize >= 1
  {
    var v := Vpn(s.geo, address);
    if !HasEntry(s, s.ptbr, v) then Undefined
    else
      var s1 :- if PteAt(s, s.ptbr, v).valid then Ok(s) else PageFault(s, address, coins);
      Touch(s1, s.ptbr, v, Offset(s.geo, address), rw)
  }

  // ---- Processes -------------------------------------------------------------

  /** Give process p an empty page table in frame f. */
  function InstallTable(s: Vm, p: nat, f: nat): Vm
    requires p < |s.procs| && f < |s.ft| && f < |s.mem|
  {
    s.(mem := s.mem[f := Table(EmptyTable(s.geo.pages))],
       procs := s.procs[p := Pcb(true, f)],
       ft := s.ft[f := s.ft[f].(protected_ := true)])
  }

  function ProcInit(s: Vm, p: nat, coins: Coins): Result<Vm> {
    if !(p < |s.procs|) then Undefined
    else
      var r :- FreeFrame(s, coins);
      var (s1, f) := r;
      if !(f < |s1.ft| && f < |s1.mem| && p < |s1.procs|) then Undefined
      else Ok(InstallTable(s1, p, f))
  }

  function ContextSwitch(s: Vm, p: nat): Vm
    requires p < |s.procs|
  {
    s.(ptbr := s.procs[p].ptbr, current := Some(p))
  }

  /** Entries 0..n-1 of the table in frame t released: frames unmapped, swap entries freed. */
  function ReleasePages(s: Vm, t: nat, n: nat): Result<Vm> {
    if n == 0 then Ok(s)
    else
      var s1 :- ReleasePages(s, t, n - 1);
      ReleasePage(s1, t, n - 1)
  }

  function ReleasePage(s: Vm, t: nat, v: nat): Result<Vm> {
    if !HasEntry(s, t, v) then Undefined
    else
      var e := PteAt(s, t, v);
      if e.valid && !(e.pfn < |s.ft|) then Undefined
      else
        var s1 := if e.valid then SetFte(s, e.pfn, s.ft[e.pfn].(mapped := false)) else s;
        if e.swap == 0 then Ok(s1)
        else if e.swap !in s1.swap then BadSwapEntry
        else Ok(SetPte(s1.(swap := s1.swap - {e.swap}), t, v, e.(swap := 0)))
  }

  /** A stop: release the pages, then free the table's frame and clear the PCB. */
  function ProcCleanup(s: Vm, p: nat): Result<Vm> {
    if !(p < |s.procs|) then Undefined
    else
      var t := s.procs[p].ptbr;
      var s1 :- ReleasePages(s, t, s.geo.pages);
      if !(t < |s1.ft| && p < |s1.procs|) then Undefined
      else
        Ok(s1.(ft := s1.ft[t := s1.ft[t].(protected_ := false, mapped := false, referenced := false)],
               procs := s1.procs[p := Pcb(false, 0)]))
  }

  // ---- The trace loop --------------------------------------------------------

  datatype Op = Start(pid: nat) | Stop(pid: nat) | Access(pid: nat, rw: ReadWrite, address: nat)

  /** One trace line; the byte is the one an access prints. */
  function Step(s: Vm, op: Op, coins: Coins): Result<(Vm, Option<Byte>)>
    requires s.geo.pageSize >= 1
  {
    match op
    case Start(p) =>
      var s1 :- ProcInit(s, p, coins);
      Ok((s1, None))
    case Stop(p) =>
      var s1 :- ProcCleanup(s, p);
      Ok((s1, None))
    case Access(p, rw, address) =>
      if !(p < |s.procs|) then Undefined
      else
        var s0 := if s.current != Some(p) then ContextSwitch(s, p) else s;
        var r :- MemAccess(s0, address, rw, coins);
        Ok((r.0, Some(r.1)))
  }

  function SystemInit(g: Geometry, maxPid: nat): Vm
    requires g.frames >= 1
  {
    Vm(g, seq(g.frames, f => if f == 0 then FREE_FTE.(protected_ := true) else FREE_FTE),
       seq(g.frames, _ => Raw), seq(maxPid, _ => Pcb(false, 0)), None, 0, map[], 1, Stats(0, 0, 0, 0, 0))
  }
}
