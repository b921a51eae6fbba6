// Paging refines a flat memory: every read returns the byte last written to that
// address of that process since it started, or 0.
module VmRefine {
  import opened Basics
  import opened VmState
  import opened VmOps
  import opened VmInv
  import opened VmSteps

  // ---- One operation ---------------------------------------------------------

  /** What a trace must respect at this point: start stopped processes, stop and access
      running ones, inside the address space. When the process accessed is already current
      no context switch follows, so PTBR must still be its page table. */
  ghost predicate WellFormed(s: Vm, op: Op) {
    match op
    case Start(p) => p < |s.procs| && !Running(s, p)
    case Stop(p) => Running(s, p)
    case Access(p, _, address) =>
      && Running(s, p) && address < s.geo.pages * s.geo.pageSize
      && (s.current == Some(p) ==> s.ptbr == s.procs[p].ptbr)
  }

  ghost predicate AllProtected(s: Vm) {
    forall f: nat :: f < |s.ft| ==> s.ft[f].protected_
  }

  lemma AddressInside(g: Geometry, address: nat)
    requires g.pageSize >= 1 && address < g.pages * g.pageSize
    ensures Vpn(g, address) < g.pages && Offset(g, address) < g.pageSize
  {
    var v := address / g.pageSize;
    assert v * g.pageSize <= address;
    MulCancel(v, g.pages, g.pageSize);
  }

  lemma MulCancel(a: nat, b: nat, c: nat)
    requires a * c < b * c
    ensures a < b
  {
  }

  lemma AddressUnique(g: Geometry, a: nat, b: nat)
    requires g.pageSize >= 1 && Vpn(g, a) == Vpn(g, b) && Offset(g, a) == Offset(g, b)
    ensures a == b
  {
    assert a == (a / g.pageSize) * g.pageSize + a % g.pageSize;
    assert b == (b / g.pageSize) * g.pageSize + b % g.pageSize;
  }

  /** Starting: a fresh process of zeros, or out of memory exactly when every frame is protected. */
  lemma StartKeeps(s: Vm, p: nat, coins: Coins)
    requires Inv(s) && p < |s.procs| && !Running(s, p)
    ensures var r := ProcInit(s, p, coins);
      && (r.Ok? || r.OutOfMemory?) && (r.OutOfMemory? <==> AllProtected(s))
      && (r.Ok? ==>
        && Inv(r.value) && SameContents(s, r.value) && r.value.geo == s.geo && |r.value.procs| == |s.procs|
        && (forall q: nat :: Running(r.value, q) <==> Running(s, q) || q == p)
        && (forall v: nat :: v < s.geo.pages ==> Content(r.value, p, v) == Zeros(s.geo.pageSize))
        && r.value.current == s.current && r.value.ptbr == s.ptbr
        && SelectVictim(s.ft, coins) == Ok(r.value.procs[p].ptbr))
  {
    FreeFrameKeeps(s, coins);
    if FreeFrame(s, coins).Ok? {
      var (s1, f) := FreeFrame(s, coins).value;
      InstallEntries(s1, p, f);
      InstallPages(s1, p, f);
      InstallFrames(s1, p, f);
      InstallTokens(s1, p, f);
      var s2 := InstallTable(s1, p, f);
      forall q: nat, v: nat | Running(s, q) && v < s.geo.pages
        ensures Content(s2, q, v) == Content(s, q, v)
      {
        assert Running(s1, q);
      }
    }
  }

  /** Frame f is sure to be the next one allocated, whatever the coins: it is the lowest free
      frame, or the only unprotected one. */
  ghost predicate SureVictim(ft: seq<Fte>, f: nat) {
    && f < |ft| && !ft[f].protected_
    && if ft[f].mapped then forall k: nat :: k < |ft| && k != f ==> ft[k].protected_
       else forall k: nat :: k < f ==> ft[k].protected_ || ft[k].mapped
  }

  lemma SureVictimIff(ft: seq<Fte>, f: nat)
    requires exists k: nat :: k < |ft| && !ft[k].protected_
    ensures (forall coins: Coins :: SelectVictim(ft, coins) == Ok(f)) <==> SureVictim(ft, f)
  {
    if SureVictim(ft, f) {
      forall coins: Coins
        ensures SelectVictim(ft, coins) == Ok(f)
      {
        VictimMeaning(ft, coins);
      }
    } else {
      var v: nat :| v < |ft| && !ft[v].protected_;
      NotSure(ft, f, v);
    }
  }

  /** A frame that is not sure is passed over for some coins. */
  lemma NotSure(ft: seq<Fte>, f: nat, v: nat)
    requires !SureVictim(ft, f) && v < |ft| && !ft[v].protected_
    ensures exists coins: Coins :: SelectVictim(ft, coins) != Ok(f)
  {
    var never: Coins := i => false;
    VictimMeaning(ft, never);
    if SelectVictim(ft, never) == Ok(f) {
      assert f < |ft| && !ft[f].protected_ && ft[f].mapped;
      var k: nat :| k < |ft| && k != f && !ft[k].protected_;
      AnyFrameCanBeVictim(ft, k);
    }
  }

  /** With a frame to be had, PTBR stays right through a start, whatever the coins, exactly
      when the process was not the current one or PTBR's frame is sure to be its new table. */
  lemma StartCoherentIff(s: Vm, p: nat)
    requires Inv(s) && Coherent(s) && p < |s.procs| && !Running(s, p) && !AllProtected(s)
    ensures (forall coins: Coins :: ProcInit(s, p, coins).Ok? && Coherent(ProcInit(s, p, coins).value))
       <==> (s.current == Some(p) ==> SureVictim(s.ft, s.ptbr))
  {
    forall coins: Coins
      ensures ProcInit(s, p, coins).Ok?
      ensures Coherent(ProcInit(s, p, coins).value) <==> (s.current == Some(p) ==> SelectVictim(s.ft, coins) == Ok(s.ptbr))
    {
      StartKeeps(s, p, coins);
      FreeFrameKeeps(s, coins);
    }
    SureVictimIff(s.ft, s.ptbr);
  }

  lemma StopKeeps(s: Vm, p: nat)
    requires Inv(s) && Running(s, p)
    ensures var r := ProcCleanup(s, p);
      && r.Ok? && Inv(r.value) && r.value.geo == s.geo && |r.value.procs| == |s.procs|
      && (forall q: nat :: Running(r.value, q) <==> Running(s, q) && q != p)
      && (forall q: nat, v: nat :: Running(s, q) && q != p && v < s.geo.pages ==> Content(r.value, q, v) == Content(s, q, v))
      && (Coherent(s) ==> Coherent(r.value)) && r.value.current == s.current
  {
    CleanupEffect(s, p);
    var s' := ProcCleanup(s, p).value;
    CleanedEntries(s, s', p);
    CleanedPages(s, s', p);
    CleanedFrames(s, s', p);
    CleanedTokens(s, s', p);
    forall q: nat, v: nat | Running(s, q) && q != p && v < s.geo.pages
      ensures Content(s', q, v) == Content(s, q, v)
    {
      assert Running(s', q);
    }
  }

  /** A page fault maps the page and changes no contents. */
  lemma FaultKeeps(s: Vm, p: nat, address: nat, coins: Coins)
    requires Inv(s) && Running(s, p) && s.current == Some(p) && address < s.geo.pages * s.geo.pageSize
    requires Vpn(s.geo, address) < s.geo.pages && !EntryOf(s, p, Vpn(s.geo, address)).valid
    ensures var r := PageFault(s, address, coins);
      && (r.Ok? || r.OutOfMemory?) && (r.OutOfMemory? <==> AllProtected(s))
      && (r.Ok? ==>
        && Inv(r.value) && r.value.geo == s.geo && r.value.procs == s.procs
        && r.value.current == s.current && r.value.ptbr == s.ptbr
        && SameContents(s, r.value) && EntryOf(r.value, p, Vpn(s.geo, address)).valid)
  {
    var v := Vpn(s.geo, address);
    FreeFrameKeeps(s, coins);
    if FreeFrame(s, coins).Ok? {
      var (s1, f) := FreeFrame(s, coins).value;
      PageInKeeps(s1, p, v, f);
      var s2 := PageIn(s1, s1.procs[p].ptbr, p, v, f).value;
      forall q: nat, w: nat | Running(s, q) && w < s.geo.pages
        ensures Content(s2, q, w) == Content(s, q, w)
      {
        assert Content(s1, q, w) == Content(s, q, w);
      }
    }
  }

  /** An access through a coherent PTBR: page in if needed, then touch one byte. */
  lemma MemAccessKeeps(s: Vm, p: nat, rw: ReadWrite, address: nat, coins: Coins)
    requires Inv(s) && Running(s, p) && s.current == Some(p) && s.ptbr == s.procs[p].ptbr
    requires address < s.geo.pages * s.geo.pageSize
    ensures var r, v, o := MemAccess(s, address, rw, coins), Vpn(s.geo, address), Offset(s.geo, address);
      && v < s.geo.pages && o < s.geo.pageSize
      && (r.Ok? || r.OutOfMemory?)
      && (r.OutOfMemory? <==> !EntryOf(s, p, v).valid && AllProtected(s))
      && (r.Ok? ==>
        && Inv(r.value.0) && r.value.0.geo == s.geo && r.value.0.procs == s.procs
        && r.value.0.current == s.current && r.value.0.ptbr == s.ptbr
        && ContentsAfter(s, r.value.0, p, v, o, rw)
        && |Content(s, p, v)| == s.geo.pageSize
        && r.value.1 == (if rw.Write? then rw.data else Content(s, p, v)[o]))
  {
    AddressInside(s.geo, address);
    var v, o := Vpn(s.geo, address), Offset(s.geo, address);
    assert TableOf(s, p);
    if EntryOf(s, p, v).valid {
      TouchKeeps(s, p, v, o, rw);
    } else {
      FaultKeeps(s, p, address, coins);
      if PageFault(s, address, coins).Ok? {
        TouchKeeps(PageFault(s, address, coins).value, p, v, o, rw);
      }
    }
  }

  // ---- The flat memory -------------------------------------------------------

  /** One byte per (process, address) written since the process started. */
  datatype Flat = Flat(running: set<nat>, bytes: map<(nat, nat), Byte>) {
    function Get(p: nat, address: nat): Byte {
      if (p, address) in bytes then bytes[(p, address)] else 0
    }
  }

  function FlatStep(m: Flat, op: Op): (Flat, Option<Byte>) {
    match op
    case Start(p) =>
      (Flat(m.running + {p}, map k <- m.bytes | k.0 != p :: m.bytes[k]), None)
    case Stop(p) => (m.(running := m.running - {p}), None)
    case Access(p, Read, address) => (m, Some(m.Get(p, address)))
    case Access(p, Write(data), address) => (m.(bytes := m.bytes[(p, address) := data]), Some(data))
  }

  /** The byte a process sees at an address, read off the trace: the last write since the last start. */
  function LastWrite(ops: seq<Op>, p: nat, address: nat): Byte {
    if ops == [] then 0
    else
      var last := ops[|ops| - 1];
      if last == Start(p) then 0
      else if last.Access? && last.pid == p && last.address == address && last.rw.Write? then last.rw.data
      else LastWrite(ops[..|ops| - 1], p, address)
  }

  function FlatAfter(ops: seq<Op>): Flat {
    if ops == [] then Flat({}, map[]) else FlatStep(FlatAfter(ops[..|ops| - 1]), ops[|ops| - 1]).0
  }

  /** The flat memory is the last-write memory. */
  lemma {:induction false} FlatIsLastWrite(ops: seq<Op>, p: nat, address: nat)
    ensures FlatAfter(ops).Get(p, address) == LastWrite(ops, p, address)
  {
    if ops != [] {
      FlatIsLastWrite(ops[..|ops| - 1], p, address);
    }
  }

  ghost predicate Agrees(s: Vm, m: Flat) {
    && (forall p: nat :: Running(s, p) <==> p in m.running)
    && (forall p: nat, v: nat :: Running(s, p) && v < s.geo.pages ==> |Content(s, p, v)| == s.geo.pageSize)
    && (forall p: nat, a: nat :: Running(s, p) && a < s.geo.pages * s.geo.pageSize ==> ByteAgrees(s, m, p, a))
  }

  ghost predicate ByteAgrees(s: Vm, m: Flat, p: nat, a: nat) {
    && s.geo.pageSize >= 1
    && Offset(s.geo, a) < |Content(s, p, Vpn(s.geo, a))|
    && m.Get(p, a) == Content(s, p, Vpn(s.geo, a))[Offset(s.geo, a)]
  }

  lemma StartAgrees(s: Vm, s': Vm, m: Flat, p: nat)
    requires Shape(s) && Agrees(s, m) && !Running(s, p)
    requires SameContents(s, s') && s'.geo == s.geo
    requires forall q: nat :: Running(s', q) <==> Running(s, q) || q == p
    requires forall v: nat :: v < s.geo.pages ==> Content(s', p, v) == Zeros(s.geo.pageSize)
    ensures Agrees(s', FlatStep(m, Start(p)).0)
  {
    var m' := FlatStep(m, Start(p)).0;
    forall q: nat, a: nat | Running(s', q) && a < s.geo.pages * s.geo.pageSize
      ensures ByteAgrees(s', m', q, a)
    {
      AddressInside(s.geo, a);
      if q != p {
        assert ByteAgrees(s, m, q, a);
      }
    }
  }

  lemma StopAgrees(s: Vm, s': Vm, m: Flat, p: nat)
    requires Shape(s) && Agrees(s, m) && s'.geo == s.geo
    requires forall q: nat :: Running(s', q) <==> Running(s, q) && q != p
    requires forall q: nat, v: nat :: Running(s, q) && q != p && v < s.geo.pages ==> Content(s', q, v) == Content(s, q, v)
    ensures Agrees(s', FlatStep(m, Stop(p)).0)
  {
    var m' := FlatStep(m, Stop(p)).0;
    forall q: nat, a: nat | Running(s', q) && a < s.geo.pages * s.geo.pageSize
      ensures ByteAgrees(s', m', q, a)
    {
      AddressInside(s.geo, a);
      assert ByteAgrees(s, m, q, a);
    }
  }

  lemma AccessAgrees(s: Vm, s': Vm, m: Flat, p: nat, rw: ReadWrite, address: nat)
    requires Shape(s) && Agrees(s, m) && Running(s, p) && s'.geo == s.geo && s'.procs == s.procs
    requires address < s.geo.pages * s.geo.pageSize
    requires ContentsAfter(s, s', p, Vpn(s.geo, address), Offset(s.geo, address), rw)
    ensures Agrees(s', FlatStep(m, Access(p, rw, address)).0)
  {
    var m' := FlatStep(m, Access(p, rw, address)).0;
    AddressInside(s.geo, address);
    forall q: nat
      ensures Running(s', q) <==> Running(s, q)
    {
    }
    forall q: nat, a: nat | Running(s', q) && a < s.geo.pages * s.geo.pageSize
      ensures ByteAgrees(s', m', q, a)
    {
      AddressInside(s.geo, a);
      assert ByteAgrees(s, m, q, a);
      if Vpn(s.geo, a) == Vpn(s.geo, address) && Offset(s.geo, a) == Offset(s.geo, address) {
        AddressUnique(s.geo, a, address);
      }
    }
  }

  ghost predicate NeedsFrame(s: Vm, op: Op) {
    s.geo.pageSize >= 1 && (op.Start? || (op.Access? && !EntryOf(s, op.pid, Vpn(s.geo, op.address)).valid))
  }

  /** One well-formed trace line: the invariant, the agreement and the output carry over; the
      only panic is running out of memory, exactly when a frame is needed and all are protected. */
  lemma StepRefines(s: Vm, m: Flat, op: Op, coins: Coins)
    requires Inv(s) && Agrees(s, m) && WellFormed(s, op)
    ensures var r := Step(s, op, coins);
      && (r.Ok? || r.OutOfMemory?)
      && (r.OutOfMemory? <==> NeedsFrame(s, op) && AllProtected(s))
      && (r.Ok? ==> Inv(r.value.0) && Agrees(r.value.0, FlatStep(m, op).0)
                    && r.value.1 == FlatStep(m, op).1)
  {
    match op {
      case Start(p) =>
        StartKeeps(s, p, coins);
        if ProcInit(s, p, coins).Ok? {
          StartAgrees(s, ProcInit(s, p, coins).value, m, p);
        }
      case Stop(p) =>
        StopKeeps(s, p);
        StopAgrees(s, ProcCleanup(s, p).value, m, p);
      case Access(p, rw, address) =>
        AccessStep(s, m, p, rw, address, coins);
    }
  }

  lemma AccessStep(s: Vm, m: Flat, p: nat, rw: ReadWrite, address: nat, coins: Coins)
    requires Inv(s) && Agrees(s, m) && WellFormed(s, Access(p, rw, address))
    ensures var op := Access(p, rw, address);
      var r := Step(s, op, coins);
      && (r.Ok? || r.OutOfMemory?)
      && (r.OutOfMemory? <==> NeedsFrame(s, op) && AllProtected(s))
      && (r.Ok? ==> Inv(r.value.0) && Agrees(r.value.0, FlatStep(m, op).0)
                    && r.value.1 == FlatStep(m, op).1)
  {
    var s0 := if s.current != Some(p) then ContextSwitch(s, p) else s;
    AgreeInv(s, s0);
    MemAccessKeeps(s0, p, rw, address, coins);
    assert ByteAgrees(s, m, p, address);
    var r := MemAccess(s0, address, rw, coins);
    if r.Ok? {
      AccessAgrees(s, r.value.0, m, p, rw, address);
    }
  }

  // ---- Whole traces ----------------------------------------------------------

  datatype Line = Line(op: Op, coins: Coins)

  /** The bytes printed until the end or the panic, and how the run ended. */
  datatype RunOutcome = RunOutcome(printed: seq<Option<Byte>>, end: Result<Vm>)

  function Run(s: Vm, trace: seq<Line>): RunOutcome
    requires s.geo.pageSize >= 1
    decreases |trace|
  {
    if trace == [] then RunOutcome([], Ok(s))
    else
      match Step(s, trace[0].op, trace[0].coins)
      case Ok((s1, out)) =>
        if s1.geo.pageSize < 1 then RunOutcome([out], Undefined)
        else
          var rest := Run(s1, trace[1..]);
          RunOutcome([out] + rest.printed, rest.end)
      case failed => RunOutcome([], failed.PropagateFailure())
  }

  ghost predicate WellFormedRun(s: Vm, trace: seq<Line>)
    decreases |trace|
  {
    s.geo.pageSize >= 1 &&
    (trace != [] ==>
      && WellFormed(s, trace[0].op)
      && var r := Step(s, trace[0].op, trace[0].coins);
         r.Ok? ==> WellFormedRun(r.value.0, trace[1..]))
  }

  function FlatRun(m: Flat, trace: seq<Line>): seq<Option<Byte>>
    decreases |trace|
  {
    if trace == [] then []
    else
      var (m1, out) := FlatStep(m, trace[0].op);
      [out] + FlatRun(m1, trace[1..])
  }

  /** Every well-formed trace, every outcome of the coins: what is printed is what the flat
      memory prints, up to the end or to running out of memory, and nothing else goes wrong. */
  lemma {:induction false} RunRefines(s: Vm, m: Flat, trace: seq<Line>)
    requires Inv(s) && Agrees(s, m) && WellFormedRun(s, trace)
    ensures var r := Run(s, trace);
      && r.printed <= FlatRun(m, trace)
      && (r.end.Ok? || r.end.OutOfMemory?)
      && (r.end.Ok? ==> r.printed == FlatRun(m, trace) && Inv(r.end.value))
    decreases |trace|
  {
    if trace != [] {
      var op, coins := trace[0].op, trace[0].coins;
      StepRefines(s, m, op, coins);
      var r := Step(s, op, coins);
      if r.Ok? {
        RunRefines(r.value.0, FlatStep(m, op).0, trace[1..]);
      }
    }
  }

  /** From a fresh system. */
  lemma PagingRefinesFlatMemory(g: Geometry, maxPid: nat, trace: seq<Line>)
    requires g.frames >= 1 && g.pages >= 1 && g.pageSize >= 1
    requires WellFormedRun(SystemInit(g, maxPid), trace)
    ensures var r := Run(SystemInit(g, maxPid), trace);
      && r.printed <= FlatRun(Flat({}, map[]), trace)
      && (r.end.Ok? || r.end.OutOfMemory?)
      && (r.end.Ok? ==> r.printed == FlatRun(Flat({}, map[]), trace) && Inv(r.end.value))
  {
    InitInv(g, maxPid);
    RunRefines(SystemInit(g, maxPid), Flat({}, map[]), trace);
  }

  function Ops(trace: seq<Line>): seq<Op> {
    seq(|trace|, k requires 0 <= k < |trace| => trace[k].op)
  }

  lemma {:induction false} FlatRunAt(before: seq<Op>, trace: seq<Line>, k: nat)
    requires k < |trace|
    ensures |FlatRun(FlatAfter(before), trace)| == |trace|
    ensures FlatRun(FlatAfter(before), trace)[k] == FlatStep(FlatAfter(before + Ops(trace[..k])), trace[k].op).1
    decreases |trace|
  {
    var op := trace[0].op;
    assert (before + [op])[..|before|] == before;
    if k == 0 {
      assert before + Ops(trace[..0]) == before;
      if |trace| > 1 {
        FlatRunAt(before + [op], trace[1..], 0);
      }
    } else {
      FlatRunAt(before + [op], trace[1..], k - 1);
      assert before + Ops(trace[..k]) == before + [op] + Ops(trace[1..][..k - 1]);
    }
  }

  /** Each byte printed for a read is the last one written there since the process started, or 0. */
  lemma ReadsReturnLastWrite(g: Geometry, maxPid: nat, trace: seq<Line>, k: nat)
    requires g.frames >= 1 && g.pages >= 1 && g.pageSize >= 1
    requires WellFormedRun(SystemInit(g, maxPid), trace)
    requires k < |trace| && k < |Run(SystemInit(g, maxPid), trace).printed|
    requires trace[k].op.Access? && trace[k].op.rw.Read?
    ensures Run(SystemInit(g, maxPid), trace).printed[k]
         == Some(LastWrite(Ops(trace[..k]), trace[k].op.pid, trace[k].op.address))
  {
    PagingRefinesFlatMemory(g, maxPid, trace);
    FlatRunAt([], trace, k);
    assert [] + Ops(trace[..k]) == Ops(trace[..k]);
    FlatIsLastWrite(Ops(trace[..k]), trace[k].op.pid, trace[k].op.address);
  }

  // ---- Traces that are well formed to look at --------------------------------------

  /** What a trace alone tells: who runs, who was accessed last, and whether that process has
      been started again since. */
  datatype Book = Book(running: set<nat>, last: Option<nat>, restarted: bool)

  function BookStep(b: Book, op: Op): Book {
    match op
    case Start(p) => Book(b.running + {p}, b.last, b.restarted || b.last == Some(p))
    case Stop(p) => b.(running := b.running - {p})
    case Access(p, _, _) => Book(b.running, Some(p), b.last == Some(p) && b.restarted)
  }

  /** A restarted process is not accessed before another one has been. */
  predicate Allowed(b: Book, op: Op, maxPid: nat, space: nat) {
    match op
    case Start(p) => p < maxPid && p !in b.running
    case Stop(p) => p in b.running
    case Access(p, _, address) => p in b.running && address < space && !(b.last == Some(p) && b.restarted)
  }

  predicate AllAllowed(b: Book, trace: seq<Line>, maxPid: nat, space: nat)
    decreases |trace|
  {
    trace != [] ==>
      Allowed(b, trace[0].op, maxPid, space) && AllAllowed(BookStep(b, trace[0].op), trace[1..], maxPid, space)
  }

  ghost predicate Booked(s: Vm, b: Book) {
    && (forall p: nat :: Running(s, p) <==> p in b.running)
    && s.current == b.last && (!b.restarted ==> Coherent(s))
  }

  lemma BookKept(s: Vm, b: Book, op: Op, coins: Coins)
    requires Inv(s) && Booked(s, b) && Allowed(b, op, |s.procs|, s.geo.pages * s.geo.pageSize)
    ensures WellFormed(s, op)
    ensures var r := Step(s, op, coins);
      r.Ok? ==> Booked(r.value.0, BookStep(b, op)) && r.value.0.geo == s.geo && |r.value.0.procs| == |s.procs|
  {
    match op {
      case Start(p) => BookStart(s, b, p, coins);
      case Stop(p) => BookStop(s, b, p);
      case Access(p, rw, address) => BookAccess(s, b, p, rw, address, coins);
    }
  }

  lemma BookStart(s: Vm, b: Book, p: nat, coins: Coins)
    requires Inv(s) && Booked(s, b) && p < |s.procs| && p !in b.running
    ensures var r := ProcInit(s, p, coins);
      r.Ok? ==> Booked(r.value, BookStep(b, Start(p))) && r.value.geo == s.geo && |r.value.procs| == |s.procs|
  {
    StartKeeps(s, p, coins);
  }

  lemma BookStop(s: Vm, b: Book, p: nat)
    requires Inv(s) && Booked(s, b) && p in b.running
    ensures var r := ProcCleanup(s, p);
      r.Ok? ==> Booked(r.value, BookStep(b, Stop(p))) && r.value.geo == s.geo && |r.value.procs| == |s.procs|
  {
    StopKeeps(s, p);
  }

  lemma BookAccess(s: Vm, b: Book, p: nat, rw: ReadWrite, address: nat, coins: Coins)
    requires Inv(s) && Booked(s, b) && Allowed(b, Access(p, rw, address), |s.procs|, s.geo.pages * s.geo.pageSize)
    ensures WellFormed(s, Access(p, rw, address))
    ensures var r := Step(s, Access(p, rw, address), coins);
      r.Ok? ==> Booked(r.value.0, BookStep(b, Access(p, rw, address))) && r.value.0.geo == s.geo && r.value.0.procs == s.procs
  {
    var s0 := if s.current != Some(p) then ContextSwitch(s, p) else s;
    AgreeInv(s, s0);
    MemAccessKeeps(s0, p, rw, address, coins);
    var r := MemAccess(s0, address, rw, coins);
    if r.Ok? {
      assert forall q: nat :: Running(r.value.0, q) <==> Running(s, q);
    }
  }

  lemma {:induction false} AllowedIsWellFormed(s: Vm, m: Flat, b: Book, trace: seq<Line>)
    requires Inv(s) && Agrees(s, m) && Booked(s, b)
    requires AllAllowed(b, trace, |s.procs|, s.geo.pages * s.geo.pageSize)
    ensures WellFormedRun(s, trace)
    decreases |trace|
  {
    if trace != [] {
      var op, coins := trace[0].op, trace[0].coins;
      BookKept(s, b, op, coins);
      StepRefines(s, m, op, coins);
      var r := Step(s, op, coins);
      if r.Ok? {
        AllowedIsWellFormed(r.value.0, FlatStep(m, op).0, BookStep(b, op), trace[1..]);
      }
    }
  }

  /** A trace that starts stopped processes, stops and accesses running ones inside the address
      space, and never accesses a process restarted since it was last accessed before accessing
      another, prints what the flat memory prints, whatever the coins. */
  lemma AllowedTraceRefines(g: Geometry, maxPid: nat, trace: seq<Line>)
    requires g.frames >= 1 && g.pages >= 1 && g.pageSize >= 1
    requires AllAllowed(Book({}, None, false), trace, maxPid, g.pages * g.pageSize)
    ensures var r := Run(SystemInit(g, maxPid), trace);
      && r.printed <= FlatRun(Flat({}, map[]), trace)
      && (r.end.Ok? || r.end.OutOfMemory?)
      && (r.end.Ok? ==> r.printed == FlatRun(Flat({}, map[]), trace) && Inv(r.end.value))
  {
    InitInv(g, maxPid);
    AllowedIsWellFormed(SystemInit(g, maxPid), Flat({}, map[]), Book({}, None, false), trace);
    PagingRefinesFlatMemory(g, maxPid, trace);
  }
}
