// What every step of the memory simulator keeps.
module VmInv {
  import opened VmState
  import opened VmOps

  // ---- Reading the tables ----------------------------------------------------

  function EntryOf(s: Vm, p: nat, v: nat): Pte {
    if p < |s.procs| && HasEntry(s, s.procs[p].ptbr, v) then PteAt(s, s.procs[p].ptbr, v) else FREE_PTE
  }

  function Bytes(s: Vm, f: nat): seq<Byte> {
    if f < |s.mem| && s.mem[f].Data? then s.mem[f].bytes else []
  }

  /** What a page that is not in memory holds: its swap page, or zeros if it has none. */
  function Backing(s: Vm, e: Pte): seq<Byte> {
    if e.swap != 0 && e.swap in s.swap then s.swap[e.swap] else Zeros(s.geo.pageSize)
  }

  /** The bytes of page v of process p, wherever they are. */
  function Content(s: Vm, p: nat, v: nat): seq<Byte> {
    var e := EntryOf(s, p, v);
    if e.valid then Bytes(s, e.pfn) else Backing(s, e)
  }

  // ---- The invariant ---------------------------------------------------------

  ghost predicate TableOf(s: Vm, p: nat)
    requires p < |s.procs|
  {
    var t := s.procs[p].ptbr;
    0 < t < s.geo.frames && t < |s.mem| && s.mem[t].Table? && |s.mem[t].entries| == s.geo.pages
  }

  ghost predicate Shape(s: Vm) {
    && s.geo.frames >= 1 && s.geo.pages >= 1 && s.geo.pageSize >= 1
    && |s.ft| == |s.mem| == s.geo.frames
    && s.nextToken >= 1
    && forall p: nat :: Running(s, p) ==> TableOf(s, p)
  }

  /** No two running processes share a page table. */
  ghost predicate Apart(s: Vm) {
    forall p: nat, q: nat :: Running(s, p) && Running(s, q) && p != q ==> s.procs[p].ptbr != s.procs[q].ptbr
  }

  ghost predicate IsTable(s: Vm, f: nat) {
    exists p: nat :: Running(s, p) && s.procs[p].ptbr == f
  }

  /** Protected frames are exactly frame 0 and the page tables of running processes. */
  ghost predicate Guarded(s: Vm) {
    forall f: nat :: f < |s.ft| ==> (s.ft[f].protected_ <==> f == 0 || IsTable(s, f))
  }

  ghost predicate MapsTo(s: Vm, p: nat, v: nat, f: nat) {
    && f < |s.ft| && f < |s.mem|
    && !s.ft[f].protected_ && s.ft[f].mapped && s.ft[f].process == p && s.ft[f].vpn == v
    && s.mem[f].Data? && |s.mem[f].bytes| == s.geo.pageSize
  }

  /** A valid entry and its frame point at each other; a clean page equals its backing store. */
  ghost predicate PageOk(s: Vm, p: nat, v: nat) {
    var e := EntryOf(s, p, v);
    && (e.valid ==> MapsTo(s, p, v, e.pfn))
    && (e.valid && !e.dirty ==> Bytes(s, e.pfn) == Backing(s, e))
    && (!e.valid ==> !e.dirty)
    && (e.swap != 0 ==> e.swap in s.swap)
  }

  ghost predicate Pages(s: Vm) {
    forall p: nat, v: nat :: Running(s, p) && v < s.geo.pages ==> PageOk(s, p, v)
  }

  ghost predicate FrameOk(s: Vm, f: nat)
    requires f < |s.ft|
  {
    s.ft[f].mapped ==>
      var p, v := s.ft[f].process, s.ft[f].vpn;
      && !s.ft[f].protected_ && Running(s, p) && v < s.geo.pages
      && EntryOf(s, p, v).valid && EntryOf(s, p, v).pfn == f
  }

  ghost predicate Frames(s: Vm) {
    forall f: nat :: f < |s.ft| ==> FrameOk(s, f)
  }

  ghost predicate Owns(s: Vm, p: nat, v: nat, t: nat) {
    Running(s, p) && v < s.geo.pages && EntryOf(s, p, v).swap == t
  }

  ghost predicate TokenOk(s: Vm, t: nat)
    requires t in s.swap
  {
    && 0 < t < s.nextToken && |s.swap[t]| == s.geo.pageSize
    && exists p: nat, v: nat :: Owns(s, p, v, t)
  }

  /** Every swap entry belongs to a page of a running process ... */
  ghost predicate Tokens(s: Vm) {
    forall t :: t in s.swap ==> TokenOk(s, t)
  }

  /** ... and to only one. */
  ghost predicate Unique(s: Vm) {
    forall p: nat, v: nat, q: nat, w: nat, t: nat ::
      t != 0 && Owns(s, p, v, t) && Owns(s, q, w, t) ==> p == q && v == w
  }

  /** PTBR is the page table of the current process while that process runs. */
  ghost predicate Coherent(s: Vm) {
    s.current.Some? && Running(s, s.current.value) ==> s.ptbr == s.procs[s.current.value].ptbr
  }

  ghost predicate Inv(s: Vm) {
    Shape(s) && Apart(s) && Guarded(s) && Pages(s) && Frames(s) && Tokens(s) && Unique(s)
  }

  /** A fresh system satisfies the invariant: no frame mapped or referenced, frame 0 alone protected,
      no process, the first swap token 1. */
  lemma InitInv(g: Geometry, maxPid: nat)
    requires g.frames >= 1 && g.pages >= 1 && g.pageSize >= 1
    ensures var s := SystemInit(g, maxPid);
      && Inv(s) && Coherent(s)
      && s.ptbr == 0 && s.current.None? && s.swap == map[] && s.nextToken == 1
      && (forall f: nat :: f < |s.ft| ==> s.ft[f] == FREE_FTE.(protected_ := f == 0))
      && (forall p: nat :: !Running(s, p))
  {
  }

  // ---- One entry rewritten ---------------------------------------------------

  /** s' has the tables of s, except that page v0 of process p0 has entry e0. */
  ghost predicate OneEntry(s: Vm, s': Vm, p0: nat, v0: nat, e0: Pte) {
    && s'.geo == s.geo && s'.procs == s.procs
    && |s'.mem| == |s.mem|
    && (forall p: nat :: Running(s, p) ==> TableOf(s', p))
    && (forall p: nat, v: nat :: Running(s, p) && v < s.geo.pages ==>
          EntryOf(s', p, v) == if p == p0 && v == v0 then e0 else EntryOf(s, p, v))
  }

  lemma SetPteOneEntry(s: Vm, p0: nat, v0: nat, e0: Pte)
    requires Shape(s) && Apart(s) && Running(s, p0) && v0 < s.geo.pages
    ensures HasEntry(s, s.procs[p0].ptbr, v0)
    ensures OneEntry(s, SetPte(s, s.procs[p0].ptbr, v0, e0), p0, v0, e0)
  {
    var s' := SetPte(s, s.procs[p0].ptbr, v0, e0);
    assert TableOf(s, p0);
    forall p: nat | Running(s, p)
      ensures TableOf(s', p)
    {
      assert TableOf(s, p);
    }
    forall p: nat, v: nat | Running(s, p) && v < s.geo.pages
      ensures EntryOf(s', p, v) == if p == p0 && v == v0 then e0 else EntryOf(s, p, v)
    {
      assert TableOf(s, p);
      if p != p0 {
        assert s.procs[p].ptbr != s.procs[p0].ptbr;
      }
    }
  }

  // ---- Eviction --------------------------------------------------------------

  /** What evicting frame f, which holds page v of p with entry e, does. */
  ghost predicate Evicted(s: Vm, s': Vm, f: nat, p: nat, v: nat, e: Pte, e': Pte) {
    && OneEntry(s, s', p, v, e')
    && !e'.valid && !e'.dirty && e'.pfn == e.pfn
    && f < |s.ft| && s'.ft == s.ft[f := s.ft[f].(mapped := false)]
    && s'.current == s.current && s'.ptbr == s.ptbr
    && (forall g: nat :: g < |s.mem| && s.mem[g].Data? ==> s'.mem[g] == s.mem[g])
    && (if e.dirty then
          && e'.swap == SwapToken(s, e)
          && s'.swap == s.swap[e'.swap := Bytes(s, f)]
          && s'.nextToken == (if e.swap in s.swap then s.nextToken else s.nextToken + 1)
        else e'.swap == e.swap && s'.swap == s.swap && s'.nextToken == s.nextToken)
  }

  lemma EvictEffect(s: Vm, f: nat)
    requires Inv(s) && f < |s.ft| && s.ft[f].mapped
    ensures Evict(s, f).Ok?
    ensures var p, v := s.ft[f].process, s.ft[f].vpn;
      var e, s' := EntryOf(s, p, v), Evict(s, f).value;
      && Running(s, p) && v < s.geo.pages && e.valid && e.pfn == f && MapsTo(s, p, v, f)
      && Evicted(s, s', f, p, v, e, EntryOf(s', p, v))
      && s'.stats == s.stats.(writebacks := s.stats.writebacks + (if e.dirty then 1 else 0))
  {
    assert FrameOk(s, f);
    var p, v := s.ft[f].process, s.ft[f].vpn;
    assert TableOf(s, p) && PageOk(s, p, v);
    if EntryOf(s, p, v).dirty {
      EvictDirty(s, f, p, v);
    } else {
      EvictClean(s, f, p, v);
    }
  }

  /** Frame f holds page v of process p. */
  ghost predicate Resides(s: Vm, f: nat, p: nat, v: nat) {
    && f < |s.ft| && f < |s.mem| && s.mem[f].Data? && s.ft[f].process == p && s.ft[f].vpn == v
    && Running(s, p) && v < s.geo.pages && EntryOf(s, p, v).pfn == f
  }

  lemma EvictClean(s: Vm, f: nat, p: nat, v: nat)
    requires Shape(s) && Apart(s) && Resides(s, f, p, v) && !EntryOf(s, p, v).dirty
    ensures Evict(s, f).Ok?
    ensures var s' := Evict(s, f).value;
      Evicted(s, s', f, p, v, EntryOf(s, p, v), EntryOf(s', p, v)) && s'.stats == s.stats
  {
    assert TableOf(s, p);
    SetPteOneEntry(s, p, v, EntryOf(s, p, v).(valid := false));
  }

  lemma EvictDirty(s: Vm, f: nat, p: nat, v: nat)
    requires Shape(s) && Apart(s) && Resides(s, f, p, v) && EntryOf(s, p, v).dirty
    ensures Evict(s, f).Ok?
    ensures var s' := Evict(s, f).value;
      && Evicted(s, s', f, p, v, EntryOf(s, p, v), EntryOf(s', p, v))
      && s'.stats == s.stats.(writebacks := s.stats.writebacks + 1)
  {
    assert TableOf(s, p);
    var e := EntryOf(s, p, v);
    SetPteOneEntry(s, p, v, Pte(false, false, e.pfn, SwapToken(s, e)));
  }

  lemma EvictDefined(s: Vm, f: nat)
    requires Inv(s) && f < |s.ft| && s.ft[f].mapped
    ensures Evict(s, f).Ok?
  {
    EvictEffect(s, f);
  }

  /** The backing store of every other page is untouched. */
  lemma EvictedBacking(s: Vm, s': Vm, f: nat, p: nat, v: nat, e: Pte, e': Pte, q: nat, w: nat)
    requires Inv(s) && Owns(s, p, v, e.swap) && e == EntryOf(s, p, v)
    requires Evicted(s, s', f, p, v, e, e')
    requires Running(s, q) && w < s.geo.pages && (q != p || w != v)
    ensures Backing(s', EntryOf(s, q, w)) == Backing(s, EntryOf(s, q, w))
    ensures EntryOf(s, q, w).swap != 0 ==> EntryOf(s, q, w).swap in s'.swap
  {
    var x := EntryOf(s, q, w);
    assert PageOk(s, q, w);
    if x.swap != 0 {
      assert TokenOk(s, x.swap);
      assert Owns(s, q, w, x.swap);
    }
  }

  lemma EvictedPages(s: Vm, s': Vm, f: nat, p: nat, v: nat, e: Pte, e': Pte)
    requires Inv(s) && Running(s, p) && v < s.geo.pages && e == EntryOf(s, p, v) && e.valid && e.pfn == f
    requires Evicted(s, s', f, p, v, e, e')
    ensures Pages(s')
    ensures forall q: nat, w: nat :: Running(s, q) && w < s.geo.pages ==> Content(s', q, w) == Content(s, q, w)
  {
    assert Owns(s, p, v, e.swap);
    assert PageOk(s, p, v);
    forall q: nat, w: nat | Running(s, q) && w < s.geo.pages
      ensures PageOk(s', q, w) && Content(s', q, w) == Content(s, q, w)
    {
      assert PageOk(s, q, w);
      if q != p || w != v {
        EvictedBacking(s, s', f, p, v, e, e', q, w);
      } else if e.dirty {
        assert e'.swap != 0 by {
          if e.swap in s.swap { assert TokenOk(s, e.swap); }
        }
      }
    }
  }

  lemma EvictedFrames(s: Vm, s': Vm, f: nat, p: nat, v: nat, e: Pte, e': Pte)
    requires Inv(s) && Running(s, p) && v < s.geo.pages && e == EntryOf(s, p, v) && e.valid && e.pfn == f
    requires Evicted(s, s', f, p, v, e, e')
    ensures Shape(s') && Apart(s') && Guarded(s') && Frames(s')
  {
    forall g: nat | g < |s'.ft|
      ensures FrameOk(s', g)
    {
      assert FrameOk(s, g);
    }
    forall g: nat | g < |s'.ft|
      ensures IsTable(s', g) <==> IsTable(s, g)
    {
      SameTables(s, s', g);
    }
  }

  lemma SameTables(s: Vm, s': Vm, g: nat)
    requires s.procs == s'.procs
    ensures IsTable(s', g) <==> IsTable(s, g)
  {
    if IsTable(s, g) {
      var p: nat :| Running(s, p) && s.procs[p].ptbr == g;
      assert Running(s', p);
    }
    if IsTable(s', g) {
      var p: nat :| Running(s', p) && s'.procs[p].ptbr == g;
      assert Running(s, p);
    }
  }

  lemma EvictedTokens(s: Vm, s': Vm, f: nat, p: nat, v: nat, e: Pte, e': Pte)
    requires Inv(s) && Running(s, p) && v < s.geo.pages && e == EntryOf(s, p, v) && e.valid && e.pfn == f
    requires Evicted(s, s', f, p, v, e, e')
    ensures Tokens(s') && Unique(s')
  {
    assert PageOk(s, p, v);
    assert Owns(s', p, v, e'.swap);
    assert Owns(s, p, v, e.swap);
    forall t | t in s'.swap
      ensures TokenOk(s', t)
    {
      if t in s.swap {
        assert TokenOk(s, t);
        var q: nat, w: nat :| Owns(s, q, w, t);
        assert Owns(s', q, w, t);
      }
    }
    forall q: nat, w: nat, q': nat, w': nat, t: nat | t != 0 && Owns(s', q, w, t) && Owns(s', q', w', t)
      ensures q == q' && w == w'
    {
      OldOwner(s, s', p, v, e, e', q, w, t);
      OldOwner(s, s', p, v, e, e', q', w', t);
    }
  }

  /** A token held after the eviction was held before, or is the fresh one of the evicted page. */
  lemma OldOwner(s: Vm, s': Vm, p: nat, v: nat, e: Pte, e': Pte, q: nat, w: nat, t: nat)
    requires Inv(s) && Running(s, p) && v < s.geo.pages && e == EntryOf(s, p, v)
    requires OneEntry(s, s', p, v, e') && (e'.swap == e.swap || e'.swap == SwapToken(s, e))
    requires t != 0 && Owns(s', q, w, t)
    ensures Owns(s, q, w, t) || (q == p && w == v)
    ensures Owns(s, q, w, t) ==> t != s.nextToken
    ensures q == p && w == v ==> t == e'.swap && (t == e.swap || t == s.nextToken)
  {
    assert Running(s, q);
    if Owns(s, q, w, t) {
      assert PageOk(s, q, w);
      assert TokenOk(s, t);
    }
  }

  // ---- A free frame ----------------------------------------------------------

  /** Freeing a frame keeps the invariant and every page; the frame returned is unprotected,
      unmapped and no page table. It fails exactly when every frame is protected. */
  lemma FreeFrameKeeps(s: Vm, coins: Coins)
    requires Inv(s)
    ensures FreeFrame(s, coins).Ok? || FreeFrame(s, coins).OutOfMemory?
    ensures FreeFrame(s, coins).OutOfMemory? <==> forall f: nat :: f < s.geo.frames ==> s.ft[f].protected_
    ensures FreeFrame(s, coins).Ok? ==>
      var (s', f) := FreeFrame(s, coins).value;
      && Inv(s') && s'.geo == s.geo && s'.procs == s.procs && s'.current == s.current && s'.ptbr == s.ptbr
      && 0 < f < s.geo.frames && !s'.ft[f].protected_ && !s'.ft[f].mapped && !IsTable(s', f)
      && SelectVictim(s.ft, coins) == Ok(f)
      && forall p: nat, v: nat :: Running(s, p) && v < s.geo.pages ==>
           Content(s', p, v) == Content(s, p, v) && (!EntryOf(s, p, v).valid ==> EntryOf(s', p, v) == EntryOf(s, p, v))
  {
    VictimMeaning(s.ft, coins);
    if SelectVictim(s.ft, coins).Ok? {
      var f := SelectVictim(s.ft, coins).value;
      var s1 := s;
      if s.ft[f].mapped {
        EvictEffect(s, f);
        s1 := Evict(s, f).value;
        var p, v := s.ft[f].process, s.ft[f].vpn;
        EvictedPages(s, s1, f, p, v, EntryOf(s, p, v), EntryOf(s1, p, v));
        EvictedFrames(s, s1, f, p, v, EntryOf(s, p, v), EntryOf(s1, p, v));
        EvictedTokens(s, s1, f, p, v, EntryOf(s, p, v), EntryOf(s1, p, v));
      }
      AgreeInv(s1, SetFte(s1, f, s1.ft[f].(referenced := false)));
    }
  }

  /** s' differs from s in referenced bits, counters and the current process only. */
  ghost predicate Agree(s: Vm, s': Vm) {
    && s'.geo == s.geo && s'.procs == s.procs && s'.mem == s.mem
    && s'.swap == s.swap && s'.nextToken == s.nextToken && |s'.ft| == |s.ft|
    && forall f: nat :: f < |s.ft| ==> s'.ft[f] == s.ft[f].(referenced := s'.ft[f].referenced)
  }

  lemma AgreeTokens(s: Vm, s': Vm)
    requires Tokens(s) && Unique(s) && Agree(s, s')
    ensures Tokens(s') && Unique(s')
  {
    forall t | t in s'.swap
      ensures TokenOk(s', t)
    {
      assert TokenOk(s, t);
      var p: nat, v: nat :| Owns(s, p, v, t);
      assert Owns(s', p, v, t);
    }
    forall p: nat, v: nat, q: nat, w: nat, t: nat | t != 0 && Owns(s', p, v, t) && Owns(s', q, w, t)
      ensures p == q && v == w
    {
      assert Owns(s, p, v, t) && Owns(s, q, w, t);
    }
  }

  lemma AgreeFrames(s: Vm, s': Vm)
    requires Shape(s) && Apart(s) && Guarded(s) && Frames(s) && Agree(s, s')
    ensures Shape(s') && Apart(s') && Guarded(s') && Frames(s')
  {
    forall p: nat | Running(s', p)
      ensures TableOf(s', p)
    {
      assert TableOf(s, p);
    }
    forall g: nat | g < |s'.ft|
      ensures FrameOk(s', g)
    {
      assert FrameOk(s, g);
    }
    forall g: nat | g < |s'.ft|
      ensures IsTable(s', g) <==> IsTable(s, g)
    {
      SameTables(s, s', g);
    }
  }

  /** Referenced bits play no part in any of this. */
  lemma AgreeInv(s: Vm, s': Vm)
    requires Inv(s) && Agree(s, s')
    ensures Inv(s')
    ensures forall p: nat, v: nat :: EntryOf(s', p, v) == EntryOf(s, p, v) && Content(s', p, v) == Content(s, p, v)
  {
    AgreeTokens(s, s');
    AgreeFrames(s, s');
    forall p: nat, v: nat | Running(s', p) && v < s'.geo.pages
      ensures PageOk(s', p, v)
    {
      assert PageOk(s, p, v);
    }
  }
}
