// Each operation of the memory simulator keeps the invariant, and what it does to
// the contents of pages.
module VmSteps {
  import opened VmState
  import opened VmOps
  import opened VmInv

  /** Frame f is unmapped and unprotected, hence no page table either. */
  ghost predicate FreeAt(s: Vm, f: nat) {
    0 < f < |s.ft| && f < |s.mem| && !s.ft[f].protected_ && !s.ft[f].mapped && !IsTable(s, f)
  }

  ghost predicate SameContents(s: Vm, s': Vm) {
    forall p: nat, v: nat :: Running(s, p) && v < s.geo.pages ==> Content(s', p, v) == Content(s, p, v)
  }

  // ---- Page in ---------------------------------------------------------------

  ghost predicate PagedIn(s: Vm, s': Vm, p: nat, v: nat, f: nat) {
    var e := EntryOf(s, p, v);
    && OneEntry(s, s', p, v, Pte(true, false, f, e.swap))
    && f < |s.ft| && f < |s'.mem|
    && s'.ft == s.ft[f := s.ft[f].(mapped := true, protected_ := false, vpn := v, process := p)]
    && s'.mem[f] == Data(Backing(s, e))
    && (forall g: nat :: g < |s.mem| && s.mem[g].Data? && g != f ==> s'.mem[g] == s.mem[g])
    && s'.swap == s.swap && s'.nextToken == s.nextToken
    && s'.current == s.current && s'.ptbr == s.ptbr
  }

  lemma PageInDefined(s: Vm, p: nat, v: nat, f: nat)
    requires Inv(s) && Running(s, p) && v < s.geo.pages && FreeAt(s, f)
    ensures PageIn(s, s.procs[p].ptbr, p, v, f).Ok?
  {
    assert TableOf(s, p) && PageOk(s, p, v);
  }

  lemma PageInEffect(s: Vm, p: nat, v: nat, f: nat)
    requires Inv(s) && Running(s, p) && v < s.geo.pages && FreeAt(s, f)
    ensures PageIn(s, s.procs[p].ptbr, p, v, f).Ok?
    ensures PagedIn(s, PageIn(s, s.procs[p].ptbr, p, v, f).value, p, v, f)
  {
    assert TableOf(s, p) && PageOk(s, p, v);
    var t := s.procs[p].ptbr;
    assert f != t;
    var e := EntryOf(s, p, v);
    SetPteOneEntry(s, p, v, Pte(true, false, f, e.swap));
    var s1 := SetPte(s, t, v, Pte(true, false, f, e.swap));
    var s' := PageIn(s, t, p, v, f).value;
    forall q: nat | Running(s, q)
      ensures TableOf(s', q)
    {
      assert TableOf(s1, q);
      assert s.procs[q].ptbr != f;
    }
    forall q: nat, w: nat | Running(s, q) && w < s.geo.pages
      ensures EntryOf(s', q, w) == EntryOf(s1, q, w)
    {
      assert TableOf(s', q);
      assert s.procs[q].ptbr != f;
    }
  }

  lemma BackingLength(s: Vm, p: nat, v: nat)
    requires Inv(s) && Running(s, p) && v < s.geo.pages
    ensures |Backing(s, EntryOf(s, p, v))| == s.geo.pageSize
  {
    var e := EntryOf(s, p, v);
    if e.swap in s.swap {
      assert TokenOk(s, e.swap);
    }
  }

  lemma PagedInPages(s: Vm, s': Vm, p: nat, v: nat, f: nat)
    requires Inv(s) && Running(s, p) && v < s.geo.pages && FreeAt(s, f) && !EntryOf(s, p, v).valid
    requires PagedIn(s, s', p, v, f)
    ensures Pages(s') && SameContents(s, s')
  {
    BackingLength(s, p, v);
    forall q: nat, w: nat | Running(s, q) && w < s.geo.pages
      ensures PageOk(s', q, w) && Content(s', q, w) == Content(s, q, w)
    {
      assert PageOk(s, q, w) && PageOk(s, p, v);
      if q != p || w != v {
        assert EntryOf(s, q, w).valid ==> EntryOf(s, q, w).pfn != f;
      }
    }
  }

  lemma PagedInFrames(s: Vm, s': Vm, p: nat, v: nat, f: nat)
    requires Inv(s) && Running(s, p) && v < s.geo.pages && FreeAt(s, f) && !EntryOf(s, p, v).valid
    requires PagedIn(s, s', p, v, f)
    ensures Shape(s') && Apart(s') && Guarded(s') && Frames(s')
  {
    forall g: nat | g < |s'.ft|
      ensures FrameOk(s', g)
    {
      assert FrameOk(s, g);
    }
    forall g: nat | g < |s'.ft|
      ensures IsTable(s', g) <==> IsTable(s, g)
    {
      SameTables(s, s', g);
    }
  }

  /** Rewriting an entry without touching its swap field leaves token ownership alone. */
  lemma SameSwapTokens(s: Vm, s': Vm, p: nat, v: nat, e': Pte)
    requires Tokens(s) && Unique(s) && Running(s, p) && v < s.geo.pages
    requires OneEntry(s, s', p, v, e') && e'.swap == EntryOf(s, p, v).swap
    requires s'.swap == s.swap && s'.nextToken == s.nextToken
    ensures Tokens(s') && Unique(s')
  {
    forall q: nat, w: nat, t: nat
      ensures Owns(s', q, w, t) <==> Owns(s, q, w, t)
    {
      assert Running(s', q) <==> Running(s, q);
    }
    forall t | t in s'.swap
      ensures TokenOk(s', t)
    {
      assert TokenOk(s, t);
      var q: nat, w: nat :| Owns(s, q, w, t);
      assert Owns(s', q, w, t);
    }
    forall q: nat, w: nat, q': nat, w': nat, t: nat | t != 0 && Owns(s', q, w, t) && Owns(s', q', w', t)
      ensures q == q' && w == w'
    {
      assert Owns(s, q, w, t) && Owns(s, q', w', t);
    }
  }

  lemma PageInKeeps(s: Vm, p: nat, v: nat, f: nat)
    requires Inv(s) && Running(s, p) && v < s.geo.pages && FreeAt(s, f) && !EntryOf(s, p, v).valid
    ensures var r := PageIn(s, s.procs[p].ptbr, p, v, f);
      && r.Ok? && Inv(r.value) && SameContents(s, r.value)
      && r.value.geo == s.geo && r.value.procs == s.procs && r.value.current == s.current && r.value.ptbr == s.ptbr
      && EntryOf(r.value, p, v).valid
  {
    PageInEffect(s, p, v, f);
    var s' := PageIn(s, s.procs[p].ptbr, p, v, f).value;
    PagedInPages(s, s', p, v, f);
    PagedInFrames(s, s', p, v, f);
    SameSwapTokens(s, s', p, v, Pte(true, false, f, EntryOf(s, p, v).swap));
  }

  // ---- Reading and writing a byte --------------------------------------------

  ghost predicate Stored(s: Vm, s': Vm, p: nat, v: nat, offset: nat, data: Byte) {
    var e := EntryOf(s, p, v);
    && OneEntry(s, s', p, v, e.(dirty := true))
    && e.pfn < |s.ft| && |s'.ft| == |s.ft| && offset < |Bytes(s, e.pfn)|
    && (forall f: nat :: f < |s.ft| ==> s'.ft[f] == s.ft[f].(referenced := s'.ft[f].referenced))
    && e.pfn < |s'.mem| && s'.mem[e.pfn] == Data(Bytes(s, e.pfn)[offset := data])
    && (forall g: nat :: g < |s.mem| && s.mem[g].Data? && g != e.pfn ==> s'.mem[g] == s.mem[g])
    && s'.swap == s.swap && s'.nextToken == s.nextToken
    && s'.current == s.current && s'.ptbr == s.ptbr
  }

  lemma StoreEffect(s: Vm, p: nat, v: nat, offset: nat, data: Byte)
    requires Inv(s) && Running(s, p) && v < s.geo.pages && EntryOf(s, p, v).valid && offset < s.geo.pageSize
    ensures var r := Touch(s, s.procs[p].ptbr, v, offset, Write(data));
      r.Ok? && r.value.1 == data && Stored(s, r.value.0, p, v, offset, data)
  {
    assert TableOf(s, p) && PageOk(s, p, v);
    var t, e := s.procs[p].ptbr, EntryOf(s, p, v);
    SetPteOneEntry(s, p, v, e.(dirty := true));
    var s1 := SetPte(s, t, v, e.(dirty := true));
    var s' := Touch(s, t, v, offset, Write(data)).value.0;
    forall q: nat | Running(s, q)
      ensures TableOf(s', q)
    {
      assert TableOf(s1, q) && TableOf(s, q);
    }
    forall q: nat, w: nat | Running(s, q) && w < s.geo.pages
      ensures EntryOf(s', q, w) == EntryOf(s1, q, w)
    {
      assert TableOf(s', q) && TableOf(s, q);
    }
  }

  lemma StoredPages(s: Vm, s': Vm, p: nat, v: nat, offset: nat, data: Byte)
    requires Inv(s) && Running(s, p) && v < s.geo.pages && EntryOf(s, p, v).valid && offset < s.geo.pageSize
    requires Stored(s, s', p, v, offset, data)
    ensures Pages(s')
    ensures offset < |Content(s, p, v)| && Content(s', p, v) == Content(s, p, v)[offset := data]
    ensures forall q: nat, w: nat :: Running(s, q) && w < s.geo.pages && (q != p || w != v) ==>
      Content(s', q, w) == Content(s, q, w)
  {
    assert PageOk(s, p, v);
    forall q: nat, w: nat | Running(s, q) && w < s.geo.pages
      ensures PageOk(s', q, w)
      ensures q != p || w != v ==> Content(s', q, w) == Content(s, q, w)
    {
      assert PageOk(s, q, w);
    }
  }

  lemma StoredFrames(s: Vm, s': Vm, p: nat, v: nat, offset: nat, data: Byte)
    requires Inv(s) && Running(s, p) && v < s.geo.pages && EntryOf(s, p, v).valid
    requires Stored(s, s', p, v, offset, data)
    ensures Shape(s') && Apart(s') && Guarded(s') && Frames(s')
  {
    forall g: nat | g < |s'.ft|
      ensures FrameOk(s', g)
    {
      assert FrameOk(s, g);
    }
    forall g: nat | g < |s'.ft|
      ensures IsTable(s', g) <==> IsTable(s, g)
    {
      SameTables(s, s', g);
    }
  }

  /** The pages after an access: a read changes none, a write one byte of one page. */
  ghost predicate ContentsAfter(s: Vm, s': Vm, p: nat, v: nat, offset: nat, rw: ReadWrite) {
    forall q: nat, w: nat :: Running(s, q) && w < s.geo.pages ==>
      Content(s', q, w) == if q == p && w == v && rw.Write? && offset < |Content(s, q, w)|
                           then Content(s, q, w)[offset := rw.data] else Content(s, q, w)
  }

  lemma TouchKeeps(s: Vm, p: nat, v: nat, offset: nat, rw: ReadWrite)
    requires Inv(s) && Running(s, p) && v < s.geo.pages && EntryOf(s, p, v).valid && offset < s.geo.pageSize
    ensures var r := Touch(s, s.procs[p].ptbr, v, offset, rw);
      && r.Ok? && Inv(r.value.0)
      && r.value.0.geo == s.geo && r.value.0.procs == s.procs
      && r.value.0.current == s.current && r.value.0.ptbr == s.ptbr
      && ContentsAfter(s, r.value.0, p, v, offset, rw)
      && |Content(s, p, v)| == s.geo.pageSize
      && r.value.1 == (if rw.Write? then rw.data else Content(s, p, v)[offset])
  {
    assert TableOf(s, p) && PageOk(s, p, v);
    var s' := Touch(s, s.procs[p].ptbr, v, offset, rw).value.0;
    if rw.Read? {
      AgreeInv(s, s');
    } else {
      StoreEffect(s, p, v, offset, rw.data);
      StoredPages(s, s', p, v, offset, rw.data);
      StoredFrames(s, s', p, v, offset, rw.data);
      SameSwapTokens(s, s', p, v, EntryOf(s, p, v).(dirty := true));
    }
  }

  // ---- Starting a process ----------------------------------------------------

  lemma InstallEntries(s: Vm, p: nat, f: nat)
    requires Inv(s) && p < |s.procs| && !Running(s, p) && FreeAt(s, f)
    ensures var s' := InstallTable(s, p, f);
      && Shape(s') && Apart(s')
      && (forall q: nat :: Running(s', q) <==> Running(s, q) || q == p)
      && (forall v: nat :: EntryOf(s', p, v) == FREE_PTE)
      && (forall q: nat, v: nat :: Running(s, q) ==> EntryOf(s', q, v) == EntryOf(s, q, v))
  {
    var s' := InstallTable(s, p, f);
    forall q: nat
      ensures Running(s', q) <==> Running(s, q) || q == p
    {
    }
    forall q: nat | Running(s, q)
      ensures TableOf(s', q) && s.procs[q].ptbr != f
    {
      assert TableOf(s, q);
    }
    forall q: nat, v: nat | Running(s, q)
      ensures EntryOf(s', q, v) == EntryOf(s, q, v)
    {
      assert s.procs[q].ptbr != f;
    }
  }

  lemma InstallPages(s: Vm, p: nat, f: nat)
    requires Inv(s) && p < |s.procs| && !Running(s, p) && FreeAt(s, f)
    ensures var s' := InstallTable(s, p, f);
      && Pages(s') && SameContents(s, s')
      && forall v: nat :: v < s.geo.pages ==> Content(s', p, v) == Zeros(s.geo.pageSize)
  {
    var s' := InstallTable(s, p, f);
    InstallEntries(s, p, f);
    forall q: nat, v: nat | Running(s', q) && v < s.geo.pages
      ensures PageOk(s', q, v)
      ensures Running(s, q) ==> Content(s', q, v) == Content(s, q, v)
    {
      if q != p {
        assert PageOk(s, q, v);
        assert EntryOf(s, q, v).valid ==> EntryOf(s, q, v).pfn != f;
      }
    }
  }

  lemma InstallFrames(s: Vm, p: nat, f: nat)
    requires Inv(s) && p < |s.procs| && !Running(s, p) && FreeAt(s, f)
    ensures Guarded(InstallTable(s, p, f)) && Frames(InstallTable(s, p, f))
  {
    var s' := InstallTable(s, p, f);
    InstallEntries(s, p, f);
    forall g: nat | g < |s'.ft|
      ensures FrameOk(s', g)
    {
      assert FrameOk(s, g);
    }
    forall g: nat | g < |s'.ft|
      ensures IsTable(s', g) <==> IsTable(s, g) || g == f
    {
      if IsTable(s, g) {
        var q: nat :| Running(s, q) && s.procs[q].ptbr == g;
        assert Running(s', q) && s'.procs[q].ptbr == g;
      }
      assert Running(s', p) && s'.procs[p].ptbr == f;
    }
  }

  lemma InstallTokens(s: Vm, p: nat, f: nat)
    requires Inv(s) && p < |s.procs| && !Running(s, p) && FreeAt(s, f)
    ensures Tokens(InstallTable(s, p, f)) && Unique(InstallTable(s, p, f))
  {
    var s' := InstallTable(s, p, f);
    InstallEntries(s, p, f);
    forall t | t in s'.swap
      ensures TokenOk(s', t)
    {
      assert TokenOk(s, t);
      var q: nat, w: nat :| Owns(s, q, w, t);
      assert Owns(s', q, w, t);
    }
    forall q: nat, w: nat, q': nat, w': nat, t: nat | t != 0 && Owns(s', q, w, t) && Owns(s', q', w', t)
      ensures q == q' && w == w'
    {
      assert Owns(s, q, w, t) && Owns(s, q', w', t);
    }
  }

  // ---- Stopping a process ----------------------------------------------------

  /** The state after the first n pages of p are released, written out. */
  function Released(s: Vm, p: nat, n: nat): Vm
    requires p < |s.procs| && s.procs[p].ptbr < |s.mem| && s.mem[s.procs[p].ptbr].Table?
  {
    var t := s.procs[p].ptbr;
    var old_ := s.mem[t].entries;
    s.(ft := seq(|s.ft|, f requires 0 <= f < |s.ft| =>
               if s.ft[f].mapped && s.ft[f].process == p && s.ft[f].vpn < n then s.ft[f].(mapped := false) else s.ft[f]),
       mem := s.mem[t := Table(seq(|old_|, v requires 0 <= v < |old_| => if v < n then old_[v].(swap := 0) else old_[v]))],
       swap := s.swap - ReleasedTokens(old_, n))
  }

  function ReleasedTokens(entries: seq<Pte>, n: nat): set<nat> {
    set v | 0 <= v < n && v < |entries| :: entries[v].swap
  }

  lemma {:induction false} ReleasePagesEffect(s: Vm, p: nat, n: nat)
    requires Inv(s) && Running(s, p) && n <= s.geo.pages
    ensures TableOf(s, p)
    ensures ReleasePages(s, s.procs[p].ptbr, n) == Ok(Released(s, p, n))
  {
    assert TableOf(s, p);
    var t := s.procs[p].ptbr;
    var old_ := s.mem[t].entries;
    if n == 0 {
      var r := Released(s, p, 0);
      assert r.ft == s.ft;
      assert r.mem[t].entries == old_;
      assert r.mem == s.mem;
      assert r.swap == s.swap;
    } else {
      ReleasePagesEffect(s, p, n - 1);
      ReleaseOne(s, p, n - 1);
    }
  }

  lemma ReleaseOne(s: Vm, p: nat, v: nat)
    requires Inv(s) && Running(s, p) && v < s.geo.pages
    ensures TableOf(s, p)
    ensures ReleasePage(Released(s, p, v), s.procs[p].ptbr, v) == Ok(Released(s, p, v + 1))
  {
    assert TableOf(s, p) && PageOk(s, p, v);
    var t := s.procs[p].ptbr;
    var e, a, b := EntryOf(s, p, v), Released(s, p, v), Released(s, p, v + 1);
    assert e == s.mem[t].entries[v] == PteAt(a, t, v);
    ReleaseOneFrame(s, p, v);
    ReleaseOneToken(s, p, v);
    assert b.mem == (if e.swap == 0 then a.mem else a.mem[t := Table(a.mem[t].entries[v := e.(swap := 0)])]) by {
      assert e.swap == 0 ==> b.mem[t].entries == a.mem[t].entries;
      assert e.swap != 0 ==> b.mem[t].entries == a.mem[t].entries[v := e.(swap := 0)];
    }
  }

  /** Every turn of the cleanup loop goes through. */
  ghost predicate Releases(s: Vm, t: nat) {
    forall v: nat :: v < s.geo.pages ==> ReleasesAt(s, t, v)
  }

  ghost predicate ReleasesAt(s: Vm, t: nat, v: nat) {
    var r := ReleasePages(s, t, v);
    r.Ok? && ReleasePage(r.value, t, v).Ok?
  }

  lemma PagesRelease(s: Vm, p: nat)
    requires Inv(s) && Running(s, p)
    ensures Releases(s, s.procs[p].ptbr)
  {
    forall v: nat | v < s.geo.pages
      ensures ReleasesAt(s, s.procs[p].ptbr, v)
    {
      ReleasePagesEffect(s, p, v);
      ReleaseOne(s, p, v);
    }
  }

  lemma ReleaseOneFrame(s: Vm, p: nat, v: nat)
    requires Inv(s) && Running(s, p) && v < s.geo.pages
    requires TableOf(s, p)
    ensures var e, a, b := EntryOf(s, p, v), Released(s, p, v), Released(s, p, v + 1);
      if e.valid then e.pfn < |a.ft| && b.ft == a.ft[e.pfn := a.ft[e.pfn].(mapped := false)] else b.ft == a.ft
  {
    assert PageOk(s, p, v);
    forall f: nat | f < |s.ft| && s.ft[f].mapped && s.ft[f].process == p && s.ft[f].vpn == v
      ensures EntryOf(s, p, v).valid && EntryOf(s, p, v).pfn == f
    {
      assert FrameOk(s, f);
    }
  }

  lemma ReleaseOneToken(s: Vm, p: nat, v: nat)
    requires Inv(s) && Running(s, p) && v < s.geo.pages
    requires TableOf(s, p)
    ensures var e, a, b := EntryOf(s, p, v), Released(s, p, v), Released(s, p, v + 1);
      if e.swap == 0 then b.swap == a.swap else e.swap in a.swap && b.swap == a.swap - {e.swap}
  {
    var entries := s.mem[s.procs[p].ptbr].entries;
    var e := EntryOf(s, p, v);
    assert e == entries[v];
    OneMoreToken(entries, v);
    if e.swap == 0 {
      NoTokenZero(s);
    } else {
      TokenStillThere(s, p, v, entries);
    }
  }

  lemma OneMoreToken(entries: seq<Pte>, v: nat)
    requires v < |entries|
    ensures ReleasedTokens(entries, v + 1) == ReleasedTokens(entries, v) + {entries[v].swap}
  {
  }

  lemma NoTokenZero(s: Vm)
    requires Inv(s)
    ensures 0 !in s.swap
  {
    assert 0 in s.swap ==> TokenOk(s, 0);
  }

  lemma TokenStillThere(s: Vm, p: nat, v: nat, entries: seq<Pte>)
    requires Inv(s) && Running(s, p) && v < s.geo.pages && TableOf(s, p) && entries == s.mem[s.procs[p].ptbr].entries
    requires entries[v].swap != 0
    ensures entries[v].swap in s.swap && entries[v].swap !in ReleasedTokens(entries, v)
  {
    assert PageOk(s, p, v) && EntryOf(s, p, v) == entries[v];
    if entries[v].swap in ReleasedTokens(entries, v) {
      var w: nat :| w < v && entries[w].swap == entries[v].swap;
      assert EntryOf(s, p, w) == entries[w];
      assert Owns(s, p, w, entries[v].swap) && Owns(s, p, v, entries[v].swap);
    }
  }

  /** After a stop: the process is gone, with its frames and swap entries; the rest is as before. */
  ghost predicate Cleaned(s: Vm, s': Vm, p: nat)
    requires Running(s, p)
  {
    && s'.geo == s.geo && |s'.procs| == |s.procs| && s'.procs == s.procs[p := Pcb(false, 0)]
    && |s'.ft| == |s.ft| && |s'.mem| == |s.mem| && s'.nextToken == s.nextToken
    && s'.current == s.current && s'.ptbr == s.ptbr && s'.stats == s.stats
    && (forall f: nat :: f < |s.ft| ==>
          s'.ft[f] == if f == s.procs[p].ptbr then s'.ft[f].(protected_ := false, mapped := false)
                      else if s.ft[f].mapped && s.ft[f].process == p then s.ft[f].(mapped := false) else s.ft[f])
    && (forall f: nat :: f < |s.mem| && f != s.procs[p].ptbr ==> s'.mem[f] == s.mem[f])
    && (forall t :: t in s'.swap <==> t in s.swap && !TokenOf(s, p, t))
    && (forall t :: t in s'.swap ==> s'.swap[t] == s.swap[t])
  }

  ghost predicate TokenOf(s: Vm, p: nat, t: nat) {
    exists v: nat :: Owns(s, p, v, t)
  }

  lemma CleanupEffect(s: Vm, p: nat)
    requires Inv(s) && Running(s, p)
    ensures ProcCleanup(s, p).Ok? && Cleaned(s, ProcCleanup(s, p).value, p)
  {
    ReleasePagesEffect(s, p, s.geo.pages);
    var entries := s.mem[s.procs[p].ptbr].entries;
    var r := Released(s, p, s.geo.pages);
    forall f: nat | f < |s.ft| && s.ft[f].mapped && s.ft[f].process == p
      ensures s.ft[f].vpn < s.geo.pages
    {
      assert FrameOk(s, f);
    }
    forall t
      ensures t in ReleasedTokens(entries, s.geo.pages) <==> TokenOf(s, p, t)
    {
      if t in ReleasedTokens(entries, s.geo.pages) {
        var v: nat :| v < |entries| && entries[v].swap == t;
        assert EntryOf(s, p, v) == entries[v];
        assert Owns(s, p, v, t);
      }
      if TokenOf(s, p, t) {
        var v: nat :| Owns(s, p, v, t);
        assert EntryOf(s, p, v) == entries[v];
      }
    }
  }

  lemma CleanedEntries(s: Vm, s': Vm, p: nat)
    requires Inv(s) && Running(s, p) && Cleaned(s, s', p)
    ensures Shape(s') && Apart(s')
    ensures forall q: nat :: Running(s', q) <==> Running(s, q) && q != p
    ensures forall q: nat, v: nat :: Running(s', q) ==> EntryOf(s', q, v) == EntryOf(s, q, v)
  {
    forall q: nat
      ensures Running(s', q) <==> Running(s, q) && q != p
    {
    }
    forall q: nat | Running(s', q)
      ensures TableOf(s', q) && s.procs[q].ptbr != s.procs[p].ptbr
    {
      assert TableOf(s, q);
    }
    forall q: nat, v: nat | Running(s', q)
      ensures EntryOf(s', q, v) == EntryOf(s, q, v)
    {
      assert s.procs[q].ptbr != s.procs[p].ptbr;
    }
  }

  lemma CleanedPages(s: Vm, s': Vm, p: nat)
    requires Inv(s) && Running(s, p) && Cleaned(s, s', p)
    ensures Pages(s')
    ensures SameContents(s', s)
  {
    CleanedEntries(s, s', p);
    forall q: nat, v: nat | Running(s', q) && v < s.geo.pages
      ensures PageOk(s', q, v) && Content(s', q, v) == Content(s, q, v)
    {
      CleanedPage(s, s', p, q, v);
    }
  }

  lemma CleanedPage(s: Vm, s': Vm, p: nat, q: nat, v: nat)
    requires Inv(s) && Running(s, p) && Cleaned(s, s', p)
    requires Running(s, q) && q != p && v < s.geo.pages && EntryOf(s', q, v) == EntryOf(s, q, v)
    ensures PageOk(s', q, v) && Content(s', q, v) == Content(s, q, v)
  {
    assert PageOk(s, q, v) && TableOf(s, p);
    var e := EntryOf(s, q, v);
    if e.swap != 0 {
      assert Owns(s, q, v, e.swap);
      assert !TokenOf(s, p, e.swap);
    }
    assert e.valid ==> e.pfn != s.procs[p].ptbr;
  }

  lemma CleanedFrames(s: Vm, s': Vm, p: nat)
    requires Inv(s) && Running(s, p) && Cleaned(s, s', p)
    ensures Guarded(s') && Frames(s')
  {
    CleanedEntries(s, s', p);
    forall g: nat | g < |s'.ft|
      ensures FrameOk(s', g)
    {
      assert FrameOk(s, g);
    }
    assert TableOf(s, p);
    forall g: nat | g < |s'.ft|
      ensures IsTable(s', g) <==> IsTable(s, g) && g != s.procs[p].ptbr
    {
      if IsTable(s, g) && g != s.procs[p].ptbr {
        var q: nat :| Running(s, q) && s.procs[q].ptbr == g;
        assert Running(s', q) && s'.procs[q].ptbr == g;
      }
      if IsTable(s', g) {
        var q: nat :| Running(s', q) && s'.procs[q].ptbr == g;
        assert Running(s, q) && s.procs[q].ptbr == g;
      }
    }
  }

  lemma CleanedTokens(s: Vm, s': Vm, p: nat)
    requires Inv(s) && Running(s, p) && Cleaned(s, s', p)
    ensures Tokens(s') && Unique(s')
  {
    CleanedEntries(s, s', p);
    forall t | t in s'.swap
      ensures TokenOk(s', t)
    {
      assert TokenOk(s, t);
      var q: nat, w: nat :| Owns(s, q, w, t);
      assert q != p;
      assert Owns(s', q, w, t);
    }
    forall q: nat, w: nat, q': nat, w': nat, t: nat | t != 0 && Owns(s', q, w, t) && Owns(s', q', w', t)
      ensures q == q' && w == w'
    {
      assert Owns(s, q, w, t) && Owns(s, q', w', t);
    }
  }
}
