// Every counter and every L1 bit of the cache simulator, read off the trace.
module CacheCounts {
  import opened LruSet
  import opened CacheModel
  import opened CacheDirty

  ghost predicate Indexed(trace: seq<Request>) {
    forall k :: 0 <= k < |trace| ==> trace[k].l1Index < L1_LINES
  }

  /** Request k misses L1, so it is sent to L2. */
  ghost predicate SentAt(trace: seq<Request>, k: nat)
    requires Indexed(trace)
  {
    k < |trace| && Misses(L1After(trace[..k]), trace[k])
  }

  // ---- Counters ----------------------------------------------------------------

  /** What the counters count: requests by cache, by outcome in L1, and by outcome in L2. */
  datatype Kind = Data | Fetch | DataHit | DataMiss | FetchHit | FetchMiss
                | Sent | SentWrite | L2Hit | L2Miss | L2WriteMiss | Evicting

  /** What happens to a request: its operation, whether it is sent to L2, whether its block is
      among the most recent ones there, and whether it would evict an unsaved block. */
  datatype Fate = Fate(op: char, sent: bool, recent: bool, evicts: bool)

  predicate Counts(kind: Kind, f: Fate) {
    match kind
    case Data => f.op == 'r' || f.op == 'w'
    case Fetch => f.op == 'i'
    case DataHit => (f.op == 'r' || f.op == 'w') && !f.sent
    case DataMiss => (f.op == 'r' || f.op == 'w') && f.sent
    case FetchHit => f.op == 'i' && !f.sent
    case FetchMiss => f.op == 'i' && f.sent
    case Sent => f.sent
    case SentWrite => f.sent && f.op == 'w'
    case L2Hit => f.sent && f.recent
    case L2Miss => f.sent && !f.recent
    case L2WriteMiss => f.sent && !f.recent && f.op == 'w'
    case Evicting => f.sent && f.evicts
  }

  ghost function FateAt(trace: seq<Request>, ways: nat, k: nat): Fate
    requires Indexed(trace) && k < |trace|
  {
    var q, stream := trace[k], MissStream(trace[..k]);
    Fate(q.op, SentAt(trace, k), q.l2Tag in Take(Recency(TagsOf(stream, q.l2Index)), ways),
         EvictsUnsaved(stream, ways, q))
  }

  ghost function Fates(trace: seq<Request>, ways: nat): seq<Fate>
    requires Indexed(trace)
  {
    seq(|trace|, k requires 0 <= k < |trace| => FateAt(trace, ways, k))
  }

  /** How many of the first n are of a kind. */
  function Number(kind: Kind, fates: seq<Fate>, n: nat): nat
    requires n <= |fates|
  {
    if n == 0 then 0 else Number(kind, fates, n - 1) + One(Counts(kind, fates[n - 1]))
  }

  function One(b: bool): nat { if b then 1 else 0 }

  predicate Tallied(c: Counters, fates: seq<Fate>, n: nat)
    requires n <= |fates|
  {
    && c.accesses == n + Number(Sent, fates, n)
    && c.dHit == Number(DataHit, fates, n) && c.dMiss == Number(DataMiss, fates, n)
    && c.iHit == Number(FetchHit, fates, n) && c.iMiss == Number(FetchMiss, fates, n)
    && c.l2Hit == Number(L2Hit, fates, n) && c.l2Miss == Number(L2Miss, fates, n)
    && c.writeCount == Number(SentWrite, fates, n) && c.writeMiss == Number(L2WriteMiss, fates, n)
    && c.writebacks == Number(Evicting, fates, n)
  }

  /** Each counter grows by one if it counts the request. */
  predicate Grows(c: Counters, c': Counters, f: Fate) {
    && c'.accesses == c.accesses + 1 + One(Counts(Sent, f))
    && c'.dHit == c.dHit + One(Counts(DataHit, f)) && c'.dMiss == c.dMiss + One(Counts(DataMiss, f))
    && c'.iHit == c.iHit + One(Counts(FetchHit, f)) && c'.iMiss == c.iMiss + One(Counts(FetchMiss, f))
    && c'.l2Hit == c.l2Hit + One(Counts(L2Hit, f)) && c'.l2Miss == c.l2Miss + One(Counts(L2Miss, f))
    && c'.writeCount == c.writeCount + One(Counts(SentWrite, f))
    && c'.writeMiss == c.writeMiss + One(Counts(L2WriteMiss, f))
    && c'.writebacks == c.writebacks + One(Counts(Evicting, f))
  }

  lemma GrowsOn(c: Counters, c': Counters, fates: seq<Fate>, n: nat)
    requires n < |fates| && Tallied(c, fates, n) && Grows(c, c', fates[n])
    ensures Tallied(c', fates, n + 1)
  {
  }

  lemma CountedOnce(c: Counters, f: Fate)
    requires f.sent ==> IsData(f.op) || f.op == 'i'
    ensures var c1 := CountL1(c.(accesses := c.accesses + 1), f.op, f.sent);
      Grows(c, if f.sent then CountL2(c1, f.op == 'w', f.recent, f.evicts) else c1, f)
  {
  }

  lemma StepCounts(m: Sim, ways: nat, q: Request, f: Fate)
    requires m.l1.Shape() && q.l1Index < L1_LINES
    requires q.l2Index < |m.l2| && CanAccess(m.l2[q.l2Index], q.l2Tag)
    requires f.op == q.op && f.sent == Misses(m.l1, q)
    requires var o := Access(m.l2[q.l2Index], ways, q.l2Tag, q.op == 'w'); f.recent == o.hit && f.evicts == o.writeback
    ensures Grows(m.n, Step(m, ways, q).n, f)
  {
    CountedOnce(m.n, f);
  }

  /** The outcome of the next L2 access, should it be made. */
  lemma NextOutcome(sets: nat, ways: nat, front: seq<Request>, q: Request)
    requires 1 <= ways <= SLOTS && TraceInRange(front, sets) && InRange(q, sets)
    ensures var m := Run(sets, ways, front);
      && m.l1 == L1After(front) && q.l2Index < |m.l2| && CanAccess(m.l2[q.l2Index], q.l2Tag)
      && var o := Access(m.l2[q.l2Index], ways, q.l2Tag, q.op == 'w');
         && o.hit == (q.l2Tag in Take(Recency(TagsOf(MissStream(front), q.l2Index)), ways))
         && o.writeback == EvictsUnsaved(MissStream(front), ways, q)
  {
    StepL2Agrees(Run(sets, ways, front), ways, MissStream(front), q);
    WritebackIff(sets, ways, front, q);
  }

  /** One step adds one to each counter its request is counted by. */
  lemma StepGrows(sets: nat, ways: nat, trace: seq<Request>, n: nat)
    requires 1 <= ways <= SLOTS && TraceInRange(trace, sets) && n < |trace|
    ensures Grows(Run(sets, ways, trace[..n]).n, Run(sets, ways, trace[..n + 1]).n, FateAt(trace, ways, n))
  {
    var front, q := trace[..n], trace[n];
    assert trace[..n + 1][..n] == front && trace[..n + 1][n] == q;
    NextOutcome(sets, ways, front, q);
    StepCounts(Run(sets, ways, front), ways, q, FateAt(trace, ways, n));
  }

  /** Counters that grow step by step by the fates of the requests. */
  lemma {:induction false} GrowsAlong(cs: seq<Counters>, fates: seq<Fate>, n: nat)
    requires n <= |fates| && |cs| == |fates| + 1 && Tallied(cs[0], fates, 0)
    requires forall k: nat :: k < n ==> GrowsAt(cs, fates, k)
    ensures Tallied(cs[n], fates, n)
  {
    if n > 0 {
      GrowsAlong(cs, fates, n - 1);
      assert GrowsAt(cs, fates, n - 1);
      GrowsOn(cs[n - 1], cs[n], fates, n - 1);
    }
  }

  predicate GrowsAt(cs: seq<Counters>, fates: seq<Fate>, k: nat)
    requires k < |fates| && |cs| == |fates| + 1
  {
    Grows(cs[k], cs[k + 1], fates[k])
  }

  /** On every trace each counter is the number of requests it counts. */
  lemma CountersExact(sets: nat, ways: nat, trace: seq<Request>)
    requires 1 <= ways <= SLOTS && TraceInRange(trace, sets)
    ensures Tallied(Run(sets, ways, trace).n, Fates(trace, ways), |trace|)
  {
    var fates := Fates(trace, ways);
    var cs := seq(|trace| + 1, k requires 0 <= k <= |trace| => Run(sets, ways, trace[..k]).n);
    forall k: nat | k < |trace|
      ensures GrowsAt(cs, fates, k)
    {
      StepGrows(sets, ways, trace, k);
    }
    GrowsAlong(cs, fates, |trace|);
    assert trace[..|trace|] == trace;
  }

  lemma {:induction false} KindsAdd(fates: seq<Fate>, n: nat)
    requires n <= |fates|
    ensures Number(DataHit, fates, n) + Number(DataMiss, fates, n) == Number(Data, fates, n)
    ensures Number(FetchHit, fates, n) + Number(FetchMiss, fates, n) == Number(Fetch, fates, n)
  {
    if n > 0 {
      KindsAdd(fates, n - 1);
    }
  }

  /** For each L1 cache hits plus misses are the requests made of it. */
  lemma HitsAndMisses(sets: nat, ways: nat, trace: seq<Request>)
    requires 1 <= ways <= SLOTS && TraceInRange(trace, sets)
    ensures var c, fates := Run(sets, ways, trace).n, Fates(trace, ways);
      && c.dHit + c.dMiss == Number(Data, fates, |trace|)
      && c.iHit + c.iMiss == Number(Fetch, fates, |trace|)
  {
    CountersExact(sets, ways, trace);
    KindsAdd(Fates(trace, ways), |trace|);
  }

  // ---- The bits of an L1 line ------------------------------------------------------

  /** Some request to the line missed, so it was filled. */
  ghost predicate Filled(trace: seq<Request>, q: Request)
    requires Indexed(trace)
  {
    exists k: nat :: k < |trace| && SameLine(trace[k], q) && SentAt(trace, k)
  }

  /** Request j writes the line, and no later request refills it. */
  ghost predicate WrittenFrom(trace: seq<Request>, q: Request, j: nat)
    requires Indexed(trace)
  {
    && j < |trace| && SameLine(trace[j], q) && trace[j].op == 'w'
    && forall k: nat :: j < k < |trace| && SameLine(trace[k], q) ==> !SentAt(trace, k)
  }

  ghost predicate Written(trace: seq<Request>, q: Request)
    requires Indexed(trace)
  {
    exists j: nat :: WrittenFrom(trace, q, j)
  }

  function LineOf(l: L1, q: Request): Line
    requires l.Shape() && q.l1Index < L1_LINES
  {
    if IsData(q.op) then l.data[q.l1Index] else l.instr[q.l1Index]
  }

  lemma SentAtPrefix(front: seq<Request>, p: Request, k: nat)
    requires Indexed(front + [p]) && Indexed(front) && k < |front|
    ensures SentAt(front + [p], k) <==> SentAt(front, k)
  {
    assert (front + [p])[..k] == front[..k];
  }

  lemma FilledAppend(front: seq<Request>, p: Request, q: Request)
    requires Indexed(front + [p]) && Indexed(front)
    ensures Filled(front + [p], q) <==> Filled(front, q) || (SameLine(p, q) && SentAt(front + [p], |front|))
  {
    var all := front + [p];
    assert all[|front|] == p;
    forall k: nat | k < |front|
      ensures all[k] == front[k] && (SentAt(all, k) <==> SentAt(front, k))
    {
      SentAtPrefix(front, p, k);
    }
    if Filled(front, q) {
      var k: nat :| k < |front| && SameLine(front[k], q) && SentAt(front, k);
      assert SameLine(all[k], q) && SentAt(all, k);
    }
  }

  lemma WrittenAppend(front: seq<Request>, p: Request, q: Request)
    requires Indexed(front + [p]) && Indexed(front)
    ensures Written(front + [p], q) <==>
      if SameLine(p, q) then p.op == 'w' || (Written(front, q) && !SentAt(front + [p], |front|)) else Written(front, q)
  {
    var all := front + [p];
    assert all[|front|] == p;
    forall j: nat | j < |front|
      ensures WrittenFrom(all, q, j) <==> WrittenFrom(front, q, j) && (SameLine(p, q) ==> !SentAt(all, |front|))
    {
      WrittenFromAppend(front, p, q, j);
    }
    assert WrittenFrom(all, q, |front|) <==> SameLine(p, q) && p.op == 'w';
  }

  lemma WrittenFromAppend(front: seq<Request>, p: Request, q: Request, j: nat)
    requires Indexed(front + [p]) && Indexed(front) && j < |front|
    ensures WrittenFrom(front + [p], q, j) <==>
      WrittenFrom(front, q, j) && (SameLine(p, q) ==> !SentAt(front + [p], |front|))
  {
    var all := front + [p];
    assert all[|front|] == p;
    forall k: nat | k < |front|
      ensures all[k] == front[k] && (SentAt(all, k) <==> SentAt(front, k))
    {
      SentAtPrefix(front, p, k);
    }
  }

  /** On every trace a line's valid bit is set iff it was ever filled, its dirty bit iff it was
      written since it was last filled. */
  lemma {:induction false} LineBitsIff(trace: seq<Request>, q: Request)
    requires Indexed(trace) && q.l1Index < L1_LINES && (IsData(q.op) || q.op == 'i')
    ensures var line := LineOf(L1After(trace), q);
      && line.valid == (if Filled(trace, q) then 1 else 0)
      && line.dirty == (if Written(trace, q) then 1 else 0)
    decreases |trace|
  {
    if trace != [] {
      var front, p := trace[..|trace| - 1], trace[|trace| - 1];
      assert front + [p] == trace && trace[..|front|] == front;
      LineBitsIff(front, q);
      FilledAppend(front, p, q);
      WrittenAppend(front, p, q);
    }
  }
}
