// The two-level hierarchy as a step function over split requests, and the
// properties of whole traces.
module CacheModel {
  import opened LruSet

  const L1_LINES: nat := 256

  datatype Line = Line(tag: int, valid: int, dirty: int)

  /** One trace line, with the address already split for both levels. */
  datatype Request = Request(op: char, l1Index: nat, l1Tag: int, l2Index: nat, l2Tag: int)

  datatype Counters = Counters(
    accesses: nat, dHit: nat, dMiss: nat, iHit: nat, iMiss: nat, l2Hit: nat, l2Miss: nat,
    writebacks: nat, writeMiss: nat, writeCount: nat)

  /** The two direct-mapped L1 caches. */
  datatype L1 = L1(data: seq<Line>, instr: seq<Line>) {
    predicate Shape() { |data| == |instr| == L1_LINES }
  }

  datatype Sim = Sim(l2: seq<L2Set>, l1: L1, n: Counters)

  predicate IsData(op: char) { op == 'w' || op == 'r' }

  ghost predicate InRange(q: Request, sets: nat) {
    q.l1Index < L1_LINES && q.l2Index < sets && 0 <= q.l2Tag < NO_TAG
  }

  ghost predicate TraceInRange(trace: seq<Request>, sets: nat) {
    forall k :: 0 <= k < |trace| ==> InRange(trace[k], sets)
  }

  // ---- Steps -----------------------------------------------------------------

  function Start(sets: nat, ways: nat): Sim
    requires 1 <= ways <= SLOTS
  {
    Sim(seq(sets, _ => InitSet(ways)),
        EmptyL1(), Counters(0, 0, 0, 0, 0, 0, 0, 0, 0, 0))
  }

  function EmptyL1(): L1 {
    L1(seq(L1_LINES, _ => Line(0, 0, 0)), seq(L1_LINES, _ => Line(0, 0, 0)))
  }

  ghost predicate CanAccess(s: L2Set, tag: int) {
    s.Shape() && (FindTag(s, tag, 0) != -1 || FindLru(s, 0) != -1)
  }

  function CountL2(n: Counters, write: bool, hit: bool, writeback: bool): Counters {
    n.(accesses := n.accesses + 1,
       writeCount := n.writeCount + (if write then 1 else 0),
       l2Hit := n.l2Hit + (if hit then 1 else 0),
       l2Miss := n.l2Miss + (if hit then 0 else 1),
       writebacks := n.writebacks + (if writeback then 1 else 0),
       writeMiss := n.writeMiss + (if write && !hit then 1 else 0))
  }

  function StepL2(m: Sim, ways: nat, q: Request): Sim
    requires q.l2Index < |m.l2| && CanAccess(m.l2[q.l2Index], q.l2Tag)
  {
    var o := Access(m.l2[q.l2Index], ways, q.l2Tag, q.op == 'w');
    m.(l2 := m.l2[q.l2Index := o.set_], n := CountL2(m.n, q.op == 'w', o.hit, o.writeback))
  }

  /** The L1 line after an access: the hit test looks at the tag alone. */
  function StepLine(l: Line, tag: int, write: bool): Line {
    if l.tag == tag then (if write then l.(dirty := 1) else l)
    else Line(tag, 1, if write then 1 else if l.dirty == 1 then 0 else l.dirty)
  }

  predicate Misses(l: L1, q: Request)
    requires l.Shape() && q.l1Index < L1_LINES
  {
    if IsData(q.op) then l.data[q.l1Index].tag != q.l1Tag
    else q.op == 'i' && l.instr[q.l1Index].tag != q.l1Tag
  }

  function StepLines(l: L1, q: Request): (r: L1)
    requires l.Shape() && q.l1Index < L1_LINES
    ensures r.Shape()
  {
    var i := q.l1Index;
    if IsData(q.op) then l.(data := l.data[i := StepLine(l.data[i], q.l1Tag, q.op == 'w')])
    else if q.op == 'i' then l.(instr := l.instr[i := StepLine(l.instr[i], q.l1Tag, false)])
    else l
  }

  /** Hits and misses of the L1 cache an operation goes to. */
  function CountL1(n: Counters, op: char, miss: bool): Counters {
    if IsData(op) then (if miss then n.(dMiss := n.dMiss + 1) else n.(dHit := n.dHit + 1))
    else if op == 'i' then (if miss then n.(iMiss := n.iMiss + 1) else n.(iHit := n.iHit + 1))
    else n
  }

  /** The L1 part of an access, once it is counted. */
  function Lookup(m: Sim, q: Request): Sim
    requires m.l1.Shape() && q.l1Index < L1_LINES
  {
    m.(l1 := StepLines(m.l1, q), n := CountL1(m.n, q.op, Misses(m.l1, q)))
  }

  function Serve(m: Sim, ways: nat, q: Request): Sim
    requires m.l1.Shape() && q.l1Index < L1_LINES
    requires q.l2Index < |m.l2| && CanAccess(m.l2[q.l2Index], q.l2Tag)
  {
    if Misses(m.l1, q) then StepL2(Lookup(m, q), ways, q) else Lookup(m, q)
  }

  function Step(m: Sim, ways: nat, q: Request): Sim
    requires m.l1.Shape() && q.l1Index < L1_LINES
    requires q.l2Index < |m.l2| && CanAccess(m.l2[q.l2Index], q.l2Tag)
  {
    Serve(m.(n := m.n.(accesses := m.n.accesses + 1)), ways, q)
  }

  /** On a miss the source goes to L2 before it fills the line: the order does not matter. */
  lemma ServeMiss(m: Sim, ways: nat, q: Request)
    requires m.l1.Shape() && q.l1Index < L1_LINES && Misses(m.l1, q)
    requires q.l2Index < |m.l2| && CanAccess(m.l2[q.l2Index], q.l2Tag)
    ensures Serve(m, ways, q)
         == StepL2(m.(n := CountL1(m.n, q.op, true)), ways, q).(l1 := StepLines(m.l1, q))
  {
  }

  // ---- What the L2 sets stand for --------------------------------------------

  /** The tags sent to one set by a stream of L2 requests. */
  function TagsOf(stream: seq<Request>, index: nat): seq<int> {
    if stream == [] then []
    else
      var last := stream[|stream| - 1];
      TagsOf(stream[..|stream| - 1], index) + (if last.l2Index == index then [last.l2Tag] else [])
  }

  ghost predicate SetsAgree(l2: seq<L2Set>, ways: nat, stream: seq<Request>) {
    forall i: nat :: i < |l2| ==> Refines(l2[i], ways, Recency(TagsOf(stream, i)))
  }

  lemma TagsOfAppend(stream: seq<Request>, q: Request, index: nat)
    ensures TagsOf(stream + [q], index)
         == TagsOf(stream, index) + (if q.l2Index == index then [q.l2Tag] else [])
  {
    assert (stream + [q])[..|stream|] == stream;
  }

  lemma RecencyAppend(ts: seq<int>, t: int)
    ensures Recency(ts + [t]) == MoveToFront(Recency(ts), t)
  {
    assert (ts + [t])[..|ts|] == ts;
  }

  lemma StepL2Agrees(m: Sim, ways: nat, stream: seq<Request>, q: Request)
    requires SetsAgree(m.l2, ways, stream) && InRange(q, |m.l2|)
    ensures CanAccess(m.l2[q.l2Index], q.l2Tag)
    ensures SetsAgree(StepL2(m, ways, q).l2, ways, stream + [q])
    ensures Access(m.l2[q.l2Index], ways, q.l2Tag, q.op == 'w').hit
       <==> q.l2Tag in Take(Recency(TagsOf(stream, q.l2Index)), ways)
  {
    var k := q.l2Index;
    AccessRefines(m.l2[k], ways, Recency(TagsOf(stream, k)), q.l2Tag, q.op == 'w');
    var m' := StepL2(m, ways, q);
    forall i: nat | i < |m'.l2|
      ensures Refines(m'.l2[i], ways, Recency(TagsOf(stream + [q], i)))
    {
      TagsOfAppend(stream, q, i);
      if i == k {
        RecencyAppend(TagsOf(stream, k), q.l2Tag);
      } else {
        assert TagsOf(stream, i) + [] == TagsOf(stream, i);
      }
    }
  }

  // ---- Runs ------------------------------------------------------------------

  ghost predicate Good(m: Sim, sets: nat, ways: nat, stream: seq<Request>) {
    && m.l1.Shape() && |m.l2| == sets
    && 1 <= ways <= SLOTS
    && SetsAgree(m.l2, ways, stream)
  }

  lemma StartGood(sets: nat, ways: nat)
    requires 1 <= ways <= SLOTS
    ensures Good(Start(sets, ways), sets, ways, [])
  {
    InitRefines(ways);
  }

  /** The L1 contents: a function of the trace alone. */
  function L1After(trace: seq<Request>): (l: L1)
    requires forall k :: 0 <= k < |trace| ==> trace[k].l1Index < L1_LINES
    ensures l.Shape()
  {
    if trace == [] then EmptyL1() else StepLines(L1After(trace[..|trace| - 1]), trace[|trace| - 1])
  }

  /** The requests that reach the L2 cache: a function of the trace alone. */
  function MissStream(trace: seq<Request>): seq<Request>
    requires forall k :: 0 <= k < |trace| ==> trace[k].l1Index < L1_LINES
  {
    if trace == [] then []
    else
      var front, q := trace[..|trace| - 1], trace[|trace| - 1];
      MissStream(front) + (if Misses(L1After(front), q) then [q] else [])
  }

  lemma StepGood(m: Sim, sets: nat, ways: nat, stream: seq<Request>, q: Request)
    requires Good(m, sets, ways, stream) && InRange(q, sets)
    ensures CanAccess(m.l2[q.l2Index], q.l2Tag)
    ensures Good(Step(m, ways, q), sets, ways, stream + (if Misses(m.l1, q) then [q] else []))
    ensures Step(m, ways, q).l1 == StepLines(m.l1, q)
  {
    var m1 := m.(n := m.n.(accesses := m.n.accesses + 1));
    StepL2Agrees(m, ways, stream, q);
    StepL2Agrees(Lookup(m1, q), ways, stream, q);
    assert stream + [] == stream;
  }

  /** The state after a trace, with the facts that make every step defined. */
  function Run(sets: nat, ways: nat, trace: seq<Request>): (m: Sim)
    requires 1 <= ways <= SLOTS && TraceInRange(trace, sets)
    ensures Good(m, sets, ways, MissStream(trace))
    ensures m.l1 == L1After(trace)
  {
    if trace == [] then
      StartGood(sets, ways);
      Start(sets, ways)
    else
      var front, q := trace[..|trace| - 1], trace[|trace| - 1];
      var m := Run(sets, ways, front);
      StepGood(m, sets, ways, MissStream(front), q);
      Step(m, ways, q)
  }

  /** After any trace the L2 contents of a set are the most recent distinct tags sent to it. */
  lemma SetContentsAfterTrace(sets: nat, ways: nat, trace: seq<Request>, index: nat, k: nat, tag: int)
    requires 1 <= ways <= SLOTS && TraceInRange(trace, sets) && index < sets
    ensures var recent := Take(Recency(TagsOf(MissStream(trace), index)), ways);
      ResidentAt(Run(sets, ways, trace).l2[index], ways, k, tag) <==> k < |recent| && recent[k] == tag
  {
    var m := Run(sets, ways, trace);
    ContentsAreRecent(m.l2[index], ways, Recency(TagsOf(MissStream(trace), index)), k, tag);
  }

  /** The next L2 access hits iff its tag is among them; else it evicts the oldest, and only from a full set. */
  lemma NextAccessAfterTrace(sets: nat, ways: nat, trace: seq<Request>, q: Request)
    requires 1 <= ways <= SLOTS && TraceInRange(trace, sets) && InRange(q, sets)
    ensures var s := Run(sets, ways, trace).l2[q.l2Index];
      var r := Recency(TagsOf(MissStream(trace), q.l2Index));
      && (FindTag(s, q.l2Tag, 0) != -1 <==> q.l2Tag in Take(r, ways))
      && 0 <= FindLru(s, 0) < ways
      && (s.valid[FindLru(s, 0)] == 1 <==> |r| >= ways)
      && (if |r| < ways then FindLru(s, 0) == |r| else s.tag[FindLru(s, 0)] == r[ways - 1])
  {
    var s := Run(sets, ways, trace).l2[q.l2Index];
    var r := Recency(TagsOf(MissStream(trace), q.l2Index));
    HitIff(s, ways, r, q.l2Tag);
    VictimIsOldest(s, ways, r);
  }

  // ---- More ways -------------------------------------------------------------

  /** The counters permute 0..ways-1, valid tags are distinct, never-filled ways sit below all
      filled ones, and the slots beyond `ways` hold nothing: for slots i and j. */
  ghost predicate WellShaped(s: L2Set, ways: nat, i: nat, j: nat)
    requires s.Shape() && i < ways <= SLOTS && j < SLOTS
  {
    && CountersPermute(s, ways)
    && (j < ways && s.valid[i] == 1 && s.valid[j] == 1 ==> s.tag[i] != s.tag[j])
    && (j < ways && s.valid[i] == 1 && s.valid[j] == 0 ==> s.lru[j] < s.lru[i])
    && (j < ways ==> s.valid[j] == 0 || s.valid[j] == 1)
    && (j >= ways ==> s.lru[j] == -1 && forall tag :: !Holds(s, j, tag))
  }

  lemma RefinedIsShaped(s: L2Set, ways: nat, r: seq<int>, i: nat, j: nat)
    requires Refines(s, ways, r) && i < ways && j < SLOTS && i != j
    ensures WellShaped(s, ways, i, j)
  {
    assert SlotAgrees(s, ways, r, i) && SlotAgrees(s, ways, r, j);
    DifferentCounters(s, ways, i, j);
    assert Distinct(r);
  }

  /** In every set, after any trace. */
  lemma SetShapeAfterTrace(sets: nat, ways: nat, trace: seq<Request>, index: nat, i: nat, j: nat)
    requires 1 <= ways <= SLOTS && TraceInRange(trace, sets) && index < sets
    requires i < ways && j < SLOTS && i != j
    ensures var s := Run(sets, ways, trace).l2[index];
      s.Shape() && WellShaped(s, ways, i, j)
  {
    RefinedIsShaped(Run(sets, ways, trace).l2[index], ways, Recency(TagsOf(MissStream(trace), index)), i, j);
  }

  /** Mattson: on every trace the contents of a set with fewer ways are contained in those with more. */
  lemma MoreWaysHoldMore(sets: nat, w: nat, w': nat, trace: seq<Request>, i: nat, tag: int)
    requires 1 <= w <= w' <= SLOTS && TraceInRange(trace, sets) && i < sets
    ensures Resident(Run(sets, w, trace).l2[i], w, tag) ==> Resident(Run(sets, w', trace).l2[i], w', tag)
    ensures FindTag(Run(sets, w, trace).l2[i], tag, 0) != -1 ==> FindTag(Run(sets, w', trace).l2[i], tag, 0) != -1
  {
    StackInclusion(Run(sets, w, trace).l2[i], w, Run(sets, w', trace).l2[i], w',
                   Recency(TagsOf(MissStream(trace), i)), tag);
  }

  lemma StepMissCount(m: Sim, ways: nat, q: Request)
    requires m.l1.Shape() && q.l1Index < L1_LINES
    requires q.l2Index < |m.l2| && CanAccess(m.l2[q.l2Index], q.l2Tag)
    ensures Step(m, ways, q).n.l2Miss == m.n.l2Miss +
      (if Misses(m.l1, q) && FindTag(m.l2[q.l2Index], q.l2Tag, 0) == -1 then 1 else 0)
  {
  }

  /** Adding ways never adds an L2 miss, on any trace. */
  lemma {:induction false} MoreWaysNeverMissMore(sets: nat, w: nat, w': nat, trace: seq<Request>)
    requires 1 <= w <= w' <= SLOTS && TraceInRange(trace, sets)
    ensures Run(sets, w', trace).n.l2Miss <= Run(sets, w, trace).n.l2Miss
  {
    if trace != [] {
      var front, q := trace[..|trace| - 1], trace[|trace| - 1];
      MoreWaysNeverMissMore(sets, w, w', front);
      MoreWaysHoldMore(sets, w, w', front, q.l2Index, q.l2Tag);
      var m, m' := Run(sets, w, front), Run(sets, w', front);
      StepL2Agrees(m, w, MissStream(front), q);
      StepL2Agrees(m', w', MissStream(front), q);
      StepMissCount(m, w, q);
      StepMissCount(m', w', q);
    }
  }

  // ---- Counting --------------------------------------------------------------

  function DirtyLines(l2: seq<L2Set>): nat {
    if l2 == [] then 0 else DirtyLines(l2[..|l2| - 1]) + CountOnes(l2[|l2| - 1].dirty)
  }

  lemma {:induction false} DirtyUpdate(l2: seq<L2Set>, i: nat, s: L2Set)
    requires i < |l2|
    ensures DirtyLines(l2[i := s]) + CountOnes(l2[i].dirty) == DirtyLines(l2) + CountOnes(s.dirty)
  {
    var n := |l2| - 1;
    if i == n {
      assert l2[i := s][..n] == l2[..n];
    } else {
      DirtyUpdate(l2[..n], i, s);
      assert l2[i := s][..n] == l2[..n][i := s];
    }
  }

  lemma {:induction false} StartClean(sets: nat, ways: nat, n: nat)
    requires 1 <= ways <= SLOTS
    ensures DirtyLines(seq(n, _ => InitSet(ways))) == 0
  {
    var l2 := seq(n, _ => InitSet(ways));
    if n > 0 {
      StartClean(sets, ways, n - 1);
      assert l2[..n - 1] == seq(n - 1, _ => InitSet(ways));
      NoOnes(InitSet(ways).dirty);
    }
  }

  lemma {:induction false} NoOnes(d: seq<int>)
    requires forall k :: 0 <= k < |d| ==> d[k] != 1
    ensures CountOnes(d) == 0
  {
    if d != [] {
      NoOnes(d[..|d| - 1]);
    }
  }

  ghost predicate Balanced(m: Sim, requests: nat, sent: nat) {
    && m.n.l2Hit + m.n.l2Miss == m.n.dMiss + m.n.iMiss == sent
    && m.n.accesses == requests + sent
    && m.n.writebacks + DirtyLines(m.l2) <= m.n.writeCount
  }

  lemma StepBalanced(m: Sim, ways: nat, q: Request, requests: nat, sent: nat)
    requires m.l1.Shape() && q.l1Index < L1_LINES
    requires q.l2Index < |m.l2| && CanAccess(m.l2[q.l2Index], q.l2Tag)
    requires Balanced(m, requests, sent)
    ensures Balanced(Step(m, ways, q), requests + 1, sent + (if Misses(m.l1, q) then 1 else 0))
  {
    var s := m.l2[q.l2Index];
    AccessDirty(s, ways, q.l2Tag, q.op == 'w');
    DirtyUpdate(m.l2, q.l2Index, Access(s, ways, q.l2Tag, q.op == 'w').set_);
  }

  /** Every L1 miss is one L2 access, and write-backs never outrun the writes that reached L2. */
  lemma {:induction false} CountersBalance(sets: nat, ways: nat, trace: seq<Request>)
    requires 1 <= ways <= SLOTS && TraceInRange(trace, sets)
    ensures Balanced(Run(sets, ways, trace), |trace|, |MissStream(trace)|)
  {
    if trace == [] {
      StartClean(sets, ways, sets);
    } else {
      var front, q := trace[..|trace| - 1], trace[|trace| - 1];
      CountersBalance(sets, ways, front);
      var m := Run(sets, ways, front);
      StepL2Agrees(m, ways, MissStream(front), q);
      StepBalanced(m, ways, q, |front|, |MissStream(front)|);
    }
  }

  // ---- The L1 hit test -------------------------------------------------------

  predicate SameCache(p: Request, q: Request) {
    (IsData(p.op) && IsData(q.op)) || (p.op == 'i' && q.op == 'i')
  }

  /** The latest earlier request to the same cache and line, if any. */
  function Latest(trace: seq<Request>, q: Request): (k: int)
    ensures -1 <= k < |trace|
    ensures k != -1 ==> SameCache(trace[k], q) && trace[k].l1Index == q.l1Index
    ensures forall j :: k < j < |trace| ==> !(SameCache(trace[j], q) && trace[j].l1Index == q.l1Index)
  {
    if trace == [] then -1
    else if SameCache(trace[|trace| - 1], q) && trace[|trace| - 1].l1Index == q.l1Index then |trace| - 1
    else Latest(trace[..|trace| - 1], q)
  }

  /** An L1 line holds the tag of its latest request; tag 0 stands in when there was none. */
  lemma {:induction false} L1HoldsLatest(trace: seq<Request>, q: Request)
    requires forall k :: 0 <= k < |trace| ==> trace[k].l1Index < L1_LINES
    requires q.l1Index < L1_LINES && (IsData(q.op) || q.op == 'i')
    ensures var line := if IsData(q.op) then L1After(trace).data[q.l1Index] else L1After(trace).instr[q.l1Index];
      line.tag == if Latest(trace, q) == -1 then 0 else trace[Latest(trace, q)].l1Tag
  {
    if trace != [] {
      L1HoldsLatest(trace[..|trace| - 1], q);
    }
  }

  /** An L1 access hits iff the latest request to its line had its tag,
      or the line was never used and the tag is 0: the valid bit is not consulted. */
  lemma L1HitIff(trace: seq<Request>, q: Request)
    requires forall k :: 0 <= k < |trace| ==> trace[k].l1Index < L1_LINES
    requires q.l1Index < L1_LINES && (IsData(q.op) || q.op == 'i')
    ensures !Misses(L1After(trace), q) <==>
      if Latest(trace, q) == -1 then q.l1Tag == 0 else trace[Latest(trace, q)].l1Tag == q.l1Tag
  {
    L1HoldsLatest(trace, q);
  }

  // ---- Whether a hit is honest --------------------------------------------------

  predicate SameLine(p: Request, q: Request) {
    SameCache(p, q) && p.l1Index == q.l1Index
  }

  /** Some request sent on to L2 brought q's block into its L1 line. */
  ghost predicate BroughtIn(sent: seq<Request>, q: Request) {
    exists k: nat :: k < |sent| && SameLine(sent[k], q) && sent[k].l1Tag == q.l1Tag
  }

  /** No request to q's line had a tag other than 0. */
  ghost predicate OnlyTagZero(trace: seq<Request>, q: Request) {
    forall k: nat :: k < |trace| && SameLine(trace[k], q) ==> trace[k].l1Tag == 0
  }

  lemma BroughtInAppend(sent: seq<Request>, p: Request, q: Request)
    ensures BroughtIn(sent + [p], q) <==> BroughtIn(sent, q) || (SameLine(p, q) && p.l1Tag == q.l1Tag)
  {
    var sent' := sent + [p];
    if BroughtIn(sent, q) {
      var k: nat :| k < |sent| && SameLine(sent[k], q) && sent[k].l1Tag == q.l1Tag;
      assert sent'[k] == sent[k];
    }
    assert sent'[|sent|] == p;
  }

  lemma OnlyTagZeroAppend(front: seq<Request>, p: Request, q: Request)
    ensures OnlyTagZero(front + [p], q) <==> OnlyTagZero(front, q) && (SameLine(p, q) ==> p.l1Tag == 0)
  {
    var trace := front + [p];
    assert trace[|front|] == p;
    assert forall k: nat :: k < |front| ==> trace[k] == front[k];
  }

  /** A line only ever used with tag 0 answers tag 0 with a hit. */
  lemma ZeroLineHits(trace: seq<Request>, q: Request)
    requires forall k :: 0 <= k < |trace| ==> trace[k].l1Index < L1_LINES
    requires q.l1Index < L1_LINES && (IsData(q.op) || q.op == 'i')
    ensures OnlyTagZero(trace, q) && q.l1Tag == 0 ==> !Misses(L1After(trace), q)
  {
    L1HitIff(trace, q);
    var k := Latest(trace, q);
    assert k != -1 ==> SameLine(trace[k], q);
  }

  /** A hit behind one more request p: p was for another line and q would have hit before it,
      or p was for q's block. */
  lemma HitBehind(front: seq<Request>, p: Request, q: Request)
    requires forall k :: 0 <= k < |front + [p]| ==> (front + [p])[k].l1Index < L1_LINES
    requires q.l1Index < L1_LINES && (IsData(q.op) || q.op == 'i')
    requires !Misses(L1After(front + [p]), q)
    ensures if SameLine(p, q) then p.l1Tag == q.l1Tag && (Misses(L1After(front), p) <==> Misses(L1After(front), q))
            else !Misses(L1After(front), q)
  {
    assert (front + [p])[..|front|] == front;
    assert forall k :: 0 <= k < |front| ==> front[k] == (front + [p])[k];
    L1HitIff(front + [p], q);
    L1HitIff(front, q);
  }

  lemma MissStreamAppend(front: seq<Request>, p: Request)
    requires forall k :: 0 <= k < |front + [p]| ==> (front + [p])[k].l1Index < L1_LINES
    ensures forall k :: 0 <= k < |front| ==> front[k].l1Index < L1_LINES
    ensures p.l1Index < L1_LINES
    ensures MissStream(front + [p]) == MissStream(front) + (if Misses(L1After(front), p) then [p] else [])
  {
    assert (front + [p])[|front|] == p && (front + [p])[..|front|] == front;
    assert forall k :: 0 <= k < |front| ==> front[k] == (front + [p])[k];
  }

  /** "A hit means the block was brought in", on every trace: it fails for a hit exactly when the tag
      is 0 and every earlier request to the line had tag 0. */
  lemma {:induction false} HonestHitIff(trace: seq<Request>, q: Request)
    requires forall k :: 0 <= k < |trace| ==> trace[k].l1Index < L1_LINES
    requires q.l1Index < L1_LINES && (IsData(q.op) || q.op == 'i')
    requires !Misses(L1After(trace), q)
    ensures BroughtIn(MissStream(trace), q) <==> !(q.l1Tag == 0 && OnlyTagZero(trace, q))
    decreases |trace|
  {
    if trace == [] {
      L1HitIff(trace, q);
    } else {
      var front, p := trace[..|trace| - 1], trace[|trace| - 1];
      assert front + [p] == trace;
      MissStreamAppend(front, p);
      HitBehind(front, p, q);
      BroughtInAppend(MissStream(front), p, q);
      OnlyTagZeroAppend(front, p, q);
      if Misses(L1After(front), q) {
        ZeroLineHits(front, q);
      } else {
        HonestHitIff(front, q);
        assert MissStream(front) + [] == MissStream(front);
      }
    }
  }
}
