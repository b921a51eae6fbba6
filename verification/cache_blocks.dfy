// What the split requests are, and hits and misses of address traces in terms of blocks.
module CacheBlocks {
  import opened Basics
  import opened CacheAddress
  import opened LruSet
  import opened CacheModel
  import opened CacheSim

  // ---- The split -------------------------------------------------------------------

  /** The number of the block an address lies in: everything above the offset. */
  function Block(g: Geometry, a: Addr): nat {
    DivWithin(a, Pow2(g.offsetBits));
    a / Pow2(g.offsetBits)
  }

  /** The L2 set of an address: the low digits of its block number. */
  function SetOf(g: Geometry, a: Addr): nat { Block(g, a) % Pow2(g.indexBits) }

  /** A request carries the operation, and tag and index of its block at both levels. */
  lemma SplitMeaning(g: Geometry, a: Access)
    requires g.Valid()
    ensures var q := Split(g, a);
      && q.op == a.op
      && 0 <= q.l2Tag && q.l2Tag * Pow2(g.indexBits) + q.l2Index == Block(g, a.addr) && q.l2Index < Pow2(g.indexBits)
      && q.l1Tag * 256 + q.l1Index == a.addr / 64 && q.l1Index < 256
  {
    Powers();
    assert Pow2(6) == 64;
    SplitIsDivMod(g, a.addr);
    SplitIsDivMod(L1_GEOMETRY, a.addr);
    DividesBack(Block(g, a.addr), Pow2(g.indexBits));
    DividesBack(a.addr / 64, 256);
  }

  lemma DividesBack(b: nat, n: nat)
    requires n >= 1
    ensures (b / n) * n + b % n == b && b % n < n
  {
  }

  /** Two numbers with the same remainder are equal iff their quotients are. */
  lemma QuotientDecides(t: int, u: int, n: nat, i: nat)
    requires n >= 1
    ensures t * n + i == u * n + i <==> t == u
  {
    if t * n == u * n {
      assert (t - u) * n == 0;
      SmallMultiple(t - u, n);
    }
  }

  // ---- L1 ----------------------------------------------------------------------------

  /** The latest earlier access to the same L1 cache and line, -1 if there is none. */
  function LatestOn(trace: seq<Access>, a: Access): (k: int)
    ensures -1 <= k < |trace|
    ensures k != -1 ==> SharesLine(trace[k], a)
    ensures forall j :: k < j < |trace| ==> !SharesLine(trace[j], a)
  {
    if trace == [] then -1
    else if SharesLine(trace[|trace| - 1], a) then |trace| - 1
    else LatestOn(trace[..|trace| - 1], a)
  }

  /** An access misses L1 iff the latest access to its line was to another 64-byte block, or the
      line was never used and the address is not below 2^14. */
  ghost predicate MissesL1(trace: seq<Access>, a: Access) {
    var k := LatestOn(trace, a);
    && (a.op == 'r' || a.op == 'w' || a.op == 'i')
    && if k == -1 then a.addr >= 0x4000 else trace[k].addr / 64 != a.addr / 64
  }

  lemma SameLineShares(g: Geometry, a: Access, b: Access)
    requires g.Valid()
    ensures SameLine(Split(g, a), Split(g, b)) <==> SharesLine(a, b)
    ensures SharesLine(a, b) ==> (Split(g, a).l1Tag == Split(g, b).l1Tag <==> a.addr / 64 == b.addr / 64)
  {
    SplitMeaning(g, a);
    SplitMeaning(g, b);
    SmallTag(a.addr);
    SmallTag(b.addr);
  }

  lemma LatestIsOn(g: Geometry, trace: seq<Access>, a: Access)
    requires g.Valid()
    ensures Latest(SplitAll(g, trace), Split(g, a)) == LatestOn(trace, a)
  {
    var qs, q := SplitAll(g, trace), Split(g, a);
    forall k: nat | k < |trace|
      ensures SameLine(qs[k], q) <==> SharesLine(trace[k], a)
    {
      SameLineShares(g, trace[k], a);
    }
    var k, k' := Latest(qs, q), LatestOn(trace, a);
    if k != -1 { assert SameLine(qs[k], q); }
    if k' != -1 { assert SameLine(qs[k'], q); }
  }

  /** On every trace of addresses the L1 test misses exactly then. */
  lemma MissesL1Iff(g: Geometry, trace: seq<Access>, a: Access)
    requires g.Valid()
    ensures Misses(L1After(SplitAll(g, trace)), Split(g, a)) <==> MissesL1(trace, a)
  {
    var qs, q := SplitAll(g, trace), Split(g, a);
    SplitMeaning(g, a);
    if IsData(a.op) || a.op == 'i' {
      L1HitIff(qs, q);
      LatestIsOn(g, trace, a);
      SmallTag(a.addr);
      var k := LatestOn(trace, a);
      if k != -1 {
        SameLineShares(g, trace[k], a);
      }
    }
  }

  // ---- L2 ----------------------------------------------------------------------------

  /** The blocks of one set that missed L1, in order. */
  ghost function SentBlocks(g: Geometry, trace: seq<Access>, index: nat): seq<int> {
    if trace == [] then []
    else
      var front, a := trace[..|trace| - 1], trace[|trace| - 1];
      SentBlocks(g, front, index) +
      (if MissesL1(front, a) && SetOf(g, a.addr) == index then [Block(g, a.addr)] else [])
  }

  /** The blocks that tags of a set stand for. */
  function BlocksOf(tags: seq<int>, n: nat, index: nat): seq<int> {
    seq(|tags|, k requires 0 <= k < |tags| => tags[k] * n + index)
  }

  lemma RemainderIs(t: nat, n: nat, i: nat)
    requires i < n
    ensures (t * n + i) % n == i
  {
    DivisionUnique(t * n + i, n, t, i);
  }

  lemma InSet(g: Geometry, a: Access)
    requires g.Valid()
    ensures SetOf(g, a.addr) == Split(g, a).l2Index
  {
    SplitMeaning(g, a);
    RemainderIs(Split(g, a).l2Tag, Pow2(g.indexBits), Split(g, a).l2Index);
  }

  lemma OneMoreBlock(tags: seq<int>, blocks: seq<int>, n: nat, index: nat, sent: bool, t: int, b: int)
    requires blocks == BlocksOf(tags, n, index) && (sent ==> b == t * n + index)
    ensures blocks + (if sent then [b] else []) == BlocksOf(tags + (if sent then [t] else []), n, index)
  {
  }

  /** The tags of one set that one more request sends to L2. */
  lemma TagsSentBy(front: seq<Request>, q: Request, index: nat)
    requires forall k :: 0 <= k < |front| ==> front[k].l1Index < L1_LINES
    requires q.l1Index < L1_LINES
    ensures forall k :: 0 <= k < |front + [q]| ==> (front + [q])[k].l1Index < L1_LINES
    ensures TagsOf(MissStream(front + [q]), index) == TagsOf(MissStream(front), index) +
      (if Misses(L1After(front), q) && q.l2Index == index then [q.l2Tag] else [])
  {
    MissStreamAppend(front, q);
    if Misses(L1After(front), q) {
      TagsOfAppend(MissStream(front), q, index);
    } else {
      assert MissStream(front) + [] == MissStream(front);
    }
  }

  lemma TagsSent(g: Geometry, front: seq<Access>, a: Access, index: nat)
    requires g.Valid()
    ensures TagsOf(MissStream(SplitAll(g, front + [a])), index) == TagsOf(MissStream(SplitAll(g, front)), index) +
      (if MissesL1(front, a) && Split(g, a).l2Index == index then [Split(g, a).l2Tag] else [])
  {
    assert SplitAll(g, front + [a]) == SplitAll(g, front) + [Split(g, a)];
    MissesL1Iff(g, front, a);
    TagsSentBy(SplitAll(g, front), Split(g, a), index);
  }

  lemma BlocksSent(g: Geometry, front: seq<Access>, a: Access, index: nat)
    ensures SentBlocks(g, front + [a], index) == SentBlocks(g, front, index) +
      (if MissesL1(front, a) && SetOf(g, a.addr) == index then [Block(g, a.addr)] else [])
  {
    assert (front + [a])[..|front|] == front;
  }

  lemma SentNext(g: Geometry, front: seq<Access>, a: Access, index: nat, n: nat)
    requires g.Valid() && n == Pow2(g.indexBits)
    requires SentBlocks(g, front, index) == BlocksOf(TagsOf(MissStream(SplitAll(g, front)), index), n, index)
    ensures SentBlocks(g, front + [a], index) == BlocksOf(TagsOf(MissStream(SplitAll(g, front + [a])), index), n, index)
  {
    InSet(g, a);
    SplitMeaning(g, a);
    TagsSent(g, front, a, index);
    BlocksSent(g, front, a, index);
    OneMoreBlock(TagsOf(MissStream(SplitAll(g, front)), index), SentBlocks(g, front, index), n, index,
                 MissesL1(front, a) && SetOf(g, a.addr) == index, Split(g, a).l2Tag, Block(g, a.addr));
  }

  lemma {:induction false} SentAreBlocks(g: Geometry, trace: seq<Access>, index: nat, n: nat)
    requires g.Valid() && n == Pow2(g.indexBits)
    ensures SentBlocks(g, trace, index) == BlocksOf(TagsOf(MissStream(SplitAll(g, trace)), index), n, index)
    decreases |trace|
  {
    if trace != [] {
      var front, a := trace[..|trace| - 1], trace[|trace| - 1];
      assert front + [a] == trace;
      SentAreBlocks(g, front, index, n);
      SentNext(g, front, a, index, n);
    }
  }

  lemma {:induction false} WithoutBlocks(tags: seq<int>, t: int, n: nat, index: nat)
    requires n >= 1
    ensures Without(BlocksOf(tags, n, index), t * n + index) == BlocksOf(Without(tags, t), n, index)
  {
    if tags != [] {
      assert BlocksOf(tags, n, index)[1..] == BlocksOf(tags[1..], n, index);
      WithoutBlocks(tags[1..], t, n, index);
      QuotientDecides(tags[0], t, n, index);
    }
  }

  lemma {:induction false} RecencyOfBlocks(tags: seq<int>, n: nat, index: nat)
    requires n >= 1
    ensures Recency(BlocksOf(tags, n, index)) == BlocksOf(Recency(tags), n, index)
  {
    if tags != [] {
      var front := tags[..|tags| - 1];
      assert BlocksOf(tags, n, index)[..|tags| - 1] == BlocksOf(front, n, index);
      RecencyOfBlocks(front, n, index);
      WithoutBlocks(Recency(front), tags[|tags| - 1], n, index);
    }
  }

  lemma AmongBlocks(tags: seq<int>, t: int, n: nat, index: nat)
    requires n >= 1
    ensures t in tags <==> t * n + index in BlocksOf(tags, n, index)
  {
    var bs := BlocksOf(tags, n, index);
    if t in tags {
      var k: nat :| k < |tags| && tags[k] == t;
      assert bs[k] == t * n + index;
    }
    if t * n + index in bs {
      var k: nat :| k < |bs| && bs[k] == t * n + index;
      QuotientDecides(tags[k], t, n, index);
    }
  }

  lemma RecentBlock(tags: seq<int>, blocks: seq<int>, t: int, b: int, n: nat, index: nat, ways: nat)
    requires n >= 1 && blocks == BlocksOf(tags, n, index) && b == t * n + index
    ensures t in Take(Recency(tags), ways) <==> b in Take(Recency(blocks), ways)
  {
    var r := Recency(tags);
    RecencyOfBlocks(tags, n, index);
    AmongBlocks(Take(r, ways), t, n, index);
    assert Take(BlocksOf(r, n, index), ways) == BlocksOf(Take(r, ways), n, index);
  }

  lemma FindsTagIff(sets: nat, ways: nat, trace: seq<Request>, q: Request)
    requires 1 <= ways <= SLOTS && TraceInRange(trace, sets) && InRange(q, sets)
    ensures var s := Run(sets, ways, trace).l2[q.l2Index];
      s.Shape() && (FindTag(s, q.l2Tag, 0) != -1 <==> q.l2Tag in Take(Recency(TagsOf(MissStream(trace), q.l2Index)), ways))
  {
    NextAccessAfterTrace(sets, ways, trace, q);
  }

  /** Among the tags sent iff among the blocks sent. */
  lemma TagIsBlock(g: Geometry, trace: seq<Access>, a: Access)
    requires g.Valid()
    ensures Split(g, a).l2Tag in Take(Recency(TagsOf(MissStream(SplitAll(g, trace)), Split(g, a).l2Index)), g.ways)
       <==> Block(g, a.addr) in Take(Recency(SentBlocks(g, trace, SetOf(g, a.addr))), g.ways)
  {
    var q, n := Split(g, a), Pow2(g.indexBits);
    SplitMeaning(g, a);
    InSet(g, a);
    SentAreBlocks(g, trace, q.l2Index, n);
    RecentBlock(TagsOf(MissStream(SplitAll(g, trace)), q.l2Index), SentBlocks(g, trace, q.l2Index),
                q.l2Tag, Block(g, a.addr), n, q.l2Index, g.ways);
  }

  /** After any trace of addresses, in every geometry: the L2 lookup for an address finds its block
      iff that block is among the `ways` distinct blocks of its set that missed L1 most recently. */
  lemma FindsBlockIff(g: Geometry, trace: seq<Access>, a: Access)
    requires g.Valid() && g.ways <= SLOTS
    ensures var q := Split(g, a);
      var s := Run(g.sets, g.ways, SplitAll(g, trace)).l2[q.l2Index];
      var recent := Take(Recency(SentBlocks(g, trace, SetOf(g, a.addr))), g.ways);
      s.Shape() && (FindTag(s, q.l2Tag, 0) != -1 <==> Block(g, a.addr) in recent)
  {
    FindsTagIff(g.sets, g.ways, SplitAll(g, trace), Split(g, a));
    TagIsBlock(g, trace, a);
  }
}
