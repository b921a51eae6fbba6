// One set of the L2 cache: 128 slots with a counter-encoded LRU order, and the
// recency list that the counters stand for.
module LruSet {

  const SLOTS: nat := 128
  /** -1 stored in an unsigned 64-bit tag; no address of a valid geometry has it. */
  const NO_TAG: int := 0xFFFF_FFFF_FFFF_FFFF

  /** `l2_cache_struct`: four parallel arrays, copied by value. */
  datatype L2Set = L2Set(tag: seq<int>, valid: seq<int>, dirty: seq<int>, lru: seq<int>) {
    ghost predicate Shape() {
      |tag| == SLOTS && |valid| == SLOTS && |dirty| == SLOTS && |lru| == SLOTS
    }
  }

  function InitSet(ways: nat): L2Set
    requires 1 <= ways <= SLOTS
  {
    L2Set(seq(SLOTS, j => if j < ways then 0 else NO_TAG),
          seq(SLOTS, j => if j < ways then 0 else -1),
          seq(SLOTS, j => if j < ways then 0 else -1),
          seq(SLOTS, j => if j < ways then j else -1))
  }

  // ---- The searches ----------------------------------------------------------

  predicate Holds(s: L2Set, j: nat, tag: int)
    requires s.Shape() && j < SLOTS
  {
    s.tag[j] != NO_TAG && s.valid[j] != 0 && s.tag[j] == tag
  }

  /** The first slot from j on that holds the tag, or -1. */
  function FindTag(s: L2Set, tag: int, j: nat): (b: int)
    requires s.Shape() && j <= SLOTS
    ensures b == -1 || j <= b < SLOTS
    ensures b == -1 ==> forall i: nat :: j <= i < SLOTS ==> !Holds(s, i, tag)
    ensures b != -1 ==> Holds(s, b, tag) && forall i: nat :: j <= i < b ==> !Holds(s, i, tag)
    decreases SLOTS - j
  {
    if j == SLOTS then -1
    else if Holds(s, j, tag) then j
    else FindTag(s, tag, j + 1)
  }

  /** The first slot from j on whose counter is 0, or -1. */
  function FindLru(s: L2Set, j: nat): (b: int)
    requires s.Shape() && j <= SLOTS
    ensures b == -1 || j <= b < SLOTS
    ensures b == -1 ==> forall i: nat :: j <= i < SLOTS ==> s.lru[i] != 0
    ensures b != -1 ==> s.lru[b] == 0 && forall i: nat :: j <= i < b ==> s.lru[i] != 0
    decreases SLOTS - j
  {
    if j == SLOTS then -1
    else if s.lru[j] == 0 then j
    else FindLru(s, j + 1)
  }

  // ---- One access ------------------------------------------------------------

  datatype Outcome = Outcome(set_: L2Set, hit: bool, writeback: bool)

  /** Counters above the chosen one step down; the chosen one becomes the top. */
  function Touch(lru: seq<int>, b: nat, ways: nat): seq<int>
    requires |lru| == SLOTS && b < SLOTS
  {
    seq(SLOTS, j requires 0 <= j < SLOTS =>
      if j == b then ways - 1
      else if lru[j] != -1 && lru[j] > lru[b] then lru[j] - 1
      else lru[j])
  }

  /** One access: a hit touches the slot, a miss refills the least recently used one. Some slot
      must come out of the two searches, or the source would index with -1. */
  function Access(s: L2Set, ways: nat, tag: int, write: bool): (r: Outcome)
    requires s.Shape() && (FindTag(s, tag, 0) != -1 || FindLru(s, 0) != -1)
    ensures r.set_.Shape()
  {
    var found := FindTag(s, tag, 0);
    if found != -1 then
      var dirty := if write then s.dirty[found := 1] else s.dirty;
      Outcome(s.(dirty := dirty, lru := Touch(s.lru, found, ways)), true, false)
    else
      var b := FindLru(s, 0);
      var writeback := s.dirty[b] == 1;
      var clean := if writeback then s.dirty[b := 0] else s.dirty;
      Outcome(L2Set(s.tag[b := tag], s.valid[b := 1], if write then clean[b := 1] else clean,
                    Touch(s.lru, b, ways)),
              false, writeback)
  }

  // ---- The recency list ------------------------------------------------------

  function Without<T(==)>(r: seq<T>, t: T): seq<T> {
    if r == [] then [] else (if r[0] == t then [] else [r[0]]) + Without(r[1..], t)
  }

  function MoveToFront<T(==)>(r: seq<T>, t: T): seq<T> {
    [t] + Without(r, t)
  }

  /** The distinct tags of a trace, most recent first. */
  function Recency<T(==)>(ts: seq<T>): seq<T> {
    if ts == [] then [] else MoveToFront(Recency(ts[..|ts| - 1]), ts[|ts| - 1])
  }

  ghost predicate Distinct<T>(r: seq<T>) {
    forall i, j :: 0 <= i < j < |r| ==> r[i] != r[j]
  }

  lemma {:induction false} WithoutAbsent<T>(r: seq<T>, t: T)
    requires t !in r
    ensures Without(r, t) == r
  {
    if r != [] {
      WithoutAbsent(r[1..], t);
    }
  }

  /** Removing from a duplicate-free list closes the gap at the one position. */
  lemma {:induction false} WithoutAt<T>(r: seq<T>, t: T, p: nat)
    requires Distinct(r) && p < |r| && r[p] == t
    ensures Without(r, t) == r[..p] + r[p + 1..]
  {
    if p == 0 {
      WithoutAbsent(r[1..], t);
    } else {
      WithoutAt(r[1..], t, p - 1);
      assert r[..p] == [r[0]] + r[1..][..p - 1];
      assert r[1..][p - 1 + 1..] == r[p + 1..];
    }
  }

  /** Moving the element at position p to the front, position by position. */
  lemma MovedFrom<T>(r: seq<T>, p: nat)
    requires Distinct(r) && p < |r|
    ensures MoveToFront(r, r[p]) == [r[p]] + r[..p] + r[p + 1..]
    ensures forall k :: 1 <= k < |r| ==> MoveToFront(r, r[p])[k] == if k <= p then r[k - 1] else r[k]
  {
    WithoutAt(r, r[p], p);
  }

  lemma MovedMembers<T>(r: seq<T>, t: T)
    requires Distinct(r)
    ensures Distinct(MoveToFront(r, t))
    ensures forall u :: u in MoveToFront(r, t) <==> u == t || u in r
  {
    if t in r {
      var p :| 0 <= p < |r| && r[p] == t;
      WithoutAt(r, t, p);
      assert r == r[..p] + [t] + r[p + 1..];
      forall u ensures u in MoveToFront(r, t) <==> u == t || u in r {
        assert u in MoveToFront(r, t) <==> u == t || u in r[..p] || u in r[p + 1..];
      }
    } else {
      WithoutAbsent(r, t);
    }
  }

  lemma {:induction false} RecencyDistinct<T>(ts: seq<T>)
    ensures Distinct(Recency(ts))
    ensures forall t :: t in Recency(ts) <==> t in ts
  {
    if ts != [] {
      var front, last := ts[..|ts| - 1], ts[|ts| - 1];
      RecencyDistinct(front);
      MovedMembers(Recency(front), last);
      assert ts == front + [last];
    }
  }

  lemma RecencyMember<T>(ts: seq<T>, t: T)
    ensures t in Recency(ts) <==> t in ts
  {
    RecencyDistinct(ts);
  }

  /** Where a tag stands in the list after one more access: the reference for "recent". */
  function LastUse<T(==)>(ts: seq<T>, t: T): (k: int)
    ensures -1 <= k < |ts|
    ensures k == -1 <==> t !in ts
    ensures k != -1 ==> ts[k] == t && t !in ts[k + 1..]
  {
    if ts == [] then -1
    else if ts[|ts| - 1] == t then |ts| - 1
    else
      var k := LastUse(ts[..|ts| - 1], t);
      assert ts == ts[..|ts| - 1] + [ts[|ts| - 1]];
      assert k != -1 ==> ts[k + 1..] == ts[..|ts| - 1][k + 1..] + [ts[|ts| - 1]];
      k
  }

  /** Behind the front, the moved list keeps the old elements in their old order. */
  function OldPosition<T(==)>(r: seq<T>, t: T, k: nat): nat
    requires k >= 1
  {
    if t in r[..if k <= |r| then k else |r|] then k else k - 1
  }

  lemma MovedKeepsOrder<T>(r: seq<T>, t: T, k: nat)
    requires Distinct(r) && 1 <= k < |MoveToFront(r, t)|
    ensures OldPosition(r, t, k) < |r|
    ensures r[OldPosition(r, t, k)] == MoveToFront(r, t)[k] != t
  {
    if t in r {
      var p :| 0 <= p < |r| && r[p] == t;
      MovedFrom(r, p);
      assert p < k ==> r[..k][p] == t;
    } else {
      WithoutAbsent(r, t);
    }
  }

  /** The recency list is sorted by last use, latest first. */
  lemma {:induction false} RecencyByLastUse<T>(ts: seq<T>, i: nat, j: nat)
    requires i < j < |Recency(ts)|
    ensures LastUse(ts, Recency(ts)[i]) > LastUse(ts, Recency(ts)[j]) >= 0
  {
    var front, last := ts[..|ts| - 1], ts[|ts| - 1];
    var r := Recency(front);
    RecencyDistinct(front);
    MovedKeepsOrder(r, last, j);
    var j' := OldPosition(r, last, j);
    if i == 0 {
      RecencyMember(front, r[j']);
    } else {
      MovedKeepsOrder(r, last, i);
      RecencyByLastUse(front, OldPosition(r, last, i), j');
    }
  }

  // ---- The refinement --------------------------------------------------------

  /** A way in use: counter ways-1-k means the tag at position k of the list. */
  ghost predicate WayAgrees(tag: int, valid: int, dirty: int, lru: int, ways: nat, r: seq<int>) {
    && 0 <= lru < ways
    && (var k := ways - 1 - lru;
        if k < |r| then valid == 1 && tag == r[k] && (dirty == 0 || dirty == 1)
        else valid == 0 && dirty == 0 && tag == 0)
  }

  ghost predicate SlotAgrees(s: L2Set, ways: nat, r: seq<int>, j: nat)
    requires s.Shape() && j < SLOTS
  {
    if j < ways then
      WayAgrees(s.tag[j], s.valid[j], s.dirty[j], s.lru[j], ways, r)
    else
      s.tag[j] == NO_TAG && s.valid[j] == -1 && s.dirty[j] == -1 && s.lru[j] == -1
  }

  ghost predicate HasCounter(s: L2Set, ways: nat, c: nat)
    requires s.Shape() && ways <= SLOTS
  {
    exists j: nat :: j < ways && s.lru[j] == c
  }

  /** The counters of the ways in use are a permutation of 0..ways-1. */
  ghost predicate CountersPermute(s: L2Set, ways: nat)
    requires s.Shape() && ways <= SLOTS
  {
    && (forall i: nat, j: nat :: i < j < ways ==> s.lru[i] != s.lru[j])
    && (forall c: nat :: c < ways ==> HasCounter(s, ways, c))
  }

  /** Slots fill in order: those without a block are the last ones, next to be chosen first. */
  ghost predicate FreeInOrder(s: L2Set, ways: nat, used: nat)
    requires s.Shape() && ways <= SLOTS
  {
    forall j: nat :: used <= j < ways ==> s.lru[j] == j - used
  }

  ghost predicate Refines(s: L2Set, ways: nat, r: seq<int>) {
    && 1 <= ways <= SLOTS
    && s.Shape()
    && Distinct(r) && NO_TAG !in r
    && (forall j: nat :: j < SLOTS ==> SlotAgrees(s, ways, r, j))
    && CountersPermute(s, ways) && FreeInOrder(s, ways, |r|)
  }

  function Take<T>(r: seq<T>, n: nat): seq<T> {
    if n <= |r| then r[..n] else r
  }

  lemma InitRefines(ways: nat)
    requires 1 <= ways <= SLOTS
    ensures Refines(InitSet(ways), ways, [])
  {
    var s := InitSet(ways);
    forall c: nat | c < ways
      ensures HasCounter(s, ways, c)
    {
      assert s.lru[c] == c;
    }
  }

  /** A hit is exactly a tag among the `ways` most recent. */
  lemma HitIff(s: L2Set, ways: nat, r: seq<int>, tag: int)
    requires Refines(s, ways, r)
    ensures FindTag(s, tag, 0) != -1 <==> tag in Take(r, ways)
    ensures FindTag(s, tag, 0) != -1 ==>
      var k := ways - 1 - s.lru[FindTag(s, tag, 0)];
      0 <= k < |r| && FindTag(s, tag, 0) < ways && r[k] == tag
  {
    var b := FindTag(s, tag, 0);
    if b != -1 {
      assert Holds(s, b, tag);
      assert SlotAgrees(s, ways, r, b);
      assert r[ways - 1 - s.lru[b]] == tag;
      assert Take(r, ways)[ways - 1 - s.lru[b]] == tag;
    }
    if tag in Take(r, ways) {
      var k: nat :| k < |Take(r, ways)| && Take(r, ways)[k] == tag;
      var c: nat := ways - 1 - k;
      assert HasCounter(s, ways, c);
      var j: nat :| j < ways && s.lru[j] == c;
      assert SlotAgrees(s, ways, r, j);
      assert Holds(s, j, tag);
    }
  }

  /** On a miss the chosen slot is a way in use; the block it held is the oldest. */
  lemma VictimIsOldest(s: L2Set, ways: nat, r: seq<int>)
    requires Refines(s, ways, r)
    ensures 0 <= FindLru(s, 0) < ways
    ensures s.lru[FindLru(s, 0)] == 0
    ensures s.valid[FindLru(s, 0)] == 1 <==> |r| >= ways
    ensures |r| >= ways ==> s.tag[FindLru(s, 0)] == r[ways - 1]
    ensures |r| < ways ==> FindLru(s, 0) == |r|
  {
    var c: nat := 0;
    assert HasCounter(s, ways, c);
    var j: nat :| j < ways && s.lru[j] == c;
    var b := FindLru(s, 0);
    assert SlotAgrees(s, ways, r, b);
    if |r| < ways {
      DifferentCounters(s, ways, b, |r|);
    }
  }

  lemma TouchPermutes(s: L2Set, ways: nat, b: nat, s': L2Set)
    requires s.Shape() && s'.Shape() && ways <= SLOTS && b < ways
    requires forall j: nat :: j < ways ==> 0 <= s.lru[j] < ways
    requires CountersPermute(s, ways)
    requires s'.lru == Touch(s.lru, b, ways)
    ensures CountersPermute(s', ways)
  {
    forall c: nat | c < ways
      ensures HasCounter(s', ways, c)
    {
      if c == ways - 1 {
        assert s'.lru[b] == c;
      } else {
        var c': nat := if c < s.lru[b] then c else c + 1;
        assert HasCounter(s, ways, c');
        var j: nat :| j < ways && s.lru[j] == c';
        assert s'.lru[j] == c;
      }
    }
    forall i: nat, j: nat | i < j < ways
      ensures s'.lru[i] != s'.lru[j]
    {
      assert s.lru[i] != s.lru[j];
    }
  }

  lemma FreeAfterHit(s: L2Set, ways: nat, used: nat, b: nat, s': L2Set)
    requires s.Shape() && s'.Shape() && b < ways <= SLOTS && s'.lru == Touch(s.lru, b, ways)
    requires FreeInOrder(s, ways, used) && ways - used <= s.lru[b]
    ensures FreeInOrder(s', ways, used)
  {
  }

  lemma FreeAfterMiss(s: L2Set, ways: nat, used: nat, b: nat, s': L2Set)
    requires s.Shape() && s'.Shape() && b < ways <= SLOTS && s'.lru == Touch(s.lru, b, ways)
    requires FreeInOrder(s, ways, used) && s.lru[b] == 0 && (used < ways ==> b == used)
    ensures FreeInOrder(s', ways, used + 1)
  {
  }

  /** How many tags the list has once t is moved to the front. */
  lemma MovedLength<T>(r: seq<T>, t: T)
    requires Distinct(r)
    ensures |MoveToFront(r, t)| == if t in r then |r| else |r| + 1
  {
    if t in r {
      var p :| 0 <= p < |r| && r[p] == t;
      WithoutAt(r, t, p);
    } else {
      WithoutAbsent(r, t);
    }
  }

  /** A hit leaves the free slots alone; a miss takes the first of them. */
  lemma FreeAfterAccess(s: L2Set, ways: nat, r: seq<int>, tag: int, b: nat, s': L2Set)
    requires Refines(s, ways, r) && s'.Shape() && b < ways && s'.lru == Touch(s.lru, b, ways)
    requires if FindTag(s, tag, 0) != -1 then b == FindTag(s, tag, 0) else b == FindLru(s, 0)
    ensures FreeInOrder(s', ways, |MoveToFront(r, tag)|)
  {
    HitIff(s, ways, r, tag);
    VictimIsOldest(s, ways, r);
    MovedLength(r, tag);
    if FindTag(s, tag, 0) != -1 {
      FreeAfterHit(s, ways, |r|, b, s');
    } else {
      FreeAfterMiss(s, ways, |r|, b, s');
    }
  }

  /** One access moves its tag to the front of the list. */
  lemma AccessRefines(s: L2Set, ways: nat, r: seq<int>, tag: int, write: bool)
    requires Refines(s, ways, r) && tag != NO_TAG
    ensures FindTag(s, tag, 0) != -1 || FindLru(s, 0) != -1
    ensures Refines(Access(s, ways, tag, write).set_, ways, MoveToFront(r, tag))
    ensures Access(s, ways, tag, write).hit <==> tag in Take(r, ways)
  {
    HitIff(s, ways, r, tag);
    VictimIsOldest(s, ways, r);
    var s' := Access(s, ways, tag, write).set_;
    var r' := MoveToFront(r, tag);
    var found := FindTag(s, tag, 0);
    var b: nat := if found != -1 then found else FindLru(s, 0);
    assert SlotAgrees(s, ways, r, b);
    forall j: nat | j < ways ensures 0 <= s.lru[j] < ways {
      assert SlotAgrees(s, ways, r, j);
    }
    TouchPermutes(s, ways, b, s');
    FreeAfterAccess(s, ways, r, tag, b, s');
    MovedMembers(r, tag);
    forall j: nat | j < SLOTS
      ensures SlotAgrees(s', ways, r', j)
    {
      if found != -1 {
        HitSlot(s, ways, r, tag, write, b, j);
      } else {
        MissSlot(s, ways, r, tag, write, b, j);
      }
    }
  }

  /** A tag at position p moves to the front; a way at another position shifts by one. */
  lemma WayAfterHit(tag: int, valid: int, dirty: int, lru: int, ways: nat, r: seq<int>, p: nat)
    requires WayAgrees(tag, valid, dirty, lru, ways, r)
    requires Distinct(r) && p < |r| && p < ways && lru != ways - 1 - p
    ensures WayAgrees(tag, valid, dirty, if lru > ways - 1 - p then lru - 1 else lru, ways, MoveToFront(r, r[p]))
  {
    MovedFrom(r, p);
  }

  /** On a miss every other way steps down, whether the tag is new or long gone. */
  lemma WayAfterMiss(tag: int, valid: int, dirty: int, lru: int, ways: nat, r: seq<int>, t: int)
    requires WayAgrees(tag, valid, dirty, lru, ways, r)
    requires Distinct(r) && t !in Take(r, ways) && lru != 0
    ensures WayAgrees(tag, valid, dirty, lru - 1, ways, MoveToFront(r, t))
  {
    if t in r {
      var p :| 0 <= p < |r| && r[p] == t;
      MovedFrom(r, p);
      assert t in r[..p + 1];
    } else {
      WithoutAbsent(r, t);
    }
  }

  lemma HitSlot(s: L2Set, ways: nat, r: seq<int>, tag: int, write: bool, b: nat, j: nat)
    requires Refines(s, ways, r) && j < SLOTS && b < ways
    requires FindTag(s, tag, 0) == b
    ensures SlotAgrees(Access(s, ways, tag, write).set_, ways, MoveToFront(r, tag), j)
  {
    assert SlotAgrees(s, ways, r, j) && SlotAgrees(s, ways, r, b);
    assert Holds(s, b, tag);
    var p := ways - 1 - s.lru[b];
    if j == b {
    } else if j < ways {
      DifferentCounters(s, ways, j, b);
      WayAfterHit(s.tag[j], s.valid[j], s.dirty[j], s.lru[j], ways, r, p);
    }
  }

  lemma MissSlot(s: L2Set, ways: nat, r: seq<int>, tag: int, write: bool, b: nat, j: nat)
    requires Refines(s, ways, r) && j < SLOTS && b < ways
    requires FindTag(s, tag, 0) == -1 && FindLru(s, 0) == b && s.lru[b] == 0
    requires tag !in Take(r, ways)
    ensures SlotAgrees(Access(s, ways, tag, write).set_, ways, MoveToFront(r, tag), j)
  {
    assert SlotAgrees(s, ways, r, j) && SlotAgrees(s, ways, r, b);
    if j == b {
    } else if j < ways {
      DifferentCounters(s, ways, j, b);
      WayAfterMiss(s.tag[j], s.valid[j], s.dirty[j], s.lru[j], ways, r, tag);
    }
  }

  lemma DifferentCounters(s: L2Set, ways: nat, i: nat, j: nat)
    requires s.Shape() && ways <= SLOTS && CountersPermute(s, ways)
    ensures i < ways && j < ways && i != j ==> s.lru[i] != s.lru[j]
  {
    if i < j < ways {
      assert s.lru[i] != s.lru[j];
    } else if j < i < ways {
      assert s.lru[j] != s.lru[i];
    }
  }

  // ---- The contents in recency order -----------------------------------------

  /** The tag of the valid slot whose counter is ways-1-k. */
  ghost predicate ResidentAt(s: L2Set, ways: nat, k: nat, tag: int)
    requires s.Shape() && ways <= SLOTS
  {
    exists j: nat :: j < ways && s.valid[j] == 1 && s.lru[j] == ways - 1 - k && s.tag[j] == tag
  }

  ghost predicate Resident(s: L2Set, ways: nat, tag: int)
    requires s.Shape() && ways <= SLOTS
  {
    exists j: nat :: j < ways && s.valid[j] == 1 && s.tag[j] == tag
  }

  /** Ordered by counter, the valid tags are the first `ways` of the recency list. */
  lemma ContentsAreRecent(s: L2Set, ways: nat, r: seq<int>, k: nat, tag: int)
    requires Refines(s, ways, r)
    ensures ResidentAt(s, ways, k, tag) <==> k < |Take(r, ways)| && Take(r, ways)[k] == tag
  {
    if k < |Take(r, ways)| && Take(r, ways)[k] == tag {
      var c: nat := ways - 1 - k;
      assert HasCounter(s, ways, c);
      var j: nat :| j < ways && s.lru[j] == c;
      assert SlotAgrees(s, ways, r, j);
      assert s.valid[j] == 1 && s.lru[j] == ways - 1 - k && s.tag[j] == tag;
    }
    if ResidentAt(s, ways, k, tag) {
      var j: nat :| j < ways && s.valid[j] == 1 && s.lru[j] == ways - 1 - k && s.tag[j] == tag;
      assert SlotAgrees(s, ways, r, j);
    }
  }

  lemma ResidentIff(s: L2Set, ways: nat, r: seq<int>, tag: int)
    requires Refines(s, ways, r)
    ensures Resident(s, ways, tag) <==> tag in Take(r, ways)
  {
    if tag in Take(r, ways) {
      HitIff(s, ways, r, tag);
      var b := FindTag(s, tag, 0);
      assert Holds(s, b, tag) && SlotAgrees(s, ways, r, b);
      assert b < ways && s.valid[b] == 1 && s.tag[b] == tag;
    }
    if Resident(s, ways, tag) {
      var j: nat :| j < ways && s.valid[j] == 1 && s.tag[j] == tag;
      assert SlotAgrees(s, ways, r, j);
      assert Take(r, ways)[ways - 1 - s.lru[j]] == tag;
    }
  }

  /** Mattson's stack inclusion: fewer ways hold a subset, hence hit less. */
  lemma StackInclusion(s: L2Set, w: nat, s': L2Set, w': nat, r: seq<int>, tag: int)
    requires Refines(s, w, r) && Refines(s', w', r) && w <= w'
    ensures Resident(s, w, tag) ==> Resident(s', w', tag)
    ensures FindTag(s, tag, 0) != -1 ==> FindTag(s', tag, 0) != -1
  {
    ResidentIff(s, w, r, tag);
    ResidentIff(s', w', r, tag);
    HitIff(s, w, r, tag);
    HitIff(s', w', r, tag);
    if tag in Take(r, w) {
      var k :| 0 <= k < |Take(r, w)| && Take(r, w)[k] == tag;
      assert Take(r, w')[k] == tag;
    }
  }

  // ---- Dirty lines -----------------------------------------------------------

  function CountOnes(d: seq<int>): nat {
    if d == [] then 0 else CountOnes(d[..|d| - 1]) + (if d[|d| - 1] == 1 then 1 else 0)
  }

  lemma {:induction false} CountUpdate(d: seq<int>, i: nat, v: int)
    requires i < |d|
    ensures CountOnes(d[i := v]) + (if d[i] == 1 then 1 else 0) == CountOnes(d) + (if v == 1 then 1 else 0)
  {
    var n := |d| - 1;
    if i == n {
      assert d[i := v][..n] == d[..n];
    } else {
      CountUpdate(d[..n], i, v);
      assert d[i := v][..n] == d[..n][i := v];
    }
  }

  /** An access turns at most one line dirty, only a write does, and an eviction pays. */
  lemma AccessDirty(s: L2Set, ways: nat, tag: int, write: bool)
    requires s.Shape() && (FindTag(s, tag, 0) != -1 || FindLru(s, 0) != -1)
    ensures var o := Access(s, ways, tag, write);
      CountOnes(o.set_.dirty) + (if o.writeback then 1 else 0)
        <= CountOnes(s.dirty) + (if write then 1 else 0)
  {
    var found := FindTag(s, tag, 0);
    if found != -1 {
      CountUpdate(s.dirty, found, 1);
    } else {
      var b := FindLru(s, 0);
      CountUpdate(s.dirty, b, 0);
      var clean := if s.dirty[b] == 1 then s.dirty[b := 0] else s.dirty;
      CountUpdate(clean, b, 1);
    }
  }

  /** What an access does to each dirty bit: a write dirties the slot that then holds its tag, a
      read keeps the bit of a slot it hits and clears that of one it refills; others keep theirs. */
  lemma DirtyAfterAccess(s: L2Set, ways: nat, r: seq<int>, tag: int, write: bool, j: nat)
    requires Refines(s, ways, r) && tag != NO_TAG && j < ways
    requires FindTag(s, tag, 0) != -1 || FindLru(s, 0) != -1
    ensures var s' := Access(s, ways, tag, write).set_;
      s'.valid[j] == 1 ==>
        (s'.dirty[j] == 1 <==>
          if s'.tag[j] == tag then write || (Holds(s, j, tag) && s.dirty[j] == 1)
          else s.tag[j] == s'.tag[j] && s.valid[j] == 1 && s.dirty[j] == 1)
  {
    var found := FindTag(s, tag, 0);
    assert SlotAgrees(s, ways, r, j);
    if found != -1 {
      HitIff(s, ways, r, tag);
      assert Holds(s, found, tag) && SlotAgrees(s, ways, r, found);
      assert s.valid[j] == 1 && s.tag[j] == tag ==> j == found by {
        if s.valid[j] == 1 && s.tag[j] == tag { SameTagSameSlot(s, ways, r, j, found); }
      }
    }
  }

  lemma SameTagSameSlot(s: L2Set, ways: nat, r: seq<int>, i: nat, j: nat)
    requires Refines(s, ways, r) && i < ways && j < ways
    requires s.valid[i] == 1 && s.valid[j] == 1 && s.tag[i] == s.tag[j]
    ensures i == j
  {
    assert SlotAgrees(s, ways, r, i) && SlotAgrees(s, ways, r, j);
    DifferentCounters(s, ways, i, j);
  }

  /** A miss writes back iff the set is full and the oldest block, which it evicts, is dirty. */
  lemma WritesBackIff(s: L2Set, ways: nat, r: seq<int>, tag: int, write: bool)
    requires Refines(s, ways, r) && (FindTag(s, tag, 0) != -1 || FindLru(s, 0) != -1)
    ensures FindLru(s, 0) != -1
    ensures Access(s, ways, tag, write).writeback <==>
      tag !in Take(r, ways) && |r| >= ways && s.dirty[FindLru(s, 0)] == 1
    ensures |r| >= ways ==> s.valid[FindLru(s, 0)] == 1 && s.tag[FindLru(s, 0)] == r[ways - 1]
  {
    HitIff(s, ways, r, tag);
    VictimIsOldest(s, ways, r);
    assert SlotAgrees(s, ways, r, FindLru(s, 0));
  }
}
