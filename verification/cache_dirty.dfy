// Which blocks of the L2 cache are dirty, and when one is written back, on whole traces.
module CacheDirty {
  import opened LruSet
  import opened CacheModel

  // ---- On the stream of L2 requests ------------------------------------------------

  /** Request k of the stream finds its block among the most recent ones of its set. */
  ghost predicate HitsIn(stream: seq<Request>, ways: nat, k: nat) {
    k < |stream| && stream[k].l2Tag in Take(Recency(TagsOf(stream[..k], stream[k].l2Index)), ways)
  }

  ghost predicate ForBlock(q: Request, index: nat, tag: int) { q.l2Index == index && q.l2Tag == tag }

  /** Request j writes the block, and every later request for the block hits. */
  ghost predicate LastsFrom(stream: seq<Request>, ways: nat, index: nat, tag: int, j: nat) {
    && j < |stream| && ForBlock(stream[j], index, tag) && stream[j].op == 'w'
    && forall k: nat :: j < k < |stream| && ForBlock(stream[k], index, tag) ==> HitsIn(stream, ways, k)
  }

  /** A write to the block was sent to L2 since the block was last brought in. */
  ghost predicate Unsaved(stream: seq<Request>, ways: nat, index: nat, tag: int) {
    exists j: nat :: LastsFrom(stream, ways, index, tag, j)
  }

  lemma HitsInPrefix(stream: seq<Request>, q: Request, ways: nat, k: nat)
    requires k < |stream|
    ensures HitsIn(stream + [q], ways, k) <==> HitsIn(stream, ways, k)
  {
    assert (stream + [q])[..k] == stream[..k];
  }

  /** One more request: a write leaves its block unsaved; a read keeps it so if it hits. */
  lemma UnsavedAppend(stream: seq<Request>, q: Request, ways: nat, index: nat, tag: int)
    ensures Unsaved(stream + [q], ways, index, tag) <==>
      if ForBlock(q, index, tag) then
        q.op == 'w' || (Unsaved(stream, ways, index, tag) && HitsIn(stream + [q], ways, |stream|))
      else Unsaved(stream, ways, index, tag)
  {
    var all := stream + [q];
    assert all[|stream|] == q;
    forall j: nat | j < |stream|
      ensures LastsFrom(all, ways, index, tag, j) <==>
        LastsFrom(stream, ways, index, tag, j) && (ForBlock(q, index, tag) ==> HitsIn(all, ways, |stream|))
    {
      LastsFromAppend(stream, q, ways, index, tag, j);
    }
    assert LastsFrom(all, ways, index, tag, |stream|) <==> ForBlock(q, index, tag) && q.op == 'w';
  }

  lemma LastsFromAppend(stream: seq<Request>, q: Request, ways: nat, index: nat, tag: int, j: nat)
    requires j < |stream|
    ensures LastsFrom(stream + [q], ways, index, tag, j) <==>
      LastsFrom(stream, ways, index, tag, j) && (ForBlock(q, index, tag) ==> HitsIn(stream + [q], ways, |stream|))
  {
    var all := stream + [q];
    assert all[|stream|] == q;
    forall k: nat | k < |stream|
      ensures all[k] == stream[k] && (HitsIn(all, ways, k) <==> HitsIn(stream, ways, k))
    {
      HitsInPrefix(stream, q, ways, k);
    }
  }

  // ---- Dirty slots -----------------------------------------------------------------

  /** In this set the valid slots that are dirty are those of unsaved blocks. */
  ghost predicate DirtyIsUnsaved(s: L2Set, ways: nat, stream: seq<Request>, index: nat)
    requires s.Shape() && ways <= SLOTS
  {
    forall j: nat :: j < ways && s.valid[j] == 1 ==> (s.dirty[j] == 1 <==> Unsaved(stream, ways, index, s.tag[j]))
  }

  ghost predicate AllDirtyUnsaved(l2: seq<L2Set>, ways: nat, stream: seq<Request>) {
    forall i: nat :: i < |l2| ==> l2[i].Shape() && ways <= SLOTS && DirtyIsUnsaved(l2[i], ways, stream, i)
  }

  /** The set accessed. */
  lemma AccessedSet(s: L2Set, ways: nat, stream: seq<Request>, q: Request)
    requires Refines(s, ways, Recency(TagsOf(stream, q.l2Index))) && q.l2Tag != NO_TAG
    requires DirtyIsUnsaved(s, ways, stream, q.l2Index)
    requires FindTag(s, q.l2Tag, 0) != -1 || FindLru(s, 0) != -1
    ensures DirtyIsUnsaved(Access(s, ways, q.l2Tag, q.op == 'w').set_, ways, stream + [q], q.l2Index)
  {
    var r := Recency(TagsOf(stream, q.l2Index));
    var s' := Access(s, ways, q.l2Tag, q.op == 'w').set_;
    forall j: nat | j < ways && s'.valid[j] == 1
      ensures s'.dirty[j] == 1 <==> Unsaved(stream + [q], ways, q.l2Index, s'.tag[j])
    {
      DirtyAfterAccess(s, ways, r, q.l2Tag, q.op == 'w', j);
      UnsavedAppend(stream, q, ways, q.l2Index, s'.tag[j]);
      AccessedSlot(s, ways, stream, q, j);
    }
  }

  /** The slot that holds the tag after the access held it before exactly if the access hit. */
  lemma AccessedSlot(s: L2Set, ways: nat, stream: seq<Request>, q: Request, j: nat)
    requires Refines(s, ways, Recency(TagsOf(stream, q.l2Index))) && q.l2Tag != NO_TAG && j < ways
    requires FindTag(s, q.l2Tag, 0) != -1 || FindLru(s, 0) != -1
    ensures var s' := Access(s, ways, q.l2Tag, q.op == 'w').set_;
      s'.valid[j] == 1 && s'.tag[j] == q.l2Tag ==> (Holds(s, j, q.l2Tag) <==> HitsIn(stream + [q], ways, |stream|))
  {
    var r := Recency(TagsOf(stream, q.l2Index));
    assert (stream + [q])[..|stream|] == stream && (stream + [q])[|stream|] == q;
    HitIff(s, ways, r, q.l2Tag);
    assert SlotAgrees(s, ways, r, j);
  }

  lemma OtherSet(s: L2Set, ways: nat, stream: seq<Request>, q: Request, index: nat)
    requires s.Shape() && ways <= SLOTS && index != q.l2Index && DirtyIsUnsaved(s, ways, stream, index)
    ensures DirtyIsUnsaved(s, ways, stream + [q], index)
  {
    forall j: nat | j < ways && s.valid[j] == 1
      ensures s.dirty[j] == 1 <==> Unsaved(stream + [q], ways, index, s.tag[j])
    {
      UnsavedAppend(stream, q, ways, index, s.tag[j]);
    }
  }

  lemma StepDirty(m: Sim, sets: nat, ways: nat, stream: seq<Request>, q: Request)
    requires Good(m, sets, ways, stream) && InRange(q, sets) && AllDirtyUnsaved(m.l2, ways, stream)
    ensures CanAccess(m.l2[q.l2Index], q.l2Tag)
    ensures AllDirtyUnsaved(StepL2(m, ways, q).l2, ways, stream + [q])
  {
    StepL2Agrees(m, ways, stream, q);
    AccessedSet(m.l2[q.l2Index], ways, stream, q);
    var m' := StepL2(m, ways, q);
    forall i: nat | i < |m'.l2|
      ensures m'.l2[i].Shape() && DirtyIsUnsaved(m'.l2[i], ways, stream + [q], i)
    {
      if i != q.l2Index {
        OtherSet(m.l2[i], ways, stream, q, i);
      }
    }
  }

  lemma {:induction false} RunDirty(sets: nat, ways: nat, trace: seq<Request>)
    requires 1 <= ways <= SLOTS && TraceInRange(trace, sets)
    ensures AllDirtyUnsaved(Run(sets, ways, trace).l2, ways, MissStream(trace))
    decreases |trace|
  {
    if trace != [] {
      var front, q := trace[..|trace| - 1], trace[|trace| - 1];
      RunDirty(sets, ways, front);
      var m := Run(sets, ways, front);
      StepGood(m, sets, ways, MissStream(front), q);
      if Misses(m.l1, q) {
        StepDirty(m, sets, ways, MissStream(front), q);
      } else {
        assert MissStream(front) + [] == MissStream(front);
      }
    }
  }

  /** On every trace: a resident block is dirty iff a write to it was sent to L2 since it was last
      brought in. */
  lemma DirtyIff(sets: nat, ways: nat, trace: seq<Request>, index: nat, j: nat)
    requires 1 <= ways <= SLOTS && TraceInRange(trace, sets) && index < sets && j < ways
    ensures var s := Run(sets, ways, trace).l2[index];
      s.Shape() && (s.valid[j] == 1 ==> (s.dirty[j] == 1 <==> Unsaved(MissStream(trace), ways, index, s.tag[j])))
  {
    RunDirty(sets, ways, trace);
  }

  /** The request would evict an unsaved block: it misses in a full set whose oldest block is one. */
  ghost predicate EvictsUnsaved(stream: seq<Request>, ways: nat, q: Request) {
    var r := Recency(TagsOf(stream, q.l2Index));
    1 <= ways <= |r| && q.l2Tag !in Take(r, ways) && Unsaved(stream, ways, q.l2Index, r[ways - 1])
  }

  /** On every trace the next request to L2 writes back iff it evicts an unsaved block. */
  lemma WritebackIff(sets: nat, ways: nat, trace: seq<Request>, q: Request)
    requires 1 <= ways <= SLOTS && TraceInRange(trace, sets) && InRange(q, sets)
    ensures var s := Run(sets, ways, trace).l2[q.l2Index];
      && CanAccess(s, q.l2Tag)
      && (Access(s, ways, q.l2Tag, q.op == 'w').writeback <==> EvictsUnsaved(MissStream(trace), ways, q))
  {
    var m, stream := Run(sets, ways, trace), MissStream(trace);
    var s, r := m.l2[q.l2Index], Recency(TagsOf(stream, q.l2Index));
    StepL2Agrees(m, ways, stream, q);
    RunDirty(sets, ways, trace);
    WritesBackIff(s, ways, r, q.l2Tag, q.op == 'w');
    VictimIsOldest(s, ways, r);
    assert DirtyIsUnsaved(s, ways, stream, q.l2Index);
  }
}
