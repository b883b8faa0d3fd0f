/** The producer's steps keep the invariant, and so does every run. */
module ExplicitEnqueue {
  import opened Wrappers
  import opened Blocks
  import opened ExplicitProducer
  import opened ExplicitInvariant
  import C = Claims
  import D = DequeueCounters

  lemma NoneWritten(ppc: ProducerPC, heap: seq<Block>, ring: seq<nat>, lo: nat, tail: nat)
    requires WrittenBy(ppc) == []
    ensures WrittenOk(ppc, heap, ring, lo, tail)
  {
  }

  /** A step that moves only the producer's own location. */
  lemma PpcKeeps(s: State, s': State)
    requires Inv(s) && s' == s.(ppc := s'.ppc)
    requires PpcOk(s'.ppc, s.q.tail, s.ring, s.lo, s.live, s.tailBlock, Last(s)) && WrittenBy(s'.ppc) == []
    ensures Inv(s')
  {
    hide LinkOk, FlagsOk, CellsOk, GoneOk, HeapOk, RingOk, IndexOk, NumsOk, PpcOk, LocsOk, WrittenBy;
    NoneWritten(s'.ppc, s.heap, s.ring, s.lo, s.q.tail);
  }

  // ----- starting an operation -----

  lemma StartOk(s: State, vs: seq<Elem>, bulk: bool)
    requires Inv(s) && s.ppc == Idle && vs != [] && (!bulk ==> |vs| == 1)
    ensures PpcOk(StartOp(s, vs, bulk).ppc, s.q.tail, s.ring, s.lo, s.live, s.tailBlock, Last(s))
    ensures WrittenBy(StartOp(s, vs, bulk).ppc) == []
  {
    hide LinkOk, FlagsOk, CellsOk, GoneOk, HeapOk, RingOk, IndexOk, LocsOk, Blk, Off, CeilBlk, Start, Wrap;
    CeilMonotone(s.q.tail, s.q.tail + |vs|);
    CeilFacts(s.q.tail);
    if Need(s.q.tail, |vs|) == 0 {
      NoNeed(s.q.tail, |vs|);
    }
  }

  lemma StartKeeps(s: State, vs: seq<Elem>, bulk: bool)
    requires Inv(s) && s.ppc == Idle && vs != [] && (!bulk ==> |vs| == 1)
    ensures Inv(StartOp(s, vs, bulk))
  {
    hide Inv, PpcOk, WrittenBy;
    StartOk(s, vs, bulk);
    PpcKeeps(s, StartOp(s, vs, bulk));
  }

  // ----- reusing the oldest block -----

  lemma RotatedBlocks(ring: seq<nat>, lo: nat)
    requires ring != []
    ensures |Rotated(ring)| == |ring| && TailOf(Rotated(ring)) == Some(ring[0])
    ensures forall n: nat :: lo + 1 <= n < lo + |ring| ==> BlockAt(Rotated(ring), lo + 1, n) == BlockAt(ring, lo, n)
    ensures BlockAt(Rotated(ring), lo + 1, lo + |ring|) == ring[0] == BlockAt(ring, lo, lo)
  {
  }

  lemma RotatedRing(heap: seq<Block>, heap': seq<Block>, ring: seq<nat>)
    requires RingOk(heap, ring) && ring != [] && |heap'| == |heap|
    requires forall b: nat :: NextOf(heap', b) == NextOf(heap, b)
    ensures RingOk(heap', Rotated(ring))
  {
    var r := Rotated(ring);
    forall j | 0 <= j < |r| ensures NextOf(heap', r[j]) == r[Succ(j, |r|)] {
      var i := Succ(j, |r|);
      assert r[j] == ring[i];
      assert NextOf(heap, ring[i]) == ring[Succ(i, |ring|)];
    }
  }

  lemma HeaderRotated(h: Header, ring: seq<nat>, lo: nat)
    requires HeaderOk(h, ring, lo) && ring != []
    ensures HeaderOk(h, Rotated(ring), lo + 1)
  {
    RotatedBlocks(ring, lo);
    var ring', lo' := Rotated(ring), lo + 1;
    forall n | lo' <= n < h.top ensures EntryOk(h, ring', lo', n) {
      assert EntryOk(h, ring, lo, n);
    }
  }

  lemma IndexRotated(headers: seq<Header>, ring: seq<nat>, lo: nat)
    requires IndexOk(headers, ring, lo) && ring != []
    ensures IndexOk(headers, Rotated(ring), lo + 1)
  {
    hide HeaderOk;
    forall h | 0 <= h < |headers| ensures HeaderOk(headers[h], Rotated(ring), lo + 1) {
      HeaderRotated(headers[h], ring, lo);
    }
  }

  /** An empty block at the far end of the ring has been given back completely. */
  lemma EmptyIsGone(heap: seq<Block>, ring: seq<nat>, lo: nat, live: nat, c: C.State)
    requires HeapOk(heap) && RingOk(heap, ring) && ring != [] && FlagsOk(heap, ring, lo, live, c)
    requires AllEmpty(heap, ring[0]) && lo < live
    ensures forall i: nat :: Blk(i) == lo ==> C.IsGone(c, i)
  {
    forall i: nat | Blk(i) == lo ensures C.IsGone(c, i) {
      SplitIndex(i);
      assert FlagOk(heap, ring, lo, live, c, lo, Off(i));
    }
  }

  lemma GoneGrows(lo: nat, c: C.State)
    requires GoneOk(lo, c)
    requires forall i: nat :: Blk(i) == lo ==> C.IsGone(c, i)
    ensures GoneOk(lo + 1, c)
  {
  }

  /** An index at or past the end of the published blocks is not given back. */
  lemma BeyondIsNotGone(c: C.State, n: nat, k: nat)
    requires CeilBlk(|c.stage|) <= n
    ensures !C.IsGone(c, Start(n) + k)
  {
    if Start(n) + k < |c.stage| {
      BelowCeil(Start(n) + k, |c.stage|);
      if CeilBlk(|c.stage|) < n {
        StartMonotone(CeilBlk(|c.stage|), n);
      }
    }
  }

  lemma FillFlagsFrame(heap: seq<Block>, b: nat, flag: bool)
    requires HeapOk(heap)
    ensures var heap' := FillFlags(heap, b, flag);
            && |heap'| == |heap| && HeapOk(heap')
            && (forall b': nat :: NextOf(heap', b') == NextOf(heap, b'))
            && (forall b': nat, k': nat :: Cell(heap', b', k') == Cell(heap, b', k'))
            && (forall b': nat, k': nat :: b' != b ==> (Empty(heap', b', k') <==> Empty(heap, b', k')))
            && (forall k': nat :: b < |heap| && k' < BLOCK_SIZE ==> (Empty(heap', b, k') <==> flag))
  {
  }

  /** The heap after the oldest block was taken: reset at once by the single form only. */
  function Taken(heap: seq<Block>, b: nat, bulk: bool): seq<Block> {
    if bulk then heap else FillFlags(heap, b, false)
  }

  lemma AllEmptyMeans(heap: seq<Block>, b: nat)
    requires HeapOk(heap) && AllEmpty(heap, b)
    ensures forall k: nat :: k < BLOCK_SIZE ==> Empty(heap, b, k)
  {
  }

  lemma ReuseFlags(heap: seq<Block>, ring: seq<nat>, lo: nat, live: nat, c: C.State, bulk: bool)
    requires HeapOk(heap) && RingOk(heap, ring) && ring != [] && FlagsOk(heap, ring, lo, live, c)
    requires AllEmpty(heap, ring[0]) && lo < live <= lo + |ring|
    requires CeilBlk(|c.stage|) <= live && (!bulk ==> live == lo + |ring|)
    ensures FlagsOk(Taken(heap, ring[0], bulk), Rotated(ring), lo + 1, if bulk then live else live + 1, c)
  {
    AllEmptyMeans(heap, ring[0]);
    hide C.IsGone, FillFlags, Empty, AllEmpty, HeapOk, NextOf;
    RotatedBlocks(ring, lo);
    FillFlagsFrame(heap, ring[0], false);
    var heap', ring', lo', live' := Taken(heap, ring[0], bulk), Rotated(ring), lo + 1, if bulk then live else live + 1;
    forall n: nat, k: nat | lo' <= n < lo' + |ring'| && k < BLOCK_SIZE
      ensures FlagOk(heap', ring', lo', live', c, n, k)
    {
      if n < lo + |ring| {
        assert FlagOk(heap, ring, lo, live, c, n, k);
        BlocksDiffer(ring, lo, lo, n);
      } else if !bulk {
        BeyondIsNotGone(c, n, k);
      }
    }
  }

  lemma ReuseCells(heap: seq<Block>, ring: seq<nat>, lo: nat, c: C.State, bulk: bool)
    requires HeapOk(heap) && ring != [] && |c.stage| <= |c.vals| && CellsOk(heap, ring, lo, c)
    requires GoneOk(lo + 1, c)
    ensures CellsOk(Taken(heap, ring[0], bulk), Rotated(ring), lo + 1, c)
  {
    hide FillFlags, Cell;
    RotatedBlocks(ring, lo);
    FillFlagsFrame(heap, ring[0], false);
    forall i: nat | i < |c.stage| && C.Unread(c, i)
      ensures CellOk(Taken(heap, ring[0], bulk), Rotated(ring), lo + 1, i, c.vals[i])
    {
      assert CellOk(heap, ring, lo, i, c.vals[i]);
      assert !C.IsGone(c, i);
    }
  }

  /** Blocks that consumers stand on are not the one that leaves the window. */
  lemma LocsRotated(locs: seq<Loc>, c: C.State, headers: seq<Header>, ring: seq<nat>, lo: nat)
    requires LocsOk(locs, c.spans, headers, ring, lo) && ring != [] && C.Inv(c) && GoneOk(lo + 1, c)
    requires forall t :: 0 <= t < |locs| ==> c.spans[t].start < c.spans[t].hi ==> Blk(c.spans[t].start) < lo + |ring|
    ensures LocsOk(locs, c.spans, headers, Rotated(ring), lo + 1)
  {
    RotatedBlocks(ring, lo);
    forall t | 0 <= t < |locs| ensures LocOk(locs[t], c.spans[t], headers, Rotated(ring), lo + 1) {
      assert LocOk(locs[t], c.spans[t], headers, ring, lo);
      if c.spans[t].start < c.spans[t].hi {
        C.HeldIsNotGone(c, t, c.spans[t].start);
      }
    }
  }

  /** The step takes the block ahead of the tail block. */
  predicate Reuses(s: State, op: Op) {
    && s.ppc == Reuse(op) && s.tailBlock.Some?
    && (op.bulk ==> op.first != Some(NextOf(s.heap, s.tailBlock.value)))
    && AllEmpty(s.heap, NextOf(s.heap, s.tailBlock.value))
  }

  /** What the step finds: the block ahead is the oldest, a published one, given back, and not
      the one that holds a partly written tail. */
  lemma ReuseFinds(s: State, op: Op)
    requires Inv(s) && Reuses(s, op)
    ensures s.ring != [] && NextOf(s.heap, s.tailBlock.value) == s.ring[0]
    ensures s.lo < s.live && s.lo < CeilBlk(s.q.tail) && GoneOk(s.lo + 1, s.claims)
    ensures Off(s.q.tail) != 0 ==> s.lo + 1 < CeilBlk(s.q.tail)
  {
    hide LinkOk, CellsOk, IndexOk, LocsOk, WrittenOk, FlagsOk, GoneOk, HeapOk, Blk, Off, Start, CeilBlk, AllEmpty;
    var last := |s.ring| - 1;
    assert NextOf(s.heap, s.ring[last]) == s.ring[Succ(last, |s.ring|)];
    EmptyIsGone(s.heap, s.ring, s.lo, s.live, s.claims);
    GoneGrows(s.lo, s.claims);
    CeilFacts(s.q.tail);
    LinkTail(s);
    assert !C.IsGone(s.claims, s.q.tail);
  }

  lemma LinkTail(s: State)
    requires Inv(s)
    ensures |s.claims.stage| == |s.claims.vals| == s.q.tail && C.Inv(s.claims)
    ensures forall t :: 0 <= t < |s.locs| ==> s.claims.spans[t].start < s.claims.spans[t].hi ==> Blk(s.claims.spans[t].start) < s.lo + |s.ring|
  {
    hide CellsOk, IndexOk, WrittenOk, FlagsOk, HeapOk, Blk, Off, Start, CeilBlk, LocsOk, PpcOk;
    forall t | 0 <= t < |s.locs| && s.claims.spans[t].start < s.claims.spans[t].hi
      ensures Blk(s.claims.spans[t].start) < s.lo + |s.ring|
    {
      HeldBlocksStay(s, t, s.claims.spans[t].start);
    }
  }

  /** The numbers of the operation after taking the oldest block. */
  lemma ReuseNums(s: State, op: Op)
    requires Inv(s) && Reuses(s, op)
    ensures var s' := ReuseStep(s, op);
            && NumsOk(s.q.tail, s'.ring, s'.lo, s'.live, s'.slotsUsed, s'.front, Last(s))
            && PpcOk(s'.ppc, s.q.tail, s'.ring, s'.lo, s'.live, s'.tailBlock, Last(s))
  {
    hide LinkOk, CellsOk, IndexOk, LocsOk, WrittenOk, FlagsOk, GoneOk, HeapOk, RingOk, Blk, Off, Start, CeilBlk, AllEmpty, Wrap;
    ReuseFinds(s, op);
    RotatedBlocks(s.ring, s.lo);
    CeilFacts(s.q.tail);
    assert PpcOk(s.ppc, s.q.tail, s.ring, s.lo, s.live, s.tailBlock, Last(s));
    assert op.bulk || CeilBlk(s.q.tail + |op.vs|) <= CeilBlk(s.q.tail) + 1;
  }

  lemma ReuseKeeps(s: State, op: Op)
    requires Inv(s) && s.ppc == Reuse(op)
    ensures Inv(ReuseStep(s, op))
  {
    if Reuses(s, op) {
      hide LinkOk, CellsOk, IndexOk, LocsOk, WrittenOk, FlagsOk, GoneOk, HeapOk, RingOk, NumsOk, PpcOk, CeilBlk, AllEmpty, FillFlags, C.Inv;
      ReuseFinds(s, op);
      ReuseNums(s, op);
      LinkTail(s);
      var s' := ReuseStep(s, op);
      NumsLive(s);
      ReuseFlags(s.heap, s.ring, s.lo, s.live, s.claims, op.bulk);
      ReuseCells(s.heap, s.ring, s.lo, s.claims, op.bulk);
      LocsRotated(s.locs, s.claims, s.headers, s.ring, s.lo);
      IndexRotated(s.headers, s.ring, s.lo);
      FillFlagsFrame(s.heap, s.ring[0], false);
      RotatedRing(s.heap, s'.heap, s.ring);
      NoneWritten(s'.ppc, s'.heap, s'.ring, s'.lo, s.q.tail);
    } else {
      hide LinkOk, CellsOk, IndexOk, LocsOk, WrittenOk, FlagsOk, GoneOk, HeapOk, RingOk, NumsOk, CeilBlk;
      PpcKeeps(s, ReuseStep(s, op));
    }
  }

  lemma NumsLive(s: State)
    requires Inv(s) && s.ppc.Reuse?
    ensures CeilBlk(s.q.tail) <= s.live <= s.lo + |s.ring| && (!s.ppc.op.bulk ==> s.live == s.lo + |s.ring|)
  {
    hide LinkOk, CellsOk, IndexOk, LocsOk, WrittenOk, FlagsOk, GoneOk, HeapOk, RingOk;
  }

  // ----- room, and a bigger block index -----

  /** When the single form gives up it has set nothing aside. */
  lemma FailKeeps(s: State, op: Op)
    requires Inv(s) && (s.ppc == Room(op) || s.ppc == Grow(op) || s.ppc == Link(op))
    ensures Inv(Fail(s, op))
  {
    hide LinkOk, CellsOk, IndexOk, LocsOk, WrittenOk, FlagsOk, GoneOk, HeapOk, RingOk, CeilBlk;
    if !op.bulk {
      CeilFacts(s.q.tail);
      PpcKeeps(s, Fail(s, op));
    }
  }

  lemma RoomKeeps(s: State, op: Op)
    requires Inv(s) && s.ppc == Room(op)
    ensures Inv(RoomStep(s, op))
  {
    hide LinkOk, CellsOk, IndexOk, LocsOk, WrittenOk, FlagsOk, GoneOk, HeapOk, RingOk, Full, CeilBlk;
    if Full(s.q.head, op.base, s.limit) {
      FailKeeps(s, op);
    } else {
      PpcKeeps(s, RoomStep(s, op));
    }
  }

  /** Consumers may go on with the index they loaded, and with any that is published later. */
  lemma LocsNewIndex(locs: seq<Loc>, spans: seq<C.Span>, headers: seq<Header>, headers': seq<Header>, ring: seq<nat>, lo: nat)
    requires LocsOk(locs, spans, headers, ring, lo) && |headers| <= |headers'|
    requires forall h :: 0 <= h < |headers| ==>
               headers'[h].origin == headers[h].origin && |headers'[h].entries| == |headers[h].entries|
               && headers[h].num <= headers'[h].num && headers[h].top <= headers'[h].top
    ensures LocsOk(locs, spans, headers', ring, lo)
  {
    hide Blk, Off;
    forall t | 0 <= t < |locs| ensures LocOk(locs[t], spans[t], headers', ring, lo) {
      assert LocOk(locs[t], spans[t], headers, ring, lo);
    }
  }

  /** The block index that `new_block_index` builds. */
  function Grown(h: Header, used: nat, front: nat, ring: seq<nat>, lo: nat, exposed: nat, junk: Entry): Header
    requires |h.entries| > 0
  {
    Header(seq(2 * |h.entries|, p requires 0 <= p =>
             if p < used then EntryAt(h, Mask(front - used + p, |h.entries|)) else junk),
           exposed - 1, lo, lo + exposed - 1, lo + |ring|)
  }

  lemma GrownOk(h: Header, front: nat, ring: seq<nat>, lo: nat, exposed: nat, junk: Entry)
    requires HeaderOk(h, ring, lo) && h.top == lo + |ring| && |ring| == |h.entries|
    requires front == Wrap(h.top - h.origin, |h.entries|)
    requires exposed <= |ring| && (exposed == 0 ==> lo == 0)
    ensures HeaderOk(Grown(h, |ring|, front, ring, lo, exposed, junk), ring, lo)
  {
    var g := Grown(h, |ring|, front, ring, lo, exposed, junk);
    var size := |h.entries|;
    forall n | lo <= n < g.top ensures EntryOk(g, ring, lo, n) {
      var p := n - lo;
      assert EntryOk(h, ring, lo, n);
      MaskBack(h.top - h.origin, size - p, size);
      assert SlotOf(g, n) == p;
      assert g.entries[p] == EntryAt(h, Mask(front - size + p, size));
      assert front - size + p == front - (size - p);
    }
  }

  lemma GrowKeeps(s: State, op: Op, fails: bool, junk: Entry)
    requires Inv(s) && s.ppc == Grow(op)
    ensures Inv(GrowStep(s, op, fails, junk))
  {
    if fails {
      FailKeeps(s, op);
    } else {
      hide LinkOk, CellsOk, LocsOk, WrittenOk, FlagsOk, GoneOk, HeapOk, RingOk, CeilBlk, HeaderOk, EntryAt, Mask;
      var g := Grown(Last(s), s.slotsUsed, s.front, s.ring, s.lo, op.used, junk);
      assert HeaderOk(Last(s), s.ring, s.lo);
      GrownOk(Last(s), s.front, s.ring, s.lo, op.used, junk);
      var s' := GrowStep(s, op, fails, junk);
      assert s'.headers == s.headers + [g];
      LocsNewIndex(s.locs, s.claims.spans, s.headers, s'.headers, s.ring, s.lo);
      NoneWritten(s'.ppc, s.heap, s.ring, s.lo, s.q.tail);
      GrowNums(s, op, g);
    }
  }

  lemma GrowNums(s: State, op: Op, g: Header)
    requires Inv(s) && s.ppc == Grow(op)
    requires g.origin == s.lo && g.num == s.lo + op.used - 1 && g.top == s.lo + |s.ring| && |g.entries| == 2 * |Last(s).entries|
    ensures NumsOk(s.q.tail, s.ring, s.lo, s.live, s.slotsUsed, s.slotsUsed, g)
    ensures PpcOk(Link(op), s.q.tail, s.ring, s.lo, s.live, s.tailBlock, g)
  {
    hide LinkOk, CellsOk, IndexOk, LocsOk, WrittenOk, FlagsOk, GoneOk, HeapOk, RingOk, CeilBlk;
  }

  // ----- linking a new block -----

  lemma ExtendedBlocks(ring: seq<nat>, lo: nat, b: nat)
    ensures forall n: nat :: lo <= n < lo + |ring| ==> BlockAt(ring + [b], lo, n) == BlockAt(ring, lo, n)
    ensures BlockAt(ring + [b], lo, lo + |ring|) == b && TailOf(ring + [b]) == Some(b)
  {
  }

  /** The heap after `requisition_block` and the insertion behind the tail block. */
  function Linked(heap: seq<Block>, tailBlock: Option<nat>, b: nat, flag: bool, cells: seq<Option<Elem>>): seq<Block>
    requires b <= |heap|
  {
    var block := Block(b, seq(BLOCK_SIZE, _ => flag), cells);
    var heap' := if b == |heap| then heap + [block] else heap[b := block];
    if tailBlock.None? then heap'
    else SetNext(SetNext(heap', b, NextOf(heap', tailBlock.value)), tailBlock.value, b)
  }

  lemma LinkedHeap(heap: seq<Block>, tailBlock: Option<nat>, b: nat, flag: bool, cells: seq<Option<Elem>>)
    requires HeapOk(heap) && b <= |heap| && |cells| == BLOCK_SIZE
    requires tailBlock.Some? ==> tailBlock.value < |heap| && tailBlock.value != b
    ensures var heap' := Linked(heap, tailBlock, b, flag, cells);
            && |heap| <= |heap'| && b < |heap'| && HeapOk(heap')
            && (forall c: nat :: c < |heap| && c != b ==> NextOf(heap', c) == if tailBlock == Some(c) then b else NextOf(heap, c))
            && NextOf(heap', b) == (if tailBlock.None? then b else NextOf(heap, tailBlock.value))
            && (forall c: nat, k: nat :: c < |heap| && c != b ==> (Empty(heap', c, k) <==> Empty(heap, c, k)) && Cell(heap', c, k) == Cell(heap, c, k))
            && (forall k: nat :: k < BLOCK_SIZE ==> (Empty(heap', b, k) <==> flag))
  {
  }

  lemma LinkedRing(heap: seq<Block>, heap': seq<Block>, ring: seq<nat>, b: nat)
    requires RingOk(heap, ring) && b !in ring && |heap| <= |heap'| && b < |heap'|
    requires forall c: nat :: c < |heap| && c != b ==> NextOf(heap', c) == if TailOf(ring) == Some(c) then b else NextOf(heap, c)
    requires NextOf(heap', b) == if ring == [] then b else NextOf(heap, ring[|ring| - 1])
    ensures RingOk(heap', ring + [b])
  {
    var r := ring + [b];
    forall j | 0 <= j < |r| ensures NextOf(heap', r[j]) == r[Succ(j, |r|)] {
      if j < |ring| {
        assert NextOf(heap, ring[j]) == ring[Succ(j, |ring|)];
        if TailOf(ring) == Some(ring[j]) {
          assert j == |ring| - 1;
        }
      } else if ring != [] {
        var last := |ring| - 1;
        assert NextOf(heap, ring[last]) == ring[Succ(last, |ring|)];
      }
    }
  }

  lemma LinkedFlags(heap: seq<Block>, heap': seq<Block>, ring: seq<nat>, lo: nat, live: nat, c: C.State, b: nat, bulk: bool)
    requires FlagsOk(heap, ring, lo, live, c) && InHeap(heap, ring) && b !in ring
    requires forall a: nat, k: nat :: a < |heap| && a != b ==> (Empty(heap', a, k) <==> Empty(heap, a, k))
    requires forall k: nat :: k < BLOCK_SIZE ==> (Empty(heap', b, k) <==> bulk)
    requires CeilBlk(|c.stage|) <= live <= lo + |ring| && (!bulk ==> live == lo + |ring|)
    ensures FlagsOk(heap', ring + [b], lo, if bulk then live else live + 1, c)
  {
    hide C.IsGone, Empty;
    ExtendedBlocks(ring, lo, b);
    var ring', live' := ring + [b], if bulk then live else live + 1;
    forall n: nat, k: nat | lo <= n < lo + |ring'| && k < BLOCK_SIZE ensures FlagOk(heap', ring', lo, live', c, n, k) {
      if n < lo + |ring| {
        assert FlagOk(heap, ring, lo, live, c, n, k);
        assert BlockAt(ring, lo, n) in ring;
      } else if !bulk {
        BeyondIsNotGone(c, n, k);
      }
    }
  }

  lemma LinkedCells(heap: seq<Block>, heap': seq<Block>, ring: seq<nat>, lo: nat, c: C.State, b: nat)
    requires InHeap(heap, ring) && b !in ring && |c.stage| <= |c.vals| && CellsOk(heap, ring, lo, c)
    requires forall a: nat, k: nat :: a < |heap| && a != b ==> Cell(heap', a, k) == Cell(heap, a, k)
    ensures CellsOk(heap', ring + [b], lo, c)
  {
    hide Cell;
    ExtendedBlocks(ring, lo, b);
    forall i: nat | i < |c.stage| && C.Unread(c, i) ensures CellOk(heap', ring + [b], lo, i, c.vals[i]) {
      assert CellOk(heap, ring, lo, i, c.vals[i]);
      assert BlockAt(ring, lo, Blk(i)) in ring;
    }
  }

  lemma IndexExtended(headers: seq<Header>, ring: seq<nat>, lo: nat, b: nat)
    requires IndexOk(headers, ring, lo)
    ensures IndexOk(headers, ring + [b], lo)
  {
    ExtendedBlocks(ring, lo, b);
    var ring' := ring + [b];
    forall h | 0 <= h < |headers| ensures HeaderOk(headers[h], ring', lo) {
      assert HeaderOk(headers[h], ring, lo);
      forall n | lo <= n < headers[h].top ensures EntryOk(headers[h], ring', lo, n) {
        assert EntryOk(headers[h], ring, lo, n);
      }
    }
  }

  lemma LocsExtended(locs: seq<Loc>, c: C.State, headers: seq<Header>, ring: seq<nat>, lo: nat, b: nat)
    requires LocsOk(locs, c.spans, headers, ring, lo) && C.Inv(c) && GoneOk(lo, c)
    requires forall t :: 0 <= t < |locs| ==> c.spans[t].start < c.spans[t].hi ==> Blk(c.spans[t].start) < lo + |ring|
    ensures LocsOk(locs, c.spans, headers, ring + [b], lo)
  {
    ExtendedBlocks(ring, lo, b);
    forall t | 0 <= t < |locs| ensures LocOk(locs[t], c.spans[t], headers, ring + [b], lo) {
      assert LocOk(locs[t], c.spans[t], headers, ring, lo);
      if c.spans[t].start < c.spans[t].hi {
        C.HeldIsNotGone(c, t, c.spans[t].start);
      }
    }
  }

  predicate Links(s: State, op: Op, fails: bool, b: nat, cells: seq<Option<Elem>>) {
    s.ppc == Link(op) && !fails && b <= |s.heap| && b !in s.ring && |cells| == BLOCK_SIZE
  }

  lemma LinkNums(s: State, op: Op, b: nat, cells: seq<Option<Elem>>)
    requires Inv(s) && Links(s, op, false, b, cells)
    ensures var s' := LinkStep(s, op, false, b, cells);
            && NumsOk(s.q.tail, s'.ring, s'.lo, s'.live, s'.slotsUsed, s'.front, Last(s))
            && PpcOk(s'.ppc, s.q.tail, s'.ring, s'.lo, s'.live, s'.tailBlock, Last(s))
    ensures CeilBlk(s.q.tail) <= s.live <= s.lo + |s.ring| && (!op.bulk ==> s.live == s.lo + |s.ring|)
    ensures s.tailBlock == TailOf(s.ring)
  {
    hide LinkOk, CellsOk, IndexOk, LocsOk, WrittenOk, FlagsOk, GoneOk, HeapOk, RingOk, Blk, Off, Start, CeilBlk, Wrap, SetNext;
    ExtendedBlocks(s.ring, s.lo, b);
    CeilFacts(s.q.tail);
  }

  /** Blocks, flags and cells after the insertion. */
  lemma LinkHeap(s: State, op: Op, b: nat, cells: seq<Option<Elem>>)
    requires Inv(s) && Links(s, op, false, b, cells)
    ensures var heap, ring := Linked(s.heap, s.tailBlock, b, op.bulk, cells), s.ring + [b];
            && HeapOk(heap) && RingOk(heap, ring)
            && FlagsOk(heap, ring, s.lo, if op.bulk then s.live else s.live + 1, s.claims)
            && CellsOk(heap, ring, s.lo, s.claims)
  {
    hide LinkOk, CellsOk, IndexOk, LocsOk, WrittenOk, FlagsOk, GoneOk, HeapOk, NumsOk, PpcOk, CeilBlk, C.Inv, Linked, Empty, Cell;
    LinkNums(s, op, b, cells);
    LinkTail(s);
    LinkedHeap(s.heap, s.tailBlock, b, op.bulk, cells);
    var heap' := Linked(s.heap, s.tailBlock, b, op.bulk, cells);
    LinkedRing(s.heap, heap', s.ring, b);
    hide RingOk, NextOf;
    LinkedFlags(s.heap, heap', s.ring, s.lo, s.live, s.claims, b, op.bulk);
    LinkedCells(s.heap, heap', s.ring, s.lo, s.claims, b);
  }

  lemma LinkKeeps(s: State, op: Op, fails: bool, b: nat, cells: seq<Option<Elem>>)
    requires Inv(s) && s.ppc == Link(op)
    ensures Inv(LinkStep(s, op, fails, b, cells))
  {
    if fails {
      FailKeeps(s, op);
    } else if Links(s, op, fails, b, cells) {
      hide LinkOk, CellsOk, IndexOk, LocsOk, WrittenOk, FlagsOk, GoneOk, HeapOk, NumsOk, PpcOk, CeilBlk, C.Inv, Linked;
      LinkNums(s, op, b, cells);
      LinkHeap(s, op, b, cells);
      LinkTail(s);
      IndexExtended(s.headers, s.ring, s.lo, b);
      LocsExtended(s.locs, s.claims, s.headers, s.ring, s.lo, b);
      LinkedState(s, op, b, cells);
      hide LinkStep, Links;
      var s' := LinkStep(s, op, fails, b, cells);
      NoneWritten(s'.ppc, s'.heap, s'.ring, s.lo, s.q.tail);
    }
  }

  lemma LinkedState(s: State, op: Op, b: nat, cells: seq<Option<Elem>>)
    requires Links(s, op, false, b, cells)
    requires s.tailBlock.Some? ==> s.tailBlock.value in s.ring && s.tailBlock.value < |s.heap|
    ensures var s' := LinkStep(s, op, false, b, cells);
            s' == s.(heap := Linked(s.heap, s.tailBlock, b, op.bulk, cells), tailBlock := Some(b), slotsUsed := s.slotsUsed + 1,
                     ring := s.ring + [b], live := s'.live, ppc := s'.ppc)
            && s'.live == (if op.bulk then s.live else s.live + 1) && WrittenBy(s'.ppc) == []
  {
  }

  // ----- writing an index entry -----

  /** The slot about to be written belongs to no block number in the window. */
  lemma FrontIsFree(h: Header, ring: seq<nat>, lo: nat, n: nat)
    requires HeaderOk(h, ring, lo) && h.top + 1 == lo + |ring| && |ring| <= |h.entries| && h.origin <= h.top
    requires lo <= n < h.top
    ensures SlotOf(h, n) != SlotOf(h, h.top)
  {
    WrapInjective(n - h.origin, h.top - h.origin, |h.entries|);
  }

  /** The header with the entry at the front slot replaced, and its count of entries. */
  function WithEntry(h: Header, slot: nat, e: Entry, top: nat): Header
    requires slot < |h.entries|
  {
    h.(entries := h.entries[slot := e], top := top)
  }

  lemma WithEntryOk(h: Header, ring: seq<nat>, lo: nat, e: Entry, top: nat)
    requires HeaderOk(h, ring, lo) && h.top + 1 == lo + |ring| && |ring| <= |h.entries| && h.origin <= h.top
    requires top == h.top || (top == h.top + 1 && e == Entry(Start(h.top), BlockAt(ring, lo, h.top)))
    ensures SlotOf(h, h.top) < |h.entries|
    ensures HeaderOk(WithEntry(h, SlotOf(h, h.top), e, top), ring, lo)
  {
    WrapBelow(h.top - h.origin, |h.entries|);
    var g := WithEntry(h, SlotOf(h, h.top), e, top);
    forall n | lo <= n < g.top ensures EntryOk(g, ring, lo, n) {
      if n < h.top {
        FrontIsFree(h, ring, lo, n);
        assert EntryOk(h, ring, lo, n);
      }
    }
  }

  /** A step of the producer that changes only the newest header, its own front and location. */
  lemma HeaderKeeps(s: State, s': State, g: Header)
    requires Inv(s) && s' == s.(headers := SetLast(s, g), front := s'.front, ppc := s'.ppc, tailBlock := s'.tailBlock)
    requires HeaderOk(g, s.ring, s.lo)
    requires g.origin == Last(s).origin && |g.entries| == |Last(s).entries| && Last(s).num <= g.num && Last(s).top <= g.top
    requires NumsOk(s.q.tail, s.ring, s.lo, s.live, s.slotsUsed, s'.front, g)
    requires PpcOk(s'.ppc, s.q.tail, s.ring, s.lo, s.live, s'.tailBlock, g) && WrittenBy(s'.ppc) == []
    ensures Inv(s')
  {
    hide LinkOk, CellsOk, LocsOk, WrittenOk, FlagsOk, GoneOk, HeapOk, RingOk, NumsOk, PpcOk, HeaderOk, WrittenBy;
    LocsNewIndex(s.locs, s.claims.spans, s.headers, s'.headers, s.ring, s.lo);
    NoneWritten(s'.ppc, s.heap, s.ring, s.lo, s.q.tail);
  }

  lemma SetBaseKeeps(s: State, op: Op, reused: bool)
    requires Inv(s) && s.ppc == SetBase(op, reused)
    ensures Inv(SetBaseStep(s, op, reused))
  {
    hide LinkOk, CellsOk, LocsOk, WrittenOk, FlagsOk, GoneOk, HeapOk, RingOk, HeaderOk, CeilBlk, Blk, Off, Start, BlockAt;
    var h := Last(s);
    assert HeaderOk(h, s.ring, s.lo);
    WrapBelow(h.top - h.origin, |h.entries|);
    WithEntryOk(h, s.ring, s.lo, h.entries[s.front].(base := op.base), h.top);
    HeaderKeeps(s, SetBaseStep(s, op, reused), WithEntry(h, s.front, h.entries[s.front].(base := op.base), h.top));
  }

  lemma SetBlockKeeps(s: State, op: Op, reused: bool)
    requires Inv(s) && s.ppc == SetBlock(op, reused)
    ensures Inv(SetBlockStep(s, op, reused))
  {
    hide LinkOk, CellsOk, LocsOk, WrittenOk, FlagsOk, GoneOk, HeapOk, RingOk, HeaderOk, CeilBlk, Blk, Off;
    var h := Last(s);
    assert HeaderOk(h, s.ring, s.lo);
    CeilFacts(s.q.tail);
    WrapBelow(h.top - h.origin, |h.entries|);
    WithEntryOk(h, s.ring, s.lo, h.entries[s.front].(block := s.tailBlock.value), h.top + 1);
    HeaderKeeps(s, SetBlockStep(s, op, reused), WithEntry(h, s.front, h.entries[s.front].(block := s.tailBlock.value), h.top + 1));
  }

  // ----- resetting the blocks set aside, and publishing them -----

  lemma ResetFlags(heap: seq<Block>, ring: seq<nat>, lo: nat, live: nat, c: C.State)
    requires HeapOk(heap) && InHeap(heap, ring) && Distinct(ring) && FlagsOk(heap, ring, lo, live, c)
    requires lo <= live < lo + |ring| && CeilBlk(|c.stage|) <= live
    ensures FlagsOk(FillFlags(heap, BlockAt(ring, lo, live), false), ring, lo, live + 1, c)
  {
    hide C.IsGone, FillFlags, Empty, HeapOk;
    var b := BlockAt(ring, lo, live);
    FillFlagsFrame(heap, b, false);
    var heap', live' := FillFlags(heap, b, false), live + 1;
    forall n: nat, k: nat | lo <= n < lo + |ring| && k < BLOCK_SIZE ensures FlagOk(heap', ring, lo, live', c, n, k) {
      assert FlagOk(heap, ring, lo, live, c, n, k);
      if n == live {
        BeyondIsNotGone(c, n, k);
      } else {
        BlocksDiffer(ring, lo, n, live);
      }
    }
  }

  /** The successor on the ring of a block that is not the tail block. */
  lemma NextOnRing(heap: seq<Block>, ring: seq<nat>, lo: nat, n: nat)
    requires RingOk(heap, ring) && lo <= n < lo + |ring|
    ensures n + 1 < lo + |ring| ==> NextOf(heap, BlockAt(ring, lo, n)) == BlockAt(ring, lo, n + 1)
    ensures TailOf(ring) == Some(BlockAt(ring, lo, n)) <==> n + 1 == lo + |ring|
  {
    assert NextOf(heap, ring[n - lo]) == ring[Succ(n - lo, |ring|)];
  }

  lemma ResetNums(s: State, op: Op, b: nat)
    requires Inv(s) && s.ppc == ResetAll(op, b)
    ensures s.lo <= s.live < s.lo + |s.ring| && CeilBlk(s.q.tail) <= s.live && b == BlockAt(s.ring, s.lo, s.live)
    ensures var s' := ResetAllStep(s, op, b);
            && NumsOk(s.q.tail, s.ring, s.lo, s.live + 1, s.slotsUsed, s.front, Last(s))
            && PpcOk(s'.ppc, s.q.tail, s.ring, s.lo, s.live + 1, s.tailBlock, Last(s))
  {
    hide LinkOk, CellsOk, LocsOk, WrittenOk, FlagsOk, GoneOk, HeapOk, RingOk, IndexOk, Blk, Off, Start, CeilBlk, Wrap, FillFlags, NextOf, BlockAt, TailOf;
    NextOnRing(s.heap, s.ring, s.lo, s.live);
  }

  lemma ResetAllKeeps(s: State, op: Op, b: nat)
    requires Inv(s) && s.ppc == ResetAll(op, b)
    ensures Inv(ResetAllStep(s, op, b))
  {
    hide LinkOk, CellsOk, LocsOk, WrittenOk, FlagsOk, GoneOk, HeapOk, IndexOk, NumsOk, PpcOk, FillFlags, CeilBlk, Empty, Cell, C.Inv, NextOf;
    ResetNums(s, op, b);
    LinkTail(s);
    ResetFlags(s.heap, s.ring, s.lo, s.live, s.claims);
    FillFlagsFrame(s.heap, b, false);
    var s' := ResetAllStep(s, op, b);
    RingFrame(s.heap, s'.heap, s.ring);
    CellsFrame(s.heap, s'.heap, s.ring, s.lo, s.claims);
    NoneWritten(s'.ppc, s'.heap, s.ring, s.lo, s.q.tail);
  }

  lemma PublishedSlot(h: Header, ring: seq<nat>, lo: nat)
    requires HeaderOk(h, ring, lo) && h.origin <= lo < lo + |ring| == h.top
    ensures Pred(SlotOf(h, h.top), |h.entries|) == SlotOf(h, h.top - 1)
    ensures HeaderOk(h.(front := Pred(SlotOf(h, h.top), |h.entries|), num := h.top - 1), ring, lo)
  {
    WrapBelow(h.top - 1 - h.origin, |h.entries|);
    var g := h.(front := SlotOf(h, h.top - 1), num := h.top - 1);
    forall n | lo <= n < g.top ensures EntryOk(g, ring, lo, n) {
      assert EntryOk(h, ring, lo, n);
    }
  }

  lemma PublishNums(s: State, op: Op)
    requires Inv(s) && s.ppc == Publish(op)
    ensures var s', h := PublishStep(s, op), Last(s);
            && NumsOk(s.q.tail, s.ring, s.lo, s.live, s.slotsUsed, s.front, Last(s'))
            && PpcOk(s'.ppc, s.q.tail, s.ring, s.lo, s.live, s'.tailBlock, Last(s'))
    ensures Last(s).top == s.lo + |s.ring| > s.lo && Last(s).origin <= s.lo && s.front == SlotOf(Last(s), Last(s).top)
    ensures Last(s).num <= s.lo + |s.ring| - 1
  {
    hide LinkOk, CellsOk, LocsOk, WrittenOk, FlagsOk, GoneOk, HeapOk, RingOk, Blk, Off, Start, CeilBlk, Wrap;
    CeilFacts(s.q.tail);
    CeilMonotone(s.q.tail + 1, s.q.tail + |s.ppc.op.vs|);
    assert HeaderOk(Last(s), s.ring, s.lo);
  }

  lemma PublishKeeps(s: State, op: Op)
    requires Inv(s) && s.ppc == Publish(op)
    ensures Inv(PublishStep(s, op))
  {
    hide LinkOk, CellsOk, LocsOk, WrittenOk, FlagsOk, GoneOk, HeapOk, RingOk, NumsOk, PpcOk, HeaderOk, SlotOf;
    PublishNums(s, op);
    assert HeaderOk(Last(s), s.ring, s.lo);
    PublishedSlot(Last(s), s.ring, s.lo);
    HeaderKeeps(s, PublishStep(s, op), Last(PublishStep(s, op)));
  }

  // ----- writing the elements -----

  lemma WriteNums(s: State, op: Op, j: nat, end: Option<nat>)
    requires Inv(s) && s.ppc == Write(op, j, end)
    ensures s.tailBlock == Some(BlockAt(s.ring, s.lo, Blk(s.q.tail + j))) && j < |op.vs|
    ensures s.lo <= Blk(s.q.tail + j) < s.lo + |s.ring|
    ensures var s' := WriteStep(s, op, j, end);
            && PpcOk(s'.ppc, s.q.tail, s.ring, s.lo, s.live, s'.tailBlock, Last(s))
            && WrittenBy(s'.ppc) == op.vs[..j + 1]
  {
    hide LinkOk, CellsOk, LocsOk, WrittenOk, FlagsOk, GoneOk, HeapOk, RingOk, IndexOk, Blk, Off, Start, CeilBlk, Wrap, NextOf, BlockAt, TailOf, SetCell;
    var i := s.q.tail + j;
    CeilFacts(s.q.tail);
    BlkMonotone(s.q.tail, i);
    BelowCeil(i, s.q.tail + |op.vs|);
    NextOnRing(s.heap, s.ring, s.lo, Blk(i));
    NextIndex(i);
    CeilFacts(i);
    if j + 1 < |op.vs| {
      CeilMonotone(i + 2, s.q.tail + |op.vs|);
      CeilFacts(i + 1);
    }
  }

  lemma WriteCells(heap: seq<Block>, ring: seq<nat>, lo: nat, c: C.State, i: nat, v: Option<Elem>)
    requires HeapOk(heap) && Distinct(ring) && lo <= Blk(i) < lo + |ring| && |c.stage| <= i && |c.stage| <= |c.vals|
    requires CellsOk(heap, ring, lo, c)
    ensures CellsOk(SetCell(heap, BlockAt(ring, lo, Blk(i)), Off(i), v), ring, lo, c)
  {
    forall j: nat | j < |c.stage| && C.Unread(c, j)
      ensures CellOk(SetCell(heap, BlockAt(ring, lo, Blk(i)), Off(i), v), ring, lo, j, c.vals[j])
    {
      OtherCell(heap, ring, lo, i, v, j, c.vals[j]);
    }
  }

  lemma WriteWritten(s: State, op: Op, j: nat, end: Option<nat>)
    requires Inv(s) && s.ppc == Write(op, j, end) && j < |op.vs|
    requires s.lo <= Blk(s.q.tail + j) < s.lo + |s.ring|
    requires WrittenBy(WriteStep(s, op, j, end).ppc) == op.vs[..j + 1]
    ensures WrittenOk(WriteStep(s, op, j, end).ppc,
                      SetCell(s.heap, BlockAt(s.ring, s.lo, Blk(s.q.tail + j)), Off(s.q.tail + j), Some(op.vs[j])), s.ring, s.lo, s.q.tail)
  {
    hide LinkOk, CellsOk, LocsOk, FlagsOk, GoneOk, IndexOk, NumsOk, Blk, Off, BlockAt, WriteStep, PpcOk, SetCell;
    var i := s.q.tail + j;
    var b := BlockAt(s.ring, s.lo, Blk(i));
    var heap' := SetCell(s.heap, b, Off(i), Some(op.vs[j]));
    SplitIndex(i);
    InRing(s.heap, s.ring, s.lo, Blk(i));
    SetCellFrame(s.heap, b, Off(i), Some(op.vs[j]));
    forall k: nat | k < j + 1 ensures CellOk(heap', s.ring, s.lo, s.q.tail + k, op.vs[k]) {
      if k < j {
        assert WrittenBy(s.ppc)[k] == op.vs[k];
        assert CellOk(s.heap, s.ring, s.lo, s.q.tail + k, WrittenBy(s.ppc)[k]);
        OtherCell(s.heap, s.ring, s.lo, i, Some(op.vs[j]), s.q.tail + k, op.vs[k]);
      }
    }
  }

  lemma InRing(heap: seq<Block>, ring: seq<nat>, lo: nat, n: nat)
    requires InHeap(heap, ring) && lo <= n < lo + |ring|
    ensures BlockAt(ring, lo, n) < |heap|
  {
  }

  lemma WriteKeeps(s: State, op: Op, j: nat, end: Option<nat>)
    requires Inv(s) && s.ppc == Write(op, j, end)
    ensures Inv(WriteStep(s, op, j, end))
  {
    hide LinkOk, CellsOk, LocsOk, FlagsOk, GoneOk, HeapOk, IndexOk, NumsOk, PpcOk, WrittenOk, BlockAt, SetCell, Empty, Cell, C.Inv, NextOf, Blk, Off;
    var i := s.q.tail + j;
    WriteNums(s, op, j, end);
    WriteWritten(s, op, j, end);
    LinkTail(s);
    WriteCells(s.heap, s.ring, s.lo, s.claims, i, Some(op.vs[j]));
    SetCellFrame(s.heap, s.tailBlock.value, Off(i), Some(op.vs[j]));
    var s' := WriteStep(s, op, j, end);
    RingFrame(s.heap, s'.heap, s.ring);
    FlagsFrame(s.heap, s'.heap, s.ring, s.lo, s.live, s.claims);
  }

  // ----- publishing the elements -----

  lemma FinishNums(s: State, op: Op)
    requires Inv(s) && s.ppc == Finish(op)
    ensures NumsOk(s.q.tail + |op.vs|, s.ring, s.lo, s.live, s.slotsUsed, s.front, Last(s))
    ensures PpcOk(Idle, s.q.tail + |op.vs|, s.ring, s.lo, s.live, s.tailBlock, Last(s))
  {
    hide LinkOk, CellsOk, LocsOk, WrittenOk, FlagsOk, GoneOk, HeapOk, RingOk, IndexOk, Blk, Off, Start, CeilBlk, Wrap;
  }

  lemma FinishCells(s: State, op: Op)
    requires Inv(s) && s.ppc == Finish(op)
    ensures var c := C.Publish(s.claims, op.vs);
            && C.Inv(c) && |c.vals| == |c.stage| == s.q.tail + |op.vs|
            && FlagsOk(s.heap, s.ring, s.lo, s.live, c) && CellsOk(s.heap, s.ring, s.lo, c) && GoneOk(s.lo, c)
  {
    hide CellOk, LocsOk, FlagsOk, HeapOk, RingOk, IndexOk, NumsOk, PpcOk, C.IsGone, C.Unread, Blk, D.Inv, C.SpanOk, C.StageOk;
    LinkTail(s);
    C.PublishKeeps(s.claims, op.vs);
    var c := C.Publish(s.claims, op.vs);
    SameFlags(s.heap, s.ring, s.lo, s.live, s.claims, c);
    forall i: nat | i < |c.stage| && C.Unread(c, i) ensures CellOk(s.heap, s.ring, s.lo, i, c.vals[i]) {
      if i < s.q.tail {
        assert c.vals[i] == s.claims.vals[i];
      } else {
        assert WrittenBy(s.ppc)[i - s.q.tail] == op.vs[i - s.q.tail];
        assert CellOk(s.heap, s.ring, s.lo, s.q.tail + (i - s.q.tail), WrittenBy(s.ppc)[i - s.q.tail]);
      }
    }
    FinishGone(s, op);
  }

  lemma FinishGone(s: State, op: Op)
    requires Inv(s) && s.ppc == Finish(op)
    ensures GoneOk(s.lo, C.Publish(s.claims, op.vs))
  {
    hide CellsOk, LocsOk, FlagsOk, HeapOk, RingOk, IndexOk, PpcOk, D.Inv, C.SpanOk, C.StageOk, Blk, CeilBlk, Off, Start;
    LinkTail(s);
    var c := C.Publish(s.claims, op.vs);
    forall i: nat | i < |c.stage| && Blk(i) < s.lo ensures C.IsGone(c, i) {
      CeilFacts(s.q.tail);
      if i >= s.q.tail {
        BlkMonotone(s.q.tail, i);
      } else {
        assert C.IsGone(s.claims, i);
      }
    }
  }

  lemma FinishKeeps(s: State, op: Op)
    requires Inv(s) && s.ppc == Finish(op)
    ensures Inv(FinishStep(s, op))
  {
    FinishLinks(s, op);
    hide LinkOk, CellsOk, FlagsOk, GoneOk, HeapOk, RingOk, IndexOk, NumsOk, PpcOk, WrittenOk, C.Inv, C.Publish, D.Step, LocsOk;
    FinishNums(s, op);
    FinishCells(s, op);
    NoneWritten(Idle, s.heap, s.ring, s.lo, s.q.tail + |op.vs|);
  }

  lemma FinishLinks(s: State, op: Op)
    requires Inv(s) && s.ppc == Finish(op)
    ensures var s' := FinishStep(s, op);
            && Shape(s') && LinkOk(s'.q, s'.claims, s.locs) && s'.q.tail == s.q.tail + |op.vs|
            && s'.claims.spans == s.claims.spans
  {
    D.StepKeepsInv(s.q, D.Publish(|op.vs|));
    C.PublishKeeps(s.claims, op.vs);
    hide CellsOk, LocsOk, FlagsOk, GoneOk, HeapOk, RingOk, IndexOk, NumsOk, PpcOk, WrittenOk, D.FateOk, D.PcOk, C.SpanOk, C.StageOk;
  }

  // ----- every step, every run -----

  lemma ProducerKeepsInv(s: State, a: Act)
    requires Inv(s) && a.Produce?
    ensures Inv(ProducerStep(s, a))
  {
    hide Inv, StartOp, ReuseStep, RoomStep, GrowStep, LinkStep, SetBaseStep, SetBlockStep, ResetAllStep, PublishStep, WriteStep, FinishStep;
    match s.ppc
    case Idle =>
      if a.call.EnqueueOne? {
        StartKeeps(s, [a.call.v], false);
      } else if a.call.vs != [] {
        StartKeeps(s, a.call.vs, true);
      }
    case Reuse(op) => ReuseKeeps(s, op);
    case Room(op) => RoomKeeps(s, op);
    case Grow(op) => GrowKeeps(s, op, a.fails, a.junk);
    case Link(op) => LinkKeeps(s, op, a.fails, a.granted, a.cells);
    case SetBase(op, reused) => SetBaseKeeps(s, op, reused);
    case SetBlock(op, reused) => SetBlockKeeps(s, op, reused);
    case ResetAll(op, b) => ResetAllKeeps(s, op, b);
    case Publish(op) => PublishKeeps(s, op);
    case Write(op, j, end) => WriteKeeps(s, op, j, end);
    case Finish(op) => FinishKeeps(s, op);
  }

  /** Every step of the producer and of every consumer keeps the invariant. */
  lemma StepKeepsInv(s: State, a: Act)
    requires Inv(s) && (a.Consume? ==> a.t < |s.locs|)
    ensures Inv(Step(s, a))
  {
    hide Inv, ProducerStep, ConsumerStep;
    match a
    case Produce(_, _, _, _, _) => ProducerKeepsInv(s, a);
    case Consume(t, want, seen) => ConsumerKeepsInv(s, t, want, seen);
  }

  lemma InitHoldsInv(s: State)
    requires Init(s)
    ensures Inv(s)
  {
    NoneWritten(Idle, s.heap, s.ring, s.lo, 0);
    forall h | 0 <= h < |s.headers| ensures HeaderOk(s.headers[h], s.ring, s.lo) {
    }
  }

  ghost predicate Next(s: State, a: Act, s': State) {
    Shape(s) && (a.Consume? ==> a.t < |s.locs|) && s' == Step(s, a)
  }

  ghost predicate Run(states: seq<State>, acts: seq<Act>) {
    && |states| == |acts| + 1
    && Init(states[0])
    && forall i :: 0 <= i < |acts| ==> Next(states[i], acts[i], states[i + 1])
  }

  lemma {:induction false} RunKeepsInv(states: seq<State>, acts: seq<Act>, i: nat)
    requires Run(states, acts) && i < |states|
    ensures Inv(states[i])
  {
    hide Inv, Init, Step, Shape;
    if i == 0 {
      InitHoldsInv(states[0]);
    } else {
      RunKeepsInv(states, acts, i - 1);
      assert Next(states[i - 1], acts[i - 1], states[i]);
      StepKeepsInv(states[i - 1], acts[i - 1]);
    }
  }

  lemma ConsumersKeepValues(s: State, t: nat, want: D.Want, seen: nat)
    requires Shape(s) && t < |s.locs|
    ensures var s' := ConsumerStep(s, t, want, seen);
            s.claims.vals == s'.claims.vals && s.claims.head <= s'.claims.head
  {
    hide D.Step, C.Paint, SetCell, MarkEmpty, Mask, DivBlocks, Base;
  }

  lemma ProducerKeepsValues(s: State, a: Act)
    requires Shape(s) && a.Produce?
    ensures s.claims.vals <= ProducerStep(s, a).claims.vals && s.claims.head == ProducerStep(s, a).claims.head
  {
    hide D.Step, SetCell, SetNext, FillFlags, Mask, Full, CeilBlk, Start, EntryAt, NextOf, AllEmpty, D.Shape;
  }

  /** Elements once published stay what they are. */
  lemma ValuesOnlyGrow(s: State, a: Act)
    requires Shape(s) && (a.Consume? ==> a.t < |s.locs|)
    ensures s.claims.vals <= Step(s, a).claims.vals && s.claims.head <= Step(s, a).claims.head
  {
    hide Shape, ProducerStep, ConsumerStep;
    match a
    case Produce(_, _, _, _, _) => ProducerKeepsValues(s, a);
    case Consume(t, want, seen) => ConsumersKeepValues(s, t, want, seen);
  }

  lemma {:induction false} ValuesAreStable(states: seq<State>, acts: seq<Act>, i: nat, j: nat)
    requires Run(states, acts) && i <= j < |states|
    ensures states[i].claims.vals <= states[j].claims.vals && states[i].claims.head <= states[j].claims.head
  {
    hide Inv, Init, Step, Shape;
    if i < j {
      ValuesAreStable(states, acts, i, j - 1);
      assert Next(states[j - 1], acts[j - 1], states[j]);
      ValuesOnlyGrow(states[j - 1], acts[j - 1]);
    }
  }

  /** This step completes a dequeue of consumer `a.t`. */
  ghost predicate Completes(s: State, a: Act) {
    && a.Consume? && a.t < |s.locs| && a.t < |s.claims.spans| && s.locs[a.t].Mark?
    && s.claims.spans[a.t].pos == s.claims.spans[a.t].hi
  }

  /** End to end: a consumer whose claim was `[first, hi)` returns exactly the elements that were
      enqueued as number `first` to `hi - 1`, whatever happened meanwhile to the block index, the
      ring of blocks and the counters. */
  lemma ConsumersGetTheirElements(states: seq<State>, acts: seq<Act>, i: nat)
    requires Run(states, acts) && i < |acts| && Completes(states[i], acts[i])
    ensures var p := states[i].claims.spans[acts[i].t];
            && p.first < p.hi <= |states[|acts|].claims.vals|
            && p.got == states[|acts|].claims.vals[p.first..p.hi]
  {
    RunKeepsInv(states, acts, i);
    ValuesAreStable(states, acts, i, |acts|);
    var s, t := states[i], acts[i].t;
    assert C.SpanOk(s.claims, t);
    assert LocOk(s.locs[t], s.claims.spans[t], s.headers, s.ring, s.lo);
  }

  /** This step claims indices for consumer `a.t`. */
  ghost predicate ClaimStep(s: State, a: Act) {
    a.Consume? && a.t < |s.locs| && s.locs[a.t] == Out && Shape(s) && Step(s, a).locs != s.locs
  }

  /** A claim takes the indices from the head on, so that claims made at different steps have no
      index in common. */
  lemma ClaimsAreDisjoint(states: seq<State>, acts: seq<Act>, i: nat, j: nat)
    requires Run(states, acts) && i < j < |acts| && ClaimStep(states[i], acts[i]) && ClaimStep(states[j], acts[j])
    ensures acts[i].t < |states[i + 1].claims.spans| && acts[j].t < |states[j + 1].claims.spans|
    ensures var p, q := states[i + 1].claims.spans[acts[i].t], states[j + 1].claims.spans[acts[j].t];
            p.first < p.hi <= q.first < q.hi
  {
    assert Next(states[i], acts[i], states[i + 1]) && Next(states[j], acts[j], states[j + 1]);
    ClaimTakesHead(states[i], acts[i]);
    ClaimTakesHead(states[j], acts[j]);
    hide Step, Shape, Inv, Init;
    ValuesAreStable(states, acts, i + 1, j);
  }

  lemma ClaimTakesHead(s: State, a: Act)
    requires ClaimStep(s, a)
    ensures var s' := Step(s, a);
            && a.t < |s'.claims.spans|
            && s'.claims.spans[a.t].first == s.claims.head < s'.claims.spans[a.t].hi == s'.claims.head
  {
  }

  /** The step takes the block `b` ahead of the tail block for reuse. */
  ghost predicate Recycles(s: State, a: Act, b: nat) {
    a.Produce? && s.ppc.Reuse? && Reuses(s, s.ppc.op) && b == NextOf(s.heap, s.tailBlock.value)
  }

  /** A block is taken for reuse, and reset, only after every one of its indices was given back;
      nobody is still reading from it or about to give part of it back. */
  lemma OnlyConsumedBlocksAreReused(states: seq<State>, acts: seq<Act>, i: nat, b: nat)
    requires Run(states, acts) && i < |acts| && Recycles(states[i], acts[i], b)
    ensures var s := states[i];
            && b == BlockAt(s.ring, s.lo, s.lo)
            && (forall x: nat :: Blk(x) == s.lo ==> C.IsGone(s.claims, x))
            && (forall t :: 0 <= t < |s.locs| && (s.locs[t].Read? || s.locs[t].Mark?) ==> s.locs[t].block != b)
  {
    RunKeepsInv(states, acts, i);
    var s := states[i];
    ReuseFinds(s, s.ppc.op);
    ConsumedBlock(s);
    forall t | 0 <= t < |s.locs| && (s.locs[t].Read? || s.locs[t].Mark?) ensures s.locs[t].block != b {
      NobodyOnOldest(s, t);
    }
  }

  lemma ConsumedBlock(s: State)
    requires Inv(s) && s.ppc.Reuse? && Reuses(s, s.ppc.op)
    ensures forall x: nat :: Blk(x) == s.lo ==> C.IsGone(s.claims, x)
  {
    hide LinkOk, CellsOk, LocsOk, GoneOk, IndexOk, WrittenOk, FlagsOk, HeapOk, AllEmpty, CeilBlk, Off, Blk;
    ReuseFinds(s, s.ppc.op);
    var last := |s.ring| - 1;
    assert NextOf(s.heap, s.ring[last]) == s.ring[Succ(last, |s.ring|)];
    EmptyIsGone(s.heap, s.ring, s.lo, s.live, s.claims);
  }

  lemma NobodyOnOldest(s: State, t: nat)
    requires Inv(s) && t < |s.locs| && (s.locs[t].Read? || s.locs[t].Mark?)
    requires GoneOk(s.lo + 1, s.claims) && s.ring != []
    ensures s.locs[t].block != s.ring[0]
  {
    hide CellsOk, IndexOk, NumsOk, WrittenOk, FlagsOk, HeapOk, D.Inv, PpcOk;
    assert LocOk(s.locs[t], s.claims.spans[t], s.headers, s.ring, s.lo);
    var i := s.claims.spans[t].start;
    HeldBlocksStay(s, t, i);
    C.HeldIsNotGone(s.claims, t, i);
    BlocksDiffer(s.ring, s.lo, s.lo, Blk(i));
  }

  /** In every reachable state a consumer that is about to read finds its element there: the
      cell holds what was enqueued under its index, neither unwritten nor already destroyed. */
  lemma ReadersFindElements(states: seq<State>, acts: seq<Act>, i: nat, t: nat)
    requires Run(states, acts) && i < |states| && t < |states[i].locs| && states[i].locs[t].Read?
    ensures t < |states[i].claims.spans| && states[i].claims.spans[t].pos < |states[i].claims.vals|
    ensures var s := states[i];
            Cell(s.heap, s.locs[t].block, Off(s.claims.spans[t].pos)) == Some(s.claims.vals[s.claims.spans[t].pos])
  {
    RunKeepsInv(states, acts, i);
    ReadFindsElement(states[i], t);
  }

  /** In every reachable state no more is claimed than was enqueued. */
  lemma HeadStaysBelowTail(states: seq<State>, acts: seq<Act>, i: nat)
    requires Run(states, acts) && i < |states|
    ensures states[i].q.head <= states[i].q.tail == |states[i].claims.vals|
  {
    RunKeepsInv(states, acts, i);
    D.HeadNeverPassesTail(states[i].q);
  }
}
