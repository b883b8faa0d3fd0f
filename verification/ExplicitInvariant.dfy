/** What every step of the explicit producer and of its consumers keeps. */
module ExplicitInvariant {
  import opened Wrappers
  import opened Blocks
  import opened ExplicitProducer
  import C = Claims
  import D = DequeueCounters

  // ----- blocks and their ring -----

  predicate HeapOk(heap: seq<Block>) {
    forall b :: 0 <= b < |heap| ==> |heap[b].empty| == |heap[b].cells| == BLOCK_SIZE
  }

  predicate Distinct(ring: seq<nat>) {
    forall j, k :: 0 <= j < k < |ring| ==> ring[j] != ring[k]
  }

  predicate InHeap(heap: seq<Block>, ring: seq<nat>) {
    forall j :: 0 <= j < |ring| ==> ring[j] < |heap|
  }

  /** The `next` pointers go around the ring, from the oldest block to the tail block and back. */
  predicate RingOk(heap: seq<Block>, ring: seq<nat>) {
    && InHeap(heap, ring) && Distinct(ring)
    && (forall j :: 0 <= j < |ring| ==> NextOf(heap, ring[j]) == ring[Succ(j, |ring|)])
  }

  /** Two different indices never share a cell. */
  lemma PlacesDiffer(ring: seq<nat>, lo: nat, i: nat, j: nat)
    requires Distinct(ring) && i != j
    requires lo <= Blk(i) < lo + |ring| && lo <= Blk(j) < lo + |ring|
    ensures BlockAt(ring, lo, Blk(i)) != BlockAt(ring, lo, Blk(j)) || Off(i) != Off(j)
  {
    SplitIndex(i);
    SplitIndex(j);
  }

  lemma BlocksDiffer(ring: seq<nat>, lo: nat, m: nat, n: nat)
    requires Distinct(ring) && m != n
    requires lo <= m < lo + |ring| && lo <= n < lo + |ring|
    ensures BlockAt(ring, lo, m) != BlockAt(ring, lo, n)
  {
  }

  // ----- the block index -----

  function SlotOf(h: Header, n: nat): nat
    requires |h.entries| > 0 && h.origin <= n
  {
    Wrap(n - h.origin, |h.entries|)
  }

  predicate EntryOk(h: Header, ring: seq<nat>, lo: nat, n: nat)
    requires |h.entries| > 0 && h.origin <= n
  {
    EntryAt(h, SlotOf(h, n)) == Entry(Start(n), BlockAt(ring, lo, n))
  }

  predicate HeaderOk(h: Header, ring: seq<nat>, lo: nat) {
    && |h.entries| > 0
    && h.origin <= lo && h.top <= lo + |ring| && h.top <= lo + |h.entries|
    && h.num < h.top
    && (h.num >= 0 ==> h.origin <= h.num && h.front == SlotOf(h, h.num))
    && (forall n :: lo <= n < h.top ==> EntryOk(h, ring, lo, n))
  }

  predicate IndexOk(headers: seq<Header>, ring: seq<nat>, lo: nat) {
    && |headers| > 0
    && forall h :: 0 <= h < |headers| ==> HeaderOk(headers[h], ring, lo)
  }

  // ----- flags and cells -----

  predicate FlagOk(heap: seq<Block>, ring: seq<nat>, lo: nat, live: nat, c: C.State, n: nat, k: nat) {
    Empty(heap, BlockAt(ring, lo, n), k) <==> (n >= live || C.IsGone(c, Start(n) + k))
  }

  /** A slot's flag says that its index was given back, or that its block is set aside. */
  predicate FlagsOk(heap: seq<Block>, ring: seq<nat>, lo: nat, live: nat, c: C.State) {
    forall n: nat, k: nat :: lo <= n < lo + |ring| && k < BLOCK_SIZE ==> FlagOk(heap, ring, lo, live, c, n, k)
  }

  predicate CellOk(heap: seq<Block>, ring: seq<nat>, lo: nat, i: nat, v: Elem) {
    lo <= Blk(i) < lo + |ring| && Cell(heap, BlockAt(ring, lo, Blk(i)), Off(i)) == Some(v)
  }

  /** Every index not yet read has its element in its cell. */
  predicate CellsOk(heap: seq<Block>, ring: seq<nat>, lo: nat, c: C.State)
    requires |c.stage| <= |c.vals|
  {
    forall i: nat :: i < |c.stage| && C.Unread(c, i) ==> CellOk(heap, ring, lo, i, c.vals[i])
  }

  /** Blocks that left the window were given back completely. */
  predicate GoneOk(lo: nat, c: C.State) {
    forall i: nat :: i < |c.stage| && Blk(i) < lo ==> C.IsGone(c, i)
  }

  // ----- the consumers -----

  predicate LocOk(l: Loc, p: C.Span, headers: seq<Header>, ring: seq<nat>, lo: nat) {
    match l
    case Out => p.start == p.pos == p.hi
    case LoadHeader => p.start == p.pos < p.hi
    case LoadFront(h) =>
      p.start == p.pos < p.hi && h < |headers| && Blk(p.hi - 1) <= headers[h].num
    case LoadBase(h, front, num) =>
      && p.start == p.pos < p.hi && h < |headers| && |headers[h].entries| > 0
      && 0 <= Blk(p.hi - 1) <= num < headers[h].top && headers[h].origin <= num && front == SlotOf(headers[h], num)
    case LoadBlock(h, slot) =>
      && p.start == p.pos < p.hi && h < |headers| && |headers[h].entries| > 0
      && headers[h].origin <= Blk(p.pos) && Blk(p.hi - 1) < headers[h].top && slot == SlotOf(headers[h], Blk(p.pos))
    case Read(h, slot, b) =>
      && p.start <= p.pos < p.hi && Blk(p.start) == Blk(p.pos)
      && h < |headers| && |headers[h].entries| > 0
      && headers[h].origin <= Blk(p.start) && Blk(p.hi - 1) < headers[h].top && slot == SlotOf(headers[h], Blk(p.start))
      && b == BlockAt(ring, lo, Blk(p.start))
    case Mark(h, slot, b) =>
      && p.start < p.pos <= p.hi && Blk(p.start) == Blk(p.pos - 1) && (p.pos == p.hi || Off(p.pos) == 0)
      && h < |headers| && |headers[h].entries| > 0
      && headers[h].origin <= Blk(p.start) && Blk(p.hi - 1) < headers[h].top && slot == SlotOf(headers[h], Blk(p.start))
      && b == BlockAt(ring, lo, Blk(p.start))
  }

  predicate LocsOk(locs: seq<Loc>, spans: seq<C.Span>, headers: seq<Header>, ring: seq<nat>, lo: nat) {
    && |locs| == |spans|
    && forall t :: 0 <= t < |locs| ==> LocOk(locs[t], spans[t], headers, ring, lo)
  }

  /** The counters and the claims tell the same story. */
  predicate LinkOk(q: D.State, c: C.State, locs: seq<Loc>) {
    && D.Inv(q) && C.Inv(c)
    && q.tail == |c.vals| && q.head == c.head
    && |locs| == |q.pcs| == |c.spans|
    && (forall t :: 0 <= t < |locs| && locs[t] != Out ==> q.pcs[t] == D.Idle)
  }

  // ----- the producer -----

  function TailOf(ring: seq<nat>): Option<nat> { if ring == [] then None else Some(ring[|ring| - 1]) }

  predicate NumsOk(tail: nat, ring: seq<nat>, lo: nat, live: nat, slotsUsed: nat, front: nat, h: Header) {
    && CeilBlk(tail) <= live <= lo + |ring|
    && lo <= CeilBlk(tail) && (Off(tail) != 0 ==> lo < CeilBlk(tail))
    && slotsUsed == |ring| <= |h.entries| && |h.entries| > 0
    && (ring == [] ==> lo == 0)
    && h.origin <= lo <= h.top + 1 && h.origin <= h.top
    && front == Wrap(h.top - h.origin, |h.entries|)
    && CeilBlk(tail) <= h.num + 1
  }

  /** An operation that is setting blocks aside; it has done so up to block number `r`. */
  predicate OpOk(op: Op, tail: nat, ring: seq<nat>, lo: nat, live: nat, h: Header) {
    && op.vs != [] && (!op.bulk ==> |op.vs| == 1)
    && lo + |ring| + op.need == CeilBlk(tail + |op.vs|)
    && (if op.bulk then live == CeilBlk(tail) else live == lo + |ring|)
    && op.base == Start(h.top)
    && (op.first == if lo + |ring| == CeilBlk(tail) then None else Some(BlockAt(ring, lo, CeilBlk(tail))))
    && (Off(tail) != 0 ==> op.start == Some(BlockAt(ring, lo, Blk(tail))))
    && op.used <= |ring| && CeilBlk(tail) <= lo + op.used && (op.used == 0 ==> lo == 0)
  }

  predicate PpcOk(ppc: ProducerPC, tail: nat, ring: seq<nat>, lo: nat, live: nat, tailBlock: Option<nat>, h: Header)
    requires |h.entries| > 0
  {
    var r := lo + |ring|;
    match ppc
    case Idle => r == CeilBlk(tail) == live == h.top && tailBlock == TailOf(ring)
    case Reuse(op) => OpOk(op, tail, ring, lo, live, h) && op.need > 0 && h.top == r && tailBlock == TailOf(ring)
                      && op.used == |ring|
    case Room(op) => OpOk(op, tail, ring, lo, live, h) && op.need > 0 && h.top == r && tailBlock == TailOf(ring)
    case Grow(op) => OpOk(op, tail, ring, lo, live, h) && op.need > 0 && h.top == r && tailBlock == TailOf(ring)
                     && |ring| == |h.entries|
    case Link(op) => OpOk(op, tail, ring, lo, live, h) && op.need > 0 && h.top == r && tailBlock == TailOf(ring)
                     && |ring| < |h.entries|
    case SetBase(op, reused) => OpOk(op, tail, ring, lo, live, h) && h.top == r - 1 && tailBlock == TailOf(ring)
                                && r > CeilBlk(tail) && (reused ==> op.used == |ring|)
    case SetBlock(op, reused) => OpOk(op, tail, ring, lo, live, h) && h.origin <= h.top == r - 1 && tailBlock == TailOf(ring)
                                 && r > CeilBlk(tail) && (reused ==> op.used == |ring|)
                                 && EntryAt(h, Wrap(h.top - h.origin, |h.entries|)).base == op.base
    case ResetAll(op, b) => OpDone(op, tail, ring, lo) && op.bulk && h.top == r && tailBlock == TailOf(ring)
                            && live < r && b == BlockAt(ring, lo, live)
    case Publish(op) => OpDone(op, tail, ring, lo) && live == h.top == r && tailBlock == TailOf(ring)
    case Write(op, j, end) =>
      && op.vs != [] && j < |op.vs| && live == h.top == r == CeilBlk(tail + |op.vs|) && lo < r <= h.num + 1
      && end == TailOf(ring) && tailBlock == Some(BlockAt(ring, lo, Blk(tail + j)))
    case Finish(op) =>
      && op.vs != [] && live == h.top == r == CeilBlk(tail + |op.vs|) && lo < r <= h.num + 1
      && tailBlock == TailOf(ring)
  }

  /** An operation that has set all its blocks aside. */
  predicate OpDone(op: Op, tail: nat, ring: seq<nat>, lo: nat) {
    && op.vs != [] && (!op.bulk ==> |op.vs| == 1 && Off(tail) == 0)
    && lo + |ring| == CeilBlk(tail + |op.vs|) > CeilBlk(tail)
    && op.first == Some(BlockAt(ring, lo, CeilBlk(tail)))
    && (Off(tail) != 0 ==> op.start == Some(BlockAt(ring, lo, Blk(tail))))
  }

  /** The elements written so far by the operation under way. */
  function WrittenBy(ppc: ProducerPC): seq<Elem> {
    match ppc
    case Write(op, j, _) => if j <= |op.vs| then op.vs[..j] else []
    case Finish(op) => op.vs
    case _ => []
  }

  predicate WrittenOk(ppc: ProducerPC, heap: seq<Block>, ring: seq<nat>, lo: nat, tail: nat) {
    forall j: nat :: j < |WrittenBy(ppc)| ==> CellOk(heap, ring, lo, tail + j, WrittenBy(ppc)[j])
  }

  predicate Inv(s: State) {
    && Shape(s)
    && LinkOk(s.q, s.claims, s.locs)
    && HeapOk(s.heap) && RingOk(s.heap, s.ring)
    && IndexOk(s.headers, s.ring, s.lo)
    && GoneOk(s.lo, s.claims)
    && FlagsOk(s.heap, s.ring, s.lo, s.live, s.claims)
    && CellsOk(s.heap, s.ring, s.lo, s.claims)
    && LocsOk(s.locs, s.claims.spans, s.headers, s.ring, s.lo)
    && NumsOk(s.q.tail, s.ring, s.lo, s.live, s.slotsUsed, s.front, Last(s))
    && PpcOk(s.ppc, s.q.tail, s.ring, s.lo, s.live, s.tailBlock, Last(s))
    && WrittenOk(s.ppc, s.heap, s.ring, s.lo, s.q.tail)
  }

  // ----- the consumers keep it -----

  /** What thread `t` has claimed lies in blocks that are still on the ring. */
  lemma HeldBlocksStay(s: State, t: nat, i: nat)
    requires Inv(s) && t < |s.locs| && s.claims.spans[t].start <= i < s.claims.spans[t].hi
    ensures i < s.q.tail && s.lo <= Blk(i) < CeilBlk(s.q.tail) <= s.lo + |s.ring|
    ensures Blk(s.claims.spans[t].start) <= Blk(i) <= Blk(s.claims.spans[t].hi - 1)
  {
    C.HeldIsNotGone(s.claims, t, i);
    assert C.SpanOk(s.claims, t);
    BelowCeil(i, s.q.tail);
    BlkMonotone(s.claims.spans[t].start, i);
    BlkMonotone(i, s.claims.spans[t].hi - 1);
  }

  /** A step of a consumer that moves only its own location. */
  lemma MoveKeeps(s: State, s': State, t: nat)
    requires Inv(s) && t < |s.locs| && s.locs[t] != Out
    requires |s'.locs| == |s.locs| && s' == s.(locs := s.locs[t := s'.locs[t]])
    requires LocOk(s'.locs[t], s.claims.spans[t], s.headers, s.ring, s.lo)
    ensures Inv(s')
  {
    hide FlagsOk, CellsOk, GoneOk, HeapOk, RingOk, IndexOk, NumsOk, PpcOk, WrittenOk;
    forall u | 0 <= u < |s.locs| ensures LocOk(s'.locs[u], s.claims.spans[u], s.headers, s.ring, s.lo) {
      assert LocOk(s.locs[u], s.claims.spans[u], s.headers, s.ring, s.lo);
    }
  }

  lemma LoadHeaderKeeps(s: State, t: nat, want: D.Want, seen: nat)
    requires Inv(s) && t < |s.locs| && s.locs[t].LoadHeader?
    ensures Inv(ConsumerStep(s, t, want, seen))
  {
    hide FlagsOk, CellsOk, GoneOk, HeapOk, RingOk, PpcOk, WrittenOk, LinkOk;
    assert LocOk(s.locs[t], s.claims.spans[t], s.headers, s.ring, s.lo);
    HeldBlocksStay(s, t, s.claims.spans[t].hi - 1);
    MoveKeeps(s, ConsumerStep(s, t, want, seen), t);
  }

  lemma LoadFrontKeeps(s: State, t: nat, want: D.Want, seen: nat)
    requires Inv(s) && t < |s.locs| && s.locs[t].LoadFront?
    ensures Inv(ConsumerStep(s, t, want, seen))
  {
    hide FlagsOk, CellsOk, GoneOk, HeapOk, RingOk, NumsOk, PpcOk, WrittenOk, LinkOk;
    assert LocOk(s.locs[t], s.claims.spans[t], s.headers, s.ring, s.lo);
    var h := s.headers[s.locs[t].h];
    assert HeaderOk(h, s.ring, s.lo);
    assert ConsumerStep(s, t, want, seen) == At(s, t, LoadBase(s.locs[t].h, h.front, h.num));
    MoveKeeps(s, ConsumerStep(s, t, want, seen), t);
  }

  /** The offset computed from the base of a newer block leads to the wanted block's slot. */
  lemma OffsetLeadsToSlot(h: Header, ring: seq<nat>, lo: nat, b: nat, m: nat)
    requires HeaderOk(h, ring, lo) && lo <= b <= m < h.top
    ensures Mask(SlotOf(h, m) + DivBlocks(Start(b) - EntryAt(h, SlotOf(h, m)).base), |h.entries|) == SlotOf(h, b)
  {
    assert EntryOk(h, ring, lo, m);
    DivBlocksOfStarts(b, m);
    MaskBack(m - h.origin, m - b, |h.entries|);
  }

  lemma BaseFound(l: Loc, p: C.Span, headers: seq<Header>, ring: seq<nat>, lo: nat)
    requires l.LoadBase? && LocOk(l, p, headers, ring, lo) && HeaderOk(headers[l.h], ring, lo)
    requires lo <= Blk(p.pos) <= Blk(p.hi - 1)
    ensures var offset := DivBlocks(Base(p.pos) - EntryAt(headers[l.h], l.front).base);
            LocOk(LoadBlock(l.h, Mask(l.front + offset, |headers[l.h].entries|)), p, headers, ring, lo)
  {
    OffsetLeadsToSlot(headers[l.h], ring, lo, Blk(p.pos), l.num);
  }

  lemma LoadBaseKeeps(s: State, t: nat, want: D.Want, seen: nat)
    requires Inv(s) && t < |s.locs| && s.locs[t].LoadBase?
    ensures Inv(ConsumerStep(s, t, want, seen))
  {
    hide FlagsOk, CellsOk, GoneOk, HeapOk, RingOk, NumsOk, PpcOk, WrittenOk, LinkOk;
    var l, p := s.locs[t], s.claims.spans[t];
    assert LocOk(l, p, s.headers, s.ring, s.lo);
    HeldBlocksStay(s, t, p.pos);
    assert HeaderOk(s.headers[l.h], s.ring, s.lo);
    BaseFound(l, p, s.headers, s.ring, s.lo);
    MoveKeeps(s, ConsumerStep(s, t, want, seen), t);
  }

  lemma LoadBlockKeeps(s: State, t: nat, want: D.Want, seen: nat)
    requires Inv(s) && t < |s.locs| && s.locs[t].LoadBlock?
    ensures Inv(ConsumerStep(s, t, want, seen))
  {
    hide FlagsOk, CellsOk, GoneOk, HeapOk, RingOk, NumsOk, PpcOk, WrittenOk, LinkOk;
    var l, p := s.locs[t], s.claims.spans[t];
    assert LocOk(l, p, s.headers, s.ring, s.lo);
    HeldBlocksStay(s, t, p.pos);
    assert HeaderOk(s.headers[l.h], s.ring, s.lo);
    assert EntryOk(s.headers[l.h], s.ring, s.lo, Blk(p.pos));
    MoveKeeps(s, ConsumerStep(s, t, want, seen), t);
  }

  // ----- claiming -----

  lemma SameFlags(heap: seq<Block>, ring: seq<nat>, lo: nat, live: nat, c: C.State, c': C.State)
    requires FlagsOk(heap, ring, lo, live, c)
    requires forall i: nat :: C.IsGone(c', i) <==> C.IsGone(c, i)
    ensures FlagsOk(heap, ring, lo, live, c')
  {
    forall n: nat, k: nat | lo <= n < lo + |ring| && k < BLOCK_SIZE ensures FlagOk(heap, ring, lo, live, c', n, k) {
      assert FlagOk(heap, ring, lo, live, c, n, k);
    }
  }

  /** When the counters grant `n` indices there are `n` published ones left to claim. */
  lemma GrantIsThere(q: D.State, q': D.State, t: nat, want: D.Want, seen: nat)
    requires D.Inv(q) && t < |q.pcs| && q' == D.Step(q, D.Consume(t, want, seen))
    ensures D.Inv(q') && q'.tail == q.tail && |q'.pcs| == |q.pcs| && q'.pcs == q.pcs[t := q'.pcs[t]]
    ensures q'.head == q.head + (if q.pcs[t].Claim? then q.pcs[t].actual else 0) <= q'.tail
    ensures q.pcs[t].Claim? ==> q'.pcs[t] == D.Idle
  {
    D.StepKeepsInv(q, D.Consume(t, want, seen));
    D.HeadNeverPassesTail(q');
    hide D.Inv;
  }

  lemma SameCells(heap: seq<Block>, ring: seq<nat>, lo: nat, c: C.State, c': C.State)
    requires |c.stage| == |c'.stage| && c'.vals == c.vals && |c.stage| <= |c.vals|
    requires CellsOk(heap, ring, lo, c)
    requires forall i: nat :: C.Unread(c', i) <==> C.Unread(c, i)
    ensures CellsOk(heap, ring, lo, c')
  {
  }

  lemma SameGone(lo: nat, c: C.State, c': C.State)
    requires GoneOk(lo, c) && |c'.stage| == |c.stage|
    requires forall i: nat :: C.IsGone(c, i) ==> C.IsGone(c', i)
    ensures GoneOk(lo, c')
  {
  }

  lemma ClaimKeeps(s: State, t: nat, q: D.State, n: nat)
    requires Inv(s) && t < |s.locs| && s.locs[t].Out?
    requires D.Inv(q) && q.tail == s.q.tail && q.head == s.q.head + n <= q.tail && n > 0
    requires |q.pcs| == |s.q.pcs| && q.pcs == s.q.pcs[t := D.Idle]
    ensures s.claims.head + n <= |s.claims.stage|
    ensures Inv(At(s, t, LoadHeader).(q := q, claims := C.Take(s.claims, t, n)))
  {
    hide D.Inv, HeapOk, RingOk, IndexOk, NumsOk, PpcOk, WrittenOk, GoneOk, CellsOk, FlagsOk, C.IsGone, C.Unread, C.SpanOk, C.StageOk;
    assert LocOk(s.locs[t], s.claims.spans[t], s.headers, s.ring, s.lo);
    C.TakeKeeps(s.claims, t, n);
    DShape(q);
    var c' := C.Take(s.claims, t, n);
    SameFlags(s.heap, s.ring, s.lo, s.live, s.claims, c');
    SameCells(s.heap, s.ring, s.lo, s.claims, c');
    SameGone(s.lo, s.claims, c');
    forall u | 0 <= u < |s.locs|
      ensures LocOk(if u == t then LoadHeader else s.locs[u], c'.spans[u], s.headers, s.ring, s.lo)
    {
      assert LocOk(s.locs[u], s.claims.spans[u], s.headers, s.ring, s.lo);
    }
  }

  lemma OutKeeps(s: State, t: nat, want: D.Want, seen: nat)
    requires Inv(s) && t < |s.locs| && s.locs[t].Out?
    ensures Inv(ConsumerStep(s, t, want, seen))
  {
    hide D.Inv, D.Step, C.Inv, C.Take, HeapOk, RingOk, IndexOk, NumsOk, PpcOk, WrittenOk, GoneOk, CellsOk, FlagsOk, C.IsGone, C.Unread;
    var q := D.Step(s.q, D.Consume(t, want, seen));
    GrantIsThere(s.q, q, t, want, seen);
    assert D.Shape(q) by { DShape(q); }
    if s.q.pcs[t].Claim? && s.q.pcs[t].actual > 0 {
      ClaimKeeps(s, t, q, s.q.pcs[t].actual);
    } else {
      assert LocOk(s.locs[t], s.claims.spans[t], s.headers, s.ring, s.lo);
    }
  }

  lemma DShape(q: D.State)
    requires D.Inv(q)
    ensures D.Shape(q)
  {
  }

  // ----- reading -----

  lemma SetCellFrame(heap: seq<Block>, b: nat, k: nat, v: Option<Elem>)
    requires HeapOk(heap)
    ensures var heap' := SetCell(heap, b, k, v);
            && |heap'| == |heap| && HeapOk(heap')
            && (forall b': nat :: NextOf(heap', b') == NextOf(heap, b'))
            && (forall b': nat, k': nat :: Empty(heap', b', k') <==> Empty(heap, b', k'))
            && (forall b': nat, k': nat :: b' != b || k' != k ==> Cell(heap', b', k') == Cell(heap, b', k'))
            && (b < |heap| && k < BLOCK_SIZE ==> Cell(heap', b, k) == v)
  {
  }

  lemma RingFrame(heap: seq<Block>, heap': seq<Block>, ring: seq<nat>)
    requires RingOk(heap, ring) && |heap| <= |heap'|
    requires forall j :: 0 <= j < |ring| ==> NextOf(heap', ring[j]) == NextOf(heap, ring[j])
    ensures RingOk(heap', ring)
  {
  }

  lemma FlagsFrame(heap: seq<Block>, heap': seq<Block>, ring: seq<nat>, lo: nat, live: nat, c: C.State)
    requires FlagsOk(heap, ring, lo, live, c)
    requires forall b: nat, k: nat :: Empty(heap', b, k) <==> Empty(heap, b, k)
    ensures FlagsOk(heap', ring, lo, live, c)
  {
    forall n: nat, k: nat | lo <= n < lo + |ring| && k < BLOCK_SIZE ensures FlagOk(heap', ring, lo, live, c, n, k) {
      assert FlagOk(heap, ring, lo, live, c, n, k);
    }
  }

  /** Writing the cell of index `i` leaves the cells of all other indices alone. */
  lemma OtherCell(heap: seq<Block>, ring: seq<nat>, lo: nat, i: nat, v: Option<Elem>, j: nat, w: Elem)
    requires HeapOk(heap) && Distinct(ring) && lo <= Blk(i) < lo + |ring| && i != j
    requires CellOk(heap, ring, lo, j, w)
    ensures CellOk(SetCell(heap, BlockAt(ring, lo, Blk(i)), Off(i), v), ring, lo, j, w)
  {
    PlacesDiffer(ring, lo, i, j);
    SetCellFrame(heap, BlockAt(ring, lo, Blk(i)), Off(i), v);
  }

  lemma ReadCells(heap: seq<Block>, ring: seq<nat>, lo: nat, c: C.State, c': C.State, i: nat)
    requires HeapOk(heap) && Distinct(ring) && lo <= Blk(i) < lo + |ring|
    requires |c.stage| == |c'.stage| <= |c.vals| && c'.vals == c.vals
    requires CellsOk(heap, ring, lo, c)
    requires forall j: nat :: C.Unread(c', j) ==> C.Unread(c, j) && j != i
    ensures CellsOk(SetCell(heap, BlockAt(ring, lo, Blk(i)), Off(i), None), ring, lo, c')
  {
    forall j: nat | j < |c.stage| && C.Unread(c', j)
      ensures CellOk(SetCell(heap, BlockAt(ring, lo, Blk(i)), Off(i), None), ring, lo, j, c.vals[j])
    {
      OtherCell(heap, ring, lo, i, None, j, c.vals[j]);
    }
  }

  lemma ReadWritten(ppc: ProducerPC, heap: seq<Block>, ring: seq<nat>, lo: nat, tail: nat, i: nat, v: Option<Elem>)
    requires HeapOk(heap) && Distinct(ring) && lo <= Blk(i) < lo + |ring| && i < tail
    requires WrittenOk(ppc, heap, ring, lo, tail)
    ensures WrittenOk(ppc, SetCell(heap, BlockAt(ring, lo, Blk(i)), Off(i), v), ring, lo, tail)
  {
    forall j: nat | j < |WrittenBy(ppc)|
      ensures CellOk(SetCell(heap, BlockAt(ring, lo, Blk(i)), Off(i), v), ring, lo, tail + j, WrittenBy(ppc)[j])
    {
      OtherCell(heap, ring, lo, i, v, tail + j, WrittenBy(ppc)[j]);
    }
  }

  /** A consumer finds the element of its index in the block it looked up. */
  lemma ReadFindsElement(s: State, t: nat)
    requires Inv(s) && t < |s.locs| && s.locs[t].Read?
    ensures s.claims.spans[t].pos < |s.claims.vals|
    ensures Cell(s.heap, s.locs[t].block, Off(s.claims.spans[t].pos)) == Some(s.claims.vals[s.claims.spans[t].pos])
    ensures s.lo <= Blk(s.claims.spans[t].pos) < s.lo + |s.ring|
    ensures s.locs[t].block == BlockAt(s.ring, s.lo, Blk(s.claims.spans[t].pos))
    ensures s.claims.spans[t].pos < s.claims.spans[t].hi <= |s.claims.vals|
  {
    hide FlagsOk, HeapOk, RingOk, IndexOk, NumsOk, PpcOk, WrittenOk;
    var i := s.claims.spans[t].pos;
    assert LocOk(s.locs[t], s.claims.spans[t], s.headers, s.ring, s.lo);
    HeldBlocksStay(s, t, i);
    C.ReadKeeps(s.claims, t);
    assert CellOk(s.heap, s.ring, s.lo, i, s.claims.vals[i]);
    assert C.SpanOk(s.claims, t);
  }

  /** Blocks, flags and cells after one element has been read and destroyed. */
  lemma ReadHeap(s: State, t: nat, i: nat, b: nat)
    requires Inv(s) && t < |s.locs| && s.locs[t].Read?
    requires i == s.claims.spans[t].pos && b == s.locs[t].block
    ensures i < |s.claims.vals|
    ensures var heap, c := SetCell(s.heap, b, Off(i), None), C.Read(s.claims, t, s.claims.vals[i]);
            && HeapOk(heap) && RingOk(heap, s.ring) && GoneOk(s.lo, c)
            && FlagsOk(heap, s.ring, s.lo, s.live, c) && CellsOk(heap, s.ring, s.lo, c)
            && WrittenOk(s.ppc, heap, s.ring, s.lo, s.q.tail) && C.Inv(c)
  {
    hide D.Inv, IndexOk, NumsOk, PpcOk, WrittenOk, GoneOk, CellsOk, FlagsOk, C.IsGone, C.Unread, C.SpanOk, C.StageOk, Empty, Cell, HeapOk, LocOk;
    ReadFindsElement(s, t);
    C.ReadKeeps(s.claims, t);
    var c' := C.Read(s.claims, t, s.claims.vals[i]);
    var heap' := SetCell(s.heap, b, Off(i), None);
    SetCellFrame(s.heap, b, Off(i), None);
    RingFrame(s.heap, heap', s.ring);
    FlagsFrame(s.heap, heap', s.ring, s.lo, s.live, s.claims);
    ReadGone(s.claims, t);
    SameFlags(heap', s.ring, s.lo, s.live, s.claims, c');
    SameGone(s.lo, s.claims, c');
    ReadCells(s.heap, s.ring, s.lo, s.claims, c', i);
    ReadWritten(s.ppc, s.heap, s.ring, s.lo, s.q.tail, i, None);
  }

  lemma ReadKeeps(s: State, t: nat, want: D.Want, seen: nat)
    requires Inv(s) && t < |s.locs| && s.locs[t].Read?
    ensures Inv(ConsumerStep(s, t, want, seen))
  {
    hide D.Inv, HeapOk, IndexOk, NumsOk, PpcOk, WrittenOk, GoneOk, CellsOk, FlagsOk, C.Inv, Empty, Cell, RingOk, LocOk, D.Shape, SetCell;
    ReadFindsElement(s, t);
    ReadHeap(s, t, s.claims.spans[t].pos, s.locs[t].block);
    ReadMoves(s, t, want, seen);
  }

  lemma ReadGone(c: C.State, t: nat)
    requires t < |c.spans| && c.spans[t].pos < |c.vals|
    ensures forall i: nat :: C.IsGone(C.Read(c, t, c.vals[c.spans[t].pos]), i) <==> C.IsGone(c, i)
  {
  }

  /** Where the consumer is after reading one element. */
  lemma ReadMoves(s: State, t: nat, want: D.Want, seen: nat)
    requires Inv(s) && t < |s.locs| && s.locs[t].Read?
    ensures var s' := ConsumerStep(s, t, want, seen);
            && Shape(s') && LocsOk(s'.locs, s'.claims.spans, s.headers, s.ring, s.lo)
            && (forall u :: 0 <= u < |s.locs| ==> (s'.locs[u] == Out <==> s.locs[u] == Out))
  {
    hide D.Inv, C.Inv, HeapOk, IndexOk, NumsOk, PpcOk, WrittenOk, GoneOk, CellsOk, FlagsOk, RingOk;
    var p := s.claims.spans[t];
    ReadFindsElement(s, t);
    NextIndex(p.pos);
    var s' := ConsumerStep(s, t, want, seen);
    assert LocOk(s.locs[t], p, s.headers, s.ring, s.lo);
    assert LocOk(s'.locs[t], s'.claims.spans[t], s.headers, s.ring, s.lo);
    forall u | 0 <= u < |s.locs| ensures LocOk(s'.locs[u], s'.claims.spans[u], s.headers, s.ring, s.lo) {
      assert LocOk(s.locs[u], s.claims.spans[u], s.headers, s.ring, s.lo);
    }
  }

  // ----- giving back -----

  lemma MarkEmptyFrame(heap: seq<Block>, b: nat, k: nat, n: nat)
    requires HeapOk(heap) && b < |heap| && k + n <= BLOCK_SIZE
    ensures var heap' := MarkEmpty(heap, b, k, n);
            && |heap'| == |heap| && HeapOk(heap')
            && (forall b': nat :: NextOf(heap', b') == NextOf(heap, b'))
            && (forall b': nat, k': nat :: Cell(heap', b', k') == Cell(heap, b', k'))
            && (forall b': nat, k': nat :: Empty(heap', b', k') <==> Empty(heap, b', k') || (b' == b && k <= k' < k + n))
  {
  }

  /** The part of a block from `start` to `pos`, as slots. */
  lemma PartOfBlock(start: nat, pos: nat)
    requires start < pos && Blk(start) == Blk(pos - 1)
    ensures Off(start) + (pos - start) <= BLOCK_SIZE
  {
    SplitIndex(start);
    SplitIndex(pos - 1);
  }

  lemma SlotInPart(start: nat, pos: nat, n: nat, k: nat)
    requires start < pos && Blk(start) == Blk(pos - 1) && k < BLOCK_SIZE
    ensures start <= Start(n) + k < pos <==> n == Blk(start) && Off(start) <= k < Off(start) + (pos - start)
  {
    SplitIndex(start);
    JoinIndex(n, k);
    if start <= Start(n) + k < pos {
      BlkMonotone(start, Start(n) + k);
      BlkMonotone(Start(n) + k, pos - 1);
    }
  }

  lemma MarkFlags(heap: seq<Block>, ring: seq<nat>, lo: nat, live: nat, c: C.State, c': C.State, start: nat, pos: nat)
    requires HeapOk(heap) && Distinct(ring) && InHeap(heap, ring) && FlagsOk(heap, ring, lo, live, c)
    requires start < pos && Blk(start) == Blk(pos - 1) && lo <= Blk(start) < lo + |ring|
    requires forall i: nat :: C.IsGone(c', i) <==> C.IsGone(c, i) || start <= i < pos
    ensures Off(start) + (pos - start) <= BLOCK_SIZE
    ensures FlagsOk(MarkEmpty(heap, BlockAt(ring, lo, Blk(start)), Off(start), pos - start), ring, lo, live, c')
  {
    hide Empty, C.IsGone, HeapOk, MarkEmpty;
    PartOfBlock(start, pos);
    var b := BlockAt(ring, lo, Blk(start));
    MarkEmptyFrame(heap, b, Off(start), pos - start);
    var heap' := MarkEmpty(heap, b, Off(start), pos - start);
    forall n: nat, k: nat | lo <= n < lo + |ring| && k < BLOCK_SIZE ensures FlagOk(heap', ring, lo, live, c', n, k) {
      assert FlagOk(heap, ring, lo, live, c, n, k);
      SlotInPart(start, pos, n, k);
      if n != Blk(start) {
        BlocksDiffer(ring, lo, n, Blk(start));
      }
    }
  }

  lemma CellsFrame(heap: seq<Block>, heap': seq<Block>, ring: seq<nat>, lo: nat, c: C.State)
    requires |c.stage| <= |c.vals| && CellsOk(heap, ring, lo, c)
    requires forall b: nat, k: nat :: Cell(heap', b, k) == Cell(heap, b, k)
    ensures CellsOk(heap', ring, lo, c)
  {
    forall i: nat | i < |c.stage| && C.Unread(c, i) ensures CellOk(heap', ring, lo, i, c.vals[i]) {
      assert CellOk(heap, ring, lo, i, c.vals[i]);
    }
  }

  lemma WrittenFrame(ppc: ProducerPC, heap: seq<Block>, heap': seq<Block>, ring: seq<nat>, lo: nat, tail: nat)
    requires WrittenOk(ppc, heap, ring, lo, tail)
    requires forall b: nat, k: nat :: Cell(heap', b, k) == Cell(heap, b, k)
    ensures WrittenOk(ppc, heap', ring, lo, tail)
  {
    forall j: nat | j < |WrittenBy(ppc)| ensures CellOk(heap', ring, lo, tail + j, WrittenBy(ppc)[j]) {
      assert CellOk(heap, ring, lo, tail + j, WrittenBy(ppc)[j]);
    }
  }

  /** Where a consumer stands when it gives slots back. */
  lemma MarkPlace(s: State, t: nat)
    requires Inv(s) && t < |s.locs| && s.locs[t].Mark?
    ensures var p := s.claims.spans[t];
            && p.start < p.pos <= p.hi <= |s.claims.stage| && Blk(p.start) == Blk(p.pos - 1)
            && s.lo <= Blk(p.start) < s.lo + |s.ring| && s.locs[t].block == BlockAt(s.ring, s.lo, Blk(p.start))
  {
    hide FlagsOk, CellsOk, HeapOk, RingOk, IndexOk, NumsOk, PpcOk, WrittenOk;
    var p := s.claims.spans[t];
    assert LocOk(s.locs[t], p, s.headers, s.ring, s.lo);
    HeldBlocksStay(s, t, p.start);
    assert C.SpanOk(s.claims, t);
  }

  /** Blocks, flags and cells after part of a block has been given back. */
  lemma MarkHeap(s: State, t: nat)
    requires Inv(s) && t < |s.locs| && s.locs[t].Mark?
    ensures var p := s.claims.spans[t];
            && p.start < p.pos <= |s.claims.stage|
            && (var heap, c := MarkEmpty(s.heap, s.locs[t].block, Off(p.start), p.pos - p.start), C.GiveBack(s.claims, t);
                && HeapOk(heap) && RingOk(heap, s.ring) && GoneOk(s.lo, c)
                && FlagsOk(heap, s.ring, s.lo, s.live, c) && CellsOk(heap, s.ring, s.lo, c)
                && WrittenOk(s.ppc, heap, s.ring, s.lo, s.q.tail) && C.Inv(c))
  {
    hide D.Inv, IndexOk, NumsOk, PpcOk, WrittenOk, GoneOk, CellsOk, FlagsOk, C.IsGone, C.Unread, C.SpanOk, C.StageOk, Empty, Cell, HeapOk, LocOk, MarkEmpty, NextOf;
    MarkPlace(s, t);
    var p, b := s.claims.spans[t], s.locs[t].block;
    C.GiveBackKeeps(s.claims, t);
    var c' := C.GiveBack(s.claims, t);
    MarkFlags(s.heap, s.ring, s.lo, s.live, s.claims, c', p.start, p.pos);
    MarkEmptyFrame(s.heap, b, Off(p.start), p.pos - p.start);
    var heap' := MarkEmpty(s.heap, b, Off(p.start), p.pos - p.start);
    RingFrame(s.heap, heap', s.ring);
    SameGone(s.lo, s.claims, c');
    CellsFrame(s.heap, heap', s.ring, s.lo, s.claims);
    SameCells(heap', s.ring, s.lo, s.claims, c');
    WrittenFrame(s.ppc, s.heap, heap', s.ring, s.lo, s.q.tail);
  }

  lemma NextSlot(h: Header, pos: nat)
    requires |h.entries| > 0 && pos > 0 && Off(pos) == 0 && h.origin <= Blk(pos - 1)
    ensures Blk(pos) == Blk(pos - 1) + 1 && SlotOf(h, Blk(pos)) == Succ(SlotOf(h, Blk(pos - 1)), |h.entries|)
  {
    NextIndex(pos - 1);
    WrapBelow(Blk(pos - 1) - h.origin, |h.entries|);
  }

  lemma MarkMoves(s: State, t: nat, want: D.Want, seen: nat)
    requires Inv(s) && t < |s.locs| && s.locs[t].Mark?
    ensures var s' := ConsumerStep(s, t, want, seen);
            && Shape(s') && LocsOk(s'.locs, s'.claims.spans, s.headers, s.ring, s.lo)
            && (forall u :: 0 <= u < |s.locs| && u != t ==> s'.locs[u] == s.locs[u])
  {
    hide D.Inv, C.Inv, HeapOk, IndexOk, NumsOk, PpcOk, WrittenOk, GoneOk, CellsOk, FlagsOk, RingOk;
    var p, l := s.claims.spans[t], s.locs[t];
    MarkPlace(s, t);
    var s' := ConsumerStep(s, t, want, seen);
    assert LocOk(l, p, s.headers, s.ring, s.lo);
    if p.pos < p.hi {
      NextSlot(s.headers[l.h], p.pos);
    }
    forall u | 0 <= u < |s.locs| ensures LocOk(s'.locs[u], s'.claims.spans[u], s.headers, s.ring, s.lo) {
      assert LocOk(s.locs[u], s.claims.spans[u], s.headers, s.ring, s.lo);
    }
  }

  lemma MarkKeeps(s: State, t: nat, want: D.Want, seen: nat)
    requires Inv(s) && t < |s.locs| && s.locs[t].Mark?
    ensures Inv(ConsumerStep(s, t, want, seen))
  {
    hide D.Inv, HeapOk, IndexOk, NumsOk, PpcOk, WrittenOk, GoneOk, CellsOk, FlagsOk, C.Inv, Empty, Cell, RingOk, LocOk, D.Shape, MarkEmpty;
    MarkHeap(s, t);
    MarkMoves(s, t, want, seen);
  }

  /** Every step of every consumer keeps the invariant. */
  lemma ConsumerKeepsInv(s: State, t: nat, want: D.Want, seen: nat)
    requires Inv(s) && t < |s.locs|
    ensures Inv(ConsumerStep(s, t, want, seen))
  {
    hide *;
    match s.locs[t]
    case Out => OutKeeps(s, t, want, seen);
    case LoadHeader => LoadHeaderKeeps(s, t, want, seen);
    case LoadFront(_) => LoadFrontKeeps(s, t, want, seen);
    case LoadBase(_, _, _) => LoadBaseKeeps(s, t, want, seen);
    case LoadBlock(_, _) => LoadBlockKeeps(s, t, want, seen);
    case Read(_, _, _) => ReadKeeps(s, t, want, seen);
    case Mark(_, _, _) => MarkKeeps(s, t, want, seen);
  }
}
