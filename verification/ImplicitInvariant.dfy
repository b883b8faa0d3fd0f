/** What every step of the implicit producer and of its consumers keeps. */
module ImplicitInvariant {
  import opened Wrappers
  import opened Blocks
  import opened ImplicitProducer
  import C = Claims
  import D = DequeueCounters

  // ----- who has which block -----

  ghost predicate HeapOk(heap: seq<Block>) {
    forall b :: 0 <= b < |heap| ==> |heap[b].cells| == BLOCK_SIZE
  }

  ghost predicate Owned(life: seq<Life>, n: nat) { n < |life| && life[n] != Freed }

  /** The entry of block number `n` holds its block. */
  predicate Listed(life: seq<Life>, n: nat) { n < |life| && (life[n].Live? || life[n].Clearing?) }

  function BlockOf(blocks: seq<nat>, n: nat): nat { if n < |blocks| then blocks[n] else 0 }

  /** A block in use is not in the pool and has one number. */
  ghost predicate OwnOk(heap: seq<Block>, blocks: seq<nat>, life: seq<Life>) {
    && |blocks| == |life|
    && (forall n: nat :: Owned(life, n) ==> BlockOf(blocks, n) < |heap| && !IsFree(heap, BlockOf(blocks, n)))
    && (forall m: nat, n: nat :: Owned(life, m) && Owned(life, n) && m != n ==> BlockOf(blocks, m) != BlockOf(blocks, n))
  }

  /** How many of the first `k` slots of block number `n` were given back. */
  function GoneUpTo(c: C.State, n: nat, k: nat): nat {
    if k == 0 then 0 else GoneUpTo(c, n, k - 1) + if C.IsGone(c, Start(n) + (k - 1)) then 1 else 0
  }

  /** A block's count is the number of its slots given back; it is listed until all of them are. */
  ghost predicate LifeAt(heap: seq<Block>, blocks: seq<nat>, life: seq<Life>, c: C.State, n: nat)
    requires n < |life|
  {
    && (life[n].Live? ==> Done(heap, BlockOf(blocks, n)) == GoneUpTo(c, n, BLOCK_SIZE) < BLOCK_SIZE)
    && (!life[n].Live? && n < CeilBlk(|c.stage|) ==> GoneUpTo(c, n, BLOCK_SIZE) == BLOCK_SIZE)
  }

  ghost predicate LifeOk(heap: seq<Block>, blocks: seq<nat>, life: seq<Life>, c: C.State) {
    && CeilBlk(|c.stage|) <= |life|
    && forall n: nat :: n < |life| ==> LifeAt(heap, blocks, life, c, n)
  }

  // ----- elements -----

  ghost predicate CellOk(heap: seq<Block>, blocks: seq<nat>, i: nat, v: Elem) {
    Blk(i) < |blocks| && Cell(heap, BlockOf(blocks, Blk(i)), Off(i)) == Some(v)
  }

  /** Every index not yet read has its element in its cell. */
  ghost predicate CellsOk(heap: seq<Block>, blocks: seq<nat>, c: C.State)
    requires |c.stage| <= |c.vals|
  {
    forall i: nat :: i < |c.stage| && C.Unread(c, i) ==> CellOk(heap, blocks, i, c.vals[i])
  }

  // ----- the block index -----

  function Pos(h: Header, n: nat): nat
    requires |h.index| > 0 && h.origin <= n
  {
    Wrap(n - h.origin, |h.index|)
  }

  /** What the entry of block number `n` holds. */
  function Due(blocks: seq<nat>, life: seq<Life>, n: nat): Entry {
    Entry(Start(n), if Listed(life, n) then Some(BlockOf(blocks, n)) else None)
  }

  /** The block numbers whose entries the ring still holds. */
  ghost predicate InWindow(h: Header, high: nat, n: nat) { h.origin <= n < high && high <= n + |h.index| }

  ghost predicate SlotOk(h: Header, entries: seq<Entry>, home: seq<nat>, blocks: seq<nat>, life: seq<Life>, high: nat, n: nat)
    requires |h.index| > 0 && h.origin <= n
  {
    var e := Slot(h, Pos(h, n));
    && (InWindow(h, high, n) ==> EntryAt(entries, e) == Due(blocks, life, n) && (n < |home| ==> e == home[n]))
    && (high <= n < h.origin + |h.index| ==> EntryAt(entries, e) == Entry(INVALID_BLOCK_BASE, None))
  }

  ghost predicate Distinct(index: seq<nat>) { forall j, k :: 0 <= j < k < |index| ==> index[j] != index[k] }

  ghost predicate InRange(index: seq<nat>, size: nat) { forall j :: 0 <= j < |index| ==> index[j] < size }

  /** The newest ring.  Numbers up to `high` were inserted, the last of them perhaps by operations
      that failed. */
  ghost predicate WindowOk(h: Header, entries: seq<Entry>, home: seq<nat>, blocks: seq<nat>, life: seq<Life>, high: nat) {
    && |h.index| > 0 && Distinct(h.index) && InRange(h.index, |entries|)
    && (forall n: nat :: h.origin <= n ==> SlotOk(h, entries, home, blocks, life, high, n))
    && (forall n: nat :: Listed(life, n) ==> InWindow(h, high, n))
  }

  ghost predicate Doubling(headers: seq<Header>) {
    && (forall h :: 0 <= h < |headers| ==> |headers[h].index| > 0)
    && (forall h :: 0 < h < |headers| ==> |headers[h].index| == 2 * |headers[h - 1].index|)
  }

  ghost predicate IndexOk(headers: seq<Header>, entries: seq<Entry>, home: seq<nat>, blocks: seq<nat>, life: seq<Life>, high: nat) {
    && Doubling(headers)
    && |home| == |blocks| == |life| <= high
    && (headers == [] ==> high == 0)
    && (headers != [] ==> WindowOk(headers[|headers| - 1], entries, home, blocks, life, high))
  }

  // ----- the consumers -----

  ghost predicate HomeIn(h: Header, home: seq<nat>, n: nat) {
    |h.index| > 0 && h.origin <= n < |home| && Slot(h, Pos(h, n)) == home[n]
  }

  /** The ring leads to the entries of the block numbers from `a` to `b`. */
  ghost predicate HomesIn(h: Header, home: seq<nat>, a: nat, b: nat) {
    forall n: nat :: a <= n <= b ==> HomeIn(h, home, n)
  }

  /** The slot's entry is for a block number, not below `b`, that belongs in that slot. */
  ghost predicate Fits(h: Header, entries: seq<Entry>, slot: nat, b: nat) {
    && slot < |h.index|
    && var key := EntryAt(entries, Slot(h, slot)).key;
       key == Base(key) && h.origin <= Blk(key) && b <= Blk(key) && Pos(h, Blk(key)) == slot
  }

  ghost predicate LocOk(l: Loc, t: nat, p: C.Span, headers: seq<Header>, entries: seq<Entry>, home: seq<nat>, blocks: seq<nat>, life: seq<Life>) {
    match l
    case Out => p.start == p.pos == p.hi
    case LoadHeader => p.start == p.pos < p.hi
    case LoadTail(h) =>
      && p.start == p.pos < p.hi && h < |headers|
      && HomesIn(headers[h], home, Blk(p.pos), Blk(p.hi - 1)) && Fits(headers[h], entries, headers[h].tail, Blk(p.hi - 1))
    case LoadKey(h, tail) =>
      && p.start == p.pos < p.hi && h < |headers|
      && HomesIn(headers[h], home, Blk(p.pos), Blk(p.hi - 1)) && Fits(headers[h], entries, tail, Blk(p.hi - 1))
    case LoadValue(h, slot) =>
      && p.start == p.pos < p.hi && h < |headers|
      && HomesIn(headers[h], home, Blk(p.pos), Blk(p.hi - 1)) && InSlot(headers[h], slot, Blk(p.pos))
    case Read(h, slot, b) =>
      && p.start <= p.pos < p.hi && Blk(p.start) == Blk(p.pos) && h < |headers|
      && HomesIn(headers[h], home, Blk(p.start), Blk(p.hi - 1)) && InSlot(headers[h], slot, Blk(p.start))
      && b == BlockOf(blocks, Blk(p.start))
    case Mark(h, slot, b) =>
      && p.start < p.pos <= p.hi && Blk(p.start) == Blk(p.pos - 1) && (p.pos == p.hi || Off(p.pos) == 0) && h < |headers|
      && HomesIn(headers[h], home, Blk(p.start), Blk(p.hi - 1)) && InSlot(headers[h], slot, Blk(p.start))
      && b == BlockOf(blocks, Blk(p.start))
    case Clear(h, slot, b) =>
      && Leaving(p) && h < |headers|
      && HomesIn(headers[h], home, Blk(p.pos - 1), Blk(p.hi - 1)) && InSlot(headers[h], slot, Blk(p.pos - 1))
      && b == BlockOf(blocks, Blk(p.pos - 1)) && LifeIs(life, Blk(p.pos - 1), Clearing(t))
    case Free(h, slot, b) =>
      && Leaving(p) && h < |headers|
      && HomesIn(headers[h], home, Blk(p.pos - 1), Blk(p.hi - 1)) && InSlot(headers[h], slot, Blk(p.pos - 1))
      && b == BlockOf(blocks, Blk(p.pos - 1)) && LifeIs(life, Blk(p.pos - 1), Freeing(t))
  }

  ghost predicate InSlot(h: Header, slot: nat, n: nat) { |h.index| > 0 && h.origin <= n && slot == Pos(h, n) }

  /** The consumer has given back everything up to the end of a block. */
  ghost predicate Leaving(p: C.Span) { p.start == p.pos && 0 < p.pos <= p.hi && (p.pos == p.hi || Off(p.pos) == 0) }

  ghost predicate LifeIs(life: seq<Life>, n: nat, l: Life) { n < |life| && life[n] == l }

  ghost predicate LocsOk(locs: seq<Loc>, spans: seq<C.Span>, headers: seq<Header>, entries: seq<Entry>, home: seq<nat>, blocks: seq<nat>, life: seq<Life>) {
    && |locs| == |spans|
    && forall t :: 0 <= t < |locs| ==> LocOk(locs[t], t, spans[t], headers, entries, home, blocks, life)
  }

  /** The counters and the claims tell the same story. */
  ghost predicate LinkOk(q: D.State, c: C.State, locs: seq<Loc>) {
    && D.Inv(q) && C.Inv(c)
    && q.tail == |c.vals| && q.head == c.head
    && |locs| == |q.pcs| == |c.spans|
    && (forall t :: 0 <= t < |locs| && locs[t] != Out ==> q.pcs[t] == D.Idle)
  }

  // ----- the producer -----

  /** The next slot of the newest ring is the one for block number `next`. */
  ghost predicate TailAt(headers: seq<Header>, next: nat) {
    headers != [] ==>
      var h := headers[|headers| - 1];
      |h.index| > 0 && h.tail < |h.index| && h.origin <= next && Succ(h.tail, |h.index|) == Pos(h, next)
  }

  ghost predicate NumsOk(tail: nat, headers: seq<Header>, size: nat, high: nat) {
    && CeilBlk(tail) <= size
    && (headers != [] ==>
          headers[|headers| - 1].origin <= CeilBlk(tail) && high <= CeilBlk(tail) + |headers[|headers| - 1].index|)
  }

  ghost predicate AllAre(life: seq<Life>, lo: nat, hi: nat, l: Life) { forall n: nat :: lo <= n < hi ==> LifeIs(life, n, l) }

  /** The blocks numbered from `lo` on are chained, up to the last one. */
  ghost predicate ChainOk(heap: seq<Block>, blocks: seq<nat>, lo: nat) {
    forall n: nat :: lo <= n && n + 1 < |blocks| ==> NextOf(heap, BlockOf(blocks, n)) == Some(BlockOf(blocks, n + 1))
  }

  ghost predicate ChainEnds(heap: seq<Block>, blocks: seq<nat>) {
    |blocks| > 0 ==> NextOf(heap, BlockOf(blocks, |blocks| - 1)) == None
  }

  /** What the operation knows about the blocks it allocated. */
  ghost predicate OpOk(op: Op, tail: nat, heap: seq<Block>, blocks: seq<nat>) {
    && op.vs != [] && (!op.bulk ==> |op.vs| == 1)
    && CeilBlk(tail) <= |blocks|
    && op.first == (if |blocks| == CeilBlk(tail) then None else Some(BlockOf(blocks, CeilBlk(tail))))
    && (Off(tail) != 0 ==> op.start == Some(BlockOf(blocks, Blk(tail))))
    && (op.bulk ==> ChainOk(heap, blocks, Blk(tail)) && (|blocks| > CeilBlk(tail) ==> ChainEnds(heap, blocks)))
  }

  /** The operation is allocating. */
  ghost predicate Allocating(op: Op, tail: nat, heap: seq<Block>, blocks: seq<nat>, life: seq<Life>, tailBlock: Option<nat>) {
    && OpOk(op, tail, heap, blocks) && AllAre(life, CeilBlk(tail), |blocks|, Live)
    && op.need > 0 && |blocks| + op.need == CeilBlk(tail + |op.vs|) && op.base == Start(|blocks|)
    && (!op.bulk ==> |blocks| == CeilBlk(tail))
    && tailBlock == if |blocks| == CeilBlk(tail) then op.start else Some(BlockOf(blocks, |blocks| - 1))
  }

  /** `e` is the entry of the next slot, for the block number about to be inserted. */
  ghost predicate NextEntry(headers: seq<Header>, n: nat, e: nat) {
    && headers != []
    && InSlotOf(headers[|headers| - 1], n, e)
  }

  ghost predicate InSlotOf(h: Header, n: nat, e: nat) { |h.index| > 0 && h.origin <= n && Slot(h, Pos(h, n)) == e }

  /** A granted block that has no number yet. */
  ghost predicate Granted(b: nat, heap: seq<Block>, blocks: seq<nat>, life: seq<Life>) {
    && b < |heap| && !IsFree(heap, b) && Done(heap, b) == 0 && NextOf(heap, b) == None
    && forall n: nat :: Owned(life, n) ==> BlockOf(blocks, n) != b
  }

  ghost predicate Undoing(op: Op, tail: nat, headers: seq<Header>, heap: seq<Block>, blocks: seq<nat>, b: nat, n: nat) {
    && OpOk(op, tail, heap, blocks) && op.bulk && headers != []
    && CeilBlk(tail) <= n < |blocks| && b == BlockOf(blocks, n)
  }

  ghost predicate PpcOk(ppc: ProducerPC, tail: nat, headers: seq<Header>, entries: seq<Entry>, heap: seq<Block>, blocks: seq<nat>,
                  life: seq<Life>, high: nat, tailBlock: Option<nat>) {
    var n0 := CeilBlk(tail);
    var size := |blocks|;
    match ppc
    case Idle => size == n0 && TailAt(headers, size) && (Off(tail) != 0 ==> tailBlock == Some(BlockOf(blocks, Blk(tail))))
    case Room(op) => Allocating(op, tail, heap, blocks, life, tailBlock) && TailAt(headers, size)
    case Insert(op) => Allocating(op, tail, heap, blocks, life, tailBlock) && TailAt(headers, size) && headers != []
    case Grow(op) =>
      && Allocating(op, tail, heap, blocks, life, tailBlock) && TailAt(headers, size) && headers != []
      && high == size >= headers[|headers| - 1].origin + |headers[|headers| - 1].index|
    case SetKey(op, e) =>
      && Allocating(op, tail, heap, blocks, life, tailBlock) && TailAt(headers, size) && NextEntry(headers, size, e)
      && EntryAt(entries, e).value == None
    case SetTail(op, e) =>
      Allocating(op, tail, heap, blocks, life, tailBlock) && TailAt(headers, size) && NextEntry(headers, size, e) && size < high
    case Requisition(op, e) =>
      Allocating(op, tail, heap, blocks, life, tailBlock) && TailAt(headers, size + 1) && NextEntry(headers, size, e) && size < high
    case SetValue(op, e, b) =>
      && Allocating(op, tail, heap, blocks, life, tailBlock) && TailAt(headers, size + 1) && NextEntry(headers, size, e) && size < high
      && Granted(b, heap, blocks, life)
    case Rewind(op, e) =>
      Allocating(op, tail, heap, blocks, life, tailBlock) && TailAt(headers, size + 1) && NextEntry(headers, size, e) && size < high
    case Unset(op, e) =>
      Allocating(op, tail, heap, blocks, life, tailBlock) && TailAt(headers, size) && NextEntry(headers, size, e) && size < high
    case RollValue(op, b, base) =>
      && base == Base(base) && Undoing(op, tail, headers, heap, blocks, b, Blk(base)) && TailAt(headers, size - (Blk(base) - n0))
      && AllAre(life, n0, Blk(base), Dropped) && AllAre(life, Blk(base), size, Live)
    case RollTail(op, b, base) =>
      && base == Base(base) && Undoing(op, tail, headers, heap, blocks, b, Blk(base)) && TailAt(headers, size - (Blk(base) - n0))
      && AllAre(life, n0, Blk(base) + 1, Dropped) && AllAre(life, Blk(base) + 1, size, Live)
    case FreeChain(op, b, n) =>
      && Undoing(op, tail, headers, heap, blocks, b, n) && TailAt(headers, n0)
      && AllAre(life, n0, n, Freed) && AllAre(life, n, size, Dropped)
    case Write(op, j, end) =>
      && op.vs != [] && j < |op.vs| && (!op.bulk ==> |op.vs| == 1) && TailAt(headers, size) && size == CeilBlk(tail + |op.vs|)
      && AllAre(life, n0, size, Live) && (op.bulk ==> ChainOk(heap, blocks, Blk(tail)))
      && end == Some(BlockOf(blocks, size - 1)) && tailBlock == Some(BlockOf(blocks, Blk(tail + j)))
    case Finish(op) =>
      && op.vs != [] && TailAt(headers, size) && size == CeilBlk(tail + |op.vs|)
      && AllAre(life, n0, size, Live) && tailBlock == Some(BlockOf(blocks, size - 1))
  }

  /** The elements written so far by the operation under way. */
  function WrittenBy(ppc: ProducerPC): seq<Elem> {
    match ppc
    case Write(op, j, _) => if j <= |op.vs| then op.vs[..j] else []
    case Finish(op) => op.vs
    case _ => []
  }

  ghost predicate WrittenOk(ppc: ProducerPC, heap: seq<Block>, blocks: seq<nat>, tail: nat) {
    forall j: nat :: j < |WrittenBy(ppc)| ==> CellOk(heap, blocks, tail + j, WrittenBy(ppc)[j])
  }

  ghost predicate Inv(s: State) {
    && Shape(s)
    && LinkOk(s.q, s.claims, s.locs)
    && HeapOk(s.heap) && OwnOk(s.heap, s.blocks, s.life)
    && LifeOk(s.heap, s.blocks, s.life, s.claims)
    && CellsOk(s.heap, s.blocks, s.claims)
    && IndexOk(s.headers, s.entries, s.home, s.blocks, s.life, s.high)
    && LocsOk(s.locs, s.claims.spans, s.headers, s.entries, s.home, s.blocks, s.life)
    && NumsOk(s.q.tail, s.headers, |s.home|, s.high)
    && PpcOk(s.ppc, s.q.tail, s.headers, s.entries, s.heap, s.blocks, s.life, s.high, s.tailBlock)
    && WrittenOk(s.ppc, s.heap, s.blocks, s.q.tail)
  }

  // ----- counting what was given back -----

  lemma {:induction false} GoneBound(c: C.State, n: nat, k: nat)
    ensures GoneUpTo(c, n, k) <= k
  {
    if k > 0 { GoneBound(c, n, k - 1); }
  }

  lemma {:induction false} AllGone(c: C.State, n: nat, k: nat, j: nat)
    requires GoneUpTo(c, n, k) == k && j < k
    ensures C.IsGone(c, Start(n) + j)
  {
    GoneBound(c, n, k - 1);
    if j < k - 1 { AllGone(c, n, k - 1, j); }
  }

  lemma {:induction false} GoneSame(c: C.State, c': C.State, n: nat, k: nat)
    requires forall i: nat :: C.IsGone(c', i) <==> C.IsGone(c, i)
    ensures GoneUpTo(c', n, k) == GoneUpTo(c, n, k)
  {
    if k > 0 { GoneSame(c, c', n, k - 1); }
  }

  /** How many of the slots from `a` to `a + m - 1` are among the first `k`. */
  function Overlap(a: nat, m: nat, k: nat): nat { if k <= a then 0 else if k >= a + m then m else k - a }

  /** Giving back the indices from `start` to `pos - 1` adds them to the count of their block. */
  lemma {:induction false} GoneMore(c: C.State, c': C.State, start: nat, pos: nat, n: nat, k: nat)
    requires start < pos && Blk(start) == Blk(pos - 1) && k <= BLOCK_SIZE
    requires forall i: nat :: C.IsGone(c', i) <==> C.IsGone(c, i) || start <= i < pos
    requires forall i: nat :: start <= i < pos ==> !C.IsGone(c, i)
    ensures GoneUpTo(c', n, k) == GoneUpTo(c, n, k) + if n == Blk(start) then Overlap(Off(start), pos - start, k) else 0
  {
    if k > 0 {
      GoneMore(c, c', start, pos, n, k - 1);
      SlotInPart(start, pos, n, k - 1);
    }
  }

  /** A slot of a block lies in `[start, pos)` exactly when it is in that part of the block. */
  lemma SlotInPart(start: nat, pos: nat, n: nat, k: nat)
    requires start < pos && Blk(start) == Blk(pos - 1) && k < BLOCK_SIZE
    ensures start <= Start(n) + k < pos <==> n == Blk(start) && Off(start) <= k < Off(start) + (pos - start)
    ensures Off(start) + (pos - start) <= BLOCK_SIZE
  {
    SplitIndex(start);
    SplitIndex(pos - 1);
    JoinIndex(n, k);
    if start <= Start(n) + k < pos {
      BlkMonotone(start, Start(n) + k);
      BlkMonotone(Start(n) + k, pos - 1);
    }
  }

  // ----- claims and blocks -----

  /** What thread `t` has claimed and not given back lies in blocks that are listed. */
  lemma HeldIsLive(s: State, t: nat, i: nat)
    requires Inv(s) && t < |s.locs| && s.claims.spans[t].start <= i < s.claims.spans[t].hi
    ensures i < s.q.tail && Blk(i) < CeilBlk(s.q.tail) <= |s.blocks| && LifeIs(s.life, Blk(i), Live)
    ensures s.headers != []
  {
    hide CellsOk, LocsOk, PpcOk, WindowOk, WrittenOk, HeapOk, D.Inv;
    C.HeldIsNotGone(s.claims, t, i);
    assert C.SpanOk(s.claims, t);
    BelowCeil(i, s.q.tail);
    SplitIndex(i);
    assert LifeAt(s.heap, s.blocks, s.life, s.claims, Blk(i));
    if !LifeIs(s.life, Blk(i), Live) {
      AllGone(s.claims, Blk(i), BLOCK_SIZE, Off(i));
    }
  }

  lemma BlockBetween(s: State, t: nat, n: nat)
    requires Inv(s) && t < |s.locs| && s.claims.spans[t].start < s.claims.spans[t].hi
    requires Blk(s.claims.spans[t].start) <= n <= Blk(s.claims.spans[t].hi - 1)
    ensures n < CeilBlk(s.q.tail) <= |s.blocks| && LifeIs(s.life, n, Live) && s.headers != []
    ensures Listed(s.life, n) && |s.home| == |s.blocks| && InWindow(Last(s), s.high, n) && HomeIn(Last(s), s.home, n)
    ensures EntryAt(s.entries, s.home[n]) == Entry(Start(n), Some(BlockOf(s.blocks, n)))
  {
    hide CellsOk, LocsOk, PpcOk, WrittenOk, HeapOk, LifeOk, LinkOk;
    var p := s.claims.spans[t];
    SplitIndex(p.start);
    SplitIndex(p.hi - 1);
    if n == Blk(p.start) {
      HeldIsLive(s, t, p.start);
    } else {
      JoinIndex(n, 0);
      StartMonotone(Blk(p.start), n);
      if n < Blk(p.hi - 1) { StartMonotone(n, Blk(p.hi - 1)); }
      HeldIsLive(s, t, Start(n));
    }
    assert Listed(s.life, n);
    assert SlotOk(Last(s), s.entries, s.home, s.blocks, s.life, s.high, n);
  }

  /** Some block number follows the one in the tail slot, and it is no older than what is published. */
  lemma SomeNext(s: State) returns (next: nat)
    requires Inv(s) && s.headers != []
    ensures CeilBlk(s.q.tail) <= next <= s.high && TailAt(s.headers, next)
  {
    hide CellsOk, LocsOk, WrittenOk, HeapOk, LifeOk, LinkOk, WindowOk, TailAt, OwnOk, Blk, Off, CeilBlk, AllAre, ChainOk, ChainEnds;
    var size := |s.blocks|;
    match s.ppc
    case Requisition(_, _) => next := size + 1;
    case SetValue(_, _, _) => next := size + 1;
    case Rewind(_, _) => next := size + 1;
    case RollValue(_, _, base) => next := size - (Blk(base) - CeilBlk(s.q.tail));
    case RollTail(_, _, base) => next := size - (Blk(base) - CeilBlk(s.q.tail));
    case FreeChain(_, _, _) => next := CeilBlk(s.q.tail);
    case _ => next := size;
  }

  lemma TailSlot(h: Header, next: nat)
    requires |h.index| > 0 && h.origin < next && h.tail < |h.index| && Succ(h.tail, |h.index|) == Pos(h, next)
    ensures h.tail == Pos(h, next - 1)
  {
    WrapBelow(next - 1 - h.origin, |h.index|);
  }

  /** The tail slot of the newest ring is good for every block in use. */
  lemma TailFits(h: Header, entries: seq<Entry>, home: seq<nat>, blocks: seq<nat>, life: seq<Life>, high: nat, next: nat, b: nat)
    requires WindowOk(h, entries, home, blocks, life, high) && InWindow(h, high, b) && b < next <= high
    requires h.tail < |h.index| && h.origin <= next && Succ(h.tail, |h.index|) == Pos(h, next)
    ensures Fits(h, entries, h.tail, b)
  {
    hide Distinct, InRange;
    TailSlot(h, next);
    assert SlotOk(h, entries, home, blocks, life, high, next - 1);
    JoinIndex(next - 1, 0);
  }

  // ----- looking up -----

  /** A step of a consumer that moves only its own location. */
  lemma MoveKeeps(s: State, s': State, t: nat)
    requires Inv(s) && t < |s.locs| && s.locs[t] != Out
    requires |s'.locs| == |s.locs| && s' == s.(locs := s.locs[t := s'.locs[t]])
    requires LocOk(s'.locs[t], t, s.claims.spans[t], s.headers, s.entries, s.home, s.blocks, s.life)
    ensures Inv(s')
  {
    hide CellsOk, HeapOk, OwnOk, LifeOk, IndexOk, NumsOk, PpcOk, WrittenOk, HomesIn, Fits, InSlot, Leaving, LifeIs;
    forall u | 0 <= u < |s.locs| ensures LocOk(s'.locs[u], u, s.claims.spans[u], s.headers, s.entries, s.home, s.blocks, s.life) {
      assert LocOk(s.locs[u], u, s.claims.spans[u], s.headers, s.entries, s.home, s.blocks, s.life);
    }
  }

  lemma NewestFits(s: State, b: nat)
    requires Inv(s) && s.headers != [] && b < CeilBlk(s.q.tail) && InWindow(Last(s), s.high, b)
    ensures Fits(Last(s), s.entries, Last(s).tail, b)
  {
    hide CellsOk, LocsOk, WrittenOk, HeapOk, LifeOk, LinkOk, PpcOk, OwnOk, WindowOk, Blk, CeilBlk, Start, Fits;
    var next := SomeNext(s);
    TailFits(Last(s), s.entries, s.home, s.blocks, s.life, s.high, next, b);
  }

  lemma LoadHeaderKeeps(s: State, t: nat, want: D.Want, seen: nat)
    requires Inv(s) && t < |s.locs| && s.locs[t].LoadHeader?
    ensures Inv(ConsumerStep(s, t, want, seen))
  {
    hide CellsOk, HeapOk, OwnOk, LifeOk, IndexOk, NumsOk, PpcOk, WrittenOk, Fits, HomeIn, LinkOk, InWindow, Blk;
    var p := s.claims.spans[t];
    assert LocOk(s.locs[t], t, p, s.headers, s.entries, s.home, s.blocks, s.life);
    forall n: nat | Blk(p.pos) <= n <= Blk(p.hi - 1) ensures HomeIn(Last(s), s.home, n) {
      BlockBetween(s, t, n);
    }
    BlkMonotone(p.start, p.hi - 1);
    BlockBetween(s, t, Blk(p.hi - 1));
    NewestFits(s, Blk(p.hi - 1));
    MoveKeeps(s, ConsumerStep(s, t, want, seen), t);
  }

  lemma LoadTailKeeps(s: State, t: nat, want: D.Want, seen: nat)
    requires Inv(s) && t < |s.locs| && s.locs[t].LoadTail?
    ensures Inv(ConsumerStep(s, t, want, seen))
  {
    hide CellsOk, HeapOk, OwnOk, LifeOk, IndexOk, NumsOk, PpcOk, WrittenOk, Fits, HomesIn, LinkOk;
    assert LocOk(s.locs[t], t, s.claims.spans[t], s.headers, s.entries, s.home, s.blocks, s.life);
    MoveKeeps(s, ConsumerStep(s, t, want, seen), t);
  }

  /** Whatever tail slot was loaded and whichever key is found there, the slot computed from them
      is the one of the wanted block. */
  lemma LookupFindsSlot(h: Header, entries: seq<Entry>, tail: nat, index: nat, b: nat)
    requires |h.index| > 0 && Fits(h, entries, tail, b) && h.origin <= Blk(index) <= b
    ensures Lookup(h, tail, EntryAt(entries, Slot(h, tail)).key, index) == Pos(h, Blk(index))
  {
    var k := Blk(EntryAt(entries, Slot(h, tail)).key);
    DivBlocksOfStarts(Blk(index), k);
    MaskFarBack(k - h.origin, k - Blk(index), |h.index|);
  }

  lemma LoadKeyKeeps(s: State, t: nat, want: D.Want, seen: nat)
    requires Inv(s) && t < |s.locs| && s.locs[t].LoadKey?
    ensures Inv(ConsumerStep(s, t, want, seen))
  {
    hide CellsOk, HeapOk, OwnOk, LifeOk, IndexOk, NumsOk, PpcOk, WrittenOk, LinkOk, Fits, Lookup, Pos;
    var l, p := s.locs[t], s.claims.spans[t];
    assert LocOk(l, t, p, s.headers, s.entries, s.home, s.blocks, s.life);
    BlkMonotone(p.pos, p.hi - 1);
    assert HomeIn(s.headers[l.h], s.home, Blk(p.pos));
    LookupFindsSlot(s.headers[l.h], s.entries, l.tail, p.pos, Blk(p.hi - 1));
    MoveKeeps(s, ConsumerStep(s, t, want, seen), t);
  }

  /** The entry a consumer finds has the key and the block of its index. */
  lemma LookupFindsBlock(s: State, t: nat)
    requires Inv(s) && t < |s.locs| && s.locs[t].LoadValue?
    ensures s.locs[t].h < |s.headers| && Blk(s.claims.spans[t].pos) < |s.blocks|
    ensures EntryAt(s.entries, Slot(s.headers[s.locs[t].h], s.locs[t].slot))
            == Entry(Base(s.claims.spans[t].pos), Some(BlockOf(s.blocks, Blk(s.claims.spans[t].pos))))
  {
    hide CellsOk, HeapOk, OwnOk, LifeOk, IndexOk, NumsOk, PpcOk, WrittenOk, LinkOk, Fits, Pos;
    var l, p := s.locs[t], s.claims.spans[t];
    assert LocOk(l, t, p, s.headers, s.entries, s.home, s.blocks, s.life);
    BlkMonotone(p.pos, p.hi - 1);
    assert HomeIn(s.headers[l.h], s.home, Blk(p.pos));
    BlockBetween(s, t, Blk(p.pos));
  }

  lemma LoadValueKeeps(s: State, t: nat, want: D.Want, seen: nat)
    requires Inv(s) && t < |s.locs| && s.locs[t].LoadValue?
    ensures Inv(ConsumerStep(s, t, want, seen))
  {
    hide CellsOk, HeapOk, OwnOk, LifeOk, IndexOk, NumsOk, PpcOk, WrittenOk, LinkOk, Fits, Pos, HomesIn;
    LookupFindsBlock(s, t);
    assert LocOk(s.locs[t], t, s.claims.spans[t], s.headers, s.entries, s.home, s.blocks, s.life);
    MoveKeeps(s, ConsumerStep(s, t, want, seen), t);
  }

  // ----- claiming -----

  lemma LifeSame(heap: seq<Block>, blocks: seq<nat>, life: seq<Life>, c: C.State, c': C.State)
    requires LifeOk(heap, blocks, life, c) && |c'.stage| == |c.stage|
    requires forall i: nat :: C.IsGone(c', i) <==> C.IsGone(c, i)
    ensures LifeOk(heap, blocks, life, c')
  {
    forall n: nat | n < |life| ensures LifeAt(heap, blocks, life, c', n) {
      assert LifeAt(heap, blocks, life, c, n);
      GoneSame(c, c', n, BLOCK_SIZE);
    }
  }

  lemma SameCells(heap: seq<Block>, blocks: seq<nat>, c: C.State, c': C.State)
    requires |c.stage| == |c'.stage| && c'.vals == c.vals && |c.stage| <= |c.vals|
    requires CellsOk(heap, blocks, c)
    requires forall i: nat :: C.Unread(c', i) <==> C.Unread(c, i)
    ensures CellsOk(heap, blocks, c')
  {
  }

  lemma DShape(q: D.State)
    requires D.Inv(q)
    ensures D.Shape(q)
  {
  }

  lemma ClaimKeeps(s: State, t: nat, q: D.State, n: nat)
    requires Inv(s) && t < |s.locs| && s.locs[t].Out?
    requires D.Inv(q) && q.tail == s.q.tail && q.head == s.q.head + n <= q.tail && n > 0
    requires |q.pcs| == |s.q.pcs| && q.pcs == s.q.pcs[t := D.Idle]
    ensures s.claims.head + n <= |s.claims.stage|
    ensures Inv(At(s, t, LoadHeader).(q := q, claims := C.Take(s.claims, t, n)))
  {
    hide D.Inv, HeapOk, OwnOk, LifeOk, WindowOk, NumsOk, PpcOk, WrittenOk, CellsOk, C.IsGone, C.Unread, C.SpanOk, C.StageOk,
      HomesIn, Fits, InSlot, Leaving, LifeIs;
    assert LocOk(s.locs[t], t, s.claims.spans[t], s.headers, s.entries, s.home, s.blocks, s.life);
    C.TakeKeeps(s.claims, t, n);
    DShape(q);
    ClaimHasHeader(s);
    var c' := C.Take(s.claims, t, n);
    LifeSame(s.heap, s.blocks, s.life, s.claims, c');
    SameCells(s.heap, s.blocks, s.claims, c');
    forall u | 0 <= u < |s.locs|
      ensures LocOk(if u == t then LoadHeader else s.locs[u], u, c'.spans[u], s.headers, s.entries, s.home, s.blocks, s.life)
    {
      assert LocOk(s.locs[u], u, s.claims.spans[u], s.headers, s.entries, s.home, s.blocks, s.life);
    }
  }

  /** Nothing is published without a block index. */
  lemma ClaimHasHeader(s: State)
    requires Inv(s)
    ensures s.q.tail > 0 ==> s.headers != []
  {
    hide D.Inv, HeapOk, OwnOk, LifeOk, WindowOk, PpcOk, WrittenOk, CellsOk, LinkOk, LocsOk;
  }

  /** When the counters grant `n` indices there are `n` published ones left to claim. */
  lemma GrantIsThere(q: D.State, q': D.State, t: nat, want: D.Want, seen: nat)
    requires D.Inv(q) && t < |q.pcs| && q' == D.Step(q, D.Consume(t, want, seen))
    ensures D.Inv(q') && D.Shape(q') && q'.tail == q.tail && |q'.pcs| == |q.pcs| && q'.pcs == q.pcs[t := q'.pcs[t]]
    ensures q'.head == q.head + (if q.pcs[t].Claim? then q.pcs[t].actual else 0) <= q'.tail
    ensures q.pcs[t].Claim? ==> q'.pcs[t] == D.Idle
  {
    D.StepKeepsInv(q, D.Consume(t, want, seen));
    D.HeadNeverPassesTail(q');
    DShape(q');
    hide D.Inv;
  }

  lemma OutKeeps(s: State, t: nat, want: D.Want, seen: nat)
    requires Inv(s) && t < |s.locs| && s.locs[t].Out?
    ensures Inv(ConsumerStep(s, t, want, seen))
  {
    hide D.Inv, D.Step, D.Shape, C.Inv, C.Take, HeapOk, OwnOk, LifeOk, IndexOk, NumsOk, PpcOk, WrittenOk, CellsOk, LocOk;
    GrantIsThere(s.q, D.Step(s.q, D.Consume(t, want, seen)), t, want, seen);
    if s.q.pcs[t].Claim? && s.q.pcs[t].actual > 0 {
      ClaimKeeps(s, t, D.Step(s.q, D.Consume(t, want, seen)), s.q.pcs[t].actual);
    }
  }

  // ----- frames -----

  /** A step of a consumer as the producer sees it: keys stay, values may vanish, and blocks are
      relinked, granted or renumbered by nobody else. */
  lemma PpcFrame(ppc: ProducerPC, tail: nat, headers: seq<Header>, entries: seq<Entry>, entries': seq<Entry>,
                 heap: seq<Block>, heap': seq<Block>, blocks: seq<nat>, life: seq<Life>, life': seq<Life>, high: nat, tailBlock: Option<nat>)
    requires PpcOk(ppc, tail, headers, entries, heap, blocks, life, high, tailBlock) && |life'| == |life| && |heap'| == |heap|
    requires forall e: nat :: EntryAt(entries, e).value == None ==> EntryAt(entries', e).value == None
    requires forall b: nat :: NextOf(heap', b) == NextOf(heap, b)
    requires forall n: nat :: CeilBlk(tail) <= n < |life| ==> life'[n] == life[n]
    requires forall n: nat :: Owned(life', n) ==> Owned(life, n)
    requires forall b: nat :: Granted(b, heap, blocks, life) ==> IsFree(heap', b) == IsFree(heap, b) && Done(heap', b) == Done(heap, b)
    ensures PpcOk(ppc, tail, headers, entries', heap', blocks, life', high, tailBlock)
  {
    hide TailAt, NextEntry, Blk, Off, CeilBlk, Start, NextOf, IsFree, Done, Owned, EntryAt;
    AllFrame(life, life', CeilBlk(tail));
    ChainFrame(heap, heap', blocks);
  }

  lemma AllFrame(life: seq<Life>, life': seq<Life>, n0: nat)
    requires |life'| == |life| && forall n: nat :: n0 <= n < |life| ==> life'[n] == life[n]
    ensures forall lo: nat, hi: nat, l: Life :: n0 <= lo && AllAre(life, lo, hi, l) ==> AllAre(life', lo, hi, l)
  {
    forall lo: nat, hi: nat, l: Life | n0 <= lo && AllAre(life, lo, hi, l) ensures AllAre(life', lo, hi, l) {
      forall n: nat | lo <= n < hi ensures LifeIs(life', n, l) {
        assert LifeIs(life, n, l);
      }
    }
  }

  lemma ChainFrame(heap: seq<Block>, heap': seq<Block>, blocks: seq<nat>)
    requires forall b: nat :: NextOf(heap', b) == NextOf(heap, b)
    ensures forall lo: nat :: ChainOk(heap, blocks, lo) ==> ChainOk(heap', blocks, lo)
    ensures ChainEnds(heap, blocks) ==> ChainEnds(heap', blocks)
  {
  }

  lemma SetCellFrame(heap: seq<Block>, b: nat, k: nat, v: Option<Elem>)
    requires HeapOk(heap)
    ensures var heap' := SetCell(heap, b, k, v);
            && |heap'| == |heap| && HeapOk(heap')
            && (forall b': nat :: NextOf(heap', b') == NextOf(heap, b'))
            && (forall b': nat :: Done(heap', b') == Done(heap, b'))
            && (forall b': nat :: IsFree(heap', b') <==> IsFree(heap, b'))
            && (forall b': nat, k': nat :: b' != b || k' != k ==> Cell(heap', b', k') == Cell(heap, b', k'))
            && (b < |heap| && k < BLOCK_SIZE ==> Cell(heap', b, k) == v)
  {
  }

  lemma OwnFrame(heap: seq<Block>, heap': seq<Block>, blocks: seq<nat>, life: seq<Life>)
    requires OwnOk(heap, blocks, life) && |heap| <= |heap'|
    requires forall b: nat :: b < |heap| ==> (IsFree(heap', b) <==> IsFree(heap, b))
    ensures OwnOk(heap', blocks, life)
  {
  }

  lemma LifeFrame(heap: seq<Block>, heap': seq<Block>, blocks: seq<nat>, life: seq<Life>, c: C.State)
    requires LifeOk(heap, blocks, life, c)
    requires forall n: nat :: Owned(life, n) ==> Done(heap', BlockOf(blocks, n)) == Done(heap, BlockOf(blocks, n))
    ensures LifeOk(heap', blocks, life, c)
  {
    forall n: nat | n < |life| ensures LifeAt(heap', blocks, life, c, n) {
      assert LifeAt(heap, blocks, life, c, n);
      assert life[n].Live? ==> Owned(life, n);
    }
  }

  // ----- reading -----

  /** A consumer finds the element of its index in the block it looked up. */
  lemma ReadFindsElement(s: State, t: nat)
    requires Inv(s) && t < |s.locs| && s.locs[t].Read?
    ensures s.claims.spans[t].pos < s.claims.spans[t].hi <= |s.claims.vals|
    ensures Cell(s.heap, s.locs[t].b, Off(s.claims.spans[t].pos)) == Some(s.claims.vals[s.claims.spans[t].pos])
    ensures s.locs[t].b == BlockOf(s.blocks, Blk(s.claims.spans[t].pos))
    ensures LifeIs(s.life, Blk(s.claims.spans[t].pos), Live)
  {
    hide OwnOk, LifeOk, IndexOk, NumsOk, PpcOk, WrittenOk, HeapOk, HomesIn, InSlot, Fits;
    var i := s.claims.spans[t].pos;
    assert LocOk(s.locs[t], t, s.claims.spans[t], s.headers, s.entries, s.home, s.blocks, s.life);
    HeldIsLive(s, t, i);
    C.ReadKeeps(s.claims, t);
    assert CellOk(s.heap, s.blocks, i, s.claims.vals[i]);
    assert C.SpanOk(s.claims, t);
  }

  /** Two different indices never share a cell while both blocks are in use. */
  lemma OtherCell(heap: seq<Block>, blocks: seq<nat>, life: seq<Life>, i: nat, v: Option<Elem>, j: nat, w: Elem)
    requires HeapOk(heap) && OwnOk(heap, blocks, life) && Owned(life, Blk(i)) && Owned(life, Blk(j)) && i != j
    requires CellOk(heap, blocks, j, w)
    ensures CellOk(SetCell(heap, BlockOf(blocks, Blk(i)), Off(i), v), blocks, j, w)
  {
    SplitIndex(i);
    SplitIndex(j);
    SetCellFrame(heap, BlockOf(blocks, Blk(i)), Off(i), v);
  }

  /** What is published and not given back lies in a block that is in use. */
  lemma PublishedIsOwned(s: State, i: nat)
    requires Inv(s) && i < |s.claims.stage| && !C.IsGone(s.claims, i)
    ensures LifeIs(s.life, Blk(i), Live) && Blk(i) < CeilBlk(s.q.tail)
  {
    hide CellsOk, LocsOk, PpcOk, WindowOk, WrittenOk, HeapOk, D.Inv, NumsOk;
    BelowCeil(i, s.q.tail);
    SplitIndex(i);
    LinkLengths(s);
    assert LifeAt(s.heap, s.blocks, s.life, s.claims, Blk(i));
    if !LifeIs(s.life, Blk(i), Live) {
      AllGone(s.claims, Blk(i), BLOCK_SIZE, Off(i));
    }
  }

  lemma LinkLengths(s: State)
    requires Inv(s)
    ensures |s.claims.stage| == |s.claims.vals| == s.q.tail && C.Inv(s.claims) && |s.life| == |s.blocks| == |s.home|
    ensures CeilBlk(s.q.tail) <= |s.blocks|
  {
    hide CellsOk, LocsOk, PpcOk, WindowOk, WrittenOk, HeapOk, D.Inv, C.SpanOk, C.StageOk;
  }

  lemma ReadCells(s: State, c': C.State, i: nat)
    requires Inv(s) && LifeIs(s.life, Blk(i), Live)
    requires |s.claims.stage| == |c'.stage| <= |c'.vals| && c'.vals == s.claims.vals
    requires forall j: nat :: C.Unread(c', j) ==> C.Unread(s.claims, j) && j != i
    ensures CellsOk(SetCell(s.heap, BlockOf(s.blocks, Blk(i)), Off(i), None), s.blocks, c')
  {
    hide LocsOk, PpcOk, IndexOk, WrittenOk, HeapOk, OwnOk, LifeOk, LinkOk, NumsOk, Blk, Off, SetCell, CellOk;
    forall j: nat | j < |c'.stage| && C.Unread(c', j)
      ensures CellOk(SetCell(s.heap, BlockOf(s.blocks, Blk(i)), Off(i), None), s.blocks, j, c'.vals[j])
    {
      assert CellOk(s.heap, s.blocks, j, s.claims.vals[j]);
      PublishedIsOwned(s, j);
      OtherCell(s.heap, s.blocks, s.life, i, None, j, s.claims.vals[j]);
    }
  }

  lemma WrittenLives(s: State, j: nat)
    requires Inv(s) && j < |WrittenBy(s.ppc)|
    ensures Owned(s.life, Blk(s.q.tail + j))
  {
    hide CellsOk, LocsOk, WindowOk, WrittenOk, HeapOk, D.Inv, CeilBlk, Blk, Off, LifeOk, OwnOk, TailAt;
    CeilFacts(s.q.tail);
    var i := s.q.tail + j;
    BlkMonotone(s.q.tail, i);
    var op := s.ppc.op;
    BelowCeil(i, s.q.tail + |op.vs|);
    if Blk(i) < CeilBlk(s.q.tail) {
      TailBlockLives(s);
    } else {
      assert LifeIs(s.life, Blk(i), Live);
    }
  }

  /** The block that is only partly published is in use. */
  lemma TailBlockLives(s: State)
    requires Inv(s) && Off(s.q.tail) != 0
    ensures LifeIs(s.life, Blk(s.q.tail), Live)
  {
    hide CellsOk, LocsOk, WindowOk, WrittenOk, HeapOk, D.Inv, PpcOk, C.SpanOk, C.StageOk;
    LinkLengths(s);
    CeilFacts(s.q.tail);
    SplitIndex(s.q.tail);
    assert LifeAt(s.heap, s.blocks, s.life, s.claims, Blk(s.q.tail));
    if !LifeIs(s.life, Blk(s.q.tail), Live) {
      AllGone(s.claims, Blk(s.q.tail), BLOCK_SIZE, Off(s.q.tail));
    }
  }

  lemma ReadWritten(s: State, i: nat)
    requires Inv(s) && LifeIs(s.life, Blk(i), Live) && i < s.q.tail
    ensures WrittenOk(s.ppc, SetCell(s.heap, BlockOf(s.blocks, Blk(i)), Off(i), None), s.blocks, s.q.tail)
  {
    hide LocsOk, PpcOk, IndexOk, HeapOk, OwnOk, LifeOk, LinkOk, NumsOk, Blk, Off, SetCell, CellOk, CellsOk, WrittenBy;
    forall j: nat | j < |WrittenBy(s.ppc)|
      ensures CellOk(SetCell(s.heap, BlockOf(s.blocks, Blk(i)), Off(i), None), s.blocks, s.q.tail + j, WrittenBy(s.ppc)[j])
    {
      WrittenLives(s, j);
      OtherCell(s.heap, s.blocks, s.life, i, None, s.q.tail + j, WrittenBy(s.ppc)[j]);
    }
  }

  lemma ReadGone(c: C.State, t: nat, v: Elem)
    requires t < |c.spans|
    ensures forall i: nat :: C.IsGone(C.Read(c, t, v), i) <==> C.IsGone(c, i)
  {
  }

  lemma ReadHeap(s: State, t: nat, i: nat, b: nat)
    requires Inv(s) && t < |s.locs| && s.locs[t].Read?
    requires i == s.claims.spans[t].pos && b == s.locs[t].b
    ensures i < |s.claims.vals|
    ensures var heap, c := SetCell(s.heap, b, Off(i), None), C.Read(s.claims, t, s.claims.vals[i]);
            && HeapOk(heap) && OwnOk(heap, s.blocks, s.life) && LifeOk(heap, s.blocks, s.life, c) && CellsOk(heap, s.blocks, c)
            && WrittenOk(s.ppc, heap, s.blocks, s.q.tail) && C.Inv(c)
            && PpcOk(s.ppc, s.q.tail, s.headers, s.entries, heap, s.blocks, s.life, s.high, s.tailBlock)
  {
    hide D.Inv, IndexOk, NumsOk, PpcOk, WrittenOk, CellsOk, LifeOk, OwnOk, C.IsGone, C.Unread, C.SpanOk, C.StageOk, Cell, HeapOk, LocOk, SetCell, Granted, NextOf, IsFree, Done, LifeIs;
    ReadFindsElement(s, t);
    LinkLengths(s);
    C.ReadKeeps(s.claims, t);
    var c' := C.Read(s.claims, t, s.claims.vals[i]);
    var heap' := SetCell(s.heap, b, Off(i), None);
    SetCellFrame(s.heap, b, Off(i), None);
    OwnFrame(s.heap, heap', s.blocks, s.life);
    ReadGone(s.claims, t, s.claims.vals[i]);
    LifeFrame(s.heap, heap', s.blocks, s.life, s.claims);
    LifeSame(heap', s.blocks, s.life, s.claims, c');
    ReadCells(s, c', i);
    ReadWritten(s, i);
    PpcFrame(s.ppc, s.q.tail, s.headers, s.entries, s.entries, s.heap, heap', s.blocks, s.life, s.life, s.high, s.tailBlock);
  }

  /** Where the consumer is after reading one element. */
  lemma ReadMoves(s: State, t: nat, want: D.Want, seen: nat)
    requires Inv(s) && t < |s.locs| && s.locs[t].Read?
    ensures var s' := ConsumerStep(s, t, want, seen);
            && Shape(s') && LocsOk(s'.locs, s'.claims.spans, s.headers, s.entries, s.home, s.blocks, s.life)
            && (forall u :: 0 <= u < |s.locs| ==> (s'.locs[u] == Out <==> s.locs[u] == Out))
  {
    hide D.Inv, C.Inv, HeapOk, IndexOk, NumsOk, PpcOk, WrittenOk, LifeOk, OwnOk, CellsOk, HomesIn, InSlot, Fits, Leaving;
    var p := s.claims.spans[t];
    ReadFindsElement(s, t);
    NextIndex(p.pos);
    var s' := ConsumerStep(s, t, want, seen);
    assert LocOk(s.locs[t], t, p, s.headers, s.entries, s.home, s.blocks, s.life);
    assert LocOk(s'.locs[t], t, s'.claims.spans[t], s.headers, s.entries, s.home, s.blocks, s.life);
    forall u | 0 <= u < |s.locs| ensures LocOk(s'.locs[u], u, s'.claims.spans[u], s.headers, s.entries, s.home, s.blocks, s.life) {
      assert LocOk(s.locs[u], u, s.claims.spans[u], s.headers, s.entries, s.home, s.blocks, s.life);
    }
  }

  lemma ReadKeeps(s: State, t: nat, want: D.Want, seen: nat)
    requires Inv(s) && t < |s.locs| && s.locs[t].Read?
    ensures Inv(ConsumerStep(s, t, want, seen))
  {
    hide D.Inv, HeapOk, IndexOk, NumsOk, PpcOk, WrittenOk, CellsOk, C.Inv, Cell, LifeOk, OwnOk, LocOk, D.Shape, SetCell;
    ReadFindsElement(s, t);
    ReadHeap(s, t, s.claims.spans[t].pos, s.locs[t].b);
    ReadMoves(s, t, want, seen);
  }

  // ----- giving back -----

  lemma AddDoneFrame(heap: seq<Block>, b: nat, m: nat)
    requires HeapOk(heap) && b < |heap|
    ensures var heap' := AddDone(heap, b, m);
            && |heap'| == |heap| && HeapOk(heap')
            && (forall b': nat :: NextOf(heap', b') == NextOf(heap, b'))
            && (forall b': nat :: IsFree(heap', b') <==> IsFree(heap, b'))
            && (forall b': nat, k': nat :: Cell(heap', b', k') == Cell(heap, b', k'))
            && (forall b': nat :: Done(heap', b') == Done(heap, b') + if b' == b then m else 0)
  {
  }

  lemma CellsFrame(heap: seq<Block>, heap': seq<Block>, blocks: seq<nat>, c: C.State)
    requires |c.stage| <= |c.vals| && CellsOk(heap, blocks, c)
    requires forall b: nat, k: nat :: Cell(heap', b, k) == Cell(heap, b, k)
    ensures CellsOk(heap', blocks, c)
  {
    forall i: nat | i < |c.stage| && C.Unread(c, i) ensures CellOk(heap', blocks, i, c.vals[i]) {
      assert CellOk(heap, blocks, i, c.vals[i]);
    }
  }

  lemma WrittenFrame(ppc: ProducerPC, heap: seq<Block>, heap': seq<Block>, blocks: seq<nat>, tail: nat)
    requires WrittenOk(ppc, heap, blocks, tail)
    requires forall b: nat, k: nat :: Cell(heap', b, k) == Cell(heap, b, k)
    ensures WrittenOk(ppc, heap', blocks, tail)
  {
    forall j: nat | j < |WrittenBy(ppc)| ensures CellOk(heap', blocks, tail + j, WrittenBy(ppc)[j]) {
      assert CellOk(heap, blocks, tail + j, WrittenBy(ppc)[j]);
    }
  }

  /** Where a consumer stands when it gives slots back. */
  lemma MarkPlace(s: State, t: nat)
    requires Inv(s) && t < |s.locs| && s.locs[t].Mark?
    ensures var p := s.claims.spans[t];
            && p.start < p.pos <= p.hi <= |s.claims.stage| && Blk(p.start) == Blk(p.pos - 1)
            && LifeIs(s.life, Blk(p.start), Live) && Blk(p.start) < CeilBlk(s.q.tail)
            && s.locs[t].b == BlockOf(s.blocks, Blk(p.start)) < |s.heap|
            && (forall i: nat :: p.start <= i < p.pos ==> !C.IsGone(s.claims, i))
  {
    hide CellsOk, HeapOk, IndexOk, NumsOk, PpcOk, WrittenOk, LifeOk, HomesIn, InSlot;
    var p := s.claims.spans[t];
    assert LocOk(s.locs[t], t, p, s.headers, s.entries, s.home, s.blocks, s.life);
    HeldIsLive(s, t, p.start);
    assert C.SpanOk(s.claims, t);
    assert Owned(s.life, Blk(p.start));
  }

  /** The life of the blocks after slots of block number `n` were given back. */
  function Marked(life: seq<Life>, n: nat, t: nat, full: bool): seq<Life> {
    if full then SetLife(life, n, Clearing(t)) else life
  }

  lemma MarkLife(s: State, t: nat)
    requires Inv(s) && t < |s.locs| && s.locs[t].Mark?
    ensures var p := s.claims.spans[t];
            && p.start < p.pos
            && LifeOk(AddDone(s.heap, s.locs[t].b, p.pos - p.start), s.blocks,
                      Marked(s.life, Blk(p.start), t, Done(s.heap, s.locs[t].b) + (p.pos - p.start) == BLOCK_SIZE),
                      C.GiveBack(s.claims, t))
  {
    hide CellsOk, IndexOk, NumsOk, PpcOk, WrittenOk, LocsOk, D.Inv, C.IsGone, C.Unread, C.SpanOk, C.StageOk, C.GiveBack, AddDone, Done, HeapOk, Cell, NextOf, IsFree;
    MarkPlace(s, t);
    LinkLengths(s);
    var p, b, c' := s.claims.spans[t], s.locs[t].b, C.GiveBack(s.claims, t);
    var n, m := Blk(p.start), p.pos - p.start;
    C.GiveBackKeeps(s.claims, t);
    AddDoneFrame(s.heap, b, m);
    GiveBackLength(s.claims, t);
    var heap', life' := AddDone(s.heap, b, m), Marked(s.life, n, t, Done(s.heap, b) + m == BLOCK_SIZE);
    SlotInPart(p.start, p.pos, 0, 0);
    forall k: nat | k < |life'| ensures LifeAt(heap', s.blocks, life', c', k) {
      assert LifeAt(s.heap, s.blocks, s.life, s.claims, k);
      GoneMore(s.claims, c', p.start, p.pos, k, BLOCK_SIZE);
      GoneBound(c', k, BLOCK_SIZE);
      assert Owned(s.life, n);
      assert s.life[k].Live? ==> Owned(s.life, k);
    }
  }

  lemma GiveBackLength(c: C.State, t: nat)
    requires t < |c.spans|
    ensures |C.GiveBack(c, t).stage| == |c.stage| && C.GiveBack(c, t).vals == c.vals
  {
  }

  lemma MarkedFrame(s: State, n: nat, t: nat, full: bool)
    requires Inv(s) && LifeIs(s.life, n, Live) && n < CeilBlk(s.q.tail)
    ensures var life' := Marked(s.life, n, t, full);
            && |life'| == |s.life|
            && (forall k: nat :: Owned(life', k) <==> Owned(s.life, k))
            && (forall k: nat :: Listed(life', k) <==> Listed(s.life, k))
            && (forall k: nat :: CeilBlk(s.q.tail) <= k < |s.life| ==> life'[k] == s.life[k])
            && (forall k: nat, l: Life :: !l.Live? && LifeIs(s.life, k, l) ==> LifeIs(life', k, l))
  {
    hide Inv;
  }

  lemma IndexFrame(headers: seq<Header>, entries: seq<Entry>, home: seq<nat>, blocks: seq<nat>, life: seq<Life>, life': seq<Life>, high: nat)
    requires IndexOk(headers, entries, home, blocks, life, high) && |life'| == |life|
    requires forall k: nat :: Listed(life', k) <==> Listed(life, k)
    ensures IndexOk(headers, entries, home, blocks, life', high)
  {
    if headers != [] {
      var h := headers[|headers| - 1];
      forall n: nat | h.origin <= n ensures SlotOk(h, entries, home, blocks, life', high, n) {
        assert SlotOk(h, entries, home, blocks, life, high, n);
      }
    }
  }

  /** Blocks, counts and cells after part of a block has been given back. */
  lemma MarkHeap(s: State, t: nat)
    requires Inv(s) && t < |s.locs| && s.locs[t].Mark?
    ensures var p := s.claims.spans[t];
            && p.start < p.pos
            && (var heap, c := AddDone(s.heap, s.locs[t].b, p.pos - p.start), C.GiveBack(s.claims, t);
                var life := Marked(s.life, Blk(p.start), t, Done(s.heap, s.locs[t].b) + (p.pos - p.start) == BLOCK_SIZE);
                && HeapOk(heap) && OwnOk(heap, s.blocks, life) && LifeOk(heap, s.blocks, life, c) && CellsOk(heap, s.blocks, c)
                && IndexOk(s.headers, s.entries, s.home, s.blocks, life, s.high)
                && WrittenOk(s.ppc, heap, s.blocks, s.q.tail) && C.Inv(c)
                && PpcOk(s.ppc, s.q.tail, s.headers, s.entries, heap, s.blocks, life, s.high, s.tailBlock))
  {
    hide D.Inv, IndexOk, NumsOk, PpcOk, WrittenOk, CellsOk, LifeOk, C.IsGone, C.Unread, C.SpanOk, C.StageOk, C.GiveBack, Cell, HeapOk, LocOk, AddDone, NextOf, IsFree, Done, Marked, Blk, CeilBlk;
    MarkPlace(s, t);
    MarkLife(s, t);
    LinkLengths(s);
    var p, b := s.claims.spans[t], s.locs[t].b;
    var n := Blk(p.start);
    C.GiveBackKeeps(s.claims, t);
    GiveBackLength(s.claims, t);
    AddDoneFrame(s.heap, b, p.pos - p.start);
    var heap', c' := AddDone(s.heap, b, p.pos - p.start), C.GiveBack(s.claims, t);
    var full := Done(s.heap, b) + (p.pos - p.start) == BLOCK_SIZE;
    var life' := Marked(s.life, n, t, full);
    MarkedFrame(s, n, t, full);
    OwnFrame(s.heap, heap', s.blocks, s.life);
    IndexFrame(s.headers, s.entries, s.home, s.blocks, s.life, life', s.high);
    CellsFrame(s.heap, heap', s.blocks, s.claims);
    SameCells(heap', s.blocks, s.claims, c');
    WrittenFrame(s.ppc, s.heap, heap', s.blocks, s.q.tail);
    assert Owned(s.life, n);
    PpcFrame(s.ppc, s.q.tail, s.headers, s.entries, s.entries, s.heap, heap', s.blocks, s.life, life', s.high, s.tailBlock);
  }

  /** The next slot of any ring is the one for the next block number. */
  lemma NextSlot(h: Header, slot: nat, n: nat)
    requires InSlot(h, slot, n)
    ensures InSlot(h, Succ(slot, |h.index|), n + 1)
  {
    WrapBelow(n - h.origin, |h.index|);
  }

  /** Where a consumer goes that is done with a block. */
  lemma OnwardOk(s: State, t: nat, p: C.Span, h: nat, slot: nat, n: nat)
    requires Inv(s) && t < |s.locs| && h < |s.headers| && p.start == p.pos && s.claims.spans[t].pos == p.pos && s.claims.spans[t].hi == p.hi
    requires 0 < p.pos <= p.hi && n == Blk(p.pos - 1) && (p.pos == p.hi || Off(p.pos) == 0)
    requires HomesIn(s.headers[h], s.home, n, Blk(p.hi - 1)) && InSlot(s.headers[h], slot, n)
    ensures LocOk(Onward(s, t, h, slot), t, p, s.headers, s.entries, s.home, s.blocks, s.life)
    ensures Onward(s, t, h, slot).Out? || (Onward(s, t, h, slot).LoadValue? && Onward(s, t, h, slot).h == h)
  {
    hide LinkOk, HeapOk, IndexOk, NumsOk, PpcOk, WrittenOk, LifeOk, OwnOk, CellsOk, HomeIn, InSlot, LocsOk;
    if p.pos < p.hi {
      NextIndex(p.pos - 1);
      NextSlot(s.headers[h], slot, n);
      assert |s.headers[h].index| > 0;
    }
  }

  lemma LocsFrame(s: State, t: nat, spans: seq<C.Span>, entries': seq<Entry>, life': seq<Life>, u: nat)
    requires Inv(s) && t < |s.locs| && u < |s.locs| && u != t && |spans| == |s.claims.spans| && spans[u] == s.claims.spans[u]
    requires forall e: nat :: EntryAt(entries', e).key == EntryAt(s.entries, e).key
    requires forall k: nat, l: Life :: (l == Clearing(u) || l == Freeing(u)) && LifeIs(s.life, k, l) ==> LifeIs(life', k, l)
    ensures LocOk(s.locs[u], u, spans[u], s.headers, entries', s.home, s.blocks, life')
  {
    hide LinkOk, HeapOk, IndexOk, NumsOk, PpcOk, WrittenOk, LifeOk, OwnOk, CellsOk, HomesIn, InSlot, Blk, EntryAt, LifeIs, Base, Pos, Leaving, Off;
    assert LocOk(s.locs[u], u, s.claims.spans[u], s.headers, s.entries, s.home, s.blocks, s.life);
  }

  /** What the step does to the thread's own place and to the history of the block. */
  lemma MarkResult(s: State, t: nat, want: D.Want, seen: nat)
    requires Shape(s) && t < |s.locs| && s.locs[t].Mark? && s.claims.spans[t].start <= s.claims.spans[t].pos
    ensures var s', p, l := ConsumerStep(s, t, want, seen), s.claims.spans[t], s.locs[t];
            var full := Done(s.heap, l.b) + (p.pos - p.start) == BLOCK_SIZE;
            && s'.claims.spans == s.claims.spans[t := p.(start := p.pos)]
            && s'.locs == s.locs[t := if full then Clear(l.h, l.slot, l.b) else Onward(s, t, l.h, l.slot)]
            && s'.life == Marked(s.life, Blk(p.start), t, full)
            && s'.headers == s.headers && s'.q == s.q
  {
    hide AddDone, Blk, C.Paint, Done, D.Shape, SetLife;
  }

  lemma MarkMoves(s: State, t: nat, want: D.Want, seen: nat)
    requires Inv(s) && t < |s.locs| && s.locs[t].Mark?
    ensures var s' := ConsumerStep(s, t, want, seen);
            && Shape(s') && LocsOk(s'.locs, s'.claims.spans, s.headers, s.entries, s.home, s.blocks, s'.life)
            && (forall u :: 0 <= u < |s.locs| && u != t ==> s'.locs[u] == s.locs[u])
            && s'.life == Marked(s.life, Blk(s.claims.spans[t].start), t, Done(s.heap, s.locs[t].b) + (s.claims.spans[t].pos - s.claims.spans[t].start) == BLOCK_SIZE)
  {
    hide D.Inv, C.Inv, HeapOk, IndexOk, NumsOk, PpcOk, WrittenOk, LifeOk, OwnOk, CellsOk, HomesIn, InSlot, Fits, Blk, Off, CeilBlk, Done, ConsumerStep, Onward, Marked;
    var p, l := s.claims.spans[t], s.locs[t];
    MarkPlace(s, t);
    MarkResult(s, t, want, seen);
    var s' := ConsumerStep(s, t, want, seen);
    assert LocOk(l, t, p, s.headers, s.entries, s.home, s.blocks, s.life);
    OnwardOk(s, t, s'.claims.spans[t], l.h, l.slot, Blk(p.start));
    var full := Done(s.heap, l.b) + (p.pos - p.start) == BLOCK_SIZE;
    MarkedFrame(s, Blk(p.start), t, full);
    FullIsClearing(s.life, Blk(p.start), t);
    assert LocOk(s'.locs[t], t, s'.claims.spans[t], s.headers, s.entries, s.home, s.blocks, s'.life);
    forall u | 0 <= u < |s.locs| ensures LocOk(s'.locs[u], u, s'.claims.spans[u], s.headers, s.entries, s.home, s.blocks, s'.life) {
      if u != t { LocsFrame(s, t, s'.claims.spans, s.entries, s'.life, u); }
    }
  }

  lemma FullIsClearing(life: seq<Life>, n: nat, t: nat)
    requires n < |life|
    ensures LifeIs(Marked(life, n, t, true), n, Clearing(t))
  {
  }

  lemma MarkKeeps(s: State, t: nat, want: D.Want, seen: nat)
    requires Inv(s) && t < |s.locs| && s.locs[t].Mark?
    ensures Inv(ConsumerStep(s, t, want, seen))
  {
    hide D.Inv, HeapOk, IndexOk, NumsOk, PpcOk, WrittenOk, CellsOk, C.Inv, Cell, LifeOk, OwnOk, LocOk, D.Shape, AddDone, Marked, Done, Blk;
    MarkHeap(s, t);
    MarkMoves(s, t, want, seen);
  }

  // ----- taking a block out of the index -----

  lemma ClearPlace(s: State, t: nat)
    requires Inv(s) && t < |s.locs| && (s.locs[t].Clear? || s.locs[t].Free?)
    ensures 0 < s.claims.spans[t].pos <= s.claims.spans[t].hi <= s.q.tail
    ensures var l, n := s.locs[t], Blk(s.claims.spans[t].pos - 1);
            && n < CeilBlk(s.q.tail) <= |s.home|
            && HomeIn(s.headers[l.h], s.home, n) && InSlot(s.headers[l.h], l.slot, n)
            && LifeIs(s.life, n, if l.Clear? then Clearing(t) else Freeing(t)) && l.b == BlockOf(s.blocks, n) < |s.heap|
            && Slot(s.headers[l.h], l.slot) == s.home[n]
  {
    hide CellsOk, HeapOk, WindowOk, NumsOk, PpcOk, WrittenOk, LifeOk, D.Inv, Fits;
    var l, p := s.locs[t], s.claims.spans[t];
    LinkLengths(s);
    assert LocOk(l, t, p, s.headers, s.entries, s.home, s.blocks, s.life);
    assert C.SpanOk(s.claims, t);
    BelowCeil(p.pos - 1, s.q.tail);
    BlkMonotone(p.pos - 1, p.hi - 1);
    assert HomeIn(s.headers[l.h], s.home, Blk(p.pos - 1));
    assert Owned(s.life, Blk(p.pos - 1));
  }

  /** Emptying the entry of a block number leaves the entries of all others alone. */
  lemma ClearIndex(h: Header, entries: seq<Entry>, home: seq<nat>, blocks: seq<nat>, life: seq<Life>, high: nat, n: nat, l: Life)
    requires WindowOk(h, entries, home, blocks, life, high) && |home| == |blocks| == |life| && Listed(life, n) && n < high
    requires !l.Live? && !l.Clearing?
    ensures WindowOk(h, SetEntryValue(entries, home[n], None), home, blocks, SetLife(life, n, l), high)
  {
    hide Start, Wrap;
    var entries', life' := SetEntryValue(entries, home[n], None), SetLife(life, n, l);
    assert SlotOk(h, entries, home, blocks, life, high, n);
    WrapBelow(n - h.origin, |h.index|);
    forall m: nat | h.origin <= m ensures SlotOk(h, entries', home, blocks, life', high, m) {
      assert SlotOk(h, entries, home, blocks, life, high, m);
      WrapBelow(m - h.origin, |h.index|);
      if InWindow(h, high, m) && m != n {
        InWindowDiffers(h, high, m, n);
      } else if high <= m < h.origin + |h.index| && n != m {
        WindowVsFresh(h, high, n, m);
      }
    }
    forall k: nat | Listed(life', k) ensures InWindow(h, high, k) {
      assert Listed(life, k);
    }
  }

  lemma InWindowDiffers(h: Header, high: nat, m: nat, n: nat)
    requires |h.index| > 0 && Distinct(h.index) && m != n && InWindow(h, high, m) && InWindow(h, high, n)
    ensures Slot(h, Pos(h, m)) != Slot(h, Pos(h, n))
  {
    WrapBelow(n - h.origin, |h.index|);
    WrapBelow(m - h.origin, |h.index|);
    if m < n {
      WrapInjective(m - h.origin, n - h.origin, |h.index|);
    } else {
      WrapInjective(n - h.origin, m - h.origin, |h.index|);
    }
  }

  lemma WindowVsFresh(h: Header, high: nat, n: nat, m: nat)
    requires |h.index| > 0 && Distinct(h.index) && InWindow(h, high, n) && high <= m < h.origin + |h.index|
    ensures Slot(h, Pos(h, m)) != Slot(h, Pos(h, n))
  {
    WrapBelow(n - h.origin, |h.index|);
    WrapBelow(m - h.origin, |h.index|);
    WrapInjective(n - h.origin, m - h.origin, |h.index|);
  }

  lemma ClearOwn(heap: seq<Block>, blocks: seq<nat>, life: seq<Life>, c: C.State, n: nat, l: Life)
    requires OwnOk(heap, blocks, life) && LifeOk(heap, blocks, life, c)
    requires n < |life| && (!life[n].Live? || CeilBlk(|c.stage|) <= n) && !l.Live? && (life[n] == Freed ==> l == Freed)
    ensures OwnOk(heap, blocks, SetLife(life, n, l)) && LifeOk(heap, blocks, SetLife(life, n, l), c)
  {
    var life' := SetLife(life, n, l);
    assert forall k: nat :: Owned(life', k) ==> Owned(life, k);
    forall k: nat | k < |life'| ensures LifeAt(heap, blocks, life', c, k) {
      assert LifeAt(heap, blocks, life, c, k);
    }
  }

  lemma SetValueFrame(entries: seq<Entry>, e: nat)
    ensures var entries' := SetEntryValue(entries, e, None);
            && |entries'| == |entries|
            && (forall e': nat :: EntryAt(entries', e').key == EntryAt(entries, e').key)
            && (forall e': nat :: EntryAt(entries, e').value == None ==> EntryAt(entries', e').value == None)
  {
  }

  lemma ClearKeeps(s: State, t: nat, want: D.Want, seen: nat)
    requires Inv(s) && t < |s.locs| && s.locs[t].Clear?
    ensures Inv(ConsumerStep(s, t, want, seen))
  {
    hide D.Inv, HeapOk, NumsOk, PpcOk, WrittenOk, CellsOk, C.Inv, LifeOk, OwnOk, D.Shape, WindowOk, SetEntryValue, Granted, HomesIn, InSlot, Fits, Blk, Off, CeilBlk, EntryAt, Pos;
    ClearPlace(s, t);
    var l, p := s.locs[t], s.claims.spans[t];
    var n := Blk(p.pos - 1);
    var s' := ConsumerStep(s, t, want, seen);
    ClearIndex(Last(s), s.entries, s.home, s.blocks, s.life, s.high, n, Freeing(t));
    ClearOwn(s.heap, s.blocks, s.life, s.claims, n, Freeing(t));
    SetValueFrame(s.entries, s.home[n]);
    PpcFrame(s.ppc, s.q.tail, s.headers, s.entries, s'.entries, s.heap, s.heap, s.blocks, s.life, s'.life, s.high, s.tailBlock);
    assert LocOk(l, t, p, s.headers, s.entries, s.home, s.blocks, s.life);
    forall u | 0 <= u < |s.locs| ensures LocOk(s'.locs[u], u, s.claims.spans[u], s.headers, s'.entries, s.home, s.blocks, s'.life) {
      if u != t { LocsFrame(s, t, s.claims.spans, s'.entries, s'.life, u); }
    }
  }

  // ----- back to the pool -----

  lemma SetFreeFrame(heap: seq<Block>, b: nat)
    requires HeapOk(heap) && b < |heap|
    ensures var heap' := SetFree(heap, b);
            && |heap'| == |heap| && HeapOk(heap')
            && (forall b': nat :: NextOf(heap', b') == NextOf(heap, b'))
            && (forall b': nat :: IsFree(heap', b') <==> IsFree(heap, b') || b' == b)
            && (forall b': nat, k': nat :: Cell(heap', b', k') == Cell(heap, b', k'))
            && (forall b': nat :: Done(heap', b') == Done(heap, b'))
  {
  }

  /** Blocks after the one with number `n` went back to the pool. */
  lemma FreeOwn(heap: seq<Block>, blocks: seq<nat>, life: seq<Life>, c: C.State, n: nat)
    requires HeapOk(heap) && OwnOk(heap, blocks, life) && LifeOk(heap, blocks, life, c)
    requires Owned(life, n) && !life[n].Live?
    ensures var heap', life' := SetFree(heap, BlockOf(blocks, n)), SetLife(life, n, Freed);
            OwnOk(heap', blocks, life') && LifeOk(heap', blocks, life', c)
  {
    hide LifeOk, IsFree, SetFree, Done, Cell, NextOf, HeapOk;
    var heap', life' := SetFree(heap, BlockOf(blocks, n)), SetLife(life, n, Freed);
    SetFreeFrame(heap, BlockOf(blocks, n));
    ClearOwn(heap, blocks, life, c, n, Freed);
    LifeFrame(heap, heap', blocks, life', c);
    assert forall k: nat :: Owned(life', k) ==> Owned(life, k) && k != n;
  }

  lemma FreeKeeps(s: State, t: nat, want: D.Want, seen: nat)
    requires Inv(s) && t < |s.locs| && s.locs[t].Free?
    ensures Inv(ConsumerStep(s, t, want, seen))
  {
    hide D.Inv, HeapOk, NumsOk, PpcOk, WrittenOk, CellsOk, C.Inv, LifeOk, OwnOk, D.Shape, IndexOk, SetFree, HomesIn, InSlot, Fits, Blk, Off, CeilBlk, EntryAt, Pos, NextOf, IsFree, Done, Cell;
    ClearPlace(s, t);
    var l, p := s.locs[t], s.claims.spans[t];
    var n := Blk(p.pos - 1);
    var s' := ConsumerStep(s, t, want, seen);
    SetFreeFrame(s.heap, l.b);
    FreeOwn(s.heap, s.blocks, s.life, s.claims, n);
    IndexFrame(s.headers, s.entries, s.home, s.blocks, s.life, s'.life, s.high);
    FreeLengths(s);
    CellsFrame(s.heap, s'.heap, s.blocks, s.claims);
    WrittenFrame(s.ppc, s.heap, s'.heap, s.blocks, s.q.tail);
    assert Owned(s.life, n);
    PpcFrame(s.ppc, s.q.tail, s.headers, s.entries, s.entries, s.heap, s'.heap, s.blocks, s.life, s'.life, s.high, s.tailBlock);
    FreeMoves(s, t, want, seen);
  }

  lemma FreeLengths(s: State)
    requires Inv(s)
    ensures |s.claims.stage| <= |s.claims.vals|
  {
    LinkLengths(s);
  }

  lemma FreeMoves(s: State, t: nat, want: D.Want, seen: nat)
    requires Inv(s) && t < |s.locs| && s.locs[t].Free?
    ensures var s' := ConsumerStep(s, t, want, seen);
            && Shape(s') && LocsOk(s'.locs, s.claims.spans, s.headers, s.entries, s.home, s.blocks, s'.life)
            && (forall u :: 0 <= u < |s.locs| && u != t ==> s'.locs[u] == s.locs[u])
  {
    hide D.Inv, HeapOk, NumsOk, PpcOk, WrittenOk, CellsOk, C.Inv, LifeOk, OwnOk, WindowOk, HomesIn, InSlot, Fits, Blk, Off, CeilBlk, EntryAt, Pos, SetFree;
    ClearPlace(s, t);
    var l, p := s.locs[t], s.claims.spans[t];
    var s' := ConsumerStep(s, t, want, seen);
    assert LocOk(l, t, p, s.headers, s.entries, s.home, s.blocks, s.life);
    OnwardOk(s, t, p, l.h, l.slot, Blk(p.pos - 1));
    forall u | 0 <= u < |s.locs| ensures LocOk(s'.locs[u], u, s.claims.spans[u], s.headers, s.entries, s.home, s.blocks, s'.life) {
      if u != t { LocsFrame(s, t, s.claims.spans, s.entries, s'.life, u); }
    }
  }

  /** Every step of every consumer keeps the invariant. */
  lemma ConsumerKeepsInv(s: State, t: nat, want: D.Want, seen: nat)
    requires Inv(s) && t < |s.locs|
    ensures Inv(ConsumerStep(s, t, want, seen))
  {
    hide *;
    match s.locs[t]
    case Out => OutKeeps(s, t, want, seen);
    case LoadHeader => LoadHeaderKeeps(s, t, want, seen);
    case LoadTail(_) => LoadTailKeeps(s, t, want, seen);
    case LoadKey(_, _) => LoadKeyKeeps(s, t, want, seen);
    case LoadValue(_, _) => LoadValueKeeps(s, t, want, seen);
    case Read(_, _, _) => ReadKeeps(s, t, want, seen);
    case Mark(_, _, _) => MarkKeeps(s, t, want, seen);
    case Clear(_, _, _) => ClearKeeps(s, t, want, seen);
    case Free(_, _, _) => FreeKeeps(s, t, want, seen);
  }
}
