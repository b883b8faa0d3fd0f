/** The explicit producer end to end: the ring of blocks, the growing block index, the counters
    that hand out indices, and any number of consumers that look their blocks up in whatever
    snapshot of the index they happen to load.

    Each access to memory shared between threads is one step.  A run of accesses to memory that
    only the producer uses at that moment is one step too.  `lo`, `live`, `claims` and, in an
    index header, `origin`, `num` and `top` are history: no step reads them. */
module ExplicitProducer {
  import opened Wrappers
  import opened Blocks
  import C = Claims
  import D = DequeueCounters

  type Elem = C.Elem

  /** A block: the next one on the producer's ring, one empty flag and one cell per slot. */
  datatype Block = Block(next: nat, empty: seq<bool>, cells: seq<Option<Elem>>)

  datatype Entry = Entry(base: nat, block: nat)

  /** A block index.  `front` is the slot of the newest block that consumers may rely on.
      History: slot 0 was made for block number `origin`, `front` is the slot of block number
      `num`, and entries for block numbers below `top` have been written. */
  datatype Header = Header(entries: seq<Entry>, front: int, origin: nat, num: int, top: nat)

  /** An enqueue operation under way: the elements, whether it is the bulk form, the number of
      index slots used and the tail block when it began, the first block it set aside, how many
      blocks it still has to set aside and the base of the next one. */
  datatype Op = Op(vs: seq<Elem>, bulk: bool, used: nat, start: Option<nat>, first: Option<nat>, need: nat, base: nat)

  datatype ProducerPC =
    | Idle
    | Reuse(op: Op)
    | Room(op: Op)
    | Grow(op: Op)
    | Link(op: Op)
    | SetBase(op: Op, reused: bool)
    | SetBlock(op: Op, reused: bool)
    | ResetAll(op: Op, block: nat)
    | Publish(op: Op)
    | Write(op: Op, j: nat, end: Option<nat>)
    | Finish(op: Op)

  /** A consumer that has claimed indices: where it is in looking up, reading and giving back. */
  datatype Loc =
    | Out
    | LoadHeader
    | LoadFront(h: nat)
    | LoadBase(h: nat, front: nat, num: int)
    | LoadBlock(h: nat, slot: nat)
    | Read(h: nat, slot: nat, block: nat)
    | Mark(h: nat, slot: nat, block: nat)

  datatype State = State(
    q: D.State,
    claims: C.State,
    locs: seq<Loc>,
    heap: seq<Block>,
    headers: seq<Header>,
    tailBlock: Option<nat>,
    slotsUsed: nat,
    front: nat,
    ppc: ProducerPC,
    limit: Option<nat>,
    ring: seq<nat>,
    lo: nat,
    live: nat)

  datatype Call = EnqueueOne(v: Elem) | EnqueueBulk(vs: seq<Elem>)

  /** A step of the producer, with what the allocators do if asked (`granted` and its contents, or
      failure, and the contents of new index memory), or of consumer `t` with its stale loads. */
  datatype Act =
    | Produce(call: Call, fails: bool, granted: nat, cells: seq<Option<Elem>>, junk: Entry)
    | Consume(t: nat, want: D.Want, seen: nat)

  // ----- access to blocks and indices -----

  /** The block that holds block number `n`; history. */
  function BlockAt(ring: seq<nat>, lo: nat, n: int): nat {
    if lo <= n < lo + |ring| then ring[n - lo] else 0
  }

  function Cell(heap: seq<Block>, b: nat, k: nat): Option<Elem> {
    if b < |heap| && k < |heap[b].cells| then heap[b].cells[k] else None
  }

  function SetCell(heap: seq<Block>, b: nat, k: nat, v: Option<Elem>): seq<Block> {
    if b < |heap| && k < |heap[b].cells| then heap[b := heap[b].(cells := heap[b].cells[k := v])] else heap
  }

  predicate Empty(heap: seq<Block>, b: nat, k: nat) {
    b < |heap| && k < |heap[b].empty| && heap[b].empty[k]
  }

  /** `is_empty`: every flag is set. */
  predicate AllEmpty(heap: seq<Block>, b: nat) {
    b < |heap| && forall k :: 0 <= k < |heap[b].empty| ==> heap[b].empty[k]
  }

  /** `reset_empty` and `set_all_empty`. */
  function FillFlags(heap: seq<Block>, b: nat, flag: bool): seq<Block> {
    if b < |heap| then heap[b := heap[b].(empty := seq(|heap[b].empty|, _ => flag))] else heap
  }

  /** `set_empty` and `set_many_empty` for slots `k` to `k + n - 1`. */
  function MarkEmpty(heap: seq<Block>, b: nat, k: nat, n: nat): seq<Block> {
    if b < |heap| && k + n <= |heap[b].empty| then
      heap[b := heap[b].(empty := heap[b].empty[..k] + seq(n, _ => true) + heap[b].empty[k + n..])]
    else heap
  }

  function SetNext(heap: seq<Block>, b: nat, next: nat): seq<Block> {
    if b < |heap| then heap[b := heap[b].(next := next)] else heap
  }

  function NextOf(heap: seq<Block>, b: nat): nat { if b < |heap| then heap[b].next else 0 }

  function EntryAt(h: Header, slot: nat): Entry {
    if slot < |h.entries| then h.entries[slot] else Entry(0, 0)
  }

  predicate Shape(s: State) {
    && D.Shape(s.q)
    && |s.locs| == |s.q.pcs| == |s.claims.spans|
    && |s.headers| > 0
    && (forall h :: 0 <= h < |s.headers| ==> |s.headers[h].entries| > 0)
    && (forall t :: 0 <= t < |s.locs| && (s.locs[t].LoadFront? || s.locs[t].LoadBase? || s.locs[t].LoadBlock? || s.locs[t].Read? || s.locs[t].Mark?)
          ==> s.locs[t].h < |s.headers|)
  }

  function Last(s: State): Header
    requires |s.headers| > 0
  {
    s.headers[|s.headers| - 1]
  }

  function SetLast(s: State, h: Header): seq<Header>
    requires |s.headers| > 0
  {
    s.headers[|s.headers| - 1 := h]
  }

  // ----- the producer -----

  predicate Full(head: nat, base: nat, limit: Option<nat>) {
    || !D.CircularLess(D.Word(head), D.Word(base + BLOCK_SIZE))
    || (limit.Some? && (limit.value == 0 || limit.value - BLOCK_SIZE < base - head))
  }

  function StartOp(s: State, vs: seq<Elem>, bulk: bool): State
    requires vs != []
  {
    var need := Need(s.q.tail, |vs|);
    var op := Op(vs, bulk, s.slotsUsed, s.tailBlock, None, need, Start(CeilBlk(s.q.tail)));
    s.(ppc := if need == 0 then Write(op, 0, s.tailBlock) else Reuse(op))
  }

  /** The bulk form gives up what it set aside when an allocation fails; that path is not
      modelled, so the execution stops here.  The single form just returns false. */
  function Fail(s: State, op: Op): State {
    if op.bulk then s else s.(ppc := Idle)
  }

  /** The ring read from its second block on. */
  function Rotated(ring: seq<nat>): seq<nat> { if ring == [] then [] else ring[1..] + [ring[0]] }

  /** Takes the block ahead of the tail block, if there is one and it is empty. */
  function ReuseStep(s: State, op: Op): State {
    if s.tailBlock.Some? then
      var b := NextOf(s.heap, s.tailBlock.value);
      if (op.bulk ==> op.first != Some(b)) && AllEmpty(s.heap, b) then
        var op' := op.(first := if op.first.None? then Some(b) else op.first, need := if op.need == 0 then 0 else op.need - 1);
        s.(tailBlock := Some(b),
           heap := if op.bulk then s.heap else FillFlags(s.heap, b, false),
           ring := Rotated(s.ring),
           lo := s.lo + 1,
           live := if op.bulk then s.live else s.live + 1,
           ppc := SetBase(op', true))
      else s.(ppc := Room(op))
    else s.(ppc := Room(op))
  }

  function RoomStep(s: State, op: Op): State
    requires |s.headers| > 0
  {
    if Full(s.q.head, op.base, s.limit) then Fail(s, op)
    else s.(ppc := if s.slotsUsed == |Last(s).entries| then Grow(op) else Link(op))
  }

  /** `new_block_index`: a block index of twice the size, holding the entries in use. */
  function GrowStep(s: State, op: Op, fails: bool, junk: Entry): State
    requires |s.headers| > 0 && |Last(s).entries| > 0
  {
    if fails then Fail(s, op)
    else
      var old' := Last(s);
      var size := |old'.entries|;
      var entries := seq(2 * size, p requires 0 <= p =>
        if p < s.slotsUsed then EntryAt(old', Mask(s.front - s.slotsUsed + p, size)) else junk);
      s.(headers := s.headers + [Header(entries, op.used - 1, s.lo, s.lo + op.used - 1, s.lo + |s.ring|)],
         front := s.slotsUsed,
         ppc := Link(op))
  }

  /** `requisition_block` and the insertion of the block behind the tail block. */
  function LinkStep(s: State, op: Op, fails: bool, granted: nat, cells: seq<Option<Elem>>): State {
    if fails then Fail(s, op)
    else if granted > |s.heap| || granted in s.ring || |cells| != BLOCK_SIZE then s  // no allocator does this
    else
      var block := Block(granted, seq(BLOCK_SIZE, _ => op.bulk), cells);
      var heap := if granted == |s.heap| then s.heap + [block] else s.heap[granted := block];
      var op' := op.(first := if op.first.None? then Some(granted) else op.first, need := if op.need == 0 then 0 else op.need - 1);
      s.(heap := if s.tailBlock.None? then heap
                 else SetNext(SetNext(heap, granted, NextOf(heap, s.tailBlock.value)), s.tailBlock.value, granted),
         tailBlock := Some(granted),
         slotsUsed := s.slotsUsed + 1,
         ring := s.ring + [granted],
         live := if op.bulk then s.live else s.live + 1,
         ppc := SetBase(op', false))
  }

  function SetBaseStep(s: State, op: Op, reused: bool): State
    requires |s.headers| > 0
  {
    var h := Last(s);
    if s.front < |h.entries| then
      s.(headers := SetLast(s, h.(entries := h.entries[s.front := h.entries[s.front].(base := op.base)])),
         ppc := SetBlock(op, reused))
    else s
  }

  function SetBlockStep(s: State, op: Op, reused: bool): State
    requires |s.headers| > 0
  {
    var h := Last(s);
    if s.front < |h.entries| && s.tailBlock.Some? then
      var op' := op.(base := op.base + BLOCK_SIZE);
      s.(headers := SetLast(s, h.(entries := h.entries[s.front := h.entries[s.front].(block := s.tailBlock.value)], top := h.top + 1)),
         front := Succ(s.front, |h.entries|),
         ppc := if op.need > 0 then (if reused then Reuse(op') else Room(op'))
                else if op.bulk then (if op.first.Some? then ResetAll(op', op.first.value) else s.ppc)
                else Publish(op'))
    else s
  }

  function ResetAllStep(s: State, op: Op, b: nat): State {
    s.(heap := FillFlags(s.heap, b, false),
       live := s.live + 1,
       ppc := if s.tailBlock == Some(b) then Publish(op) else ResetAll(op, NextOf(s.heap, b)))
  }

  /** Publishes the newest slot, and goes back to the block where writing starts. */
  function PublishStep(s: State, op: Op): State
    requires |s.headers| > 0
  {
    var h := Last(s);
    s.(headers := SetLast(s, h.(front := Pred(s.front, |h.entries|), num := s.lo + |s.ring| - 1)),
       tailBlock := if !op.bulk then s.tailBlock
                    else if Off(s.q.tail) == 0 && op.first.Some? then op.first else op.start,
       ppc := Write(op, 0, s.tailBlock))
  }

  function WriteStep(s: State, op: Op, j: nat, end: Option<nat>): State {
    if s.tailBlock.Some? && j < |op.vs| then
      var i := s.q.tail + j;
      var s' := s.(heap := SetCell(s.heap, s.tailBlock.value, Off(i), Some(op.vs[j])));
      if j + 1 == |op.vs| || Off(i + 1) == 0 then
        if s.tailBlock == end then s'.(ppc := Finish(op))
        else s'.(tailBlock := Some(NextOf(s.heap, s.tailBlock.value)), ppc := Write(op, j + 1, end))
      else s'.(ppc := Write(op, j + 1, end))
    else s
  }

  function FinishStep(s: State, op: Op): State
    requires D.Shape(s.q)
  {
    s.(q := D.Step(s.q, D.Publish(|op.vs|)), claims := C.Publish(s.claims, op.vs), ppc := Idle)
  }

  function ProducerStep(s: State, a: Act): State
    requires Shape(s) && a.Produce?
  {
    match s.ppc
    case Idle =>
      (match a.call
       case EnqueueOne(v) => StartOp(s, [v], false)
       case EnqueueBulk(vs) => if vs == [] then s else StartOp(s, vs, true))
    case Reuse(op) => ReuseStep(s, op)
    case Room(op) => RoomStep(s, op)
    case Grow(op) => GrowStep(s, op, a.fails, a.junk)
    case Link(op) => LinkStep(s, op, a.fails, a.granted, a.cells)
    case SetBase(op, reused) => SetBaseStep(s, op, reused)
    case SetBlock(op, reused) => SetBlockStep(s, op, reused)
    case ResetAll(op, b) => ResetAllStep(s, op, b)
    case Publish(op) => PublishStep(s, op)
    case Write(op, j, end) => WriteStep(s, op, j, end)
    case Finish(op) => FinishStep(s, op)
  }

  // ----- the consumers -----

  function At(s: State, t: nat, l: Loc): State
    requires t < |s.locs|
  {
    s.(locs := s.locs[t := l])
  }

  /** The counters decide; when they grant `n` indices the thread claims them. */
  function OutStep(s: State, t: nat, want: D.Want, seen: nat): State
    requires Shape(s) && t < |s.locs|
  {
    var q := D.Step(s.q, D.Consume(t, want, seen));
    if s.q.pcs[t].Claim? && s.q.pcs[t].actual > 0 then
      At(s, t, LoadHeader).(q := q, claims := C.Take(s.claims, t, s.q.pcs[t].actual))
    else s.(q := q)
  }

  function ReadStep(s: State, t: nat, h: nat, slot: nat, b: nat): State
    requires Shape(s) && t < |s.locs|
  {
    var i := s.claims.spans[t].pos;
    match Cell(s.heap, b, Off(i))
    case None => s  // reading a cell that holds no element
    case Some(v) =>
      var s' := s.(claims := C.Read(s.claims, t, v), heap := SetCell(s.heap, b, Off(i), None));
      if i + 1 == s.claims.spans[t].hi || Off(i + 1) == 0 then At(s', t, Mark(h, slot, b)) else s'
  }

  function MarkStep(s: State, t: nat, h: nat, slot: nat, b: nat): State
    requires Shape(s) && t < |s.locs| && h < |s.headers|
  {
    var p := s.claims.spans[t];
    var n := if p.start <= p.pos then p.pos - p.start else 0;
    var s' := s.(heap := MarkEmpty(s.heap, b, Off(p.start), n), claims := C.GiveBack(s.claims, t));
    At(s', t, if p.pos == p.hi then Out else LoadBlock(h, Succ(slot, |s.headers[h].entries|)))
  }

  function ConsumerStep(s: State, t: nat, want: D.Want, seen: nat): State
    requires Shape(s) && t < |s.locs|
  {
    match s.locs[t]
    case Out => OutStep(s, t, want, seen)
    case LoadHeader => At(s, t, LoadFront(|s.headers| - 1))
    case LoadFront(h) =>
      var f := s.headers[h].front;
      if f < 0 then s  // nothing was ever published
      else At(s, t, LoadBase(h, f, s.headers[h].num))
    case LoadBase(h, f, m) =>
      var offset := DivBlocks(Base(s.claims.spans[t].pos) - EntryAt(s.headers[h], f).base);
      At(s, t, LoadBlock(h, Mask(f + offset, |s.headers[h].entries|)))
    case LoadBlock(h, slot) => At(s, t, Read(h, slot, EntryAt(s.headers[h], slot).block))
    case Read(h, slot, b) => ReadStep(s, t, h, slot, b)
    case Mark(h, slot, b) => MarkStep(s, t, h, slot, b)
  }

  function Step(s: State, a: Act): State
    requires Shape(s) && (a.Consume? ==> a.t < |s.locs|)
  {
    match a
    case Produce(_, _, _, _, _) => ProducerStep(s, a)
    case Consume(t, want, seen) => ConsumerStep(s, t, want, seen)
  }

  /** A new producer: no block yet, and the index its constructor allocates. */
  predicate Init(s: State) {
    && D.Init(s.q)
    && s.claims == C.State(0, [], [], s.claims.spans)
    && |s.locs| == |s.q.pcs| == |s.claims.spans|
    && (forall t :: 0 <= t < |s.locs| ==> s.locs[t] == Out && s.claims.spans[t] == C.Span(0, 0, 0, 0, []))
    && (forall b :: 0 <= b < |s.heap| ==> |s.heap[b].empty| == |s.heap[b].cells| == BLOCK_SIZE)
    && |s.headers| == 1 && |s.headers[0].entries| > 0
    && s.headers[0].front == -1 && s.headers[0].num == -1 && s.headers[0].origin == s.headers[0].top == 0
    && s.tailBlock == None && s.slotsUsed == s.front == 0
    && s.ppc == Idle && s.ring == [] && s.lo == s.live == 0
  }
}
