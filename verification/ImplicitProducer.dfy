/** The implicit producer end to end: its block index, whose entries are shared by all the rings
    of pointers that were ever built over them, the counters that hand out indices, and any
    number of consumers, the last of which to finish with a block takes it out of the index and
    gives it back to the pool that all producers share.

    Each access to memory shared between threads is one step.  `home`, `blocks`, `life`, `high`,
    `claims`, the `origin` of an index header and the number in `FreeChain` are history: no step
    reads them. */
module ImplicitProducer {
  import opened Wrappers
  import opened Blocks
  import C = Claims
  import D = DequeueCounters
  import X = ExplicitProducer

  type Elem = C.Elem

  /** No block begins there. */
  const INVALID_BLOCK_BASE := 1

  /** A block: the next one of the same operation, how many slots were completely dequeued, one
      cell per slot, and whether it lies in the pool. */
  datatype Block = Block(next: Option<nat>, done: nat, cells: seq<Option<Elem>>, free: bool)

  /** An entry of the block index: base index of a block, and the block unless it was given back. */
  datatype Entry = Entry(key: nat, value: Option<nat>)

  /** A ring of pointers to entries; `tail` is the slot inserted last.  History: slot 0 is for block
      number `origin`. */
  datatype Header = Header(index: seq<nat>, tail: nat, origin: nat)

  /** An enqueue operation under way: the elements, whether it is the bulk form, the tail block
      when it began, the first block it allocated, how many it still needs and the base of the
      next one. */
  datatype Op = Op(vs: seq<Elem>, bulk: bool, start: Option<nat>, first: Option<nat>, need: nat, base: nat)

  datatype ProducerPC =
    | Idle
    | Room(op: Op)
    | Insert(op: Op)
    | Grow(op: Op)
    | SetKey(op: Op, e: nat)
    | SetTail(op: Op, e: nat)
    | Requisition(op: Op, e: nat)
    | SetValue(op: Op, e: nat, b: nat)
    | Rewind(op: Op, e: nat)
    | Unset(op: Op, e: nat)
    | RollValue(op: Op, b: nat, base: nat)
    | RollTail(op: Op, b: nat, base: nat)
    | FreeChain(op: Op, b: nat, n: nat)
    | Write(op: Op, j: nat, end: Option<nat>)
    | Finish(op: Op)

  /** A consumer that has claimed indices: where it is in looking up, reading and giving back. */
  datatype Loc =
    | Out
    | LoadHeader
    | LoadTail(h: nat)
    | LoadKey(h: nat, tail: nat)
    | LoadValue(h: nat, slot: nat)
    | Read(h: nat, slot: nat, b: nat)
    | Mark(h: nat, slot: nat, b: nat)
    | Clear(h: nat, slot: nat, b: nat)
    | Free(h: nat, slot: nat, b: nat)

  /** History: a block number's entry has a block, is being emptied by a consumer, its block is
      being given back, was taken out by the failed operation that put it in, or is in the pool. */
  datatype Life = Live | Clearing(t: nat) | Freeing(t: nat) | Dropped | Freed

  datatype State = State(
    q: D.State,
    claims: C.State,
    locs: seq<Loc>,
    heap: seq<Block>,
    entries: seq<Entry>,
    headers: seq<Header>,
    tailBlock: Option<nat>,
    ppc: ProducerPC,
    limit: Option<nat>,
    home: seq<nat>,
    blocks: seq<nat>,
    life: seq<Life>,
    high: nat)

  /** A step of the producer, with what the allocators do if asked (the block granted and its
      contents, or failure), or of consumer `t` with its stale loads. */
  datatype Act =
    | Produce(vs: seq<Elem>, bulk: bool, fails: bool, granted: nat, cells: seq<Option<Elem>>)
    | Consume(t: nat, want: D.Want, seen: nat)

  // ----- access to blocks and entries -----

  function Cell(heap: seq<Block>, b: nat, k: nat): Option<Elem> {
    if b < |heap| && k < |heap[b].cells| then heap[b].cells[k] else None
  }

  function SetCell(heap: seq<Block>, b: nat, k: nat, v: Option<Elem>): seq<Block> {
    if b < |heap| && k < |heap[b].cells| then heap[b := heap[b].(cells := heap[b].cells[k := v])] else heap
  }

  function Done(heap: seq<Block>, b: nat): nat { if b < |heap| then heap[b].done else 0 }

  /** `set_empty` and `set_many_empty`: `n` more slots are completely dequeued. */
  function AddDone(heap: seq<Block>, b: nat, n: nat): seq<Block> {
    if b < |heap| then heap[b := heap[b].(done := heap[b].done + n)] else heap
  }

  function NextOf(heap: seq<Block>, b: nat): Option<nat> { if b < |heap| then heap[b].next else None }

  function SetNext(heap: seq<Block>, b: nat, next: Option<nat>): seq<Block> {
    if b < |heap| then heap[b := heap[b].(next := next)] else heap
  }

  /** In the pool, as far as the memory goes; a block never seen before is not. */
  predicate IsFree(heap: seq<Block>, b: nat) { b < |heap| && heap[b].free }

  function SetFree(heap: seq<Block>, b: nat): seq<Block> {
    if b < |heap| then heap[b := heap[b].(free := true)] else heap
  }

  function EntryAt(entries: seq<Entry>, e: nat): Entry {
    if e < |entries| then entries[e] else Entry(INVALID_BLOCK_BASE, None)
  }

  function SetEntryKey(entries: seq<Entry>, e: nat, key: nat): seq<Entry> {
    if e < |entries| then entries[e := entries[e].(key := key)] else entries
  }

  function SetEntryValue(entries: seq<Entry>, e: nat, value: Option<nat>): seq<Entry> {
    if e < |entries| then entries[e := entries[e].(value := value)] else entries
  }

  function Slot(h: Header, slot: nat): nat { if slot < |h.index| then h.index[slot] else 0 }

  /** History: the life of one block number. */
  function SetLife(life: seq<Life>, n: nat, l: Life): seq<Life> { if n < |life| then life[n := l] else life }

  predicate Shape(s: State) {
    && D.Shape(s.q)
    && |s.locs| == |s.q.pcs| == |s.claims.spans|
    && (forall h :: 0 <= h < |s.headers| ==> |s.headers[h].index| > 0)
    && (forall t :: 0 <= t < |s.locs| && s.locs[t] != Out ==> |s.headers| > 0)
    && (forall t :: 0 <= t < |s.locs| && s.locs[t] != Out && s.locs[t] != LoadHeader ==> s.locs[t].h < |s.headers|)
  }

  function Last(s: State): Header
    requires |s.headers| > 0
  {
    s.headers[|s.headers| - 1]
  }

  function WithTail(s: State, tail: nat): seq<Header>
    requires |s.headers| > 0
  {
    s.headers[|s.headers| - 1 := Last(s).(tail := tail)]
  }

  /** `get_block_index_index_for_index`, from the tail and the key found there. */
  function Lookup(h: Header, tail: nat, key: nat, index: nat): nat
    requires |h.index| > 0
  {
    Mask(tail + DivBlocks(Base(index) - key), |h.index|)
  }

  // ----- the producer -----

  function StartOp(s: State, vs: seq<Elem>, bulk: bool): State {
    var need := Need(s.q.tail, |vs|);
    var op := Op(vs, bulk, s.tailBlock, None, need, Start(CeilBlk(s.q.tail)));
    s.(ppc := if need == 0 then Write(op, 0, s.tailBlock) else Room(op))
  }

  /** The allocation that failed is undone; the bulk form now undoes its earlier ones. */
  function RollBack(s: State, op: Op): State {
    s.(ppc := if op.bulk && op.first.Some? then RollValue(op, op.first.value, Start(CeilBlk(s.q.tail))) else Idle)
  }

  function RoomStep(s: State, op: Op): State {
    if X.Full(s.q.head, op.base, s.limit) || |s.headers| == 0 then RollBack(s, op) else s.(ppc := Insert(op))
  }

  /** `insert_block_index_entry` takes the next slot's entry if it is unused. */
  function InsertStep(s: State, op: Op): State
    requires |s.headers| > 0
  {
    var e := Slot(Last(s), Succ(Last(s).tail, |Last(s).index|));
    if EntryAt(s.entries, e).key == INVALID_BLOCK_BASE || EntryAt(s.entries, e).value == None
    then s.(ppc := SetKey(op, e))
    else s.(ppc := Grow(op))
  }

  /** The pointers of a ring twice as long: those there are, oldest first, and one to each of the
      entries from `unused` on. */
  function Widened(h: Header, unused: nat): seq<nat>
    requires |h.index| > 0
  {
    seq(2 * |h.index|, (p: nat) => WidenedAt(h, unused, p))
  }

  function WidenedAt(h: Header, unused: nat, p: nat): nat
    requires |h.index| > 0
  {
    if p < |h.index| then Slot(h, Wrap(h.tail + 1 + p, |h.index|)) else unused + (p - |h.index|)
  }

  /** `new_block_index`: a ring twice as long, first all the entries there are, oldest first. */
  function GrowStep(s: State, op: Op, fails: bool): State
    requires |s.headers| > 0 && |Last(s).index| > 0
  {
    if fails then RollBack(s, op)
    else
      var h := Last(s);
      var size := |h.index|;
      s.(headers := s.headers + [Header(Widened(h, |s.entries|), size - 1, if |s.home| >= size then |s.home| - size else 0)],
         entries := s.entries + seq(size, _ => Entry(INVALID_BLOCK_BASE, None)),
         ppc := SetKey(op, |s.entries|))
  }

  function SetKeyStep(s: State, op: Op, e: nat): State {
    s.(entries := SetEntryKey(s.entries, e, op.base),
       high := if s.high == |s.home| then s.high + 1 else s.high,
       ppc := SetTail(op, e))
  }

  function SetTailStep(s: State, op: Op, e: nat): State
    requires |s.headers| > 0
  {
    s.(headers := WithTail(s, Succ(Last(s).tail, |Last(s).index|)), ppc := Requisition(op, e))
  }

  function RequisitionStep(s: State, op: Op, e: nat, fails: bool, granted: nat, cells: seq<Option<Elem>>): State {
    if fails then s.(ppc := Rewind(op, e))
    else if granted > |s.heap| || (granted < |s.heap| && !IsFree(s.heap, granted)) || |cells| != BLOCK_SIZE then
      s  // no allocator does this
    else
      var block := Block(None, 0, cells, false);
      s.(heap := if granted == |s.heap| then s.heap + [block] else s.heap[granted := block],
         ppc := SetValue(op, e, granted))
  }

  function SetValueStep(s: State, op: Op, e: nat, b: nat): State {
    var op' := op.(first := if op.first.None? then Some(b) else op.first,
                   need := if op.need == 0 then 0 else op.need - 1, base := op.base + BLOCK_SIZE);
    s.(entries := SetEntryValue(s.entries, e, Some(b)),
       heap := if op.bulk && (Off(s.q.tail) != 0 || op.first.Some?) && s.tailBlock.Some?
               then SetNext(s.heap, s.tailBlock.value, Some(b)) else s.heap,
       home := s.home + [e], blocks := s.blocks + [b], life := s.life + [Live],
       tailBlock := if op'.need > 0 || !op.bulk then Some(b)
                    else if Off(s.q.tail) == 0 then op'.first else op.start,
       ppc := if op'.need > 0 then Room(op') else Write(op', 0, Some(b)))
  }

  function RewindStep(s: State, op: Op, e: nat): State
    requires |s.headers| > 0 && |Last(s).index| > 0
  {
    s.(headers := WithTail(s, Back(s)), ppc := Unset(op, e))
  }

  function Back(s: State): nat
    requires |s.headers| > 0 && |Last(s).index| > 0
  {
    Pred(Last(s).tail, |Last(s).index|)
  }

  function UnsetStep(s: State, op: Op, e: nat): State {
    RollBack(s.(entries := SetEntryValue(s.entries, e, None)), op)
  }

  function RollValueStep(s: State, op: Op, b: nat, base: nat): State
    requires |s.headers| > 0 && |Last(s).index| > 0
  {
    var h := Last(s);
    var slot := Lookup(h, h.tail, EntryAt(s.entries, Slot(h, h.tail)).key, base);
    s.(entries := SetEntryValue(s.entries, Slot(h, slot), None),
       life := SetLife(s.life, Blk(base), Dropped),
       ppc := RollTail(op, b, base))
  }

  function RollTailStep(s: State, op: Op, b: nat, base: nat): State
    requires |s.headers| > 0 && |Last(s).index| > 0
  {
    s.(headers := WithTail(s, Back(s)),
       ppc := match NextOf(s.heap, b)
              case Some(next) => RollValue(op, next, base + BLOCK_SIZE)
              case None => if op.first.Some? then FreeChain(op, op.first.value, CeilBlk(s.q.tail)) else Idle)
  }

  /** The blocks numbered below `n`; history. */
  function Cut<T>(numbered: seq<T>, n: nat): seq<T> { if n <= |numbered| then numbered[..n] else numbered }

  function FreeChainStep(s: State, op: Op, b: nat, n: nat): State {
    var s' := s.(heap := SetFree(s.heap, b), life := SetLife(s.life, n, Freed));
    match NextOf(s.heap, b)
    case Some(next) => s'.(ppc := FreeChain(op, next, n + 1))
    case None =>
      s'.(tailBlock := op.start, ppc := Idle,
          home := Cut(s.home, CeilBlk(s.q.tail)), blocks := Cut(s.blocks, CeilBlk(s.q.tail)),
          life := Cut(s'.life, CeilBlk(s.q.tail)))
  }

  function WriteStep(s: State, op: Op, j: nat, end: Option<nat>): State {
    if s.tailBlock.Some? && j < |op.vs| then
      var i := s.q.tail + j;
      var s' := s.(heap := SetCell(s.heap, s.tailBlock.value, Off(i), Some(op.vs[j])));
      if j + 1 == |op.vs| || Off(i + 1) == 0 then
        if s.tailBlock == end then s'.(ppc := Finish(op))
        else s'.(tailBlock := NextOf(s.heap, s.tailBlock.value), ppc := Write(op, j + 1, end))
      else s'.(ppc := Write(op, j + 1, end))
    else s
  }

  function FinishStep(s: State, op: Op): State
    requires D.Shape(s.q)
  {
    s.(q := D.Step(s.q, D.Publish(|op.vs|)), claims := C.Publish(s.claims, op.vs), ppc := Idle)
  }

  function ProducerStep(s: State, a: Act): State
    requires Shape(s) && a.Produce?
  {
    if s.ppc.Room? then RoomStep(s, s.ppc.op)
    else if s.ppc.Idle? then
      if a.vs == [] || (!a.bulk && |a.vs| != 1) then s else StartOp(s, a.vs, a.bulk)
    else if s.ppc.Requisition? then RequisitionStep(s, s.ppc.op, s.ppc.e, a.fails, a.granted, a.cells)
    else if s.ppc.SetValue? then SetValueStep(s, s.ppc.op, s.ppc.e, s.ppc.b)
    else if s.ppc.SetKey? then SetKeyStep(s, s.ppc.op, s.ppc.e)
    else if s.ppc.Unset? then UnsetStep(s, s.ppc.op, s.ppc.e)
    else if s.ppc.FreeChain? then FreeChainStep(s, s.ppc.op, s.ppc.b, s.ppc.n)
    else if s.ppc.Write? then WriteStep(s, s.ppc.op, s.ppc.j, s.ppc.end)
    else if s.ppc.Finish? then FinishStep(s, s.ppc.op)
    else if |s.headers| == 0 then s  // the steps below follow a look at the block index
    else
      match s.ppc
      case Insert(op) => InsertStep(s, op)
      case Grow(op) => GrowStep(s, op, a.fails)
      case SetTail(op, e) => SetTailStep(s, op, e)
      case Rewind(op, e) => RewindStep(s, op, e)
      case RollValue(op, b, base) => RollValueStep(s, op, b, base)
      case RollTail(op, b, base) => RollTailStep(s, op, b, base)
      case _ => s
  }

  // ----- the consumers -----

  function At(s: State, t: nat, l: Loc): State
    requires t < |s.locs|
  {
    s.(locs := s.locs[t := l])
  }

  /** The counters decide; when they grant `n` indices the thread claims them. */
  function OutStep(s: State, t: nat, want: D.Want, seen: nat): State
    requires Shape(s) && t < |s.locs|
  {
    var q := D.Step(s.q, D.Consume(t, want, seen));
    if s.q.pcs[t].Claim? && s.q.pcs[t].actual > 0 then
      At(s, t, LoadHeader).(q := q, claims := C.Take(s.claims, t, s.q.pcs[t].actual))
    else s.(q := q)
  }

  function ReadStep(s: State, t: nat, h: nat, slot: nat, b: nat): State
    requires Shape(s) && t < |s.locs|
  {
    var i := s.claims.spans[t].pos;
    match Cell(s.heap, b, Off(i))
    case None => s  // reading a cell that holds no element
    case Some(v) =>
      var s' := s.(claims := C.Read(s.claims, t, v), heap := SetCell(s.heap, b, Off(i), None));
      if i + 1 == s.claims.spans[t].hi || Off(i + 1) == 0 then At(s', t, Mark(h, slot, b)) else s'
  }

  /** Where a bulk dequeue goes when it is done with one block. */
  function Onward(s: State, t: nat, h: nat, slot: nat): Loc
    requires Shape(s) && t < |s.locs| && h < |s.headers|
  {
    var p := s.claims.spans[t];
    if p.pos == p.hi then Out else LoadValue(h, Succ(slot, |s.headers[h].index|))
  }

  /** The consumer that completes a block goes on to give it back. */
  function MarkStep(s: State, t: nat, h: nat, slot: nat, b: nat): State
    requires Shape(s) && t < |s.locs| && h < |s.headers|
  {
    var p := s.claims.spans[t];
    var n := if p.start <= p.pos then p.pos - p.start else 0;
    var s' := s.(heap := AddDone(s.heap, b, n), claims := C.GiveBack(s.claims, t));
    if Done(s.heap, b) + n == BLOCK_SIZE
    then At(s', t, Clear(h, slot, b)).(life := SetLife(s.life, Blk(p.start), Clearing(t)))
    else At(s', t, Onward(s, t, h, slot))
  }

  function ClearStep(s: State, t: nat, h: nat, slot: nat, b: nat): State
    requires Shape(s) && t < |s.locs| && h < |s.headers|
  {
    var p := s.claims.spans[t];
    At(s, t, Free(h, slot, b)).(
      entries := SetEntryValue(s.entries, Slot(s.headers[h], slot), None),
      life := if p.pos > 0 then SetLife(s.life, Blk(p.pos - 1), Freeing(t)) else s.life)
  }

  function FreeStep(s: State, t: nat, h: nat, slot: nat, b: nat): State
    requires Shape(s) && t < |s.locs| && h < |s.headers|
  {
    var p := s.claims.spans[t];
    At(s, t, Onward(s, t, h, slot)).(
      heap := SetFree(s.heap, b),
      life := if p.pos > 0 then SetLife(s.life, Blk(p.pos - 1), Freed) else s.life)
  }

  function ConsumerStep(s: State, t: nat, want: D.Want, seen: nat): State
    requires Shape(s) && t < |s.locs|
  {
    match s.locs[t]
    case Out => OutStep(s, t, want, seen)
    case LoadHeader => At(s, t, LoadTail(|s.headers| - 1))
    case LoadTail(h) => At(s, t, LoadKey(h, s.headers[h].tail))
    case LoadKey(h, tail) =>
      var key := EntryAt(s.entries, Slot(s.headers[h], tail)).key;
      At(s, t, LoadValue(h, Lookup(s.headers[h], tail, key, s.claims.spans[t].pos)))
    case LoadValue(h, slot) =>
      (match EntryAt(s.entries, Slot(s.headers[h], slot)).value
       case None => s  // there would be no block to read from
       case Some(b) => At(s, t, Read(h, slot, b)))
    case Read(h, slot, b) => ReadStep(s, t, h, slot, b)
    case Mark(h, slot, b) => MarkStep(s, t, h, slot, b)
    case Clear(h, slot, b) => ClearStep(s, t, h, slot, b)
    case Free(h, slot, b) => FreeStep(s, t, h, slot, b)
  }

  function Step(s: State, a: Act): State
    requires Shape(s) && (a.Consume? ==> a.t < |s.locs|)
  {
    match a
    case Produce(_, _, _, _, _) => ProducerStep(s, a)
    case Consume(t, want, seen) => ConsumerStep(s, t, want, seen)
  }

  /** A new producer: no block of its own yet, and the index its constructor allocates, if it can. */
  predicate Init(s: State) {
    && D.Init(s.q)
    && s.claims == C.State(0, [], [], s.claims.spans)
    && |s.locs| == |s.q.pcs| == |s.claims.spans|
    && (forall t :: 0 <= t < |s.locs| ==> s.locs[t] == Out && s.claims.spans[t] == C.Span(0, 0, 0, 0, []))
    && (forall b :: 0 <= b < |s.heap| ==> |s.heap[b].cells| == BLOCK_SIZE)
    && (s.headers == []
        || (&& |s.headers| == 1 && |s.headers[0].index| == |s.entries| > 0
            && s.headers[0] == Header(seq(|s.entries|, p => p), |s.entries| - 1, 0)
            && forall e :: 0 <= e < |s.entries| ==> s.entries[e] == Entry(INVALID_BLOCK_BASE, None)))
    && s.tailBlock == None && s.ppc == Idle
    && s.home == s.blocks == [] && s.life == [] && s.high == 0
  }
}
