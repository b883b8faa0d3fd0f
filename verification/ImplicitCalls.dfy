/** What an enqueue of the implicit producer comes to: the elements it was called with are appended, or
    something was refused on the way and nothing was; and how many steps that takes, undoing included. */
module ImplicitCalls {
  import opened Wrappers
  import opened Blocks
  import opened ImplicitProducer
  import opened ImplicitInvariant
  import opened ImplicitEnqueue
  import C = Claims
  import D = DequeueCounters
  import X = ExplicitProducer
  import EC = ExplicitCalls

  /** A call is a bulk one, or has one element. */
  predicate IsCall(a: Act) { a.Produce? && (a.bulk || |a.vs| == 1) }

  /** The step finds no leeway for another block, no block index, or is not given the memory it asks for. */
  predicate Refused(s: State, a: Act) {
    && a.Produce?
    && ((s.ppc.Room? && (X.Full(s.q.head, s.ppc.op.base, s.limit) || s.headers == [])) || (s.ppc.Grow? && s.headers != [] && a.fails)
        || (s.ppc.Requisition? && a.fails))
  }

  /** The operation is undoing what it did. */
  predicate Undoes(p: ProducerPC) { p.Rewind? || p.Unset? || p.RollValue? || p.RollTail? || p.FreeChain? }

  // ----- over runs -----

  /** From state `i` on the producer makes one call, which is over in state `j`. */
  ghost predicate WholeEnqueue(states: seq<State>, acts: seq<Act>, i: nat, j: nat) {
    && Run(states, acts) && i < j <= |acts| && IsCall(acts[i])
    && states[i].ppc == Idle == states[j].ppc
    && (forall k :: i < k < j ==> states[k].ppc != Idle)
  }

  /** Some step of the call from `i` to `j - 1` was refused. */
  ghost predicate WasRefused(states: seq<State>, acts: seq<Act>, i: nat, j: nat)
    requires j <= |acts| < |states|
  {
    exists k :: i <= k < j && Refused(states[k], acts[k])
  }

  /** The operation under way carries the elements of the call. */
  predicate Carries(s: State, vs: seq<Elem>, bulk: bool, vals: seq<Elem>) {
    s.ppc != Idle && s.claims.vals == vals && s.ppc.op.vs == vs && s.ppc.op.bulk == bulk
  }

  lemma StartCarries(s: State, a: Act)
    requires Shape(s) && IsCall(a) && s.ppc == Idle
    ensures var s' := ProducerStep(s, a);
            if a.vs == [] then s' == s else Carries(s', a.vs, a.bulk, s.claims.vals) && !Undoes(s'.ppc)
    ensures !Refused(s, a)
  {
    hide Need, CeilBlk, Start;
  }

  /** One step of the producer while nothing was refused: the operation goes on with what it carries, or
      publishes all of it, or is refused something. */
  lemma ForwardCarries(s: State, a: Act, vs: seq<Elem>, bulk: bool, vals: seq<Elem>)
    requires Shape(s) && a.Produce? && Carries(s, vs, bulk, vals) && !Undoes(s.ppc)
    ensures var s' := ProducerStep(s, a);
            && (s'.ppc != Idle ==> Carries(s', vs, bulk, vals) && (Undoes(s'.ppc) <==> Refused(s, a)))
            && (s'.ppc == Idle ==> s'.claims.vals == if Refused(s, a) then vals else vals + vs)
  {
    hide X.Full, SetNext, SetCell, NextOf, EntryAt, SetEntryKey, SetEntryValue, Slot, Widened, Start, CeilBlk, Off, Lookup, D.Step, D.Shape, Back, Succ, IsFree;
  }

  /** One step of the producer while it undoes: nothing is published. */
  lemma BackCarries(s: State, a: Act, vs: seq<Elem>, bulk: bool, vals: seq<Elem>)
    requires Shape(s) && a.Produce? && Carries(s, vs, bulk, vals) && Undoes(s.ppc)
    ensures var s' := ProducerStep(s, a);
            && (s'.ppc != Idle ==> Carries(s', vs, bulk, vals) && Undoes(s'.ppc))
            && s'.claims.vals == vals && !Refused(s, a)
  {
    hide NextOf, EntryAt, SetEntryValue, SetLife, SetFree, Slot, Start, CeilBlk, Off, Blk, Lookup, D.Shape, Back, Cut;
  }

  lemma ConsumersCarry(s: State, t: nat, want: D.Want, seen: nat)
    requires Shape(s) && t < |s.locs|
    ensures var s' := ConsumerStep(s, t, want, seen); s'.ppc == s.ppc && s'.claims.vals == s.claims.vals
  {
    hide D.Step, D.Shape, C.Paint, SetCell, AddDone, SetLife, SetFree, SetEntryValue, Lookup, Slot, EntryAt, Cell, Done, Blk, Off;
  }

  lemma {:induction false} InTheEnqueue(states: seq<State>, acts: seq<Act>, i: nat, j: nat, k: nat)
    requires WholeEnqueue(states, acts, i, j) && i < k <= j
    ensures states[k].ppc != Idle ==>
      Carries(states[k], acts[i].vs, acts[i].bulk, states[i].claims.vals) && (Undoes(states[k].ppc) <==> WasRefused(states, acts, i, k))
    ensures k == j ==>
      states[j].claims.vals == if WasRefused(states, acts, i, j) then states[i].claims.vals else states[i].claims.vals + acts[i].vs
    decreases k - i
  {
    hide Step, Shape, Init, Carries, Refused, Undoes;
    var s, a := states[k - 1], acts[k - 1];
    assert Next(s, a, states[k]);
    StepIs(s, a);
    RefusedMore(states, acts, i, k);
    if k == i + 1 {
      StartCarries(s, a);
      CarriesIsBusy(states[k], acts[i].vs, acts[i].bulk, states[i].claims.vals);
      assert states[i].claims.vals + [] == states[i].claims.vals;
    } else {
      InTheEnqueue(states, acts, i, j, k - 1);
      if !a.Produce? {
        ConsumersCarry(s, a.t, a.want, a.seen);
        StillCarries(s, states[k], acts[i].vs, acts[i].bulk, states[i].claims.vals);
        OnlyProducerRefused(s, a);
      } else if Undoes(s.ppc) {
        BackCarries(s, a, acts[i].vs, acts[i].bulk, states[i].claims.vals);
      } else {
        ForwardCarries(s, a, acts[i].vs, acts[i].bulk, states[i].claims.vals);
      }
    }
  }

  lemma RefusedMore(states: seq<State>, acts: seq<Act>, i: nat, k: nat)
    requires i < k <= |acts| < |states|
    ensures WasRefused(states, acts, i, k) <==> WasRefused(states, acts, i, k - 1) || Refused(states[k - 1], acts[k - 1])
  {
    hide Refused;
    if Refused(states[k - 1], acts[k - 1]) { assert WasRefused(states, acts, i, k); }
  }

  lemma OnlyProducerRefused(s: State, a: Act)
    requires !a.Produce?
    ensures !Refused(s, a)
  {
  }

  lemma StepIs(s: State, a: Act)
    requires Shape(s) && (a.Consume? ==> a.t < |s.locs|)
    ensures Step(s, a) == if a.Produce? then ProducerStep(s, a) else ConsumerStep(s, a.t, a.want, a.seen)
  {
    hide ProducerStep, ConsumerStep, Shape;
  }

  lemma CarriesIsBusy(s: State, vs: seq<Elem>, bulk: bool, vals: seq<Elem>)
    ensures Carries(s, vs, bulk, vals) ==> s.ppc != Idle
  {
  }

  lemma StillCarries(s: State, s': State, vs: seq<Elem>, bulk: bool, vals: seq<Elem>)
    requires s'.ppc == s.ppc && s'.claims.vals == s.claims.vals && (s.ppc != Idle ==> Carries(s, vs, bulk, vals))
    ensures s'.ppc != Idle ==> Carries(s', vs, bulk, vals)
  {
  }

  /** In every run a call that is over, single or bulk, has appended exactly the elements it was given, in
      their order, unless one of its steps was refused leeway, a block index or memory; then nothing was
      appended. */
  lemma EnqueueAppends(states: seq<State>, acts: seq<Act>, i: nat, j: nat)
    requires WholeEnqueue(states, acts, i, j)
    ensures states[j].claims.vals == if WasRefused(states, acts, i, j) then states[i].claims.vals else states[i].claims.vals + acts[i].vs
  {
    InTheEnqueue(states, acts, i, j, j);
  }

  // ----- how long it takes -----

  /** Steps to go for an operation that needs `need` more blocks of `all` and has `n` elements. */
  function Rest(need: nat, all: int, n: nat): nat { 7 * need + n + 5 + if all > 0 then 3 * all else 0 }

  function Minus(a: int, b: int): nat { if b <= a then a - b else 0 }

  /** The most steps of its own that the producer can need until its call is over. */
  function Work(s: State): nat {
    var n0, size := CeilBlk(s.q.tail), |s.blocks|;
    match s.ppc
    case Idle => 0
    case Room(op) => Rest(op.need, size - n0 + op.need, |op.vs|)
    case Insert(op) => Minus(Rest(op.need, size - n0 + op.need, |op.vs|), 1)
    case Grow(op) => Minus(Rest(op.need, size - n0 + op.need, |op.vs|), 2)
    case SetKey(op, _) => Minus(Rest(op.need, size - n0 + op.need, |op.vs|), 3)
    case SetTail(op, _) => Minus(Rest(op.need, size - n0 + op.need, |op.vs|), 4)
    case Requisition(op, _) => Minus(Rest(op.need, size - n0 + op.need, |op.vs|), 5)
    case SetValue(op, _, _) => Minus(Rest(op.need, size - n0 + op.need, |op.vs|), 6)
    case Rewind(_, _) => 3 * Minus(size, n0) + 3
    case Unset(_, _) => 3 * Minus(size, n0) + 2
    case RollValue(_, _, base) => 2 * Minus(size, Blk(base)) + Minus(size, n0) + 1
    case RollTail(_, _, base) => 2 * Minus(size, Blk(base)) + Minus(size, n0)
    case FreeChain(_, _, n) => Minus(size, n)
    case Write(op, j, _) => Minus(|op.vs|, j) + 1
    case Finish(op) => 1
  }

  /** The allocator gives a block that is in the pool or was never seen before. */
  predicate GrantOk(s: State, a: Act) {
    && a.Produce?
    && (s.ppc.Requisition? && !a.fails ==>
          a.granted <= |s.heap| && (a.granted < |s.heap| ==> IsFree(s.heap, a.granted)) && |a.cells| == BLOCK_SIZE)
  }

  predicate Allocates(p: ProducerPC) {
    p.Room? || p.Insert? || p.Grow? || p.SetKey? || p.SetTail? || p.Requisition? || p.SetValue?
  }

  /** What the invariant says about where the producer is. */
  predicate Placed(s: State) {
    var n0, size := CeilBlk(s.q.tail), |s.blocks|;
    && n0 <= size
    && (Allocates(s.ppc) || s.ppc.Rewind? || s.ppc.Unset? ==> s.ppc.op.need > 0 && (s.ppc.op.first.Some? <==> size > n0) && s.ppc.op.vs != [])
    && (s.ppc.RollValue? || s.ppc.RollTail? ==> n0 <= Blk(s.ppc.base) < size && s.ppc.base == Base(s.ppc.base) && s.ppc.op.first.Some?)
    && (s.ppc.FreeChain? ==> n0 <= s.ppc.n < size)
    && (s.ppc.Write? ==> s.tailBlock.Some? && s.ppc.j < |s.ppc.op.vs|)
    && (s.ppc.Insert? || s.ppc.Grow? || s.ppc.SetTail? || s.ppc.Rewind? || s.ppc.RollValue? || s.ppc.RollTail? ==> |s.headers| > 0)
    && (s.ppc == Idle ==> size == n0)
  }

  lemma IsPlaced(s: State)
    requires Inv(s)
    ensures Placed(s) && Shape(s)
  {
    hide LinkOk, CellsOk, IndexOk, LocsOk, WrittenOk, LifeOk, OwnOk, HeapOk, CeilBlk, Blk, Off, Start, BlockOf, AllAre, ChainOk, ChainEnds, Granted, TailAt, D.Shape;
    assert PpcOk(s.ppc, s.q.tail, s.headers, s.entries, s.heap, s.blocks, s.life, s.high, s.tailBlock);
    if s.ppc.Write? || s.ppc.Finish? { CeilMonotone(s.q.tail, s.q.tail + |s.ppc.op.vs|); }
  }

  lemma RoomAdvances(s: State, a: Act)
    requires Shape(s) && Placed(s) && GrantOk(s, a) && (s.ppc.Room? || s.ppc.Insert? || s.ppc.Grow?)
    ensures Work(ProducerStep(s, a)) < Work(s)
  {
    hide X.Full, EntryAt, Slot, Widened, Start, CeilBlk, Off, Blk, D.Shape, Succ;
    JoinIndex(CeilBlk(s.q.tail), 0);
  }

  lemma InsertAdvances(s: State, a: Act)
    requires Shape(s) && Placed(s) && GrantOk(s, a) && (s.ppc.SetKey? || s.ppc.SetTail? || s.ppc.Requisition? || s.ppc.SetValue?)
    ensures Work(ProducerStep(s, a)) < Work(s)
  {
    hide SetNext, SetEntryKey, SetEntryValue, Start, CeilBlk, Off, Blk, D.Shape, Succ, IsFree;
  }

  lemma BackAdvances(s: State, a: Act)
    requires Shape(s) && Placed(s) && a.Produce? && (s.ppc.Rewind? || s.ppc.Unset? || s.ppc.RollValue?)
    ensures Work(ProducerStep(s, a)) < Work(s)
  {
    hide EntryAt, SetEntryValue, SetLife, Slot, Start, CeilBlk, Off, Blk, D.Shape, Lookup, Back;
    JoinIndex(CeilBlk(s.q.tail), 0);
  }

  lemma RollAdvances(s: State, a: Act)
    requires Shape(s) && Placed(s) && a.Produce? && s.ppc.RollTail?
    ensures Work(ProducerStep(s, a)) < Work(s)
  {
    hide Slot, Start, CeilBlk, Off, Blk, D.Shape, Lookup, Back, NextOf;
    NextBase(s.ppc.base);
  }

  lemma NextBase(base: nat)
    requires base == Base(base)
    ensures Blk(base + BLOCK_SIZE) == Blk(base) + 1
  {
  }

  lemma LastAdvances(s: State, a: Act)
    requires Shape(s) && Placed(s) && a.Produce? && (s.ppc.FreeChain? || s.ppc.Finish?)
    ensures Work(ProducerStep(s, a)) < Work(s)
  {
    hide SetLife, SetFree, CeilBlk, Off, Blk, D.Shape, D.Step, NextOf, Cut, C.Publish;
  }

  lemma WriteAdvances(s: State, a: Act)
    requires Shape(s) && Placed(s) && a.Produce? && s.ppc.Write?
    ensures Work(ProducerStep(s, a)) < Work(s)
  {
    hide SetCell, CeilBlk, Off, Blk, D.Shape, NextOf;
  }

  /** No step of the producer is without effect, whatever the allocators answer. */
  lemma OwnStepAdvances(s: State, a: Act)
    requires Inv(s) && s.ppc != Idle && GrantOk(s, a)
    ensures Shape(s) && Work(ProducerStep(s, a)) < Work(s)
  {
    hide Inv, Shape, Work, ProducerStep, Placed, GrantOk;
    IsPlaced(s);
    GrantProduces(s, a);
    if s.ppc.Room? || s.ppc.Insert? || s.ppc.Grow? {
      RoomAdvances(s, a);
    } else if Allocates(s.ppc) {
      InsertAdvances(s, a);
    } else if s.ppc.Write? {
      WriteAdvances(s, a);
    } else if s.ppc.RollTail? {
      RollAdvances(s, a);
    } else if s.ppc.FreeChain? || s.ppc.Finish? {
      LastAdvances(s, a);
    } else {
      BackAdvances(s, a);
    }
  }

  lemma GrantProduces(s: State, a: Act)
    requires GrantOk(s, a)
    ensures a.Produce?
  {
  }

  lemma ConsumersKeepWork(s: State, t: nat, want: D.Want, seen: nat)
    requires Shape(s) && t < |s.locs|
    ensures Work(ConsumerStep(s, t, want, seen)) == Work(s)
  {
    SameTail(s.q, t, want, seen);
    hide D.Step, D.Shape, C.Paint, SetCell, AddDone, SetLife, SetFree, SetEntryValue, Lookup, Slot, EntryAt, Cell, Done, Blk, Off, Rest, Minus, CeilBlk;
  }

  lemma SameTail(q: D.State, t: nat, want: D.Want, seen: nat)
    requires D.Shape(q) && t < |q.pcs|
    ensures D.Step(q, D.Consume(t, want, seen)).tail == q.tail
  {
    hide D.Fill, D.SomethingThere, D.Word;
  }

  /** How many of the steps from `i` to `j - 1` are the producer's. */
  function OwnSteps(acts: seq<Act>, i: nat, j: nat): nat
    requires i <= j <= |acts|
    decreases j - i
  {
    if i == j then 0 else OwnSteps(acts, i, j - 1) + if acts[j - 1].Produce? then 1 else 0
  }

  /** Once begun, a call is wait-free: it is over, and what it set aside is undone if it was refused
      something, after at most `Work` steps of the producer, whatever the consumers and allocators do. */
  lemma {:induction false} EnqueueIsWaitFree(states: seq<State>, acts: seq<Act>, i: nat, j: nat)
    requires Run(states, acts) && i <= j <= |acts|
    requires forall k :: i <= k < j ==> states[k].ppc != Idle
    requires forall k :: i <= k < j && acts[k].Produce? ==> GrantOk(states[k], acts[k])
    ensures OwnSteps(acts, i, j) + Work(states[j]) <= Work(states[i])
    decreases j - i
  {
    hide Inv, Init, Step, Shape, Work, GrantOk;
    if i < j {
      var k, a := j - 1, acts[j - 1];
      EnqueueIsWaitFree(states, acts, i, k);
      RunKeepsInv(states, acts, k);
      assert Next(states[k], a, states[j]);
      StepIs(states[k], a);
      if a.Produce? {
        OwnStepAdvances(states[k], a);
      } else {
        ConsumersKeepWork(states[k], a.t, a.want, a.seen);
      }
    }
  }

  /** The bound in terms of the call: ten steps for each block it needs and one for each element. */
  lemma StartWork(s: State, a: Act)
    requires Inv(s) && s.ppc == Idle && IsCall(a) && a.vs != []
    ensures Shape(s) && Work(ProducerStep(s, a)) <= 10 * Need(s.q.tail, |a.vs|) + |a.vs| + 5
  {
    IsPlaced(s);
    hide Inv, Shape, Need, CeilBlk, Start;
  }

  // ----- what a refused call leaves -----

  /** The numbered blocks and their entries are those of `s0` and those the operation added. */
  predicate Grew(s0: State, s: State) {
    && s.q.tail == s0.q.tail && |s.home| == |s.blocks|
    && |s0.home| == |s0.blocks| == CeilBlk(s0.q.tail) <= |s.blocks|
    && s.blocks[..|s0.blocks|] == s0.blocks && s.home[..|s0.home|] == s0.home
    && (s.ppc != Idle ==> s.ppc.op.start == s0.tailBlock)
  }

  /** Nothing is left of the operation. */
  predicate AsBefore(s0: State, s: State) { s.blocks == s0.blocks && s.home == s0.home && s.tailBlock == s0.tailBlock }

  lemma HomeIsBlocks(s: State)
    requires Inv(s)
    ensures |s.home| == |s.blocks|
    ensures s.ppc == Idle ==> |s.blocks| == CeilBlk(s.q.tail)
    ensures Allocates(s.ppc) || s.ppc.Unset? ==>
      s.ppc.op.first.None? || !s.ppc.op.bulk ==> |s.blocks| == CeilBlk(s.q.tail) && s.tailBlock == s.ppc.op.start
  {
    hide LinkOk, CellsOk, LocsOk, WrittenOk, LifeOk, OwnOk, HeapOk, CeilBlk, Blk, Off, Start, BlockOf, AllAre, ChainOk, ChainEnds, Granted, TailAt, D.Shape,
      WindowOk, Doubling;
    assert PpcOk(s.ppc, s.q.tail, s.headers, s.entries, s.heap, s.blocks, s.life, s.high, s.tailBlock);
  }

  lemma StartGrows(s: State, a: Act)
    requires Inv(s) && IsCall(a) && s.ppc == Idle
    ensures Shape(s) && Grew(s, ProducerStep(s, a))
  {
    IsPlaced(s);
    HomeIsBlocks(s);
    hide Inv, Shape, Need, CeilBlk, Start;
    assert s.blocks[..|s.blocks|] == s.blocks && s.home[..|s.home|] == s.home;
  }

  lemma ForwardGrows(s0: State, s: State, a: Act)
    requires Shape(s) && a.Produce? && Grew(s0, s) && !Undoes(s.ppc) && s.ppc != Idle && ProducerStep(s, a).ppc != Idle
    ensures Grew(s0, ProducerStep(s, a))
  {
    hide X.Full, SetNext, SetCell, NextOf, EntryAt, SetEntryKey, SetEntryValue, Slot, Widened, Start, CeilBlk, Off, Lookup, D.Step, D.Shape, Back, Succ,
      IsFree, C.Publish;
  }

  lemma RefusedEnds(s0: State, s: State, a: Act)
    requires Shape(s) && a.Produce? && Grew(s0, s) && Refused(s, a) && ProducerStep(s, a).ppc == Idle
    requires s.ppc.op.first.None? || !s.ppc.op.bulk ==> |s.blocks| == CeilBlk(s.q.tail) && s.tailBlock == s.ppc.op.start
    ensures AsBefore(s0, ProducerStep(s, a))
  {
    hide X.Full, SetNext, NextOf, EntryAt, Slot, Widened, Start, CeilBlk, Off, D.Shape, IsFree;
  }

  lemma BackGrows(s0: State, s: State, a: Act)
    requires Shape(s) && Placed(s) && a.Produce? && Grew(s0, s) && Undoes(s.ppc)
    requires s.ppc.Unset? && (s.ppc.op.first.None? || !s.ppc.op.bulk) ==> |s.blocks| == CeilBlk(s.q.tail) && s.tailBlock == s.ppc.op.start
    ensures var s' := ProducerStep(s, a); if s'.ppc == Idle then AsBefore(s0, s') else Grew(s0, s')
  {
    hide NextOf, EntryAt, SetEntryValue, SetLife, SetFree, Slot, Start, CeilBlk, Off, Blk, Lookup, D.Shape, Back;
  }

  lemma ConsumersLeave(s: State, t: nat, want: D.Want, seen: nat)
    requires Shape(s) && t < |s.locs|
    ensures var s' := ConsumerStep(s, t, want, seen);
            s'.ppc == s.ppc && s'.blocks == s.blocks && s'.home == s.home && s'.tailBlock == s.tailBlock && s'.q.tail == s.q.tail
  {
    SameTail(s.q, t, want, seen);
    hide D.Step, D.Shape, C.Paint, SetCell, AddDone, SetLife, SetFree, SetEntryValue, Lookup, Slot, EntryAt, Cell, Done, Blk, Off;
  }

  lemma {:induction false} GrowsInCall(states: seq<State>, acts: seq<Act>, i: nat, j: nat, k: nat)
    requires WholeEnqueue(states, acts, i, j) && i < k <= j
    ensures states[k].ppc != Idle ==> Grew(states[i], states[k])
    ensures k == j && WasRefused(states, acts, i, j) ==> AsBefore(states[i], states[j])
    decreases k - i
  {
    hide Step, Shape, Init, Inv, Refused, Undoes, Grew, AsBefore, Placed, WasRefused, Carries;
    var s, a := states[k - 1], acts[k - 1];
    assert Next(s, a, states[k]);
    StepIs(s, a);
    RunKeepsInv(states, acts, k - 1);
    RefusedMore(states, acts, i, k);
    if k == i + 1 {
      StartGrows(s, a);
      StartCarries(s, a);
      NoneYet(states, acts, i);
    } else {
      GrowsInCall(states, acts, i, j, k - 1);
      InTheEnqueue(states, acts, i, j, k - 1);
      IsPlaced(s);
      HomeIsBlocks(s);
      if !a.Produce? {
        ConsumersLeave(s, a.t, a.want, a.seen);
        StillGrew(states[i], s, states[k]);
        OnlyProducerRefused(s, a);
      } else if Undoes(s.ppc) {
        UnsetIs(s.ppc);
        BackGrows(states[i], s, a);
      } else if states[k].ppc != Idle {
        ForwardGrows(states[i], s, a);
      } else if Refused(s, a) {
        RefusedAllocates(s, a);
        RefusedEnds(states[i], s, a);
      }
    }
  }

  lemma NoneYet(states: seq<State>, acts: seq<Act>, i: nat)
    requires i < |acts| < |states|
    ensures !WasRefused(states, acts, i, i)
  {
  }

  lemma StillGrew(s0: State, s: State, s': State)
    requires s'.ppc == s.ppc && s'.blocks == s.blocks && s'.home == s.home && s'.q.tail == s.q.tail && (s.ppc != Idle ==> Grew(s0, s))
    ensures s'.ppc != Idle ==> Grew(s0, s')
  {
  }

  lemma UnsetIs(p: ProducerPC)
    ensures p.Unset? ==> !Allocates(p)
  {
  }

  lemma RefusedAllocates(s: State, a: Act)
    requires Refused(s, a)
    ensures Allocates(s.ppc)
  {
  }

  /** In every run a call that was refused something leaves the numbered blocks, their entries in the index and
      the tail block as they were. */
  lemma RefusedChangesNothing(states: seq<State>, acts: seq<Act>, i: nat, j: nat)
    requires WholeEnqueue(states, acts, i, j) && WasRefused(states, acts, i, j)
    ensures AsBefore(states[i], states[j]) && states[j].claims.vals == states[i].claims.vals
  {
    GrowsInCall(states, acts, i, j, j);
    EnqueueAppends(states, acts, i, j);
  }

  // ----- a call that runs alone -----

  /** The producer's next step when the allocators grant (or, with `fails`, refuse) what it asks for. */
  function Alone(s: State, vs: seq<Elem>, bulk: bool, fails: bool, cells: seq<Option<Elem>>): Act {
    Produce(vs, bulk, fails, |s.heap|, cells)
  }

  ghost function After(s: State, vs: seq<Elem>, bulk: bool, fails: bool, cells: seq<Option<Elem>>, n: nat): (s': State)
    requires Inv(s)
    ensures Inv(s') && Shape(s')
  {
    IsPlaced(s);
    if n == 0 then s
    else
      var before := After(s, vs, bulk, fails, cells, n - 1);
      ProducerKeepsInv(before, Alone(before, vs, bulk, fails, cells));
      IsPlaced(ProducerStep(before, Alone(before, vs, bulk, fails, cells)));
      ProducerStep(before, Alone(before, vs, bulk, fails, cells))
  }

  lemma NextStep(s: State, vs: seq<Elem>, bulk: bool, fails: bool, cells: seq<Option<Elem>>, n: nat)
    requires Inv(s)
    ensures After(s, vs, bulk, fails, cells, 0) == s
    ensures var before := After(s, vs, bulk, fails, cells, n);
            Inv(before) && Shape(before)
            && After(s, vs, bulk, fails, cells, n + 1) == ProducerStep(before, Alone(before, vs, bulk, fails, cells))
  {
    hide Inv, Shape, ProducerStep;
  }

  /** There is leeway for `n` more elements, rounded up to whole blocks, below the limit. */
  predicate Leeway(s: State, n: nat) {
    && s.q.tail - s.q.head + n + BLOCK_SIZE < D.HALF
    && (s.limit.Some? ==> 0 < s.limit.value && s.q.tail - s.q.head + n + BLOCK_SIZE <= s.limit.value + 1)
  }

  lemma BaseInside(s: State)
    requires Inv(s) && s.ppc.Room?
    ensures s.q.head <= s.ppc.op.base <= s.q.tail + |s.ppc.op.vs| - 1
  {
    hide LinkOk, CellsOk, IndexOk, LocsOk, WrittenOk, LifeOk, OwnOk, HeapOk, Blk, Off, BlockOf, AllAre, ChainOk, ChainEnds, TailAt;
    var op, r, tail := s.ppc.op, |s.blocks|, s.q.tail;
    assert op.base == Start(r) && r < CeilBlk(tail + |op.vs|) && CeilBlk(tail) <= r;
    HeadFacts(s);
    EC.StartBelow(r, tail + |op.vs|);
    EC.CeilCovers(tail);
    if CeilBlk(tail) < r { StartMonotone(CeilBlk(tail), r); }
  }

  lemma HeadFacts(s: State)
    requires Inv(s)
    ensures s.q.head <= s.q.tail
  {
    assert D.Inv(s.q);
    hide Inv;
    D.HeadNeverPassesTail(s.q);
  }

  /** With leeway, a block index and memory no step is refused. */
  lemma NothingRefused(s: State, a: Act)
    requires Inv(s) && s.ppc != Idle && s.headers != [] && Leeway(s, |s.ppc.op.vs|) && (a.Produce? ==> !a.fails)
    ensures !Refused(s, a)
  {
    if s.ppc.Room? {
      BaseInside(s);
      hide Inv, X.Full;
      EC.FullMeans(s.q.head, s.ppc.op.base, s.limit);
    }
  }

  lemma SameCounters(s: State, a: Act)
    requires Shape(s) && a.Produce?
    ensures var s' := ProducerStep(s, a);
            && (s'.ppc != Idle ==> s'.q == s.q && s'.limit == s.limit)
            && (s.headers != [] ==> s'.headers != [])
  {
    hide X.Full, SetNext, SetCell, NextOf, EntryAt, SetEntryKey, SetEntryValue, Slot, Widened, Start, CeilBlk, Off, Lookup, D.Shape, Back, Succ, IsFree,
      SetLife, SetFree, Cut, Blk, Need, D.Step, C.Publish;
  }

  /** In the middle of a call that runs alone and was refused nothing so far, begun in state `s`. */
  ghost predicate Going(s: State, vs: seq<Elem>, bulk: bool, s': State) {
    && Inv(s') && Carries(s', vs, bulk, s.claims.vals) && !Undoes(s'.ppc)
    && s'.q == s.q && s'.limit == s.limit && (s.headers != [] ==> s'.headers != [])
  }

  lemma GoingParts(s: State, vs: seq<Elem>, bulk: bool, s': State)
    requires Going(s, vs, bulk, s')
    ensures Inv(s') && Shape(s') && Placed(s') && Carries(s', vs, bulk, s.claims.vals) && !Undoes(s'.ppc) && s'.ppc != Idle
    ensures s'.q == s.q && s'.limit == s.limit && s'.ppc.op.vs == vs && s'.ppc.op.bulk == bulk && (s.headers != [] ==> s'.headers != [])
  {
    hide Inv, Shape, Placed;
    IsPlaced(s');
  }

  lemma StartGoes(s: State, a: Act)
    requires Inv(s) && s.ppc == Idle && IsCall(a) && a.vs != []
    ensures Shape(s) && Going(s, a.vs, a.bulk, ProducerStep(s, a))
  {
    hide Inv, ProducerStep, Shape, Carries, Placed;
    IsPlaced(s);
    ProducerKeepsInv(s, a);
    StartCarries(s, a);
    SameCounters(s, a);
    CarriesIsBusy(ProducerStep(s, a), a.vs, a.bulk, s.claims.vals);
  }

  lemma StepGoes(s: State, vs: seq<Elem>, bulk: bool, s': State, a: Act)
    requires Going(s, vs, bulk, s') && a.Produce? && !Refused(s', a) && GrantOk(s', a)
    ensures Shape(s') && s'.ppc != Idle
    ensures var s'' := ProducerStep(s', a);
            && Work(s'') < Work(s')
            && if s''.ppc == Idle then s''.claims.vals == s.claims.vals + vs else Going(s, vs, bulk, s'')
  {
    GoingParts(s, vs, bulk, s');
    hide Inv, ProducerStep, Shape, Carries, Work, Refused, GrantOk, Placed, Undoes;
    ProducerKeepsInv(s', a);
    ForwardCarries(s', a, vs, bulk, s.claims.vals);
    SameCounters(s', a);
    OwnStepAdvances(s', a);
  }

  lemma FreshIsGranted(s: State, vs: seq<Elem>, bulk: bool, fails: bool, cells: seq<Option<Elem>>)
    requires |cells| == BLOCK_SIZE
    ensures GrantOk(s, Alone(s, vs, bulk, fails, cells))
  {
  }

  lemma GoingFits(s: State, vs: seq<Elem>, bulk: bool, s': State, a: Act)
    requires Going(s, vs, bulk, s') && s.headers != [] && Leeway(s, |vs|) && (a.Produce? ==> !a.fails)
    ensures !Refused(s', a)
  {
    GoingParts(s, vs, bulk, s');
    hide Inv, Refused, Shape, Placed;
    NothingRefused(s', a);
  }

  /** An enqueue, single or bulk, that runs alone with leeway, a block index and memory is over within its
      bound and has appended exactly the elements it was given. */
  lemma LoneEnqueue(s: State, vs: seq<Elem>, bulk: bool, cells: seq<Option<Elem>>) returns (n: nat)
    requires Inv(s) && s.ppc == Idle && vs != [] && (bulk || |vs| == 1) && |cells| == BLOCK_SIZE && s.headers != [] && Leeway(s, |vs|)
    ensures 0 < n <= 10 * Need(s.q.tail, |vs|) + |vs| + 6
    ensures forall k: nat :: 0 < k < n ==> After(s, vs, bulk, false, cells, k).ppc != Idle
    ensures var s' := After(s, vs, bulk, false, cells, n);
            s'.ppc == Idle && s'.claims.vals == s.claims.vals + vs
  {
    hide Inv, Shape, After, ProducerStep, Leeway, Work, Going, GrantOk, Refused, Placed;
    var a := Alone(s, vs, bulk, false, cells);
    NextStep(s, vs, bulk, false, cells, 0);
    StartGoes(s, a);
    StartWork(s, a);
    n := 1;
    ghost var bound := 10 * Need(s.q.tail, |vs|) + |vs| + 5;
    GoingParts(s, vs, bulk, After(s, vs, bulk, false, cells, 1));
    while true
      invariant 0 < n && n - 1 + Work(After(s, vs, bulk, false, cells, n)) <= bound
      invariant Going(s, vs, bulk, After(s, vs, bulk, false, cells, n))
      invariant forall k: nat :: 0 < k <= n ==> After(s, vs, bulk, false, cells, k).ppc != Idle
      decreases Work(After(s, vs, bulk, false, cells, n))
    {
      var s' := After(s, vs, bulk, false, cells, n);
      var a' := Alone(s', vs, bulk, false, cells);
      NextStep(s, vs, bulk, false, cells, n);
      GoingFits(s, vs, bulk, s', a');
      FreshIsGranted(s', vs, bulk, false, cells);
      StepGoes(s, vs, bulk, s', a');
      n := n + 1;
      if After(s, vs, bulk, false, cells, n).ppc == Idle { return; }
    }
  }

  // ----- the single form, whatever memory there is -----

  /** A new block is needed, and there is no leeway, no block index or no memory for it. */
  predicate Blocked(s: State, fails: bool) {
    Off(s.q.tail) == 0 && (X.Full(s.q.head, s.q.tail, s.limit) || s.headers == [] || fails)
  }

  /** Where the single form can be in a call that runs alone. */
  predicate OnPath(s: State, fails: bool, s': State) {
    && (s'.headers == [] <==> s.headers == [])
    && (s'.ppc.Room? ==> Off(s.q.tail) == 0 && s'.ppc.op.base == s.q.tail)
    && (Allocates(s'.ppc) ==> s'.ppc.op.need == 1 && s'.ppc.op.first.None?)
    && (Allocates(s'.ppc) && !s'.ppc.Room? ==> Off(s.q.tail) == 0 && !X.Full(s.q.head, s.q.tail, s.limit) && s.headers != [])
    && (s'.ppc.SetValue? || s'.ppc.Write? || s'.ppc.Finish? ==> !Blocked(s, fails))
    && (Undoes(s'.ppc) ==> Blocked(s, fails) && (s'.ppc.Rewind? || s'.ppc.Unset?) && s'.ppc.op.first.None?)
  }

  lemma PathStarts(s: State, a: Act)
    requires Shape(s) && s.ppc == Idle && a.Produce? && !a.bulk && |a.vs| == 1
    ensures OnPath(s, a.fails, ProducerStep(s, a))
  {
    hide X.Full, Shape;
    var tail := s.q.tail;
    CeilFacts(tail);
    SplitIndex(tail);
    if Need(tail, 1) == 0 { NoNeed(tail, 1); }
  }

  lemma PathAllocates(s: State, s': State, a: Act)
    requires Shape(s') && a.Produce? && OnPath(s, a.fails, s') && Allocates(s'.ppc) && !s'.ppc.op.bulk
    requires s'.q == s.q && s'.limit == s.limit
    ensures var s'' := ProducerStep(s', a);
            && (s''.ppc != Idle ==> OnPath(s, a.fails, s''))
            && (Refused(s', a) || Undoes(s'.ppc) ==> Blocked(s, a.fails))
            && (!Refused(s', a) && !Undoes(s'.ppc) && s''.ppc == Idle ==> !Blocked(s, a.fails))
  {
    hide X.Full, SetNext, NextOf, EntryAt, SetEntryKey, SetEntryValue, Slot, Widened, Start, CeilBlk, Off, D.Shape, Succ, IsFree;
  }

  lemma PathEnds(s: State, s': State, a: Act)
    requires Shape(s') && a.Produce? && OnPath(s, a.fails, s') && s'.ppc != Idle && !Allocates(s'.ppc) && !s'.ppc.op.bulk
    requires s'.q == s.q && s'.limit == s.limit
    ensures var s'' := ProducerStep(s', a);
            && (s''.ppc != Idle ==> OnPath(s, a.fails, s''))
            && (Refused(s', a) || Undoes(s'.ppc) ==> Blocked(s, a.fails))
            && (!Refused(s', a) && !Undoes(s'.ppc) && s''.ppc == Idle ==> !Blocked(s, a.fails))
  {
    hide X.Full, SetCell, NextOf, EntryAt, SetEntryValue, Slot, Start, CeilBlk, Off, Lookup, D.Shape, Back, D.Step, C.Publish;
  }

  lemma PathGoesOn(s: State, s': State, a: Act)
    requires Shape(s') && a.Produce? && OnPath(s, a.fails, s') && s'.ppc != Idle && !s'.ppc.op.bulk
    requires s'.q == s.q && s'.limit == s.limit
    ensures var s'' := ProducerStep(s', a);
            && (s''.ppc != Idle ==> OnPath(s, a.fails, s''))
            && (Refused(s', a) || Undoes(s'.ppc) ==> Blocked(s, a.fails))
            && (!Refused(s', a) && !Undoes(s'.ppc) && s''.ppc == Idle ==> !Blocked(s, a.fails))
  {
    hide Shape, OnPath, ProducerStep, Refused, Undoes, Blocked;
    if Allocates(s'.ppc) {
      PathAllocates(s, s', a);
    } else {
      PathEnds(s, s', a);
    }
  }

  /** In the middle of a single enqueue that runs alone. */
  ghost predicate Underway(s: State, v: Elem, fails: bool, s': State) {
    && Inv(s') && Carries(s', [v], false, s.claims.vals) && OnPath(s, fails, s')
    && s'.q == s.q && s'.limit == s.limit
  }

  lemma UnderwayGoesOn(s: State, v: Elem, s': State, a: Act)
    requires a.Produce? && Underway(s, v, a.fails, s') && GrantOk(s', a)
    ensures Shape(s') && s'.ppc != Idle
    ensures var s'' := ProducerStep(s', a);
            && Work(s'') < Work(s')
            && if s''.ppc == Idle then s''.claims.vals == (if Blocked(s, a.fails) then s.claims.vals else s.claims.vals + [v])
               else Underway(s, v, a.fails, s'')
  {
    assert s'.ppc != Idle && !s'.ppc.op.bulk;
    hide Inv, ProducerStep, Shape, Carries, Work, Refused, GrantOk, Placed, Undoes, OnPath, Blocked;
    IsPlaced(s');
    ProducerKeepsInv(s', a);
    PathGoesOn(s, s', a);
    SameCounters(s', a);
    OwnStepAdvances(s', a);
    if Undoes(s'.ppc) {
      BackCarries(s', a, [v], false, s.claims.vals);
    } else {
      ForwardCarries(s', a, [v], false, s.claims.vals);
    }
  }

  /** A single enqueue that runs alone, whatever the allocators do, is over after at most seventeen steps.
      It appends its element unless it needs a block and there is no leeway, no block index or no memory;
      then it appends nothing. */
  lemma LoneSingle(s: State, v: Elem, fails: bool, cells: seq<Option<Elem>>) returns (n: nat)
    requires Inv(s) && s.ppc == Idle && |cells| == BLOCK_SIZE
    ensures 0 < n <= 17
    ensures forall k: nat :: 0 < k < n ==> After(s, [v], false, fails, cells, k).ppc != Idle
    ensures var s' := After(s, [v], false, fails, cells, n);
            s'.ppc == Idle && s'.claims.vals == if Blocked(s, fails) then s.claims.vals else s.claims.vals + [v]
  {
    hide Inv, Shape, After, ProducerStep, Work, Going, Underway, GrantOk, Refused, OnPath, Blocked, Placed;
    var a := Alone(s, [v], false, fails, cells);
    NextStep(s, [v], false, fails, cells, 0);
    StartGoes(s, a);
    StartWork(s, a);
    PathStarts(s, a);
    EC.NeedOne(s.q.tail);
    n := 1;
    GoingParts(s, [v], false, After(s, [v], false, fails, cells, 1));
    IsUnderway(s, v, fails, After(s, [v], false, fails, cells, 1));
    while true
      invariant 0 < n && n - 1 + Work(After(s, [v], false, fails, cells, n)) <= 16
      invariant Underway(s, v, fails, After(s, [v], false, fails, cells, n))
      invariant forall k: nat :: 0 < k <= n ==> After(s, [v], false, fails, cells, k).ppc != Idle
      decreases Work(After(s, [v], false, fails, cells, n))
    {
      var s' := After(s, [v], false, fails, cells, n);
      var a' := Alone(s', [v], false, fails, cells);
      NextStep(s, [v], false, fails, cells, n);
      FreshIsGranted(s', [v], false, fails, cells);
      UnderwayGoesOn(s, v, s', a');
      n := n + 1;
      if After(s, [v], false, fails, cells, n).ppc == Idle { return; }
    }
  }

  lemma IsUnderway(s: State, v: Elem, fails: bool, s': State)
    requires Inv(s') && Carries(s', [v], false, s.claims.vals) && OnPath(s, fails, s') && s'.q == s.q && s'.limit == s.limit
    ensures Underway(s, v, fails, s')
  {
    hide Inv, OnPath;
  }

  // ----- what the consumers see of it -----

  lemma ConsumersStay(s: State, a: Act)
    requires Shape(s) && a.Produce?
    ensures var s' := ProducerStep(s, a); s'.locs == s.locs && s'.q.pcs == s.q.pcs && s'.q.head == s.q.head
  {
    hide X.Full, SetNext, SetCell, NextOf, EntryAt, SetEntryKey, SetEntryValue, Slot, Widened, Start, CeilBlk, Off, Lookup, D.Shape, Back, Succ,
      IsFree, SetLife, SetFree, Cut, Blk, Need;
  }

  lemma {:induction false} ConsumersWait(s: State, vs: seq<Elem>, bulk: bool, fails: bool, cells: seq<Option<Elem>>, n: nat)
    requires Inv(s)
    ensures var s' := After(s, vs, bulk, fails, cells, n); s'.locs == s.locs && s'.q.pcs == s.q.pcs && s'.q.head == s.q.head
  {
    hide Inv, Shape, ProducerStep, After;
    if n == 0 {
      NextStep(s, vs, bulk, fails, cells, 0);
    } else {
      ConsumersWait(s, vs, bulk, fails, cells, n - 1);
      NextStep(s, vs, bulk, fails, cells, n - 1);
      var before := After(s, vs, bulk, fails, cells, n - 1);
      ConsumersStay(before, Alone(before, vs, bulk, fails, cells));
    }
  }
}
