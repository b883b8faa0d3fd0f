/** What an enqueue of the explicit producer comes to: the elements it was called with are appended, or
    the single form gave up and nothing was; and how many steps that takes. */
module ExplicitCalls {
  import opened Wrappers
  import opened Blocks
  import opened ExplicitProducer
  import opened ExplicitInvariant
  import opened ExplicitEnqueue
  import C = Claims
  import D = DequeueCounters

  function Elements(call: Call): seq<Elem> {
    match call
    case EnqueueOne(v) => [v]
    case EnqueueBulk(vs) => vs
  }

  /** The step finds no leeway for another block, or is not given the memory it asks for. */
  predicate Refused(s: State, a: Act) {
    && a.Produce?
    && ((s.ppc.Room? && Full(s.q.head, s.ppc.op.base, s.limit)) || ((s.ppc.Grow? || s.ppc.Link?) && a.fails))
  }

  // ----- over runs -----

  /** From state `i` on the producer makes one call, which is over in state `j`. */
  ghost predicate WholeEnqueue(states: seq<State>, acts: seq<Act>, i: nat, j: nat) {
    && Run(states, acts) && i < j <= |acts| && acts[i].Produce?
    && states[i].ppc == Idle == states[j].ppc
    && (forall k :: i < k < j ==> states[k].ppc != Idle)
  }

  /** The operation under way carries the elements of the call. */
  predicate Carries(s: State, call: Call, vals: seq<Elem>) {
    && s.ppc != Idle && s.claims.vals == vals
    && s.ppc.op.vs == Elements(call) && s.ppc.op.bulk == call.EnqueueBulk?
  }

  lemma StartCarries(s: State, a: Act)
    requires Shape(s) && a.Produce? && s.ppc == Idle
    ensures var s' := ProducerStep(s, a);
            if Elements(a.call) == [] then s' == s else Carries(s', a.call, s.claims.vals)
  {
    hide Need, CeilBlk, Start;
  }

  /** One step of the producer: the operation goes on with what it carries, or publishes all of it, or
      gives up. */
  lemma StepCarries(s: State, a: Act, call: Call, vals: seq<Elem>)
    requires Shape(s) && a.Produce? && Carries(s, call, vals)
    ensures var s' := ProducerStep(s, a);
            if s'.ppc != Idle then Carries(s', call, vals)
            else if Refused(s, a) then call.EnqueueOne? && s'.claims.vals == vals
            else s'.claims.vals == vals + Elements(call)
  {
    hide Full, AllEmpty, FillFlags, SetNext, SetCell, NextOf, EntryAt, Mask, Start, CeilBlk, Off, D.Step, D.Shape;
  }

  lemma ConsumersCarry(s: State, t: nat, want: D.Want, seen: nat)
    requires Shape(s) && t < |s.locs|
    ensures var s' := ConsumerStep(s, t, want, seen); s'.ppc == s.ppc && s'.claims.vals == s.claims.vals
  {
    hide D.Step, D.Shape, C.Paint, SetCell, MarkEmpty, Mask, DivBlocks, Base, EntryAt, Cell;
  }

  lemma {:induction false} InTheEnqueue(states: seq<State>, acts: seq<Act>, i: nat, j: nat, k: nat)
    requires WholeEnqueue(states, acts, i, j) && i < k <= j
    ensures states[k].ppc != Idle ==> Carries(states[k], acts[i].call, states[i].claims.vals)
    ensures k == j ==>
      var given := Elements(acts[i].call);
      states[j].claims.vals == (if Refused(states[j - 1], acts[j - 1]) then states[i].claims.vals else states[i].claims.vals + given)
      && (Refused(states[j - 1], acts[j - 1]) ==> acts[i].call.EnqueueOne?)
    decreases k - i
  {
    hide Step, Shape, Init, Carries, Full;
    var s, a := states[k - 1], acts[k - 1];
    assert Next(s, a, states[k]);
    StepIs(s, a);
    if k == i + 1 {
      StartCarries(s, a);
      CarriesIsBusy(states[k], acts[i].call, states[i].claims.vals);
      assert states[i].claims.vals + [] == states[i].claims.vals;
    } else {
      InTheEnqueue(states, acts, i, j, k - 1);
      if a.Produce? {
        StepCarries(s, a, acts[i].call, states[i].claims.vals);
      } else {
        ConsumersCarry(s, a.t, a.want, a.seen);
        StillCarries(s, states[k], acts[i].call, states[i].claims.vals);
      }
    }
  }

  lemma StepIs(s: State, a: Act)
    requires Shape(s) && (a.Consume? ==> a.t < |s.locs|)
    ensures Step(s, a) == if a.Produce? then ProducerStep(s, a) else ConsumerStep(s, a.t, a.want, a.seen)
  {
    hide ProducerStep, ConsumerStep, Shape;
  }

  lemma CarriesIsBusy(s: State, call: Call, vals: seq<Elem>)
    ensures Carries(s, call, vals) ==> s.ppc != Idle
  {
  }

  lemma StillCarries(s: State, s': State, call: Call, vals: seq<Elem>)
    requires s'.ppc == s.ppc && s'.claims.vals == s.claims.vals && (s.ppc != Idle ==> Carries(s, call, vals))
    ensures s'.ppc != Idle ==> Carries(s', call, vals)
  {
  }

  /** In every run a call that is over has appended exactly the elements it was given, in their order; or
      it was the single form, whose last step was refused leeway or memory, and nothing was appended. */
  lemma EnqueueAppends(states: seq<State>, acts: seq<Act>, i: nat, j: nat)
    requires WholeEnqueue(states, acts, i, j)
    ensures if Refused(states[j - 1], acts[j - 1])
            then acts[i].call.EnqueueOne? && states[j].claims.vals == states[i].claims.vals
            else states[j].claims.vals == states[i].claims.vals + Elements(acts[i].call)
  {
    InTheEnqueue(states, acts, i, j, j);
  }

  // ----- how long it takes -----

  /** Steps to go for an operation that has `need` blocks to set aside, `spare` to reset and `n` elements. */
  function Rest(need: nat, spare: int, n: nat): nat { 6 * need + n + 2 + if spare > 0 then spare else 0 }

  /** The most steps of its own that the producer can need until its call is over. */
  function Work(s: State): nat {
    var spare := s.lo + |s.ring| - s.live;
    match s.ppc
    case Idle => 0
    case Reuse(op) => Rest(op.need, spare + op.need, |op.vs|)
    case Room(op) => if op.need == 0 then 0 else Rest(op.need, spare + op.need, |op.vs|) - 1
    case Grow(op) => if op.need == 0 then 0 else Rest(op.need, spare + op.need, |op.vs|) - 2
    case Link(op) => if op.need == 0 then 0 else Rest(op.need, spare + op.need, |op.vs|) - 3
    case SetBase(op, _) => Rest(op.need, spare + op.need, |op.vs|) + 2
    case SetBlock(op, _) => Rest(op.need, spare + op.need, |op.vs|) + 1
    case ResetAll(op, _) => Rest(0, spare, |op.vs|)
    case Publish(op) => Rest(0, 0, |op.vs|)
    case Write(op, j, _) => if j <= |op.vs| then |op.vs| - j + 1 else 0
    case Finish(op) => 1
  }

  /** The allocator gives a block that is not in use. */
  predicate Granted(s: State, a: Act) {
    a.Produce? && (s.ppc.Link? ==> a.granted <= |s.heap| && a.granted !in s.ring && |a.cells| == BLOCK_SIZE)
  }

  /** What the producer finds where it looks: somewhere to go in every state. */
  lemma Prepared(s: State)
    requires Inv(s)
    ensures s.front < |Last(s).entries|
    ensures s.ppc.Reuse? || s.ppc.Room? || s.ppc.Grow? || s.ppc.Link? ==> s.ppc.op.need > 0
    ensures s.ppc.SetBase? || s.ppc.SetBlock? ==> s.tailBlock.Some? && (s.ppc.op.bulk ==> s.ppc.op.first.Some?)
    ensures s.ppc.ResetAll? ==> s.live < s.lo + |s.ring|
    ensures s.ppc.Write? ==> s.tailBlock.Some? && s.ppc.j < |s.ppc.op.vs|
    ensures s.live <= s.lo + |s.ring|
    ensures s.ppc == Idle ==> s.live == s.lo + |s.ring|
  {
    hide LinkOk, CellsOk, IndexOk, LocsOk, WrittenOk, FlagsOk, GoneOk, HeapOk, RingOk, CeilBlk, Blk, Off, Start;
    var h := Last(s);
    WrapBelow(h.top - h.origin, |h.entries|);
    assert PpcOk(s.ppc, s.q.tail, s.ring, s.lo, s.live, s.tailBlock, h);
  }

  lemma WriteGoesOn(s: State)
    requires Inv(s) && s.ppc.Write?
    ensures var s' := WriteStep(s, s.ppc.op, s.ppc.j, s.ppc.end); s'.ppc.Finish? || (s'.ppc.Write? && s'.ppc.j == s.ppc.j + 1 <= |s.ppc.op.vs|)
  {
    Prepared(s);
    hide Inv, Off, SetCell, NextOf;
  }

  lemma AsideAdvances(s: State, a: Act)
    requires Shape(s) && a.Produce? && (s.ppc.Reuse? || s.ppc.Room? || s.ppc.Grow? || s.ppc.Link?) && s.ppc.op.need > 0
    requires !Refused(s, a) && Granted(s, a)
    ensures Work(ProducerStep(s, a)) < Work(s)
  {
    hide Full, AllEmpty, FillFlags, SetNext, NextOf, EntryAt, Mask, D.Shape;
  }

  lemma EntryAdvances(s: State, a: Act)
    requires Shape(s) && a.Produce? && (s.ppc.SetBase? || s.ppc.SetBlock? || s.ppc.ResetAll? || s.ppc.Publish? || s.ppc.Finish?)
    requires s.front < |Last(s).entries| && s.live <= s.lo + |s.ring|
    requires s.ppc.SetBase? || s.ppc.SetBlock? ==> s.tailBlock.Some? && (s.ppc.op.bulk ==> s.ppc.op.first.Some?)
    requires s.ppc.ResetAll? ==> s.live < s.lo + |s.ring|
    requires s.ppc.Publish? ==> s.ppc.op.vs != []
    ensures Work(ProducerStep(s, a)) < Work(s)
  {
    hide FillFlags, NextOf, EntryAt, Mask, D.Shape, D.Step, C.Publish, Off;
  }

  lemma PublishHasMore(s: State)
    requires Inv(s) && s.ppc.Publish?
    ensures s.ppc.op.vs != []
  {
  }

  /** No step of the producer that is not refused is without effect. */
  lemma OwnStepAdvances(s: State, a: Act)
    requires Inv(s) && s.ppc != Idle && !Refused(s, a) && Granted(s, a)
    ensures Shape(s) && Work(ProducerStep(s, a)) < Work(s)
  {
    Prepared(s);
    assert Shape(s) by { ShapeOf(s); }
    if s.ppc.Publish? { PublishHasMore(s); }
    if s.ppc.Write? { WriteGoesOn(s); }
    hide Inv, Shape, Work, ProducerStep;
    if s.ppc.Reuse? || s.ppc.Room? || s.ppc.Grow? || s.ppc.Link? {
      AsideAdvances(s, a);
    } else if s.ppc.Write? {
      WriteAdvances(s, a);
    } else {
      EntryAdvances(s, a);
    }
  }

  lemma ShapeOf(s: State)
    requires Inv(s)
    ensures Shape(s)
  {
  }

  lemma WriteAdvances(s: State, a: Act)
    requires Shape(s) && a.Produce? && s.ppc.Write? && s.ppc.j < |s.ppc.op.vs|
    requires var s' := WriteStep(s, s.ppc.op, s.ppc.j, s.ppc.end); s'.ppc.Finish? || (s'.ppc.Write? && s'.ppc.j == s.ppc.j + 1)
    ensures Work(ProducerStep(s, a)) < Work(s)
  {
    hide SetCell, NextOf, Off, D.Shape;
  }

  lemma ConsumersKeepWork(s: State, t: nat, want: D.Want, seen: nat)
    requires Shape(s) && t < |s.locs|
    ensures Work(ConsumerStep(s, t, want, seen)) == Work(s)
  {
    hide D.Step, D.Shape, C.Paint, SetCell, MarkEmpty, Mask, DivBlocks, Base, EntryAt, Cell, Rest;
  }

  /** How many of the steps from `i` to `j - 1` are the producer's. */
  function OwnSteps(acts: seq<Act>, i: nat, j: nat): nat
    requires i <= j <= |acts|
    decreases j - i
  {
    if i == j then 0 else OwnSteps(acts, i, j - 1) + if acts[j - 1].Produce? then 1 else 0
  }

  /** Once begun, a call that is refused nothing is wait-free: it is over after at most `Work` steps of
      the producer, whatever the consumers do. */
  lemma {:induction false} EnqueueIsWaitFree(states: seq<State>, acts: seq<Act>, i: nat, j: nat)
    requires Run(states, acts) && i <= j <= |acts|
    requires forall k :: i <= k < j ==> states[k].ppc != Idle
    requires forall k :: i <= k < j && acts[k].Produce? ==> !Refused(states[k], acts[k]) && Granted(states[k], acts[k])
    ensures OwnSteps(acts, i, j) + Work(states[j]) <= Work(states[i])
    decreases j - i
  {
    hide Inv, Init, Step, Shape, Work, Full, Granted, Refused;
    if i < j {
      var k, a := j - 1, acts[j - 1];
      EnqueueIsWaitFree(states, acts, i, k);
      RunKeepsInv(states, acts, k);
      assert Next(states[k], a, states[j]);
      StepIs(states[k], a);
      if a.Produce? {
        OwnStepAdvances(states[k], a);
      } else {
        ConsumersKeepWork(states[k], a.t, a.want, a.seen);
      }
    }
  }

  /** The bound in terms of the call: seven steps for each block it needs and one for each element. */
  lemma StartWork(s: State, call: Call)
    requires Inv(s) && s.ppc == Idle && Elements(call) != []
    ensures Shape(s)
    ensures forall a: Act :: a.Produce? && a.call == call ==>
              Work(ProducerStep(s, a)) <= 7 * Need(s.q.tail, |Elements(call)|) + |Elements(call)| + 2
  {
    ShapeOf(s);
    Prepared(s);
    hide Inv, Shape, Need, CeilBlk, Start;
  }

  // ----- a call that runs alone -----

  /** The producer's next step when the allocators grant (or, with `fails`, refuse) what it asks for. */
  function Alone(s: State, call: Call, fails: bool, cells: seq<Option<Elem>>, junk: Entry): Act {
    Produce(call, fails, |s.heap|, cells, junk)
  }

  ghost function After(s: State, call: Call, fails: bool, cells: seq<Option<Elem>>, junk: Entry, n: nat): (s': State)
    requires Inv(s)
    ensures Inv(s') && Shape(s')
  {
    ShapeOf(s);
    if n == 0 then s
    else
      var before := After(s, call, fails, cells, junk, n - 1);
      ProducerKeepsInv(before, Alone(before, call, fails, cells, junk));
      ShapeOf(ProducerStep(before, Alone(before, call, fails, cells, junk)));
      ProducerStep(before, Alone(before, call, fails, cells, junk))
  }

  /** There is leeway for `n` more elements, rounded up to whole blocks, below the limit. */
  predicate Fits(s: State, n: nat) {
    && s.q.tail - s.q.head + n + BLOCK_SIZE < D.HALF
    && (s.limit.Some? ==> 0 < s.limit.value && s.q.tail - s.q.head + n + BLOCK_SIZE <= s.limit.value + 1)
  }

  /** The test for leeway: the new block would take the sub-queue over half a ring or over the limit. */
  lemma FullMeans(head: nat, base: nat, limit: Option<nat>)
    requires head <= base && base + BLOCK_SIZE - head <= D.HALF
    ensures Full(head, base, limit) <==>
            base + BLOCK_SIZE - head == D.HALF || (limit.Some? && (limit.value == 0 || base + BLOCK_SIZE - head > limit.value))
  {
    D.CircularIsLess(head, base + BLOCK_SIZE);
    hide D.CircularLess, D.Word;
  }

  /** While the producer sets blocks aside, the next one begins before the last of the new elements. */
  lemma BaseInside(s: State)
    requires Inv(s) && s.ppc.Room?
    ensures s.q.head <= s.ppc.op.base <= s.q.tail + |s.ppc.op.vs| - 1
  {
    hide LinkOk, CellsOk, IndexOk, LocsOk, WrittenOk, FlagsOk, GoneOk, HeapOk, RingOk, Blk, Off;
    var op, r, tail := s.ppc.op, s.lo + |s.ring|, s.q.tail;
    assert op.base == Start(r) && r < CeilBlk(tail + |op.vs|) && CeilBlk(tail) <= r;
    HeadFacts(s);
    StartBelow(r, tail + |op.vs|);
    CeilCovers(tail);
    if CeilBlk(tail) < r { StartMonotone(CeilBlk(tail), r); }
  }

  lemma HeadFacts(s: State)
    requires Inv(s)
    ensures s.q.head <= s.q.tail
  {
    D.HeadNeverPassesTail(s.q);
  }

  lemma StartBelow(r: nat, m: nat)
    requires r < CeilBlk(m)
    ensures Start(r) <= m - 1
  {
    SplitIndex(m - 1);
    if r < Blk(m - 1) { StartMonotone(r, Blk(m - 1)); }
  }

  lemma CeilCovers(m: nat)
    ensures m <= Start(CeilBlk(m))
  {
    if m > 0 { BelowCeil(m - 1, m); }
  }

  /** With leeway and memory no step is refused. */
  lemma NothingRefused(s: State, a: Act)
    requires Inv(s) && s.ppc != Idle && Fits(s, |s.ppc.op.vs|) && (a.Produce? ==> !a.fails)
    ensures !Refused(s, a)
  {
    if s.ppc.Room? {
      BaseInside(s);
      hide Inv, Full;
      FullMeans(s.q.head, s.ppc.op.base, s.limit);
    }
  }

  lemma SameCounters(s: State, a: Act)
    requires Shape(s) && a.Produce?
    ensures var s' := ProducerStep(s, a); s'.ppc != Idle ==> s'.q == s.q && s'.limit == s.limit
    ensures ProducerStep(s, a).q.head == s.q.head
  {
    hide Full, AllEmpty, FillFlags, SetNext, SetCell, NextOf, EntryAt, Mask, Start, CeilBlk, Off, D.Shape;
  }

  lemma NextStep(s: State, call: Call, fails: bool, cells: seq<Option<Elem>>, junk: Entry, n: nat)
    requires Inv(s)
    ensures After(s, call, fails, cells, junk, 0) == s
    ensures var before := After(s, call, fails, cells, junk, n);
            Inv(before) && Shape(before)
            && After(s, call, fails, cells, junk, n + 1) == ProducerStep(before, Alone(before, call, fails, cells, junk))
  {
    hide Inv, Shape, ProducerStep;
  }

  lemma FreshIsGranted(s: State, call: Call, fails: bool, cells: seq<Option<Elem>>, junk: Entry)
    requires Inv(s) && |cells| == BLOCK_SIZE
    ensures Granted(s, Alone(s, call, fails, cells, junk))
  {
    hide LinkOk, CellsOk, IndexOk, LocsOk, WrittenOk, FlagsOk, GoneOk, HeapOk, NumsOk, PpcOk;
    assert forall j :: 0 <= j < |s.ring| ==> s.ring[j] < |s.heap|;
  }

  /** In the middle of a call that runs alone, begun in state `s`. */
  ghost predicate Going(s: State, call: Call, s': State) {
    Inv(s') && Carries(s', call, s.claims.vals) && s'.q == s.q && s'.limit == s.limit
  }

  lemma StartGoes(s: State, a: Act)
    requires Inv(s) && s.ppc == Idle && a.Produce? && Elements(a.call) != []
    ensures Shape(s) && Going(s, a.call, ProducerStep(s, a))
  {
    ShapeOf(s);
    hide Inv, ProducerStep, Shape, Carries;
    ProducerKeepsInv(s, a);
    StartCarries(s, a);
    SameCounters(s, a);
    CarriesIsBusy(ProducerStep(s, a), a.call, s.claims.vals);
  }

  lemma StepGoes(s: State, call: Call, s': State, a: Act)
    requires Going(s, call, s') && a.Produce? && !Refused(s', a) && Granted(s', a)
    ensures Shape(s') && s'.ppc != Idle
    ensures var s'' := ProducerStep(s', a);
            && Work(s'') < Work(s')
            && if s''.ppc == Idle then s''.claims.vals == s.claims.vals + Elements(call) else Going(s, call, s'')
  {
    ShapeOf(s');
    hide Inv, ProducerStep, Shape, Carries, Work, Refused, Granted;
    ProducerKeepsInv(s', a);
    StepCarries(s', a, call, s.claims.vals);
    SameCounters(s', a);
    CarriesIsBusy(s', call, s.claims.vals);
    OwnStepAdvances(s', a);
  }

  lemma GoingFits(s: State, call: Call, s': State, a: Act)
    requires Going(s, call, s') && Fits(s, |Elements(call)|) && (a.Produce? ==> !a.fails)
    ensures !Refused(s', a)
  {
    hide Inv, Refused;
    NothingRefused(s', a);
  }

  /** An enqueue, single or bulk, that runs alone with leeway and memory is over within its bound and has
      appended exactly the elements it was given. */
  lemma LoneEnqueue(s: State, call: Call, cells: seq<Option<Elem>>, junk: Entry) returns (n: nat)
    requires Inv(s) && s.ppc == Idle && Elements(call) != [] && |cells| == BLOCK_SIZE && Fits(s, |Elements(call)|)
    ensures 0 < n <= 7 * Need(s.q.tail, |Elements(call)|) + |Elements(call)| + 3
    ensures forall k: nat :: 0 < k < n ==> After(s, call, false, cells, junk, k).ppc != Idle
    ensures var s' := After(s, call, false, cells, junk, n);
            s'.ppc == Idle && s'.claims.vals == s.claims.vals + Elements(call)
  {
    hide Inv, Shape, After, ProducerStep, Fits, Work, Going, Granted, Refused;
    var a := Alone(s, call, false, cells, junk);
    NextStep(s, call, false, cells, junk, 0);
    StartGoes(s, a);
    StartWork(s, call);
    n := 1;
    ghost var bound := 7 * Need(s.q.tail, |Elements(call)|) + |Elements(call)| + 2;
    GoingIsBusy(s, call, After(s, call, false, cells, junk, 1));
    while true
      invariant 0 < n && n - 1 + Work(After(s, call, false, cells, junk, n)) <= bound
      invariant Going(s, call, After(s, call, false, cells, junk, n))
      invariant forall k: nat :: 0 < k <= n ==> After(s, call, false, cells, junk, k).ppc != Idle
      decreases Work(After(s, call, false, cells, junk, n))
    {
      var s' := After(s, call, false, cells, junk, n);
      var a' := Alone(s', call, false, cells, junk);
      NextStep(s, call, false, cells, junk, n);
      GoingFits(s, call, s', a');
      FreshIsGranted(s', call, false, cells, junk);
      StepGoes(s, call, s', a');
      n := n + 1;
      if After(s, call, false, cells, junk, n).ppc == Idle { return; }
    }
  }

  lemma GoingIsBusy(s: State, call: Call, s': State)
    requires Going(s, call, s')
    ensures s'.ppc != Idle
  {
  }

  // ----- the single form, whatever memory there is -----

  /** The block ahead of the tail block is empty. */
  predicate Ahead(s: State) { s.tailBlock.Some? && AllEmpty(s.heap, NextOf(s.heap, s.tailBlock.value)) }

  /** A new block is needed, none can be used again, and there is no leeway or no memory for another. */
  predicate Blocked(s: State, fails: bool) {
    Off(s.q.tail) == 0 && !Ahead(s) && (Full(s.q.head, s.q.tail, s.limit) || fails)
  }

  /** Where the single form can be in a call that runs alone. */
  predicate OnPath(s: State, fails: bool, s': State) {
    match s'.ppc
    case Reuse(op) => Off(s.q.tail) == 0 && op.need == 1 && op.base == s.q.tail && s'.heap == s.heap && s'.tailBlock == s.tailBlock
    case Room(op) => Off(s.q.tail) == 0 && !Ahead(s) && op.base == s.q.tail && op.need == 1
    case Grow(op) => Off(s.q.tail) == 0 && !Ahead(s) && !Full(s.q.head, s.q.tail, s.limit) && op.need == 1
    case Link(op) => Off(s.q.tail) == 0 && !Ahead(s) && !Full(s.q.head, s.q.tail, s.limit) && op.need == 1
    case SetBase(op, _) => !Blocked(s, fails) && op.need == 0
    case SetBlock(op, _) => !Blocked(s, fails) && op.need == 0
    case ResetAll(_, _) => false
    case _ => !Blocked(s, fails)
  }

  lemma PathStarts(s: State, v: Elem, a: Act)
    requires Shape(s) && s.ppc == Idle && a.Produce? && a.call == EnqueueOne(v)
    ensures OnPath(s, a.fails, ProducerStep(s, a))
  {
    hide Ahead, Full, Shape;
    var tail := s.q.tail;
    CeilFacts(tail);
    SplitIndex(tail);
    if Need(tail, 1) == 0 { NoNeed(tail, 1); }
  }

  lemma PathGoesOn(s: State, s': State, a: Act)
    requires Shape(s') && a.Produce? && OnPath(s, a.fails, s') && s'.ppc != Idle && !s'.ppc.op.bulk
    requires s'.q == s.q && s'.limit == s.limit
    requires s'.ppc.Write? ==> s'.ppc.j < |s'.ppc.op.vs|
    ensures Refused(s', a) ==> Blocked(s, a.fails) && ProducerStep(s', a).ppc == Idle
    ensures !Refused(s', a) && ProducerStep(s', a).ppc == Idle ==> !Blocked(s, a.fails)
    ensures ProducerStep(s', a).ppc != Idle ==> OnPath(s, a.fails, ProducerStep(s', a))
  {
    hide Full, FillFlags, SetNext, SetCell, NextOf, EntryAt, Mask, Off, D.Shape, D.Step, AllEmpty;
  }

  /** A single enqueue that runs alone, whatever the allocators do, is over after at most eleven steps. It
      appends its element unless it needs a block, the one ahead is not empty, and there is no leeway or
      no memory for a new one; then it appends nothing. */
  lemma LoneSingle(s: State, v: Elem, fails: bool, cells: seq<Option<Elem>>, junk: Entry) returns (n: nat)
    requires Inv(s) && s.ppc == Idle && |cells| == BLOCK_SIZE
    ensures 0 < n <= 11
    ensures forall k: nat :: 0 < k < n ==> After(s, EnqueueOne(v), fails, cells, junk, k).ppc != Idle
    ensures var s' := After(s, EnqueueOne(v), fails, cells, junk, n);
            s'.ppc == Idle && s'.claims.vals == if Blocked(s, fails) then s.claims.vals else s.claims.vals + [v]
  {
    var call := EnqueueOne(v);
    hide Inv, Shape, After, ProducerStep, Work, Going, Granted, Refused, OnPath, Blocked;
    var a := Alone(s, call, fails, cells, junk);
    NextStep(s, call, fails, cells, junk, 0);
    StartGoes(s, a);
    StartWork(s, call);
    PathStarts(s, v, a);
    NeedOne(s.q.tail);
    n := 1;
    GoingIsBusy(s, call, After(s, call, fails, cells, junk, 1));
    while true
      invariant 0 < n && n - 1 + Work(After(s, call, fails, cells, junk, n)) <= 10
      invariant Going(s, call, After(s, call, fails, cells, junk, n)) && OnPath(s, fails, After(s, call, fails, cells, junk, n))
      invariant forall k: nat :: 0 < k <= n ==> After(s, call, fails, cells, junk, k).ppc != Idle
      decreases Work(After(s, call, fails, cells, junk, n))
    {
      var s' := After(s, call, fails, cells, junk, n);
      var a' := Alone(s', call, fails, cells, junk);
      NextStep(s, call, fails, cells, junk, n);
      FreshIsGranted(s', call, fails, cells, junk);
      GoingParts(s, call, s');
      PathGoesOn(s, s', a');
      if Refused(s', a') {
        StepCarries(s', a', call, s.claims.vals);
        WorkIsPositive(s', a');
        n := n + 1;
        return;
      }
      StepGoes(s, call, s', a');
      n := n + 1;
      if After(s, call, fails, cells, junk, n).ppc == Idle { return; }
    }
  }

  lemma WorkIsPositive(s: State, a: Act)
    requires Inv(s) && Refused(s, a)
    ensures Work(s) > 0
  {
    Prepared(s);
    hide Inv, Full;
  }

  lemma GoingParts(s: State, call: Call, s': State)
    requires Going(s, call, s') && call.EnqueueOne?
    ensures Carries(s', call, s.claims.vals) && Inv(s') && Shape(s') && s'.q == s.q && s'.limit == s.limit
    ensures s'.ppc != Idle && !s'.ppc.op.bulk && (s'.ppc.Write? ==> s'.ppc.j < |s'.ppc.op.vs|)
  {
    ShapeOf(s');
    Prepared(s');
    hide Inv, Shape;
  }

  lemma NeedOne(tail: nat)
    ensures Need(tail, 1) <= 1
  {
    CeilFacts(tail);
  }

  // ----- what the consumers see of it -----

  lemma ConsumersStay(s: State, a: Act)
    requires Shape(s) && a.Produce?
    ensures var s' := ProducerStep(s, a); s'.locs == s.locs && s'.q.pcs == s.q.pcs && s'.q.head == s.q.head
  {
    hide Full, AllEmpty, FillFlags, SetNext, SetCell, NextOf, EntryAt, Mask, Start, CeilBlk, Off, D.Shape, Need;
  }

  lemma {:induction false} ConsumersWait(s: State, call: Call, fails: bool, cells: seq<Option<Elem>>, junk: Entry, n: nat)
    requires Inv(s)
    ensures var s' := After(s, call, fails, cells, junk, n); s'.locs == s.locs && s'.q.pcs == s.q.pcs && s'.q.head == s.q.head
  {
    hide Inv, Shape, ProducerStep, After;
    if n == 0 {
      NextStep(s, call, fails, cells, junk, 0);
    } else {
      ConsumersWait(s, call, fails, cells, junk, n - 1);
      NextStep(s, call, fails, cells, junk, n - 1);
      var before := After(s, call, fails, cells, junk, n - 1);
      ConsumersStay(before, Alone(before, call, fails, cells, junk));
    }
  }
}
