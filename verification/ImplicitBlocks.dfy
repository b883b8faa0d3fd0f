/** No block of the implicit producer is lost: once all its slots were given back a block has gone to the
    pool, or some consumer is on its way there with it. */
module ImplicitBlocks {
  import opened Wrappers
  import opened Blocks
  import opened ImplicitProducer
  import opened ImplicitInvariant
  import opened ImplicitEnqueue
  import C = Claims
  import D = DequeueCounters

  /** Consumer `t` has given back the last slot of block number `n` and is to take it to the pool. */
  predicate Carries(s: State, t: nat, n: nat) {
    && t < |s.locs| && t < |s.claims.spans| && (s.locs[t].Clear? || s.locs[t].Free?)
    && s.claims.spans[t].pos > 0 && Blk(s.claims.spans[t].pos - 1) == n
  }

  predicate Held(s: State, n: nat) {
    n < |s.life| ==>
      && (s.life[n].Clearing? ==> Carries(s, s.life[n].t, n) && s.locs[s.life[n].t].Clear?)
      && (s.life[n].Freeing? ==> Carries(s, s.life[n].t, n) && s.locs[s.life[n].t].Free?)
  }

  ghost predicate AllHeld(s: State) { forall n: nat :: Held(s, n) }

  // ----- consumers -----

  /** What the invariant says of the block a consumer is about to leave. */
  lemma AtLeaving(s: State, t: nat)
    requires Inv(s) && t < |s.locs|
    ensures Shape(s) && t < |s.claims.spans|
    ensures s.locs[t].Mark? ==> s.claims.spans[t].pos > 0 && Blk(s.claims.spans[t].start) == Blk(s.claims.spans[t].pos - 1)
    ensures s.locs[t].Clear? ==> s.claims.spans[t].pos > 0 && LifeIs(s.life, Blk(s.claims.spans[t].pos - 1), Clearing(t))
    ensures s.locs[t].Free? ==> s.claims.spans[t].pos > 0 && LifeIs(s.life, Blk(s.claims.spans[t].pos - 1), Freeing(t))
  {
    hide LinkOk, HeapOk, OwnOk, LifeOk, CellsOk, IndexOk, NumsOk, PpcOk, WrittenOk, HomesIn, Fits, InSlot, BlockOf, Blk, Off;
    assert LocOk(s.locs[t], t, s.claims.spans[t], s.headers, s.entries, s.home, s.blocks, s.life);
  }

  lemma OtherConsumer(s: State, t: nat, want: D.Want, seen: nat, u: nat)
    requires Shape(s) && t < |s.locs| && u != t
    ensures var s' := ConsumerStep(s, t, want, seen);
            && |s'.locs| == |s.locs| && |s'.claims.spans| == |s.claims.spans| && |s'.life| == |s.life|
            && (u < |s.locs| ==> s'.locs[u] == s.locs[u] && s'.claims.spans[u] == s.claims.spans[u])
  {
    hide D.Step, D.Shape, C.Paint, SetCell, AddDone, SetFree, SetEntryValue, Lookup, Slot, EntryAt, Cell, Done, Blk, Off;
  }

  /** How a consumer's step changes the life of a block number. */
  lemma ConsumerLife(s: State, t: nat, want: D.Want, seen: nat, n: nat)
    requires Shape(s) && t < |s.locs| && t < |s.claims.spans| && n < |s.life| && s.claims.spans[t].pos > 0
    ensures var s', l := ConsumerStep(s, t, want, seen), s.locs[t];
            && n < |s'.life|
            && (s'.life[n] == s.life[n]
                || (l.Mark? && n == Blk(s.claims.spans[t].start) && s'.life[n] == Clearing(t) && s'.locs[t].Clear?)
                || (l.Clear? && n == Blk(s.claims.spans[t].pos - 1) && s'.life[n] == Freeing(t) && s'.locs[t].Free?)
                || (l.Free? && n == Blk(s.claims.spans[t].pos - 1) && s'.life[n] == Freed))
            && (l.Clear? && n == Blk(s.claims.spans[t].pos - 1) ==> s'.life[n] == Freeing(t))
            && (l.Free? && n == Blk(s.claims.spans[t].pos - 1) ==> s'.life[n] == Freed)
  {
    hide D.Step, D.Shape, C.Paint, SetCell, AddDone, SetFree, SetEntryValue, Lookup, Slot, EntryAt, Cell, Done, Blk, Off;
  }

  lemma SamePos(s: State, t: nat, want: D.Want, seen: nat)
    requires Shape(s) && t < |s.locs| && t < |s.claims.spans| && (s.locs[t].Mark? || s.locs[t].Clear? || s.locs[t].Free?)
    ensures var s' := ConsumerStep(s, t, want, seen);
            t < |s'.locs| && t < |s'.claims.spans| && s'.claims.spans[t].pos == s.claims.spans[t].pos
    ensures s.locs[t].Clear? ==> ConsumerStep(s, t, want, seen).locs[t].Free?
  {
    hide D.Step, D.Shape, C.Paint, SetCell, AddDone, SetFree, SetLife, SetEntryValue, Lookup, Slot, EntryAt, Cell, Done, Blk, Off;
  }

  lemma LifeSame(s: State, t: nat, want: D.Want, seen: nat)
    requires Shape(s) && t < |s.locs| && !s.locs[t].Mark? && !s.locs[t].Clear? && !s.locs[t].Free?
    ensures ConsumerStep(s, t, want, seen).life == s.life
  {
    hide D.Step, D.Shape, C.Paint, SetCell, SetEntryValue, Lookup, Slot, EntryAt, Cell, Blk, Off;
  }

  lemma ConsumerHolds(s: State, t: nat, want: D.Want, seen: nat, n: nat)
    requires Inv(s) && Shape(s) && AllHeld(s) && t < |s.locs|
    ensures Held(ConsumerStep(s, t, want, seen), n)
  {
    hide Inv, Shape, ConsumerStep, Blk;
    AtLeaving(s, t);
    var s' := ConsumerStep(s, t, want, seen);
    assert Held(s, n);
    if n < |s'.life| {
      var u := if s'.life[n].Clearing? || s'.life[n].Freeing? then s'.life[n].t else t;
      if s.locs[t].Mark? || s.locs[t].Clear? || s.locs[t].Free? {
        OtherConsumer(s, t, want, seen, t + 1);
        ConsumerLife(s, t, want, seen, n);
        SamePos(s, t, want, seen);
      } else {
        LifeSame(s, t, want, seen);
      }
      if u != t { OtherConsumer(s, t, want, seen, u); }
    }
  }

  // ----- the producer -----

  lemma ConsumersStay(s: State, a: Act)
    requires Shape(s) && a.Produce?
    ensures var s' := ProducerStep(s, a); s'.locs == s.locs && s'.claims.spans == s.claims.spans
  {
    hide SetNext, SetCell, NextOf, EntryAt, SetEntryKey, SetEntryValue, Slot, Widened, Start, CeilBlk, Off, Blk, Lookup, D.Step, D.Shape, Back, Succ,
      IsFree, SetFree, SetLife, Cut, Need;
  }

  /** The producer's steps leave the consumers alone, and leave the life of a block number as it is unless
      they say that it is new, taken out again, or back in the pool after that. */
  lemma ProducerLife(s: State, a: Act, n: nat)
    requires Shape(s) && a.Produce? && n < |ProducerStep(s, a).life|
    ensures ProducerStep(s, a).locs == s.locs && ProducerStep(s, a).claims.spans == s.claims.spans
    ensures var l := ProducerStep(s, a).life[n];
            || (n < |s.life| && l == s.life[n]) || l == Live
            || (s.ppc.RollValue? && n == Blk(s.ppc.base) && l == Dropped)
            || (s.ppc.FreeChain? && n == s.ppc.n && l == Freed)
  {
    ConsumersStay(s, a);
    hide SetNext, SetCell, NextOf, EntryAt, SetEntryKey, SetEntryValue, Slot, Widened, Start, CeilBlk, Off, Blk, Lookup, D.Step, D.Shape, Back, Succ,
      IsFree, SetFree, Need, RoomStep, InsertStep, GrowStep, WriteStep, RewindStep, SetTailStep;
    if s.ppc.Room? || s.ppc.Insert? || s.ppc.Grow? || s.ppc.Write? || s.ppc.Rewind? || s.ppc.SetTail? {
      SameLife(s, a);
    }
  }

  lemma SameLife(s: State, a: Act)
    requires Shape(s) && a.Produce? && (s.ppc.Room? || s.ppc.Insert? || s.ppc.Grow? || s.ppc.Write? || s.ppc.Rewind? || s.ppc.SetTail?)
    ensures ProducerStep(s, a).life == s.life
  {
    hide SetNext, SetCell, NextOf, EntryAt, Slot, Widened, Start, CeilBlk, Off, D.Shape, Back, Succ;
  }

  lemma ProducerHolds(s: State, a: Act, n: nat)
    requires Shape(s) && AllHeld(s) && a.Produce?
    ensures Held(ProducerStep(s, a), n)
  {
    hide Shape, ProducerStep, Blk;
    assert Held(s, n);
    if n < |ProducerStep(s, a).life| { ProducerLife(s, a, n); }
  }

  // ----- runs -----

  lemma StartHolds(s: State)
    requires Init(s)
    ensures AllHeld(s)
  {
  }

  lemma {:induction false} RunsHold(states: seq<State>, acts: seq<Act>, i: nat)
    requires Run(states, acts) && i < |states|
    ensures AllHeld(states[i])
  {
    hide Step, Shape, Init, Inv, Held;
    if i == 0 {
      StartHolds(states[0]);
    } else {
      RunsHold(states, acts, i - 1);
      RunKeepsInv(states, acts, i - 1);
      var s, a := states[i - 1], acts[i - 1];
      assert Next(s, a, states[i]);
      StepIs(s, a);
      forall n: nat ensures Held(states[i], n) {
        if a.Produce? {
          ProducerHolds(s, a, n);
        } else {
          ConsumerHolds(s, a.t, a.want, a.seen, n);
        }
      }
    }
  }

  lemma StepIs(s: State, a: Act)
    requires Shape(s) && (a.Consume? ==> a.t < |s.locs|)
    ensures Step(s, a) == if a.Produce? then ProducerStep(s, a) else ConsumerStep(s, a.t, a.want, a.seen)
  {
    hide ProducerStep, ConsumerStep, Shape;
  }

  /** The step of consumer `a.t` that puts block number `n` into the pool. */
  ghost predicate TakesToPool(s: State, a: Act, n: nat) {
    a.Consume? && Carries(s, a.t, n) && s.locs[a.t].Free?
  }

  /** After it the block is in the pool. */
  lemma ThenInPool(states: seq<State>, acts: seq<Act>, i: nat, n: nat)
    requires Run(states, acts) && i < |acts| && TakesToPool(states[i], acts[i], n)
    ensures var s, s' := states[i], states[i + 1];
            !IsFree(s.heap, s.locs[acts[i].t].b) && IsFree(s'.heap, s.locs[acts[i].t].b) && s.locs[acts[i].t].b == BlockOf(s.blocks, n)
  {
    RunKeepsInv(states, acts, i);
    var s, a := states[i], acts[i];
    assert Next(s, a, states[i + 1]);
    FreeIsGone(s, a.t);
    BlockIs(s, a.t);
    hide Inv, Blk, BlockOf;
  }

  lemma BlockIs(s: State, t: nat)
    requires Inv(s) && t < |s.locs| && s.locs[t].Free?
    ensures t < |s.claims.spans| && s.claims.spans[t].pos > 0 && s.locs[t].b < |s.heap|
    ensures s.locs[t].b == BlockOf(s.blocks, Blk(s.claims.spans[t].pos - 1))
  {
    hide LinkOk, HeapOk, LifeOk, CellsOk, IndexOk, NumsOk, PpcOk, WrittenOk, HomesIn, Fits, InSlot, BlockOf, Blk, Off;
    assert LocOk(s.locs[t], t, s.claims.spans[t], s.headers, s.entries, s.home, s.blocks, s.life);
    assert Owned(s.life, Blk(s.claims.spans[t].pos - 1));
  }

  /** Every index of block number `n` was given back. */
  ghost predicate AllGone(c: C.State, n: nat) { forall x: nat :: Blk(x) == n ==> C.IsGone(c, x) }

  lemma {:induction false} CountsAll(c: C.State, n: nat, k: nat)
    requires k <= BLOCK_SIZE && AllGone(c, n)
    ensures GoneUpTo(c, n, k) == k
  {
    if k > 0 {
      CountsAll(c, n, k - 1);
      JoinIndex(n, k - 1);
    }
  }

  /** A block number that was given back completely is published and no longer live. */
  lemma GoneIsNotLive(s: State, n: nat)
    requires Inv(s) && AllGone(s.claims, n)
    ensures n < CeilBlk(s.q.tail) && n < |s.life| && !s.life[n].Live?
  {
    hide CellsOk, HeapOk, IndexOk, NumsOk, PpcOk, WrittenOk, OwnOk, LocsOk, CeilBlk, GoneUpTo;
    JoinIndex(n, 0);
    assert C.IsGone(s.claims, Start(n) + 0);
    BelowCeil(Start(n) + 0, s.q.tail);
    CountsAll(s.claims, n, BLOCK_SIZE);
    assert LifeAt(s.heap, s.blocks, s.life, s.claims, n);
  }

  /** A published block number was not taken out again, and the blocks of an operation that is about to
      publish are live. */
  lemma UndoneAreAhead(s: State)
    requires Inv(s)
    ensures s.ppc.RollValue? ==> CeilBlk(s.q.tail) <= Blk(s.ppc.base)
    ensures s.ppc.FreeChain? ==> CeilBlk(s.q.tail) <= s.ppc.n
    ensures s.ppc.Finish? ==>
      forall n: nat :: CeilBlk(s.q.tail) <= n < CeilBlk(s.q.tail + |s.ppc.op.vs|) && n < |s.life| ==> s.life[n] == Live
  {
    hide LinkOk, HeapOk, OwnOk, LifeOk, CellsOk, IndexOk, LocsOk, NumsOk, WrittenOk, BlockOf, Blk, CeilBlk, AllAre;
    assert PpcOk(s.ppc, s.q.tail, s.headers, s.entries, s.heap, s.blocks, s.life, s.high, s.tailBlock);
    if s.ppc.Finish? { AllLive(s.life, CeilBlk(s.q.tail), CeilBlk(s.q.tail + |s.ppc.op.vs|)); }
  }

  lemma AllLive(life: seq<Life>, lo: nat, hi: nat)
    requires AllAre(life, lo, hi, Live)
    ensures forall n: nat :: lo <= n < hi && n < |life| ==> life[n] == Live
  {
    forall n: nat | lo <= n < hi && n < |life| ensures life[n] == Live {
      assert LifeIs(life, n, Live);
    }
  }

  lemma ProducerTail(s: State, a: Act)
    requires Shape(s) && a.Produce?
    ensures var s' := ProducerStep(s, a);
            if s.ppc.Finish? then s'.q.tail == s.q.tail + |s.ppc.op.vs| && s'.life == s.life else s'.q.tail == s.q.tail
  {
    hide SetNext, SetCell, NextOf, EntryAt, SetEntryKey, SetEntryValue, Slot, Widened, Start, CeilBlk, Off, Blk, Lookup, D.Shape, Back, Succ,
      IsFree, SetFree, SetLife, Cut, Need;
  }

  lemma ConsumerTail(s: State, t: nat, want: D.Want, seen: nat)
    requires Shape(s) && t < |s.locs|
    ensures ConsumerStep(s, t, want, seen).q.tail == s.q.tail
  {
    SameTail(s.q, t, want, seen);
    hide D.Step, D.Shape, C.Paint, SetCell, AddDone, SetFree, SetLife, SetEntryValue, Lookup, Slot, EntryAt, Cell, Done, Blk, Off;
  }

  lemma SameTail(q: D.State, t: nat, want: D.Want, seen: nat)
    requires D.Shape(q) && t < |q.pcs|
    ensures D.Step(q, D.Consume(t, want, seen)).tail == q.tail
  {
    hide D.Fill, D.SomethingThere, D.Word;
  }

  ghost predicate Over(s: State, n: nat) { n < |s.life| && n < CeilBlk(s.q.tail) && (s.life[n] == Freed || s.life[n] == Dropped) }

  /** A published block number is over after a step only if it was so before or this step takes it to the pool. */
  lemma OverBefore(s: State, a: Act, n: nat)
    requires Inv(s) && Shape(s) && (a.Consume? ==> a.t < |s.locs|) && Over(Step(s, a), n)
    ensures (Over(s, n) && Step(s, a).life[n] == s.life[n]) || (TakesToPool(s, a, n) && Step(s, a).life[n] == Freed)
  {
    hide Inv, Shape, Step, Blk, CeilBlk;
    UndoneAreAhead(s);
    StepIs(s, a);
    if a.Produce? {
      ProducerLife(s, a, n);
      ProducerTail(s, a);
    } else {
      hide ConsumerStep;
      AtLeaving(s, a.t);
      ConsumerTail(s, a.t, a.want, a.seen);
      if s.locs[a.t].Mark? || s.locs[a.t].Clear? || s.locs[a.t].Free? {
        OtherConsumer(s, a.t, a.want, a.seen, a.t + 1);
        ConsumerLife(s, a.t, a.want, a.seen, n);
      } else {
        LifeSame(s, a.t, a.want, a.seen);
      }
    }
  }

  lemma {:induction false} OverWasTaken(states: seq<State>, acts: seq<Act>, i: nat, n: nat)
    requires Run(states, acts) && i < |states| && Over(states[i], n)
    ensures states[i].life[n] == Freed && exists k :: 0 <= k < i && TakesToPool(states[k], acts[k], n)
  {
    hide Step, Shape, Inv, TakesToPool;
    if i > 0 {
      hide Init;
      RunKeepsInv(states, acts, i - 1);
      assert Next(states[i - 1], acts[i - 1], states[i]);
      OverBefore(states[i - 1], acts[i - 1], n);
      if !TakesToPool(states[i - 1], acts[i - 1], n) {
        OverWasTaken(states, acts, i - 1, n);
      } else if states[i].life[n] != Freed {
        OverWasTaken(states, acts, i - 1, n);
      }
    }
  }

  /** In every run a block all of whose slots were given back is on its way to the pool with some consumer, or
      an earlier step took it there; after that step it was in the pool. */
  lemma NoBlockIsLost(states: seq<State>, acts: seq<Act>, i: nat, n: nat)
    requires Run(states, acts) && i < |states| && AllGone(states[i].claims, n)
    ensures (exists t :: Carries(states[i], t, n)) || (exists k :: 0 <= k < i && TakesToPool(states[k], acts[k], n))
  {
    hide Step, Shape, Init, Inv, TakesToPool, Blk;
    RunKeepsInv(states, acts, i);
    RunsHold(states, acts, i);
    var s := states[i];
    GoneIsNotLive(s, n);
    assert Held(s, n);
    if s.life[n].Clearing? || s.life[n].Freeing? {
      assert Carries(s, s.life[n].t, n);
    } else {
      OverWasTaken(states, acts, i, n);
    }
  }
}
