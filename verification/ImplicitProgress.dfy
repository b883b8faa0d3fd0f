/** A consumer of the implicit producer that has claimed indices is not held up: every step of its
    own brings it nearer to the end, and nobody else's step sends it back. */
module ImplicitProgress {
  import opened Blocks
  import opened ImplicitProducer
  import opened ImplicitInvariant
  import opened ImplicitEnqueue
  import C = Claims
  import D = DequeueCounters
  import X = ExplicitProducer

  /** The most steps that a consumer with `left` elements still to read can need. */
  function StepsFrom(l: Loc, left: nat): nat {
    match l
    case Out => 0
    case LoadHeader => 5 * left + 5
    case LoadTail(_) => 5 * left + 4
    case LoadKey(_, _) => 5 * left + 3
    case LoadValue(_, _) => 5 * left + 2
    case Read(_, _, _) => 5 * left + 1
    case Mark(_, _, _) => 5 * left + 5
    case Clear(_, _, _) => 5 * left + 4
    case Free(_, _, _) => 5 * left + 3
  }

  function Left(p: C.Span): nat { if p.pos <= p.hi then p.hi - p.pos else 0 }

  function StepsLeft(s: State, t: nat): nat {
    if t < |s.locs| && t < |s.claims.spans| then StepsFrom(s.locs[t], Left(s.claims.spans[t])) else 0
  }

  /** No step of a consumer that has claimed indices is without effect: the lookup finds a block, the
      block has the element. */
  lemma OwnStepAdvances(s: State, t: nat, want: D.Want, seen: nat)
    requires Inv(s) && t < |s.locs| && s.locs[t] != Out
    ensures StepsLeft(ConsumerStep(s, t, want, seen), t) < StepsLeft(s, t)
  {
    hide HeapOk, OwnOk, LifeOk, CellsOk, IndexOk, NumsOk, PpcOk, WrittenOk, D.Step, SetCell, AddDone, Mask, DivBlocks, Base, Cell, C.Paint, Off, Blk, EntryAt,
      Lookup, SetLife, SetFree, SetEntryValue, Slot, HomesIn, Fits, InSlot, LifeIs, BlockOf, Pos, Done;
    assert LocOk(s.locs[t], t, s.claims.spans[t], s.headers, s.entries, s.home, s.blocks, s.life);
    if s.locs[t].Read? {
      ReadFindsElement(s, t);
    } else if s.locs[t].LoadValue? {
      LookupFindsBlock(s, t);
    }
  }

  lemma OthersKeepPlace(s: State, a: Act, t: nat)
    requires Shape(s) && t < |s.locs| && (a.Consume? ==> a.t < |s.locs| && a.t != t)
    ensures StepsLeft(Step(s, a), t) == StepsLeft(s, t)
  {
    hide D.Step, D.Shape, SetCell, AddDone, Mask, DivBlocks, Base, Cell, C.Paint, Off, EntryAt, SetNext, X.Full, CeilBlk, Start, NextOf, SetEntryValue,
      SetEntryKey, SetLife, SetFree, Lookup, Widened, Slot, Cut, Need, Succ, Pred, Blk, Done;
  }

  /** How many of the steps from `i` to `j - 1` are of consumer `t`. */
  function OwnSteps(acts: seq<Act>, t: nat, i: nat, j: nat): nat
    requires i <= j <= |acts|
    decreases j - i
  {
    if i == j then 0 else OwnSteps(acts, t, i, j - 1) + if acts[j - 1].Consume? && acts[j - 1].t == t then 1 else 0
  }

  /** Once it has claimed its indices a dequeue is wait-free: with `n` elements to read it is done,
      and has given its last block back if it was the one to complete it, after at most `5 n + 5`
      steps of its own, whatever the others do.  Adding a block to the pool counts as one step. */
  lemma {:induction false} ClaimedDequeueIsWaitFree(states: seq<State>, acts: seq<Act>, t: nat, i: nat, j: nat)
    requires Run(states, acts) && i <= j <= |acts| && t < |states[i].locs|
    requires forall k :: i <= k < j ==> t < |states[k].locs| && states[k].locs[t] != Out
    ensures OwnSteps(acts, t, i, j) + StepsLeft(states[j], t) <= StepsLeft(states[i], t)
    ensures t < |states[i].claims.spans| && OwnSteps(acts, t, i, j) <= 5 * Left(states[i].claims.spans[t]) + 5
    decreases j - i
  {
    hide Inv, Init, Step, Shape, StepsLeft;
    RunKeepsInv(states, acts, i);
    assert t < |states[i].claims.spans| && StepsLeft(states[i], t) <= 5 * Left(states[i].claims.spans[t]) + 5 by { AtMost(states[i], t); }
    if i < j {
      var k, a := j - 1, acts[j - 1];
      ClaimedDequeueIsWaitFree(states, acts, t, i, k);
      RunKeepsInv(states, acts, k);
      assert Next(states[k], a, states[j]);
      OneStep(states[k], a, t);
    }
  }

  lemma AtMost(s: State, t: nat)
    requires Inv(s) && t < |s.locs|
    ensures t < |s.claims.spans| && StepsLeft(s, t) <= 5 * Left(s.claims.spans[t]) + 5
  {
  }

  lemma OneStep(s: State, a: Act, t: nat)
    requires Inv(s) && t < |s.locs| && s.locs[t] != Out && (a.Consume? ==> a.t < |s.locs|)
    ensures Shape(s)
    ensures StepsLeft(Step(s, a), t) + (if a.Consume? && a.t == t then 1 else 0) <= StepsLeft(s, t)
  {
    hide StepsLeft, ConsumerStep, ProducerStep;
    if a.Consume? && a.t == t {
      OwnStepAdvances(s, t, a.want, a.seen);
    } else {
      OthersKeepPlace(s, a, t);
    }
  }
}
