/** A consumer of the explicit producer that has claimed indices is not held up: every step of its
    own brings it nearer to the end, and nobody else's step sends it back. */
module ExplicitProgress {
  import opened Blocks
  import opened ExplicitProducer
  import opened ExplicitInvariant
  import opened ExplicitEnqueue
  import C = Claims
  import D = DequeueCounters

  /** The most steps that a consumer with `left` elements still to read can need. */
  function StepsFrom(l: Loc, left: nat): nat {
    match l
    case Out => 0
    case LoadHeader => 3 * left + 5
    case LoadFront(_) => 3 * left + 4
    case LoadBase(_, _, _) => 3 * left + 3
    case LoadBlock(_, _) => 3 * left + 2
    case Read(_, _, _) => 3 * left + 1
    case Mark(_, _, _) => 3 * left + 3
  }

  function Left(p: C.Span): nat { if p.pos <= p.hi then p.hi - p.pos else 0 }

  function StepsLeft(s: State, t: nat): nat {
    if t < |s.locs| && t < |s.claims.spans| then StepsFrom(s.locs[t], Left(s.claims.spans[t])) else 0
  }

  /** No step of a consumer that has claimed indices is without effect. */
  lemma OwnStepAdvances(s: State, t: nat, want: D.Want, seen: nat)
    requires Inv(s) && t < |s.locs| && s.locs[t] != Out
    ensures StepsLeft(ConsumerStep(s, t, want, seen), t) < StepsLeft(s, t)
  {
    hide RingOk, GoneOk, FlagsOk, CellsOk, NumsOk, PpcOk, WrittenOk, D.Step, SetCell, MarkEmpty, Mask, DivBlocks, Base, Cell, C.Paint, Off, Blk, EntryAt;
    assert LocOk(s.locs[t], s.claims.spans[t], s.headers, s.ring, s.lo);
    if s.locs[t].Read? {
      ReadFindsElement(s, t);
    } else if s.locs[t].LoadFront? {
      assert HeaderOk(s.headers[s.locs[t].h], s.ring, s.lo);
    }
  }

  lemma OthersKeepPlace(s: State, a: Act, t: nat)
    requires Shape(s) && t < |s.locs| && (a.Consume? ==> a.t < |s.locs| && a.t != t)
    ensures StepsLeft(Step(s, a), t) == StepsLeft(s, t)
  {
    hide D.Step, D.Shape, SetCell, MarkEmpty, Mask, DivBlocks, Base, Cell, C.Paint, Off, EntryAt, SetNext, FillFlags, Full, CeilBlk, Start, NextOf,
      AllEmpty, Succ, Pred, Need;
  }

  /** How many of the steps from `i` to `j - 1` are of consumer `t`. */
  function OwnSteps(acts: seq<Act>, t: nat, i: nat, j: nat): nat
    requires i <= j <= |acts|
    decreases j - i
  {
    if i == j then 0 else OwnSteps(acts, t, i, j - 1) + if acts[j - 1].Consume? && acts[j - 1].t == t then 1 else 0
  }

  /** Once it has claimed its indices a dequeue is wait-free: with `n` elements to read it is done
      after at most `3 n + 5` steps of its own, whatever the others do. */
  lemma {:induction false} ClaimedDequeueIsWaitFree(states: seq<State>, acts: seq<Act>, t: nat, i: nat, j: nat)
    requires Run(states, acts) && i <= j <= |acts| && t < |states[i].locs|
    requires forall k :: i <= k < j ==> t < |states[k].locs| && states[k].locs[t] != Out
    ensures OwnSteps(acts, t, i, j) + StepsLeft(states[j], t) <= StepsLeft(states[i], t)
    ensures t < |states[i].claims.spans| && OwnSteps(acts, t, i, j) <= 3 * Left(states[i].claims.spans[t]) + 5
    decreases j - i
  {
    hide Inv, Init, Step, Shape, StepsLeft;
    RunKeepsInv(states, acts, i);
    assert t < |states[i].claims.spans| && StepsLeft(states[i], t) <= 3 * Left(states[i].claims.spans[t]) + 5 by { AtMost(states[i], t); }
    if i < j {
      var k, a := j - 1, acts[j - 1];
      ClaimedDequeueIsWaitFree(states, acts, t, i, k);
      RunKeepsInv(states, acts, k);
      assert Next(states[k], a, states[j]);
      OneStep(states[k], a, t);
    }
  }

  lemma AtMost(s: State, t: nat)
    requires Inv(s) && t < |s.locs|
    ensures t < |s.claims.spans| && StepsLeft(s, t) <= 3 * Left(s.claims.spans[t]) + 5
  {
  }

  lemma OneStep(s: State, a: Act, t: nat)
    requires Inv(s) && t < |s.locs| && s.locs[t] != Out && (a.Consume? ==> a.t < |s.locs|)
    ensures Shape(s)
    ensures StepsLeft(Step(s, a), t) + (if a.Consume? && a.t == t then 1 else 0) <= StepsLeft(s, t)
  {
    hide StepsLeft, ConsumerStep, ProducerStep;
    if a.Consume? && a.t == t {
      OwnStepAdvances(s, t, a.want, a.seen);
    } else {
      OthersKeepPlace(s, a, t);
    }
  }
}
