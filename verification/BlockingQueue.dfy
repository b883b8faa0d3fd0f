/** The blocking queue: an inner queue whose enqueues are followed by `signal`, and whose
    dequeues first obtain permits from the semaphore and then spin until the inner queue has
    given them that many elements.

    The inner queue is its two totals: elements enqueued and elements claimed.  An attempt to
    dequeue from it may give any number of elements from none up to what is asked for and there. */
module BlockingQueue {
  import opened Counting
  import S = Semaphore

  datatype Role = Out | Signalling | Waiting | Spinning(max: nat, count: nat)

  datatype State = State(sem: S.State, enqueued: nat, claimed: nat, roles: seq<Role>)

  datatype Call = Enqueue(n: nat) | Dequeue(max: nat, mode: S.Mode)

  /** The next step of thread `t`: an idle thread starts `call`, a spinning one is given at most
      `given` elements by the inner queue, and `fails` is passed on to the semaphore. */
  datatype Act = Act(t: nat, call: Call, given: nat, fails: bool)

  predicate Shape(s: State) { |s.sem.pcs| == |s.roles| && s.claimed <= s.enqueued }

  function Min(a: nat, b: nat): nat { if a < b then a else b }

  function Become(s: State, t: nat, r: Role): State
    requires t < |s.roles|
  {
    s.(roles := s.roles[t := r])
  }

  function Step(s: State, a: Act): State
    requires Shape(s) && a.t < |s.roles|
  {
    var t := a.t;
    match s.roles[t]
    case Out =>
      (match a.call
       case Enqueue(n) =>
         Become(s, t, Signalling).(
           enqueued := s.enqueued + n, sem := S.Step(s.sem, S.Act(t, S.Signals(n), a.fails)))
       case Dequeue(max, mode) =>
         Become(s, t, Waiting).(sem := S.Step(s.sem, S.Act(t, S.Wait(max, mode), a.fails))))
    case Signalling =>
      var sem := S.Step(s.sem, S.Act(t, S.Signals(0), a.fails));
      var s' := s.(sem := sem);
      if |sem.pcs| == |s.roles| && sem.pcs[t] == S.Idle then Become(s', t, Out) else s'
    case Waiting =>
      var sem := S.Step(s.sem, S.Act(t, S.Signals(0), a.fails));
      var s' := s.(sem := sem);
      if |sem.pcs| == |s.roles| && sem.pcs[t] == S.Idle then
        Become(s', t, if sem.returned > s.sem.returned then Spinning(sem.returned - s.sem.returned, 0) else Out)
      else s'
    case Spinning(max, count) =>
      if count >= max then Become(s, t, Out)
      else
        var got := Min(a.given, Min(max - count, s.enqueued - s.claimed));
        Become(s, t, if count + got == max then Out else Spinning(max, count + got)).(claimed := s.claimed + got)
  }

  predicate Init(s: State) {
    && S.Init(s.sem) && s.sem.initial == 0
    && s.enqueued == s.claimed == 0
    && |s.roles| == |s.sem.pcs|
    && forall t :: 0 <= t < |s.roles| ==> s.roles[t] == Out
  }

  // ----- the invariant -----

  /** Elements enqueued whose `signal` has not yet reached the count. */
  function UnsignalledAs(): S.PC -> nat { (p: S.PC) => if p.Signal? then p.n else 0 }

  /** Permits a spinning thread still has to turn into elements. */
  function HeldAs(): Role -> nat {
    (r: Role) => if r.Spinning? && r.count < r.max then r.max - r.count else 0
  }

  predicate RoleOk(r: Role, p: S.PC) {
    match r
    case Out => p == S.Idle
    case Signalling => p.Signal? || p.Post?
    case Waiting => S.InWait(p)
    case Spinning(max, count) => p == S.Idle && count < max
  }

  predicate Inv(s: State) {
    && Shape(s)
    && S.Inv(s.sem) && s.sem.initial == 0
    && (forall t :: 0 <= t < |s.roles| ==> RoleOk(s.roles[t], s.sem.pcs[t]))
    && s.enqueued == s.sem.signalled + Sum(s.sem.pcs, UnsignalledAs())
    && s.sem.returned == s.claimed + Sum(s.roles, HeldAs())
  }

  // ----- preservation -----

  lemma Rebalance(s: State, s': State, t: nat)
    requires Inv(s) && Shape(s') && t < |s.roles| && |s'.roles| == |s.roles|
    requires s'.roles == s.roles[t := s'.roles[t]]
    requires S.Balanced(s.sem, s'.sem, t) || s'.sem == s.sem
    requires RoleOk(s'.roles[t], s'.sem.pcs[t])
    requires s'.enqueued - s'.sem.signalled - UnsignalledAs()(s'.sem.pcs[t]) == s.enqueued - s.sem.signalled - UnsignalledAs()(s.sem.pcs[t])
    requires s'.sem.returned - s'.claimed - HeldAs()(s'.roles[t]) == s.sem.returned - s.claimed - HeldAs()(s.roles[t])
    ensures Inv(s')
  {
    SumUpdate(s.roles, HeldAs(), t, s'.roles[t]);
    SumUpdate(s.sem.pcs, UnsignalledAs(), t, s'.sem.pcs[t]);
    if s'.sem != s.sem {
      S.BalancedKeepsInv(s.sem, s'.sem, t);
    } else {
      assert s.sem.pcs[t := s.sem.pcs[t]] == s.sem.pcs;
    }
  }

  lemma OutKeeps(s: State, a: Act)
    requires Inv(s) && a.t < |s.roles| && s.roles[a.t].Out?
    ensures Inv(Step(s, a))
  {
    assert RoleOk(s.roles[a.t], s.sem.pcs[a.t]);
    S.TryBalanced(s.sem, S.Act(a.t, if a.call.Enqueue? then S.Signals(a.call.n) else S.Wait(a.call.max, a.call.mode), a.fails));
    Rebalance(s, Step(s, a), a.t);
  }

  lemma SignallingKeeps(s: State, a: Act)
    requires Inv(s) && a.t < |s.roles| && s.roles[a.t].Signalling?
    ensures Inv(Step(s, a))
  {
    assert RoleOk(s.roles[a.t], s.sem.pcs[a.t]);
    S.SignalBalanced(s.sem, S.Act(a.t, S.Signals(0), a.fails));
    Rebalance(s, Step(s, a), a.t);
  }

  lemma WaitingKeeps(s: State, a: Act)
    requires Inv(s) && a.t < |s.roles| && s.roles[a.t].Waiting?
    ensures Inv(Step(s, a))
  {
    assert RoleOk(s.roles[a.t], s.sem.pcs[a.t]);
    S.StepBalanced(s.sem, S.Act(a.t, S.Signals(0), a.fails));
    S.CallResult(s.sem, S.Act(a.t, S.Signals(0), a.fails));
    WaitingRebalance(s, S.Step(s.sem, S.Act(a.t, S.Signals(0), a.fails)), a);
  }

  lemma WaitingRebalance(s: State, sem: S.State, a: Act)
    requires Inv(s) && a.t < |s.roles| && s.roles[a.t].Waiting?
    requires sem == S.Step(s.sem, S.Act(a.t, S.Signals(0), a.fails)) && S.Balanced(s.sem, sem, a.t)
    requires sem.signalled == s.sem.signalled && s.sem.returned <= sem.returned
    requires sem.pcs[a.t] == S.Idle || S.InWait(sem.pcs[a.t])
    requires sem.pcs[a.t] != S.Idle ==> sem.returned == s.sem.returned
    ensures Inv(Step(s, a))
  {
    assert RoleOk(s.roles[a.t], s.sem.pcs[a.t]);
    Rebalance(s, Step(s, a), a.t);
  }

  lemma SpinningKeeps(s: State, a: Act)
    requires Inv(s) && a.t < |s.roles| && s.roles[a.t].Spinning?
    ensures Inv(Step(s, a))
  {
    assert RoleOk(s.roles[a.t], s.sem.pcs[a.t]);
    Rebalance(s, Step(s, a), a.t);
  }

  /** Every step of every thread keeps the accounts of queue and semaphore together. */
  lemma StepKeepsInv(s: State, a: Act)
    requires Inv(s) && a.t < |s.roles|
    ensures Inv(Step(s, a))
  {
    match s.roles[a.t]
    case Out => OutKeeps(s, a);
    case Signalling => SignallingKeeps(s, a);
    case Waiting => WaitingKeeps(s, a);
    case Spinning(_, _) => SpinningKeeps(s, a);
  }

  // ----- whole runs -----

  ghost predicate Run(states: seq<State>, acts: seq<Act>) {
    && |states| == |acts| + 1
    && Init(states[0])
    && forall i :: 0 <= i < |acts| ==> Next(states[i], acts[i], states[i + 1])
  }

  ghost predicate Next(s: State, a: Act, s': State) {
    Shape(s) && a.t < |s.roles| && s' == Step(s, a)
  }

  lemma {:induction false} NothingIn(pcs: seq<S.PC>, roles: seq<Role>)
    requires |pcs| == |roles| && forall t :: 0 <= t < |pcs| ==> pcs[t] == S.Idle && roles[t] == Out
    ensures Sum(pcs, UnsignalledAs()) == Sum(roles, HeldAs()) == 0
  {
    if pcs != [] { NothingIn(pcs[1..], roles[1..]); }
  }

  lemma {:induction false} RunKeepsInv(states: seq<State>, acts: seq<Act>, i: nat)
    requires Run(states, acts) && i < |states|
    ensures Inv(states[i])
  {
    if i == 0 {
      S.NothingIn(states[0].sem.pcs);
      NothingIn(states[0].sem.pcs, states[0].roles);
    } else {
      RunKeepsInv(states, acts, i - 1);
      assert Next(states[i - 1], acts[i - 1], states[i]);
      StepKeepsInv(states[i - 1], acts[i - 1]);
    }
  }

  /** In every reachable state the inner queue holds at least as many elements as there are
      permits held by spinning threads, so a spinning thread always has an element to find. */
  lemma HoldersHaveElements(states: seq<State>, acts: seq<Act>, i: nat)
    requires Run(states, acts) && i < |states|
    ensures states[i].enqueued - states[i].claimed >= Sum(states[i].roles, HeldAs())
    ensures forall t :: 0 <= t < |states[i].roles| && states[i].roles[t].Spinning? ==>
              0 < states[i].roles[t].max - states[i].roles[t].count <= states[i].enqueued - states[i].claimed
  {
    RunKeepsInv(states, acts, i);
    HoldersHave(states[i]);
  }

  lemma HoldersHave(s: State)
    requires Inv(s)
    ensures s.enqueued - s.claimed >= Sum(s.roles, HeldAs())
    ensures forall t :: 0 <= t < |s.roles| && s.roles[t].Spinning? ==> 0 < s.roles[t].max - s.roles[t].count <= s.enqueued - s.claimed
  {
    assert S.Inv(s.sem);
    forall t | 0 <= t < |s.roles| && s.roles[t].Spinning?
      ensures 0 < s.roles[t].max - s.roles[t].count <= s.enqueued - s.claimed
    {
      assert RoleOk(s.roles[t], s.sem.pcs[t]);
      SumAtLeast(s.roles, HeldAs(), t);
    }
  }

  /** A spinning thread whose inner queue gives it all it can leaves at once, having been given
      exactly as many elements as it had permits. */
  lemma SpinEnds(states: seq<State>, acts: seq<Act>, i: nat, t: nat)
    requires Run(states, acts) && i < |states| && t < |states[i].roles| && states[i].roles[t].Spinning?
    ensures Shape(states[i])
    ensures var s := states[i];
            var s' := Step(s, Act(t, Enqueue(0), s.enqueued, false));
            s'.roles == s.roles[t := Out] && s'.claimed - s.claimed == s.roles[t].max - s.roles[t].count
  {
    HoldersHaveElements(states, acts, i);
    RunKeepsInv(states, acts, i);
  }

  /** With nobody inside, the count of the semaphore is the number of elements in the queue. */
  lemma QuietCountIsSize(states: seq<State>, acts: seq<Act>, i: nat)
    requires Run(states, acts) && i < |states|
    requires forall t :: 0 <= t < |states[i].roles| ==> states[i].roles[t] == Out
    ensures states[i].sem.count == states[i].enqueued - states[i].claimed
  {
    RunKeepsInv(states, acts, i);
    var s := states[i];
    forall t | 0 <= t < |s.sem.pcs| ensures s.sem.pcs[t] == S.Idle {
      assert RoleOk(s.roles[t], s.sem.pcs[t]);
    }
    S.NothingIn(s.sem.pcs);
    NothingIn(s.sem.pcs, s.roles);
  }

  // ----- what a call comes to -----

  /** What the steps of one thread have added to the totals. */
  datatype Share = Share(enqueued: int, signalled: int, reported: int, claimed: int)

  function Change(s: State, s': State): Share {
    Share(s'.enqueued - s.enqueued, s'.sem.signalled - s.sem.signalled, s'.sem.returned - s.sem.returned, s'.claimed - s.claimed)
  }

  function Add(a: Share, b: Share): Share {
    Share(a.enqueued + b.enqueued, a.signalled + b.signalled, a.reported + b.reported, a.claimed + b.claimed)
  }

  /** What the steps of thread `t` from `i` to `j - 1` have added. */
  function OwnShare(states: seq<State>, acts: seq<Act>, t: nat, i: nat, j: nat): Share
    requires i <= j <= |acts| < |states|
    decreases j - i
  {
    if i == j then Share(0, 0, 0, 0)
    else
      var before := OwnShare(states, acts, t, i, j - 1);
      if acts[j - 1].t == t then Add(before, Change(states[j - 1], states[j])) else before
  }

  /** From state `i` on thread `t` makes one call, which is over in state `j`. */
  ghost predicate WholeCall(states: seq<State>, acts: seq<Act>, t: nat, i: nat, j: nat) {
    && Run(states, acts) && i < j <= |acts| && acts[i].t == t
    && (forall k :: 0 <= k < |states| ==> t < |states[k].roles|)
    && states[i].roles[t] == Out == states[j].roles[t]
    && (forall k :: i < k < j ==> states[k].roles[t] != Out)
  }

  /** Where the call is, and what it has done so far. */
  predicate Doing(s: State, t: nat, call: Call, mine: Share)
    requires t < |s.roles| == |s.sem.pcs|
  {
    var p := s.sem.pcs[t];
    match s.roles[t]
    case Out => Finished(call, mine)
    case Signalling =>
      call.Enqueue? && (p.Signal? || p.Post?) && (p.Signal? ==> p.n == call.n)
      && mine == Share(call.n, if p.Signal? then 0 else call.n, 0, 0)
    case Waiting =>
      Waits(p, call) && mine == Share(0, 0, 0, 0)
    case Spinning(max, count) =>
      call.Dequeue? && count < max <= call.max && mine == Share(0, 0, max, count)
  }

  /** An enqueue has added its elements and as many permits; a dequeue was given as many elements as it
      was permitted, at most what it asked for, and at least one if it was to wait for them. */
  predicate Finished(call: Call, mine: Share) {
    match call
    case Enqueue(n) => mine == Share(n, n, 0, 0)
    case Dequeue(max, mode) =>
      mine.enqueued == mine.signalled == 0 && 0 <= mine.claimed == mine.reported <= max && (mode.Untimed? && max > 0 ==> mine.claimed > 0)
  }

  lemma CallStarts(s: State, a: Act)
    requires Inv(s) && a.t < |s.roles| && s.roles[a.t] == Out
    ensures var s' := Step(s, a);
            && Inv(s') && |s'.roles| == |s.roles|
            && s'.roles[a.t] != Out && Doing(s', a.t, a.call, Change(s, s'))
  {
    StepKeepsInv(s, a);
    assert RoleOk(s.roles[a.t], s.sem.pcs[a.t]);
    hide Inv;
  }

  lemma EnqueueGoesOn(s: State, a: Act, call: Call, mine: Share)
    requires Inv(s) && a.t < |s.roles| && s.roles[a.t].Signalling? && Doing(s, a.t, call, mine)
    ensures var s' := Step(s, a);
            |s'.roles| == |s.roles| == |s'.sem.pcs| && Doing(s', a.t, call, Add(mine, Change(s, s')))
  {
    InvSizes(s);
    hide Inv;
  }

  lemma WaitGoesOn(s: State, a: Act, call: Call, mine: Share)
    requires Inv(s) && a.t < |s.roles| && s.roles[a.t].Waiting? && Doing(s, a.t, call, mine)
    ensures var s' := Step(s, a);
            |s'.roles| == |s.roles| == |s'.sem.pcs| && Doing(s', a.t, call, Add(mine, Change(s, s')))
  {
    InvSizes(s);
    InvParts(s);
    hide Inv, S.Inv, S.Step, S.PcOk;
    S.PcFromInv(s.sem, a.t);
    InWait(s, a.t, call, mine);
    S.CallResult(s.sem, S.Act(a.t, S.Signals(0), a.fails));
    WaitStepIs(s, a);
    WaitIs(s, a.t, call, mine);
    hide Step, Doing, Waits, S.Reports, Add, Change;
    WaitMoves(s, Step(s, a), a.t, call, mine);
  }

  lemma InvParts(s: State)
    requires Inv(s)
    ensures Shape(s) && S.Inv(s.sem)
  {
  }

  lemma InWait(s: State, t: nat, call: Call, mine: Share)
    requires t < |s.roles| == |s.sem.pcs| && s.roles[t].Waiting? && Doing(s, t, call, mine)
    ensures S.InWait(s.sem.pcs[t])
  {
    hide S.InWait, S.Asked, S.Committed;
  }

  lemma WaitStepIs(s: State, a: Act)
    requires Shape(s) && a.t < |s.roles| && s.roles[a.t].Waiting?
    ensures var sem := S.Step(s.sem, S.Act(a.t, S.Signals(0), a.fails));
            Step(s, a) == if |sem.pcs| == |s.roles| && sem.pcs[a.t] == S.Idle
                          then Become(s.(sem := sem), a.t, if sem.returned > s.sem.returned then Spinning(sem.returned - s.sem.returned, 0) else Out)
                          else s.(sem := sem)
  {
    hide S.Step, Become;
  }

  /** What the wait that thread `t` is in was called with, and what it may not do. */
  predicate Waits(p: S.PC, call: Call) {
    call.Dequeue? && S.InWait(p) && S.Asked(p) == call.max && (call.mode.Untimed? && call.max > 0 ==> S.Committed(p))
  }

  lemma WaitMoves(s: State, s': State, t: nat, call: Call, mine: Share)
    requires t < |s.roles| == |s.sem.pcs| && s.roles[t].Waiting? && S.Reports(s.sem, s'.sem, t)
    requires Waits(s.sem.pcs[t], call) && mine == Share(0, 0, 0, 0)
    requires s'.sem.pcs[t] != S.Idle ==> s'.sem.returned == s.sem.returned && s'.roles == s.roles
    requires s'.sem.pcs[t] == S.Idle ==>
               s'.roles == s.roles[t := if s'.sem.returned > s.sem.returned then Spinning(s'.sem.returned - s.sem.returned, 0) else Out]
    requires s'.enqueued == s.enqueued && s'.claimed == s.claimed
    ensures |s'.roles| == |s'.sem.pcs| && Add(mine, Change(s, s')) == Share(0, 0, s'.sem.returned - s.sem.returned, 0)
    ensures Doing(s', t, call, Share(0, 0, s'.sem.returned - s.sem.returned, 0))
  {
    hide S.Reports, Waits, Doing;
    WaitReports(s.sem, s'.sem, t, call);
    NowDoes(s', t, call, Share(0, 0, s'.sem.returned - s.sem.returned, 0), s'.sem.returned - s.sem.returned);
  }

  lemma WaitIs(s: State, t: nat, call: Call, mine: Share)
    requires t < |s.roles| == |s.sem.pcs| && s.roles[t].Waiting? && Doing(s, t, call, mine)
    ensures Waits(s.sem.pcs[t], call) && mine == Share(0, 0, 0, 0)
  {
    hide Waits;
  }

  lemma NowDoes(s: State, t: nat, call: Call, mine: Share, k: int)
    requires t < |s.roles| == |s.sem.pcs| && mine == Share(0, 0, k, 0) && call.Dequeue? && 0 <= k <= call.max
    requires s.roles[t].Waiting? ==> k == 0 && Waits(s.sem.pcs[t], call)
    requires !s.roles[t].Waiting? ==> s.roles[t] == if k > 0 then Spinning(k, 0) else Out
    requires s.roles[t] == Out && call.mode.Untimed? ==> call.max == 0
    ensures Doing(s, t, call, mine)
  {
    hide Waits;
  }

  lemma WaitReports(sem: S.State, sem': S.State, t: nat, call: Call)
    requires t < |sem.pcs| && S.Reports(sem, sem', t) && Waits(sem.pcs[t], call)
    ensures |sem'.pcs| == |sem.pcs| && sem'.signalled == sem.signalled && call.Dequeue?
    ensures sem'.pcs[t] != S.Idle ==> Waits(sem'.pcs[t], call)
    ensures sem'.pcs[t] == S.Idle ==>
      sem.returned <= sem'.returned <= sem.returned + call.max && (call.mode.Untimed? && call.max > 0 ==> sem'.returned > sem.returned)
  {
    hide S.Asked, S.Committed, S.InWait;
  }

  lemma SpinGoesOn(s: State, a: Act, call: Call, mine: Share)
    requires Inv(s) && a.t < |s.roles| && s.roles[a.t].Spinning? && Doing(s, a.t, call, mine)
    ensures var s' := Step(s, a);
            |s'.roles| == |s.roles| == |s'.sem.pcs| && Doing(s', a.t, call, Add(mine, Change(s, s')))
  {
    InvSizes(s);
    hide Inv;
  }

  lemma OthersStay(s: State, a: Act, t: nat)
    requires Inv(s) && a.t < |s.roles| && t < |s.roles| && a.t != t
    ensures var s' := Step(s, a);
            |s'.roles| == |s.roles| == |s'.sem.pcs| && s'.roles[t] == s.roles[t] && s'.sem.pcs[t] == s.sem.pcs[t]
  {
    StepKeepsInv(s, a);
    assert |Step(s, a).roles| == |Step(s, a).sem.pcs|;
    hide Inv, S.Step;
    SemStays(s.sem, S.Act(a.t, S.Signals(0), a.fails), t);
    if a.call.Enqueue? { SemStays(s.sem, S.Act(a.t, S.Signals(a.call.n), a.fails), t); }
    if a.call.Dequeue? { SemStays(s.sem, S.Act(a.t, S.Wait(a.call.max, a.call.mode), a.fails), t); }
  }

  lemma SemStays(sem: S.State, a: S.Act, t: nat)
    requires a.t < |sem.pcs| && t < |sem.pcs| && a.t != t
    ensures t < |S.Step(sem, a).pcs| && S.Step(sem, a).pcs[t] == sem.pcs[t]
  {
    S.OthersStay(sem, a, t);
  }

  lemma {:induction false} InTheCall(states: seq<State>, acts: seq<Act>, t: nat, i: nat, j: nat, k: nat)
    requires WholeCall(states, acts, t, i, j) && i < k <= j
    ensures t < |states[k].sem.pcs| == |states[k].roles| && Doing(states[k], t, acts[i].call, OwnShare(states, acts, t, i, k))
    decreases k - i
  {
    hide Inv, Step, Doing, Shape, Init;
    var s, a := states[k - 1], acts[k - 1];
    assert Next(s, a, states[k]);
    RunKeepsInv(states, acts, k - 1);
    RunKeepsInv(states, acts, k);
    InvSizes(states[k]);
    var mine := OwnShare(states, acts, t, i, k - 1);
    if k == i + 1 {
      CallStarts(s, a);
      assert OwnShare(states, acts, t, i, i) == Share(0, 0, 0, 0);
      assert OwnShare(states, acts, t, i, k) == Change(s, states[k]);
    } else {
      InTheCall(states, acts, t, i, j, k - 1);
      if a.t != t {
        OthersStay(s, a, t);
        SamePlace(s, states[k], t, acts[i].call, mine);
      } else if s.roles[t].Signalling? {
        EnqueueGoesOn(s, a, acts[i].call, mine);
      } else if s.roles[t].Waiting? {
        WaitGoesOn(s, a, acts[i].call, mine);
      } else {
        SpinGoesOn(s, a, acts[i].call, mine);
      }
    }
  }

  lemma InvSizes(s: State)
    requires Inv(s)
    ensures |s.roles| == |s.sem.pcs|
  {
  }

  lemma SamePlace(s: State, s': State, t: nat, call: Call, mine: Share)
    requires t < |s.roles| == |s.sem.pcs| && t < |s'.roles| == |s'.sem.pcs|
    requires s'.roles[t] == s.roles[t] && s'.sem.pcs[t] == s.sem.pcs[t] && Doing(s, t, call, mine)
    ensures Doing(s', t, call, mine)
  {
  }

  /** In every run an enqueue of `n` elements adds `n` elements and `n` permits, and a dequeue ends with
      exactly as many elements as it was given permits: at most `max`, and at least one if it is untimed
      and `max > 0`. */
  lemma CallDoes(states: seq<State>, acts: seq<Act>, t: nat, i: nat, j: nat)
    requires WholeCall(states, acts, t, i, j)
    ensures Finished(acts[i].call, OwnShare(states, acts, t, i, j))
  {
    hide Step, Finished;
    InTheCall(states, acts, t, i, j, j);
  }

  // ----- calls that run alone -----

  /** Where the program is after `n` steps of thread `t` and of nobody else; the inner queue gives what it
      can. */
  ghost function After(s: State, t: nat, call: Call, n: nat): (s': State)
    requires Inv(s) && t < |s.roles|
    ensures Inv(s') && |s'.roles| == |s.roles|
  {
    if n == 0 then s
    else
      var before := After(s, t, call, n - 1);
      AloneKeeps(before, Act(t, call, before.enqueued, false));
      Step(before, Act(t, call, before.enqueued, false))
  }

  lemma AloneKeeps(s: State, a: Act)
    requires Inv(s) && a.t < |s.roles|
    ensures Inv(Step(s, a)) && |Step(s, a).roles| == |s.roles|
  {
    StepKeepsInv(s, a);
    hide Inv, S.Step;
  }

  lemma NextStep(s: State, t: nat, call: Call, n: nat)
    requires Inv(s) && t < |s.roles|
    ensures After(s, t, call, 0) == s
    ensures var before := After(s, t, call, n);
            Inv(before) && Shape(before) && |before.roles| == |s.roles| == |before.sem.pcs|
            && After(s, t, call, n + 1) == Step(before, Act(t, call, before.enqueued, false))
  {
    hide Step;
  }

  lemma OutIsIdle(s: State, t: nat)
    requires Inv(s) && t < |s.roles| && s.roles[t] == Out
    ensures Shape(s) && s.sem.pcs[t] == S.Idle
  {
    assert RoleOk(s.roles[t], s.sem.pcs[t]);
  }

  /** A dequeue that finds permits and runs alone has, after at most four steps, exactly as many elements
      as it wants and there are permits. */
  lemma LoneDequeue(s: State, t: nat, max: nat, mode: S.Mode)
    requires Inv(s) && t < |s.roles| && s.roles[t] == Out && s.sem.count > 0 && max > 0
    ensures var s' := After(s, t, Dequeue(max, mode), 4);
            var k := S.Available(s.sem.count, max);
            s'.roles == s.roles && s'.claimed == s.claimed + k && s'.sem.count == s.sem.count - k && s'.enqueued == s.enqueued
  {
    OutIsIdle(s, t);
    hide Inv, After, S.After, S.Step;
    var call, want := Dequeue(max, mode), S.Wait(max, mode);
    S.LoneWait(s.sem, t, max, mode);
    WaitsAlone(s, t, max, mode);
    var s3 := After(s, t, call, 3);
    NextStep(s, t, call, 3);
    HoldersHave(s3);
    SpinsAlone(s3, t, call);
    assert s.roles[t := s3.roles[t]][t := Out] == s.roles;
  }

  lemma SpinsAlone(s: State, t: nat, call: Call)
    requires Shape(s) && t < |s.roles| && s.roles[t].Spinning? && 0 < s.roles[t].max - s.roles[t].count <= s.enqueued - s.claimed
    ensures var s' := Step(s, Act(t, call, s.enqueued, false));
            s'.roles == s.roles[t := Out] && s'.claimed == s.claimed + s.roles[t].max - s.roles[t].count && s'.sem == s.sem && s'.enqueued == s.enqueued
  {
  }

  /** The steps of the semaphore. */
  lemma WaitsAlone(s: State, t: nat, max: nat, mode: S.Mode)
    requires Inv(s) && t < |s.roles| && s.roles[t] == Out && Shape(s) && s.sem.pcs[t] == S.Idle && s.sem.count > 0 && max > 0
    ensures var s3 := After(s, t, Dequeue(max, mode), 3);
            var k := S.Available(s.sem.count, max);
            && s3.roles == s.roles[t := Spinning(k, 0)] && s3.claimed == s.claimed && s3.enqueued == s.enqueued
            && s3.sem.count == s.sem.count - k
  {
    hide Inv, After;
    var call := Dequeue(max, mode);
    NextStep(s, t, call, 0);
    NextStep(s, t, call, 1);
    NextStep(s, t, call, 2);
  }

  lemma SignalsAlone(s: State, t: nat, call: Call, n: nat)
    requires Shape(s) && t < |s.roles| && s.roles[t] == Signalling && s.sem.pcs[t] == S.Signal(n)
    ensures var s' := Step(s, Act(t, call, s.enqueued, false));
            && s'.enqueued == s.enqueued && s'.claimed == s.claimed && s'.sem.count == s.sem.count + n && s'.sem.signalled == s.sem.signalled + n
            && t < |s'.sem.pcs|
            && if s.sem.count < 0 && n > 0 then s'.roles == s.roles && s'.sem.pcs[t].Post? else s'.roles == s.roles[t := Out]
  {
  }

  lemma PostsAlone(s: State, t: nat, call: Call)
    requires Shape(s) && t < |s.roles| && s.roles[t] == Signalling && s.sem.pcs[t].Post?
    ensures var s' := Step(s, Act(t, call, s.enqueued, false));
            && s'.enqueued == s.enqueued && s'.claimed == s.claimed && s'.sem.count == s.sem.count && s'.sem.signalled == s.sem.signalled
            && s'.roles == s.roles[t := Out]
  {
  }

  lemma StartsAlone(s: State, t: nat, n: nat)
    requires Shape(s) && t < |s.roles| && s.roles[t] == Out && s.sem.pcs[t] == S.Idle
    ensures var s' := Step(s, Act(t, Enqueue(n), s.enqueued, false));
            && s'.enqueued == s.enqueued + n && s'.claimed == s.claimed && s'.sem.count == s.sem.count && s'.sem.signalled == s.sem.signalled
            && s'.roles == s.roles[t := Signalling] && t < |s'.sem.pcs| && s'.sem.pcs[t] == S.Signal(n)
  {
  }

  /** An enqueue that runs alone is over after at most three steps; `n` elements and `n` permits more are
      there. */
  lemma LoneEnqueue(s: State, t: nat, n: nat) returns (k: nat)
    requires Inv(s) && t < |s.roles| && s.roles[t] == Out
    ensures 2 <= k <= 3
    ensures var s' := After(s, t, Enqueue(n), k);
            s'.roles == s.roles && s'.enqueued == s.enqueued + n && s'.claimed == s.claimed
            && s'.sem.count == s.sem.count + n && s'.sem.signalled == s.sem.signalled + n
  {
    OutIsIdle(s, t);
    hide Inv, After, Step, Shape;
    var call := Enqueue(n);
    NextStep(s, t, call, 0);
    StartsAlone(s, t, n);
    NextStep(s, t, call, 1);
    SignalsAlone(After(s, t, call, 1), t, call, n);
    assert s.roles[t := Signalling][t := Out] == s.roles;
    if s.sem.count < 0 && n > 0 {
      NextStep(s, t, call, 2);
      PostsAlone(After(s, t, call, 2), t, call);
      k := 3;
    } else {
      k := 2;
    }
  }
}
