/** The user-level semaphore: an atomic count in front of an ideal kernel semaphore, with the
    timeout path that takes a registered wait back.  Each atomic access or kernel call is one
    step of one thread.

    `wait` and `tryWait` are the `max == 1` cases of `waitMany` and `tryWaitMany`.  `initial`,
    `signalled`, `acquired` and `returned` are history: permits put in, posted by `signal`, taken
    by waits, and reported to callers by finished calls. */
module Semaphore {
  import opened Counting

  const SPINS: nat := 10000

  datatype Mode = TryOnly | Untimed | Timed

  datatype PC =
    | Idle
    | TryLoad(max: nat, got: nat, mode: Mode)
    | TryTake(max: nat, got: nat, mode: Mode, seen: int)
    | SpinLoad(max: nat, mode: Mode, spin: nat)
    | SpinTake(max: nat, mode: Mode, spin: nat, seen: int)
    | Register(max: nat, mode: Mode)
    | Asleep(max: nat, mode: Mode)
    | Rescue(max: nat)
    | RescueTake(max: nat)
    | RescueUndo(max: nat, seen: int)
    | Signal(n: nat)
    | Post(n: nat)

  datatype State = State(
    count: int,
    kernel: nat,
    pcs: seq<PC>,
    initial: nat,
    signalled: nat,
    acquired: nat,
    returned: nat)

  datatype Call = Wait(max: nat, mode: Mode) | Signals(n: nat)

  /** The next access of thread `t`.  An idle thread starts `call`; `fails` makes a weak exchange
      fail for no reason, or a timed kernel wait time out. */
  datatype Act = Act(t: nat, call: Call, fails: bool)

  function Min(a: int, b: int): int { if a < b then a else b }

  function Drain(seen: int, max: nat): int { if seen > max then seen - max else 0 }

  function Goto(s: State, t: nat, p: PC): State
    requires t < |s.pcs|
  {
    s.(pcs := s.pcs[t := p])
  }

  /** The call returns `result`. */
  function Return(s: State, t: nat, result: nat): State
    requires t < |s.pcs|
  {
    Goto(s, t, Idle).(returned := s.returned + result)
  }

  /** The test of the `tryWaitMany` loop, and what follows when it fails. */
  function AfterTry(s: State, t: nat, max: nat, got: nat, mode: Mode, seen: int): State
    requires t < |s.pcs|
  {
    if seen > 0 then Goto(s, t, TryTake(max, got, mode, seen))
    else if mode.TryOnly? || max == 0 then Return(s, t, got)
    else Goto(s, t, SpinLoad(max, mode, SPINS))
  }

  function AfterSpin(s: State, t: nat, max: nat, mode: Mode, spin: nat): State
    requires t < |s.pcs|
  {
    Goto(s, t, if spin <= 1 then Register(max, mode) else SpinLoad(max, mode, spin - 1))
  }

  /** One permit has been obtained by registering; the rest is taken greedily. */
  function GotOne(s: State, t: nat, max: nat): State
    requires t < |s.pcs|
  {
    var s' := s.(acquired := s.acquired + 1);
    if max > 1 then Goto(s', t, TryLoad(max - 1, 1, TryOnly)) else Return(s', t, 1)
  }

  function Step(s: State, a: Act): State
    requires a.t < |s.pcs|
  {
    var t := a.t;
    match s.pcs[t]
    case Idle =>
      (match a.call
       case Wait(max, mode) => Goto(s, t, TryLoad(max, 0, mode))
       case Signals(n) => Goto(s, t, Signal(n)))
    case TryLoad(max, got, mode) => AfterTry(s, t, max, got, mode, s.count)
    case TryTake(max, got, mode, seen) =>
      if a.fails || s.count != seen then AfterTry(s, t, max, got, mode, s.count)
      else
        var taken: nat := if seen > 0 then seen - Drain(seen, max) else 0;
        Return(s.(count := s.count - taken, acquired := s.acquired + taken), t, got + taken)
    case SpinLoad(max, mode, spin) =>
      if s.count > 0 then Goto(s, t, SpinTake(max, mode, spin, s.count))
      else AfterSpin(s, t, max, mode, spin)
    case SpinTake(max, mode, spin, seen) =>
      if s.count != seen then AfterSpin(s, t, max, mode, spin)
      else
        var taken: nat := if seen > 0 then seen - Drain(seen, max) else 0;
        Return(s.(count := s.count - taken, acquired := s.acquired + taken), t, taken)
    case Register(max, mode) =>
      var s' := s.(count := s.count - 1);
      if s.count > 0 then GotOne(s', t, max) else Goto(s', t, Asleep(max, mode))
    case Asleep(max, mode) =>
      if mode.Timed? && a.fails then Goto(s, t, Rescue(max))
      else if s.kernel > 0 then GotOne(s.(kernel := s.kernel - 1), t, max)
      else s  // still blocked
    case Rescue(max) =>
      Goto(s, t, if s.count >= 0 then RescueTake(max) else RescueUndo(max, s.count))
    case RescueTake(max) =>
      if s.kernel > 0 then GotOne(s.(kernel := s.kernel - 1), t, max) else Goto(s, t, Rescue(max))
    case RescueUndo(max, seen) =>
      if s.count == seen then Return(s.(count := s.count + 1), t, 0) else Goto(s, t, Rescue(max))
    case Signal(n) =>
      var release := Min(-s.count, n);
      var s' := s.(count := s.count + n, signalled := s.signalled + n);
      if release > 0 then Goto(s', t, Post(release)) else Return(s', t, 0)
    case Post(n) => Return(s.(kernel := s.kernel + n), t, 0)
  }

  predicate Init(s: State) {
    && s.count == s.initial && s.kernel == s.signalled == s.acquired == s.returned == 0
    && forall t :: 0 <= t < |s.pcs| ==> s.pcs[t] == Idle
  }

  // ----- the invariant -----

  /** Registered waiters: the count was lowered for them and not yet settled. */
  predicate Waiting(p: PC) { p.Asleep? || p.Rescue? || p.RescueTake? || p.RescueUndo? }

  function WaitingAs(): PC -> nat { p => if Waiting(p) then 1 else 0 }

  /** Posts decided on by `signal` but not yet made. */
  function PendingAs(): PC -> nat { (p: PC) => if p.Post? then p.n else 0 }

  /** Permits a call in progress has already obtained. */
  function GotAs(): PC -> nat { (p: PC) => if p.TryLoad? || p.TryTake? then p.got else 0 }

  function Waiters(s: State): nat { Sum(s.pcs, WaitingAs()) }

  function Pending(s: State): nat { Sum(s.pcs, PendingAs()) }

  predicate PcOk(p: PC) {
    && (p.TryTake? ==> p.seen > 0)
    && (p.SpinTake? ==> p.seen > 0)
    && (p.RescueUndo? ==> p.seen < 0)
    && ((p.TryLoad? || p.TryTake?) && !p.mode.TryOnly? ==> p.got == 0)
    && (p.SpinLoad? || p.SpinTake? || p.Register? || Waiting(p) ==> p.max > 0)
  }

  predicate Inv(s: State) {
    && (if s.count < 0 then -s.count else 0) + s.kernel + Pending(s) == Waiters(s)
    && s.initial + s.signalled == s.acquired + s.count + Waiters(s)
    && s.acquired == s.returned + Sum(s.pcs, GotAs())
    && (forall t :: 0 <= t < |s.pcs| ==> PcOk(s.pcs[t]))
  }

  // ----- preservation -----

  function Debt(count: int): nat { if count < 0 then -count else 0 }

  /** A step of `t` moves permits between the accounts without making or losing any. */
  predicate Balanced(s: State, s': State, t: nat)
    requires t < |s.pcs|
  {
    && |s'.pcs| == |s.pcs| && s'.pcs == s.pcs[t := s'.pcs[t]] && s'.initial == s.initial
    && PcOk(s'.pcs[t])
    && (var p, p' := s.pcs[t], s'.pcs[t];
        && Debt(s'.count) + s'.kernel + PendingAs()(p') + WaitingAs()(p) == Debt(s.count) + s.kernel + PendingAs()(p) + WaitingAs()(p')
        && s'.signalled - s'.acquired - s'.count - WaitingAs()(p') == s.signalled - s.acquired - s.count - WaitingAs()(p)
        && s'.acquired - s'.returned - GotAs()(p') == s.acquired - s.returned - GotAs()(p))
  }

  lemma BalancedKeepsInv(s: State, s': State, t: nat)
    requires Inv(s) && t < |s.pcs| && Balanced(s, s', t)
    ensures Inv(s')
    ensures Pending(s') + PendingAs()(s.pcs[t]) == Pending(s) + PendingAs()(s'.pcs[t])
  {
    SumUpdate(s.pcs, WaitingAs(), t, s'.pcs[t]);
    SumUpdate(s.pcs, PendingAs(), t, s'.pcs[t]);
    SumUpdate(s.pcs, GotAs(), t, s'.pcs[t]);
  }

  lemma TryBalanced(s: State, a: Act)
    requires a.t < |s.pcs| && PcOk(s.pcs[a.t])
    requires var p := s.pcs[a.t]; p.Idle? || p.TryLoad? || p.TryTake?
    ensures Balanced(s, Step(s, a), a.t)
  {
  }

  lemma SpinBalanced(s: State, a: Act)
    requires a.t < |s.pcs| && PcOk(s.pcs[a.t])
    requires var p := s.pcs[a.t]; p.SpinLoad? || p.SpinTake? || p.Register?
    ensures Balanced(s, Step(s, a), a.t)
  {
  }

  lemma WaitBalanced(s: State, a: Act)
    requires a.t < |s.pcs| && PcOk(s.pcs[a.t]) && Waiting(s.pcs[a.t])
    ensures Balanced(s, Step(s, a), a.t)
  {
  }

  lemma SignalBalanced(s: State, a: Act)
    requires a.t < |s.pcs| && PcOk(s.pcs[a.t]) && (s.pcs[a.t].Signal? || s.pcs[a.t].Post?)
    ensures Balanced(s, Step(s, a), a.t)
  {
  }

  lemma StepBalanced(s: State, a: Act)
    requires a.t < |s.pcs| && PcOk(s.pcs[a.t])
    ensures Balanced(s, Step(s, a), a.t)
  {
    var p := s.pcs[a.t];
    if p.Idle? || p.TryLoad? || p.TryTake? {
      TryBalanced(s, a);
    } else if p.SpinLoad? || p.SpinTake? || p.Register? {
      SpinBalanced(s, a);
    } else if Waiting(p) {
      WaitBalanced(s, a);
    } else {
      SignalBalanced(s, a);
    }
  }

  /** Every atomic access and kernel call of every thread keeps the accounts. */
  lemma StepKeepsInv(s: State, a: Act)
    requires Inv(s) && a.t < |s.pcs|
    ensures Inv(Step(s, a)) && |Step(s, a).pcs| == |s.pcs|
  {
    StepBalanced(s, a);
    BalancedKeepsInv(s, Step(s, a), a.t);
  }

  // ----- whole runs -----

  ghost predicate Run(states: seq<State>, acts: seq<Act>) {
    && |states| == |acts| + 1
    && Init(states[0])
    && forall i :: 0 <= i < |acts| ==> acts[i].t < |states[i].pcs| && states[i + 1] == Step(states[i], acts[i])
  }

  lemma {:induction false} NothingIn(pcs: seq<PC>)
    requires forall t :: 0 <= t < |pcs| ==> pcs[t] == Idle
    ensures Sum(pcs, WaitingAs()) == Sum(pcs, PendingAs()) == Sum(pcs, GotAs()) == 0
  {
    if pcs != [] { NothingIn(pcs[1..]); }
  }

  lemma {:induction false} RunKeepsInv(states: seq<State>, acts: seq<Act>, i: nat)
    requires Run(states, acts) && i < |states|
    ensures Inv(states[i])
  {
    if i == 0 {
      NothingIn(states[0].pcs);
    } else {
      RunKeepsInv(states, acts, i - 1);
      StepKeepsInv(states[i - 1], acts[i - 1]);
    }
  }

  /** Permits never come from nowhere: what was put in and not yet taken is exactly the positive
      part of the count, the kernel's count and the posts still to be made. */
  lemma PermitsAreConserved(states: seq<State>, acts: seq<Act>, i: nat)
    requires Run(states, acts) && i < |states|
    ensures var s := states[i];
            s.initial + s.signalled == s.acquired + (if s.count > 0 then s.count else 0) + s.kernel + Pending(s)
    ensures states[i].acquired <= states[i].initial + states[i].signalled
    ensures states[i].returned <= states[i].acquired
  {
    RunKeepsInv(states, acts, i);
  }

  /** A waiter that the kernel keeps blocked although no post is pending proves that every permit
      ever put in has been taken. */
  lemma BlockedOnlyWhenDrained(states: seq<State>, acts: seq<Act>, i: nat, t: nat)
    requires Run(states, acts) && i < |states| && t < |states[i].pcs|
    requires states[i].pcs[t].Asleep? && states[i].kernel == 0 && Pending(states[i]) == 0
    ensures states[i].acquired == states[i].initial + states[i].signalled
  {
    RunKeepsInv(states, acts, i);
    SumAtLeast(states[i].pcs, WaitingAs(), t);
  }

  /** The step that a thread takes when left alone. */
  function Alone(s: State, t: nat): State
    requires t < |s.pcs|
  {
    Step(s, Act(t, Signals(0), false))
  }

  lemma AloneKeeps(s: State, t: nat)
    requires Inv(s) && t < |s.pcs| && Waiting(s.pcs[t])
    ensures |Alone(s, t).pcs| == |s.pcs| && Inv(Alone(s, t))
    ensures !Alone(s, t).pcs[t].Post? ==> Pending(Alone(s, t)) == Pending(s)
  {
    StepBalanced(s, Act(t, Signals(0), false));
    BalancedKeepsInv(s, Alone(s, t), t);
  }

  /** The waiter left with a permit, or undid its registration. */
  predicate Left(s: State, s': State, t: nat)
    requires t < |s.pcs| == |s'.pcs|
  {
    && !Waiting(s'.pcs[t])
    && (s'.acquired == s.acquired + 1 || (s'.acquired == s.acquired && s'.pcs[t] == Idle && s'.count == s.count + 1))
  }

  lemma RescueLeaves(s: State, t: nat) returns (s': State)
    requires Inv(s) && t < |s.pcs| && Pending(s) == 0 && s.pcs[t].Rescue?
    ensures |Alone(s, t).pcs| == |s.pcs| && s' == Alone(Alone(s, t), t)
    ensures |s'.pcs| == |s.pcs| && Left(s, s', t)
  {
    AloneKeeps(s, t);
    var s1 := Alone(s, t);
    SumAtLeast(s1.pcs, WaitingAs(), t);
    AloneKeeps(s1, t);
    s' := Alone(s1, t);
  }

  /** A timed-out waiter can always leave once the pending posts are made: running alone it is
      out of the loop in at most three steps. */
  lemma TimedOutWaiterLeaves(s: State, t: nat) returns (run: seq<State>)
    requires Inv(s) && t < |s.pcs| && Pending(s) == 0
    requires s.pcs[t].Rescue? || s.pcs[t].RescueTake? || s.pcs[t].RescueUndo?
    ensures 2 <= |run| <= 4 && run[0] == s
    ensures forall i :: 0 <= i < |run| ==> |run[i].pcs| == |s.pcs|
    ensures forall i :: 0 <= i < |run| - 1 ==> run[i + 1] == Alone(run[i], t)
    ensures Left(s, run[|run| - 1], t)
  {
    if s.pcs[t].Rescue? {
      var s' := RescueLeaves(s, t);
      run := [s, Alone(s, t), s'];
    } else {
      AloneKeeps(s, t);
      var s1 := Alone(s, t);
      if s1.pcs[t].Rescue? {
        var s' := RescueLeaves(s1, t);
        run := [s, s1, Alone(s1, t), s'];
      } else {
        run := [s, s1];
      }
    }
  }

  // ----- what a call reports -----

  /** How many permits the call at `p` was asked for. */
  function Asked(p: PC): nat {
    match p
    case TryLoad(max, got, _) => got + max
    case TryTake(max, got, _, _) => got + max
    case SpinLoad(max, _, _) => max
    case SpinTake(max, _, _, _) => max
    case Register(max, _) => max
    case Asleep(max, _) => max
    case Rescue(max) => max
    case RescueTake(max) => max
    case RescueUndo(max, _) => max
    case _ => 0
  }

  predicate InWait(p: PC) { !p.Idle? && !p.Signal? && !p.Post? }

  /** The call at `p` may not come back empty-handed. */
  predicate Committed(p: PC) {
    && Asked(p) > 0
    && (((p.TryLoad? || p.TryTake?) && (p.got > 0 || p.mode.Untimed?))
        || ((p.SpinLoad? || p.SpinTake? || p.Register? || p.Asleep?) && p.mode.Untimed?))
  }

  /** What thread `t` may report while its call goes from `s` to `s'`. */
  predicate Reports(s: State, s': State, t: nat)
    requires t < |s.pcs|
  {
    && |s'.pcs| == |s.pcs| && s'.signalled == s.signalled
    && (var p, p' := s.pcs[t], s'.pcs[t];
        if p' == Idle then s.returned <= s'.returned <= s.returned + Asked(p) && (Committed(p) ==> s'.returned > s.returned)
        else InWait(p') && Asked(p') == Asked(p) && (Committed(p) ==> Committed(p')))
  }

  lemma FastResult(s: State, a: Act)
    requires a.t < |s.pcs| && PcOk(s.pcs[a.t])
    requires var p := s.pcs[a.t]; p.TryLoad? || p.TryTake? || p.SpinLoad? || p.SpinTake?
    ensures Reports(s, Step(s, a), a.t)
  {
  }

  lemma SlowResult(s: State, a: Act)
    requires a.t < |s.pcs| && PcOk(s.pcs[a.t])
    requires s.pcs[a.t].Register? || Waiting(s.pcs[a.t])
    ensures Reports(s, Step(s, a), a.t)
  {
  }

  /** One step of a call: it stays in the call, with what it was asked for, or it reports. */
  lemma CallResult(s: State, a: Act)
    requires a.t < |s.pcs| && PcOk(s.pcs[a.t]) && InWait(s.pcs[a.t])
    ensures Reports(s, Step(s, a), a.t)
  {
    hide Step, Reports;
    var p := s.pcs[a.t];
    if p.TryLoad? || p.TryTake? || p.SpinLoad? || p.SpinTake? {
      FastResult(s, a);
    } else {
      SlowResult(s, a);
    }
  }

  /** From step `i` to step `j` thread `t` makes one call for `max` permits. */
  ghost predicate WholeCall(states: seq<State>, acts: seq<Act>, t: nat, i: nat, j: nat, max: nat, mode: Mode) {
    && Run(states, acts) && i < j < |acts| && acts[i].t == acts[j].t == t && acts[i].call == Wait(max, mode)
    && (forall k :: 0 <= k < |states| ==> t < |states[k].pcs|)
    && states[i].pcs[t] == states[j + 1].pcs[t] == Idle
    && (forall k :: i < k <= j ==> states[k].pcs[t] != Idle)
  }

  /** Where the call is in between. */
  lemma {:induction false} InTheCall(states: seq<State>, acts: seq<Act>, t: nat, i: nat, j: nat, max: nat, mode: Mode, k: nat)
    requires WholeCall(states, acts, t, i, j, max, mode) && i < k <= j
    ensures InWait(states[k].pcs[t]) && Asked(states[k].pcs[t]) == max
    ensures mode.Untimed? && max > 0 ==> Committed(states[k].pcs[t])
    decreases k - i
  {
    hide Inv, Asked, Committed, InWait, Step;
    var s, a := states[k - 1], acts[k - 1];
    assert states[k] == Step(s, a);
    if k == i + 1 {
      CallStarts(s, a, max, mode);
    } else {
      InTheCall(states, acts, t, i, j, max, mode, k - 1);
      if a.t == t {
        RunKeepsInv(states, acts, k - 1);
        PcFromInv(s, t);
        CallResult(s, a);
      } else {
        OthersStay(s, a, t);
      }
    }
  }

  lemma CallStarts(s: State, a: Act, max: nat, mode: Mode)
    requires a.t < |s.pcs| && s.pcs[a.t] == Idle && a.call == Wait(max, mode)
    ensures var s' := Step(s, a);
            && a.t < |s'.pcs| && InWait(s'.pcs[a.t]) && Asked(s'.pcs[a.t]) == max
            && (mode.Untimed? && max > 0 ==> Committed(s'.pcs[a.t]))
  {
  }

  lemma PcFromInv(s: State, t: nat)
    requires Inv(s) && t < |s.pcs|
    ensures PcOk(s.pcs[t])
  {
  }

  lemma OthersStay(s: State, a: Act, t: nat)
    requires a.t < |s.pcs| && t < |s.pcs| && a.t != t
    ensures t < |Step(s, a).pcs| && Step(s, a).pcs[t] == s.pcs[t]
  {
    hide Drain, Min;
  }

  /** In every run a call for `max` permits reports at most `max`; an untimed call reports none if and
      only if `max` was 0, so that the assertion of `waitMany` holds exactly when `max > 0`. */
  lemma CallReports(states: seq<State>, acts: seq<Act>, t: nat, i: nat, j: nat, max: nat, mode: Mode)
    requires WholeCall(states, acts, t, i, j, max, mode)
    ensures states[j].returned <= states[j + 1].returned <= states[j].returned + max
    ensures mode.Untimed? ==> (states[j + 1].returned == states[j].returned <==> max == 0)
  {
    hide Inv, Asked, Committed, InWait, Step;
    InTheCall(states, acts, t, i, j, max, mode, j);
    RunKeepsInv(states, acts, j);
    PcFromInv(states[j], t);
    CallResult(states[j], acts[j]);
    assert states[j + 1] == Step(states[j], acts[j]);
  }

  /** The input at which the assertion fails: an untimed call for no permits, in any state, reports
      none after at most three steps. */
  lemma ZeroCallFails(s: State, t: nat) returns (n: nat)
    requires t < |s.pcs| && s.pcs[t] == Idle
    ensures 2 <= n <= 3
    ensures var s1 := Step(s, Act(t, Wait(0, Untimed), false));
            && |s1.pcs| == |s.pcs| && |Alone(s1, t).pcs| == |s.pcs|
            && (var s' := if n == 2 then Alone(s1, t) else Alone(Alone(s1, t), t);
                s1.pcs[t] != Idle && (n == 3 ==> Alone(s1, t).pcs[t] != Idle)
                && s'.pcs == s.pcs && s'.returned == s.returned && s'.count == s.count)
  {
    n := if s.count > 0 then 3 else 2;
  }

  /** Where a call that only tries is until it reports. */
  predicate Trying(p: PC, max: nat) {
    (p.TryLoad? || p.TryTake?) && p.max == max && p.got == 0 && p.mode.TryOnly? && (p.TryTake? ==> p.seen > 0)
  }

  lemma TryStep(s: State, a: Act, max: nat)
    requires a.t < |s.pcs| && Trying(s.pcs[a.t], max)
    ensures var s' := Step(s, a);
            if s'.pcs[a.t] == Idle then s'.returned - s.returned == Available(s.count, max) == s.count - s'.count
            else Trying(s'.pcs[a.t], max) && s'.returned == s.returned
  {
  }

  /** As many permits as are asked for and there. */
  function Available(count: int, max: nat): nat { if count <= 0 then 0 else if count < max then count else max }

  lemma {:induction false} InTheTry(states: seq<State>, acts: seq<Act>, t: nat, i: nat, j: nat, max: nat, k: nat)
    requires WholeCall(states, acts, t, i, j, max, TryOnly) && i < k <= j
    ensures Trying(states[k].pcs[t], max)
    decreases k - i
  {
    hide Trying;
    var s, a := states[k - 1], acts[k - 1];
    assert states[k] == Step(s, a);
    if k == i + 1 {
      TryStarts(s, a, max);
    } else {
      InTheTry(states, acts, t, i, j, max, k - 1);
      hide Step;
      if a.t == t {
        TryStep(s, a, max);
      } else {
        OthersStay(s, a, t);
      }
    }
  }

  lemma TryStarts(s: State, a: Act, max: nat)
    requires a.t < |s.pcs| && s.pcs[a.t] == Idle && a.call == Wait(max, TryOnly)
    ensures Trying(Step(s, a).pcs[a.t], max)
  {
  }

  /** In every run `tryWaitMany` takes, in its last step, exactly the permits that are there at that
      moment, as many as it was asked for; so it comes back without any only if there is none then. */
  lemma TryTakesWhatIsThere(states: seq<State>, acts: seq<Act>, t: nat, i: nat, j: nat, max: nat)
    requires WholeCall(states, acts, t, i, j, max, TryOnly)
    ensures states[j + 1].returned - states[j].returned == Available(states[j].count, max) == states[j].count - states[j + 1].count
  {
    hide Step, Trying;
    InTheTry(states, acts, t, i, j, max, j);
    TryStep(states[j], acts[j], max);
    assert states[j + 1] == Step(states[j], acts[j]);
  }

  // ----- calls that run alone -----

  /** Where the program is after `n` steps of thread `t`, which has started `call`, and of nobody else;
      no weak exchange fails for no reason and no wait times out. */
  function After(s: State, t: nat, call: Call, n: nat): (s': State)
    requires t < |s.pcs|
    ensures |s'.pcs| == |s.pcs|
  {
    if n == 0 then s
    else
      var before := After(s, t, call, n - 1);
      SameThreads(before, Act(t, call, false));
      Step(before, Act(t, call, false))
  }

  lemma SameThreads(s: State, a: Act)
    requires a.t < |s.pcs|
    ensures |Step(s, a).pcs| == |s.pcs|
  {
    hide Drain, Min;
  }

  lemma NextStep(s: State, t: nat, call: Call, n: nat)
    requires t < |s.pcs|
    ensures After(s, t, call, 0) == s && |After(s, t, call, n).pcs| == |s.pcs|
    ensures After(s, t, call, n + 1) == Step(After(s, t, call, n), Act(t, call, false))
  {
    hide Step;
  }

  /** Any wait that finds permits and runs alone takes as many as it wants and there are. */
  lemma LoneWait(s: State, t: nat, max: nat, mode: Mode)
    requires t < |s.pcs| && s.pcs[t] == Idle && s.count > 0
    ensures After(s, t, Wait(max, mode), 1).pcs[t] != Idle && After(s, t, Wait(max, mode), 2).pcs[t] != Idle
    ensures var k := Available(s.count, max);
            After(s, t, Wait(max, mode), 3) == s.(count := s.count - k, acquired := s.acquired + k, returned := s.returned + k)
  {
    hide After;
    var call := Wait(max, mode);
    NextStep(s, t, call, 0);
    NextStep(s, t, call, 1);
    NextStep(s, t, call, 2);
    assert s.pcs[t := Idle] == s.pcs;
  }

  /** A try that finds none and runs alone reports none and changes nothing. */
  lemma LoneTry(s: State, t: nat, max: nat)
    requires t < |s.pcs| && s.pcs[t] == Idle && s.count <= 0
    ensures After(s, t, Wait(max, TryOnly), 1).pcs[t] != Idle && After(s, t, Wait(max, TryOnly), 2) == s
  {
    hide After;
    var call := Wait(max, TryOnly);
    NextStep(s, t, call, 0);
    NextStep(s, t, call, 1);
    assert s.pcs[t := Idle] == s.pcs;
  }

  /** The spinning loop while there are no permits. */
  lemma {:induction false} SpinsOn(s: State, t: nat, max: nat, mode: Mode, n: nat)
    requires t < |s.pcs| && s.pcs[t] == Idle && s.count <= 0 && max > 0 && !mode.TryOnly? && n < SPINS
    ensures After(s, t, Wait(max, mode), n + 2) == Goto(s, t, SpinLoad(max, mode, SPINS - n))
  {
    hide After;
    var call := Wait(max, mode);
    if n == 0 {
      NextStep(s, t, call, 0);
      NextStep(s, t, call, 1);
    } else {
      SpinsOn(s, t, max, mode, n - 1);
      NextStep(s, t, call, n + 1);
    }
  }

  /** A wait that finds none and runs alone looks ten thousand times more, and is then registered. */
  lemma LoneSleep(s: State, t: nat, max: nat, mode: Mode)
    requires t < |s.pcs| && s.pcs[t] == Idle && s.count <= 0 && max > 0 && !mode.TryOnly?
    ensures After(s, t, Wait(max, mode), SPINS + 3) == Goto(s, t, Asleep(max, mode)).(count := s.count - 1)
  {
    hide After;
    var call := Wait(max, mode);
    SpinsOn(s, t, max, mode, SPINS - 1);
    NextStep(s, t, call, SPINS + 1);
    NextStep(s, t, call, SPINS + 2);
    assert s.pcs[t := SpinLoad(max, mode, 1)][t := Register(max, mode)] == s.pcs[t := Register(max, mode)];
    assert s.pcs[t := Register(max, mode)][t := Asleep(max, mode)] == s.pcs[t := Asleep(max, mode)];
  }

  /** A registered waiter for which the kernel has a post comes back, alone, in at most three steps: with
      the permit it waited for and, if it wants more, with what is there. */
  lemma WokenReports(s: State, t: nat, call: Call) returns (n: nat)
    requires t < |s.pcs| && s.pcs[t].Asleep? && s.pcs[t].max > 0 && s.kernel > 0
    ensures 0 < n <= 3
    ensures var s' := After(s, t, call, n);
            s'.pcs[t] == Idle && s'.kernel == s.kernel - 1 && s'.returned == s.returned + 1 + Available(s.count, s.pcs[t].max - 1)
  {
    hide After;
    NextStep(s, t, call, 0);
    NextStep(s, t, call, 1);
    NextStep(s, t, call, 2);
    n := if s.pcs[t].max == 1 then 1 else if s.count > 0 then 3 else 2;
  }

  /** A timed waiter whose kernel wait runs out while nothing was posted for it takes its registration back,
      alone, in two more steps: the call reports none and the count is what it was before. */
  lemma LoneTimeout(s: State, t: nat, call: Call)
    requires t < |s.pcs| && s.pcs[t].Asleep? && s.pcs[t].mode.Timed? && s.count < 0
    ensures var s1 := Step(s, Act(t, call, true));
            t < |s1.pcs| && s1.pcs[t] != Idle
            && After(s1, t, call, 2) == Goto(s.(count := s.count + 1), t, Idle)
  {
    hide After;
    var s1 := Step(s, Act(t, call, true));
    NextStep(s1, t, call, 0);
    NextStep(s1, t, call, 1);
    assert s.pcs[t := Rescue(s.pcs[t].max)][t := Idle] == s.pcs[t := Idle];
  }

  /** `signal` run alone raises the count by what it is given, and posts for every waiter that this
      reaches: no fewer and no more. */
  lemma LoneSignal(s: State, t: nat, k: nat) returns (n: nat)
    requires t < |s.pcs| && s.pcs[t] == Idle
    ensures 2 <= n <= 3 && forall m: nat :: 0 < m < n ==> After(s, t, Signals(k), m).pcs[t] != Idle
    ensures After(s, t, Signals(k), n)
         == s.(count := s.count + k, signalled := s.signalled + k, kernel := s.kernel + if Debt(s.count) < k then Debt(s.count) else k)
  {
    hide After;
    NextStep(s, t, Signals(k), 0);
    NextStep(s, t, Signals(k), 1);
    NextStep(s, t, Signals(k), 2);
    assert s.pcs[t := Idle] == s.pcs;
    n := if Debt(s.count) > 0 && k > 0 then 3 else 2;
  }
}
