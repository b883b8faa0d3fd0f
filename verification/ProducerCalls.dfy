/** What a call of `get_or_add_implicit_producer` comes to: it fails only when an allocation does, and
    a call that runs alone ends with a producer and its thread's key in the newest table. */
module ProducerCalls {
  import opened Wrappers
  import opened Probing
  import opened ProducerTable

  // ----- failing -----

  /** The next step of `t` asks for memory: for a bigger table or for a producer. */
  predicate Asks(s: State, t: nat)
    requires Shape(s) && t < |s.pcs|
  {
    var p := s.pcs[t];
    p.Alloc? || (p.Admit? && p.num < Room(Capacity(s, p.main)))
  }

  predicate GivingUp(p: PC) { p.FailSub? || p.FailClear? || p == Return(None) }

  /** From step `i` on thread `t` makes one call, which has a result in state `j`. */
  ghost predicate Call(states: seq<State>, acts: seq<Act>, t: nat, i: nat, j: nat) {
    && Run(states, acts) && i < j <= |acts| && acts[i].t == t
    && (forall k :: 0 <= k < |states| ==> Shape(states[k]) && t < |states[k].pcs|)
    && states[i].pcs[t] == Idle && states[j].pcs[t].Return?
    && (forall k :: i < k < j ==> states[k].pcs[t] != Idle && !states[k].pcs[t].Return?)
  }

  /** One step of the call gives up only by a failing allocation. */
  lemma GivesUpByFailing(s: State, a: Act)
    requires Shape(s) && a.t < |s.pcs| && !s.pcs[a.t].Return?
    ensures var p, p' := s.pcs[a.t], Step(s, a).pcs[a.t];
            GivingUp(p') ==> GivingUp(p) || (a.fails && Asks(s, a.t))
  {
    hide Enlarge, Slot, Half, Room, Without;
  }

  lemma SearchStays(s: State, a: Act)
    requires Shape(s) && a.t < |s.pcs| && (s.pcs[a.t].Search? || s.pcs[a.t].Alloc? || s.pcs[a.t].Admit? || s.pcs[a.t].FailSub?)
    ensures |Step(s, a).pcs| == |s.pcs| && Step(s, a).pcs == s.pcs[a.t := Step(s, a).pcs[a.t]]
  {
    hide Enlarge, Slot, Half, Room, Without, Shape;
  }

  lemma PlaceStays(s: State, a: Act)
    requires Shape(s) && a.t < |s.pcs| && !(s.pcs[a.t].Search? || s.pcs[a.t].Alloc? || s.pcs[a.t].Admit? || s.pcs[a.t].FailSub?)
    ensures |Step(s, a).pcs| == |s.pcs| && Step(s, a).pcs == s.pcs[a.t := Step(s, a).pcs[a.t]]
  {
    hide Slot, Half, SearchStep, AllocStep, AdmitStep, FailSubStep;
  }

  lemma OnlyOwn(s: State, a: Act)
    requires Shape(s) && a.t < |s.pcs|
    ensures |Step(s, a).pcs| == |s.pcs| && Step(s, a).pcs == s.pcs[a.t := Step(s, a).pcs[a.t]]
  {
    hide Step, Shape;
    if s.pcs[a.t].Search? || s.pcs[a.t].Alloc? || s.pcs[a.t].Admit? || s.pcs[a.t].FailSub? {
      SearchStays(s, a);
    } else {
      PlaceStays(s, a);
    }
  }

  lemma {:induction false} GivingUpSince(states: seq<State>, acts: seq<Act>, t: nat, i: nat, j: nat, k: nat)
    requires Call(states, acts, t, i, j) && i <= k <= j && GivingUp(states[k].pcs[t])
    ensures exists m :: i <= m < k && acts[m].t == t && acts[m].fails && Asks(states[m], t)
    decreases k - i
  {
    hide Step, Shape, Init, GivingUp, Asks;
    if k == i {
      assert !GivingUp(Idle) by { IdleIsNot(); }
    } else {
      var s, a := states[k - 1], acts[k - 1];
      assert Next(s, a, states[k]);
      if a.t == t {
        GivesUpByFailing(s, a);
      } else {
        OnlyOwn(s, a);
      }
      if GivingUp(s.pcs[t]) { GivingUpSince(states, acts, t, i, j, k - 1); }
    }
  }

  lemma IdleIsNot()
    ensures !GivingUp(Idle)
  {
  }

  /** In every run a call returns no producer only if an allocation it asked for failed. */
  lemma FailsOnlyWithoutMemory(states: seq<State>, acts: seq<Act>, t: nat, i: nat, j: nat)
    requires Call(states, acts, t, i, j) && states[j].pcs[t].r == None
    ensures exists m :: i <= m < j && acts[m].t == t && acts[m].fails && Asks(states[m], t)
  {
    GivingUpSince(states, acts, t, i, j, j);
  }

  // ----- making the table bigger -----

  /** Whoever is about to allocate a table found the newest at least half full. */
  ghost predicate HalfFull(s: State) {
    forall t :: 0 <= t < |s.pcs| && s.pcs[t].Alloc? ==> s.pcs[t].main < |s.tables| && 2 * s.pcs[t].num + 1 >= |s.tables[s.pcs[t].main].keys|
  }

  lemma TablesStay(s: State, a: Act)
    requires Shape(s) && a.t < |s.pcs|
    ensures |s.tables| <= |Step(s, a).tables|
    ensures forall h :: 0 <= h < |s.tables| ==> |Step(s, a).tables[h].keys| == |s.tables[h].keys|
  {
    hide Enlarge, Slot, Half, Room, Without;
  }

  lemma HalfFullStays(s: State, a: Act)
    requires Shape(s) && a.t < |s.pcs| && HalfFull(s)
    ensures HalfFull(Step(s, a))
  {
    var s' := Step(s, a);
    TablesStay(s, a);
    forall t | 0 <= t < |s'.pcs| && s'.pcs[t].Alloc?
      ensures s'.pcs[t].main < |s'.tables| && 2 * s'.pcs[t].num + 1 >= |s'.tables[s'.pcs[t].main].keys|
    {
      OnlyOwn(s, a);
      if t == a.t { AllocFrom(s, a); }
    }
  }

  lemma AllocFrom(s: State, a: Act)
    requires Shape(s) && a.t < |s.pcs| && a.t < |Step(s, a).pcs| && Step(s, a).pcs[a.t].Alloc?
    ensures var p := Step(s, a).pcs[a.t];
            p.main == |s.tables| - 1 && p.num >= |s.tables[p.main].keys| / 2
  {
    hide Enlarge, Slot, Room, Without;
  }

  lemma {:induction false} RunsHalfFull(states: seq<State>, acts: seq<Act>, i: nat)
    requires Run(states, acts) && i < |states|
    ensures HalfFull(states[i])
  {
    hide Step, Shape;
    if i > 0 {
      RunsHalfFull(states, acts, i - 1);
      assert Next(states[i - 1], acts[i - 1], states[i]);
      HalfFullStays(states[i - 1], acts[i - 1]);
    }
  }

  /** The size is doubled as often as it takes and no more. */
  lemma {:induction false} EnlargeLeast(size: nat, num: nat)
    requires size >= 2
    ensures num < Enlarge(size, num) / 2 && (Enlarge(size, num) == size || num >= Enlarge(size, num) / 4)
    decreases if num >= size / 2 then num - size / 2 + 1 else 0
  {
    if num >= size / 2 { EnlargeLeast(2 * size, num); }
  }

  /** In every run a table is added only when the count has reached half of the newest one; the new one is
      at least twice as big, the count is less than half of it, and no smaller one would do. */
  lemma GrowsWhenHalfFull(states: seq<State>, acts: seq<Act>, i: nat)
    requires Run(states, acts) && i < |acts| && |states[i + 1].tables| > |states[i].tables|
    ensures var s, s', t := states[i], states[i + 1], acts[i].t;
            && |s'.tables| == |s.tables| + 1 && t < |s.pcs| && s.pcs[t].Alloc?
            && (var num, old', new' := s.pcs[t].num, |s.tables[|s.tables| - 1].keys|, |s'.tables[|s.tables|].keys|;
                num >= old' / 2 && new' >= 2 * old' && num < new' / 2 && (new' == 2 * old' || num >= new' / 4))
  {
    hide Inv, Shape, Init, Step;
    RunsHalfFull(states, acts, i);
    RunKeepsInv(states, acts, i);
    var s, a := states[i], acts[i];
    assert Next(s, a, states[i + 1]);
    OnlyAllocAdds(s, a);
    AllocAtNewest(s, a.t);
    EnlargeLeast(2 * |s.tables[s.pcs[a.t].main].keys|, s.pcs[a.t].num);
    EnlargeEnough(2 * |s.tables[s.pcs[a.t].main].keys|, s.pcs[a.t].num);
  }

  lemma AllocAtNewest(s: State, t: nat)
    requires Inv(s) && t < |s.pcs| && s.pcs[t].Alloc?
    ensures s.pcs[t].main == |s.tables| - 1 && |s.tables[s.pcs[t].main].keys| > 0
  {
    InvShape(s);
    assert PcOk(s.pcs[t], t, s.tables, s.lock, s.hashes[t], t in s.tickets, s.num[t], s.got[t]);
  }

  lemma OnlyAllocAdds(s: State, a: Act)
    requires Shape(s) && a.t < |s.pcs| && |Step(s, a).tables| > |s.tables|
    ensures s.pcs[a.t].Alloc? && s.pcs[a.t].main < |s.tables|
    ensures |Step(s, a).tables| == |s.tables| + 1
    ensures |s.tables[s.pcs[a.t].main].keys| > 0
    ensures |Step(s, a).tables[|s.tables|].keys| == Enlarge(2 * |s.tables[s.pcs[a.t].main].keys|, s.pcs[a.t].num)
  {
    hide Enlarge, Slot, Half, Room, Without;
  }

  // ----- a call that runs alone -----

  /** The table that the thread works on is the newest, there is room where it is admitted, and nobody
      else holds the lock. */
  ghost predicate Alone(s: State, t: nat)
    requires Shape(s) && t < |s.pcs|
  {
    var p, newest := s.pcs[t], |s.tables| - 1;
    && !GivingUp(p)
    && (if HasLock(p) then s.lock == Some(t) else s.lock == None)
    && (p.Search? || p.Count? || p.Check? || p.Alloc? || p.Unlock? || p.Admit? || p.Place? || p.PlaceCas? || p.PlaceSet? ==> p.main == newest)
    && (p.Unlock? || p.Admit? ==> p.num < Room(|s.tables[newest].keys|))
    && (p.Return? ==> !Absent(s.tables[newest].keys, t))
  }

  /** How many slots the first `h` tables have. */
  function Slots(tables: seq<Table>, h: nat): nat
    requires h <= |tables|
  {
    if h == 0 then 0 else Slots(tables, h - 1) + |tables[h - 1].keys|
  }

  function Minus(a: nat, b: nat): nat { if b <= a then a - b else 0 }

  /** Steps from admission on, in a table of the given size. */
  function AdmitWork(size: nat): nat { 2 * size + 2 }

  /** Steps from the check on. */
  function CheckWork(size: nat, num: nat): nat {
    if num >= Half(size) && size > 0 then AdmitWork(Enlarge(2 * size, num)) + 4 else AdmitWork(size) + 4
  }

  /** The most steps that thread `t` can need until it has a result. */
  function Work(s: State, t: nat): nat
    requires Shape(s) && t < |s.pcs|
  {
    var size, num: nat := |s.tables[|s.tables| - 1].keys|, if s.count + 1 >= 0 then s.count + 1 else 0;
    match s.pcs[t]
    case Idle => Slots(s.tables, |s.tables|) + CheckWork(size, num) + 2
    case Search(_, h, d) => Slots(s.tables, h) + Minus(|s.tables[h].keys|, d) + CheckWork(size, num) + 1
    case Count(_) => CheckWork(size, num) + 1
    case Check(_, n) => CheckWork(size, n)
    case Locked(n) => CheckWork(size, n) - 1
    case Alloc(_, n) => AdmitWork(Enlarge(2 * size, n)) + 2
    case Unlock(_, _) => AdmitWork(size) + 1
    case Admit(_, _) => AdmitWork(size)
    case Place(_, _, d) => 2 * Minus(size, d) + 1
    case PlaceCas(_, _, d) => 2 * Minus(size, d)
    case PlaceSet(_, _, _) => 1
    case _ => 0
  }

  /** The next step of `t` when no allocation fails. */
  function Own(s: State, t: nat): State
    requires Shape(s) && t < |s.pcs|
  {
    Step(s, Act(t, false))
  }

  lemma ProbeBelow(s: State, t: nat)
    requires Inv(s) && t < |s.pcs|
    ensures var p := s.pcs[t];
            && (p.Search? ==> p.h <= p.main < |s.tables| && p.d < |s.tables[p.h].keys|)
            && (p.Place? || p.PlaceCas? ==> p.main < |s.tables| && p.d < |s.tables[p.main].keys|)
  {
    hide AbsentAfter, PresentUpTo, Slot, Passed, KeyOk, Absent, ReachOk, Distinct, ChainOk, GotOk;
    var p := s.pcs[t];
    assert PcOk(p, t, s.tables, s.lock, s.hashes[t], t in s.tickets, s.num[t], s.got[t]);
    if p.Search? {
      assert TableOk(s.tables[p.h], p.h, s.pcs, s.hashes, s.tickets, s.num, s.got);
      NeverAround(s.tables[p.h], p.h, s.pcs, s.hashes, s.tickets, s.num, s.got, s.count, s.hashes[t], p.d, t);
    } else if p.Place? || p.PlaceCas? {
      assert TableOk(s.tables[p.main], p.main, s.pcs, s.hashes, s.tickets, s.num, s.got);
      NeverAround(s.tables[p.main], p.main, s.pcs, s.hashes, s.tickets, s.num, s.got, s.count, s.hashes[t], p.d, t);
    }
  }

  /** What the invariant says about the chain, the count and the value a thread is placing. */
  lemma InvFacts(s: State, t: nat)
    requires Inv(s) && t < |s.pcs|
    ensures Shape(s) && s.count >= 0
    ensures forall h :: 0 <= h < |s.tables| ==> s.tables[h].prev == if h == 0 then None else Some(h - 1)
    ensures s.pcs[t].Return? ==> t < |s.got| && s.pcs[t].r == s.got[t]
    ensures s.pcs[t].PlaceSet? ==> KeyAt(s.tables[s.pcs[t].main], s.pcs[t].slot) == Some(t)
  {
    InvShape(s);
    hide AbsentAfter, PresentUpTo, Slot, Passed, KeyOk, Absent, ReachOk, Distinct, GotOk, TablesOk;
    assert PcOk(s.pcs[t], t, s.tables, s.lock, s.hashes[t], t in s.tickets, s.num[t], s.got[t]);
  }

  predicate Sound(s: State, t: nat) {
    Shape(s) && t < |s.pcs| && Shape(Own(s, t)) && |Own(s, t).pcs| == |s.pcs|
  }

  /** The step keeps the thread alone and brings it nearer to its result. */
  ghost predicate Advances(s: State, t: nat)
    requires Sound(s, t)
  {
    Alone(Own(s, t), t) && Work(Own(s, t), t) < Work(s, t)
  }

  lemma SlotInTable(s: State, t: nat)
    requires Shape(s) && t < |s.pcs| && s.pcs[t].Search?
    ensures var p := s.pcs[t]; Slot(s.hashes[t], p.d, |s.tables[p.h].keys|) < |s.tables[p.h].keys|
  {
    SlotBelow(s.hashes[t], s.pcs[t].d, |s.tables[s.pcs[t].h].keys|);
  }

  lemma SearchAdvances(s: State, t: nat)
    requires Sound(s, t) && Alone(s, t) && s.pcs[t].Search? && s.pcs[t].d < |s.tables[s.pcs[t].h].keys| && s.pcs[t].h <= s.pcs[t].main
    requires s.tables[s.pcs[t].h].prev == (if s.pcs[t].h == 0 then None else Some(s.pcs[t].h - 1))
    ensures Advances(s, t)
  {
    hide Enlarge, Slot, Half, Room, CheckWork;
    SlotInTable(s, t);
    CheckAtLeast(|s.tables[|s.tables| - 1].keys|, if s.count + 1 >= 0 then s.count + 1 else 0);
    if Own(s, t).pcs[t].Return? {
      var tb := s.tables[|s.tables| - 1];
      assert tb.keys[Slot(s.hashes[t], s.pcs[t].d, |tb.keys|)] == Some(t);
    }
  }

  lemma CheckAtLeast(size: nat, num: nat)
    requires size > 0
    ensures CheckWork(size, num) >= AdmitWork(size) + 4
  {
    hide Enlarge;
    EnlargeEnough(2 * size, num);
  }

  lemma StartAdvances(s: State, t: nat)
    requires Sound(s, t) && Alone(s, t) && s.count >= 0 && (s.pcs[t].Idle? || s.pcs[t].Count? || s.pcs[t].Unlock?)
    ensures Advances(s, t)
  {
    hide Enlarge, Slot, Half, Room, CheckWork;
  }

  lemma CheckAdvances(s: State, t: nat)
    requires Sound(s, t) && Alone(s, t) && (s.pcs[t].Check? || s.pcs[t].Locked?)
    ensures Advances(s, t)
  {
    hide Enlarge, Slot, Absent;
  }

  lemma AllocAdvances(s: State, t: nat)
    requires Sound(s, t) && Alone(s, t) && s.pcs[t].Alloc?
    ensures Advances(s, t)
  {
    var size := |s.tables[|s.tables| - 1].keys|;
    EnlargeEnough(2 * size, s.pcs[t].num);
    hide Enlarge, Slot, Absent;
  }

  lemma PlaceAdvances(s: State, t: nat)
    requires Sound(s, t) && Alone(s, t) && (s.pcs[t].Admit? || s.pcs[t].Place? || s.pcs[t].PlaceCas? || s.pcs[t].PlaceSet?)
    requires s.pcs[t].Place? || s.pcs[t].PlaceCas? ==> s.pcs[t].d < |s.tables[s.pcs[t].main].keys|
    requires s.pcs[t].PlaceSet? ==> KeyAt(s.tables[s.pcs[t].main], s.pcs[t].slot) == Some(t)
    ensures Advances(s, t)
  {
    hide Enlarge, Slot, Half, Room, CheckWork;
  }

  /** Every step of a call that runs alone brings it nearer to its result. */
  lemma OwnStepAdvances(s: State, t: nat)
    requires Inv(s) && Shape(s) && t < |s.pcs| && Alone(s, t) && !s.pcs[t].Return?
    ensures Inv(Own(s, t)) && Sound(s, t) && Advances(s, t)
  {
    hide Inv, Shape, Step, Work, Alone, Advances;
    StepKeepsInv(s, Act(t, false));
    InvShape(Own(s, t));
    OnlyOwn(s, Act(t, false));
    InvFacts(s, t);
    ProbeBelow(s, t);
    var p := s.pcs[t];
    if p.Search? {
      SearchAdvances(s, t);
    } else if p.Idle? || p.Count? || p.Unlock? {
      StartAdvances(s, t);
    } else if p.Check? || p.Locked? {
      CheckAdvances(s, t);
    } else if p.Alloc? {
      AllocAdvances(s, t);
    } else {
      NotGivingUp(s, t);
      PlaceAdvances(s, t);
    }
  }

  lemma NotGivingUp(s: State, t: nat)
    requires Shape(s) && t < |s.pcs| && Alone(s, t)
    ensures !s.pcs[t].FailSub? && !s.pcs[t].FailClear?
  {
  }

  /** Where the program is after `n` steps of thread `t` and of nobody else. */
  ghost function After(s: State, t: nat, n: nat): (s': State)
    requires Inv(s) && t < |s.pcs|
    ensures Inv(s') && Shape(s') && |s'.pcs| == |s.pcs|
  {
    InvShape(s);
    if n == 0 then s
    else
      var before := After(s, t, n - 1);
      StepKeepsInv(before, Act(t, false));
      InvShape(Own(before, t));
      OnlyOwn(before, Act(t, false));
      Own(before, t)
  }

  lemma {:induction false} AfterAdvances(s: State, t: nat, n: nat)
    requires Inv(s) && Shape(s) && t < |s.pcs| && Alone(s, t) && forall k: nat :: k < n ==> !After(s, t, k).pcs[t].Return?
    ensures Alone(After(s, t, n), t) && Work(After(s, t, n), t) + n <= Work(s, t)
  {
    hide Inv, Shape, Own, Work, Alone;
    if n > 0 {
      AfterAdvances(s, t, n - 1);
      OwnStepAdvances(After(s, t, n - 1), t);
    }
  }

  lemma {:induction false} FirstReturn(s: State, t: nat, m: nat) returns (n: nat)
    requires Inv(s) && Shape(s) && t < |s.pcs| && Alone(s, t) && Work(s, t) <= m
    ensures n <= m && After(s, t, n).pcs[t].Return? && forall k: nat :: k < n ==> !After(s, t, k).pcs[t].Return?
  {
    hide Inv, Shape, Own, Work, Alone, After;
    n := 0;
    while !After(s, t, n).pcs[t].Return?
      invariant n <= m && forall k: nat :: k < n ==> !After(s, t, k).pcs[t].Return?
      decreases m - n
    {
      AfterAdvances(s, t, n + 1);
      n := n + 1;
    }
  }

  ghost predicate Holds(tb: Table, t: nat, v: nat) {
    exists j :: 0 <= j < |tb.keys| && tb.keys[j] == Some(t) && ValAt(tb, j) == v
  }

  /** The newest table holds the key of `t`, with the value `v`. */
  ghost predicate InNewest(s: State, t: nat, v: nat) { |s.tables| > 0 && Holds(s.tables[|s.tables| - 1], t, v) }

  /** A call that starts while nobody resizes, runs alone and is given the memory it asks for ends within
      its bound with a producer, and its key is then in the newest table with that producer. */
  lemma LoneCall(s: State, t: nat) returns (n: nat)
    requires Inv(s) && Shape(s) && t < |s.pcs| && s.pcs[t] == Idle && s.lock == None
    ensures n <= Work(s, t)
    ensures var p := After(s, t, n).pcs[t]; p.Return? && p.r.Some? && InNewest(After(s, t, n), t, p.r.value)
    ensures forall k: nat :: k < n ==> !After(s, t, k).pcs[t].Return?
  {
    n := FirstReturn(s, t, Work(s, t));
    AfterAdvances(s, t, n);
    var s' := After(s, t, n);
    KeyHasValue(s', t);
  }

  lemma KeyHasValue(s: State, t: nat)
    requires Inv(s) && Shape(s) && t < |s.pcs| && Alone(s, t) && s.pcs[t].Return?
    ensures s.pcs[t].r.Some? && InNewest(s, t, s.pcs[t].r.value)
  {
    InvFacts(s, t);
    var h := |s.tables| - 1;
    var j :| 0 <= j < |s.tables[h].keys| && s.tables[h].keys[j] == Some(t);
    assert TableOk(s.tables[h], h, s.pcs, s.hashes, s.tickets, s.num, s.got);
    assert KeyOk(s.tables[h], h, j, s.pcs, s.tickets, s.num, s.got);
    assert ValAt(s.tables[h], j) == s.got[t].value;
  }
}
