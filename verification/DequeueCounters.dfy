/** The counters that decide who may dequeue from one producer's sub-queue: `tailIndex`,
    `headIndex`, `dequeueOptimisticCount` and `dequeueOvercommit`, as they are used by `dequeue`
    and `dequeue_bulk` of both kinds of producer.

    The counters are unbounded here; the program's 64-bit comparisons are made on their words.
    Loads of the tail, the overcommit and the first load of the optimistic count may return any
    earlier value.  `fate` is history: what became of each unit of the optimistic count. */
module DequeueCounters {
  import opened Counting

  const HALF: int := 0x8000_0000_0000_0000
  const RING: int := 0x1_0000_0000_0000_0000

  /** The 64-bit word that stands for an unbounded counter. */
  function Word(x: int): int { x % RING }

  /** `details::circular_less_than` on 64-bit words. */
  predicate CircularLess(a: int, b: int) { Word(a - b) > HALF }

  /** The wrapped comparison agrees with `<` exactly while the counters are less than half a
      ring apart. */
  lemma CircularIsLess(x: int, y: int)
    requires -HALF <= y - x <= HALF
    ensures CircularLess(Word(x), Word(y)) <==> x < y && y - x < HALF
  {
    assert Word(Word(x) - Word(y)) == Word(x - y) by {
      assert Word(x) == x - RING * (x / RING);
      assert Word(y) == y - RING * (y / RING);
      SameWord(x - y, y / RING - x / RING);
    }
    if x < y {
      SameWord(x - y, 1);
    }
  }

  lemma SameWord(x: int, k: int)
    ensures Word(x + RING * k) == Word(x)
  {
  }

  datatype Want = One | Many(max: nat)

  datatype PC =
    | Idle
    | LoadTail(want: Want)
    | LoadOver(want: Want, tail: nat)
    | LoadOpt(want: Want, tail: nat, over: nat)
    | AddOpt(desired: nat, over: nat)
    | ReloadTail(desired: nat, over: nat, first: nat)
    | GiveBack(desired: nat, actual: nat, first: nat)
    | Claim(actual: nat, first: nat)
    | GiveUp(desired: nat, first: nat)

  /** History: what became of one unit of `dequeueOptimisticCount`. */
  datatype Fate = Undecided(t: nat) | Won(t: nat) | Doomed(t: nat) | Taken | Lost

  datatype State = State(tail: nat, head: nat, opt: nat, over: nat, pcs: seq<PC>, fate: seq<Fate>)

  /** `Publish` is the producer's store of `tailIndex`; `Consume` is the next access of consumer
      `t`, where `seen` is what a stale load returns and `want` what an idle thread asks for. */
  datatype Act = Publish(count: nat) | Consume(t: nat, want: Want, seen: nat)

  function Min(a: nat, b: nat): nat { if a < b then a else b }

  function Fill(fate: seq<Fate>, lo: nat, n: nat, f: Fate): seq<Fate>
    requires lo + n <= |fate|
  {
    fate[..lo] + seq(n, _ => f) + fate[lo + n..]
  }

  function Goto(s: State, t: nat, p: PC): State
    requires t < |s.pcs|
  {
    s.(pcs := s.pcs[t := p])
  }

  /** The span of the history that a thread has not finished with. */
  function First(p: PC): nat {
    match p
    case ReloadTail(_, _, first) => first
    case GiveBack(_, _, first) => first
    case Claim(_, first) => first
    case GiveUp(_, first) => first
    case _ => 0
  }

  function Span(p: PC): nat {
    match p
    case ReloadTail(desired, _, _) => desired
    case GiveBack(desired, _, _) => desired
    case Claim(actual, _) => actual
    case GiveUp(desired, _) => desired
    case _ => 0
  }

  /** What the history says about entry `i` of a thread's span. */
  function Due(p: PC, t: nat, i: nat): Fate {
    match p
    case GiveBack(_, actual, first) => if i < first + actual then Won(t) else Doomed(t)
    case Claim(_, _) => Won(t)
    case GiveUp(_, _) => Doomed(t)
    case _ => Undecided(t)
  }

  predicate Shape(s: State) {
    && |s.fate| == s.opt
    && (forall t :: 0 <= t < |s.pcs| ==> First(s.pcs[t]) + Span(s.pcs[t]) <= s.opt)
    && (forall t :: 0 <= t < |s.pcs| && s.pcs[t].GiveBack? ==> s.pcs[t].actual <= s.pcs[t].desired)
  }

  /** The difference that `dequeue` and `dequeue_bulk` test; the first as a comparison of two
      words, the second as a word compared with zero. */
  predicate SomethingThere(tail: int, taken: int) {
    CircularLess(Word(taken), Word(tail))
  }

  function Step(s: State, a: Act): State
    requires Shape(s) && (a.Consume? ==> a.t < |s.pcs|)
  {
    match a
    case Publish(count) => s.(tail := s.tail + count)
    case Consume(t, want, seen) => ConsumerStep(s, t, want, seen)
  }

  /** The thread decides that the first `actual` of its units are gains. */
  function Win(s: State, t: nat, actual: nat): State
    requires Shape(s) && t < |s.pcs| && s.pcs[t].ReloadTail? && actual <= s.pcs[t].desired
  {
    var p := s.pcs[t];
    var fate := Fill(Fill(s.fate, p.first, p.desired, Doomed(t)), p.first, actual, Won(t));
    Goto(s, t, if actual < p.desired then GiveBack(p.desired, actual, p.first) else Claim(actual, p.first)).(fate := fate)
  }

  /** The thread found nothing after all. */
  function Lose(s: State, t: nat): State
    requires Shape(s) && t < |s.pcs| && s.pcs[t].ReloadTail?
  {
    var p := s.pcs[t];
    Goto(s, t, GiveUp(p.desired, p.first)).(fate := Fill(s.fate, p.first, p.desired, Doomed(t)))
  }

  function ConsumerStep(s: State, t: nat, want: Want, seen: nat): State
    requires Shape(s) && t < |s.pcs|
  {
    match s.pcs[t]
    case Idle => Goto(s, t, LoadTail(want))
    case LoadTail(w) => Goto(s, t, LoadOver(w, Min(seen, s.tail)))
    case LoadOver(w, tail) => Goto(s, t, LoadOpt(w, tail, Min(seen, s.over)))
    case LoadOpt(w, tail, over) =>
      var taken := Min(seen, s.opt) - over;
      if !(-HALF < tail - taken < HALF) then s  // drift beyond half a ring is not modelled
      else if SomethingThere(tail, taken) then
        Goto(s, t, AddOpt(if w.One? then 1 else Min(Word(tail - taken), w.max), over))
      else Goto(s, t, Idle)
    case AddOpt(desired, over) =>
      Goto(s, t, ReloadTail(desired, over, s.opt)).(
        opt := s.opt + desired, fate := s.fate + seq(desired, _ => Undecided(t)))
    case ReloadTail(desired, over, first) =>
      var tail := Min(seen, s.tail);
      var taken := first - over;
      if !(-HALF < tail - taken < HALF) then s
      else if SomethingThere(tail, taken) then Win(s, t, Min(desired, Word(tail - taken)))
      else Lose(s, t)
    case GiveBack(desired, actual, first) =>
      Goto(s, t, Claim(actual, first)).(
        over := s.over + (desired - actual), fate := Fill(s.fate, first + actual, desired - actual, Lost))
    case Claim(actual, first) =>
      Goto(s, t, Idle).(head := s.head + actual, fate := Fill(s.fate, first, actual, Taken))
    case GiveUp(desired, first) =>
      Goto(s, t, Idle).(over := s.over + desired, fate := Fill(s.fate, first, desired, Lost))
  }

  predicate Init(s: State) {
    && s.tail == s.head == s.opt == s.over == 0 && s.fate == []
    && forall t :: 0 <= t < |s.pcs| ==> s.pcs[t] == Idle
  }

  // ----- counting fates -----

  function LostAs(): Fate -> nat { f => if f == Lost then 1 else 0 }

  function TakenAs(): Fate -> nat { f => if f == Taken then 1 else 0 }

  function GainedAs(): Fate -> nat { f => if f == Taken || f.Won? then 1 else 0 }

  lemma {:induction false} SumConst(n: nat, f: Fate, w: Fate -> nat)
    ensures Sum(seq(n, _ => f), w) == n * w(f)
  {
    if n > 0 {
      assert seq(n, _ => f)[1..] == seq(n - 1, _ => f);
      SumConst(n - 1, f, w);
    }
  }

  /** Overwriting a span changes a total by what was there and what is there now. */
  lemma FillSum(fate: seq<Fate>, lo: nat, n: nat, f: Fate, w: Fate -> nat)
    requires lo + n <= |fate|
    ensures Sum(Fill(fate, lo, n, f), w) + Sum(fate[lo..lo + n], w) == Sum(fate, w) + n * w(f)
  {
    assert fate == fate[..lo] + fate[lo..lo + n] + fate[lo + n..];
    SumAppend(fate[..lo] + fate[lo..lo + n], fate[lo + n..], w);
    SumAppend(fate[..lo], fate[lo..lo + n], w);
    SumAppend(fate[..lo] + seq(n, _ => f), fate[lo + n..], w);
    SumAppend(fate[..lo], seq(n, _ => f), w);
    SumConst(n, f, w);
  }

  /** `dequeue_bulk` compares the difference of the words with zero; that is the same test. */
  lemma BulkTestIsTheSame(tail: int, taken: int)
    ensures CircularLess(0, Word(tail - taken)) <==> SomethingThere(tail, taken)
  {
    assert Word(tail) == tail - RING * (tail / RING);
    assert Word(taken) == taken - RING * (taken / RING);
    assert Word(tail - taken) == tail - taken - RING * ((tail - taken) / RING);
    SameWord(taken - tail, tail / RING - taken / RING);
    SameWord(taken - tail, (tail - taken) / RING);
  }

  lemma TestIsDifference(tail: int, taken: int)
    requires -HALF < tail - taken < HALF
    ensures SomethingThere(tail, taken) <==> taken < tail
    ensures taken < tail ==> Word(tail - taken) == tail - taken
  {
    CircularIsLess(taken, tail);
  }

  // ----- the invariant -----

  /** How many of the first `k` units were lost. */
  function LostBefore(fate: seq<Fate>, k: nat): nat
    requires k <= |fate|
  {
    Sum(fate[..k], LostAs())
  }

  predicate HasThread(f: Fate) { f.Undecided? || f.Won? || f.Doomed? }

  predicate Gained(f: Fate) { f == Taken || f.Won? }

  predicate PcOk(s: State, t: nat)
    requires Shape(s) && t < |s.pcs|
  {
    var p := s.pcs[t];
    && (p.LoadOpt? || p.AddOpt? ==> p.over <= s.over)
    && (p.ReloadTail? ==> p.over <= LostBefore(s.fate, p.first))
    && (forall i :: First(p) <= i < First(p) + Span(p) ==> s.fate[i] == Due(p, t, i))
  }

  /** The counting argument: a unit gained at place `i`, less the losses up to there, still lies
      below the tail. */
  predicate FateOk(s: State, i: nat)
    requires Shape(s) && i < |s.fate|
  {
    && (Gained(s.fate[i]) ==> i + 1 - LostBefore(s.fate, i + 1) <= s.tail)
    && (HasThread(s.fate[i]) ==>
          s.fate[i].t < |s.pcs| && First(s.pcs[s.fate[i].t]) <= i < First(s.pcs[s.fate[i].t]) + Span(s.pcs[s.fate[i].t]))
  }

  predicate Inv(s: State) {
    && Shape(s)
    && Sum(s.fate, LostAs()) == s.over
    && Sum(s.fate, TakenAs()) == s.head
    && (forall t :: 0 <= t < |s.pcs| ==> PcOk(s, t))
    && (forall i :: 0 <= i < |s.fate| ==> FateOk(s, i))
  }

  // ----- the bound -----

  lemma {:induction false} SumsOfGains(fate: seq<Fate>)
    ensures Sum(fate, TakenAs()) <= Sum(fate, GainedAs())
    ensures Sum(fate, GainedAs()) + Sum(fate, LostAs()) <= |fate|
  {
    if fate != [] { SumsOfGains(fate[1..]); }
  }

  /** All gains together never exceed the tail. */
  lemma {:induction false} GainsBelowTail(fate: seq<Fate>, tail: nat)
    requires forall i :: 0 <= i < |fate| && Gained(fate[i]) ==> i + 1 - LostBefore(fate, i + 1) <= tail
    ensures Sum(fate, GainedAs()) <= tail
  {
    if fate != [] {
      var n := |fate| - 1;
      assert fate[..n + 1] == fate;
      if Gained(fate[n]) {
        SumsOfGains(fate);
      } else {
        forall i | 0 <= i < n && Gained(fate[..n][i])
          ensures i + 1 - LostBefore(fate[..n], i + 1) <= tail
        {
          assert fate[..n][..i + 1] == fate[..i + 1];
        }
        GainsBelowTail(fate[..n], tail);
        assert fate == fate[..n] + [fate[n]];
        SumAppend(fate[..n], [fate[n]], GainedAs());
      }
    }
  }

  /** `headIndex <= tailIndex`, and every counter is what its history says. */
  lemma HeadNeverPassesTail(s: State)
    requires Inv(s)
    ensures s.head <= s.tail
    ensures s.head + s.over <= s.opt
  {
    forall i | 0 <= i < |s.fate| && Gained(s.fate[i])
      ensures i + 1 - LostBefore(s.fate, i + 1) <= s.tail
    {
      assert FateOk(s, i);
    }
    GainsBelowTail(s.fate, s.tail);
    SumsOfGains(s.fate);
  }

  // ----- preservation -----

  lemma {:induction false} LostMonotone(a: seq<Fate>, b: seq<Fate>)
    requires |a| <= |b|
    requires forall i :: 0 <= i < |a| && a[i] == Lost ==> b[i] == Lost
    ensures Sum(a, LostAs()) <= Sum(b, LostAs())
  {
    if a != [] {
      LostMonotone(a[1..], b[1..]);
    }
  }

  /** Thread `t` rewrote at most entries it was responsible for, and history only grew. */
  predicate Evolves(a: seq<Fate>, b: seq<Fate>, t: nat) {
    && |a| <= |b|
    && (forall i :: 0 <= i < |a| && a[i] != b[i] ==> HasThread(a[i]) && a[i].t == t)
  }

  lemma LostBeforeGrows(a: seq<Fate>, b: seq<Fate>, t: nat, k: nat)
    requires Evolves(a, b, t) && k <= |a|
    ensures LostBefore(a, k) <= LostBefore(b, k)
  {
    LostMonotone(a[..k], b[..k]);
  }

  lemma OtherThread(s: State, s': State, t: nat, u: nat)
    requires Inv(s) && Shape(s') && t < |s.pcs| && u < |s.pcs| && u != t
    requires |s'.pcs| == |s.pcs| && s'.pcs[u] == s.pcs[u]
    requires Evolves(s.fate, s'.fate, t) && s.over <= s'.over
    ensures PcOk(s', u)
  {
    assert PcOk(s, u);
    var p := s.pcs[u];
    if p.ReloadTail? {
      LostBeforeGrows(s.fate, s'.fate, t, p.first);
    }
    forall i | First(p) <= i < First(p) + Span(p) ensures s'.fate[i] == Due(p, u, i) {
      assert s.fate[i] == Due(p, u, i);
    }
  }

  lemma OldFate(s: State, s': State, t: nat, i: nat)
    requires Inv(s) && Shape(s') && t < |s.pcs| && i < |s.fate|
    requires |s'.pcs| == |s.pcs| && s'.pcs == s.pcs[t := s'.pcs[t]] && s.tail <= s'.tail
    requires Evolves(s.fate, s'.fate, t)
    requires s'.fate[i] == s.fate[i] && (HasThread(s.fate[i]) ==> s.fate[i].t != t)
    ensures FateOk(s', i)
  {
    assert FateOk(s, i);
    LostBeforeGrows(s.fate, s'.fate, t, i + 1);
  }

  /** A step that rewrites or extends only the thread's own part of the history keeps the
      invariant if it keeps it there. */
  lemma SpanStep(s: State, s': State, t: nat)
    requires Inv(s) && Shape(s') && t < |s.pcs|
    requires |s'.pcs| == |s.pcs| && s'.pcs == s.pcs[t := s'.pcs[t]]
    requires s.tail == s'.tail && s.over <= s'.over && Evolves(s.fate, s'.fate, t)
    requires Sum(s'.fate, LostAs()) == s'.over && Sum(s'.fate, TakenAs()) == s'.head
    requires PcOk(s', t)
    requires forall i :: 0 <= i < |s'.fate| && (i >= |s.fate| || First(s.pcs[t]) <= i < First(s.pcs[t]) + Span(s.pcs[t])) ==> FateOk(s', i)
    ensures Inv(s')
  {
    forall u | 0 <= u < |s.pcs| ensures PcOk(s', u) {
      if u != t { OtherThread(s, s', t, u); }
    }
    forall i | 0 <= i < |s'.fate| ensures FateOk(s', i) {
      if i < |s.fate| && !(First(s.pcs[t]) <= i < First(s.pcs[t]) + Span(s.pcs[t])) {
        assert FateOk(s, i);
        OldFate(s, s', t, i);
      }
    }
  }

  lemma ShapeAfter(s: State, s': State, t: nat)
    requires Shape(s) && t < |s.pcs| && |s'.pcs| == |s.pcs| && s'.pcs == s.pcs[t := s'.pcs[t]]
    requires |s'.fate| == s'.opt >= s.opt
    requires First(s'.pcs[t]) + Span(s'.pcs[t]) <= s'.opt
    requires s'.pcs[t].GiveBack? ==> s'.pcs[t].actual <= s'.pcs[t].desired
    ensures Shape(s')
  {
  }

  /** Publishing and the loads before the optimistic count is raised. */
  lemma QuietKeeps(s: State, a: Act)
    requires Inv(s) && (a.Consume? ==> a.t < |s.pcs| && Span(s.pcs[a.t]) == 0 && !s.pcs[a.t].AddOpt? && First(s.pcs[a.t]) == 0)
    requires a.Consume? ==> !s.pcs[a.t].ReloadTail? && !s.pcs[a.t].GiveBack? && !s.pcs[a.t].Claim? && !s.pcs[a.t].GiveUp?
    ensures Inv(Step(s, a))
  {
    var s' := Step(s, a);
    match a
    case Publish(_) =>
      forall u | 0 <= u < |s.pcs| ensures PcOk(s', u) { assert PcOk(s, u); }
      forall i | 0 <= i < |s.fate| ensures FateOk(s', i) { assert FateOk(s, i); }
    case Consume(t, _, _) =>
      ShapeAfter(s, s', t);
      assert PcOk(s, t);
      SpanStep(s, s', t);
  }

  lemma AddOptKeeps(s: State, a: Act)
    requires Inv(s) && a.Consume? && a.t < |s.pcs| && s.pcs[a.t].AddOpt?
    ensures Inv(Step(s, a))
  {
    var s' := Step(s, a);
    var p := s.pcs[a.t];
    ShapeAfter(s, s', a.t);
    SumAppend(s.fate, seq(p.desired, _ => Undecided(a.t)), LostAs());
    SumAppend(s.fate, seq(p.desired, _ => Undecided(a.t)), TakenAs());
    SumConst(p.desired, Undecided(a.t), LostAs());
    SumConst(p.desired, Undecided(a.t), TakenAs());
    assert PcOk(s, a.t);
    assert s'.fate[..s.opt] == s.fate;
    SpanStep(s, s', a.t);
  }

  /** A span of one thread's entries holds nothing lost and nothing taken. */
  lemma {:induction false} OwnSpan(fate: seq<Fate>, lo: nat, n: nat, t: nat)
    requires lo + n <= |fate|
    requires forall i :: lo <= i < lo + n ==> HasThread(fate[i]) && fate[i].t == t
    ensures Sum(fate[lo..lo + n], LostAs()) == Sum(fate[lo..lo + n], TakenAs()) == 0
    decreases n
  {
    if n > 0 {
      assert fate[lo..lo + n][1..] == fate[lo + 1..lo + n];
      OwnSpan(fate, lo + 1, n - 1, t);
    }
  }

  lemma FillOwn(fate: seq<Fate>, lo: nat, n: nat, t: nat, f: Fate)
    requires lo + n <= |fate|
    requires forall i :: lo <= i < lo + n ==> HasThread(fate[i]) && fate[i].t == t
    ensures |Fill(fate, lo, n, f)| == |fate|
    ensures forall i :: 0 <= i < |fate| ==> Fill(fate, lo, n, f)[i] == if lo <= i < lo + n then f else fate[i]
    ensures Evolves(fate, Fill(fate, lo, n, f), t)
    ensures Sum(Fill(fate, lo, n, f), LostAs()) == Sum(fate, LostAs()) + n * LostAs()(f)
    ensures Sum(Fill(fate, lo, n, f), TakenAs()) == Sum(fate, TakenAs()) + n * TakenAs()(f)
  {
    OwnSpan(fate, lo, n, t);
    FillSum(fate, lo, n, f, LostAs());
    FillSum(fate, lo, n, f, TakenAs());
  }

  lemma ReloadTailKeeps(s: State, a: Act)
    requires Inv(s) && a.Consume? && a.t < |s.pcs| && s.pcs[a.t].ReloadTail?
    ensures Inv(Step(s, a))
  {
    var p := s.pcs[a.t];
    var tail, taken := Min(a.seen, s.tail), p.first - p.over;
    if -HALF < tail - taken < HALF {
      TestIsDifference(tail, taken);
      if taken < tail {
        WinKeeps(s, a.t, tail, Min(p.desired, tail - taken));
      } else {
        LoseKeeps(s, a.t);
      }
    }
  }

  lemma WinKeeps(s: State, t: nat, tail: nat, actual: nat)
    requires Inv(s) && t < |s.pcs| && s.pcs[t].ReloadTail? && actual <= s.pcs[t].desired
    requires tail <= s.tail && s.pcs[t].first - s.pcs[t].over + actual <= tail
    ensures Inv(Win(s, t, actual))
  {
    hide Sum, LostBefore, Fill, SomethingThere, Word;
    var s' := Win(s, t, actual);
    var p := s.pcs[t];
    assert PcOk(s, t);
    var doomed := Fill(s.fate, p.first, p.desired, Doomed(t));
    FillOwn(s.fate, p.first, p.desired, t, Doomed(t));
    FillOwn(doomed, p.first, actual, t, Won(t));
    ShapeAfter(s, s', t);
    LostBeforeGrows(s.fate, s'.fate, t, p.first);
    forall i | p.first <= i < p.first + p.desired ensures FateOk(s', i) {
      LostPrefix(s'.fate, p.first, i + 1);
    }
    SpanStep(s, s', t);
  }

  lemma LoseKeeps(s: State, t: nat)
    requires Inv(s) && t < |s.pcs| && s.pcs[t].ReloadTail?
    ensures Inv(Lose(s, t))
  {
    var s' := Lose(s, t);
    assert PcOk(s, t);
    FillOwn(s.fate, s.pcs[t].first, s.pcs[t].desired, t, Doomed(t));
    ShapeAfter(s, s', t);
    SpanStep(s, s', t);
  }

  /** An entry of the thread's own that is as it was, or settled. */
  lemma KeptFate(s: State, s': State, t: nat, i: nat)
    requires Inv(s) && Shape(s') && t < |s.pcs| && i < |s.fate| && |s'.pcs| == |s.pcs|
    requires s.tail == s'.tail && Evolves(s.fate, s'.fate, t)
    requires Gained(s'.fate[i]) ==> Gained(s.fate[i])
    requires HasThread(s'.fate[i]) ==> s'.fate[i].t == t && First(s'.pcs[t]) <= i < First(s'.pcs[t]) + Span(s'.pcs[t])
    ensures FateOk(s', i)
  {
    assert FateOk(s, i);
    LostBeforeGrows(s.fate, s'.fate, t, i + 1);
  }

  lemma LostPrefix(fate: seq<Fate>, j: nat, k: nat)
    requires j <= k <= |fate|
    ensures LostBefore(fate, j) <= LostBefore(fate, k)
  {
    LostMonotone(fate[..j], fate[..k]);
  }

  lemma GiveBackKeeps(s: State, a: Act)
    requires Inv(s) && a.Consume? && a.t < |s.pcs| && s.pcs[a.t].GiveBack?
    ensures Inv(Step(s, a))
  {
    hide Sum, LostBefore, Fill, SomethingThere, Word, Evolves;
    var s' := Step(s, a);
    var t, p := a.t, s.pcs[a.t];
    assert PcOk(s, t);
    FillOwn(s.fate, p.first + p.actual, p.desired - p.actual, t, Lost);
    ShapeAfter(s, s', t);
    forall i | p.first <= i < p.first + p.desired ensures FateOk(s', i) {
      KeptFate(s, s', t, i);
    }
    SpanStep(s, s', t);
  }

  lemma ClaimKeeps(s: State, a: Act)
    requires Inv(s) && a.Consume? && a.t < |s.pcs| && s.pcs[a.t].Claim?
    ensures Inv(Step(s, a))
  {
    hide Sum, LostBefore, Fill, SomethingThere, Word, Evolves;
    var s' := Step(s, a);
    var t, p := a.t, s.pcs[a.t];
    assert PcOk(s, t);
    FillOwn(s.fate, p.first, p.actual, t, Taken);
    ShapeAfter(s, s', t);
    forall i | p.first <= i < p.first + p.actual ensures FateOk(s', i) {
      KeptFate(s, s', t, i);
    }
    SpanStep(s, s', t);
  }

  lemma GiveUpKeeps(s: State, a: Act)
    requires Inv(s) && a.Consume? && a.t < |s.pcs| && s.pcs[a.t].GiveUp?
    ensures Inv(Step(s, a))
  {
    var s' := Step(s, a);
    var t, p := a.t, s.pcs[a.t];
    assert PcOk(s, t);
    FillOwn(s.fate, p.first, p.desired, t, Lost);
    ShapeAfter(s, s', t);
    SpanStep(s, s', t);
  }

  /** Every access of every consumer, with any stale loads, and every publication keeps the
      invariant. */
  lemma StepKeepsInv(s: State, a: Act)
    requires Inv(s) && (a.Consume? ==> a.t < |s.pcs|)
    ensures Inv(Step(s, a))
  {
    if a.Publish? {
      QuietKeeps(s, a);
    } else {
      match s.pcs[a.t]
      case AddOpt(_, _) => AddOptKeeps(s, a);
      case ReloadTail(_, _, _) => ReloadTailKeeps(s, a);
      case GiveBack(_, _, _) => GiveBackKeeps(s, a);
      case Claim(_, _) => ClaimKeeps(s, a);
      case GiveUp(_, _) => GiveUpKeeps(s, a);
      case _ => QuietKeeps(s, a);
    }
  }

  // ----- whole runs -----

  ghost predicate Next(s: State, a: Act, s': State) {
    Shape(s) && (a.Consume? ==> a.t < |s.pcs|) && s' == Step(s, a)
  }

  ghost predicate Run(states: seq<State>, acts: seq<Act>) {
    && |states| == |acts| + 1
    && Init(states[0])
    && forall i :: 0 <= i < |acts| ==> Next(states[i], acts[i], states[i + 1])
  }

  lemma {:induction false} RunKeepsInv(states: seq<State>, acts: seq<Act>, i: nat)
    requires Run(states, acts) && i < |states|
    ensures Inv(states[i])
  {
    if i > 0 {
      RunKeepsInv(states, acts, i - 1);
      assert Next(states[i - 1], acts[i - 1], states[i]);
      StepKeepsInv(states[i - 1], acts[i - 1]);
    }
  }

  /** In every reachable state, for any number of consumers, single and bulk, with stale loads:
      the head never passes the tail. */
  lemma HeadStaysBelowTail(states: seq<State>, acts: seq<Act>, i: nat)
    requires Run(states, acts) && i < |states|
    ensures states[i].head <= states[i].tail
  {
    RunKeepsInv(states, acts, i);
    HeadNeverPassesTail(states[i]);
  }

  /** This step claims index `x` for its thread. */
  ghost predicate Claims(s: State, a: Act, x: nat) {
    a.Consume? && a.t < |s.pcs| && s.pcs[a.t].Claim? && s.head <= x < s.head + s.pcs[a.t].actual
  }

  lemma HeadMovesByClaims(s: State, a: Act, s': State, x: nat)
    requires Next(s, a, s')
    ensures s.head <= s'.head
    ensures s.head <= x < s'.head <==> Claims(s, a, x)
  {
  }

  lemma {:induction false} HeadMonotone(states: seq<State>, acts: seq<Act>, i: nat, j: nat)
    requires Run(states, acts) && i <= j < |states|
    ensures states[i].head <= states[j].head
  {
    if i < j {
      HeadMonotone(states, acts, i, j - 1);
      HeadMovesByClaims(states[j - 1], acts[j - 1], states[j], 0);
    }
  }

  /** Each index below the head has been claimed by exactly one step, and no other index has. */
  lemma {:induction false} EachIndexClaimedOnce(states: seq<State>, acts: seq<Act>, x: nat)
    requires Run(states, acts)
    ensures x < states[|acts|].head <==> exists i :: 0 <= i < |acts| && Claims(states[i], acts[i], x)
    ensures forall i, j :: 0 <= i < |acts| && 0 <= j < |acts| && Claims(states[i], acts[i], x) && Claims(states[j], acts[j], x) ==> i == j
  {
    forall i, j | 0 <= i < |acts| && 0 <= j < |acts| && Claims(states[i], acts[i], x) && Claims(states[j], acts[j], x)
      ensures i == j
    {
      ClaimsDiffer(states, acts, i, j, x);
      ClaimsDiffer(states, acts, j, i, x);
    }
    if x < states[|acts|].head {
      var i := FindClaim(states, acts, |acts|, x);
    }
    forall i | 0 <= i < |acts| && Claims(states[i], acts[i], x) ensures x < states[|acts|].head {
      HeadMovesByClaims(states[i], acts[i], states[i + 1], x);
      HeadMonotone(states, acts, i + 1, |acts|);
    }
  }

  lemma ClaimsDiffer(states: seq<State>, acts: seq<Act>, i: nat, j: nat, x: nat)
    requires Run(states, acts) && i < |acts| && j < |acts| && Claims(states[i], acts[i], x) && Claims(states[j], acts[j], x)
    ensures !(i < j)
  {
    if i < j {
      HeadMovesByClaims(states[i], acts[i], states[i + 1], x);
      HeadMonotone(states, acts, i + 1, j);
    }
  }

  lemma {:induction false} FindClaim(states: seq<State>, acts: seq<Act>, n: nat, x: nat) returns (i: nat)
    requires Run(states, acts) && n <= |acts| && x < states[n].head
    ensures i < n && Claims(states[i], acts[i], x)
  {
    HeadMovesByClaims(states[n - 1], acts[n - 1], states[n], x);
    if x < states[n - 1].head {
      i := FindClaim(states, acts, n - 1, x);
    } else {
      i := n - 1;
    }
  }

  // ----- a dequeue that runs alone -----

  predicate Quiet(s: State) {
    forall t :: 0 <= t < |s.pcs| ==> s.pcs[t] == Idle
  }

  /** With no dequeue in flight the optimistic count less the overcommit is the head index. */
  lemma QuietCountersAgree(s: State)
    requires Inv(s) && Quiet(s)
    ensures s.opt - s.over == s.head
  {
    forall i | 0 <= i < |s.fate| ensures !HasThread(s.fate[i]) {
      assert FateOk(s, i);
    }
    AllSettled(s.fate);
  }

  lemma {:induction false} AllSettled(fate: seq<Fate>)
    requires forall i :: 0 <= i < |fate| ==> !HasThread(fate[i])
    ensures Sum(fate, LostAs()) + Sum(fate, TakenAs()) == |fate|
  {
    if fate != [] { AllSettled(fate[1..]); }
  }

  /** The next step of `t` when every load sees the current value. */
  function Alone(s: State, t: nat, want: Want): State
    requires Shape(s) && t < |s.pcs|
  {
    Step(s, Consume(t, want, s.tail + s.over + s.opt))
  }

  lemma AloneKeepsInv(s: State, t: nat, want: Want)
    requires Inv(s) && t < |s.pcs|
    ensures Inv(Alone(s, t, want)) && Shape(Alone(s, t, want)) && |Alone(s, t, want).pcs| == |s.pcs|
  {
    hide ConsumerStep, PcOk, FateOk;
    StepKeepsInv(s, Consume(t, want, s.tail + s.over + s.opt));
    SameThreads(s, t, want, s.tail + s.over + s.opt);
  }

  lemma SameThreads(s: State, t: nat, want: Want, seen: nat)
    requires Shape(s) && t < |s.pcs|
    ensures |ConsumerStep(s, t, want, seen).pcs| == |s.pcs|
  {
    hide Fill, SomethingThere, Word;
  }

  /** Where the program is after `n` steps of thread `t` and of nobody else. */
  ghost function After(s: State, t: nat, want: Want, n: nat): (s': State)
    requires Inv(s) && t < |s.pcs|
    ensures Inv(s') && Shape(s') && |s'.pcs| == |s.pcs|
  {
    if n == 0 then s
    else
      var before := After(s, t, want, n - 1);
      AloneKeepsInv(before, t, want);
      Alone(before, t, want)
  }

  lemma {:induction false} AfterAdds(s: State, t: nat, want: Want, m: nat, n: nat)
    requires Inv(s) && t < |s.pcs|
    ensures After(After(s, t, want, m), t, want, n) == After(s, t, want, m + n)
  {
    hide Inv, Alone;
    if n > 0 { AfterAdds(s, t, want, m, n - 1); }
  }

  lemma NextStep(s: State, t: nat, want: Want, n: nat)
    requires Inv(s) && t < |s.pcs|
    ensures Inv(After(s, t, want, n)) && Shape(After(s, t, want, n)) && |After(s, t, want, n).pcs| == |s.pcs|
    ensures After(s, t, want, n + 1) == Alone(After(s, t, want, n), t, want)
  {
    hide Inv, Alone;
  }

  /** The three loads. */
  lemma LoadAlone(s: State, t: nat, want: Want)
    requires Inv(s) && t < |s.pcs| && s.pcs[t] == Idle
    ensures After(s, t, want, 1) == Goto(s, t, LoadTail(want))
    ensures After(s, t, want, 2) == Goto(s, t, LoadOver(want, s.tail))
    ensures After(s, t, want, 3) == Goto(s, t, LoadOpt(want, s.tail, s.over))
  {
    hide Inv, After;
    assert After(s, t, want, 0) == s by { NoSteps(s, t, want); }
    NextStep(s, t, want, 0);
    NextStep(s, t, want, 1);
    NextStep(s, t, want, 2);
  }

  lemma NoSteps(s: State, t: nat, want: Want)
    requires Inv(s) && t < |s.pcs|
    ensures After(s, t, want, 0) == s
  {
  }

  /** Raising the optimistic count, looking at the tail again and claiming. */
  lemma TakeAlone(s: State, t: nat, want: Want)
    requires Inv(s) && t < |s.pcs| && s.pcs[t].AddOpt? && s.pcs[t].over == s.over
    requires s.opt - s.over == s.head < s.tail && s.tail - s.head < HALF && s.pcs[t].desired <= s.tail - s.head
    ensures After(s, t, want, 1).pcs == s.pcs[t := ReloadTail(s.pcs[t].desired, s.over, s.opt)]
    ensures After(s, t, want, 2).pcs == s.pcs[t := Claim(s.pcs[t].desired, s.opt)]
    ensures var s' := After(s, t, want, 3);
            s'.pcs == s.pcs[t := Idle] && s'.tail == s.tail && s'.head == s.head + s.pcs[t].desired
  {
    hide Inv, After, Alone, Shape;
    NoSteps(s, t, want);
    NextStep(s, t, want, 0);
    RaiseAlone(s, t, want);
    NextStep(s, t, want, 1);
    DecideAlone(After(s, t, want, 1), t, want, s.pcs[t].desired, s.over, s.opt);
    NextStep(s, t, want, 2);
    ClaimAlone(After(s, t, want, 2), t, want, s.pcs[t].desired, s.opt);
  }

  lemma RaiseAlone(s: State, t: nat, want: Want)
    requires Shape(s) && t < |s.pcs| && s.pcs[t].AddOpt?
    ensures var s' := Alone(s, t, want);
            s'.pcs == s.pcs[t := ReloadTail(s.pcs[t].desired, s.pcs[t].over, s.opt)] && s'.tail == s.tail && s'.head == s.head && s'.over == s.over
  {
  }

  lemma DecideAlone(s: State, t: nat, want: Want, desired: nat, over: nat, first: nat)
    requires Shape(s) && t < |s.pcs| && s.pcs[t] == ReloadTail(desired, over, first)
    requires 0 <= first - over < s.tail && s.tail - (first - over) < HALF && desired <= s.tail - (first - over)
    ensures var s' := Alone(s, t, want);
            s'.pcs == s.pcs[t := Claim(desired, first)] && s'.tail == s.tail && s'.head == s.head
  {
    hide Shape, Fill, SomethingThere, Word;
    TestIsDifference(s.tail, first - over);
  }

  lemma ClaimAlone(s: State, t: nat, want: Want, actual: nat, first: nat)
    requires Shape(s) && t < |s.pcs| && s.pcs[t] == Claim(actual, first)
    ensures var s' := Alone(s, t, want);
            s'.pcs == s.pcs[t := Idle] && s'.tail == s.tail && s'.head == s.head + actual
  {
  }

  /** A dequeue that starts with none in flight and runs alone on fresh values: it is over after at
      most seven steps, with every thread where it was, and has claimed everything it may. So it
      claims nothing exactly when the sub-queue is empty or nothing was wanted. */
  lemma LoneDequeue(s: State, t: nat, want: Want) returns (n: nat)
    requires Inv(s) && Quiet(s) && t < |s.pcs| && s.tail - s.head < HALF
    ensures 0 < n <= 7 && forall k: nat :: 0 < k < n ==> After(s, t, want, k).pcs[t] != Idle
    ensures var s' := After(s, t, want, n);
            && s'.pcs == s.pcs && s'.tail == s.tail && s.head <= s.tail
            && s'.head == s.head + Min(if want.One? then 1 else want.max, s.tail - s.head)
            && (s'.head == s.head <==> s.head == s.tail || want == Many(0))
  {
    hide Inv, After, Alone;
    QuietCountersAgree(s);
    HeadNeverPassesTail(s);
    LoadAlone(s, t, want);
    LookAlone(After(s, t, want, 3), t, want);
    NextStep(s, t, want, 3);
    if s.head < s.tail {
      var s4 := After(s, t, want, 4);
      TakeAlone(s4, t, want);
      AfterAdds(s, t, want, 4, 1);
      AfterAdds(s, t, want, 4, 2);
      AfterAdds(s, t, want, 4, 3);
      n := 7;
    } else {
      n := 4;
    }
  }

  /** The first test, on current values. */
  lemma LookAlone(s: State, t: nat, want: Want)
    requires Shape(s) && t < |s.pcs| && s.pcs[t] == LoadOpt(want, s.tail, s.over) && s.opt - s.over == s.head <= s.tail && s.tail - s.head < HALF
    ensures Alone(s, t, want) == Goto(s, t, if s.head < s.tail then AddOpt(Min(if want.One? then 1 else want.max, s.tail - s.head), s.over) else Idle)
  {
    TestIsDifference(s.tail, s.head);
  }
}
