/** A dequeue from the implicit producer that runs alone: it gets the oldest elements, as many as it
    wants and there are. */
module ImplicitTakes {
  import opened Blocks
  import opened ImplicitProducer
  import opened ImplicitInvariant
  import opened ImplicitEnqueue
  import opened Wrappers
  import EC = ImplicitCalls
  import P = ImplicitProgress
  import C = Claims
  import D = DequeueCounters

  /** The next step of consumer `t` when every load sees the current value. */
  function Alone(s: State, t: nat, want: D.Want): State
    requires Shape(s) && t < |s.locs|
  {
    ConsumerStep(s, t, want, s.q.tail + s.q.over + s.q.opt)
  }

  lemma AloneKeeps(s: State, t: nat, want: D.Want)
    requires Inv(s) && t < |s.locs|
    ensures Shape(s) && Inv(Alone(s, t, want)) && Shape(Alone(s, t, want)) && |Alone(s, t, want).locs| == |s.locs|
  {
    hide Inv, Shape, ConsumerStep;
    InvShape(s);
    ConsumerKeepsInv(s, t, want, s.q.tail + s.q.over + s.q.opt);
    InvShape(Alone(s, t, want));
    SameThreads(s, t, want);
  }

  lemma InvShape(s: State)
    requires Inv(s)
    ensures Shape(s) && D.Inv(s.q) && |s.q.pcs| == |s.locs| == |s.claims.spans|
    ensures s.q.tail == |s.claims.vals| && s.q.head == s.claims.head
  {
  }

  lemma SameThreads(s: State, t: nat, want: D.Want)
    requires Shape(s) && t < |s.locs|
    ensures |Alone(s, t, want).locs| == |s.locs|
  {
    hide D.Step, D.Shape, C.Paint, SetCell, AddDone, SetLife, SetFree, SetEntryValue, Lookup, Slot, EntryAt, Cell, Done, Blk, Off;
  }

  /** Where the program is after `n` steps of consumer `t` and of nobody else. */
  ghost function After(s: State, t: nat, want: D.Want, n: nat): (s': State)
    requires Inv(s) && t < |s.locs|
    ensures Inv(s') && Shape(s') && |s'.locs| == |s.locs|
  {
    InvShape(s);
    if n == 0 then s
    else
      var before := After(s, t, want, n - 1);
      AloneKeeps(before, t, want);
      Alone(before, t, want)
  }

  lemma NextStep(s: State, t: nat, want: D.Want, n: nat)
    requires Inv(s) && t < |s.locs|
    ensures After(s, t, want, 0) == s
    ensures Inv(After(s, t, want, n)) && Shape(After(s, t, want, n)) && |After(s, t, want, n).locs| == |s.locs|
    ensures After(s, t, want, n + 1) == Alone(After(s, t, want, n), t, want)
  {
    hide Inv, Shape, Alone;
  }

  // ----- while the counters decide -----

  /** Outside a claim the counters move on by themselves, and a claim takes the indices at the head. */
  lemma OutMoves(s: State, t: nat, want: D.Want)
    requires Shape(s) && t < |s.locs| && t < |s.q.pcs| && s.locs[t] == Out
    ensures Alone(s, t, want).q == D.Alone(s.q, t, want)
    ensures var s' := Alone(s, t, want);
            if s'.locs == s.locs then s'.claims == s.claims
            else
              && s.q.pcs[t].Claim? && s.q.pcs[t].actual > 0 && s'.locs == s.locs[t := LoadHeader]
              && s'.claims == C.Take(s.claims, t, s.q.pcs[t].actual)
  {
    hide D.Step, D.Shape, C.Take;
    if s.q.pcs[t].Claim? && s.q.pcs[t].actual > 0 {
      assert s.locs[t := LoadHeader][t] != s.locs[t];
    }
  }

  lemma ClaimEnds(q: D.State, t: nat, want: D.Want)
    requires D.Shape(q) && t < |q.pcs| && q.pcs[t].Claim?
    ensures t < |D.Alone(q, t, want).pcs| && D.Alone(q, t, want).pcs[t] == D.Idle
  {
  }

  lemma CountersNext(q: D.State, t: nat, want: D.Want, k: nat)
    requires D.Inv(q) && t < |q.pcs|
    ensures D.After(q, t, want, 0) == q && D.Shape(D.After(q, t, want, k)) && |D.After(q, t, want, k).pcs| == |q.pcs|
    ensures D.After(q, t, want, k + 1) == D.Alone(D.After(q, t, want, k), t, want)
  {
    D.NextStep(q, t, want, k);
    D.NoSteps(q, t, want);
  }

  /** Up to the end of the counting part the thread is outside a claim. */
  lemma {:induction false} Counting(s: State, t: nat, want: D.Want, n: nat, k: nat)
    requires Inv(s) && t < |s.locs| && s.locs[t] == Out && k < n
    requires D.Inv(s.q) && t < |s.q.pcs| && forall m: nat :: 0 < m < n ==> D.After(s.q, t, want, m).pcs[t] != D.Idle
    ensures var s' := After(s, t, want, k);
            s'.locs == s.locs && s'.claims == s.claims && s'.q == D.After(s.q, t, want, k)
  {
    hide Inv, Shape, Alone, After, D.Inv, D.Shape, D.Alone, D.After, C.Take;
    if k == 0 {
      NextStep(s, t, want, 0);
      CountersNext(s.q, t, want, 0);
    } else {
      Counting(s, t, want, n, k - 1);
      NextStep(s, t, want, k - 1);
      CountersNext(s.q, t, want, k - 1);
      var before := After(s, t, want, k - 1);
      InvShape(before);
      OutMoves(before, t, want);
      if before.q.pcs[t].Claim? { ClaimEnds(before.q, t, want); }
    }
  }

  // ----- while the claim is read -----

  /** The claim `[first, hi)` of thread `t` is being read. */
  predicate Reading(s: State, t: nat, first: nat, hi: nat, vals: seq<C.Elem>) {
    && t < |s.claims.spans| && s.claims.spans[t].first == first && s.claims.spans[t].hi == hi
    && s.claims.vals == vals && s.claims.head == hi
  }

  lemma ReadingGoesOn(s: State, t: nat, want: D.Want, first: nat, hi: nat, vals: seq<C.Elem>)
    requires Shape(s) && t < |s.locs| && s.locs[t] != Out && Reading(s, t, first, hi, vals)
    ensures var s' := Alone(s, t, want);
            Reading(s', t, first, hi, vals) && |s'.locs| == |s.locs| && s'.locs == s.locs[t := s'.locs[t]]
  {
    hide D.Step, D.Shape, C.Paint, SetCell, AddDone, SetLife, SetFree, SetEntryValue, Lookup, Slot, EntryAt, Cell, Done, Blk, Off;
  }

  lemma ReadingEnds(s: State, t: nat, first: nat, hi: nat, vals: seq<C.Elem>)
    requires Inv(s) && t < |s.locs| && s.locs[t] == Out && Reading(s, t, first, hi, vals)
    ensures first <= hi <= |vals| && s.claims.spans[t].got == vals[first..hi]
  {
    assert C.SpanOk(s.claims, t);
    assert LocOk(s.locs[t], t, s.claims.spans[t], s.headers, s.entries, s.home, s.blocks, s.life);
  }

  /** Reads the whole claim. */
  lemma ReadAll(s: State, t: nat, want: D.Want, m: nat, first: nat, hi: nat, vals: seq<C.Elem>) returns (n: nat)
    requires Inv(s) && t < |s.locs| && s.locs[t] == Out
    requires var s' := After(s, t, want, m); s'.locs == s.locs[t := LoadHeader] && Reading(s', t, first, hi, vals) && P.Left(s'.claims.spans[t]) == hi - first
    ensures m <= n <= m + 5 * (hi - first) + 5
    ensures var s' := After(s, t, want, n);
            && s'.locs == s.locs && Reading(s', t, first, hi, vals)
            && first <= hi <= |vals| && s'.claims.spans[t].got == vals[first..hi]
  {
    hide Inv, Shape, Alone, After, Reading, P.Left, P.StepsLeft;
    n := m;
    InvShape(After(s, t, want, m));
    AtStart(After(s, t, want, m), t);
    ghost var bound := m + 5 * (hi - first) + 5;
    while After(s, t, want, n).locs[t] != Out
      invariant m <= n && n + P.StepsLeft(After(s, t, want, n), t) <= bound
      invariant Reading(After(s, t, want, n), t, first, hi, vals)
      invariant After(s, t, want, n).locs == s.locs[t := After(s, t, want, n).locs[t]]
      decreases P.StepsLeft(After(s, t, want, n), t)
    {
      var before := After(s, t, want, n);
      NextStep(s, t, want, n);
      P.OwnStepAdvances(before, t, want, before.q.tail + before.q.over + before.q.opt);
      AloneIs(before, t, want);
      ReadingGoesOn(before, t, want, first, hi, vals);
      n := n + 1;
    }
    ReadingEnds(After(s, t, want, n), t, first, hi, vals);
    assert s.locs[t := Out] == s.locs;
  }

  lemma AloneIs(s: State, t: nat, want: D.Want)
    requires Shape(s) && t < |s.locs|
    ensures Alone(s, t, want) == ConsumerStep(s, t, want, s.q.tail + s.q.over + s.q.opt)
  {
    hide Shape, ConsumerStep;
  }

  lemma AtStart(s: State, t: nat)
    requires t < |s.locs| && t < |s.claims.spans| && s.locs[t] == LoadHeader
    ensures P.StepsLeft(s, t) == 5 * P.Left(s.claims.spans[t]) + 5
  {
  }

  function Min(a: nat, b: nat): nat { if a < b then a else b }

  function Wanted(want: D.Want): nat { if want.One? then 1 else want.max }

  /** The counters decide within seven steps, and if they grant anything the thread has claimed it. */
  lemma ClaimPhase(s: State, t: nat, want: D.Want) returns (k: nat)
    requires Inv(s) && D.Quiet(s.q) && t < |s.locs| && s.locs[t] == Out && s.q.tail - s.q.head < D.HALF
    ensures s.q.head <= s.q.tail && 0 < k <= 7
    ensures var m := Min(Wanted(want), s.q.tail - s.q.head);
            var s' := After(s, t, want, k);
            if m == 0 then s'.locs == s.locs && s'.claims == s.claims
            else
              && s'.locs == s.locs[t := LoadHeader] && Reading(s', t, s.claims.head, s.claims.head + m, s.claims.vals)
              && t < |s'.claims.spans| && P.Left(s'.claims.spans[t]) == m
  {
    hide Inv, Shape, Alone, After, D.Inv, D.Shape, D.Alone, D.After, C.Take, Reading, P.Left;
    InvShape(s);
    D.HeadNeverPassesTail(s.q);
    k := D.LoneDequeue(s.q, t, want);
    hide D.Quiet;
    Counting(s, t, want, k, k - 1);
    NextStep(s, t, want, k - 1);
    CountersNext(s.q, t, want, k - 1);
    var before, s' := After(s, t, want, k - 1), After(s, t, want, k);
    InvShape(before);
    OutMoves(before, t, want);
    InvShape(s');
    if s'.locs != s.locs {
      assert s'.claims == C.Take(s.claims, t, before.q.pcs[t].actual);
      TakeReads(s.claims, t, before.q.pcs[t].actual, s');
    } else {
      assert s'.claims == s.claims;
    }
  }

  /** A dequeue, single or bulk, with no other under way and run alone on current values: it ends within
      its bound, and got exactly the first elements not yet claimed, as many as it wants and there are. */
  lemma LoneDequeue(s: State, t: nat, want: D.Want) returns (n: nat)
    requires Inv(s) && D.Quiet(s.q) && t < |s.locs| && s.locs[t] == Out && s.q.tail - s.q.head < D.HALF
    ensures s.claims.head <= |s.claims.vals|
    ensures var m := Min(Wanted(want), |s.claims.vals| - s.claims.head);
            var s' := After(s, t, want, n);
            && 0 < n <= 5 * m + 12 && s'.locs == s.locs
            && s'.claims.vals == s.claims.vals && s'.claims.head == s.claims.head + m
            && (m == 0 ==> s'.claims == s.claims)
            && (m > 0 ==> t < |s'.claims.spans| && s'.claims.spans[t].got == s.claims.vals[s.claims.head..s.claims.head + m])
  {
    hide Inv, Shape, Alone, After, D.Inv, D.Quiet, Reading;
    InvShape(s);
    var k := ClaimPhase(s, t, want);
    var m := Min(Wanted(want), s.q.tail - s.q.head);
    if m == 0 {
      n := k;
    } else {
      n := ReadAll(s, t, want, k, s.claims.head, s.claims.head + m, s.claims.vals);
      ReadingIs(After(s, t, want, n), t, s.claims.head, s.claims.head + m, s.claims.vals);
    }
  }

  lemma ReadingIs(s: State, t: nat, first: nat, hi: nat, vals: seq<C.Elem>)
    requires Reading(s, t, first, hi, vals)
    ensures s.claims.vals == vals && s.claims.head == hi && t < |s.claims.spans|
  {
  }

  lemma TakeReads(c: C.State, t: nat, n: nat, s': State)
    requires t < |c.spans| && s'.claims == C.Take(c, t, n)
    ensures Reading(s', t, c.head, s'.claims.head, c.vals) && s'.claims.head == c.head + n
    ensures P.Left(s'.claims.spans[t]) == n && |s'.claims.spans| == |c.spans|
  {
    hide C.Paint;
  }

  /** There and back: what one bulk enqueue puts into an empty sub-queue, a bulk dequeue that asks for as
      much gets, in the same order. */
  lemma RoundTrip(s: State, vs: seq<C.Elem>, t: nat, cells: seq<Option<C.Elem>>) returns (n: nat, m: nat)
    requires Inv(s) && s.ppc == Idle && D.Quiet(s.q) && t < |s.locs| && s.locs[t] == Out && s.q.head == s.q.tail
    requires vs != [] && |cells| == BLOCK_SIZE && EC.Leeway(s, |vs|) && s.headers != []
    ensures var s' := EC.After(s, vs, true, false, cells, n);
            && s'.ppc == Idle && t < |s'.locs|
            && (var s'' := After(s', t, D.Many(|vs|), m);
                s''.locs == s.locs && t < |s''.claims.spans| && s''.claims.spans[t].got == vs && s''.claims.head == |s''.claims.vals|)
  {
    hide Inv, Shape, After, EC.After, D.Inv;
    InvShape(s);
    n := EC.LoneEnqueue(s, vs, true, cells);
    EC.ConsumersWait(s, vs, true, false, cells, n);
    var s' := EC.After(s, vs, true, false, cells, n);
    InvShape(s');
    LeewayMeans(s, |vs|);
    m := LoneDequeue(s', t, D.Many(|vs|));
    assert s'.claims.vals[s.claims.head..s.claims.head + |vs|] == vs;
  }

  lemma LeewayMeans(s: State, n: nat)
    requires EC.Leeway(s, n)
    ensures s.q.tail + n - s.q.head < D.HALF
  {
  }
}
