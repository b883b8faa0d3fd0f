/** The lock-free free list of blocks: a stack whose nodes carry a reference count and a
    should-be-on-the-list bit packed into one 32-bit word.

    Every atomic access of `add`, `add_knowing_refcount_is_zero` and `try_get` is one step of
    one thread; threads interleave arbitrarily.  The fields `chain` and `phase` are history
    variables: no step reads them, except that a caller may only add a node it owns. */
module FreeList {
  import opened Wrappers
  import opened Counting

  type Node = nat

  const SHOULD_BE_ON_FREELIST: nat := 0x8000_0000
  const WORD: int := 0x1_0000_0000

  /** The word without its top bit, `word & REFS_MASK`. */
  function Count(word: nat): nat {
    if word >= SHOULD_BE_ON_FREELIST then word - SHOULD_BE_ON_FREELIST else word
  }

  /** 32-bit addition, wrapping around once in either direction. */
  function FetchAdd(word: nat, d: int): nat
    requires word < WORD && -WORD < d < WORD
  {
    if word + d >= WORD then word + d - WORD else if word + d < 0 then word + d + WORD else word + d
  }

  /** What follows a call of `add_knowing_refcount_is_zero`: `add` returns, or the loop of
      `try_get` goes on with the head its failed exchange saw. */
  datatype After = AddReturns | GetResumes(head: Option<Node>)

  /** Where a thread is: each constructor names the next atomic access and its locals. */
  datatype PC =
    | Idle
    | AddFlag(n: Node)
    | LoadHead(n: Node, k: After)
    | StoreNext(n: Node, head: Option<Node>, k: After)
    | StoreRefs(n: Node, head: Option<Node>, k: After)
    | PushHead(n: Node, head: Option<Node>, k: After)
    | PutBack(n: Node, head: Option<Node>, k: After)
    | GetLoadHead
    | GetLoadRefs(n: Node)
    | GetRetain(n: Node, refs: nat)
    | GetLoadNext(n: Node)
    | GetSwing(n: Node, next: Option<Node>)
    | GetTake(n: Node)
    | GetRelease(n: Node, head: Option<Node>)

  /** History: who is responsible for a node. */
  datatype Phase =
    | Owned
    | Starting(t: nat)
    | Flagged
    | Adding(t: nat)
    | Pushing(t: nat)
    | OnList
    | Removed(t: nat)

  datatype State = State(
    head: Option<Node>,
    refs: seq<nat>,
    next: seq<Option<Node>>,
    pcs: seq<PC>,
    chain: seq<Node>,
    phase: seq<Phase>)

  datatype Call = CallAdd(n: Node) | CallTryGet

  datatype Act = Act(t: nat, call: Call)

  // ----- well-formed node numbers -----

  predicate NodeIn(o: Option<Node>, size: nat) { o.Some? ==> o.value < size }

  predicate AfterIn(k: After, size: nat) { k.GetResumes? ==> NodeIn(k.head, size) }

  predicate PcIn(p: PC, size: nat) {
    match p
    case Idle => true
    case AddFlag(n) => n < size
    case LoadHead(n, k) => n < size && AfterIn(k, size)
    case StoreNext(n, h, k) => n < size && NodeIn(h, size) && AfterIn(k, size)
    case StoreRefs(n, h, k) => n < size && NodeIn(h, size) && AfterIn(k, size)
    case PushHead(n, h, k) => n < size && NodeIn(h, size) && AfterIn(k, size)
    case PutBack(n, h, k) => n < size && NodeIn(h, size) && AfterIn(k, size)
    case GetLoadHead => true
    case GetLoadRefs(h) => h < size
    case GetRetain(h, refs) => h < size && refs < WORD
    case GetLoadNext(h) => h < size
    case GetSwing(h, n) => h < size && NodeIn(n, size)
    case GetTake(h) => h < size
    case GetRelease(h, n) => h < size && NodeIn(n, size)
  }

  predicate Shape(s: State) {
    && |s.next| == |s.refs| == |s.phase|
    && NodeIn(s.head, |s.refs|)
    && (forall n :: 0 <= n < |s.refs| ==> s.refs[n] < WORD)
    && (forall n :: 0 <= n < |s.next| ==> NodeIn(s.next[n], |s.refs|))
    && (forall t :: 0 <= t < |s.pcs| ==> PcIn(s.pcs[t], |s.refs|))
    && (forall i :: 0 <= i < |s.chain| ==> s.chain[i] < |s.refs|)
  }

  // ----- the steps -----

  function EnterLoop(head: Option<Node>): PC {
    if head.Some? then GetLoadRefs(head.value) else Idle
  }

  function Continue(k: After): PC {
    match k
    case AddReturns => Idle
    case GetResumes(head) => EnterLoop(head)
  }

  function Goto(s: State, t: nat, p: PC): State
    requires t < |s.pcs|
  {
    s.(pcs := s.pcs[t := p])
  }

  /** One atomic access by thread `t`; an idle thread starts the given call. */
  function Step(s: State, a: Act): State
    requires Shape(s) && a.t < |s.pcs|
  {
    var t := a.t;
    match s.pcs[t]
    case Idle =>
      (match a.call
       case CallTryGet => Goto(s, t, GetLoadHead)
       case CallAdd(n) =>
         // callers add only nodes they own
         if n < |s.refs| && s.phase[n] == Owned then
           Goto(s, t, AddFlag(n)).(phase := s.phase[n := Starting(t)])
         else s)
    case AddFlag(n) =>
      var was := s.refs[n];
      var s' := s.(refs := s.refs[n := FetchAdd(was, SHOULD_BE_ON_FREELIST)]);
      if was == 0 then
        Goto(s', t, LoadHead(n, AddReturns)).(phase := s.phase[n := Adding(t)])
      else
        Goto(s', t, Idle).(phase := s.phase[n := Flagged])
    case LoadHead(n, k) =>
      Goto(s, t, StoreNext(n, s.head, k))
    case StoreNext(n, h, k) =>
      Goto(s, t, StoreRefs(n, h, k)).(next := s.next[n := h])
    case StoreRefs(n, h, k) =>
      Goto(s, t, PushHead(n, h, k)).(refs := s.refs[n := 1], phase := s.phase[n := Pushing(t)])
    case PushHead(n, h, k) =>
      if s.head == h then
        Goto(s, t, Continue(k)).(head := Some(n), chain := [n] + s.chain, phase := s.phase[n := OnList])
      else
        Goto(s, t, PutBack(n, s.head, k))
    case PutBack(n, h, k) =>
      var was := s.refs[n];
      var s' := s.(refs := s.refs[n := FetchAdd(was, SHOULD_BE_ON_FREELIST - 1)]);
      if was == 1 then
        Goto(s', t, StoreNext(n, h, k)).(phase := s.phase[n := Adding(t)])
      else
        Goto(s', t, Continue(k)).(phase := s.phase[n := Flagged])
    case GetLoadHead =>
      Goto(s, t, EnterLoop(s.head))
    case GetLoadRefs(h) =>
      if Count(s.refs[h]) == 0 then Goto(s, t, GetLoadHead) else Goto(s, t, GetRetain(h, s.refs[h]))
    case GetRetain(h, refs) =>
      if s.refs[h] == refs then
        Goto(s, t, GetLoadNext(h)).(refs := s.refs[h := FetchAdd(refs, 1)])
      else
        Goto(s, t, GetLoadHead)
    case GetLoadNext(h) =>
      Goto(s, t, GetSwing(h, s.next[h]))
    case GetSwing(h, next) =>
      if s.head == Some(h) then
        Goto(s, t, GetTake(h)).(
          head := next,
          chain := if s.chain == [] then [] else s.chain[1..],
          phase := s.phase[h := Removed(t)])
      else
        Goto(s, t, GetRelease(h, s.head))
    case GetTake(h) =>
      Goto(s, t, Idle).(refs := s.refs[h := FetchAdd(s.refs[h], -2)], phase := s.phase[h := Owned])
    case GetRelease(h, head) =>
      var was := s.refs[h];
      var s' := s.(refs := s.refs[h := FetchAdd(was, -1)]);
      if was == SHOULD_BE_ON_FREELIST + 1 then
        Goto(s', t, LoadHead(h, GetResumes(head))).(phase := s.phase[h := Adding(t)])
      else
        Goto(s', t, EnterLoop(head))
  }

  /** Every node belongs to some caller, the list is empty and nobody is inside it. */
  predicate Init(s: State) {
    && |s.next| == |s.refs| == |s.phase|
    && s.head == None && s.chain == []
    && |s.pcs| < SHOULD_BE_ON_FREELIST - 1
    && (forall n :: 0 <= n < |s.refs| ==> s.refs[n] == 0 && s.next[n] == None && s.phase[n] == Owned)
    && (forall t :: 0 <= t < |s.pcs| ==> s.pcs[t] == Idle)
  }

  // ----- the invariant -----

  function NodeOf(p: PC): Node {
    if p.Idle? || p.GetLoadHead? then 0 else p.n
  }

  /** The phase of its node that a thread at `p` is responsible for. */
  function Duty(p: PC, t: nat): Option<Phase> {
    match p
    case AddFlag(_) => Some(Starting(t))
    case LoadHead(_, _) => Some(Adding(t))
    case StoreNext(_, _, _) => Some(Adding(t))
    case StoreRefs(_, _, _) => Some(Adding(t))
    case PushHead(_, _, _) => Some(Pushing(t))
    case PutBack(_, _, _) => Some(Pushing(t))
    case GetTake(_) => Some(Removed(t))
    case _ => None
  }

  /** The value of the node's `next` field that a thread at `p` relies on. */
  function Expects(p: PC): Option<Option<Node>> {
    match p
    case StoreRefs(_, h, _) => Some(h)
    case PushHead(_, h, _) => Some(h)
    case GetSwing(_, next) => Some(next)
    case _ => None
  }

  /** A thread at `p` raised the count of its node and has not lowered it yet. */
  predicate Retains(p: PC) {
    p.GetLoadNext? || p.GetSwing? || p.GetTake? || p.GetRelease?
  }

  function HoldsAs(n: Node): PC -> nat { p => if Retains(p) && NodeOf(p) == n then 1 else 0 }

  function Holders(s: State, n: Node): nat { Sum(s.pcs, HoldsAs(n)) }

  /** The count's share that stands for the list itself. */
  function ListRef(ph: Phase): nat {
    if ph.Pushing? || ph.OnList? || ph.Removed? then 1 else 0
  }

  function FlagBit(ph: Phase): nat {
    if ph.Flagged? || ph.Adding? then SHOULD_BE_ON_FREELIST else 0
  }

  predicate HasThread(ph: Phase) { ph.Starting? || ph.Adding? || ph.Pushing? || ph.Removed? }

  predicate PcOk(s: State, t: nat)
    requires Shape(s) && t < |s.pcs|
  {
    var p := s.pcs[t];
    && (|s.refs| > 0 && Duty(p, t).Some? ==> s.phase[NodeOf(p)] == Duty(p, t).value)
    && (|s.refs| > 0 && Expects(p).Some? ==> s.next[NodeOf(p)] == Expects(p).value)
    && (p.GetRetain? ==> Count(p.refs) != 0)
  }

  predicate NodeOk(s: State, n: Node)
    requires Shape(s) && n < |s.refs|
  {
    var ph := s.phase[n];
    && s.refs[n] == FlagBit(ph) + ListRef(ph) + Holders(s, n)
    && (ph.Flagged? ==> Holders(s, n) > 0)
    && (ph.Adding? ==> Holders(s, n) == 0)
    && (ph.OnList? <==> n in s.chain)
    && (HasThread(ph) ==> ph.t < |s.pcs| && NodeOf(s.pcs[ph.t]) == n && Duty(s.pcs[ph.t], ph.t) == Some(ph))
  }

  predicate Distinct(chain: seq<Node>) {
    forall i, j :: 0 <= i < j < |chain| ==> chain[i] != chain[j]
  }

  function At(chain: seq<Node>, i: nat): Option<Node> {
    if i < |chain| then Some(chain[i]) else None
  }

  /** Following `next` from `head` visits exactly `chain` and ends. */
  predicate Linked(s: State)
    requires Shape(s)
  {
    && s.head == At(s.chain, 0)
    && forall i :: 0 <= i < |s.chain| ==> s.next[s.chain[i]] == At(s.chain, i + 1)
  }

  predicate Inv(s: State) {
    && Shape(s)
    && |s.pcs| < SHOULD_BE_ON_FREELIST - 1
    && Distinct(s.chain) && Linked(s)
    && (forall t :: 0 <= t < |s.pcs| ==> PcOk(s, t))
    && (forall n :: 0 <= n < |s.refs| ==> NodeOk(s, n))
  }

  // ----- preservation -----

  lemma HoldersAfter(s: State, s': State, t: nat, n: Node)
    requires t < |s.pcs| && |s'.pcs| == |s.pcs| && s'.pcs == s.pcs[t := s'.pcs[t]]
    ensures Holders(s', n) + HoldsAs(n)(s.pcs[t]) == Holders(s, n) + HoldsAs(n)(s'.pcs[t])
    ensures HoldsAs(n)(s.pcs[t]) <= Holders(s, n) <= |s.pcs|
  {
    SumUpdate(s.pcs, HoldsAs(n), t, s'.pcs[t]);
    SumAtLeast(s.pcs, HoldsAs(n), t);
    SumAtMost(s.pcs, HoldsAs(n), 1);
  }

  /** A step of `t` on node `m` changes nothing for the other nodes. */
  predicate Local(s: State, s': State, t: nat, m: Node)
    requires Shape(s) && Shape(s') && t < |s.pcs| && m < |s.refs|
  {
    && |s'.refs| == |s.refs| && |s'.pcs| == |s.pcs|
    && s'.pcs == s.pcs[t := s'.pcs[t]]
    && s'.refs == s.refs[m := s'.refs[m]]
    && s'.next == s.next[m := s'.next[m]]
    && s'.phase == s.phase[m := s'.phase[m]]
  }

  /** The thread's position before and after names only `m`, as holder or as responsible. */
  predicate Concerns(p: PC, t: nat, m: Node) {
    (Retains(p) || Duty(p, t).Some?) ==> NodeOf(p) == m
  }

  lemma OtherNode(s: State, s': State, t: nat, m: Node, n: Node)
    requires Inv(s) && Shape(s') && t < |s.pcs| && m < |s.refs| && n < |s.refs| && n != m
    requires Local(s, s', t, m)
    requires Concerns(s.pcs[t], t, m) && Concerns(s'.pcs[t], t, m)
    requires n in s'.chain <==> n in s.chain
    ensures NodeOk(s', n)
  {
    assert NodeOk(s, n);
    HoldersAfter(s, s', t, n);
  }

  lemma OtherThread(s: State, s': State, t: nat, m: Node, u: nat)
    requires Inv(s) && Shape(s') && t < |s.pcs| && m < |s.refs| && u < |s.pcs| && u != t
    requires Local(s, s', t, m)
    requires s'.next[m] == s.next[m] || s.phase[m] == Adding(t)
    requires s'.phase[m] == s.phase[m] || s.phase[m] == Owned || (HasThread(s.phase[m]) && s.phase[m].t == t) || s.phase[m].Flagged? || s.phase[m].OnList?
    ensures PcOk(s', u)
  {
    assert PcOk(s, u);
    assert NodeOk(s, m);
    if s'.next[m] != s.next[m] && NodeOf(s.pcs[u]) == m && Expects(s.pcs[u]).Some? {
      SumAtLeast(s.pcs, HoldsAs(m), u);
    }
  }

  /** A step of `t` that touches at most node `m`, and not the list, keeps the invariant if it
      keeps it for `m` and `t` themselves. */
  lemma LocalStep(s: State, s': State, t: nat, m: Node)
    requires Inv(s) && t < |s.pcs| && m < |s.refs|
    requires Shape(s') && Local(s, s', t, m)
    requires Concerns(s.pcs[t], t, m) && Concerns(s'.pcs[t], t, m)
    requires s'.head == s.head && s'.chain == s.chain
    requires s'.next[m] == s.next[m] || s.phase[m] == Adding(t)
    requires s'.phase[m] == s.phase[m] || s.phase[m] == Owned || s.phase[m].Flagged? || (HasThread(s.phase[m]) && s.phase[m].t == t)
    requires NodeOk(s', m) && PcOk(s', t)
    ensures Inv(s')
  {
    forall u | 0 <= u < |s.pcs| ensures PcOk(s', u) {
      if u != t { OtherThread(s, s', t, m, u); }
    }
    forall n | 0 <= n < |s.refs| ensures NodeOk(s', n) {
      if n != m { OtherNode(s, s', t, m, n); }
    }
    assert NodeOk(s, m);
  }

  /** A step that moves only the thread itself, between points where it is bound to no node. */
  lemma ControlStep(s: State, s': State, t: nat)
    requires Inv(s) && t < |s.pcs| && Shape(s') && |s'.pcs| == |s.pcs|
    requires s' == s.(pcs := s.pcs[t := s'.pcs[t]])
    requires forall p :: p == s.pcs[t] || p == s'.pcs[t] ==> !Retains(p) && Duty(p, t).None?
    requires PcOk(s', t)
    ensures Inv(s')
  {
    forall u | 0 <= u < |s.pcs| ensures PcOk(s', u) {
      assert PcOk(s, u);
    }
    forall n | 0 <= n < |s.refs| ensures NodeOk(s', n) {
      assert NodeOk(s, n);
      HoldersAfter(s, s', t, n);
    }
  }

  lemma SameShape(s: State, s': State, t: nat)
    requires Shape(s) && t < |s.pcs|
    requires |s'.refs| == |s.refs| && |s'.next| == |s.next| && |s'.phase| == |s.phase| && |s'.pcs| == |s.pcs|
    requires s'.head == s.head && s'.next == s.next && s'.chain == s.chain
    requires forall n :: 0 <= n < |s.refs| ==> s'.refs[n] < WORD
    requires s'.pcs == s.pcs[t := s'.pcs[t]] && PcIn(s'.pcs[t], |s.refs|)
    ensures Shape(s')
  {
  }

  lemma IdleKeeps(s: State, a: Act)
    requires Inv(s) && a.t < |s.pcs| && s.pcs[a.t].Idle?
    ensures Inv(Step(s, a))
  {
    var s' := Step(s, a);
    match a.call
    case CallTryGet =>
      SameShape(s, s', a.t);
      ControlStep(s, s', a.t);
    case CallAdd(n) =>
      if n < |s.refs| && s.phase[n] == Owned {
        SameShape(s, s', a.t);
        assert NodeOk(s, n);
        HoldersAfter(s, s', a.t, n);
        LocalStep(s, s', a.t, n);
      }
  }

  lemma AddFlagKeeps(s: State, a: Act)
    requires Inv(s) && a.t < |s.pcs| && s.pcs[a.t].AddFlag?
    ensures Inv(Step(s, a))
  {
    var s' := Step(s, a);
    var n := s.pcs[a.t].n;
    SameShape(s, s', a.t);
    assert PcOk(s, a.t) && NodeOk(s, n);
    HoldersAfter(s, s', a.t, n);
    LocalStep(s, s', a.t, n);
  }

  lemma LoadHeadKeeps(s: State, a: Act)
    requires Inv(s) && a.t < |s.pcs| && s.pcs[a.t].LoadHead?
    ensures Inv(Step(s, a))
  {
    var s' := Step(s, a);
    var n := s.pcs[a.t].n;
    SameShape(s, s', a.t);
    assert PcOk(s, a.t) && NodeOk(s, n);
    HoldersAfter(s, s', a.t, n);
    LocalStep(s, s', a.t, n);
  }

  lemma StoreNextKeeps(s: State, a: Act)
    requires Inv(s) && a.t < |s.pcs| && s.pcs[a.t].StoreNext?
    ensures Inv(Step(s, a))
  {
    var s' := Step(s, a);
    var n := s.pcs[a.t].n;
    assert PcIn(s.pcs[a.t], |s.refs|);
    assert PcOk(s, a.t) && NodeOk(s, n);
    HoldersAfter(s, s', a.t, n);
    LocalStep(s, s', a.t, n);
  }

  lemma StoreRefsKeeps(s: State, a: Act)
    requires Inv(s) && a.t < |s.pcs| && s.pcs[a.t].StoreRefs?
    ensures Inv(Step(s, a))
  {
    var s' := Step(s, a);
    var n := s.pcs[a.t].n;
    SameShape(s, s', a.t);
    assert PcOk(s, a.t) && NodeOk(s, n);
    HoldersAfter(s, s', a.t, n);
    LocalStep(s, s', a.t, n);
  }

  lemma PushHeadKeeps(s: State, a: Act)
    requires Inv(s) && a.t < |s.pcs| && s.pcs[a.t].PushHead?
    ensures Inv(Step(s, a))
  {
    hide Distinct, Linked;
    var s' := Step(s, a);
    var n := s.pcs[a.t].n;
    assert PcIn(s.pcs[a.t], |s.refs|);
    assert PcOk(s, a.t) && NodeOk(s, n);
    HoldersAfter(s, s', a.t, n);
    if s.head == s.pcs[a.t].head {
      PushedChain(s, s', n);
      LinkedStep(s, s', a.t, n);
    } else {
      SameShape(s, s', a.t);
      LocalStep(s, s', a.t, n);
    }
  }

  /** A step of `t` that puts `m` on the list or takes it off. */
  lemma LinkedStep(s: State, s': State, t: nat, m: Node)
    requires Inv(s) && t < |s.pcs| && m < |s.refs|
    requires Shape(s') && Local(s, s', t, m)
    requires Concerns(s.pcs[t], t, m) && Concerns(s'.pcs[t], t, m)
    requires Distinct(s'.chain) && Linked(s')
    requires forall n: Node :: n != m ==> (n in s'.chain <==> n in s.chain)
    requires s'.next == s.next
    requires s.phase[m].OnList? || (HasThread(s.phase[m]) && s.phase[m].t == t)
    requires NodeOk(s', m) && PcOk(s', t)
    ensures Inv(s')
  {
    forall u | 0 <= u < |s.pcs| ensures PcOk(s', u) {
      if u != t { OtherThread(s, s', t, m, u); }
    }
    forall n | 0 <= n < |s.refs| ensures NodeOk(s', n) {
      if n != m { OtherNode(s, s', t, m, n); }
    }
  }

  lemma PushedChain(s: State, s': State, n: Node)
    requires Shape(s) && Shape(s') && Distinct(s.chain) && Linked(s) && n < |s.refs| && n !in s.chain
    requires s'.next == s.next && s.next[n] == s.head && s'.head == Some(n) && s'.chain == [n] + s.chain
    ensures Distinct(s'.chain) && Linked(s')
  {
    forall i | 0 <= i < |s'.chain| ensures s'.next[s'.chain[i]] == At(s'.chain, i + 1) {
      if i > 0 {
        assert s'.chain[i] == s.chain[i - 1];
        assert s.next[s.chain[i - 1]] == At(s.chain, i);
      }
    }
  }

  /** No ABA: when the exchange of the head in `try_get` succeeds, the `next` read earlier is
      still the node's `next`, and it is the second node of the list. */
  lemma HeadSwingIsSafe(s: State, t: nat)
    requires Inv(s) && t < |s.pcs|
    requires s.pcs[t].GetSwing? && s.head == Some(s.pcs[t].n)
    ensures s.chain != [] && s.chain[0] == s.pcs[t].n
    ensures s.pcs[t].next == s.next[s.pcs[t].n] == At(s.chain, 1)
  {
    assert s.next[s.chain[0]] == At(s.chain, 1);
    assert PcOk(s, t);
  }

  lemma PoppedChain(s: State, s': State)
    requires Shape(s) && Shape(s') && Distinct(s.chain) && Linked(s) && s.chain != []
    requires s'.next == s.next && s'.head == At(s.chain, 1) && s'.chain == s.chain[1..]
    ensures Distinct(s'.chain) && Linked(s')
    ensures forall m: Node :: m in s'.chain <==> m in s.chain && m != s.chain[0]
  {
    forall i | 0 <= i < |s'.chain| ensures s'.next[s'.chain[i]] == At(s'.chain, i + 1) {
      assert s.next[s.chain[i + 1]] == At(s.chain, i + 2);
    }
    forall m: Node | m in s.chain && m != s.chain[0] ensures m in s'.chain {
      var i :| 0 <= i < |s.chain| && s.chain[i] == m;
      assert s'.chain[i - 1] == m;
    }
  }

  lemma GetSwingKeeps(s: State, a: Act)
    requires Inv(s) && a.t < |s.pcs| && s.pcs[a.t].GetSwing?
    ensures Inv(Step(s, a))
  {
    var s' := Step(s, a);
    var n := s.pcs[a.t].n;
    assert PcIn(s.pcs[a.t], |s.refs|);
    assert PcOk(s, a.t) && NodeOk(s, n);
    HoldersAfter(s, s', a.t, n);
    if s.head == Some(n) {
      HeadSwingIsSafe(s, a.t);
      PoppedChain(s, s');
      LinkedStep(s, s', a.t, n);
    } else {
      SameShape(s, s', a.t);
      LocalStep(s, s', a.t, n);
    }
  }

  lemma PutBackKeeps(s: State, a: Act)
    requires Inv(s) && a.t < |s.pcs| && s.pcs[a.t].PutBack?
    ensures Inv(Step(s, a))
  {
    var s' := Step(s, a);
    var n := s.pcs[a.t].n;
    assert PcIn(s.pcs[a.t], |s.refs|);
    SameShape(s, s', a.t);
    assert PcOk(s, a.t) && NodeOk(s, n);
    HoldersAfter(s, s', a.t, n);
    LocalStep(s, s', a.t, n);
  }

  lemma GetRetainKeeps(s: State, a: Act)
    requires Inv(s) && a.t < |s.pcs| && s.pcs[a.t].GetRetain?
    ensures Inv(Step(s, a))
  {
    var s' := Step(s, a);
    var n := s.pcs[a.t].n;
    assert PcIn(s.pcs[a.t], |s.refs|);
    SameShape(s, s', a.t);
    assert PcOk(s, a.t) && NodeOk(s, n);
    HoldersAfter(s, s', a.t, n);
    LocalStep(s, s', a.t, n);
  }

  lemma GetLoadNextKeeps(s: State, a: Act)
    requires Inv(s) && a.t < |s.pcs| && s.pcs[a.t].GetLoadNext?
    ensures Inv(Step(s, a))
  {
    var s' := Step(s, a);
    var n := s.pcs[a.t].n;
    assert PcIn(s.pcs[a.t], |s.refs|);
    SameShape(s, s', a.t);
    assert PcOk(s, a.t) && NodeOk(s, n);
    HoldersAfter(s, s', a.t, n);
    LocalStep(s, s', a.t, n);
  }

  lemma GetTakeKeeps(s: State, a: Act)
    requires Inv(s) && a.t < |s.pcs| && s.pcs[a.t].GetTake?
    ensures Inv(Step(s, a))
  {
    var s' := Step(s, a);
    var n := s.pcs[a.t].n;
    assert PcIn(s.pcs[a.t], |s.refs|);
    SameShape(s, s', a.t);
    assert PcOk(s, a.t) && NodeOk(s, n);
    HoldersAfter(s, s', a.t, n);
    LocalStep(s, s', a.t, n);
  }

  lemma GetReleaseKeeps(s: State, a: Act)
    requires Inv(s) && a.t < |s.pcs| && s.pcs[a.t].GetRelease?
    ensures Inv(Step(s, a))
  {
    var s' := Step(s, a);
    var n := s.pcs[a.t].n;
    assert PcIn(s.pcs[a.t], |s.refs|);
    SameShape(s, s', a.t);
    assert PcOk(s, a.t) && NodeOk(s, n);
    HoldersAfter(s, s', a.t, n);
    LocalStep(s, s', a.t, n);
  }

  lemma GetLoadKeeps(s: State, a: Act)
    requires Inv(s) && a.t < |s.pcs| && (s.pcs[a.t].GetLoadHead? || s.pcs[a.t].GetLoadRefs?)
    ensures Inv(Step(s, a))
  {
    var s' := Step(s, a);
    SameShape(s, s', a.t);
    ControlStep(s, s', a.t);
  }

  /** Every atomic access of every thread, in any order, keeps the invariant. */
  lemma StepKeepsInv(s: State, a: Act)
    requires Inv(s) && a.t < |s.pcs|
    ensures Inv(Step(s, a))
  {
    match s.pcs[a.t]
    case Idle => IdleKeeps(s, a);
    case AddFlag(_) => AddFlagKeeps(s, a);
    case LoadHead(_, _) => LoadHeadKeeps(s, a);
    case StoreNext(_, _, _) => StoreNextKeeps(s, a);
    case StoreRefs(_, _, _) => StoreRefsKeeps(s, a);
    case PushHead(_, _, _) => PushHeadKeeps(s, a);
    case PutBack(_, _, _) => PutBackKeeps(s, a);
    case GetLoadHead => GetLoadKeeps(s, a);
    case GetLoadRefs(_) => GetLoadKeeps(s, a);
    case GetRetain(_, _) => GetRetainKeeps(s, a);
    case GetLoadNext(_) => GetLoadNextKeeps(s, a);
    case GetSwing(_, _) => GetSwingKeeps(s, a);
    case GetTake(_) => GetTakeKeeps(s, a);
    case GetRelease(_, _) => GetReleaseKeeps(s, a);
  }

  // ----- whole runs -----

  /** `states` is a run of any number of threads that take the steps `acts`. */
  ghost predicate Run(states: seq<State>, acts: seq<Act>) {
    && |states| == |acts| + 1
    && Init(states[0])
    && (forall i :: 0 <= i < |acts| ==> Next(states[i], acts[i], states[i + 1]))
  }

  ghost predicate Next(s: State, a: Act, s': State) {
    Shape(s) && a.t < |s.pcs| && s' == Step(s, a)
  }

  lemma InitHoldsInv(s: State)
    requires Init(s)
    ensures Inv(s)
  {
    forall n | 0 <= n < |s.refs| ensures NodeOk(s, n) {
      if Holders(s, n) > 0 {
        var t := SumWitness(s.pcs, HoldsAs(n));
      }
    }
  }

  lemma {:induction false} RunKeepsInv(states: seq<State>, acts: seq<Act>, i: nat)
    requires Run(states, acts) && i < |states|
    ensures Inv(states[i])
  {
    if i == 0 {
      InitHoldsInv(states[0]);
    } else {
      RunKeepsInv(states, acts, i - 1);
      assert Next(states[i - 1], acts[i - 1], states[i]);
      StepKeepsInv(states[i - 1], acts[i - 1]);
    }
  }

  /** In every reachable state the list is acyclic: following `next` from the head meets each
      linked node once and ends. */
  lemma ListIsAcyclic(states: seq<State>, acts: seq<Act>, i: nat)
    requires Run(states, acts) && i < |states|
    ensures Shape(states[i]) && Linked(states[i]) && Distinct(states[i].chain)
  {
    RunKeepsInv(states, acts, i);
  }

  /** In every reachable state: the assertion of `try_get` holds, and the exchange that took the
      node off the list read an up-to-date `next`. */
  lemma NoAba(states: seq<State>, acts: seq<Act>, i: nat)
    requires Run(states, acts) && i < |acts|
    ensures Shape(states[i]) && acts[i].t < |states[i].pcs|
    ensures var s, p := states[i], states[i].pcs[acts[i].t];
            && (p.GetTake? ==> p.n < |s.refs| && 2 <= s.refs[p.n] < SHOULD_BE_ON_FREELIST)
            && (p.GetSwing? && s.head == Some(p.n) ==> p.n < |s.next| && p.next == s.next[p.n])
  {
    RunKeepsInv(states, acts, i);
    var s, t := states[i], acts[i].t;
    assert Next(s, acts[i], states[i + 1]);
    assert PcOk(s, t);
    if s.pcs[t].GetTake? {
      assert PcIn(s.pcs[t], |s.refs|);
      assert NodeOk(s, s.pcs[t].n);
      HoldersAfter(s, s, t, s.pcs[t].n);
    } else if s.pcs[t].GetSwing? {
      assert PcIn(s.pcs[t], |s.refs|);
    }
  }

  /** This step makes `try_get` return `n`. */
  ghost predicate Hands(s: State, a: Act, n: Node) {
    a.t < |s.pcs| && s.pcs[a.t] == GetTake(n)
  }

  /** This step starts a call `add(n)`. */
  ghost predicate Adds(s: State, a: Act, n: Node) {
    a.t < |s.pcs| && s.pcs[a.t].Idle? && a.call == CallAdd(n)
  }

  lemma OwnedUntilAdded(s: State, a: Act, s': State, n: Node)
    requires Inv(s) && Next(s, a, s') && n < |s.phase| && s.phase[n] == Owned && !Adds(s, a, n)
    ensures n < |s'.phase| && s'.phase[n] == Owned
  {
    var p := s.pcs[a.t];
    assert PcOk(s, a.t);
    assert PcIn(p, |s.refs|);
    assert NodeOk(s, n);
    if Retains(p) && NodeOf(p) == n {
      HoldersAfter(s, s, a.t, n);
    }
    if p.GetSwing? && s.head == Some(p.n) {
      HeadSwingIsSafe(s, a.t);
    }
  }

  lemma {:induction false} StaysOwned(states: seq<State>, acts: seq<Act>, i: nat, j: nat, n: Node)
    requires Run(states, acts) && i <= j < |acts|
    requires n < |states[i].phase| && states[i].phase[n] == Owned
    requires forall k :: i <= k < j ==> !Adds(states[k], acts[k], n)
    ensures n < |states[j].phase| && states[j].phase[n] == Owned
  {
    hide Step, Shape, Inv, Init;
    if i < j {
      StaysOwned(states, acts, i, j - 1, n);
      RunKeepsInv(states, acts, j - 1);
      OwnedUntilAdded(states[j - 1], acts[j - 1], states[j], n);
    }
  }

  /** No node is handed out twice without having been added in between. */
  lemma NoDoubleHandout(states: seq<State>, acts: seq<Act>, i: nat, j: nat, n: Node)
    requires Run(states, acts) && i < j < |acts|
    requires Hands(states[i], acts[i], n) && Hands(states[j], acts[j], n)
    ensures exists k :: i < k < j && Adds(states[k], acts[k], n)
  {
    RunKeepsInv(states, acts, i);
    assert Next(states[i], acts[i], states[i + 1]);
    assert PcIn(states[i].pcs[acts[i].t], |states[i].refs|);
    RunKeepsInv(states, acts, j);
    assert PcOk(states[j], acts[j].t);
    if forall k :: i < k < j ==> !Adds(states[k], acts[k], n) {
      StaysOwned(states, acts, i + 1, j, n);
    }
  }

  /** A node that should be on the list but is not is never lost: either some thread still holds
      a reference to it, and then nobody is adding it, or exactly one thread is adding it. */
  lemma FlaggedNodeHasACarer(s: State, n: Node)
    requires Inv(s) && n < |s.refs| && s.refs[n] >= SHOULD_BE_ON_FREELIST
    ensures n !in s.chain
    ensures (exists t :: 0 <= t < |s.pcs| && Retains(s.pcs[t]) && NodeOf(s.pcs[t]) == n)
       <==> !(exists t :: 0 <= t < |s.pcs| && Duty(s.pcs[t], t).Some? && NodeOf(s.pcs[t]) == n)
    ensures forall t, u ::
              (0 <= t < |s.pcs| && 0 <= u < |s.pcs| && Duty(s.pcs[t], t).Some? && Duty(s.pcs[u], u).Some?
               && NodeOf(s.pcs[t]) == NodeOf(s.pcs[u]) == n) ==> t == u
  {
    assert NodeOk(s, n);
    SumAtMost(s.pcs, HoldsAs(n), 1);
    forall t | 0 <= t < |s.pcs| && Duty(s.pcs[t], t).Some? && NodeOf(s.pcs[t]) == n
      ensures s.phase[n] == Adding(t)
    {
      assert PcOk(s, t);
    }
    if Holders(s, n) > 0 {
      var t := SumWitness(s.pcs, HoldsAs(n));
      assert Retains(s.pcs[t]) && NodeOf(s.pcs[t]) == n;
    } else {
      forall t | 0 <= t < |s.pcs| ensures !(Retains(s.pcs[t]) && NodeOf(s.pcs[t]) == n) {
        SumAtLeast(s.pcs, HoldsAs(n), t);
      }
    }
  }

  /** Conservation: when no operation is in flight every node is either on the list, once, or
      with a caller, and its count says which. */
  lemma QuietListLosesNothing(states: seq<State>, acts: seq<Act>, i: nat, n: Node)
    requires Run(states, acts) && i < |states|
    requires forall t :: 0 <= t < |states[i].pcs| ==> states[i].pcs[t] == Idle
    requires n < |states[i].refs|
    ensures n < |states[i].phase|
    ensures states[i].phase[n] == Owned <==> n !in states[i].chain
    ensures states[i].refs[n] == (if n in states[i].chain then 1 else 0)
  {
    RunKeepsInv(states, acts, i);
    var s := states[i];
    assert NodeOk(s, n);
    if Holders(s, n) > 0 {
      var t := SumWitness(s.pcs, HoldsAs(n));
    }
  }

  // ----- a call that runs alone -----

  predicate Quiet(s: State) { forall t :: 0 <= t < |s.pcs| ==> s.pcs[t] == Idle }

  /** Where the program is after `n` steps of thread `t` and of nobody else. */
  ghost function Solo(s: State, a: Act, n: nat): (s': State)
    requires Inv(s) && a.t < |s.pcs|
    ensures Inv(s') && Shape(s') && |s'.pcs| == |s.pcs|
  {
    if n == 0 then s
    else
      var before := Solo(s, a, n - 1);
      AloneKeepsInv(before, a);
      Step(before, a)
  }

  lemma AloneKeepsInv(s: State, a: Act)
    requires Inv(s) && a.t < |s.pcs|
    ensures Inv(Step(s, a)) && Shape(Step(s, a)) && |Step(s, a).pcs| == |s.pcs|
  {
    hide PcOk, NodeOk, Distinct, Linked;
    StepKeepsInv(s, a);
    SameThreads(s, a);
  }

  lemma SameThreads(s: State, a: Act)
    requires Shape(s) && a.t < |s.pcs|
    ensures |Step(s, a).pcs| == |s.pcs|
  {
    hide FetchAdd, Count, EnterLoop, Continue;
  }

  lemma NextStep(s: State, a: Act, n: nat)
    requires Inv(s) && a.t < |s.pcs|
    ensures Solo(s, a, 0) == s && Shape(Solo(s, a, n)) && |Solo(s, a, n).pcs| == |s.pcs|
    ensures Solo(s, a, n + 1) == Step(Solo(s, a, n), a)
  {
    hide Inv, Step;
  }

  /** With nobody inside the count of a node is one if it is on the list and zero if not. */
  lemma QuietCount(s: State, n: Node)
    requires Inv(s) && Quiet(s) && n < |s.refs|
    ensures s.refs[n] == (if n in s.chain then 1 else 0) && (s.phase[n].OnList? <==> n in s.chain)
  {
    assert NodeOk(s, n);
    if Holders(s, n) > 0 {
      var t := SumWitness(s.pcs, HoldsAs(n));
    }
  }

  lemma GotoTwice(s: State, t: nat, p: PC, q: PC)
    requires t < |s.pcs|
    ensures Goto(Goto(s, t, p), t, q) == Goto(s, t, q) && Goto(s, t, p).pcs[t] == p
    ensures s.pcs[t] == q ==> Goto(s, t, q) == s
  {
    assert s.pcs[t := p][t := q] == s.pcs[t := q];
    if s.pcs[t] == q { assert s.pcs[t := q] == s.pcs; }
  }

  /** What a quiet state with node `n` in front has become after `k` steps of a `try_get` by `t`. */
  function GetStage(s: State, t: nat, n: Node, k: nat): State
    requires t < |s.pcs| && n < |s.refs| == |s.next| == |s.phase| && s.chain != []
  {
    if k == 0 then s
    else if k == 1 then Goto(s, t, GetLoadHead)
    else if k == 2 then Goto(s, t, GetLoadRefs(n))
    else if k == 3 then Goto(s, t, GetRetain(n, 1))
    else if k == 4 then Goto(s, t, GetLoadNext(n)).(refs := s.refs[n := 2])
    else if k == 5 then Goto(s, t, GetSwing(n, s.next[n])).(refs := s.refs[n := 2])
    else if k == 6 then Goto(s, t, GetTake(n)).(refs := s.refs[n := 2], head := s.next[n], chain := s.chain[1..], phase := s.phase[n := Removed(t)])
    else s.(refs := s.refs[n := 0], head := s.next[n], chain := s.chain[1..], phase := s.phase[n := Owned])
  }

  lemma GetStageLoads(s: State, t: nat, n: Node, k: nat)
    requires t < |s.pcs| && n < |s.refs| == |s.next| == |s.phase| && s.chain != [] && s.pcs[t] == Idle && s.head == Some(n) && s.refs[n] == 1
    requires k < 3 && Shape(GetStage(s, t, n, k))
    ensures Step(GetStage(s, t, n, k), Act(t, CallTryGet)) == GetStage(s, t, n, k + 1)
  {
    GotoTwice(s, t, GetLoadHead, GetLoadRefs(n));
    GotoTwice(s, t, GetLoadRefs(n), GetRetain(n, 1));
  }

  lemma GetStageRetains(s: State, t: nat, n: Node, k: nat)
    requires t < |s.pcs| && n < |s.refs| == |s.next| == |s.phase| && s.chain != [] && s.head == Some(n) && s.refs[n] == 1
    requires 3 <= k < 5 && Shape(GetStage(s, t, n, k))
    ensures Step(GetStage(s, t, n, k), Act(t, CallTryGet)) == GetStage(s, t, n, k + 1)
  {
    GotoTwice(s, t, GetRetain(n, 1), GetLoadNext(n));
    GotoTwice(s, t, GetLoadNext(n), GetSwing(n, s.next[n]));
  }

  lemma GetStageSwings(s: State, t: nat, n: Node)
    requires t < |s.pcs| && n < |s.refs| == |s.next| == |s.phase| && s.chain != [] && s.head == Some(n)
    requires Shape(GetStage(s, t, n, 5))
    ensures Step(GetStage(s, t, n, 5), Act(t, CallTryGet)) == GetStage(s, t, n, 6)
  {
    GotoTwice(s, t, GetSwing(n, s.next[n]), GetTake(n));
  }

  lemma GetStageTakes(s: State, t: nat, n: Node)
    requires t < |s.pcs| && n < |s.refs| == |s.next| == |s.phase| && s.chain != [] && s.pcs[t] == Idle
    requires Shape(GetStage(s, t, n, 6))
    ensures Step(GetStage(s, t, n, 6), Act(t, CallTryGet)) == GetStage(s, t, n, 7)
  {
    GotoTwice(s, t, GetTake(n), Idle);
    assert s.phase[n := Removed(t)][n := Owned] == s.phase[n := Owned];
    assert s.refs[n := 2][n := 0] == s.refs[n := 0];
  }

  lemma {:induction false} GetStages(s: State, t: nat, n: Node, k: nat)
    requires Inv(s) && t < |s.pcs| && n < |s.refs| && s.pcs[t] == Idle && s.chain != [] && s.head == Some(n) && s.refs[n] == 1 && k <= 7
    ensures |s.refs| == |s.next| == |s.phase| && Solo(s, Act(t, CallTryGet), k) == GetStage(s, t, n, k)
  {
    Sizes(s);
    hide Step, Shape, Inv, Solo;
    if k == 0 {
      NextStep(s, Act(t, CallTryGet), 0);
    } else {
      GetStages(s, t, n, k - 1);
      NextStep(s, Act(t, CallTryGet), k - 1);
      hide GetStage;
      if k <= 3 {
        GetStageLoads(s, t, n, k - 1);
      } else if k <= 5 {
        GetStageRetains(s, t, n, k - 1);
      } else if k == 6 {
        GetStageSwings(s, t, n);
      } else {
        GetStageTakes(s, t, n);
      }
    }
  }

  lemma Sizes(s: State)
    requires Inv(s)
    ensures Shape(s) && |s.refs| == |s.next| == |s.phase|
    ensures s.head == At(s.chain, 0) && (s.chain != [] ==> s.chain[0] < |s.refs|)
  {
  }

  /** `try_get` with nobody else inside ends after two steps on an empty list and otherwise after seven,
      the last of which hands out the first node of the list, which is the caller's then. */
  lemma LoneTryGet(s: State, t: nat) returns (n: nat)
    requires Inv(s) && Quiet(s) && t < |s.pcs|
    ensures n == if s.chain == [] then 2 else 7
    ensures forall k: nat :: 0 < k < n ==> Solo(s, Act(t, CallTryGet), k).pcs[t] != Idle
    ensures var a := Act(t, CallTryGet);
            var s' := Solo(s, a, n);
            && s'.pcs == s.pcs
            && (s.chain == [] <==> !Solo(s, a, n - 1).pcs[t].GetTake?)
            && (s.chain == [] ==> s' == s)
            && (s.chain != [] ==>
                  && Hands(Solo(s, a, n - 1), a, s.chain[0]) && s'.chain == s.chain[1..]
                  && s.chain[0] < |s.phase| && s'.phase == s.phase[s.chain[0] := Owned])
  {
    Sizes(s);
    if s.chain == [] {
      NothingThere(s, t);
      n := 2;
    } else {
      hide Step, Shape, Solo, Inv;
      var m := s.chain[0];
      QuietCount(s, m);
      n := 7;
      forall k: nat | 0 < k <= n ensures Solo(s, Act(t, CallTryGet), k) == GetStage(s, t, m, k) {
        GetStages(s, t, m, k);
      }
    }
  }

  lemma NothingThere(s: State, t: nat)
    requires Inv(s) && t < |s.pcs| && s.pcs[t] == Idle && s.head == None
    ensures Solo(s, Act(t, CallTryGet), 1).pcs[t] == GetLoadHead && Solo(s, Act(t, CallTryGet), 2) == s
  {
    var a := Act(t, CallTryGet);
    hide Solo, Inv;
    NextStep(s, a, 0);
    NextStep(s, a, 1);
    GotoTwice(s, t, GetLoadHead, Idle);
  }

  /** What a quiet state has become after `k` steps of an `add` of node `m` by `t`. */
  function AddStage(s: State, t: nat, m: Node, k: nat): State
    requires t < |s.pcs| && m < |s.refs| == |s.next| == |s.phase|
  {
    if k == 0 then s
    else if k == 1 then Goto(s, t, AddFlag(m)).(phase := s.phase[m := Starting(t)])
    else if k == 2 then Goto(s, t, LoadHead(m, AddReturns)).(refs := s.refs[m := SHOULD_BE_ON_FREELIST], phase := s.phase[m := Adding(t)])
    else if k == 3 then Goto(s, t, StoreNext(m, s.head, AddReturns)).(refs := s.refs[m := SHOULD_BE_ON_FREELIST], phase := s.phase[m := Adding(t)])
    else if k == 4 then
      Goto(s, t, StoreRefs(m, s.head, AddReturns)).(
        refs := s.refs[m := SHOULD_BE_ON_FREELIST], phase := s.phase[m := Adding(t)], next := s.next[m := s.head])
    else if k == 5 then
      Goto(s, t, PushHead(m, s.head, AddReturns)).(refs := s.refs[m := 1], phase := s.phase[m := Pushing(t)], next := s.next[m := s.head])
    else s.(head := Some(m), chain := [m] + s.chain, refs := s.refs[m := 1], phase := s.phase[m := OnList], next := s.next[m := s.head])
  }

  lemma AddStageStarts(s: State, t: nat, m: Node, k: nat)
    requires t < |s.pcs| && m < |s.refs| == |s.next| == |s.phase| && s.pcs[t] == Idle && s.phase[m] == Owned && s.refs[m] == 0
    requires k < 2 && Shape(AddStage(s, t, m, k))
    ensures Step(AddStage(s, t, m, k), Act(t, CallAdd(m))) == AddStage(s, t, m, k + 1)
  {
    GotoTwice(s, t, AddFlag(m), LoadHead(m, AddReturns));
    assert s.phase[m := Starting(t)][m := Adding(t)] == s.phase[m := Adding(t)];
  }

  lemma AddStageStores(s: State, t: nat, m: Node, k: nat)
    requires t < |s.pcs| && m < |s.refs| == |s.next| == |s.phase|
    requires 2 <= k < 5 && Shape(AddStage(s, t, m, k))
    ensures Step(AddStage(s, t, m, k), Act(t, CallAdd(m))) == AddStage(s, t, m, k + 1)
  {
    if k == 2 {
      GotoTwice(s, t, LoadHead(m, AddReturns), StoreNext(m, s.head, AddReturns));
    } else if k == 3 {
      GotoTwice(s, t, StoreNext(m, s.head, AddReturns), StoreRefs(m, s.head, AddReturns));
    } else {
      GotoTwice(s, t, StoreRefs(m, s.head, AddReturns), PushHead(m, s.head, AddReturns));
      assert s.phase[m := Adding(t)][m := Pushing(t)] == s.phase[m := Pushing(t)];
      assert s.refs[m := SHOULD_BE_ON_FREELIST][m := 1] == s.refs[m := 1];
    }
  }

  lemma AddStagePushes(s: State, t: nat, m: Node)
    requires t < |s.pcs| && m < |s.refs| == |s.next| == |s.phase| && s.pcs[t] == Idle
    requires Shape(AddStage(s, t, m, 5))
    ensures Step(AddStage(s, t, m, 5), Act(t, CallAdd(m))) == AddStage(s, t, m, 6)
  {
    GotoTwice(s, t, PushHead(m, s.head, AddReturns), Idle);
    assert s.phase[m := Pushing(t)][m := OnList] == s.phase[m := OnList];
  }

  lemma AddStageBusy(s: State, t: nat, m: Node, k: nat)
    requires t < |s.pcs| && m < |s.refs| == |s.next| == |s.phase| && 0 < k < 6
    ensures |AddStage(s, t, m, k).pcs| == |s.pcs| && AddStage(s, t, m, k).pcs[t] != Idle
  {
  }

  lemma AddStageEnd(s: State, t: nat, m: Node)
    requires t < |s.pcs| && m < |s.refs| == |s.next| == |s.phase|
    ensures var s' := AddStage(s, t, m, 6);
            s'.pcs == s.pcs && s'.chain == [m] + s.chain && s'.phase == s.phase[m := OnList] && s'.head == Some(m)
  {
  }

  lemma QuietPc(s: State, t: nat)
    requires Quiet(s) && t < |s.pcs|
    ensures s.pcs[t] == Idle
  {
  }

  lemma {:induction false} AddStages(s: State, t: nat, m: Node, k: nat)
    requires Inv(s) && t < |s.pcs| && m < |s.refs| == |s.phase| && s.pcs[t] == Idle && s.phase[m] == Owned && s.refs[m] == 0 && k <= 6
    ensures |s.refs| == |s.next| == |s.phase| && Solo(s, Act(t, CallAdd(m)), k) == AddStage(s, t, m, k)
  {
    Sizes(s);
    hide Step, Shape, Inv, Solo;
    if k == 0 {
      NextStep(s, Act(t, CallAdd(m)), 0);
    } else {
      AddStages(s, t, m, k - 1);
      NextStep(s, Act(t, CallAdd(m)), k - 1);
      hide AddStage;
      if k <= 2 {
        AddStageStarts(s, t, m, k - 1);
      } else if k <= 5 {
        AddStageStores(s, t, m, k - 1);
      } else {
        AddStagePushes(s, t, m);
      }
    }
  }

  /** `add` with nobody else inside ends after six steps; the node is then the first of the list. */
  lemma LoneAdd(s: State, t: nat, m: Node)
    requires Inv(s) && Quiet(s) && t < |s.pcs| && m < |s.phase| && s.phase[m] == Owned
    ensures forall k: nat :: 0 < k < 6 ==> Solo(s, Act(t, CallAdd(m)), k).pcs[t] != Idle
    ensures var s' := Solo(s, Act(t, CallAdd(m)), 6);
            s'.pcs == s.pcs && s'.chain == [m] + s.chain && s'.phase == s.phase[m := OnList] && s'.head == Some(m)
  {
    Sizes(s);
    QuietPc(s, t);
    hide Step, Shape, Solo, Inv, AddStage, Quiet;
    QuietCount(s, m);
    AddStages(s, t, m, 6);
    AddStageEnd(s, t, m);
    forall k: nat | 0 < k < 6 ensures Solo(s, Act(t, CallAdd(m)), k).pcs[t] != Idle {
      AddStages(s, t, m, k);
      AddStageBusy(s, t, m, k);
    }
  }

  // ----- coming back empty-handed -----

  /** From step `i` to step `j` thread `t` makes one call of `try_get`. */
  ghost predicate WholeGet(states: seq<State>, acts: seq<Act>, t: nat, i: nat, j: nat) {
    && Run(states, acts) && i < j < |acts| && acts[i] == Act(t, CallTryGet) && acts[j].t == t
    && (forall k :: 0 <= k < |states| ==> t < |states[k].pcs|)
    && states[i].pcs[t] == states[j + 1].pcs[t] == Idle
    && (forall k :: i < k <= j ==> states[k].pcs[t] != Idle)
  }

  /** The head that the loop of `try_get` will go on with. */
  function Seen(p: PC): Option<Option<Node>> {
    match p
    case GetRelease(_, head) => Some(head)
    case LoadHead(_, k) => if k.GetResumes? then Some(k.head) else None
    case StoreNext(_, _, k) => if k.GetResumes? then Some(k.head) else None
    case StoreRefs(_, _, k) => if k.GetResumes? then Some(k.head) else None
    case PushHead(_, _, k) => if k.GetResumes? then Some(k.head) else None
    case PutBack(_, _, k) => if k.GetResumes? then Some(k.head) else None
    case _ => None
  }

  predicate InGet(p: PC) {
    p.GetLoadHead? || p.GetLoadRefs? || p.GetRetain? || p.GetLoadNext? || p.GetSwing? || p.GetTake? || Seen(p).Some?
  }

  /** One step of the call: it goes on, remembers no head but the present one and that of before, and
      ends only with a node or because it has seen no head. */
  lemma GetGoesOn(s: State, a: Act)
    requires Shape(s) && a.t < |s.pcs| && InGet(s.pcs[a.t])
    ensures var p, p' := s.pcs[a.t], Step(s, a).pcs[a.t];
            && (p' != Idle ==> InGet(p') && (Seen(p') == Some(None) ==> s.head == None || Seen(p) == Some(None)))
            && (p' == Idle ==> p.GetTake? || s.head == None || Seen(p) == Some(None))
  {
    hide FetchAdd, Count;
  }

  lemma OthersStay(s: State, a: Act, t: nat)
    requires Shape(s) && a.t < |s.pcs| && t < |s.pcs| && a.t != t
    ensures t < |Step(s, a).pcs| && Step(s, a).pcs[t] == s.pcs[t]
  {
    hide FetchAdd, Count, EnterLoop, Continue;
  }

  lemma GetStarts(s: State, t: nat)
    requires Shape(s) && t < |s.pcs| && s.pcs[t] == Idle
    ensures Step(s, Act(t, CallTryGet)).pcs[t] == GetLoadHead
  {
  }

  lemma {:induction false} InTheCall(states: seq<State>, acts: seq<Act>, t: nat, i: nat, j: nat, k: nat)
    requires WholeGet(states, acts, t, i, j) && i < k <= j
    ensures InGet(states[k].pcs[t])
    ensures Seen(states[k].pcs[t]) == Some(None) ==> exists m :: i < m < k && states[m].head == None
    decreases k - i
  {
    hide Step, Shape, Init, InGet, Seen;
    var s, a := states[k - 1], acts[k - 1];
    assert Next(s, a, states[k]);
    if k == i + 1 {
      GetStarts(s, t);
      JustStarted();
    } else {
      InTheCall(states, acts, t, i, j, k - 1);
      if a.t == t {
        GetGoesOn(s, a);
      } else {
        OthersStay(s, a, t);
      }
    }
  }

  lemma JustStarted()
    ensures InGet(GetLoadHead) && Seen(GetLoadHead) == None
  {
  }

  /** In every run a call of `try_get` returns a node, or there was a moment during the call at which the
      list was empty. */
  lemma EmptyHandedSawEmpty(states: seq<State>, acts: seq<Act>, t: nat, i: nat, j: nat)
    requires WholeGet(states, acts, t, i, j)
    ensures (exists n :: Hands(states[j], acts[j], n)) || (exists k :: i < k <= j && states[k].head == None && states[k].chain == [])
  {
    hide Step, Shape, Init, InGet, Seen;
    InTheCall(states, acts, t, i, j, j);
    assert Next(states[j], acts[j], states[j + 1]);
    GetGoesOn(states[j], acts[j]);
    if states[j].pcs[t].GetTake? {
      assert Hands(states[j], acts[j], states[j].pcs[t].n);
    } else {
      var k: nat := j;
      if states[j].head != None {
        k :| i < k < j && states[k].head == None;
      }
      RunKeepsInv(states, acts, k);
      Sizes(states[k]);
      assert states[k].head == None && states[k].chain == [];
    }
  }
}
