/** The table from thread ids to implicit producers: a chain of open-addressing hash tables, each
    bigger than the one before it, to which any number of threads add themselves at once.  Thread
    exit is not supported in this configuration, so that keys stay once they are there.

    Each access to memory shared between threads is one step; a thread's id is its index.  The
    holder of the resize lock, `tickets`, `num` and `got` are history: no step reads them (the
    lock is only ever compared with being free). */
module ProducerTable {
  import opened Wrappers
  import opened Counting
  import opened Probing

  datatype Table = Table(keys: seq<Option<nat>>, vals: seq<nat>, prev: Option<nat>)

  datatype PC =
    | Idle
    | Search(main: nat, h: nat, d: nat)
    | Count(main: nat)
    | Check(main: nat, num: nat)
    | Locked(num: nat)
    | Alloc(main: nat, num: nat)
    | Unlock(main: nat, num: nat)
    | Admit(main: nat, num: nat)
    | FailSub(locked: bool)
    | FailClear
    | Place(main: nat, v: nat, d: nat)
    | PlaceCas(main: nat, v: nat, d: nat)
    | PlaceSet(main: nat, slot: nat, v: nat)
    | Return(r: Option<nat>)

  /** History: the threads that the count stands for, in the order in which they raised it, the
      count each of them got, and the producer each thread obtained. */
  datatype State = State(
    tables: seq<Table>,
    count: int,
    lock: Option<nat>,
    created: nat,
    pcs: seq<PC>,
    hashes: seq<nat>,
    tickets: seq<nat>,
    num: seq<nat>,
    got: seq<Option<nat>>)

  /** The next access of thread `t`; `fails` is what an allocation does if the step asks for one. */
  datatype Act = Act(t: nat, fails: bool)

  function KeyAt(tb: Table, j: nat): Option<nat> { if j < |tb.keys| then tb.keys[j] else None }

  function ValAt(tb: Table, j: nat): nat { if j < |tb.vals| then tb.vals[j] else 0 }

  function Half(size: nat): nat { size / 2 }

  /** Three quarters of a table, as the program computes it. */
  function Room(size: nat): nat { size / 2 + size / 4 }

  /** The new capacity: doubled until the count is less than half of it. */
  function Enlarge(size: nat, num: nat): nat
    requires size >= 2
    decreases if num >= size / 2 then num - size / 2 + 1 else 0
  {
    if num >= size / 2 then Enlarge(2 * size, num) else size
  }

  predicate Shape(s: State) {
    && |s.pcs| == |s.hashes| == |s.num| == |s.got|
    && |s.tables| > 0
    && (forall h :: 0 <= h < |s.tables| ==> |s.tables[h].keys| > 0)
    && (forall h :: 0 <= h < |s.tables| ==> s.tables[h].prev.Some? ==> s.tables[h].prev.value < |s.tables|)
    && (forall t :: 0 <= t < |s.pcs| ==> PcInRange(s.pcs[t], |s.tables|))
  }

  predicate PcInRange(p: PC, size: nat) {
    && (p.Search? ==> p.h < size && p.main < size)
    && (p.Count? || p.Check? || p.Alloc? || p.Unlock? || p.Admit? || p.Place? || p.PlaceCas? || p.PlaceSet? ==> p.main < size)
  }

  function Goto(s: State, t: nat, p: PC): State
    requires t < |s.pcs|
  {
    s.(pcs := s.pcs[t := p])
  }

  function Capacity(s: State, h: nat): nat { if h < |s.tables| then |s.tables[h].keys| else 0 }

  /** History: the tickets without that of thread `t`. */
  function Without(tickets: seq<nat>, t: nat): seq<nat> {
    if tickets == [] then [] else if tickets[0] == t then tickets[1..] else [tickets[0]] + Without(tickets[1..], t)
  }

  /** Looking for the own id, table by table, newest first. */
  function SearchStep(s: State, t: nat, main: nat, h: nat, d: nat): State
    requires Shape(s) && t < |s.pcs| && h < |s.tables|
  {
    var tb := s.tables[h];
    var j := Slot(s.hashes[t], d, |tb.keys|);
    match KeyAt(tb, j)
    case Some(id) =>
      if id != t then Goto(s, t, Search(main, h, d + 1))
      else if h == main then Goto(s, t, Return(Some(ValAt(tb, j))))
      else Goto(s, t, Place(main, ValAt(tb, j), 0))
    case None =>
      match tb.prev
      case Some(g) => Goto(s, t, Search(main, g, 0))
      case None => Goto(s, t, Count(main))
  }

  function AllocStep(s: State, t: nat, main: nat, num: nat, fails: bool): State
    requires Shape(s) && t < |s.pcs| && main < |s.tables|
  {
    if fails then Goto(s, t, FailSub(true))
    else
      var size := Enlarge(2 * |s.tables[main].keys|, num);
      Goto(s, t, Unlock(|s.tables|, num)).(
        tables := s.tables + [Table(seq(size, _ => None), seq(size, _ => 0), Some(main))])
  }

  function AdmitStep(s: State, t: nat, main: nat, num: nat, fails: bool): State
    requires Shape(s) && t < |s.pcs|
  {
    if num < Room(Capacity(s, main)) then
      if fails then Goto(s, t, FailSub(false))
      else Goto(s, t, Place(main, s.created, 0)).(created := s.created + 1, got := s.got[t := Some(s.created)])
    else Goto(s, t, Check(|s.tables| - 1, num))
  }

  function FailSubStep(s: State, t: nat, locked: bool): State
    requires Shape(s) && t < |s.pcs|
  {
    Goto(s, t, if locked then FailClear else Return(None)).(count := s.count - 1, tickets := Without(s.tickets, t))
  }

  function PlaceStep(s: State, t: nat, main: nat, v: nat, d: nat): State
    requires Shape(s) && t < |s.pcs| && main < |s.tables|
  {
    var tb := s.tables[main];
    Goto(s, t, if KeyAt(tb, Slot(s.hashes[t], d, |tb.keys|)).None? then PlaceCas(main, v, d) else Place(main, v, d + 1))
  }

  function PlaceCasStep(s: State, t: nat, main: nat, v: nat, d: nat): State
    requires Shape(s) && t < |s.pcs| && main < |s.tables|
  {
    var tb := s.tables[main];
    var j := Slot(s.hashes[t], d, |tb.keys|);
    if KeyAt(tb, j).None? && j < |tb.keys| then
      Goto(s, t, PlaceSet(main, j, v)).(tables := s.tables[main := tb.(keys := tb.keys[j := Some(t)])])
    else Goto(s, t, Place(main, v, d + 1))
  }

  function PlaceSetStep(s: State, t: nat, main: nat, j: nat, v: nat): State
    requires Shape(s) && t < |s.pcs| && main < |s.tables|
  {
    var tb := s.tables[main];
    Goto(s, t, Return(Some(v))).(
      tables := if j < |tb.vals| then s.tables[main := tb.(vals := tb.vals[j := v])] else s.tables)
  }

  function Step(s: State, a: Act): State
    requires Shape(s) && a.t < |s.pcs|
  {
    var t, newest := a.t, |s.tables| - 1;
    match s.pcs[t]
    case Idle => Goto(s, t, Search(newest, newest, 0))
    case Search(main, h, d) => SearchStep(s, t, main, h, d)
    case Count(main) =>
      if s.count + 1 < 0 then s
      else Goto(s, t, Check(main, s.count + 1)).(count := s.count + 1, tickets := s.tickets + [t], num := s.num[t := s.count + 1])
    case Check(main, num) =>
      if num >= Half(Capacity(s, main)) && s.lock.None? then Goto(s, t, Locked(num)).(lock := Some(t))
      else Goto(s, t, Admit(main, num))
    case Locked(num) =>
      Goto(s, t, if num >= Half(Capacity(s, newest)) then Alloc(newest, num) else Unlock(newest, num))
    case Alloc(main, num) => AllocStep(s, t, main, num, a.fails)
    case Unlock(main, num) => Goto(s, t, Admit(main, num)).(lock := None)
    case Admit(main, num) => AdmitStep(s, t, main, num, a.fails)
    case FailSub(locked) => FailSubStep(s, t, locked)
    case FailClear => Goto(s, t, Return(None)).(lock := None)
    case Place(main, v, d) => PlaceStep(s, t, main, v, d)
    case PlaceCas(main, v, d) => PlaceCasStep(s, t, main, v, d)
    case PlaceSet(main, j, v) => PlaceSetStep(s, t, main, j, v)
    case Return(_) => Goto(s, t, Idle)
  }

  predicate Init(s: State) {
    && |s.tables| == 1 && s.tables[0].prev == None && |s.tables[0].keys| == |s.tables[0].vals| > 0
    && (forall j :: 0 <= j < |s.tables[0].keys| ==> s.tables[0].keys[j] == None)
    && s.count == 0 && s.lock == None && s.tickets == [] && s.created == 0
    && |s.pcs| == |s.hashes| == |s.num| == |s.got|
    && (forall t :: 0 <= t < |s.pcs| ==> s.pcs[t] == Idle && s.got[t] == None)
  }

  // ----- the invariant -----

  ghost predicate Distinct(keys: seq<Option<nat>>) {
    forall i, j :: 0 <= i < j < |keys| && keys[i].Some? ==> keys[i] != keys[j]
  }

  ghost predicate Absent(keys: seq<Option<nat>>, t: nat) {
    forall j :: 0 <= j < |keys| ==> keys[j] != Some(t)
  }

  /** Everything before a key, from where its hash leads, is taken. */
  ghost predicate ReachOk(keys: seq<Option<nat>>, hash: nat, t: nat) {
    forall d: nat, e: nat :: e < d < |keys| && Slot(hash, d, |keys|) < |keys| && keys[Slot(hash, d, |keys|)] == Some(t) ==>
      Slot(hash, e, |keys|) < |keys| && keys[Slot(hash, e, |keys|)].Some?
  }

  /** A probe has passed `d` slots, all taken by others. */
  ghost predicate Passed(keys: seq<Option<nat>>, hash: nat, d: nat, t: nat) {
    forall e: nat :: e < d ==>
      Slot(hash, e, |keys|) < |keys| && keys[Slot(hash, e, |keys|)].Some? && keys[Slot(hash, e, |keys|)] != Some(t)
  }

  ghost predicate KeyOk(tb: Table, h: nat, j: nat, pcs: seq<PC>, tickets: seq<nat>, num: seq<nat>, got: seq<Option<nat>>)
    requires j < |tb.keys| == |tb.vals| && |pcs| == |num| == |got|
  {
    tb.keys[j].Some? ==>
      var id := tb.keys[j].value;
      && id < |pcs| && id in tickets && num[id] < Room(|tb.keys|) && got[id].Some?
      && (pcs[id] == PlaceSet(h, j, got[id].value) || tb.vals[j] == got[id].value)
  }

  ghost predicate TableOk(tb: Table, h: nat, pcs: seq<PC>, hashes: seq<nat>, tickets: seq<nat>, num: seq<nat>, got: seq<Option<nat>>)
    requires |pcs| == |num| == |got|
  {
    && |tb.keys| == |tb.vals| > 0 && Distinct(tb.keys)
    && (forall j :: 0 <= j < |tb.keys| ==> KeyOk(tb, h, j, pcs, tickets, num, got))
    && (forall t: nat :: t < |hashes| ==> ReachOk(tb.keys, hashes[t], t))
  }

  /** Every table leads to the one before it, and is at least as big. */
  ghost predicate ChainOk(tables: seq<Table>) {
    forall h :: 0 <= h < |tables| ==>
      && tables[h].prev == (if h == 0 then None else Some(h - 1))
      && (h > 0 ==> |tables[h - 1].keys| <= |tables[h].keys|)
  }

  ghost predicate TicketsOk(tickets: seq<nat>, num: seq<nat>, count: int) {
    && |tickets| == count
    && (forall i :: 0 <= i < |tickets| ==> tickets[i] < |num| && i + 1 <= num[tickets[i]])
    && (forall i, j :: 0 <= i < j < |tickets| ==> tickets[i] != tickets[j])
  }

  ghost predicate GotOk(got: seq<Option<nat>>, created: nat) {
    && (forall t :: 0 <= t < |got| && got[t].Some? ==> got[t].value < created)
    && (forall t, u :: 0 <= t < u < |got| && got[t].Some? ==> got[t] != got[u])
  }

  /** Thread `t` is in none of the tables after number `h`, which may be -1. */
  ghost predicate AbsentAfter(tables: seq<Table>, h: int, t: nat) {
    forall g :: h < g < |tables| && 0 <= g ==> Absent(tables[g].keys, t)
  }

  /** Thread `t` is in one of the tables up to number `h`. */
  ghost predicate PresentUpTo(tables: seq<Table>, h: nat, t: nat) {
    exists g :: 0 <= g <= h && g < |tables| && !Absent(tables[g].keys, t)
  }

  predicate Counted(p: PC) {
    p.Check? || p.Locked? || p.Alloc? || p.Unlock? || p.Admit? || p.FailSub? || p.Place? || p.PlaceCas? || p.PlaceSet?
  }

  predicate HasLock(p: PC) {
    p.Locked? || p.Alloc? || p.Unlock? || p == FailSub(true) || p == FailClear
  }

  ghost predicate PcOk(p: PC, t: nat, tables: seq<Table>, lock: Option<nat>, hash: nat, ticket: bool, num: nat, got: Option<nat>) {
    && PcInRange(p, |tables|)
    && (HasLock(p) ==> lock == Some(t))
    && (ticket <==> Counted(p) || got.Some?)
    && (match p
        case Idle => (if got.Some? then PresentUpTo(tables, |tables|, t) else AbsentAfter(tables, -1, t))
        case Return(r) => r == got && (if got.Some? then PresentUpTo(tables, |tables|, t) else AbsentAfter(tables, -1, t))
        case Search(main, h, d) =>
          && h <= main && Passed(tables[h].keys, hash, d, t) && AbsentAfter(tables, h, t)
          && (if got.Some? then PresentUpTo(tables, h, t) else AbsentAfter(tables, -1, t))
        case Count(main) => got == None && AbsentAfter(tables, -1, t)
        case Check(main, n) => got == None && AbsentAfter(tables, -1, t) && n == num
        case Locked(n) => got == None && AbsentAfter(tables, -1, t) && n == num
        case Alloc(main, n) => got == None && AbsentAfter(tables, -1, t) && n == num && main == |tables| - 1
        case Unlock(main, n) => got == None && AbsentAfter(tables, -1, t) && n == num
        case Admit(main, n) => got == None && AbsentAfter(tables, -1, t) && n == num
        case FailSub(_) => got == None && AbsentAfter(tables, -1, t)
        case FailClear => got == None && AbsentAfter(tables, -1, t)
        case Place(main, v, d) =>
          got == Some(v) && Absent(tables[main].keys, t) && Passed(tables[main].keys, hash, d, t) && num < Room(|tables[main].keys|)
        case PlaceCas(main, v, d) =>
          got == Some(v) && Absent(tables[main].keys, t) && Passed(tables[main].keys, hash, d, t) && num < Room(|tables[main].keys|)
        case PlaceSet(main, j, v) => got == Some(v) && KeyAt(tables[main], j) == Some(t))
  }

  ghost predicate TablesOk(tables: seq<Table>, pcs: seq<PC>, hashes: seq<nat>, tickets: seq<nat>, num: seq<nat>, got: seq<Option<nat>>)
    requires |pcs| == |num| == |got|
  {
    forall h :: 0 <= h < |tables| ==> TableOk(tables[h], h, pcs, hashes, tickets, num, got)
  }

  ghost predicate PcsOk(pcs: seq<PC>, tables: seq<Table>, lock: Option<nat>, hashes: seq<nat>, tickets: seq<nat>, num: seq<nat>, got: seq<Option<nat>>)
    requires |pcs| == |hashes| == |num| == |got|
  {
    forall t :: 0 <= t < |pcs| ==> PcOk(pcs[t], t, tables, lock, hashes[t], t in tickets, num[t], got[t])
  }

  ghost predicate Inv(s: State) {
    && |s.pcs| == |s.hashes| == |s.num| == |s.got|
    && |s.tables| > 0
    && ChainOk(s.tables) && TicketsOk(s.tickets, s.num, s.count) && GotOk(s.got, s.created)
    && TablesOk(s.tables, s.pcs, s.hashes, s.tickets, s.num, s.got)
    && PcsOk(s.pcs, s.tables, s.lock, s.hashes, s.tickets, s.num, s.got)
  }

  // ----- counting keys -----

  /** How many slots hold a key. */
  function Used(keys: seq<Option<nat>>): nat {
    if keys == [] then 0 else (if keys[0].Some? then 1 else 0) + Used(keys[1..])
  }

  function KeySet(keys: seq<Option<nat>>): set<nat> {
    if keys == [] then {} else (if keys[0].Some? then {keys[0].value} else {}) + KeySet(keys[1..])
  }

  lemma {:induction false} KeySetHas(keys: seq<Option<nat>>, t: nat)
    ensures t in KeySet(keys) <==> !Absent(keys, t)
  {
    if keys != [] {
      KeySetHas(keys[1..], t);
      assert Absent(keys, t) <==> keys[0] != Some(t) && Absent(keys[1..], t);
    }
  }

  lemma {:induction false} UsedIsKeySet(keys: seq<Option<nat>>)
    requires Distinct(keys)
    ensures |KeySet(keys)| == Used(keys)
  {
    if keys != [] {
      UsedIsKeySet(keys[1..]);
      if keys[0].Some? {
        KeySetHas(keys[1..], keys[0].value);
      }
    }
  }

  lemma {:induction false} AllUsed(keys: seq<Option<nat>>)
    requires forall j :: 0 <= j < |keys| ==> keys[j].Some?
    ensures Used(keys) == |keys|
  {
    if keys != [] { AllUsed(keys[1..]); }
  }

  function Members(tickets: seq<nat>): set<nat> { set t | t in tickets }

  lemma {:induction false} MembersBound(tickets: seq<nat>)
    ensures |Members(tickets)| <= |tickets|
  {
    if tickets == [] {
      assert Members(tickets) == {};
    } else {
      var rest := tickets[..|tickets| - 1];
      MembersBound(rest);
      assert Members(tickets) == Members(rest) + {tickets[|tickets| - 1]};
    }
  }

  /** The counting argument: whoever is in a table got a count below three quarters of it, and
      nobody's count is less than the number of those who came before and stayed. */
  lemma TableHasRoom(tb: Table, h: nat, pcs: seq<PC>, hashes: seq<nat>, tickets: seq<nat>, num: seq<nat>, got: seq<Option<nat>>, count: int)
    requires |pcs| == |num| == |got| && TableOk(tb, h, pcs, hashes, tickets, num, got) && TicketsOk(tickets, num, count)
    ensures Used(tb.keys) == 0 || Used(tb.keys) < Room(|tb.keys|)
  {
    hide ReachOk;
    var room := Room(|tb.keys|);
    var few := if room == 0 then [] else if room - 1 <= |tickets| then tickets[..room - 1] else tickets;
    forall t | t in KeySet(tb.keys) ensures t in Members(few) && room > 0 {
      KeySetHas(tb.keys, t);
      var j :| 0 <= j < |tb.keys| && tb.keys[j] == Some(t);
      assert KeyOk(tb, h, j, pcs, tickets, num, got);
      var i :| 0 <= i < |tickets| && tickets[i] == t;
      assert few[i] == t;
    }
    UsedIsKeySet(tb.keys);
    MembersBound(few);
    SubsetCard(KeySet(tb.keys), Members(few));
    if KeySet(tb.keys) != {} {
      var t :| t in KeySet(tb.keys);
      assert room > 0;
    }
  }

  /** No probe comes around: it meets a free slot or its own key before. */
  lemma NeverAround(tb: Table, h: nat, pcs: seq<PC>, hashes: seq<nat>, tickets: seq<nat>, num: seq<nat>, got: seq<Option<nat>>, count: int,
                    hash: nat, d: nat, t: nat)
    requires |pcs| == |num| == |got| && TableOk(tb, h, pcs, hashes, tickets, num, got) && TicketsOk(tickets, num, count)
    requires Passed(tb.keys, hash, d, t)
    ensures d < |tb.keys|
  {
    TableHasRoom(tb, h, pcs, hashes, tickets, num, got, count);
    hide KeyOk, ReachOk, Distinct, Slot;
    if d >= |tb.keys| {
      forall j | 0 <= j < |tb.keys| ensures tb.keys[j].Some? {
        var e := StepsTo(hash, j, |tb.keys|);
      }
      AllUsed(tb.keys);
      assert false;
    }
  }

  /** A probe that has met a free slot proves that the key is not in the table. */
  lemma NotBeyondFree(tb: Table, hash: nat, d: nat, t: nat)
    requires |tb.keys| > 0 && ReachOk(tb.keys, hash, t) && Passed(tb.keys, hash, d, t) && d < |tb.keys|
    requires KeyAt(tb, Slot(hash, d, |tb.keys|)).None?
    ensures Absent(tb.keys, t)
  {
    hide Slot;
    SlotBelow(hash, d, |tb.keys|);
    forall j | 0 <= j < |tb.keys| ensures tb.keys[j] != Some(t) {
      var e := StepsTo(hash, j, |tb.keys|);
      if e > d && tb.keys[j] == Some(t) {
        assert false;
      }
    }
  }

  // ----- steps that change only where the thread is -----

  lemma MovedTables(s: State, t: nat, p: PC)
    requires Inv(s) && t < |s.pcs| && !s.pcs[t].PlaceSet?
    ensures TablesOk(s.tables, s.pcs[t := p], s.hashes, s.tickets, s.num, s.got)
  {
    hide Distinct, ReachOk, PcsOk, ChainOk, TicketsOk, GotOk;
    var pcs := s.pcs[t := p];
    forall h | 0 <= h < |s.tables| ensures TableOk(s.tables[h], h, pcs, s.hashes, s.tickets, s.num, s.got) {
      assert TableOk(s.tables[h], h, s.pcs, s.hashes, s.tickets, s.num, s.got);
      forall j | 0 <= j < |s.tables[h].keys| ensures KeyOk(s.tables[h], h, j, pcs, s.tickets, s.num, s.got) {
        assert KeyOk(s.tables[h], h, j, s.pcs, s.tickets, s.num, s.got);
      }
    }
  }

  lemma MoveKeeps(s: State, s': State, t: nat)
    requires Inv(s) && t < |s.pcs| && !s.pcs[t].PlaceSet? && |s'.pcs| == |s.pcs|
    requires s' == s.(pcs := s.pcs[t := s'.pcs[t]], lock := s'.lock)
    requires s'.lock == s.lock || (s.lock == None && s'.lock == Some(t)) || (s.lock == Some(t) && s'.lock == None)
    requires PcOk(s'.pcs[t], t, s.tables, s'.lock, s.hashes[t], t in s.tickets, s.num[t], s.got[t])
    ensures Inv(s')
  {
    hide ChainOk, TicketsOk, GotOk, TablesOk, AbsentAfter, PresentUpTo, Passed, Absent;
    MovedTables(s, t, s'.pcs[t]);
    forall u | 0 <= u < |s.pcs| ensures PcOk(s'.pcs[u], u, s.tables, s'.lock, s.hashes[u], u in s.tickets, s.num[u], s.got[u]) {
      assert PcOk(s.pcs[u], u, s.tables, s.lock, s.hashes[u], u in s.tickets, s.num[u], s.got[u]);
    }
  }

  lemma NonePassed(keys: seq<Option<nat>>, hash: nat, t: nat)
    ensures Passed(keys, hash, 0, t)
  {
  }

  lemma OnePassed(tb: Table, hash: nat, d: nat, t: nat)
    requires |tb.keys| > 0 && Passed(tb.keys, hash, d, t)
    requires KeyAt(tb, Slot(hash, d, |tb.keys|)).Some? && KeyAt(tb, Slot(hash, d, |tb.keys|)) != Some(t)
    ensures Passed(tb.keys, hash, d + 1, t)
  {
    hide Slot;
    SlotBelow(hash, d, |tb.keys|);
  }

  lemma {:induction false} Bigger(tables: seq<Table>, g: nat, h: nat)
    requires ChainOk(tables) && g <= h < |tables|
    ensures |tables[g].keys| <= |tables[h].keys| && Room(|tables[g].keys|) <= Room(|tables[h].keys|)
  {
    if g < h { Bigger(tables, g, h - 1); }
  }

  /** A thread that starts looks in the newest table; what it has is in some table. */
  lemma StartOk(s: State, t: nat)
    requires Inv(s) && t < |s.pcs| && s.pcs[t].Idle?
    ensures var newest := |s.tables| - 1;
            PcOk(Search(newest, newest, 0), t, s.tables, s.lock, s.hashes[t], t in s.tickets, s.num[t], s.got[t])
  {
    hide ChainOk, TicketsOk, GotOk, TablesOk, Absent;
    var newest := |s.tables| - 1;
    assert PcOk(s.pcs[t], t, s.tables, s.lock, s.hashes[t], t in s.tickets, s.num[t], s.got[t]);
    NonePassed(s.tables[newest].keys, s.hashes[t], t);
  }

  lemma InvShape(s: State)
    requires Inv(s)
    ensures Shape(s)
  {
    forall h | 0 <= h < |s.tables| ensures |s.tables[h].keys| > 0 {
      assert TableOk(s.tables[h], h, s.pcs, s.hashes, s.tickets, s.num, s.got);
    }
    forall t | 0 <= t < |s.pcs| ensures PcInRange(s.pcs[t], |s.tables|) {
      assert PcOk(s.pcs[t], t, s.tables, s.lock, s.hashes[t], t in s.tickets, s.num[t], s.got[t]);
    }
  }

  /** One probe of the search. */
  lemma SearchOk(s: State, t: nat, main: nat, h: nat, d: nat)
    requires Inv(s) && Shape(s) && t < |s.pcs| && s.pcs[t] == Search(main, h, d)
    ensures PcOk(SearchStep(s, t, main, h, d).pcs[t], t, s.tables, s.lock, s.hashes[t], t in s.tickets, s.num[t], s.got[t])
  {
    hide GotOk, Slot, Distinct, Passed, ReachOk, Absent, AbsentAfter, PresentUpTo;
    var tb, hash := s.tables[h], s.hashes[t];
    assert PcOk(s.pcs[t], t, s.tables, s.lock, hash, t in s.tickets, s.num[t], s.got[t]);
    assert TableOk(tb, h, s.pcs, s.hashes, s.tickets, s.num, s.got);
    NeverAround(tb, h, s.pcs, s.hashes, s.tickets, s.num, s.got, s.count, hash, d, t);
    var j := Slot(hash, d, |tb.keys|);
    SlotBelow(hash, d, |tb.keys|);
    match KeyAt(tb, j)
    case Some(id) =>
      if id != t {
        OnePassed(tb, hash, d, t);
      } else {
        assert KeyOk(tb, h, j, s.pcs, s.tickets, s.num, s.got);
        FoundOk(s, t, h, j);
        if h < main {
          AbsentThere(s.tables, h, main, t);
          NonePassed(s.tables[main].keys, hash, t);
          Bigger(s.tables, h, main);
        }
      }
    case None =>
      NotBeyondFree(tb, hash, d, t);
      NowAbsent(s.tables, h, t, s.got[t]);
      if h > 0 { NonePassed(s.tables[h - 1].keys, hash, t); }
  }

  lemma FoundOk(s: State, t: nat, h: nat, j: nat)
    requires |s.tables| > h && j < |s.tables[h].keys| && s.tables[h].keys[j] == Some(t)
    ensures PresentUpTo(s.tables, |s.tables|, t)
  {
    assert !Absent(s.tables[h].keys, t);
  }

  lemma AbsentThere(tables: seq<Table>, h: nat, main: nat, t: nat)
    requires h < main < |tables| && AbsentAfter(tables, h, t)
    ensures Absent(tables[main].keys, t)
  {
  }

  lemma NowAbsent(tables: seq<Table>, h: nat, t: nat, got: Option<nat>)
    requires h < |tables| && AbsentAfter(tables, h, t) && Absent(tables[h].keys, t)
    requires if got.Some? then PresentUpTo(tables, h, t) else AbsentAfter(tables, -1, t)
    ensures AbsentAfter(tables, h - 1, t)
    ensures got.Some? ==> h > 0 && PresentUpTo(tables, h - 1, t)
  {
  }

  lemma QuietKeeps(s: State, a: Act)
    requires Inv(s) && Shape(s) && a.t < |s.pcs|
    requires s.pcs[a.t].Idle? || s.pcs[a.t].Search? || s.pcs[a.t].Return? || s.pcs[a.t].FailClear?
    ensures Inv(Step(s, a))
  {
    hide ChainOk, TicketsOk, GotOk, TablesOk, AbsentAfter, PresentUpTo, Passed, Absent, Slot;
    var t := a.t;
    assert PcOk(s.pcs[t], t, s.tables, s.lock, s.hashes[t], t in s.tickets, s.num[t], s.got[t]);
    match s.pcs[t]
    case Idle => StartOk(s, t); MoveKeeps(s, Step(s, a), t);
    case Search(main, h, d) => SearchOk(s, t, main, h, d); MoveKeeps(s, Step(s, a), t);
    case FailClear => MoveKeeps(s, Step(s, a), t);
    case Return(_) => MoveKeeps(s, Step(s, a), t);
  }

  lemma CheckKeeps(s: State, a: Act)
    requires Inv(s) && Shape(s) && a.t < |s.pcs|
    requires s.pcs[a.t].Check? || s.pcs[a.t].Locked? || s.pcs[a.t].Unlock?
    ensures Inv(Step(s, a))
  {
    hide ChainOk, TicketsOk, GotOk, TablesOk, AbsentAfter, PresentUpTo, Passed, Absent, Slot;
    var t := a.t;
    assert PcOk(s.pcs[t], t, s.tables, s.lock, s.hashes[t], t in s.tickets, s.num[t], s.got[t]);
    MoveKeeps(s, Step(s, a), t);
  }

  // ----- raising and lowering the count -----

  lemma CountKeeps(s: State, a: Act)
    requires Inv(s) && Shape(s) && a.t < |s.pcs| && s.pcs[a.t].Count?
    ensures Inv(Step(s, a))
  {
    hide ChainOk, GotOk, AbsentAfter, PresentUpTo, Passed, Absent, Slot, ReachOk, Distinct;
    var t, s' := a.t, Step(s, a);
    assert PcOk(s.pcs[t], t, s.tables, s.lock, s.hashes[t], t in s.tickets, s.num[t], s.got[t]);
    forall h | 0 <= h < |s.tables| ensures TableOk(s.tables[h], h, s'.pcs, s.hashes, s'.tickets, s'.num, s.got) {
      assert TableOk(s.tables[h], h, s.pcs, s.hashes, s.tickets, s.num, s.got);
      forall j | 0 <= j < |s.tables[h].keys| ensures KeyOk(s.tables[h], h, j, s'.pcs, s'.tickets, s'.num, s.got) {
        assert KeyOk(s.tables[h], h, j, s.pcs, s.tickets, s.num, s.got);
      }
    }
    forall u | 0 <= u < |s.pcs| ensures PcOk(s'.pcs[u], u, s.tables, s.lock, s.hashes[u], u in s'.tickets, s'.num[u], s.got[u]) {
      assert PcOk(s.pcs[u], u, s.tables, s.lock, s.hashes[u], u in s.tickets, s.num[u], s.got[u]);
    }
  }

  lemma {:induction false} WithoutMembers(tickets: seq<nat>, t: nat)
    requires forall i, j :: 0 <= i < j < |tickets| ==> tickets[i] != tickets[j]
    requires t in tickets
    ensures |Without(tickets, t)| == |tickets| - 1
    ensures forall u :: u in Without(tickets, t) <==> u in tickets && u != t
    ensures forall i :: 0 <= i < |tickets| - 1 ==> Without(tickets, t)[i] == tickets[i] || Without(tickets, t)[i] == tickets[i + 1]
    ensures forall i, j :: 0 <= i < j < |tickets| - 1 ==> Without(tickets, t)[i] != Without(tickets, t)[j]
  {
    if tickets[0] != t {
      WithoutMembers(tickets[1..], t);
      var w := Without(tickets[1..], t);
      assert Without(tickets, t) == [tickets[0]] + w;
      assert tickets[0] !in w;
      forall i | 0 <= i < |tickets| - 1
        ensures Without(tickets, t)[i] == tickets[i] || Without(tickets, t)[i] == tickets[i + 1]
      {
        if i > 0 { assert w[i - 1] == tickets[1..][i - 1] || w[i - 1] == tickets[1..][i]; }
      }
    }
  }

  lemma WithoutOk(tickets: seq<nat>, num: seq<nat>, count: int, t: nat)
    requires TicketsOk(tickets, num, count) && t in tickets
    ensures TicketsOk(Without(tickets, t), num, count - 1)
    ensures forall u :: u in Without(tickets, t) <==> u in tickets && u != t
  {
    WithoutMembers(tickets, t);
    hide Without;
    var w := Without(tickets, t);
    forall i | 0 <= i < |w| ensures w[i] < |num| && i + 1 <= num[w[i]] {
      assert w[i] == tickets[i] || w[i] == tickets[i + 1];
    }
  }

  lemma FailSubKeeps(s: State, a: Act)
    requires Inv(s) && Shape(s) && a.t < |s.pcs| && s.pcs[a.t].FailSub?
    ensures Inv(Step(s, a))
  {
    hide ChainOk, GotOk, AbsentAfter, PresentUpTo, Passed, Absent, Slot, ReachOk, Distinct, Without, TicketsOk;
    var t, s' := a.t, Step(s, a);
    assert PcOk(s.pcs[t], t, s.tables, s.lock, s.hashes[t], t in s.tickets, s.num[t], s.got[t]);
    WithoutOk(s.tickets, s.num, s.count, t);
    forall h | 0 <= h < |s.tables| ensures TableOk(s.tables[h], h, s'.pcs, s.hashes, s'.tickets, s.num, s.got) {
      assert TableOk(s.tables[h], h, s.pcs, s.hashes, s.tickets, s.num, s.got);
      forall j | 0 <= j < |s.tables[h].keys| ensures KeyOk(s.tables[h], h, j, s'.pcs, s'.tickets, s.num, s.got) {
        assert KeyOk(s.tables[h], h, j, s.pcs, s.tickets, s.num, s.got);
      }
    }
    forall u | 0 <= u < |s.pcs| ensures PcOk(s'.pcs[u], u, s.tables, s.lock, s.hashes[u], u in s'.tickets, s.num[u], s.got[u]) {
      assert PcOk(s.pcs[u], u, s.tables, s.lock, s.hashes[u], u in s.tickets, s.num[u], s.got[u]);
    }
  }

  // ----- a new table, a new producer -----

  lemma {:induction false} EnlargeEnough(size: nat, num: nat)
    requires size >= 2
    ensures Enlarge(size, num) >= size && num < Half(Enlarge(size, num))
    decreases if num >= size / 2 then num - size / 2 + 1 else 0
  {
    if num >= size / 2 { EnlargeEnough(2 * size, num); }
  }

  lemma NewTableOk(size: nat, prev: Option<nat>, h: nat, s: State, pcs: seq<PC>)
    requires |pcs| == |s.num| == |s.got| && size > 0
    ensures TableOk(Table(seq(size, _ => None), seq(size, _ => 0), prev), h, pcs, s.hashes, s.tickets, s.num, s.got)
  {
  }

  lemma NewTableAbsent(size: nat, prev: Option<nat>, t: nat)
    ensures Absent(Table(seq(size, _ => None), seq(size, _ => 0), prev).keys, t)
  {
  }

  lemma MoreTables(tables: seq<Table>, tb: Table, h: int, t: nat)
    ensures AbsentAfter(tables, h, t) && Absent(tb.keys, t) ==> AbsentAfter(tables + [tb], h, t)
    ensures forall g: nat :: PresentUpTo(tables, g, t) ==> PresentUpTo(tables + [tb], g, t)
    ensures PresentUpTo(tables, |tables|, t) ==> PresentUpTo(tables + [tb], |tables| + 1, t)
  {
    hide Absent;
    assert forall g :: 0 <= g < |tables| ==> (tables + [tb])[g] == tables[g];
    forall g: nat | PresentUpTo(tables, g, t) ensures PresentUpTo(tables + [tb], g, t) {
      var k :| 0 <= k <= g && k < |tables| && !Absent(tables[k].keys, t);
      assert !Absent((tables + [tb])[k].keys, t);
    }
    if PresentUpTo(tables, |tables|, t) {
      var k :| 0 <= k <= |tables| && k < |tables| && !Absent(tables[k].keys, t);
      assert !Absent((tables + [tb])[k].keys, t);
    }
  }

  lemma AllocKeeps(s: State, a: Act)
    requires Inv(s) && Shape(s) && a.t < |s.pcs| && s.pcs[a.t].Alloc?
    ensures Inv(Step(s, a))
  {
    hide TicketsOk, GotOk, AbsentAfter, PresentUpTo, Passed, Absent, Slot, Enlarge, TableOk;
    var t, s' := a.t, Step(s, a);
    var p := s.pcs[t];
    assert PcOk(p, t, s.tables, s.lock, s.hashes[t], t in s.tickets, s.num[t], s.got[t]);
    if a.fails {
      MoveKeeps(s, s', t);
    } else {
      var size := Enlarge(2 * |s.tables[p.main].keys|, p.num);
      EnlargeEnough(2 * |s.tables[p.main].keys|, p.num);
      NewTableOk(size, Some(p.main), |s.tables|, s, s'.pcs);
      MovedTables(s, t, s'.pcs[t]);
      var tb := Table(seq(size, _ => None), seq(size, _ => 0), Some(p.main));
      assert s'.tables == s.tables + [tb];
      forall h | 0 <= h < |s'.tables| ensures TableOk(s'.tables[h], h, s'.pcs, s.hashes, s.tickets, s.num, s.got) {
        if h < |s.tables| { assert TableOk(s.tables[h], h, s'.pcs, s.hashes, s.tickets, s.num, s.got); }
      }
      forall u | 0 <= u < |s.pcs| ensures PcOk(s'.pcs[u], u, s'.tables, s.lock, s.hashes[u], u in s.tickets, s.num[u], s.got[u]) {
        assert PcOk(s.pcs[u], u, s.tables, s.lock, s.hashes[u], u in s.tickets, s.num[u], s.got[u]);
        NewTableAbsent(size, Some(p.main), u);
        MoreTables(s.tables, tb, -1, u);
        if s.pcs[u].Search? { MoreTables(s.tables, tb, s.pcs[u].h, u); }
      }
    }
  }

  lemma AdmitKeeps(s: State, a: Act)
    requires Inv(s) && Shape(s) && a.t < |s.pcs| && s.pcs[a.t].Admit?
    ensures Inv(Step(s, a))
  {
    hide ChainOk, AbsentAfter, PresentUpTo, Passed, Slot, ReachOk, Distinct, TicketsOk;
    var t, s' := a.t, Step(s, a);
    var p := s.pcs[t];
    assert PcOk(p, t, s.tables, s.lock, s.hashes[t], t in s.tickets, s.num[t], s.got[t]);
    if p.num < Room(Capacity(s, p.main)) && !a.fails {
      AbsentAll(s.tables, p.main, t);
      NonePassed(s.tables[p.main].keys, s.hashes[t], t);
      forall h | 0 <= h < |s.tables| ensures TableOk(s.tables[h], h, s'.pcs, s.hashes, s.tickets, s.num, s'.got) {
        assert TableOk(s.tables[h], h, s.pcs, s.hashes, s.tickets, s.num, s.got);
        forall j | 0 <= j < |s.tables[h].keys| ensures KeyOk(s.tables[h], h, j, s'.pcs, s.tickets, s.num, s'.got) {
          assert KeyOk(s.tables[h], h, j, s.pcs, s.tickets, s.num, s.got);
        }
      }
      forall u | 0 <= u < |s.pcs| ensures PcOk(s'.pcs[u], u, s.tables, s.lock, s.hashes[u], u in s.tickets, s.num[u], s'.got[u]) {
        assert PcOk(s.pcs[u], u, s.tables, s.lock, s.hashes[u], u in s.tickets, s.num[u], s.got[u]);
      }
    } else {
      MoveKeeps(s, s', t);
    }
  }

  lemma AbsentAll(tables: seq<Table>, main: nat, t: nat)
    requires main < |tables| && AbsentAfter(tables, -1, t)
    ensures Absent(tables[main].keys, t)
  {
  }

  // ----- putting the key in -----

  lemma PlaceKeeps(s: State, a: Act)
    requires Inv(s) && Shape(s) && a.t < |s.pcs| && s.pcs[a.t].Place?
    ensures Inv(Step(s, a))
  {
    hide ChainOk, TicketsOk, GotOk, TablesOk, AbsentAfter, PresentUpTo, Passed, Slot;
    var t := a.t;
    var p := s.pcs[t];
    assert PcOk(p, t, s.tables, s.lock, s.hashes[t], t in s.tickets, s.num[t], s.got[t]);
    var tb := s.tables[p.main];
    SlotBelow(s.hashes[t], p.d, |tb.keys|);
    if KeyAt(tb, Slot(s.hashes[t], p.d, |tb.keys|)).Some? {
      OnePassed(tb, s.hashes[t], p.d, t);
    }
    MoveKeeps(s, Step(s, a), t);
  }

  /** A table after thread `t` took the free slot its probe had reached. */
  lemma TakenTableOk(s: State, t: nat, p: PC, pcs: seq<PC>)
    requires Inv(s) && Shape(s) && t < |s.pcs| && s.pcs[t] == p && p.PlaceCas?
    requires var j := Slot(s.hashes[t], p.d, |s.tables[p.main].keys|);
             KeyAt(s.tables[p.main], j).None? && pcs == s.pcs[t := PlaceSet(p.main, j, p.v)]
    ensures var tb, j := s.tables[p.main], Slot(s.hashes[t], p.d, |s.tables[p.main].keys|);
            j < |tb.keys| && TableOk(tb.(keys := tb.keys[j := Some(t)]), p.main, pcs, s.hashes, s.tickets, s.num, s.got)
  {
    hide ChainOk, GotOk, AbsentAfter, PresentUpTo, Slot;
    var tb, hash := s.tables[p.main], s.hashes[t];
    assert PcOk(p, t, s.tables, s.lock, hash, t in s.tickets, s.num[t], s.got[t]);
    assert TableOk(tb, p.main, s.pcs, s.hashes, s.tickets, s.num, s.got);
    NeverAround(tb, p.main, s.pcs, s.hashes, s.tickets, s.num, s.got, s.count, hash, p.d, t);
    hide TicketsOk, TablesOk;
    var j := Slot(hash, p.d, |tb.keys|);
    SlotBelow(hash, p.d, |tb.keys|);
    var tb' := tb.(keys := tb.keys[j := Some(t)]);
    forall k | 0 <= k < |tb.keys| ensures KeyOk(tb', p.main, k, pcs, s.tickets, s.num, s.got) {
      assert KeyOk(tb, p.main, k, s.pcs, s.tickets, s.num, s.got);
    }
    forall u: nat | u < |s.hashes| ensures ReachOk(tb'.keys, s.hashes[u], u) {
      assert ReachOk(tb.keys, s.hashes[u], u);
      TakenReach(tb.keys, j, hash, p.d, t, s.hashes[u], u);
    }
  }

  lemma TakenReach(keys: seq<Option<nat>>, j: nat, hash: nat, d: nat, t: nat, hash': nat, u: nat)
    requires d < |keys| && j == Slot(hash, d, |keys|) < |keys| && keys[j].None? && Passed(keys, hash, d, t)
    requires ReachOk(keys, hash', u) && (u == t ==> hash' == hash) && Absent(keys, t)
    ensures ReachOk(keys[j := Some(t)], hash', u)
  {
    hide Slot;
    var keys' := keys[j := Some(t)];
    forall c: nat, e: nat | e < c < |keys| && Slot(hash', c, |keys|) < |keys| && keys'[Slot(hash', c, |keys|)] == Some(u)
      ensures Slot(hash', e, |keys|) < |keys| && keys'[Slot(hash', e, |keys|)].Some?
    {
      if Slot(hash', c, |keys|) == j {
        if c != d { SlotsDiffer(hash, c, d, |keys|); }
      } else {
        assert keys[Slot(hash', c, |keys|)] == Some(u);
      }
    }
  }

  lemma TakenPc(s: State, t: nat, j: nat, main: nat, tables: seq<Table>, u: nat)
    requires Inv(s) && t < |s.pcs| && u < |s.pcs| && u != t && main < |s.tables| && j < |s.tables[main].keys| && s.tables[main].keys[j].None?
    requires tables == s.tables[main := s.tables[main].(keys := s.tables[main].keys[j := Some(t)])]
    ensures PcOk(s.pcs[u], u, tables, s.lock, s.hashes[u], u in s.tickets, s.num[u], s.got[u])
  {
    hide ChainOk, GotOk, TicketsOk, TablesOk, Slot;
    assert PcOk(s.pcs[u], u, s.tables, s.lock, s.hashes[u], u in s.tickets, s.num[u], s.got[u]);
    forall g | 0 <= g < |tables| ensures Absent(tables[g].keys, u) <==> Absent(s.tables[g].keys, u) {
      if !Absent(s.tables[g].keys, u) {
        var k :| 0 <= k < |s.tables[g].keys| && s.tables[g].keys[k] == Some(u);
        assert tables[g].keys[k] == Some(u);
      }
    }
    TakenPresent(s.tables, tables, u);
    hide Absent, AbsentAfter, PresentUpTo;
  }

  lemma TakenPresent(tables: seq<Table>, tables': seq<Table>, u: nat)
    requires |tables'| == |tables|
    requires forall g :: 0 <= g < |tables| ==> (Absent(tables'[g].keys, u) <==> Absent(tables[g].keys, u))
    ensures forall h: int :: AbsentAfter(tables, h, u) ==> AbsentAfter(tables', h, u)
    ensures forall h: nat :: PresentUpTo(tables, h, u) ==> PresentUpTo(tables', h, u)
  {
    hide Absent;
  }

  lemma PlaceCasKeeps(s: State, a: Act)
    requires Inv(s) && Shape(s) && a.t < |s.pcs| && s.pcs[a.t].PlaceCas?
    ensures Inv(Step(s, a))
  {
    hide TicketsOk, GotOk, AbsentAfter, PresentUpTo, Passed, Slot, TableOk;
    var t, s' := a.t, Step(s, a);
    var p := s.pcs[t];
    assert PcOk(p, t, s.tables, s.lock, s.hashes[t], t in s.tickets, s.num[t], s.got[t]);
    var tb := s.tables[p.main];
    var j := Slot(s.hashes[t], p.d, |tb.keys|);
    SlotBelow(s.hashes[t], p.d, |tb.keys|);
    if KeyAt(tb, j).Some? {
      OnePassed(tb, s.hashes[t], p.d, t);
      MoveKeeps(s, s', t);
    } else {
      TakenTableOk(s, t, p, s'.pcs);
      MovedTables(s, t, s'.pcs[t]);
      forall h | 0 <= h < |s'.tables| ensures TableOk(s'.tables[h], h, s'.pcs, s.hashes, s.tickets, s.num, s.got) {
        if h != p.main { assert TableOk(s.tables[h], h, s'.pcs, s.hashes, s.tickets, s.num, s.got); }
      }
      forall u | 0 <= u < |s.pcs| ensures PcOk(s'.pcs[u], u, s'.tables, s.lock, s.hashes[u], u in s.tickets, s.num[u], s.got[u]) {
        if u != t { TakenPc(s, t, j, p.main, s'.tables, u); }
      }
    }
  }

  lemma ValuePc(s: State, main: nat, tables: seq<Table>, u: nat)
    requires Inv(s) && u < |s.pcs| && main < |s.tables| == |tables|
    requires forall g :: 0 <= g < |tables| ==> tables[g].keys == s.tables[g].keys
    ensures PcOk(s.pcs[u], u, tables, s.lock, s.hashes[u], u in s.tickets, s.num[u], s.got[u])
  {
    hide ChainOk, GotOk, TicketsOk, TablesOk, Slot, Absent, Passed;
    assert PcOk(s.pcs[u], u, s.tables, s.lock, s.hashes[u], u in s.tickets, s.num[u], s.got[u]);
    TakenPresent(s.tables, tables, u);
    hide AbsentAfter, PresentUpTo;
  }

  lemma PlaceSetKeeps(s: State, a: Act)
    requires Inv(s) && Shape(s) && a.t < |s.pcs| && s.pcs[a.t].PlaceSet?
    ensures Inv(Step(s, a))
  {
    hide TicketsOk, GotOk, Passed, Slot, ReachOk;
    var t, s' := a.t, Step(s, a);
    var p := s.pcs[t];
    assert PcOk(p, t, s.tables, s.lock, s.hashes[t], t in s.tickets, s.num[t], s.got[t]);
    FoundOk(s, t, p.main, p.slot);
    assert TableOk(s.tables[p.main], p.main, s.pcs, s.hashes, s.tickets, s.num, s.got);
    hide Absent, AbsentAfter;
    forall h | 0 <= h < |s.tables| ensures TableOk(s'.tables[h], h, s'.pcs, s.hashes, s.tickets, s.num, s.got) {
      assert TableOk(s.tables[h], h, s.pcs, s.hashes, s.tickets, s.num, s.got);
      forall j | 0 <= j < |s.tables[h].keys| ensures KeyOk(s'.tables[h], h, j, s'.pcs, s.tickets, s.num, s.got) {
        assert KeyOk(s.tables[h], h, j, s.pcs, s.tickets, s.num, s.got);
      }
    }
    TakenPresent(s.tables, s'.tables, t);
    forall u | 0 <= u < |s.pcs| ensures PcOk(s'.pcs[u], u, s'.tables, s.lock, s.hashes[u], u in s.tickets, s.num[u], s.got[u]) {
      if u != t { ValuePc(s, p.main, s'.tables, u); }
    }
  }

  /** Every access of every thread keeps the invariant. */
  lemma StepKeepsInv(s: State, a: Act)
    requires Inv(s) && a.t < |s.pcs|
    ensures Shape(s) && Inv(Step(s, a))
  {
    InvShape(s);
    hide Inv, Shape, Step;
    match s.pcs[a.t]
    case Idle => QuietKeeps(s, a);
    case Search(_, _, _) => QuietKeeps(s, a);
    case Return(_) => QuietKeeps(s, a);
    case FailClear => QuietKeeps(s, a);
    case Count(_) => CountKeeps(s, a);
    case Check(_, _) => CheckKeeps(s, a);
    case Locked(_) => CheckKeeps(s, a);
    case Unlock(_, _) => CheckKeeps(s, a);
    case Alloc(_, _) => AllocKeeps(s, a);
    case Admit(_, _) => AdmitKeeps(s, a);
    case FailSub(_) => FailSubKeeps(s, a);
    case Place(_, _, _) => PlaceKeeps(s, a);
    case PlaceCas(_, _, _) => PlaceCasKeeps(s, a);
    case PlaceSet(_, _, _) => PlaceSetKeeps(s, a);
  }

  // ----- whole runs -----

  lemma InitHoldsInv(s: State)
    requires Init(s)
    ensures Inv(s)
  {
  }

  ghost predicate Next(s: State, a: Act, s': State) {
    Shape(s) && a.t < |s.pcs| && s' == Step(s, a)
  }

  ghost predicate Run(states: seq<State>, acts: seq<Act>) {
    && |states| == |acts| + 1
    && Init(states[0])
    && forall i :: 0 <= i < |acts| ==> Next(states[i], acts[i], states[i + 1])
  }

  lemma {:induction false} RunKeepsInv(states: seq<State>, acts: seq<Act>, i: nat)
    requires Run(states, acts) && i < |states|
    ensures Inv(states[i])
  {
    hide Inv, Init, Step, Shape;
    if i == 0 {
      InitHoldsInv(states[0]);
    } else {
      RunKeepsInv(states, acts, i - 1);
      assert Next(states[i - 1], acts[i - 1], states[i]);
      StepKeepsInv(states[i - 1], acts[i - 1]);
    }
  }

  /** In every reachable state every table of the chain is less than three quarters full. */
  lemma KeysBelowThreeQuarters(states: seq<State>, acts: seq<Act>, i: nat, h: nat)
    requires Run(states, acts) && i < |states| && h < |states[i].tables|
    ensures var keys := states[i].tables[h].keys; Used(keys) == 0 || 4 * Used(keys) < 3 * |keys|
  {
    hide Run;
    RunKeepsInv(states, acts, i);
    var s := states[i];
    assert TableOk(s.tables[h], h, s.pcs, s.hashes, s.tickets, s.num, s.got);
    TableHasRoom(s.tables[h], h, s.pcs, s.hashes, s.tickets, s.num, s.got, s.count);
  }

  /** In every reachable state each key can be found: its thread's probe from its hash meets
      only taken slots before it. */
  lemma KeysAreReachable(states: seq<State>, acts: seq<Act>, i: nat, h: nat, j: nat)
    requires Run(states, acts) && i < |states| && h < |states[i].tables|
    requires j < |states[i].tables[h].keys| && states[i].tables[h].keys[j].Some?
    ensures var s, keys := states[i], states[i].tables[h].keys;
            && keys[j].value < |s.hashes|
            && exists d: nat :: d < |keys| && Slot(s.hashes[keys[j].value], d, |keys|) == j
                 && forall e: nat :: e < d ==> KeyAt(s.tables[h], Slot(s.hashes[keys[j].value], e, |keys|)).Some?
  {
    hide Run, Slot;
    RunKeepsInv(states, acts, i);
    var s, tb := states[i], states[i].tables[h];
    assert TableOk(tb, h, s.pcs, s.hashes, s.tickets, s.num, s.got);
    assert KeyOk(tb, h, j, s.pcs, s.tickets, s.num, s.got);
    var id := tb.keys[j].value;
    var d := StepsTo(s.hashes[id], j, |tb.keys|);
    assert ReachOk(tb.keys, s.hashes[id], id);
  }

  /** In every reachable state a probe, looking for its key or for a free slot, has made fewer
      steps than the table has slots: no probe loop goes on for ever. */
  lemma ProbesEnd(states: seq<State>, acts: seq<Act>, i: nat, t: nat)
    requires Run(states, acts) && i < |states| && t < |states[i].pcs|
    ensures var s, p := states[i], states[i].pcs[t];
            && (p.Search? ==> p.h < |s.tables| && p.d < |s.tables[p.h].keys|)
            && (p.Place? || p.PlaceCas? ==> p.main < |s.tables| && p.d < |s.tables[p.main].keys|)
  {
    hide Run;
    RunKeepsInv(states, acts, i);
    hide AbsentAfter, PresentUpTo, Slot, Passed, KeyOk, Absent, ReachOk, Distinct;
    var s, p := states[i], states[i].pcs[t];
    assert PcOk(p, t, s.tables, s.lock, s.hashes[t], t in s.tickets, s.num[t], s.got[t]);
    if p.Search? {
      assert TableOk(s.tables[p.h], p.h, s.pcs, s.hashes, s.tickets, s.num, s.got);
      NeverAround(s.tables[p.h], p.h, s.pcs, s.hashes, s.tickets, s.num, s.got, s.count, s.hashes[t], p.d, t);
    } else if p.Place? || p.PlaceCas? {
      assert TableOk(s.tables[p.main], p.main, s.pcs, s.hashes, s.tickets, s.num, s.got);
      NeverAround(s.tables[p.main], p.main, s.pcs, s.hashes, s.tickets, s.num, s.got, s.count, s.hashes[t], p.d, t);
    }
  }

  lemma GotStays(s: State, a: Act, t: nat)
    requires Inv(s) && Shape(s) && a.t < |s.pcs| && t < |s.got| && s.got[t].Some?
    ensures t < |Step(s, a).got| && Step(s, a).got[t] == s.got[t]
  {
    hide ChainOk, TicketsOk, GotOk, TablesOk, AbsentAfter, PresentUpTo, Passed, Absent, Slot, Enlarge, Without;
    assert PcOk(s.pcs[a.t], a.t, s.tables, s.lock, s.hashes[a.t], a.t in s.tickets, s.num[a.t], s.got[a.t]);
  }

  lemma {:induction false} GotIsStable(states: seq<State>, acts: seq<Act>, i: nat, j: nat, t: nat)
    requires Run(states, acts) && i <= j < |states| && t < |states[i].got| && states[i].got[t].Some?
    ensures t < |states[j].got| && states[j].got[t] == states[i].got[t]
  {
    hide Inv, Init, Step, Shape;
    if i < j {
      GotIsStable(states, acts, i, j - 1, t);
      RunKeepsInv(states, acts, j - 1);
      assert Next(states[j - 1], acts[j - 1], states[j]);
      GotStays(states[j - 1], acts[j - 1], t);
    }
  }

  lemma ReturnsGot(s: State, t: nat)
    requires Inv(s) && t < |s.pcs| && s.pcs[t].Return?
    ensures t < |s.got| && s.got[t] == s.pcs[t].r
  {
    assert PcOk(s.pcs[t], t, s.tables, s.lock, s.hashes[t], t in s.tickets, s.num[t], s.got[t]);
  }

  /** A thread that once obtained a producer gets the same one from every later call, whatever
      resizes and migrations go on; and no two threads get the same one. */
  lemma SameProducerAlways(states: seq<State>, acts: seq<Act>, i: nat, j: nat, t: nat, u: nat)
    requires Run(states, acts) && i <= j < |states| && t < |states[i].pcs| && u < |states[j].pcs|
    requires states[i].pcs[t].Return? && states[i].pcs[t].r.Some? && states[j].pcs[u].Return?
    ensures t == u ==> states[j].pcs[u].r == states[i].pcs[t].r
    ensures t != u ==> states[j].pcs[u].r != states[i].pcs[t].r
  {
    hide Run, Inv;
    RunKeepsInv(states, acts, i);
    RunKeepsInv(states, acts, j);
    ReturnsGot(states[i], t);
    ReturnsGot(states[j], u);
    GotIsStable(states, acts, i, j, t);
    assert GotOk(states[j].got, states[j].created) && |states[j].pcs| == |states[j].got| by { GotFromInv(states[j]); }
  }

  lemma GotFromInv(s: State)
    requires Inv(s)
    ensures GotOk(s.got, s.created) && |s.pcs| == |s.got|
  {
  }

  /** After a resize the thread that made it is admitted at once: the new table has room. */
  lemma ResizeMakesRoom(s: State, a: Act)
    requires Inv(s) && Shape(s) && a.t < |s.pcs| && s.pcs[a.t].Alloc? && !a.fails
    ensures var s' := Step(s, a);
            && s'.pcs[a.t].Unlock? && s'.pcs[a.t].main == |s'.tables| - 1
            && s'.pcs[a.t].num < Room(|s'.tables[s'.pcs[a.t].main].keys|)
  {
    hide Enlarge;
    EnlargeEnough(2 * |s.tables[s.pcs[a.t].main].keys|, s.pcs[a.t].num);
  }
}
