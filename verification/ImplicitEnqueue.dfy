/** The producer's steps keep the invariant of the implicit producer, and so does every run. */
module ImplicitEnqueue {
  import opened Wrappers
  import opened Blocks
  import opened ImplicitProducer
  import opened ImplicitInvariant
  import C = Claims
  import D = DequeueCounters
  import X = ExplicitProducer

  lemma NoneWritten(ppc: ProducerPC, heap: seq<Block>, blocks: seq<nat>, tail: nat)
    requires WrittenBy(ppc) == []
    ensures WrittenOk(ppc, heap, blocks, tail)
  {
  }

  /** A step that moves only the producer's own location. */
  lemma PpcKeeps(s: State, s': State)
    requires Inv(s) && s' == s.(ppc := s'.ppc)
    requires PpcOk(s'.ppc, s.q.tail, s.headers, s.entries, s.heap, s.blocks, s.life, s.high, s.tailBlock) && WrittenBy(s'.ppc) == []
    ensures Inv(s')
  {
    hide LinkOk, CellsOk, HeapOk, OwnOk, LifeOk, IndexOk, NumsOk, PpcOk, LocsOk, WrittenBy;
    NoneWritten(s'.ppc, s.heap, s.blocks, s.q.tail);
  }

  // ----- starting an operation, and giving up -----

  lemma StartKeeps(s: State, vs: seq<Elem>, bulk: bool)
    requires Inv(s) && s.ppc == Idle && vs != [] && (!bulk ==> |vs| == 1)
    ensures Inv(StartOp(s, vs, bulk))
  {
    hide LinkOk, CellsOk, HeapOk, OwnOk, LifeOk, IndexOk, LocsOk, TailAt, Blk, Off, CeilBlk, Start, ChainEnds;
    CeilMonotone(s.q.tail, s.q.tail + |vs|);
    CeilFacts(s.q.tail);
    if Need(s.q.tail, |vs|) == 0 {
      NoNeed(s.q.tail, |vs|);
    }
    PpcKeeps(s, StartOp(s, vs, bulk));
  }

  /** A failed operation goes back over what it allocated, if anything. */
  lemma RollBackOk(op: Op, tail: nat, headers: seq<Header>, entries: seq<Entry>, heap: seq<Block>, blocks: seq<nat>,
                   life: seq<Life>, high: nat, tailBlock: Option<nat>, s: State)
    requires Allocating(op, tail, heap, blocks, life, tailBlock) && TailAt(headers, |blocks|) && s.q.tail == tail
    requires |blocks| > 0 ==> headers != []
    ensures PpcOk(RollBack(s, op).ppc, tail, headers, entries, heap, blocks, life, high, tailBlock)
    ensures WrittenBy(RollBack(s, op).ppc) == []
  {
    hide TailAt, ChainOk, ChainEnds, Off;
    JoinIndex(CeilBlk(tail), 0);
  }

  lemma HasHeaders(s: State)
    requires Inv(s)
    ensures |s.blocks| > 0 ==> s.headers != []
    ensures |s.home| == |s.blocks| == |s.life| <= s.high
  {
    hide LinkOk, CellsOk, HeapOk, OwnOk, LifeOk, LocsOk, PpcOk, WindowOk;
  }

  lemma GiveUpKeeps(s: State, op: Op)
    requires Inv(s) && (s.ppc == Room(op) || s.ppc == Grow(op) || (s.ppc.Unset? && s.ppc.op == op))
    ensures Inv(RollBack(s, op))
  {
    hide LinkOk, CellsOk, HeapOk, OwnOk, LifeOk, LocsOk, IndexOk, Allocating, TailAt, NextEntry, RollBack;
    HasHeaders(s);
    RollBackOk(op, s.q.tail, s.headers, s.entries, s.heap, s.blocks, s.life, s.high, s.tailBlock, s);
    assert RollBack(s, op) == s.(ppc := RollBack(s, op).ppc) by { RollsOnly(s, op); }
    PpcKeeps(s, RollBack(s, op));
  }

  lemma RollsOnly(s: State, op: Op)
    ensures RollBack(s, op) == s.(ppc := RollBack(s, op).ppc)
  {
  }

  lemma RoomKeeps(s: State, op: Op)
    requires Inv(s) && s.ppc == Room(op)
    ensures Inv(RoomStep(s, op))
  {
    hide LinkOk, CellsOk, HeapOk, OwnOk, LifeOk, LocsOk, IndexOk, Allocating, TailAt, RollBack, X.Full;
    if X.Full(s.q.head, op.base, s.limit) || |s.headers| == 0 {
      GiveUpKeeps(s, op);
    } else {
      PpcKeeps(s, RoomStep(s, op));
    }
  }

  // ----- finding the next entry -----

  lemma KeyIsValid(n: nat)
    ensures Start(n) != INVALID_BLOCK_BASE
  {
    if n > 0 { StartMonotone(0, n); }
  }

  /** The entry of the next slot: unused ones have no value, and one that has both a key and a
      value is still needed, and for the number one turn back. */
  lemma NextSlotHolds(h: Header, entries: seq<Entry>, home: seq<nat>, blocks: seq<nat>, life: seq<Life>, high: nat)
    requires WindowOk(h, entries, home, blocks, life, high) && |home| == |blocks| == |life| <= high <= |life| + |h.index| && h.origin <= |life|
    ensures var e := EntryAt(entries, Slot(h, Pos(h, |life|)));
            && (e.key == INVALID_BLOCK_BASE ==> e.value == None)
            && (e.value != None ==> high == |life| >= h.origin + |h.index|)
  {
    hide Distinct, InRange, Wrap, Start;
    var n := |life|;
    assert SlotOk(h, entries, home, blocks, life, high, n);
    if high == n >= h.origin + |h.index| {
      WrapBelow(n - |h.index| - h.origin, |h.index|);
      assert SlotOk(h, entries, home, blocks, life, high, n - |h.index|);
      KeyIsValid(n - |h.index|);
    }
  }

  lemma InsertKeeps(s: State, op: Op)
    requires Inv(s) && s.ppc == Insert(op) && s.headers != []
    ensures Inv(InsertStep(s, op))
  {
    hide LinkOk, CellsOk, HeapOk, OwnOk, LifeOk, LocsOk, WindowOk, Allocating, Pos, Slot, CeilBlk;
    HasHeaders(s);
    NextSlotHolds(Last(s), s.entries, s.home, s.blocks, s.life, s.high);
    PpcKeeps(s, InsertStep(s, op));
  }

  // ----- a bigger block index -----

  /** The entries a bigger ring starts with, oldest first. */
  lemma WidenedSlot(h: Header, unused: nat, size: nat, n: nat)
    requires |h.index| > 0 && h.tail < |h.index| && h.origin + |h.index| <= size && Succ(h.tail, |h.index|) == Pos(h, size)
    requires size - |h.index| <= n < size
    ensures Widened(h, unused)[n - (size - |h.index|)] == Slot(h, Pos(h, n))
  {
    var p, cap := n - (size - |h.index|), |h.index|;
    WrapBelow(size - cap - h.origin, cap);
    WrapForward(size - cap - h.origin, p, cap);
    WrapBelow(p, cap);
  }

  /** The ring `new_block_index` builds when the next number is `size`. */
  function Grown(h: Header, unused: nat, size: nat): Header
    requires 0 < |h.index| <= size
  {
    Header(Widened(h, unused), |h.index| - 1, size - |h.index|)
  }

  lemma GrownSlots(h: Header, unused: nat, size: nat, n: nat)
    requires 0 < |h.index| <= size && size - |h.index| <= n < size + |h.index|
    ensures Pos(Grown(h, unused, size), n) == n - (size - |h.index|)
    ensures |Grown(h, unused, size).index| == 2 * |h.index|
    ensures n >= size ==> Slot(Grown(h, unused, size), Pos(Grown(h, unused, size), n)) == unused + (n - size)
  {
  }

  lemma GrownDistinct(h: Header, size: nat, unused: nat)
    requires |h.index| > 0 && Distinct(h.index) && InRange(h.index, unused) && h.origin + |h.index| <= size
    requires h.tail < |h.index| && Succ(h.tail, |h.index|) == Pos(h, size)
    ensures Distinct(Widened(h, unused)) && InRange(Widened(h, unused), unused + |h.index|)
  {
    hide Succ, Widened, WidenedAt;
    var w, cap, o := Widened(h, unused), |h.index|, size - |h.index|;
    assert |w| == 2 * cap by { GrownSlots(h, unused, size, size); }
    forall p | 0 <= p < 2 * cap
      ensures p >= cap ==> w[p] == unused + (p - cap)
      ensures p < cap ==> w[p] < unused && w[p] == Slot(h, Pos(h, o + p))
    {
      if p < cap {
        WidenedSlot(h, unused, size, o + p);
        WrapBelow(o + p - h.origin, cap);
      } else {
        GrownSlots(h, unused, size, o + p);
      }
    }
    forall p, q | 0 <= p < q < 2 * cap ensures w[p] != w[q] {
      if q < cap {
        WrapBelow(o + p - h.origin, cap);
        WrapBelow(o + q - h.origin, cap);
        WrapInjective(o + p - h.origin, o + q - h.origin, cap);
      }
    }
  }

  /** Entries that did not exist read like the unused ones there are now. */
  lemma MoreEntries(entries: seq<Entry>, n: nat)
    ensures forall e: nat :: EntryAt(entries + seq(n, _ => Entry(INVALID_BLOCK_BASE, None)), e) == EntryAt(entries, e)
  {
  }

  lemma GrownOk(h: Header, entries: seq<Entry>, home: seq<nat>, blocks: seq<nat>, life: seq<Life>)
    requires WindowOk(h, entries, home, blocks, life, |life|) && |home| == |blocks| == |life|
    requires h.origin + |h.index| <= |life| && h.tail < |h.index| && Succ(h.tail, |h.index|) == Pos(h, |life|)
    ensures WindowOk(Grown(h, |entries|, |life|), entries + seq(|h.index|, _ => Entry(INVALID_BLOCK_BASE, None)), home, blocks, life, |life|)
  {
    hide Distinct, InRange, Widened, Succ, Wrap, Pos;
    var g, cap, size := Grown(h, |entries|, |life|), |h.index|, |life|;
    var entries' := entries + seq(cap, _ => Entry(INVALID_BLOCK_BASE, None));
    GrownDistinct(h, size, |entries|);
    GrownSlots(h, |entries|, size, size);
    MoreEntries(entries, cap);
    forall n: nat | g.origin <= n ensures SlotOk(g, entries', home, blocks, life, size, n) {
      if n < size + cap {
        GrownSlots(h, |entries|, size, n);
      }
      if n < size {
        WidenedSlot(h, |entries|, size, n);
        assert SlotOk(h, entries, home, blocks, life, size, n);
      }
    }
    forall n: nat | Listed(life, n) ensures InWindow(g, size, n) {
      assert InWindow(h, size, n);
    }
  }

  lemma GrowOk(s: State, op: Op)
    requires Inv(s) && s.ppc == Grow(op)
    ensures s.headers != [] && 0 < |Last(s).index| <= |s.home|
    ensures var s' := GrowStep(s, op, false);
            && s'.headers == s.headers + [Grown(Last(s), |s.entries|, |s.home|)]
            && IndexOk(s'.headers, s'.entries, s.home, s.blocks, s.life, s.high) && NumsOk(s.q.tail, s'.headers, |s.home|, s.high)
            && PpcOk(s'.ppc, s.q.tail, s'.headers, s'.entries, s.heap, s.blocks, s.life, s.high, s.tailBlock)
  {
    hide LinkOk, CellsOk, HeapOk, OwnOk, LifeOk, LocsOk, WindowOk, Allocating, CeilBlk, Widened, EntryAt;
    HasHeaders(s);
    var s' := GrowStep(s, op, false);
    var h := Last(s);
    GrownOk(h, s.entries, s.home, s.blocks, s.life);
    GrownSlots(h, |s.entries|, |s.home|, |s.home|);
    MoreEntries(s.entries, |h.index|);
    assert EntryAt(s'.entries, |s.entries|).value == None by { PastTheEnd(s.entries); }
    assert s'.headers[|s'.headers| - 1] == Grown(h, |s.entries|, |s.home|);
  }

  lemma PastTheEnd(entries: seq<Entry>)
    ensures EntryAt(entries, |entries|).value == None
  {
  }

  lemma GrowKeeps(s: State, op: Op, fails: bool)
    requires Inv(s) && s.ppc == Grow(op)
    ensures Inv(GrowStep(s, op, fails))
  {
    GrowOk(s, op);
    hide LinkOk, CellsOk, HeapOk, OwnOk, LifeOk, IndexOk, Allocating, CeilBlk, Widened, EntryAt, NumsOk, PpcOk, HomesIn, InSlot, Leaving, LifeIs, Blk, Base, Pos, RollBack, Grown;
    if fails {
      GiveUpKeeps(s, op);
    } else {
      var s' := GrowStep(s, op, fails);
      MoreEntries(s.entries, |Last(s).index|);
      GrownSlots(Last(s), |s.entries|, |s.home|, |s.home|);
      forall u | 0 <= u < |s.locs| ensures LocOk(s'.locs[u], u, s.claims.spans[u], s'.headers, s'.entries, s.home, s.blocks, s.life) {
        assert LocOk(s.locs[u], u, s.claims.spans[u], s.headers, s.entries, s.home, s.blocks, s.life);
      }
      NoneWritten(s'.ppc, s.heap, s.blocks, s.q.tail);
    }
  }

  // ----- a key for the new block -----

  /** A turn of the newest ring is a whole number of turns of every older one. */
  lemma {:induction false} WholeTurns(headers: seq<Header>, h: nat, last: nat, x: nat)
    requires Doubling(headers) && h <= last < |headers|
    ensures Wrap(x + |headers[last].index|, |headers[h].index|) == Wrap(x, |headers[h].index|)
  {
    if h == last {
      WrapBelow(x, |headers[h].index|);
    } else {
      WholeTurns(headers, h, last - 1, x);
      WholeTurns(headers, h, last - 1, x + |headers[last - 1].index|);
    }
  }

  lemma SetKeyFrame(entries: seq<Entry>, e: nat, key: nat)
    requires e < |entries|
    ensures var entries' := SetEntryKey(entries, e, key);
            && |entries'| == |entries|
            && (forall e': nat :: e' != e ==> EntryAt(entries', e') == EntryAt(entries, e'))
            && EntryAt(entries', e) == EntryAt(entries, e).(key := key)
  {
  }

  /** The number one turn back is not listed, or its entry would not be empty. */
  lemma OldNumberIsOut(h: Header, entries: seq<Entry>, home: seq<nat>, blocks: seq<nat>, life: seq<Life>, high: nat, n: nat, k: nat)
    requires WindowOk(h, entries, home, blocks, life, high) && |home| == |blocks| == |life| && h.origin <= n
    requires EntryAt(entries, Slot(h, Pos(h, n))).value == None && k + |h.index| == n
    ensures !Listed(life, k)
  {
    hide Distinct, InRange, Wrap, Start;
    if Listed(life, k) {
      assert SlotOk(h, entries, home, blocks, life, high, k);
      WrapBelow(k - h.origin, |h.index|);
    }
  }

  lemma SetKeyIndex(h: Header, entries: seq<Entry>, home: seq<nat>, blocks: seq<nat>, life: seq<Life>, high: nat)
    requires WindowOk(h, entries, home, blocks, life, high) && |home| == |blocks| == |life| <= high <= |life| + |h.index| && h.origin <= |life|
    requires EntryAt(entries, Slot(h, Pos(h, |life|))).value == None
    ensures Slot(h, Pos(h, |life|)) < |entries|
    ensures WindowOk(h, SetEntryKey(entries, Slot(h, Pos(h, |life|)), Start(|life|)), home, blocks, life, if high == |life| then high + 1 else high)
  {
    hide Distinct, Wrap, Start, SetEntryKey, EntryAt;
    var n, cap := |life|, |h.index|;
    var e := Slot(h, Pos(h, n));
    WrapBelow(n - h.origin, cap);
    var entries', high' := SetEntryKey(entries, e, Start(n)), if high == n then high + 1 else high;
    SetKeyFrame(entries, e, Start(n));
    assert SlotOk(h, entries, home, blocks, life, high, n);
    forall m: nat | h.origin <= m ensures SlotOk(h, entries', home, blocks, life, high', m) {
      assert SlotOk(h, entries, home, blocks, life, high, m);
      if high == n && m != n {
        if InWindow(h, high', m) {
          InWindowDiffers(h, high', m, n);
        } else if high' <= m < h.origin + cap {
          WindowVsFresh(h, high', n, m);
        }
      }
    }
    forall k: nat | Listed(life, k) ensures InWindow(h, high', k) {
      assert InWindow(h, high, k);
      if k + cap == n { OldNumberIsOut(h, entries, home, blocks, life, high, n, k); }
    }
  }

  /** A key that fits a slot of an older ring is replaced by one that fits it too. */
  lemma KeyStillFits(headers: seq<Header>, i: nat, entries: seq<Entry>, home: seq<nat>, blocks: seq<nat>, life: seq<Life>, high: nat, slot: nat, b: nat)
    requires Doubling(headers) && i < |headers| && |home| == |blocks| == |life| <= high
    requires var h := headers[|headers| - 1];
             && WindowOk(h, entries, home, blocks, life, high) && h.origin <= |life| && high <= |life| + |h.index|
    requires Fits(headers[i], entries, slot, b)
    ensures var h := headers[|headers| - 1];
            Fits(headers[i], SetEntryKey(entries, Slot(h, Pos(h, |life|)), Start(|life|)), slot, b)
  {
    hide Distinct, Start, SetEntryKey, Doubling, EntryAt, Wrap, Blk;
    var h, n := headers[|headers| - 1], |life|;
    var cap := |h.index|;
    WrapBelow(n - h.origin, cap);
    var e := Slot(h, Pos(h, n));
    SetKeyFrame(entries, e, Start(n));
    if Slot(headers[i], slot) == e {
      JoinIndex(n, 0);
      assert SlotOk(h, entries, home, blocks, life, high, n);
      InvalidDoesNotFit();
      if high == n {
        var m := n - cap;
        WrapBelow(m - h.origin, cap);
        assert SlotOk(h, entries, home, blocks, life, high, m);
        JoinIndex(m, 0);
        WholeTurns(headers, i, |headers| - 1, m - headers[i].origin);
      }
    }
  }

  lemma InvalidDoesNotFit()
    ensures Base(INVALID_BLOCK_BASE) != INVALID_BLOCK_BASE
  {
    KeyIsValid(Blk(INVALID_BLOCK_BASE));
  }

  lemma SetKeyPlace(s: State, op: Op, e: nat)
    requires Inv(s) && s.ppc == SetKey(op, e)
    ensures s.headers != [] && op.base == Start(|s.home|) && |s.home| == |s.life| == |s.blocks| <= s.high
    ensures Doubling(s.headers) && WindowOk(Last(s), s.entries, s.home, s.blocks, s.life, s.high)
    ensures s.high <= |s.home| + |Last(s).index|
    ensures Last(s).origin <= CeilBlk(s.q.tail) <= |s.home| && e == Slot(Last(s), Pos(Last(s), |s.home|))
    ensures EntryAt(s.entries, e).value == None
  {
    hide LinkOk, CellsOk, HeapOk, OwnOk, LifeOk, LocsOk, WindowOk, CeilBlk, Pos, TailAt, Doubling, AllAre, OpOk;
  }

  lemma SetKeyNums(s: State, op: Op, e: nat)
    requires Inv(s) && s.ppc == SetKey(op, e)
    ensures NumsOk(s.q.tail, s.headers, |s.home|, SetKeyStep(s, op, e).high)
    ensures PpcOk(SetTail(op, e), s.q.tail, s.headers, SetKeyStep(s, op, e).entries, s.heap, s.blocks, s.life, SetKeyStep(s, op, e).high, s.tailBlock)
  {
    hide LinkOk, CellsOk, HeapOk, OwnOk, LifeOk, LocsOk, CeilBlk, Pos, TailAt, Doubling, OpOk, WindowOk, SetEntryKey;
    SetKeyPlace(s, op, e);
    var n0, cap := CeilBlk(s.q.tail), |Last(s).index|;
    if |s.home| == n0 + cap {
      assert LifeIs(s.life, n0, Live);
      OldNumberIsOut(Last(s), s.entries, s.home, s.blocks, s.life, s.high, |s.home|, n0);
    }
  }

  lemma SetKeyKeeps(s: State, op: Op, e: nat)
    requires Inv(s) && s.ppc == SetKey(op, e)
    ensures Inv(SetKeyStep(s, op, e))
  {
    SetKeyPlace(s, op, e);
    SetKeyNums(s, op, e);
    hide LinkOk, CellsOk, HeapOk, OwnOk, LifeOk, CeilBlk, NumsOk, PpcOk, HomesIn, InSlot, Leaving, LifeIs, Blk, Base, Pos, Slot, EntryAt, SetEntryKey, WindowOk, Doubling, Fits, Start;
    var s' := SetKeyStep(s, op, e);
    SetKeyIndex(Last(s), s.entries, s.home, s.blocks, s.life, s.high);
    forall u | 0 <= u < |s.locs| ensures LocOk(s.locs[u], u, s.claims.spans[u], s.headers, s'.entries, s.home, s.blocks, s.life) {
      var l, p := s.locs[u], s.claims.spans[u];
      assert LocOk(l, u, p, s.headers, s.entries, s.home, s.blocks, s.life);
      if l.LoadTail? {
        KeyStillFits(s.headers, l.h, s.entries, s.home, s.blocks, s.life, s.high, s.headers[l.h].tail, Blk(p.hi - 1));
      } else if l.LoadKey? {
        KeyStillFits(s.headers, l.h, s.entries, s.home, s.blocks, s.life, s.high, l.tail, Blk(p.hi - 1));
      }
    }
    NoneWritten(s'.ppc, s.heap, s.blocks, s.q.tail);
  }

  // ----- moving the tail of the block index -----

  function TailSet(headers: seq<Header>, tail: nat): seq<Header>
    requires headers != []
  {
    headers[|headers| - 1 := headers[|headers| - 1].(tail := tail)]
  }

  lemma TailForward(headers: seq<Header>, next: nat)
    requires headers != [] && TailAt(headers, next)
    ensures TailAt(TailSet(headers, Succ(headers[|headers| - 1].tail, |headers[|headers| - 1].index|)), next + 1)
  {
    var h := headers[|headers| - 1];
    WrapBelow(next - h.origin, |h.index|);
  }

  lemma TailBack(headers: seq<Header>, next: nat)
    requires headers != [] && TailAt(headers, next) && headers[|headers| - 1].origin < next
    ensures Pred(headers[|headers| - 1].tail, |headers[|headers| - 1].index|) >= 0
    ensures TailAt(TailSet(headers, Pred(headers[|headers| - 1].tail, |headers[|headers| - 1].index|)), next - 1)
  {
    var h := headers[|headers| - 1];
    TailSlot(h, next);
    WrapBelow(next - 1 - h.origin, |h.index|);
  }

  lemma TailSetIndex(headers: seq<Header>, tail: nat, entries: seq<Entry>, home: seq<nat>, blocks: seq<nat>, life: seq<Life>, high: nat)
    requires headers != [] && IndexOk(headers, entries, home, blocks, life, high)
    ensures IndexOk(TailSet(headers, tail), entries, home, blocks, life, high)
  {
    var h, h' := headers[|headers| - 1], headers[|headers| - 1].(tail := tail);
    forall n: nat | h.origin <= n ensures SlotOk(h', entries, home, blocks, life, high, n) {
      assert SlotOk(h, entries, home, blocks, life, high, n);
    }
    forall n: nat | Listed(life, n) ensures InWindow(h', high, n) {
      assert InWindow(h, high, n);
    }
  }

  lemma TailSetHomes(headers: seq<Header>, tail: nat, i: nat, home: seq<nat>, a: nat, b: nat)
    requires headers != [] && i < |headers|
    ensures HomesIn(headers[i], home, a, b) ==> HomesIn(TailSet(headers, tail)[i], home, a, b)
  {
    if HomesIn(headers[i], home, a, b) {
      forall n: nat | a <= n <= b ensures HomeIn(TailSet(headers, tail)[i], home, n) {
        assert HomeIn(headers[i], home, n);
      }
    }
  }

  /** Consumers cope with every tail the producer stores, as long as it is not behind what is
      published. */
  lemma TailSetLoc(s: State, tail: nat, next: nat, u: nat)
    requires Inv(s) && s.headers != [] && u < |s.locs| && TailAt(TailSet(s.headers, tail), next) && CeilBlk(s.q.tail) <= next <= s.high
    ensures LocOk(s.locs[u], u, s.claims.spans[u], TailSet(s.headers, tail), s.entries, s.home, s.blocks, s.life)
  {
    hide LinkOk, CellsOk, HeapOk, OwnOk, LifeOk, PpcOk, NumsOk, Blk, Off, Base, Pos, EntryAt, HomesIn, WindowOk, CeilBlk, Succ;
    var l, p, headers' := s.locs[u], s.claims.spans[u], TailSet(s.headers, tail);
    assert LocOk(l, u, p, s.headers, s.entries, s.home, s.blocks, s.life);
    if l != Out && l != LoadHeader {
      TailSetHomes(s.headers, tail, l.h, s.home, Blk(p.pos), Blk(p.hi - 1));
      TailSetHomes(s.headers, tail, l.h, s.home, Blk(p.start), Blk(p.hi - 1));
      if p.pos > 0 { TailSetHomes(s.headers, tail, l.h, s.home, Blk(p.pos - 1), Blk(p.hi - 1)); }
      SameSlots(Last(s), tail);
      if l.LoadTail? && l.h == |s.headers| - 1 {
        BlkMonotone(p.start, p.hi - 1);
        BlockBetween(s, u, Blk(p.hi - 1));
        TailSetIndex(s.headers, tail, s.entries, s.home, s.blocks, s.life, s.high);
        InWindowTail(Last(s), tail, s.high, Blk(p.hi - 1));
        TailFits(headers'[l.h], s.entries, s.home, s.blocks, s.life, s.high, next, Blk(p.hi - 1));
      }
    }
  }

  lemma SameSlots(h: Header, tail: nat)
    requires |h.index| > 0
    ensures forall n: nat :: h.origin <= n ==> Pos(h.(tail := tail), n) == Pos(h, n)
  {
  }

  lemma InWindowTail(h: Header, tail: nat, high: nat, n: nat)
    requires InWindow(h, high, n)
    ensures InWindow(h.(tail := tail), high, n)
  {
  }

  /** A step that stores a tail. */
  lemma TailSetKeeps(s: State, s': State, tail: nat, next: nat)
    requires Inv(s) && s.headers != [] && TailAt(TailSet(s.headers, tail), next) && CeilBlk(s.q.tail) <= next <= s.high
    requires s' == s.(headers := TailSet(s.headers, tail), ppc := s'.ppc) && WrittenBy(s'.ppc) == []
    requires PpcOk(s'.ppc, s.q.tail, s'.headers, s.entries, s.heap, s.blocks, s.life, s.high, s.tailBlock)
    ensures Inv(s')
  {
    hide LinkOk, CellsOk, HeapOk, OwnOk, LifeOk, IndexOk, PpcOk, LocOk, TailAt, CeilBlk;
    TailSetIndex(s.headers, tail, s.entries, s.home, s.blocks, s.life, s.high);
    forall u | 0 <= u < |s.locs| ensures LocOk(s'.locs[u], u, s'.claims.spans[u], s'.headers, s.entries, s.home, s.blocks, s.life) {
      TailSetLoc(s, tail, next, u);
    }
    NoneWritten(s'.ppc, s.heap, s.blocks, s.q.tail);
  }

  lemma NextEntryStays(headers: seq<Header>, tail: nat, n: nat, e: nat)
    requires NextEntry(headers, n, e)
    ensures NextEntry(TailSet(headers, tail), n, e)
  {
  }

  lemma SetTailKeeps(s: State, op: Op, e: nat)
    requires Inv(s) && s.ppc == SetTail(op, e)
    ensures s.headers != [] && Inv(SetTailStep(s, op, e))
  {
    hide LinkOk, CellsOk, HeapOk, OwnOk, LifeOk, LocsOk, WindowOk, TailAt, NextEntry, Allocating, CeilBlk, Succ;
    NextEntryThere(s.headers, |s.blocks|, e);
    var tail := Succ(Last(s).tail, |Last(s).index|);
    TailForward(s.headers, |s.blocks|);
    NextEntryStays(s.headers, tail, |s.blocks|, e);
    TailSetKeeps(s, SetTailStep(s, op, e), tail, |s.blocks| + 1);
  }

  lemma NextEntryThere(headers: seq<Header>, n: nat, e: nat)
    requires NextEntry(headers, n, e)
    ensures headers != [] && headers[|headers| - 1].origin <= n
  {
  }

  lemma RewindKeeps(s: State, op: Op, e: nat)
    requires Inv(s) && s.ppc == Rewind(op, e)
    ensures s.headers != [] && Inv(RewindStep(s, op, e))
  {
    hide LinkOk, CellsOk, HeapOk, OwnOk, LifeOk, LocsOk, WindowOk, TailAt, NextEntry, Allocating, CeilBlk, Pred;
    NextEntryThere(s.headers, |s.blocks|, e);
    TailBack(s.headers, |s.blocks| + 1);
    NextEntryStays(s.headers, Back(s), |s.blocks|, e);
    TailSetKeeps(s, RewindStep(s, op, e), Back(s), |s.blocks|);
  }

  lemma UnsetKeeps(s: State, op: Op, e: nat)
    requires Inv(s) && s.ppc == Unset(op, e)
    ensures Inv(UnsetStep(s, op, e))
  {
    hide LinkOk, CellsOk, HeapOk, OwnOk, LifeOk, LocsOk, Allocating, CeilBlk, TailAt;
    assert SlotOk(Last(s), s.entries, s.home, s.blocks, s.life, s.high, |s.blocks|);
    assert SetEntryValue(s.entries, e, None) == s.entries;
    GiveUpKeeps(s, op);
    RollsOnly(s, op);
  }

  // ----- a block from the pool -----

  /** The heap after the allocator granted `b`. */
  function WithGrant(heap: seq<Block>, b: nat, cells: seq<Option<Elem>>): seq<Block>
    requires b <= |heap|
  {
    if b == |heap| then heap + [Block(None, 0, cells, false)] else heap[b := Block(None, 0, cells, false)]
  }

  lemma GrantFrame(heap: seq<Block>, b: nat, cells: seq<Option<Elem>>)
    requires HeapOk(heap) && b <= |heap| && |cells| == BLOCK_SIZE
    ensures var heap' := WithGrant(heap, b, cells);
            && HeapOk(heap') && |heap| <= |heap'| && b < |heap'|
            && (forall b': nat :: b' != b ==> NextOf(heap', b') == NextOf(heap, b'))
            && (forall b': nat :: b' != b ==> (IsFree(heap', b') <==> IsFree(heap, b')))
            && (forall b': nat, k': nat :: b' != b ==> Cell(heap', b', k') == Cell(heap, b', k'))
            && (forall b': nat :: b' != b ==> Done(heap', b') == Done(heap, b'))
            && !IsFree(heap', b) && Done(heap', b) == 0 && NextOf(heap', b) == None
  {
  }

  /** Nobody's block changed: what is known about the blocks in use stays. */
  lemma OthersKeep(s: State, heap': seq<Block>, b: nat)
    requires Inv(s) && HeapOk(heap') && |s.heap| <= |heap'|
    requires forall n: nat :: Owned(s.life, n) ==> BlockOf(s.blocks, n) != b
    requires forall b': nat :: b' != b ==> (IsFree(heap', b') <==> IsFree(s.heap, b'))
    requires forall b': nat, k': nat :: b' != b ==> Cell(heap', b', k') == Cell(s.heap, b', k')
    requires forall b': nat :: b' != b ==> Done(heap', b') == Done(s.heap, b')
    ensures OwnOk(heap', s.blocks, s.life) && LifeOk(heap', s.blocks, s.life, s.claims) && |s.claims.stage| <= |s.claims.vals|
    ensures CellsOk(heap', s.blocks, s.claims)
  {
    hide IndexOk, LocsOk, PpcOk, NumsOk, Cell, IsFree, Done, Blk, Off, HeapOk, LinkOk;
    LinkLengths(s);
    LifeFrame(s.heap, heap', s.blocks, s.life, s.claims) by { hide LifeOk; }
    forall i: nat | i < |s.claims.stage| && C.Unread(s.claims, i) ensures CellOk(heap', s.blocks, i, s.claims.vals[i]) {
      PublishedIsOwned(s, i);
      assert Owned(s.life, Blk(i));
      assert CellOk(s.heap, s.blocks, i, s.claims.vals[i]);
    }
  }

  /** The chain an operation has built lies in blocks that are in use. */
  lemma ChainLives(s: State, op: Op, n: nat)
    requires Inv(s) && Allocating(op, s.q.tail, s.heap, s.blocks, s.life, s.tailBlock) && Blk(s.q.tail) <= n < |s.blocks|
    ensures LifeIs(s.life, n, Live) && Owned(s.life, n)
  {
    hide IndexOk, LocsOk, PpcOk, NumsOk, Cell, IsFree, Done, Off, HeapOk, LinkOk, LifeOk, OwnOk, CeilBlk, Blk;
    CeilFacts(s.q.tail);
    if n < CeilBlk(s.q.tail) { TailBlockLives(s); }
  }

  lemma RequisitionKeeps(s: State, op: Op, e: nat, fails: bool, granted: nat, cells: seq<Option<Elem>>)
    requires Inv(s) && s.ppc == Requisition(op, e)
    ensures Inv(RequisitionStep(s, op, e, fails, granted, cells))
  {
    hide LinkOk, CellsOk, HeapOk, LifeOk, LocsOk, IndexOk, NumsOk, TailAt, NextEntry, CeilBlk, NextOf, Done, Cell, Allocating, IsFree, OwnOk;
    var s' := RequisitionStep(s, op, e, fails, granted, cells);
    if fails {
      PpcKeeps(s, s');
    } else if s' != s {
      GrantFrame(s.heap, granted, cells);
      assert s'.heap == WithGrant(s.heap, granted, cells);
      GrantedIsNobodys(s.heap, s.blocks, s.life, granted);
      OthersKeep(s, s'.heap, granted);
      AllocatingKeeps(s, s'.heap, op, granted);
      NoneWritten(s'.ppc, s'.heap, s.blocks, s.q.tail);
    }
  }

  lemma GrantedIsNobodys(heap: seq<Block>, blocks: seq<nat>, life: seq<Life>, b: nat)
    requires OwnOk(heap, blocks, life) && (b == |heap| || IsFree(heap, b))
    ensures forall n: nat :: Owned(life, n) ==> BlockOf(blocks, n) != b
  {
  }

  lemma AllocatingKeeps(s: State, heap': seq<Block>, op: Op, b: nat)
    requires Inv(s) && Allocating(op, s.q.tail, s.heap, s.blocks, s.life, s.tailBlock)
    requires forall n: nat :: Owned(s.life, n) ==> BlockOf(s.blocks, n) != b
    requires forall b': nat :: b' != b ==> NextOf(heap', b') == NextOf(s.heap, b')
    ensures Allocating(op, s.q.tail, heap', s.blocks, s.life, s.tailBlock)
  {
    hide Inv, AllAre, NextOf, Off, Blk, CeilBlk, Start;
    CeilFacts(s.q.tail);
    if op.bulk {
      forall n: nat | Blk(s.q.tail) <= n && n + 1 < |s.blocks| ensures NextOf(heap', BlockOf(s.blocks, n)) == Some(BlockOf(s.blocks, n + 1)) {
        ChainLives(s, op, n);
      }
      if |s.blocks| > CeilBlk(s.q.tail) {
        ChainLives(s, op, |s.blocks| - 1);
      }
    }
  }

  // ----- the new block goes into the index -----

  lemma SetNextFrame(heap: seq<Block>, b: nat, next: Option<nat>)
    requires HeapOk(heap)
    ensures var heap' := SetNext(heap, b, next);
            && HeapOk(heap') && |heap'| == |heap|
            && (forall b': nat :: b' != b ==> NextOf(heap', b') == NextOf(heap, b'))
            && (b < |heap| ==> NextOf(heap', b) == next)
            && (forall b': nat :: IsFree(heap', b') <==> IsFree(heap, b'))
            && (forall b': nat, k': nat :: Cell(heap', b', k') == Cell(heap, b', k'))
            && (forall b': nat :: Done(heap', b') == Done(heap, b'))
  {
  }

  lemma SetValueIndex(h: Header, entries: seq<Entry>, home: seq<nat>, blocks: seq<nat>, life: seq<Life>, high: nat, e: nat, b: nat)
    requires WindowOk(h, entries, home, blocks, life, high) && |home| == |blocks| == |life| < high <= |life| + |h.index| && h.origin <= |life|
    requires e == Slot(h, Pos(h, |life|))
    ensures WindowOk(h, SetEntryValue(entries, e, Some(b)), home + [e], blocks + [b], life + [Live], high)
  {
    hide Distinct, Wrap, Start, SetEntryValue, EntryAt;
    var n := |life|;
    WrapBelow(n - h.origin, |h.index|);
    var entries', home', blocks', life' := SetEntryValue(entries, e, Some(b)), home + [e], blocks + [b], life + [Live];
    SetSomeFrame(entries, e, b);
    assert SlotOk(h, entries, home, blocks, life, high, n);
    forall m: nat | h.origin <= m ensures SlotOk(h, entries', home', blocks', life', high, m) {
      assert SlotOk(h, entries, home, blocks, life, high, m);
      if m != n {
        if InWindow(h, high, m) {
          InWindowDiffers(h, high, m, n);
        } else if high <= m < h.origin + |h.index| {
          WindowVsFresh(h, high, n, m);
        }
      }
    }
    forall k: nat | Listed(life', k) ensures InWindow(h, high, k) {
      if k != n { assert Listed(life, k); }
    }
  }

  lemma SetSomeFrame(entries: seq<Entry>, e: nat, b: nat)
    requires e < |entries|
    ensures var entries' := SetEntryValue(entries, e, Some(b));
            && |entries'| == |entries|
            && (forall e': nat :: e' != e ==> EntryAt(entries', e') == EntryAt(entries, e'))
            && EntryAt(entries', e) == EntryAt(entries, e).(value := Some(b))
            && (forall e': nat :: EntryAt(entries', e').key == EntryAt(entries, e').key)
  {
  }

  lemma {:induction false} NoneGoneYet(c: C.State, n: nat, k: nat)
    requires CeilBlk(|c.stage|) <= n
    ensures GoneUpTo(c, n, k) == 0
  {
    if k > 0 {
      NoneGoneYet(c, n, k - 1);
      if Start(n) + (k - 1) < |c.stage| {
        BelowCeil(Start(n) + (k - 1), |c.stage|);
        if CeilBlk(|c.stage|) < n { StartMonotone(CeilBlk(|c.stage|), n); }
      }
    }
  }

  /** One more block number. */
  lemma MoreBlocks(heap: seq<Block>, blocks: seq<nat>, life: seq<Life>, c: C.State, b: nat)
    requires OwnOk(heap, blocks, life) && LifeOk(heap, blocks, life, c) && Granted(b, heap, blocks, life)
    requires |c.stage| <= |c.vals| && CellsOk(heap, blocks, c)
    ensures OwnOk(heap, blocks + [b], life + [Live]) && LifeOk(heap, blocks + [b], life + [Live], c)
    ensures CellsOk(heap, blocks + [b], c)
  {
    hide Cell, Done, IsFree, NextOf, C.Unread, Blk, Off;
    var blocks', life' := blocks + [b], life + [Live];
    NoneGoneYet(c, |life|, BLOCK_SIZE);
    forall n: nat | n < |life'| ensures LifeAt(heap, blocks', life', c, n) {
      if n < |life| { assert LifeAt(heap, blocks, life, c, n); }
    }
    forall i: nat | i < |c.stage| && C.Unread(c, i) ensures CellOk(heap, blocks', i, c.vals[i]) {
      assert CellOk(heap, blocks, i, c.vals[i]);
    }
    forall n: nat | Owned(life', n) ensures BlockOf(blocks', n) < |heap| && !IsFree(heap, BlockOf(blocks', n)) {
      assert n < |life| ==> Owned(life, n);
    }
    forall m: nat, n: nat | Owned(life', m) && Owned(life', n) && m != n ensures BlockOf(blocks', m) != BlockOf(blocks', n) {
      assert m < |life| ==> Owned(life, m);
      assert n < |life| ==> Owned(life, n);
    }
  }

  /** The link to the new block from the one before it. */
  function Linked(s: State, op: Op, b: nat): seq<Block> {
    if op.bulk && (Off(s.q.tail) != 0 || op.first.Some?) && s.tailBlock.Some?
    then SetNext(s.heap, s.tailBlock.value, Some(b)) else s.heap
  }

  lemma LinkedFrame(s: State, op: Op, b: nat)
    requires HeapOk(s.heap)
    ensures var heap' := Linked(s, op, b);
            && HeapOk(heap') && |heap'| == |s.heap|
            && (forall b': nat :: s.tailBlock != Some(b') ==> NextOf(heap', b') == NextOf(s.heap, b'))
            && (forall b': nat :: IsFree(heap', b') <==> IsFree(s.heap, b'))
            && (forall b': nat, k': nat :: Cell(heap', b', k') == Cell(s.heap, b', k'))
            && (forall b': nat :: Done(heap', b') == Done(s.heap, b'))
  {
    if s.tailBlock.Some? { SetNextFrame(s.heap, s.tailBlock.value, Some(b)); }
  }

  /** The chain with the new block at its end. */
  lemma LinkedChain(s: State, op: Op, e: nat, b: nat)
    requires Inv(s) && s.ppc == SetValue(op, e, b) && op.bulk
    ensures ChainOk(Linked(s, op, b), s.blocks + [b], Blk(s.q.tail)) && ChainEnds(Linked(s, op, b), s.blocks + [b])
  {
    hide LinkOk, CellsOk, LifeOk, LocsOk, IndexOk, NumsOk, TailAt, NextEntry, CeilBlk, Blk, NextOf, Off, IsFree, Done, Cell, AllAre, ChainEnds, Linked, HeapOk;
    var heap', blocks' := Linked(s, op, b), s.blocks + [b];
    var size := |s.blocks|;
    CeilFacts(s.q.tail);
    LinkedFrame(s, op, b);
    if Blk(s.q.tail) < size {
      LinkedLast(s, op, e, b);
      ChainLives(s, op, size - 1);
    }
    NewIsLast(s, op, e, b);
    forall n: nat | Blk(s.q.tail) <= n && n + 1 < |blocks'| ensures NextOf(heap', BlockOf(blocks', n)) == Some(BlockOf(blocks', n + 1)) {
      if n + 1 < size {
        ChainLives(s, op, n);
        assert NextOf(s.heap, BlockOf(s.blocks, n)) == Some(BlockOf(s.blocks, n + 1));
      }
    }
  }

  lemma LinkedLast(s: State, op: Op, e: nat, b: nat)
    requires Inv(s) && s.ppc == SetValue(op, e, b) && op.bulk && Blk(s.q.tail) < |s.blocks|
    ensures s.tailBlock == Some(BlockOf(s.blocks, |s.blocks| - 1))
    ensures NextOf(Linked(s, op, b), BlockOf(s.blocks, |s.blocks| - 1)) == Some(b)
  {
    hide LinkOk, CellsOk, LifeOk, LocsOk, IndexOk, NumsOk, TailAt, NextEntry, CeilBlk, Blk, NextOf, Off, IsFree, Done, Cell, AllAre, ChainEnds, ChainOk, SetNext, HeapOk;
    CeilFacts(s.q.tail);
    ChainLives(s, op, |s.blocks| - 1);
    SetNextFrame(s.heap, BlockOf(s.blocks, |s.blocks| - 1), Some(b));
  }

  lemma NewIsLast(s: State, op: Op, e: nat, b: nat)
    requires Inv(s) && s.ppc == SetValue(op, e, b) && op.bulk
    ensures ChainEnds(Linked(s, op, b), s.blocks + [b])
  {
    hide LinkOk, CellsOk, LifeOk, LocsOk, IndexOk, NumsOk, TailAt, NextEntry, CeilBlk, Blk, NextOf, Off, IsFree, Done, Cell, AllAre, ChainOk, SetNext, HeapOk;
    CeilFacts(s.q.tail);
    LinkedFrame(s, op, b);
    if Blk(s.q.tail) < |s.blocks| {
      ChainLives(s, op, |s.blocks| - 1);
      LinkedLast(s, op, e, b);
    }
  }

  lemma SetValuePlace(s: State, op: Op, e: nat, b: nat)
    requires Inv(s) && s.ppc == SetValue(op, e, b)
    ensures s.headers != [] && |s.home| == |s.life| == |s.blocks| < s.high <= |s.life| + |Last(s).index|
    ensures WindowOk(Last(s), s.entries, s.home, s.blocks, s.life, s.high) && Doubling(s.headers)
    ensures Last(s).origin <= |s.life| && e == Slot(Last(s), Pos(Last(s), |s.home|))
  {
    hide LinkOk, CellsOk, HeapOk, OwnOk, LifeOk, LocsOk, WindowOk, CeilBlk, Pos, TailAt, Doubling, AllAre, OpOk;
  }

  lemma SetValueNext(s: State, op: Op, e: nat, b: nat)
    requires Inv(s) && s.ppc == SetValue(op, e, b)
    ensures var s' := SetValueStep(s, op, e, b);
            && PpcOk(s'.ppc, s.q.tail, s.headers, s'.entries, s'.heap, s'.blocks, s'.life, s.high, s'.tailBlock)
            && WrittenBy(s'.ppc) == []
  {
    hide LinkOk, CellsOk, HeapOk, OwnOk, LifeOk, LocsOk, IndexOk, NumsOk, CeilBlk, TailAt, Linked, NextEntry, ChainOk, ChainEnds, Granted, SetEntryValue, Blk, Off, Start, WindowOk, Pos, Slot, AllAre;
    var s' := SetValueStep(s, op, e, b);
    SetValuePlace(s, op, e, b);
    assert s'.heap == Linked(s, op, b) by { SetValueHeap(s, op, e, b); }
    if op.bulk { LinkedChain(s, op, e, b); }
    CeilFacts(s.q.tail);
    CeilMonotone(s.q.tail + 1, s.q.tail + |op.vs|);
    NextBase(|s.blocks|);
    MoreLive(s.life, CeilBlk(s.q.tail));
    if Off(s.q.tail) != 0 && op.bulk { assert BlockOf(s'.blocks, Blk(s.q.tail)) == BlockOf(s.blocks, Blk(s.q.tail)); }
  }

  lemma NextBase(n: nat)
    ensures Start(n + 1) == Start(n) + BLOCK_SIZE
  {
  }

  lemma MoreLive(life: seq<Life>, n0: nat)
    requires AllAre(life, n0, |life|, Live)
    ensures AllAre(life + [Live], n0, |life| + 1, Live)
  {
    forall n: nat | n0 <= n < |life| + 1 ensures LifeIs(life + [Live], n, Live) {
      assert n < |life| ==> LifeIs(life, n, Live);
    }
  }

  lemma SetValueHeap(s: State, op: Op, e: nat, b: nat)
    ensures SetValueStep(s, op, e, b).heap == Linked(s, op, b)
  {
    hide SetNext, SetEntryValue, Off;
  }

  lemma MoreHomes(h: Header, home: seq<nat>, e: nat, a: nat, b: nat)
    requires HomesIn(h, home, a, b)
    ensures HomesIn(h, home + [e], a, b)
  {
    forall n: nat | a <= n <= b ensures HomeIn(h, home + [e], n) {
      assert HomeIn(h, home, n);
    }
  }

  /** More block numbers do not disturb the consumers. */
  lemma MoreLoc(s: State, entries': seq<Entry>, e: nat, b: nat, u: nat)
    requires Inv(s) && u < |s.locs| && |s.home| == |s.blocks| == |s.life|
    requires forall e': nat :: EntryAt(entries', e').key == EntryAt(s.entries, e').key
    ensures LocOk(s.locs[u], u, s.claims.spans[u], s.headers, entries', s.home + [e], s.blocks + [b], s.life + [Live])
  {
    hide LinkOk, CellsOk, HeapOk, OwnOk, LifeOk, NumsOk, PpcOk, IndexOk, HomesIn, InSlot, Base, Pos, EntryAt, Blk, Off;
    var l, p := s.locs[u], s.claims.spans[u];
    assert LocOk(l, u, p, s.headers, s.entries, s.home, s.blocks, s.life);
    if l.LoadTail? || l.LoadKey? || l.LoadValue? {
      MoreHomes(s.headers[l.h], s.home, e, Blk(p.pos), Blk(p.hi - 1));
    } else if l.Read? || l.Mark? {
      MoreHomes(s.headers[l.h], s.home, e, Blk(p.start), Blk(p.hi - 1));
      StartIsOld(s, u);
    } else if l.Clear? || l.Free? {
      MoreHomes(s.headers[l.h], s.home, e, Blk(p.pos - 1), Blk(p.hi - 1));
    }
  }

  lemma StartIsOld(s: State, u: nat)
    requires Inv(s) && u < |s.locs| && (s.locs[u].Read? || s.locs[u].Mark?)
    ensures Blk(s.claims.spans[u].start) < |s.blocks|
  {
    hide CellsOk, HeapOk, OwnOk, NumsOk, PpcOk, IndexOk, HomesIn, InSlot;
    assert LocOk(s.locs[u], u, s.claims.spans[u], s.headers, s.entries, s.home, s.blocks, s.life);
    HeldIsLive(s, u, s.claims.spans[u].start);
  }

  lemma SetValueHeapOk(s: State, op: Op, e: nat, b: nat)
    requires Inv(s) && s.ppc == SetValue(op, e, b)
    ensures var s' := SetValueStep(s, op, e, b);
            && HeapOk(s'.heap) && OwnOk(s'.heap, s'.blocks, s'.life) && LifeOk(s'.heap, s'.blocks, s'.life, s.claims)
            && |s.claims.stage| <= |s.claims.vals| && CellsOk(s'.heap, s'.blocks, s.claims)
  {
    hide LinkOk, CellsOk, HeapOk, LifeOk, LocsOk, IndexOk, NumsOk, CeilBlk, TailAt, Linked, NextEntry, Allocating, NextOf, IsFree, Done, Cell, OwnOk;
    SetValueHeap(s, op, e, b);
    LinkedFrame(s, op, b);
    LinkLengths(s);
    MoreBlocks(s.heap, s.blocks, s.life, s.claims, b);
    var heap', blocks', life' := Linked(s, op, b), s.blocks + [b], s.life + [Live];
    OwnFrame(s.heap, heap', blocks', life');
    LifeFrame(s.heap, heap', blocks', life', s.claims);
    CellsFrame(s.heap, heap', blocks', s.claims);
  }

  lemma SetValueKeeps(s: State, op: Op, e: nat, b: nat)
    requires Inv(s) && s.ppc == SetValue(op, e, b)
    ensures Inv(SetValueStep(s, op, e, b))
  {
    hide LinkOk, CellsOk, HeapOk, LifeOk, OwnOk, NumsOk, CeilBlk, TailAt, NextEntry, PpcOk, NextOf, IsFree, Done, Cell, SetNext, SetEntryValue, WindowOk, LocOk, Doubling, EntryAt, Off, Slot, Pos;
    var s' := SetValueStep(s, op, e, b);
    SetValuePlace(s, op, e, b);
    WrapSlot(Last(s), |s.home|, s.entries);
    SetSomeFrame(s.entries, e, b);
    SetValueIndex(Last(s), s.entries, s.home, s.blocks, s.life, s.high, e, b);
    SetValueNext(s, op, e, b);
    SetValueHeapOk(s, op, e, b);
    MoreNums(s.q.tail, s.headers, |s.home|, s.high);
    forall u | 0 <= u < |s.locs| ensures LocOk(s.locs[u], u, s.claims.spans[u], s.headers, s'.entries, s'.home, s'.blocks, s'.life) {
      MoreLoc(s, s'.entries, e, b, u);
    }
    NoneWritten(s'.ppc, s'.heap, s'.blocks, s.q.tail);
  }

  lemma MoreNums(tail: nat, headers: seq<Header>, size: nat, high: nat)
    requires NumsOk(tail, headers, size, high)
    ensures NumsOk(tail, headers, size + 1, high)
  {
  }

  lemma WrapSlot(h: Header, n: nat, entries: seq<Entry>)
    requires |h.index| > 0 && h.origin <= n
    ensures InRange(h.index, |entries|) ==> Slot(h, Pos(h, n)) < |entries|
    ensures forall home: seq<nat>, blocks: seq<nat>, life: seq<Life>, high: nat :: WindowOk(h, entries, home, blocks, life, high) ==> InRange(h.index, |entries|)
  {
    WrapBelow(n - h.origin, |h.index|);
  }

  // ----- undoing a bulk operation -----

  /** The producer's own look at the block index finds the slot of every number in the window,
      whether it is before or after the tail. */
  lemma OwnLookup(h: Header, entries: seq<Entry>, home: seq<nat>, blocks: seq<nat>, life: seq<Life>, high: nat, next: nat, n: nat)
    requires WindowOk(h, entries, home, blocks, life, high) && h.tail < |h.index| && h.origin < next
    requires Succ(h.tail, |h.index|) == Pos(h, next) && InWindow(h, high, next - 1) && h.origin <= n
    ensures Lookup(h, h.tail, EntryAt(entries, Slot(h, h.tail)).key, Start(n)) == Pos(h, n)
  {
    hide Distinct, InRange, Mask, DivBlocks, Wrap;
    TailSlot(h, next);
    assert SlotOk(h, entries, home, blocks, life, high, next - 1);
    JoinIndex(n, 0);
    if n <= next - 1 {
      DivBlocksOfStarts(n, next - 1);
      MaskFarBack(next - 1 - h.origin, next - 1 - n, |h.index|);
    } else {
      DivBlocksForward(next - 1, n);
      MaskForward(next - 1 - h.origin, n - (next - 1), |h.index|);
    }
  }

  lemma {:induction false} DivBlocksForward(m: nat, n: nat)
    requires m <= n
    ensures DivBlocks(Start(n) - Start(m)) == n - m
  {
    if m < n {
      StartMonotone(m, n);
      DivBlocksForward(m, n - 1);
    }
  }

  lemma MaskForward(x: nat, d: nat, size: nat)
    requires size > 0
    ensures Mask(Wrap(x, size) + d, size) == Wrap(x + d, size)
  {
    WrapForward(x, d, size);
  }

  /** Which number the operation is undoing, and what its block index looks like. */
  lemma RollPlace(s: State, op: Op, b: nat, base: nat)
    requires Inv(s) && (s.ppc == RollValue(op, b, base) || s.ppc == RollTail(op, b, base))
    ensures var n := Blk(base);
            && s.headers != [] && base == Start(n) && CeilBlk(s.q.tail) <= n < |s.blocks| == |s.home| == |s.life| <= s.high
            && Undoing(op, s.q.tail, s.headers, s.heap, s.blocks, b, n)
            && TailAt(s.headers, |s.blocks| - (n - CeilBlk(s.q.tail)))
    ensures WindowOk(Last(s), s.entries, s.home, s.blocks, s.life, s.high) && Doubling(s.headers)
    ensures Last(s).origin <= CeilBlk(s.q.tail) && s.high <= CeilBlk(s.q.tail) + |Last(s).index|
  {
    hide LinkOk, CellsOk, HeapOk, OwnOk, LifeOk, LocsOk, WindowOk, CeilBlk, TailAt, Doubling, AllAre, OpOk, Blk;
  }

  lemma RollValueFinds(s: State, op: Op, b: nat, base: nat)
    requires Inv(s) && s.ppc == RollValue(op, b, base)
    ensures Blk(base) < |s.home| && s.headers != []
    ensures var h := Last(s);
            Slot(h, Lookup(h, h.tail, EntryAt(s.entries, Slot(h, h.tail)).key, base)) == s.home[Blk(base)]
  {
    RollPlace(s, op, b, base);
    hide Inv, WindowOk, Wrap, Lookup, CeilBlk, Blk, Start;
    var n, n0, h := Blk(base), CeilBlk(s.q.tail), Last(s);
    OwnLookup(h, s.entries, s.home, s.blocks, s.life, s.high, |s.blocks| - (n - n0), n);
    WindowSlot(h, s.entries, s.home, s.blocks, s.life, s.high, n);
  }

  lemma WindowSlot(h: Header, entries: seq<Entry>, home: seq<nat>, blocks: seq<nat>, life: seq<Life>, high: nat, n: nat)
    requires WindowOk(h, entries, home, blocks, life, high) && InWindow(h, high, n) && n < |home|
    ensures Slot(h, Pos(h, n)) == home[n]
  {
    assert SlotOk(h, entries, home, blocks, life, high, n);
  }

  lemma ExtendAre(life: seq<Life>, lo: nat, n: nat, l: Life)
    requires AllAre(life, lo, n, l) && lo <= n < |life|
    ensures AllAre(SetLife(life, n, l), lo, n + 1, l)
  {
    forall k: nat | lo <= k < n + 1 ensures LifeIs(SetLife(life, n, l), k, l) {
      assert k < n ==> LifeIs(life, k, l);
    }
  }

  lemma RestAre(life: seq<Life>, n: nat, hi: nat, l: Life, l': Life)
    requires AllAre(life, n, hi, l)
    ensures AllAre(SetLife(life, n, l'), n + 1, hi, l)
  {
    forall k: nat | n + 1 <= k < hi ensures LifeIs(SetLife(life, n, l'), k, l) {
      assert LifeIs(life, k, l);
    }
  }

  /** Changing the life of a number that is not published disturbs no consumer. */
  lemma UnpublishedLoc(s: State, entries': seq<Entry>, n: nat, l: Life, u: nat)
    requires Inv(s) && u < |s.locs| && CeilBlk(s.q.tail) <= n < |s.life|
    requires forall e: nat :: EntryAt(entries', e).key == EntryAt(s.entries, e).key
    ensures LocOk(s.locs[u], u, s.claims.spans[u], s.headers, entries', s.home, s.blocks, SetLife(s.life, n, l))
  {
    hide LinkOk, CellsOk, HeapOk, OwnOk, LifeOk, NumsOk, PpcOk, IndexOk, HomesIn, InSlot, Base, Pos, EntryAt, Blk, Off, CeilBlk;
    assert LocOk(s.locs[u], u, s.claims.spans[u], s.headers, s.entries, s.home, s.blocks, s.life);
    if s.locs[u].Clear? || s.locs[u].Free? {
      ClearPlace(s, u);
    }
  }

  lemma RollValueNext(s: State, op: Op, b: nat, base: nat)
    requires Inv(s) && s.ppc == RollValue(op, b, base)
    ensures var s' := RollValueStep(s, op, b, base);
            && PpcOk(s'.ppc, s.q.tail, s.headers, s'.entries, s.heap, s.blocks, s'.life, s.high, s.tailBlock)
            && Listed(s.life, Blk(base)) && Blk(base) < s.high
  {
    hide LinkOk, CellsOk, HeapOk, OwnOk, LifeOk, LocsOk, IndexOk, NumsOk, WindowOk, Doubling, CeilBlk, TailAt, Undoing, Lookup, SetEntryValue, Blk, Base, SetLife, AllAre;
    RollPlace(s, op, b, base);
    ExtendAre(s.life, CeilBlk(s.q.tail), Blk(base), Dropped);
    RestAre(s.life, Blk(base), |s.blocks|, Live, Dropped);
    assert LifeIs(s.life, Blk(base), Live) by { FirstIs(s.life, Blk(base), |s.blocks|, Live); }
  }

  lemma FirstIs(life: seq<Life>, lo: nat, hi: nat, l: Life)
    requires AllAre(life, lo, hi, l) && lo < hi
    ensures LifeIs(life, lo, l)
  {
  }

  lemma RollValueKeeps(s: State, op: Op, b: nat, base: nat)
    requires Inv(s) && s.ppc == RollValue(op, b, base)
    ensures s.headers != [] && Inv(RollValueStep(s, op, b, base))
  {
    RollPlace(s, op, b, base);
    RollValueFinds(s, op, b, base);
    RollValueNext(s, op, b, base);
    LinkLengths(s);
    hide LinkOk, CellsOk, HeapOk, OwnOk, LifeOk, WindowOk, Doubling, CeilBlk, PpcOk, TailAt, Undoing, Lookup, SetEntryValue, LocOk, Blk, Slot, EntryAt, SetLife, NumsOk;
    var s' := RollValueStep(s, op, b, base);
    var n := Blk(base);
    ClearIndex(Last(s), s.entries, s.home, s.blocks, s.life, s.high, n, Dropped);
    RollLive(s, op, b, base);
    FirstIs(s.life, n, |s.blocks|, Live);
    ClearOwn(s.heap, s.blocks, s.life, s.claims, n, Dropped);
    SetLifeLength(s.life, n, Dropped);
    SetValueFrame(s.entries, s.home[n]);
    forall u | 0 <= u < |s.locs| ensures LocOk(s.locs[u], u, s.claims.spans[u], s.headers, s'.entries, s.home, s.blocks, s'.life) {
      UnpublishedLoc(s, s'.entries, n, Dropped, u);
    }
    NoneWritten(s'.ppc, s.heap, s.blocks, s.q.tail);
  }

  lemma RollLive(s: State, op: Op, b: nat, base: nat)
    requires Inv(s) && s.ppc == RollValue(op, b, base)
    ensures AllAre(s.life, Blk(base), |s.blocks|, Live) && Blk(base) < |s.blocks|
  {
    hide LinkOk, CellsOk, HeapOk, OwnOk, LifeOk, LocsOk, IndexOk, NumsOk, CeilBlk, TailAt, AllAre, OpOk, Blk;
  }

  lemma SetLifeLength(life: seq<Life>, n: nat, l: Life)
    ensures |SetLife(life, n, l)| == |life|
  {
  }

  lemma RollTailKeeps(s: State, op: Op, b: nat, base: nat)
    requires Inv(s) && s.ppc == RollTail(op, b, base)
    ensures s.headers != [] && Inv(RollTailStep(s, op, b, base))
  {
    hide LinkOk, CellsOk, HeapOk, OwnOk, LifeOk, LocsOk, IndexOk, NumsOk, WindowOk, Doubling, CeilBlk, TailAt, NextOf, Blk, Pred, AllAre, Off, Start;
    RollPlace(s, op, b, base);
    var n, n0, size := Blk(base), CeilBlk(s.q.tail), |s.blocks|;
    CeilFacts(s.q.tail);
    JoinIndex(n + 1, 0);
    NextBase(n);
    var next := size - (n - n0);
    TailBack(s.headers, next);
    RollTailLinks(s, op, b, n);
    NoneAre(s.life, n0, n0, Freed);
    assert NextOf(s.heap, b) == None ==> n + 1 == size;
    TailSetKeeps(s, RollTailStep(s, op, b, base), Back(s), next - 1);
  }

  lemma NoneAre(life: seq<Life>, lo: nat, hi: nat, l: Life)
    requires hi <= lo
    ensures AllAre(life, lo, hi, l)
  {
  }

  lemma RollTailLinks(s: State, op: Op, b: nat, n: nat)
    requires Undoing(op, s.q.tail, s.headers, s.heap, s.blocks, b, n)
    ensures NextOf(s.heap, b) == if n + 1 < |s.blocks| then Some(BlockOf(s.blocks, n + 1)) else None
    ensures op.first == Some(BlockOf(s.blocks, CeilBlk(s.q.tail)))
  {
    hide NextOf, CeilBlk, Blk;
    CeilFacts(s.q.tail);
  }

  // ----- giving the blocks of an undone operation back -----

  lemma FreePlace(s: State, op: Op, b: nat, n: nat)
    requires Inv(s) && s.ppc == FreeChain(op, b, n)
    ensures CeilBlk(s.q.tail) <= n < |s.blocks| == |s.home| == |s.life| && b == BlockOf(s.blocks, n)
    ensures LifeIs(s.life, n, Dropped) && Undoing(op, s.q.tail, s.headers, s.heap, s.blocks, b, n)
  {
    hide LinkOk, CellsOk, HeapOk, OwnOk, LifeOk, LocsOk, WindowOk, CeilBlk, TailAt, OpOk, NumsOk;
    FirstIs(s.life, n, |s.blocks|, Dropped);
  }

  /** One block more is back in the pool; the numbers are still there. */
  function OneFreed(s: State, n: nat, b: nat): State {
    s.(heap := SetFree(s.heap, b), life := SetLife(s.life, n, Freed))
  }

  lemma OneFreedOk(s: State, op: Op, b: nat, n: nat)
    requires Inv(s) && s.ppc == FreeChain(op, b, n)
    ensures var s' := OneFreed(s, n, b);
            && Shape(s') && HeapOk(s'.heap) && OwnOk(s'.heap, s.blocks, s'.life) && LifeOk(s'.heap, s.blocks, s'.life, s.claims)
            && |s.claims.stage| <= |s.claims.vals| && CellsOk(s'.heap, s.blocks, s.claims)
            && IndexOk(s.headers, s.entries, s.home, s.blocks, s'.life, s.high)
            && LocsOk(s.locs, s.claims.spans, s.headers, s.entries, s.home, s.blocks, s'.life)
            && Undoing(op, s.q.tail, s.headers, s'.heap, s.blocks, b, n)
            && AllAre(s'.life, CeilBlk(s.q.tail), n + 1, Freed) && AllAre(s'.life, n + 1, |s.blocks|, Dropped)
  {
    FreePlace(s, op, b, n);
    LinkLengths(s);
    hide LinkOk, CellsOk, HeapOk, LifeOk, CeilBlk, TailAt, NumsOk, NextOf, SetFree, IsFree, Done, Cell, IndexOk, LocOk, AllAre, OwnOk, ChainOk, ChainEnds;
    assert Owned(s.life, n);
    FreeOwn(s.heap, s.blocks, s.life, s.claims, n);
    var s' := OneFreed(s, n, b);
    BlockInHeap(s, n);
    SetFreeFrame(s.heap, b);
    CellsFrame(s.heap, s'.heap, s.blocks, s.claims);
    SetLifeLength(s.life, n, Freed);
    IndexFrame(s.headers, s.entries, s.home, s.blocks, s.life, s'.life, s.high);
    ChainFrame(s.heap, s'.heap, s.blocks);
    forall u | 0 <= u < |s.locs| ensures LocOk(s.locs[u], u, s.claims.spans[u], s.headers, s.entries, s.home, s.blocks, s'.life) {
      UnpublishedLoc(s, s.entries, n, Freed, u);
    }
    ExtendAre(s.life, CeilBlk(s.q.tail), n, Freed);
    RestAre(s.life, n, |s.blocks|, Dropped, Freed);
  }

  lemma BlockInHeap(s: State, n: nat)
    requires Inv(s) && Owned(s.life, n)
    ensures BlockOf(s.blocks, n) < |s.heap|
  {
    hide LinkOk, CellsOk, HeapOk, LifeOk, LocsOk, IndexOk, NumsOk, PpcOk, WrittenOk;
  }

  /** Forgetting the numbers of an operation that was undone. */
  lemma CutIndex(headers: seq<Header>, entries: seq<Entry>, home: seq<nat>, blocks: seq<nat>, life: seq<Life>, high: nat, n0: nat)
    requires IndexOk(headers, entries, home, blocks, life, high) && n0 <= |life| && AllAre(life, n0, |life|, Freed)
    ensures IndexOk(headers, entries, home[..n0], blocks[..n0], life[..n0], high)
  {
    hide Distinct, Wrap, InRange;
    forall k: nat ensures Listed(life[..n0], k) <==> Listed(life, k) {
      if n0 <= k < |life| { assert LifeIs(life, k, Freed); }
    }
    if headers != [] {
      var h := headers[|headers| - 1];
      forall n: nat | h.origin <= n ensures SlotOk(h, entries, home[..n0], blocks[..n0], life[..n0], high, n) {
        assert SlotOk(h, entries, home, blocks, life, high, n);
      }
      forall n: nat | Listed(life[..n0], n) ensures InWindow(h, high, n) {
        assert Listed(life, n);
      }
    }
  }

  lemma CutBlocks(heap: seq<Block>, blocks: seq<nat>, life: seq<Life>, c: C.State, n0: nat)
    requires OwnOk(heap, blocks, life) && LifeOk(heap, blocks, life, c) && |c.stage| <= |c.vals| && CellsOk(heap, blocks, c)
    requires n0 == CeilBlk(|c.stage|)
    ensures OwnOk(heap, blocks[..n0], life[..n0]) && LifeOk(heap, blocks[..n0], life[..n0], c) && CellsOk(heap, blocks[..n0], c)
  {
    hide IsFree, Done, Cell, Blk, Off, C.Unread;
    var blocks', life' := blocks[..n0], life[..n0];
    forall n: nat | n < |life'| ensures LifeAt(heap, blocks', life', c, n) {
      assert LifeAt(heap, blocks, life, c, n);
    }
    forall i: nat | i < |c.stage| && C.Unread(c, i) ensures CellOk(heap, blocks', i, c.vals[i]) {
      assert CellOk(heap, blocks, i, c.vals[i]);
      BelowCeil(i, |c.stage|);
    }
    forall n: nat | Owned(life', n) ensures BlockOf(blocks', n) < |heap| && !IsFree(heap, BlockOf(blocks', n)) {
      assert Owned(life, n);
    }
    forall m: nat, n: nat | Owned(life', m) && Owned(life', n) && m != n ensures BlockOf(blocks', m) != BlockOf(blocks', n) {
      assert Owned(life, m) && Owned(life, n);
    }
  }

  lemma CutHomes(h: Header, home: seq<nat>, a: nat, b: nat, n0: nat)
    requires HomesIn(h, home, a, b) && b < n0 <= |home|
    ensures HomesIn(h, home[..n0], a, b)
  {
    forall n: nat | a <= n <= b ensures HomeIn(h, home[..n0], n) {
      assert HomeIn(h, home, n);
    }
  }

  lemma CutLoc(s: State, op: Op, b: nat, n: nat, life': seq<Life>, u: nat)
    requires Inv(s) && s.ppc == FreeChain(op, b, n) && u < |s.locs| && life' == SetLife(s.life, n, Freed)
    ensures CeilBlk(s.q.tail) <= |s.home| == |s.blocks| == |life'|
    ensures var n0 := CeilBlk(s.q.tail);
            LocOk(s.locs[u], u, s.claims.spans[u], s.headers, s.entries, s.home[..n0], s.blocks[..n0], life'[..n0])
  {
    hide CellsOk, HeapOk, OwnOk, LifeOk, NumsOk, PpcOk, IndexOk, HomesIn, InSlot, Base, Pos, EntryAt, Blk, Off, CeilBlk, LinkOk, C.StageOk, Fits, SetLife, Undoing;
    var n0 := CeilBlk(s.q.tail);
    FreePlace(s, op, b, n);
    UnpublishedLoc(s, s.entries, n, Freed, u);
    SetLifeLength(s.life, n, Freed);
    LinkLengths(s);
    assert C.SpanOk(s.claims, u);
    var l, p := s.locs[u], s.claims.spans[u];
    assert LocOk(l, u, p, s.headers, s.entries, s.home, s.blocks, life');
    if l != Out && l != LoadHeader {
      BelowCeil(p.hi - 1, s.q.tail);
      if l.LoadTail? || l.LoadKey? || l.LoadValue? {
        CutHomes(s.headers[l.h], s.home, Blk(p.pos), Blk(p.hi - 1), n0);
      } else if l.Read? || l.Mark? {
        CutHomes(s.headers[l.h], s.home, Blk(p.start), Blk(p.hi - 1), n0);
        BlkMonotone(p.start, p.hi - 1);
      } else {
        CutHomes(s.headers[l.h], s.home, Blk(p.pos - 1), Blk(p.hi - 1), n0);
        BlkMonotone(p.pos - 1, p.hi - 1);
      }
    }
  }

  lemma FreeNums(s: State, op: Op, b: nat, n: nat)
    requires Inv(s) && s.ppc == FreeChain(op, b, n)
    ensures NumsOk(s.q.tail, s.headers, CeilBlk(s.q.tail), s.high) && TailAt(s.headers, CeilBlk(s.q.tail))
    ensures Off(s.q.tail) != 0 ==> op.start == Some(BlockOf(s.blocks, Blk(s.q.tail))) && Blk(s.q.tail) < CeilBlk(s.q.tail)
  {
    hide LinkOk, CellsOk, HeapOk, OwnOk, LifeOk, LocsOk, IndexOk, CeilBlk, TailAt;
    CeilFacts(s.q.tail);
  }

  lemma FreeChainKeeps(s: State, op: Op, b: nat, n: nat)
    requires Inv(s) && s.ppc == FreeChain(op, b, n)
    ensures Inv(FreeChainStep(s, op, b, n))
  {
    OneFreedOk(s, op, b, n);
    FreePlace(s, op, b, n);
    FreeNums(s, op, b, n);
    RollTailLinks(s, op, b, n);
    LinkLengths(s);
    var s' := FreeChainStep(s, op, b, n);
    if n + 1 < |s.blocks| {
      hide LinkOk, CellsOk, HeapOk, OwnOk, LifeOk, LocsOk, IndexOk, NumsOk, CeilBlk, TailAt, OpOk, AllAre, NextOf, SetFree, SetLife;
      NoneWritten(s'.ppc, s'.heap, s'.blocks, s.q.tail);
    } else {
      FreeLast(s, op, b, n);
    }
  }

  /** The last block of the undone operation is back: everything is as before it began. */
  lemma FreeLast(s: State, op: Op, b: nat, n: nat)
    requires Inv(s) && s.ppc == FreeChain(op, b, n) && n + 1 == |s.blocks| && NextOf(s.heap, b) == None
    ensures Inv(FreeChainStep(s, op, b, n))
    ensures var n0, s' := CeilBlk(s.q.tail), FreeChainStep(s, op, b, n);
            && s'.ppc == Idle && s'.tailBlock == op.start && n0 <= |s.blocks| == |s.home| == |s.life|
            && s'.blocks == s.blocks[..n0] && s'.home == s.home[..n0] && s'.life == s.life[..n0]
            && s'.claims == s.claims && b < |s.heap| && IsFree(s'.heap, b)
  {
    OneFreedOk(s, op, b, n);
    FreePlace(s, op, b, n);
    FreeNums(s, op, b, n);
    LinkLengths(s);
    assert SetLife(s.life, n, Freed)[..CeilBlk(s.q.tail)] == s.life[..CeilBlk(s.q.tail)];
    hide LinkOk, CellsOk, HeapOk, OwnOk, LifeOk, IndexOk, NumsOk, CeilBlk, TailAt, OpOk, AllAre, NextOf, SetFree, SetLife, LocOk, Blk, Off;
    var n0 := CeilBlk(s.q.tail);
    var s1, s' := OneFreed(s, n, b), FreeChainStep(s, op, b, n);
    SetLifeLength(s.life, n, Freed);
    CutIndex(s.headers, s.entries, s.home, s.blocks, s1.life, s.high, n0);
    CutBlocks(s1.heap, s.blocks, s1.life, s.claims, n0);
    forall u | 0 <= u < |s.locs| ensures LocOk(s'.locs[u], u, s.claims.spans[u], s.headers, s.entries, s'.home, s'.blocks, s'.life) {
      CutLoc(s, op, b, n, s1.life, u);
    }
    NoneWritten(s'.ppc, s'.heap, s'.blocks, s.q.tail);
  }

  // ----- writing and publishing the elements -----

  lemma WritePlace(s: State, op: Op, j: nat, end: Option<nat>)
    requires Inv(s) && s.ppc == Write(op, j, end)
    ensures j < |op.vs| && Blk(s.q.tail + j) < |s.blocks| && LifeIs(s.life, Blk(s.q.tail + j), Live)
    ensures s.tailBlock == Some(BlockOf(s.blocks, Blk(s.q.tail + j)))
    ensures var s' := WriteStep(s, op, j, end);
            && PpcOk(s'.ppc, s.q.tail, s.headers, s.entries, s.heap, s.blocks, s.life, s.high, s'.tailBlock)
            && WrittenBy(s'.ppc) == op.vs[..j + 1]
  {
    hide LinkOk, CellsOk, HeapOk, OwnOk, LifeOk, LocsOk, IndexOk, NumsOk, WrittenOk, TailAt, Blk, Off, CeilBlk, NextOf, SetCell, BlockOf, ChainOk;
    var i := s.q.tail + j;
    BlkMonotone(s.q.tail, i);
    BelowCeil(i, s.q.tail + |op.vs|);
    CeilFacts(s.q.tail);
    CeilFacts(i);
    NextIndex(i);
    if Blk(i) < CeilBlk(s.q.tail) { TailBlockLives(s); } else { assert LifeIs(s.life, Blk(i), Live); }
    if j + 1 < |op.vs| {
      CeilMonotone(i + 2, s.q.tail + |op.vs|);
      CeilFacts(i + 1);
      WriteEnd(s, op, j, end);
    }
  }

  /** Which block the writing goes on in. */
  lemma WriteEnd(s: State, op: Op, j: nat, end: Option<nat>)
    requires Inv(s) && s.ppc == Write(op, j, end) && j + 1 < |op.vs|
    requires Blk(s.q.tail + j) + 1 < |s.blocks| || Off(s.q.tail + j + 1) != 0
    ensures Off(s.q.tail + j + 1) == 0 ==>
              s.tailBlock != end && NextOf(s.heap, BlockOf(s.blocks, Blk(s.q.tail + j))) == Some(BlockOf(s.blocks, Blk(s.q.tail + j) + 1))
  {
    hide LinkOk, CellsOk, HeapOk, LifeOk, LocsOk, IndexOk, NumsOk, WrittenOk, TailAt, Blk, Off, CeilBlk, NextOf, SetCell, IsFree;
    var i := s.q.tail + j;
    BlkMonotone(s.q.tail, i);
    if Off(i + 1) == 0 {
      CeilFacts(s.q.tail);
      assert LifeIs(s.life, |s.blocks| - 1, Live);
      if Blk(i) < CeilBlk(s.q.tail) { TailBlockLives(s); } else { assert LifeIs(s.life, Blk(i), Live); }
      assert Owned(s.life, Blk(i)) && Owned(s.life, |s.blocks| - 1);
    }
  }

  lemma WriteCells(s: State, op: Op, j: nat, end: Option<nat>)
    requires Inv(s) && s.ppc == Write(op, j, end)
    ensures j < |op.vs| && |s.claims.stage| <= |s.claims.vals|
    ensures CellsOk(SetCell(s.heap, BlockOf(s.blocks, Blk(s.q.tail + j)), Off(s.q.tail + j), Some(op.vs[j])), s.blocks, s.claims)
  {
    hide LocsOk, PpcOk, IndexOk, WrittenOk, HeapOk, OwnOk, LifeOk, LinkOk, NumsOk, Blk, Off, SetCell, CellOk, WriteStep;
    WritePlace(s, op, j, end);
    LinkLengths(s);
    var i := s.q.tail + j;
    forall k: nat | k < |s.claims.stage| && C.Unread(s.claims, k)
      ensures CellOk(SetCell(s.heap, BlockOf(s.blocks, Blk(i)), Off(i), Some(op.vs[j])), s.blocks, k, s.claims.vals[k])
    {
      assert CellOk(s.heap, s.blocks, k, s.claims.vals[k]);
      PublishedIsOwned(s, k);
      OtherCell(s.heap, s.blocks, s.life, i, Some(op.vs[j]), k, s.claims.vals[k]);
    }
  }

  lemma WriteWritten(s: State, op: Op, j: nat, end: Option<nat>)
    requires Inv(s) && s.ppc == Write(op, j, end)
    ensures j < |op.vs|
    ensures var heap := SetCell(s.heap, BlockOf(s.blocks, Blk(s.q.tail + j)), Off(s.q.tail + j), Some(op.vs[j]));
            forall k: nat :: k < j + 1 ==> CellOk(heap, s.blocks, s.q.tail + k, op.vs[k])
  {
    hide LocsOk, PpcOk, IndexOk, OwnOk, LifeOk, LinkOk, NumsOk, Blk, Off, SetCell, WriteStep, CellsOk;
    WritePlace(s, op, j, end);
    var i := s.q.tail + j;
    var b := BlockOf(s.blocks, Blk(i));
    var heap := SetCell(s.heap, b, Off(i), Some(op.vs[j]));
    SplitIndex(i);
    assert Owned(s.life, Blk(i));
    BlockInHeap(s, Blk(i));
    SetCellFrame(s.heap, b, Off(i), Some(op.vs[j]));
    forall k: nat | k < j + 1 ensures CellOk(heap, s.blocks, s.q.tail + k, op.vs[k]) {
      if k < j {
        assert WrittenBy(s.ppc)[k] == op.vs[k];
        assert CellOk(s.heap, s.blocks, s.q.tail + k, WrittenBy(s.ppc)[k]);
        WrittenLives(s, k);
        OtherCell(s.heap, s.blocks, s.life, i, Some(op.vs[j]), s.q.tail + k, op.vs[k]);
      }
    }
  }

  lemma WriteKeeps(s: State, op: Op, j: nat, end: Option<nat>)
    requires Inv(s) && s.ppc == Write(op, j, end)
    ensures Inv(WriteStep(s, op, j, end))
  {
    hide LinkOk, CellsOk, LocsOk, HeapOk, OwnOk, LifeOk, IndexOk, NumsOk, PpcOk, SetCell, Cell, Blk, Off, CellOk, NextOf, IsFree, Done, BlockOf;
    WritePlace(s, op, j, end);
    WriteCells(s, op, j, end);
    WriteWritten(s, op, j, end);
    var i := s.q.tail + j;
    var s' := WriteStep(s, op, j, end);
    SetCellFrame(s.heap, s.tailBlock.value, Off(i), Some(op.vs[j]));
    OwnFrame(s.heap, s'.heap, s.blocks, s.life);
    LifeFrame(s.heap, s'.heap, s.blocks, s.life, s.claims);
    PpcFrame(s'.ppc, s.q.tail, s.headers, s.entries, s.entries, s.heap, s'.heap, s.blocks, s.life, s.life, s.high, s'.tailBlock);
  }

  lemma FinishNums(s: State, op: Op)
    requires Inv(s) && s.ppc == Finish(op)
    ensures |s.blocks| == |s.home|
    ensures NumsOk(s.q.tail + |op.vs|, s.headers, |s.home|, s.high)
    ensures PpcOk(Idle, s.q.tail + |op.vs|, s.headers, s.entries, s.heap, s.blocks, s.life, s.high, s.tailBlock)
  {
    hide LinkOk, CellsOk, LocsOk, HeapOk, OwnOk, LifeOk, WindowOk, Blk, Off, CeilBlk, TailAt;
    CeilMonotone(s.q.tail, s.q.tail + |op.vs|);
    CeilFacts(s.q.tail + |op.vs|);
  }

  lemma FinishBlocks(s: State, op: Op)
    requires Inv(s) && s.ppc == Finish(op)
    ensures var c := C.Publish(s.claims, op.vs);
            C.Inv(c) && |c.vals| == |c.stage| == s.q.tail + |op.vs| && LifeOk(s.heap, s.blocks, s.life, c) && CellsOk(s.heap, s.blocks, c)
  {
    LinkLengths(s);
    FinishLives(s, op);
    hide LocsOk, HeapOk, OwnOk, IndexOk, NumsOk, PpcOk, C.IsGone, C.Unread, Blk, Off, D.Inv, C.SpanOk, C.StageOk, Cell, Done, BlockOf;
    C.PublishKeeps(s.claims, op.vs);
    var c := C.Publish(s.claims, op.vs);
    forall n: nat | n < |s.life| ensures LifeAt(s.heap, s.blocks, s.life, c, n) {
      assert LifeAt(s.heap, s.blocks, s.life, s.claims, n);
      GoneSame(s.claims, c, n, BLOCK_SIZE);
      if CeilBlk(s.q.tail) <= n { assert LifeIs(s.life, n, Live); }
    }
    forall i: nat | i < |c.stage| && C.Unread(c, i) ensures CellOk(s.heap, s.blocks, i, c.vals[i]) {
      if i < s.q.tail {
        assert c.vals[i] == s.claims.vals[i];
        assert CellOk(s.heap, s.blocks, i, s.claims.vals[i]);
      } else {
        assert WrittenBy(s.ppc)[i - s.q.tail] == op.vs[i - s.q.tail];
        assert CellOk(s.heap, s.blocks, s.q.tail + (i - s.q.tail), WrittenBy(s.ppc)[i - s.q.tail]);
      }
    }
  }

  lemma FinishLives(s: State, op: Op)
    requires Inv(s) && s.ppc == Finish(op)
    ensures AllAre(s.life, CeilBlk(s.q.tail), |s.life|, Live) && |s.life| == CeilBlk(s.q.tail + |op.vs|)
  {
    hide LinkOk, CellsOk, LocsOk, HeapOk, OwnOk, LifeOk, WindowOk, Blk, Off, CeilBlk, TailAt, AllAre;
  }

  lemma FinishLinks(s: State, op: Op)
    requires Inv(s) && s.ppc == Finish(op)
    ensures var s' := FinishStep(s, op);
            && Shape(s') && LinkOk(s'.q, s'.claims, s.locs) && s'.q.tail == s.q.tail + |op.vs|
            && s'.claims.spans == s.claims.spans
  {
    D.StepKeepsInv(s.q, D.Publish(|op.vs|));
    C.PublishKeeps(s.claims, op.vs);
    hide CellsOk, LocsOk, HeapOk, OwnOk, LifeOk, IndexOk, NumsOk, PpcOk, WrittenOk, D.FateOk, D.PcOk, C.SpanOk, C.StageOk;
  }

  lemma FinishKeeps(s: State, op: Op)
    requires Inv(s) && s.ppc == Finish(op)
    ensures Inv(FinishStep(s, op))
  {
    FinishLinks(s, op);
    hide LinkOk, CellsOk, HeapOk, OwnOk, LifeOk, IndexOk, NumsOk, PpcOk, WrittenOk, C.Inv, C.Publish, D.Step, LocOk, D.Shape;
    FinishNums(s, op);
    FinishBlocks(s, op);
    NoneWritten(Idle, s.heap, s.blocks, s.q.tail + |op.vs|);
  }

  // ----- every step, every run -----

  /** Every step of the producer keeps the invariant. */
  lemma ProducerKeepsInv(s: State, a: Act)
    requires Inv(s) && a.Produce?
    ensures Inv(ProducerStep(s, a))
  {
    hide Inv, StartOp, RoomStep, InsertStep, GrowStep, SetKeyStep, SetTailStep, RequisitionStep, SetValueStep, RewindStep, UnsetStep,
      RollValueStep, RollTailStep, FreeChainStep, WriteStep, FinishStep;
    match s.ppc
    case Idle =>
      if a.vs != [] && (a.bulk || |a.vs| == 1) { StartKeeps(s, a.vs, a.bulk); }
    case Room(op) => RoomKeeps(s, op);
    case Insert(op) => if |s.headers| != 0 { InsertKeeps(s, op); }
    case Grow(op) => if |s.headers| != 0 { GrowKeeps(s, op, a.fails); }
    case SetKey(op, e) => SetKeyKeeps(s, op, e);
    case SetTail(op, e) => SetTailKeeps(s, op, e);
    case Requisition(op, e) => RequisitionKeeps(s, op, e, a.fails, a.granted, a.cells);
    case SetValue(op, e, b) => SetValueKeeps(s, op, e, b);
    case Rewind(op, e) => RewindKeeps(s, op, e);
    case Unset(op, e) => UnsetKeeps(s, op, e);
    case RollValue(op, b, base) => RollValueKeeps(s, op, b, base);
    case RollTail(op, b, base) => RollTailKeeps(s, op, b, base);
    case FreeChain(op, b, n) => FreeChainKeeps(s, op, b, n);
    case Write(op, j, end) => WriteKeeps(s, op, j, end);
    case Finish(op) => FinishKeeps(s, op);
  }

  /** Every step of the producer and of every consumer keeps the invariant. */
  lemma StepKeepsInv(s: State, a: Act)
    requires Inv(s) && (a.Consume? ==> a.t < |s.locs|)
    ensures Inv(Step(s, a))
  {
    hide Inv, ProducerStep, ConsumerStep;
    match a
    case Produce(_, _, _, _, _) => ProducerKeepsInv(s, a);
    case Consume(t, want, seen) => ConsumerKeepsInv(s, t, want, seen);
  }

  lemma InitIndex(s: State)
    requires Init(s) && s.headers != []
    ensures IndexOk(s.headers, s.entries, s.home, s.blocks, s.life, s.high) && TailAt(s.headers, 0)
  {
    var h := s.headers[0];
    forall n: nat | h.origin <= n ensures SlotOk(h, s.entries, s.home, s.blocks, s.life, s.high, n) {
    }
  }

  lemma InitHoldsInv(s: State)
    requires Init(s)
    ensures Inv(s)
  {
    if s.headers != [] { InitIndex(s); }
    hide IndexOk, TailAt;
    NoneWritten(Idle, s.heap, s.blocks, 0);
  }

  ghost predicate Next(s: State, a: Act, s': State) {
    Shape(s) && (a.Consume? ==> a.t < |s.locs|) && s' == Step(s, a)
  }

  ghost predicate Run(states: seq<State>, acts: seq<Act>) {
    && |states| == |acts| + 1
    && Init(states[0])
    && forall i :: 0 <= i < |acts| ==> Next(states[i], acts[i], states[i + 1])
  }

  lemma {:induction false} RunKeepsInv(states: seq<State>, acts: seq<Act>, i: nat)
    requires Run(states, acts) && i < |states|
    ensures Inv(states[i])
  {
    hide Inv, Init, Step, Shape;
    if i == 0 {
      InitHoldsInv(states[0]);
    } else {
      RunKeepsInv(states, acts, i - 1);
      assert Next(states[i - 1], acts[i - 1], states[i]);
      StepKeepsInv(states[i - 1], acts[i - 1]);
    }
  }

  lemma ConsumersKeepValues(s: State, t: nat, want: D.Want, seen: nat)
    requires Shape(s) && t < |s.locs|
    ensures var s' := ConsumerStep(s, t, want, seen);
            s.claims.vals == s'.claims.vals && s.claims.head <= s'.claims.head
  {
    hide D.Step, C.Paint, SetCell, AddDone, Mask, DivBlocks, Base, SetEntryValue, SetLife, SetFree, Lookup, D.Shape;
  }

  lemma ProducerKeepsValues(s: State, a: Act)
    requires Shape(s) && a.Produce?
    ensures s.claims.vals <= ProducerStep(s, a).claims.vals && s.claims.head == ProducerStep(s, a).claims.head
  {
    hide D.Step, SetCell, SetNext, Mask, X.Full, CeilBlk, Start, EntryAt, NextOf, D.Shape, SetEntryValue, SetEntryKey, SetLife, SetFree,
      Lookup, Widened, Slot, Cut, Need, Succ, Pred, Blk, Off;
  }

  /** Elements once published stay what they are. */
  lemma ValuesOnlyGrow(s: State, a: Act)
    requires Shape(s) && (a.Consume? ==> a.t < |s.locs|)
    ensures s.claims.vals <= Step(s, a).claims.vals && s.claims.head <= Step(s, a).claims.head
  {
    hide Shape, ProducerStep, ConsumerStep;
    match a
    case Produce(_, _, _, _, _) => ProducerKeepsValues(s, a);
    case Consume(t, want, seen) => ConsumersKeepValues(s, t, want, seen);
  }

  lemma {:induction false} ValuesAreStable(states: seq<State>, acts: seq<Act>, i: nat, j: nat)
    requires Run(states, acts) && i <= j < |states|
    ensures states[i].claims.vals <= states[j].claims.vals && states[i].claims.head <= states[j].claims.head
  {
    hide Inv, Init, Step, Shape;
    if i < j {
      ValuesAreStable(states, acts, i, j - 1);
      assert Next(states[j - 1], acts[j - 1], states[j]);
      ValuesOnlyGrow(states[j - 1], acts[j - 1]);
    }
  }

  /** This step gives back the last indices of a claim of consumer `a.t`. */
  ghost predicate Completes(s: State, a: Act) {
    && a.Consume? && a.t < |s.locs| && a.t < |s.claims.spans| && s.locs[a.t].Mark?
    && s.claims.spans[a.t].pos == s.claims.spans[a.t].hi
  }

  /** End to end: a consumer whose claim was `[first, hi)` gets exactly the elements that were
      enqueued as number `first` to `hi - 1`, whatever happened meanwhile to the block index, to
      its entries and to the blocks. */
  lemma ConsumersGetTheirElements(states: seq<State>, acts: seq<Act>, i: nat)
    requires Run(states, acts) && i < |acts| && Completes(states[i], acts[i])
    ensures var p := states[i].claims.spans[acts[i].t];
            && p.first < p.hi <= |states[|acts|].claims.vals|
            && p.got == states[|acts|].claims.vals[p.first..p.hi]
  {
    RunKeepsInv(states, acts, i);
    ValuesAreStable(states, acts, i, |acts|);
    var s, t := states[i], acts[i].t;
    hide CellsOk, HeapOk, OwnOk, LifeOk, IndexOk, NumsOk, PpcOk, WrittenOk, HomesIn, InSlot, Fits, Run;
    assert C.SpanOk(s.claims, t);
    assert LocOk(s.locs[t], t, s.claims.spans[t], s.headers, s.entries, s.home, s.blocks, s.life);
  }

  /** This step claims indices for consumer `a.t`. */
  ghost predicate ClaimStep(s: State, a: Act) {
    a.Consume? && a.t < |s.locs| && s.locs[a.t] == Out && Shape(s) && Step(s, a).locs != s.locs
  }

  /** A claim takes the indices from the head on, so that claims made at different steps have no
      index in common. */
  lemma ClaimsAreDisjoint(states: seq<State>, acts: seq<Act>, i: nat, j: nat)
    requires Run(states, acts) && i < j < |acts| && ClaimStep(states[i], acts[i]) && ClaimStep(states[j], acts[j])
    ensures acts[i].t < |states[i + 1].claims.spans| && acts[j].t < |states[j + 1].claims.spans|
    ensures var p, q := states[i + 1].claims.spans[acts[i].t], states[j + 1].claims.spans[acts[j].t];
            p.first < p.hi <= q.first < q.hi
  {
    assert Next(states[i], acts[i], states[i + 1]) && Next(states[j], acts[j], states[j + 1]);
    ClaimTakesHead(states[i], acts[i]);
    ClaimTakesHead(states[j], acts[j]);
    hide Step, Shape, Inv, Init;
    ValuesAreStable(states, acts, i + 1, j);
  }

  lemma ClaimTakesHead(s: State, a: Act)
    requires ClaimStep(s, a)
    ensures var s' := Step(s, a);
            && a.t < |s'.claims.spans|
            && s'.claims.spans[a.t].first == s.claims.head < s'.claims.spans[a.t].hi == s'.claims.head
  {
  }

  /** Looking a claimed index up, through whatever ring and tail slot the consumer loaded, leads to
      the entry whose key is the index's block base and which holds the block with its element;
      the producer may meanwhile insert, recycle entries, undo insertions and double the ring. */
  lemma LookupsFindTheirBlocks(states: seq<State>, acts: seq<Act>, i: nat, t: nat)
    requires Run(states, acts) && i < |states| && t < |states[i].locs| && states[i].locs[t].LoadValue?
    ensures var s := states[i];
            && t < |s.claims.spans| && s.locs[t].h < |s.headers|
            && var e := EntryAt(s.entries, Slot(s.headers[s.locs[t].h], s.locs[t].slot));
               && e.key == Base(s.claims.spans[t].pos) && e.value.Some?
               && s.claims.spans[t].pos < |s.claims.vals|
               && Cell(s.heap, e.value.value, Off(s.claims.spans[t].pos)) == Some(s.claims.vals[s.claims.spans[t].pos])
  {
    RunKeepsInv(states, acts, i);
    hide Run, OwnOk, LifeOk, IndexOk, NumsOk, PpcOk, WrittenOk, HeapOk, HomesIn, InSlot, Fits;
    var s := states[i];
    LookupFindsBlock(s, t);
    assert LocOk(s.locs[t], t, s.claims.spans[t], s.headers, s.entries, s.home, s.blocks, s.life);
    C.ReadKeeps(s.claims, t);
    assert CellOk(s.heap, s.blocks, s.claims.spans[t].pos, s.claims.vals[s.claims.spans[t].pos]);
  }

  /** The key that a lookup starts from is never the invalid one. */
  lemma TailKeysAreValid(states: seq<State>, acts: seq<Act>, i: nat, t: nat)
    requires Run(states, acts) && i < |states| && t < |states[i].locs| && states[i].locs[t].LoadKey?
    ensures var s := states[i];
            s.locs[t].h < |s.headers| && EntryAt(s.entries, Slot(s.headers[s.locs[t].h], s.locs[t].tail)).key != INVALID_BLOCK_BASE
  {
    RunKeepsInv(states, acts, i);
    hide Run, OwnOk, LifeOk, IndexOk, NumsOk, PpcOk, WrittenOk, HeapOk, HomesIn, InSlot, Base, Pos;
    var s := states[i];
    assert LocOk(s.locs[t], t, s.claims.spans[t], s.headers, s.entries, s.home, s.blocks, s.life);
    InvalidDoesNotFit();
  }

  /** A block goes back to the pool only after each of its slots was read and given back; it is
      not there already, and nobody else is reading from it or about to give it back. */
  lemma BlocksAreFreedOnce(states: seq<State>, acts: seq<Act>, i: nat, t: nat)
    requires Run(states, acts) && i < |states| && t < |states[i].locs| && states[i].locs[t].Free?
    ensures var s, b := states[i], states[i].locs[t].b;
            && !IsFree(s.heap, b)
            && t < |s.claims.spans| && s.claims.spans[t].pos > 0
            && (forall x: nat :: Blk(x) == Blk(s.claims.spans[t].pos - 1) ==> C.IsGone(s.claims, x))
            && (forall u :: 0 <= u < |s.locs| && u != t && (s.locs[u].Read? || s.locs[u].Mark? || s.locs[u].Clear? || s.locs[u].Free?) ==> s.locs[u].b != b)
  {
    RunKeepsInv(states, acts, i);
    hide Run, Inv, IsFree, C.IsGone, Blk;
    var s, b := states[i], states[i].locs[t].b;
    FreeIsGone(s, t);
    forall u | 0 <= u < |s.locs| && u != t && (s.locs[u].Read? || s.locs[u].Mark? || s.locs[u].Clear? || s.locs[u].Free?)
      ensures s.locs[u].b != b
    {
      OthersBlock(s, t, u);
    }
  }

  lemma FreeIsGone(s: State, t: nat)
    requires Inv(s) && t < |s.locs| && s.locs[t].Free?
    ensures t < |s.claims.spans| && s.claims.spans[t].pos > 0 && !IsFree(s.heap, s.locs[t].b)
    ensures forall x: nat :: Blk(x) == Blk(s.claims.spans[t].pos - 1) ==> C.IsGone(s.claims, x)
  {
    ClearPlace(s, t);
    LinkLengths(s);
    hide LinkOk, CellsOk, HeapOk, IndexOk, NumsOk, PpcOk, WrittenOk, LocsOk, C.IsGone, CeilBlk;
    var n := Blk(s.claims.spans[t].pos - 1);
    assert Owned(s.life, n);
    assert LifeAt(s.heap, s.blocks, s.life, s.claims, n);
    forall x: nat | Blk(x) == n ensures C.IsGone(s.claims, x) {
      SplitIndex(x);
      AllGone(s.claims, n, BLOCK_SIZE, Off(x));
    }
  }

  lemma OthersBlock(s: State, t: nat, u: nat)
    requires Inv(s) && t < |s.locs| && s.locs[t].Free? && u < |s.locs| && u != t
    requires s.locs[u].Read? || s.locs[u].Mark? || s.locs[u].Clear? || s.locs[u].Free?
    ensures s.locs[u].b != s.locs[t].b
  {
    ClearPlace(s, t);
    hide LinkOk, CellsOk, HeapOk, IndexOk, NumsOk, PpcOk, WrittenOk, LifeOk, CeilBlk, HomesIn, InSlot, Fits, Blk, Off;
    var n := Blk(s.claims.spans[t].pos - 1);
    assert Owned(s.life, n);
    if s.locs[u].Clear? || s.locs[u].Free? {
      ClearPlace(s, u);
      assert Owned(s.life, Blk(s.claims.spans[u].pos - 1));
    } else {
      assert LocOk(s.locs[u], u, s.claims.spans[u], s.headers, s.entries, s.home, s.blocks, s.life);
      HeldIsLive(s, u, s.claims.spans[u].start);
      assert Owned(s.life, Blk(s.claims.spans[u].start));
    }
  }

  /** In every reachable state no more is claimed than was enqueued. */
  lemma HeadStaysBelowTail(states: seq<State>, acts: seq<Act>, i: nat)
    requires Run(states, acts) && i < |states|
    ensures states[i].q.head <= states[i].q.tail == |states[i].claims.vals|
  {
    RunKeepsInv(states, acts, i);
    hide Run, CellsOk, HeapOk, IndexOk, NumsOk, PpcOk, WrittenOk, LifeOk, OwnOk, LocsOk;
    D.HeadNeverPassesTail(states[i].q);
  }
}
