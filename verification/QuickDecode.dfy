/** Decoding tags: a hash table of all codes with up to three bits flipped, filled once and then
    searched with the code that was read, in its four rotations. */
module QuickDecode {
  import opened Probing
  import opened Words

  /** A table entry; `rcode` is all ones while it is not used. */
  datatype Entry = Entry(rcode: Word, id: nat, hamming: nat, rotation: nat)

  function Unused(): Entry { Entry(AllOnes(), 0, 0, 0) }

  /** What a failed search returns. */
  function NotFound(): Entry { Entry(seq(64, _ => false), 65535, 255, 0) }

  /** A tag family: its codes and how many bits they have. */
  datatype Family = Family(codes: seq<Word>, nbits: nat)

  predicate FamilyOk(f: Family) {
    && 0 < |f.codes| < 65536 && f.nbits < 64
    && forall i :: 0 <= i < |f.codes| ==> Fits(f.codes[i], f.nbits)
  }

  // ----- what is put into the table, in order -----

  /** The first `n` words with one bit flipped. */
  function Ones(code: Word, id: nat, n: nat): seq<Entry>
    requires n <= 64
  {
    if n == 0 then [] else Ones(code, id, n - 1) + [Entry(Flip(code, n - 1), id, 1, 0)]
  }

  /** Bit `j` and one below it, the first `n`. */
  function TwosRow(code: Word, id: nat, j: nat, n: nat): seq<Entry>
    requires n <= j < 64
  {
    if n == 0 then [] else TwosRow(code, id, j, n - 1) + [Entry(Flip(Flip(code, j), n - 1), id, 2, 0)]
  }

  function Twos(code: Word, id: nat, n: nat): seq<Entry>
    requires n <= 64
  {
    if n == 0 then [] else Twos(code, id, n - 1) + TwosRow(code, id, n - 1, n - 1)
  }

  function ThreesCell(code: Word, id: nat, j: nat, k: nat, n: nat): seq<Entry>
    requires n <= k <= j < 64
  {
    if n == 0 then [] else ThreesCell(code, id, j, k, n - 1) + [Entry(Flip(Flip(Flip(code, j), k), n - 1), id, 3, 0)]
  }

  function ThreesRow(code: Word, id: nat, j: nat, n: nat): seq<Entry>
    requires n <= j < 64
  {
    if n == 0 then [] else ThreesRow(code, id, j, n - 1) + ThreesCell(code, id, j, n - 1, n - 1)
  }

  function Threes(code: Word, id: nat, n: nat): seq<Entry>
    requires n <= 64
  {
    if n == 0 then [] else Threes(code, id, n - 1) + ThreesRow(code, id, n - 1, n - 1)
  }

  /** Everything that one code contributes. */
  function Patterns(code: Word, id: nat, nbits: nat, radius: int): seq<Entry>
    requires nbits <= 64
  {
    [Entry(code, id, 0, 0)]
    + (if radius >= 1 then Ones(code, id, nbits) else [])
    + (if radius >= 2 then Twos(code, id, nbits) else [])
    + (if radius >= 3 then Threes(code, id, nbits) else [])
  }

  /** Everything that the first `n` codes contribute. */
  function Insertions(f: Family, radius: int, n: nat): seq<Entry>
    requires n <= |f.codes| && f.nbits <= 64
  {
    if n == 0 then [] else Insertions(f, radius, n - 1) + Patterns(f.codes[n - 1], n - 1, f.nbits, radius)
  }

  // ----- the table -----

  predicate IsUsed(e: Entry) { e.rcode != AllOnes() }

  function Hash(w: Word): nat { Number(w, 64) }

  /** The first of the insertions with a given code. */
  ghost predicate FirstWith(inserted: seq<Entry>, code: Word, e: Entry) {
    exists i :: 0 <= i < |inserted| && inserted[i] == e && e.rcode == code && forall j :: 0 <= j < i ==> inserted[j].rcode != code
  }

  ghost predicate Nowhere(inserted: seq<Entry>, code: Word) {
    forall i :: 0 <= i < |inserted| ==> inserted[i].rcode != code
  }

  /** The probe for `code` passes `d` entries with other codes. */
  ghost predicate PassesOthers(table: seq<Entry>, code: Word, d: nat) {
    forall e: nat :: e < d ==>
      Slot(Hash(code), e, |table|) < |table| && IsUsed(table[Slot(Hash(code), e, |table|)]) && table[Slot(Hash(code), e, |table|)].rcode != code
  }

  /** Where the probe for `code` ends: at its first insertion, or at an unused entry if there is
      none. */
  ghost predicate ProbeOk(table: seq<Entry>, inserted: seq<Entry>, code: Word, d: nat) {
    d < |table| && PassesOthers(table, code, d) && EndOk(table, inserted, code, Slot(Hash(code), d, |table|))
  }

  ghost predicate EndOk(table: seq<Entry>, inserted: seq<Entry>, code: Word, j: nat) {
    j < |table| && if IsUsed(table[j]) then FirstWith(inserted, code, table[j]) else Nowhere(inserted, code)
  }

  ghost predicate ProbeEnds(table: seq<Entry>, inserted: seq<Entry>, code: Word) {
    exists d: nat :: ProbeOk(table, inserted, code, d)
  }

  /** Every entry can be reached from where its hash leads. */
  ghost predicate Reachable(table: seq<Entry>, j: nat)
    requires j < |table|
  {
    IsUsed(table[j]) ==>
      forall d: nat, e: nat :: e < d < |table| && Slot(Hash(table[j].rcode), d, |table|) == j ==>
        Slot(Hash(table[j].rcode), e, |table|) < |table| && IsUsed(table[Slot(Hash(table[j].rcode), e, |table|)])
  }

  function UsedCount(table: seq<Entry>): nat {
    if table == [] then 0 else (if IsUsed(table[0]) then 1 else 0) + UsedCount(table[1..])
  }

  /** For every code the probe ends, and ends rightly. */
  ghost predicate TableOk(table: seq<Entry>, inserted: seq<Entry>) {
    && (forall code: Word :: code != AllOnes() ==> ProbeEnds(table, inserted, code))
    && (forall j: nat :: j < |table| ==> Reachable(table, j))
    && UsedCount(table) == |inserted| < |table|
    && (forall i :: 0 <= i < |inserted| ==> IsUsed(inserted[i]))
  }

  lemma {:induction false} UsedUpdate(table: seq<Entry>, j: nat, e: Entry)
    requires j < |table| && !IsUsed(table[j]) && IsUsed(e)
    ensures UsedCount(table[j := e]) == UsedCount(table) + 1
  {
    if j == 0 {
      assert table[j := e][1..] == table[1..];
    } else {
      assert table[j := e][1..] == table[1..][j - 1 := e];
      UsedUpdate(table[1..], j - 1, e);
    }
  }

  lemma {:induction false} AllUsedCount(table: seq<Entry>)
    requires forall j :: 0 <= j < |table| ==> IsUsed(table[j])
    ensures UsedCount(table) == |table|
  {
    if table != [] { AllUsedCount(table[1..]); }
  }

  lemma {:induction false} NoneUsedCount(table: seq<Entry>)
    requires forall j :: 0 <= j < |table| ==> !IsUsed(table[j])
    ensures UsedCount(table) == 0
  {
    if table != [] { NoneUsedCount(table[1..]); }
  }

  lemma FindsUnused(table: seq<Entry>) returns (j: nat)
    requires UsedCount(table) < |table|
    ensures j < |table| && !IsUsed(table[j])
  {
    if forall k :: 0 <= k < |table| ==> IsUsed(table[k]) {
      AllUsedCount(table);
      assert false;
    }
    j :| j < |table| && !IsUsed(table[j]);
  }

  /** The first unused entry on a probe. */
  ghost predicate FirstFree(table: seq<Entry>, code: Word, d: nat) {
    && d < |table| && Slot(Hash(code), d, |table|) < |table| && !IsUsed(table[Slot(Hash(code), d, |table|)])
    && forall e: nat :: e < d ==> Slot(Hash(code), e, |table|) < |table| && IsUsed(table[Slot(Hash(code), e, |table|)])
  }

  /** The table after `e` went into the first unused entry on its probe. */
  function Put(table: seq<Entry>, e: Entry, d: nat): seq<Entry> {
    var j := Slot(Hash(e.rcode), d, |table|);
    if j < |table| then table[j := e] else table
  }

  lemma FirstWithMore(inserted: seq<Entry>, code: Word, e: Entry, x: Entry)
    requires FirstWith(inserted, code, x)
    ensures FirstWith(inserted + [e], code, x)
  {
    var i :| 0 <= i < |inserted| && inserted[i] == x && x.rcode == code && forall j :: 0 <= j < i ==> inserted[j].rcode != code;
    assert (inserted + [e])[i] == x;
  }

  lemma FirstWithNew(inserted: seq<Entry>, e: Entry)
    requires Nowhere(inserted, e.rcode)
    ensures FirstWith(inserted + [e], e.rcode, e)
  {
    assert (inserted + [e])[|inserted|] == e;
  }

  /** A code whose probe ended at an unused entry is in no entry at all. */
  lemma NotBeyondUnused(table: seq<Entry>, inserted: seq<Entry>, code: Word, d: nat, j: nat)
    requires TableOk(table, inserted) && PassesOthers(table, code, d) && d < |table| && j < |table| && code != AllOnes()
    requires Slot(Hash(code), d, |table|) < |table| && !IsUsed(table[Slot(Hash(code), d, |table|)])
    ensures table[j].rcode != code
  {
    hide Hash, Slot, ProbeOk, UsedCount;
    var c := StepsTo(Hash(code), j, |table|);
    assert Reachable(table, j);
    if table[j].rcode == code {
      assert false;
    }
  }

  /** The probe of another code after an insertion. */
  lemma OtherProbe(table: seq<Entry>, inserted: seq<Entry>, e: Entry, d: nat, code: Word)
    requires TableOk(table, inserted) && IsUsed(e) && FirstFree(table, e.rcode, d) && code != AllOnes() && code != e.rcode
    requires |inserted| + 1 < |table|
    ensures ProbeEnds(Put(table, e, d), inserted + [e], code)
  {
    hide Hash, Slot, UsedCount, Reachable;
    assert ProbeEnds(table, inserted, code);
    var c: nat :| ProbeOk(table, inserted, code, c);
    var table' := Put(table, e, d);
    var j := Slot(Hash(e.rcode), d, |table|);
    var k := Slot(Hash(code), c, |table|);
    if IsUsed(table[k]) {
      FirstWithMore(inserted, code, e, table[k]);
      assert ProbeOk(table', inserted + [e], code, c);
    } else if k != j {
      assert ProbeOk(table', inserted + [e], code, c);
    } else {
      UsedUpdate(table, j, e);
      var free := FindsUnused(table');
      var c' := NextFree(table', code, free);
      forall x: nat | x < c'
        ensures Slot(Hash(code), x, |table'|) < |table'| && IsUsed(table'[Slot(Hash(code), x, |table'|)])
        ensures table'[Slot(Hash(code), x, |table'|)].rcode != code
      {
        NotBeyondUnused(table, inserted, code, c, Slot(Hash(code), x, |table'|));
      }
      assert ProbeOk(table', inserted + [e], code, c');
    }
  }

  /** The first unused entry on a probe, given that there is an unused one somewhere. */
  lemma NextFree(table: seq<Entry>, code: Word, free: nat) returns (c: nat)
    requires free < |table| && !IsUsed(table[free])
    ensures FirstFree(table, code, c)
  {
    hide Hash, Slot, IsUsed;
    var last := StepsTo(Hash(code), free, |table|);
    c := 0;
    SlotBelow(Hash(code), 0, |table|);
    while IsUsed(table[Slot(Hash(code), c, |table|)])
      invariant c <= last && Slot(Hash(code), c, |table|) < |table|
      invariant forall e: nat :: e < c ==> Slot(Hash(code), e, |table|) < |table| && IsUsed(table[Slot(Hash(code), e, |table|)])
      decreases last - c
    {
      c := c + 1;
      SlotBelow(Hash(code), c, |table|);
    }
  }

  /** The probe of the inserted code itself. */
  lemma OwnProbe(table: seq<Entry>, inserted: seq<Entry>, e: Entry, d: nat)
    requires TableOk(table, inserted) && IsUsed(e) && FirstFree(table, e.rcode, d)
    ensures ProbeEnds(Put(table, e, d), inserted + [e], e.rcode)
  {
    hide Hash, Slot, UsedCount, Reachable;
    var code := e.rcode;
    assert ProbeEnds(table, inserted, code);
    var c: nat :| ProbeOk(table, inserted, code, c);
    var table' := Put(table, e, d);
    var k := Slot(Hash(code), c, |table|);
    if IsUsed(table[k]) {
      FirstWithMore(inserted, code, e, table[k]);
      SlotStays(table, e, d, c);
      assert ProbeOk(table', inserted + [e], code, c);
    } else {
      assert c >= d;
      assert c <= d;
      FirstWithNew(inserted, e);
      SlotsBefore(table, e, d);
      assert ProbeOk(table', inserted + [e], code, d);
    }
  }

  lemma SlotStays(table: seq<Entry>, e: Entry, d: nat, c: nat)
    requires FirstFree(table, e.rcode, d) && PassesOthers(table, e.rcode, c) && c < |table|
    requires Slot(Hash(e.rcode), c, |table|) < |table| && IsUsed(table[Slot(Hash(e.rcode), c, |table|)])
    ensures PassesOthers(Put(table, e, d), e.rcode, c)
    ensures Put(table, e, d)[Slot(Hash(e.rcode), c, |table|)] == table[Slot(Hash(e.rcode), c, |table|)]
  {
    hide Hash, Slot;
    if c > d {
      assert false;
    }
    SlotsBefore(table, e, d);
  }

  lemma SlotsBefore(table: seq<Entry>, e: Entry, d: nat)
    requires FirstFree(table, e.rcode, d)
    ensures forall x: nat :: x < d ==> Slot(Hash(e.rcode), x, |table|) < |table|
                                       && Put(table, e, d)[Slot(Hash(e.rcode), x, |table|)] == table[Slot(Hash(e.rcode), x, |table|)]
  {
    hide Hash, Slot;
    forall x: nat | x < d
      ensures Slot(Hash(e.rcode), x, |table|) < |table|
              && Put(table, e, d)[Slot(Hash(e.rcode), x, |table|)] == table[Slot(Hash(e.rcode), x, |table|)]
    {
      SlotsDiffer(Hash(e.rcode), x, d, |table|);
    }
  }

  lemma PutReachable(table: seq<Entry>, inserted: seq<Entry>, e: Entry, d: nat, j: nat)
    requires TableOk(table, inserted) && IsUsed(e) && FirstFree(table, e.rcode, d) && j < |table|
    ensures Reachable(Put(table, e, d), j)
  {
    hide Hash, Slot, UsedCount, ProbeOk;
    var table', at := Put(table, e, d), Slot(Hash(e.rcode), d, |table|);
    if j == at {
      forall c: nat, x: nat | x < c < |table| && Slot(Hash(e.rcode), c, |table|) == j
        ensures Slot(Hash(e.rcode), x, |table|) < |table| && IsUsed(table'[Slot(Hash(e.rcode), x, |table|)])
      {
        if c != d { SlotsDiffer(Hash(e.rcode), c, d, |table|); }
      }
    } else {
      assert Reachable(table, j);
    }
  }

  lemma PutOk(table: seq<Entry>, inserted: seq<Entry>, e: Entry, d: nat)
    requires TableOk(table, inserted) && IsUsed(e) && FirstFree(table, e.rcode, d) && |inserted| + 1 < |table|
    ensures TableOk(Put(table, e, d), inserted + [e])
  {
    hide Hash, Slot, UsedCount, ProbeOk, Reachable;
    var table', inserted' := Put(table, e, d), inserted + [e];
    forall code: Word | code != AllOnes() ensures ProbeEnds(table', inserted', code) {
      if code == e.rcode {
        OwnProbe(table, inserted, e, d);
      } else {
        OtherProbe(table, inserted, e, d, code);
      }
    }
    forall j: nat | j < |table'| ensures Reachable(table', j) {
      PutReachable(table, inserted, e, d, j);
    }
    UsedUpdate(table, Slot(Hash(e.rcode), d, |table|), e);
  }

  lemma EmptyOk(table: seq<Entry>)
    requires |table| > 0 && forall j :: 0 <= j < |table| ==> table[j] == Unused()
    ensures TableOk(table, [])
  {
    NoneUsedCount(table);
    forall code: Word | code != AllOnes() ensures ProbeEnds(table, [], code) {
      SlotBelow(Hash(code), 0, |table|);
      assert ProbeOk(table, [], code, 0);
    }
  }

  // ----- filling and searching -----

  /** Room for every code and its error patterns, as the program counts them. */
  function Capacity(f: Family, radius: int): int {
    var n, b := |f.codes|, f.nbits;
    n + (if radius >= 1 then n * b else 0) + (if radius >= 2 then n * b * (b - 1) else 0)
      + (if radius >= 3 then n * b * (b - 1) * (b - 2) else 0)
  }

  /** Where the first insertion with the code is; the length if there is none. */
  function FirstIndex(inserted: seq<Entry>, code: Word): nat {
    if inserted == [] then 0 else if inserted[0].rcode == code then 0 else 1 + FirstIndex(inserted[1..], code)
  }

  /** A linear search through the insertions, for the word and its rotations. */
  function LinearFrom(inserted: seq<Entry>, w: Word, nbits: nat, ridx: nat): Entry
    requires nbits < 64
    decreases 4 - ridx
  {
    if ridx >= 4 then NotFound()
    else
      var i := FirstIndex(inserted, w);
      if i < |inserted| then inserted[i].(rotation := ridx)
      else LinearFrom(inserted, Rotate90(w, nbits), nbits, ridx + 1)
  }

  function LinearDecode(inserted: seq<Entry>, rcode: Word, nbits: nat): Entry
    requires nbits < 64
  {
    LinearFrom(inserted, rcode, nbits, 0)
  }

  lemma {:induction false} FirstIndexIs(inserted: seq<Entry>, code: Word)
    ensures FirstIndex(inserted, code) <= |inserted|
    ensures FirstIndex(inserted, code) < |inserted| ==> inserted[FirstIndex(inserted, code)].rcode == code
    ensures forall i :: 0 <= i < FirstIndex(inserted, code) ==> inserted[i].rcode != code
  {
    if inserted != [] && inserted[0].rcode != code {
      FirstIndexIs(inserted[1..], code);
    }
  }

  /** Where the search of the table stops is where the linear search stops. */
  lemma SearchAgrees(table: seq<Entry>, inserted: seq<Entry>, code: Word, d: nat)
    requires TableOk(table, inserted) && d < |table| && PassesOthers(table, code, d) && Slot(Hash(code), d, |table|) < |table|
    requires var e := table[Slot(Hash(code), d, |table|)]; !IsUsed(e) || e.rcode == code
    ensures var e := table[Slot(Hash(code), d, |table|)];
            if IsUsed(e) then FirstIndex(inserted, code) < |inserted| && inserted[FirstIndex(inserted, code)] == e
            else FirstIndex(inserted, code) == |inserted|
  {
    hide Hash, Slot, UsedCount, Reachable, FirstIndex;
    FirstIndexIs(inserted, code);
    if code != AllOnes() {
      assert ProbeEnds(table, inserted, code);
      var c: nat :| ProbeOk(table, inserted, code, c);
      assert c >= d;
      assert c <= d;
    }
  }

  class Decoder {
    const family: Family
    const radius: int
    const entries: array<Entry>
    ghost var inserted: seq<Entry>

    ghost predicate Valid()
      reads this, entries
    {
      TableOk(entries[..], inserted)
    }

    /** The first unused entry on a probe, and how far it is. */
    method FindUnused(code: Word) returns (bucket: nat, ghost d: nat)
      requires Valid()
      ensures FirstFree(entries[..], code, d) && bucket == Slot(Hash(code), d, entries.Length) < entries.Length
    {
      hide TableOk, Hash, Slot;
      ghost var table := entries[..];
      ghost var last := RoomFor(table, inserted, code);
      d := 0;
      FirstSlot(Hash(code), entries.Length);
      bucket := Hash(code) % entries.Length;
      while entries[bucket].rcode != AllOnes()
        invariant d <= last && bucket == Slot(Hash(code), d, |table|) < |table|
        invariant forall e: nat :: e < d ==> Slot(Hash(code), e, |table|) < |table| && IsUsed(table[Slot(Hash(code), e, |table|)])
        decreases last - d
      {
        assert IsUsed(table[bucket]);
        NextSlot(Hash(code), d, |table|);
        bucket := (bucket + 1) % entries.Length;
        d := d + 1;
      }
    }

    /** Puts a code into the first unused entry on its probe. */
    method Add(code: Word, id: nat, hamming: nat)
      requires Valid() && code != AllOnes() && |inserted| + 1 < entries.Length
      modifies this`inserted, entries
      ensures Valid() && inserted == old(inserted) + [Entry(code, id, hamming, 0)]
      ensures exists d: nat :: FirstFree(old(entries[..]), code, d) && entries[..] == Put(old(entries[..]), Entry(code, id, hamming, 0), d)
    {
      ghost var d;
      var bucket;
      bucket, d := FindUnused(code);
      hide TableOk, Hash, Slot, FirstFree;
      ghost var table := entries[..];
      PutOk(table, inserted, Entry(code, id, hamming, 0), d);
      entries[bucket] := Entry(code, id, hamming, 0);
      inserted := inserted + [Entry(code, id, hamming, 0)];
      assert entries[..] == Put(table, Entry(code, id, hamming, 0), d);
    }

    /** One word with each of its bits flipped in turn. */
    method AddOnes(code: Word, id: nat, n: nat)
      requires Valid() && n < 64 && Fits(code, n) && |inserted| + n + 1 < entries.Length
      modifies this`inserted, entries
      ensures Valid() && inserted == old(inserted) + Ones(code, id, n)
    {
      for j := 0 to n
        invariant Valid() && inserted == old(inserted) + Ones(code, id, j) && |Ones(code, id, j)| == j
      {
        FlipFits(code, j, n);
        Add(Flip(code, j), id, 1);
      }
    }

    /** Each two bits flipped. */
    method AddTwos(code: Word, id: nat, n: nat)
      requires Valid() && n < 64 && Fits(code, n) && |inserted| + |Twos(code, id, n)| + 1 < entries.Length
      modifies this`inserted, entries
      ensures Valid() && inserted == old(inserted) + Twos(code, id, n)
    {
      hide TableOk, Flip, Fits;
      for j := 0 to n
        invariant Valid() && inserted == old(inserted) + Twos(code, id, j)
      {
        ghost var before := inserted;
        TwosGrow(code, id, j + 1, n);
        FlipFits(code, j, n);
        for k := 0 to j
          invariant Valid() && inserted == before + TwosRow(code, id, j, k)
        {
          TwosRowSize(code, id, j, k);
          FlipFits(Flip(code, j), k, n);
          Add(Flip(Flip(code, j), k), id, 2);
        }
        assert old(inserted) + Twos(code, id, j) + TwosRow(code, id, j, j) == old(inserted) + (Twos(code, id, j) + TwosRow(code, id, j, j));
      }
    }

    /** Each three bits flipped. */
    method AddThrees(code: Word, id: nat, n: nat)
      requires Valid() && n < 64 && Fits(code, n) && |inserted| + |Threes(code, id, n)| + 1 < entries.Length
      modifies this`inserted, entries
      ensures Valid() && inserted == old(inserted) + Threes(code, id, n)
    {
      hide TableOk, Flip, Fits;
      for j := 0 to n
        invariant Valid() && inserted == old(inserted) + Threes(code, id, j)
      {
        ghost var before := inserted;
        ThreesGrow(code, id, j + 1, n);
        FlipFits(code, j, n);
        for k := 0 to j
          invariant Valid() && inserted == before + ThreesRow(code, id, j, k)
        {
          ghost var row := inserted;
          ThreesRowGrow(code, id, j, k + 1, j);
          FlipFits(Flip(code, j), k, n);
          for m := 0 to k
            invariant Valid() && inserted == row + ThreesCell(code, id, j, k, m)
          {
            ThreesCellSize(code, id, j, k, m);
            FlipFits(Flip(Flip(code, j), k), m, n);
            Add(Flip(Flip(Flip(code, j), k), m), id, 3);
          }
          assert before + ThreesRow(code, id, j, k) + ThreesCell(code, id, j, k, k) == before + (ThreesRow(code, id, j, k) + ThreesCell(code, id, j, k, k));
        }
        assert old(inserted) + Threes(code, id, j) + ThreesRow(code, id, j, j) == old(inserted) + (Threes(code, id, j) + ThreesRow(code, id, j, j));
      }
    }

    /** A code with all its error patterns. */
    method AddCode(code: Word, id: nat)
      requires Valid() && family.nbits < 64 && Fits(code, family.nbits)
      requires |inserted| + |Patterns(code, id, family.nbits, radius)| + 1 < entries.Length
      modifies this`inserted, entries
      ensures Valid() && inserted == old(inserted) + Patterns(code, id, family.nbits, radius)
    {
      hide TableOk, Fits, Ones, Twos, Threes, Put, FirstFree;
      NotAllOnes(code, family.nbits);
      OnesSize(code, id, family.nbits);
      Add(code, id, 0);
      if radius >= 1 {
        AddOnes(code, id, family.nbits);
      }
      if radius >= 2 {
        AddTwos(code, id, family.nbits);
      }
      if radius >= 3 {
        AddThrees(code, id, family.nbits);
      }
      ghost var one := [Entry(code, id, 0, 0)];
      ghost var ones := if radius >= 1 then Ones(code, id, family.nbits) else [];
      ghost var twos := if radius >= 2 then Twos(code, id, family.nbits) else [];
      ghost var threes := if radius >= 3 then Threes(code, id, family.nbits) else [];
      assert inserted == old(inserted) + one + ones + twos + threes;
      assert old(inserted) + one + ones + twos + threes == old(inserted) + (one + ones + twos + threes);
    }

    /** Builds the table: three times as many entries as can be needed, so that it never fills.
        The counts have to fit the program's 32-bit integers. */
    constructor (f: Family, maxhamming: int)
      requires FamilyOk(f) && 3 * Capacity(f, maxhamming) < 0x8000_0000
      ensures Valid() && family == f && radius == maxhamming
      ensures inserted == Insertions(f, maxhamming, |f.codes|)
    {
      hide TableOk, Capacity, Patterns, Fits, IsUsed;
      CapacityPositive(f, maxhamming);
      family := f;
      radius := maxhamming;
      entries := new Entry[3 * Capacity(f, maxhamming)](_ => Unused());
      inserted := [];
      new;
      EmptyOk(entries[..]);
      for i := 0 to |f.codes|
        invariant Valid() && inserted == Insertions(f, maxhamming, i)
      {
        InsertionsFit(f, maxhamming, i + 1);
        AddCode(f.codes[i], i);
      }
    }

    /** Looks the code up in its four rotations. */
    method Codeword(rcode: Word) returns (entry: Entry)
      requires Valid() && family.nbits < 64
      ensures entry == LinearDecode(inserted, rcode, family.nbits)
    {
      hide TableOk, Hash, Slot, Rotate90, FirstIndex;
      var w := rcode;
      for ridx := 0 to 4
        invariant LinearDecode(inserted, rcode, family.nbits) == LinearFrom(inserted, w, family.nbits, ridx)
      {
        ghost var table, d := entries[..], 0;
        ghost var last := RoomFor(table, inserted, w);
        FirstSlot(Hash(w), entries.Length);
        var bucket := Hash(w) % entries.Length;
        while entries[bucket].rcode != AllOnes()
          invariant d <= last && bucket == Slot(Hash(w), d, |table|) < |table| && PassesOthers(table, w, d)
          decreases last - d
        {
          if entries[bucket].rcode == w {
            SearchAgrees(table, inserted, w, d);
            entry := entries[bucket].(rotation := ridx);
            return;
          }
          NextSlot(Hash(w), d, |table|);
          bucket := (bucket + 1) % entries.Length;
          d := d + 1;
        }
        SearchAgrees(table, inserted, w, d);
        w := Rotate90(w, family.nbits);
      }
      entry := NotFound();
    }
  }

  /** How far a probe can go: there is an unused entry. */
  lemma RoomFor(table: seq<Entry>, inserted: seq<Entry>, code: Word) returns (last: nat)
    requires TableOk(table, inserted)
    ensures last < |table| && Slot(Hash(code), last, |table|) < |table| && !IsUsed(table[Slot(Hash(code), last, |table|)])
  {
    var free := FindsUnused(table);
    last := StepsTo(Hash(code), free, |table|);
  }

  lemma NotAllOnes(code: Word, n: nat)
    requires n < 64 && Fits(code, n)
    ensures code != AllOnes()
  {
    assert !code[63] && AllOnes()[63];
  }

  lemma FlipFits(code: Word, j: nat, n: nat)
    requires j < n < 64 && Fits(code, n)
    ensures Fits(Flip(code, j), n) && Flip(code, j) != AllOnes()
  {
    NotAllOnes(Flip(code, j), n);
  }

  // ----- how much is put in -----

  lemma {:induction false} OnesSize(code: Word, id: nat, n: nat)
    requires n <= 64
    ensures |Ones(code, id, n)| == n
  {
    if n > 0 { OnesSize(code, id, n - 1); }
  }

  lemma {:induction false} TwosRowSize(code: Word, id: nat, j: nat, n: nat)
    requires n <= j < 64
    ensures |TwosRow(code, id, j, n)| == n
  {
    if n > 0 { TwosRowSize(code, id, j, n - 1); }
  }

  lemma {:induction false} ThreesCellSize(code: Word, id: nat, j: nat, k: nat, n: nat)
    requires n <= k <= j < 64
    ensures |ThreesCell(code, id, j, k, n)| == n
  {
    if n > 0 { ThreesCellSize(code, id, j, k, n - 1); }
  }

  lemma {:induction false} TwosGrow(code: Word, id: nat, m: nat, n: nat)
    requires m <= n <= 64
    ensures |Twos(code, id, m)| <= |Twos(code, id, n)|
    ensures m > 0 ==> |Twos(code, id, m)| == |Twos(code, id, m - 1)| + (m - 1)
  {
    if m > 0 { TwosRowSize(code, id, m - 1, m - 1); }
    if m < n { TwosGrow(code, id, m, n - 1); }
  }

  lemma {:induction false} ThreesRowGrow(code: Word, id: nat, j: nat, m: nat, n: nat)
    requires m <= n <= j < 64
    ensures |ThreesRow(code, id, j, m)| <= |ThreesRow(code, id, j, n)|
    ensures m > 0 ==> |ThreesRow(code, id, j, m)| == |ThreesRow(code, id, j, m - 1)| + (m - 1)
  {
    if m > 0 { ThreesCellSize(code, id, j, m - 1, m - 1); }
    if m < n { ThreesRowGrow(code, id, j, m, n - 1); }
  }

  lemma {:induction false} ThreesGrow(code: Word, id: nat, m: nat, n: nat)
    requires m <= n <= 64
    ensures |Threes(code, id, m)| <= |Threes(code, id, n)|
    ensures m > 0 ==> |Threes(code, id, m)| == |Threes(code, id, m - 1)| + |ThreesRow(code, id, m - 1, m - 1)|
  {
    if m < n { ThreesGrow(code, id, m, n - 1); }
  }

  lemma {:induction false} TwosBound(code: Word, id: nat, n: nat)
    requires n <= 64
    ensures |Twos(code, id, n)| <= n * (n - 1)
  {
    if n > 0 {
      TwosBound(code, id, n - 1);
      TwosGrow(code, id, n, n);
      assert (n - 1) * (n - 2) + (n - 1) <= n * (n - 1);
    }
  }

  lemma {:induction false} ThreesRowBound(code: Word, id: nat, j: nat, n: nat)
    requires n <= j < 64
    ensures |ThreesRow(code, id, j, n)| <= n * (n - 1)
  {
    if n > 0 {
      ThreesRowBound(code, id, j, n - 1);
      ThreesRowGrow(code, id, j, n, n);
      assert (n - 1) * (n - 2) + (n - 1) <= n * (n - 1);
    }
  }

  lemma {:induction false} ThreesBound(code: Word, id: nat, n: nat)
    requires n <= 64
    ensures |Threes(code, id, n)| <= n * (n - 1) * (n - 2)
  {
    if n > 0 {
      ThreesBound(code, id, n - 1);
      ThreesGrow(code, id, n, n);
      ThreesRowBound(code, id, n - 1, n - 1);
      CubeStep(n - 1);
    }
  }

  lemma CubeStep(m: nat)
    ensures m * (m - 1) * (m - 2) + m * (m - 1) <= (m + 1) * m * (m - 1)
  {
    var p := m * (m - 1);
    assert p >= 0;
    assert m * (m - 1) * (m - 2) == p * (m - 2);
    assert (m + 1) * m * (m - 1) == p * (m + 1) by { ThreeWays(m + 1, m, m - 1); }
    assert p * (m + 1) - p * (m - 2) - p == 2 * p by { Spread(p, m); }
  }

  lemma ThreeWays(a: int, b: int, c: int)
    ensures a * b * c == (b * c) * a
  {
  }

  lemma Spread(p: int, m: int)
    ensures p * (m + 1) - p * (m - 2) - p == 2 * p
  {
  }

  /** What one code contributes, as the program counts it. */
  function Share(b: nat, radius: int): int {
    1 + (if radius >= 1 then b else 0) + (if radius >= 2 then b * (b - 1) else 0) + (if radius >= 3 then b * (b - 1) * (b - 2) else 0)
  }

  lemma PatternsBound(code: Word, id: nat, nbits: nat, radius: int)
    requires nbits <= 64
    ensures |Patterns(code, id, nbits, radius)| <= Share(nbits, radius)
  {
    OnesSize(code, id, nbits);
    TwosBound(code, id, nbits);
    ThreesBound(code, id, nbits);
    hide Ones, Twos, Threes;
  }

  lemma {:induction false} InsertionsBound(f: Family, radius: int, n: nat)
    requires n <= |f.codes| && f.nbits <= 64
    ensures |Insertions(f, radius, n)| <= n * Share(f.nbits, radius)
  {
    if n > 0 {
      InsertionsBound(f, radius, n - 1);
      PatternsBound(f.codes[n - 1], n - 1, f.nbits, radius);
      hide Patterns, Share;
      assert (n - 1) * Share(f.nbits, radius) + Share(f.nbits, radius) == n * Share(f.nbits, radius);
    }
  }

  lemma CapacityIsShares(f: Family, radius: int)
    ensures Capacity(f, radius) == |f.codes| * Share(f.nbits, radius)
  {
    var n, b := |f.codes|, f.nbits;
    Distribute(n, if radius >= 1 then b else 0, if radius >= 2 then b * (b - 1) else 0, if radius >= 3 then b * (b - 1) * (b - 2) else 0);
    assert n * b * (b - 1) == n * (b * (b - 1)) by { ThreeWays(n, b, b - 1); }
    assert n * b * (b - 1) * (b - 2) == n * (b * (b - 1) * (b - 2)) by { FourWays(n, b, b - 1, b - 2); }
  }

  lemma Distribute(n: int, x: int, y: int, z: int)
    ensures n * (1 + x + y + z) == n + n * x + n * y + n * z
  {
  }

  lemma FourWays(a: int, b: int, c: int, d: int)
    ensures a * b * c * d == a * (b * c * d)
  {
    assert a * b * c == a * (b * c);
    assert a * (b * c) * d == a * ((b * c) * d);
  }

  lemma SharePositive(b: nat, radius: int)
    ensures Share(b, radius) >= 1
  {
    if b >= 2 {
      assert b * (b - 1) >= 0;
      assert b * (b - 1) * (b - 2) >= 0;
    }
  }

  lemma CapacityPositive(f: Family, radius: int)
    requires |f.codes| > 0
    ensures Capacity(f, radius) >= |f.codes| > 0
  {
    CapacityIsShares(f, radius);
    SharePositive(f.nbits, radius);
    hide Capacity, Share;
    assert |f.codes| * (Share(f.nbits, radius) - 1) >= 0;
  }

  /** The table never fills: all that is put in takes at most a third of it. */
  lemma InsertionsFit(f: Family, radius: int, n: nat)
    requires FamilyOk(f) && n <= |f.codes|
    ensures 3 * |Insertions(f, radius, n)| <= 3 * Capacity(f, radius)
    ensures |Insertions(f, radius, n)| + 1 < 3 * Capacity(f, radius)
  {
    hide Capacity, Share, Insertions;
    InsertionsBound(f, radius, n);
    CapacityIsShares(f, radius);
    CapacityPositive(f, radius);
    SharePositive(f.nbits, radius);
    TimesMonotone(n, |f.codes|, Share(f.nbits, radius));
  }

  lemma TimesMonotone(m: nat, n: nat, x: int)
    requires m <= n && x >= 0
    ensures m * x <= n * x
  {
    assert (n - m) * x >= 0;
    assert (n - m) * x == n * x - m * x;
  }
}
