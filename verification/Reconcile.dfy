/** Reporting each tag once: of two overlapping detections of the same tag one is deleted, in
    place, with indices that are tried again. */
module Reconcile {

  datatype Corner = Corner(x: real, y: real)

  type Corners = p: seq<Corner> | |p| == 4 witness [Corner(0.0, 0.0), Corner(0.0, 0.0), Corner(0.0, 0.0), Corner(0.0, 0.0)]

  /** A detection, as far as it matters here. */
  datatype Detection = Detection(id: int, family: nat, hamming: int, margin: real, p: Corners)

  /** -1 to prefer `q0`, 1 to prefer `q1`, unless something is preferred already. */
  function PreferSmaller(pref: int, q0: real, q1: real): int {
    if pref != 0 then pref else if q0 < q1 then -1 else if q1 < q0 then 1 else 0
  }

  // ----- the order of preference -----

  /** What decides between two detections, most important first, smaller is better. */
  function Keys(d: Detection): (k: seq<real>)
    ensures |k| == 10
  {
    [d.hamming as real, -d.margin, d.p[0].x, d.p[0].y, d.p[1].x, d.p[1].y, d.p[2].x, d.p[2].y, d.p[3].x, d.p[3].y]
  }

  /** Lexicographic comparison. */
  function Compare(a: seq<real>, b: seq<real>): int
    requires |a| == |b|
  {
    if a == [] then 0 else if a[0] < b[0] then -1 else if b[0] < a[0] then 1 else Compare(a[1..], b[1..])
  }

  function Preference(a: Detection, b: Detection): int { Compare(Keys(a), Keys(b)) }

  lemma {:induction false} CompareSym(a: seq<real>, b: seq<real>)
    requires |a| == |b|
    ensures Compare(a, b) == -Compare(b, a)
    ensures Compare(a, b) == 0 <==> a == b
  {
    if a != [] {
      CompareSym(a[1..], b[1..]);
      assert a == [a[0]] + a[1..] && b == [b[0]] + b[1..];
    }
  }

  lemma {:induction false} CompareTrans(a: seq<real>, b: seq<real>, c: seq<real>)
    requires |a| == |b| == |c| && Compare(a, b) <= 0 && Compare(b, c) <= 0
    ensures Compare(a, c) <= 0
  {
    if a != [] && !(a[0] < b[0]) && !(b[0] < c[0]) {
      CompareTrans(a[1..], b[1..], c[1..]);
    }
  }

  // ----- what the order means -----

  function Coordinate(d: Detection, k: nat): real
    requires k < 8
  {
    if k % 2 == 0 then d.p[k / 2].x else d.p[k / 2].y
  }

  /** The fewer errors the better, then the bigger margin, then the smaller first coordinate in which
      the corners differ. */
  predicate Better(a: Detection, b: Detection) {
    || a.hamming < b.hamming
    || (a.hamming == b.hamming && a.margin > b.margin)
    || (a.hamming == b.hamming && a.margin == b.margin && CornersFirst(a, b))
  }

  predicate CornersFirst(a: Detection, b: Detection) {
    exists k :: 0 <= k < 8 && Coordinate(a, k) < Coordinate(b, k) && forall j :: 0 <= j < k ==> Coordinate(a, j) == Coordinate(b, j)
  }

  /** The comparison stops at the first key that differs, and the smaller one wins. */
  lemma {:induction false} FirstDifference(a: seq<real>, b: seq<real>, k: nat)
    requires |a| == |b| && k <= |a| && a[..k] == b[..k]
    ensures k < |a| && a[k] < b[k] ==> Compare(a, b) == -1
    ensures k == |a| ==> Compare(a, b) == 0
    decreases k
  {
    if k > 0 {
      assert a[0] == a[..k][0] == b[..k][0] == b[0];
      assert a[1..][..k - 1] == a[..k][1..] && b[1..][..k - 1] == b[..k][1..];
      FirstDifference(a[1..], b[1..], k - 1);
    }
  }

  lemma SamePrefix(a: Detection, b: Detection, k: nat)
    requires k <= 8 && a.hamming == b.hamming && a.margin == b.margin && forall j :: 0 <= j < k ==> Coordinate(a, j) == Coordinate(b, j)
    ensures Keys(a)[..2 + k] == Keys(b)[..2 + k]
  {
    hide Keys;
    FirstKeys(a);
    FirstKeys(b);
    forall i | 0 <= i < 2 + k ensures Keys(a)[i] == Keys(b)[i] {
      if i >= 2 {
        KeyOfCoordinate(a, i - 2);
        KeyOfCoordinate(b, i - 2);
        assert Coordinate(a, i - 2) == Coordinate(b, i - 2);
      }
    }
  }

  lemma KeyOfCoordinate(d: Detection, k: nat)
    requires k < 8
    ensures Keys(d)[2 + k] == Coordinate(d, k)
  {
  }

  lemma BetterIsPreferred(a: Detection, b: Detection)
    requires Better(a, b)
    ensures Preference(a, b) == -1
  {
    hide Keys, Compare, Coordinate;
    FirstKeys(a);
    FirstKeys(b);
    if a.hamming < b.hamming {
      FirstDifference(Keys(a), Keys(b), 0);
    } else if a.margin > b.margin {
      FirstDifference(Keys(a), Keys(b), 1);
    } else {
      var k :| 0 <= k < 8 && Coordinate(a, k) < Coordinate(b, k) && forall j :: 0 <= j < k ==> Coordinate(a, j) == Coordinate(b, j);
      SamePrefix(a, b, k);
      KeyOfCoordinate(a, k);
      KeyOfCoordinate(b, k);
      FirstDifference(Keys(a), Keys(b), 2 + k);
    }
  }

  predicate EqualInAll(a: Detection, b: Detection) { a.hamming == b.hamming && a.margin == b.margin && a.p == b.p }

  lemma OneIsBetter(a: Detection, b: Detection)
    ensures Better(a, b) || Better(b, a) || EqualInAll(a, b)
  {
    if a.hamming == b.hamming && a.margin == b.margin && a.p != b.p {
      hide Coordinate;
      var k := DiffersAt(a, b);
    }
  }

  lemma {:induction false} DiffersAt(a: Detection, b: Detection) returns (k: nat)
    requires a.p != b.p
    ensures k < 8 && Coordinate(a, k) != Coordinate(b, k) && forall j :: 0 <= j < k ==> Coordinate(a, j) == Coordinate(b, j)
  {
    if forall j :: 0 <= j < 8 ==> Coordinate(a, j) == Coordinate(b, j) {
      forall i | 0 <= i < 4 ensures a.p[i] == b.p[i] {
        assert Coordinate(a, 2 * i) == Coordinate(b, 2 * i) && Coordinate(a, 2 * i + 1) == Coordinate(b, 2 * i + 1);
      }
      assert false;
    }
    hide Coordinate;
    k := 0;
    while Coordinate(a, k) == Coordinate(b, k)
      invariant k < 8 && (forall j :: 0 <= j < k ==> Coordinate(a, j) == Coordinate(b, j))
      decreases 8 - k
    {
      k := k + 1;
    }
  }

  /** The sign of the preference says which of two detections is better; it is zero exactly if they are
      equal in all that counts. */
  lemma PreferenceMeans(a: Detection, b: Detection)
    ensures Preference(a, b) < 0 <==> Better(a, b)
    ensures Preference(a, b) > 0 <==> Better(b, a)
    ensures Preference(a, b) == 0 <==> EqualInAll(a, b)
  {
    hide Keys, Compare, Better;
    CompareSym(Keys(a), Keys(b));
    OneIsBetter(a, b);
    if Better(a, b) { BetterIsPreferred(a, b); }
    if Better(b, a) { BetterIsPreferred(b, a); }
    if EqualInAll(a, b) {
      SamePrefix(a, b, 8);
      assert Keys(a)[..10] == Keys(a) && Keys(b)[..10] == Keys(b);
    }
  }

  /** Comparing key by key, keeping the first preference found. */
  function Scan(pref: int, a: seq<real>, b: seq<real>): int
    requires |a| == |b|
    decreases |a|
  {
    if a == [] then pref else Scan(PreferSmaller(pref, a[0], b[0]), a[1..], b[1..])
  }

  lemma {:induction false} ScanIsCompare(pref: int, a: seq<real>, b: seq<real>)
    requires |a| == |b|
    ensures Scan(pref, a, b) == if pref != 0 then pref else Compare(a, b)
    decreases |a|
  {
    if a != [] { ScanIsCompare(PreferSmaller(pref, a[0], b[0]), a[1..], b[1..]); }
  }

  lemma {:induction false} ScanMore(pref: int, a: seq<real>, b: seq<real>, x: real, y: real)
    requires |a| == |b|
    ensures Scan(pref, a + [x], b + [y]) == PreferSmaller(Scan(pref, a, b), x, y)
    decreases |a|
  {
    if a == [] {
      assert (a + [x])[1..] == [] && (b + [y])[1..] == [];
    } else {
      assert (a + [x])[1..] == a[1..] + [x] && (b + [y])[1..] == b[1..] + [y];
      ScanMore(PreferSmaller(pref, a[0], b[0]), a[1..], b[1..], x, y);
    }
  }

  /** Which of two detections to keep: negative for the first. */
  method Prefer(a: Detection, b: Detection) returns (pref: int)
    ensures pref == Preference(a, b)
    ensures pref < 0 <==> Better(a, b)
    ensures pref > 0 <==> Better(b, a)
  {
    hide PreferSmaller, Compare, Keys, Better;
    PreferenceMeans(a, b);
    pref := 0;
    ghost var ka, kb := Keys(a), Keys(b);
    FirstKeys(a);
    FirstKeys(b);
    pref := PreferSmaller(pref, a.hamming as real, b.hamming as real);
    pref := PreferSmaller(pref, -a.margin, -b.margin);
    assert pref == Scan(0, ka[..2], kb[..2]) by {
      ScanMore(0, [], [], ka[0], kb[0]);
      ScanMore(0, [ka[0]], [kb[0]], ka[1], kb[1]);
      assert [] + [ka[0]] == [ka[0]] && [] + [kb[0]] == [kb[0]];
      assert [ka[0]] + [ka[1]] == ka[..2] && [kb[0]] + [kb[1]] == kb[..2];
    }
    for i := 0 to 4
      invariant pref == Scan(0, ka[..2 + 2 * i], kb[..2 + 2 * i])
    {
      ghost var n := 2 + 2 * i;
      KeyOfCorner(a, i);
      KeyOfCorner(b, i);
      pref := PreferSmaller(pref, a.p[i].x, b.p[i].x);
      ScanMore(0, ka[..n], kb[..n], ka[n], kb[n]);
      assert ka[..n] + [ka[n]] == ka[..n + 1] && kb[..n] + [kb[n]] == kb[..n + 1];
      pref := PreferSmaller(pref, a.p[i].y, b.p[i].y);
      ScanMore(0, ka[..n + 1], kb[..n + 1], ka[n + 1], kb[n + 1]);
      assert ka[..n + 1] + [ka[n + 1]] == ka[..n + 2] && kb[..n + 1] + [kb[n + 1]] == kb[..n + 2];
    }
    assert ka[..10] == ka && kb[..10] == kb;
    ScanIsCompare(0, ka, kb);
  }

  lemma FirstKeys(d: Detection)
    ensures Keys(d)[0] == d.hamming as real && Keys(d)[1] == -d.margin
  {
  }

  lemma KeyOfCorner(d: Detection, i: nat)
    requires i < 4
    ensures Keys(d)[2 + 2 * i] == d.p[i].x && Keys(d)[3 + 2 * i] == d.p[i].y
  {
  }

  // ----- the list -----

  predicate SameTag(a: Detection, b: Detection) { a.id == b.id && a.family == b.family }

  /** The two are reported for the same tag at the same place. */
  predicate Conflict(a: Detection, b: Detection, overlaps: (Corners, Corners) -> bool) {
    SameTag(a, b) && overlaps(a.p, b.p)
  }

  /** Nobody for the same tag in `all` is strictly preferred to `d`. */
  predicate Best(d: Detection, all: seq<Detection>) {
    forall e :: e in all && SameTag(e, d) ==> Preference(e, d) >= 0
  }

  /** A list without element `i`: the last one takes its place. */
  function Removed<T>(s: seq<T>, i: nat): seq<T>
    requires i < |s|
  {
    s[i := s[|s| - 1]][..|s| - 1]
  }

  lemma RemovedMultiset<T>(s: seq<T>, i: nat)
    requires i < |s|
    ensures multiset(Removed(s, i)) == multiset(s) - multiset{s[i]}
  {
    var n := |s| - 1;
    if i == n {
      assert Removed(s, i) == s[..n];
      assert s == s[..n] + [s[n]];
    } else {
      var a, b := s[..i], s[i + 1..n];
      assert s == a + [s[i]] + b + [s[n]];
      assert Removed(s, i) == a + [s[n]] + b;
    }
  }

  lemma RemovedElements<T>(s: seq<T>, i: nat)
    requires i < |s|
    ensures forall x :: x in s && x != s[i] ==> x in Removed(s, i)
    ensures forall x :: x in Removed(s, i) ==> x in s
  {
    var n := |s| - 1;
    var r := Removed(s, i);
    assert forall k :: 0 <= k < n ==> r[k] == if k == i then s[n] else s[k];
    forall x | x in s && x != s[i] ensures x in r {
      var k :| 0 <= k < |s| && s[k] == x;
      if k < n { assert r[k] == x; } else { assert r[i] == x; }
    }
  }

  /** The list keeps its order only if one of the last two elements is removed. */
  lemma RemovalAndOrder<T>(s: seq<T>, i: nat)
    requires i < |s| && forall j, k :: 0 <= j < k < |s| ==> s[j] != s[k]
    ensures Removed(s, i) == s[..i] + s[i + 1..] <==> i + 2 >= |s|
  {
    var kept := s[..i] + s[i + 1..];
    if i + 2 < |s| {
      assert Removed(s, i)[i] == s[|s| - 1] && kept[i] == s[i + 1];
    } else if i + 2 == |s| {
      assert Removed(s, i) == kept;
    } else {
      assert Removed(s, i) == kept;
    }
  }

  class Detections {
    var items: seq<Detection>

    method RemoveIndex(i: nat)
      requires i < |items|
      modifies this
      ensures items == Removed(old(items), i)
    {
      if i < |items| - 1 {
        items := items[i := items[|items| - 1]];
      }
      items := items[..|items| - 1];
    }

    /** Deletes detections until no two of the same tag overlap.  What remains is part of what
        there was, what is gone was overlapped for the same tag by one at least as good, and for each
        tag every best detection, or one equal to it in all that counts, is still there. */
    method Reconcile(overlaps: (Corners, Corners) -> bool)
      modifies this
      ensures multiset(items) <= multiset(old(items))
      ensures forall i, j :: 0 <= i < j < |items| ==> !Conflict(items[i], items[j], overlaps)
      ensures forall d :: d in old(items) && Best(d, old(items)) ==> Survives(d, items)
      ensures forall d :: d in old(items) && multiset(items)[d] < multiset(old(items))[d] ==> Excused(d, old(items), overlaps)
      ensures forall d :: d in old(items) ==> exists e :: e in items && SameTag(e, d) && Leads(e, old(items))
    {
      ghost var all := items;
      var i0 := 0;
      while i0 < |items|
        invariant i0 <= |items| && Kept(items, all, overlaps) && Settled(items, i0, overlaps)
        decreases |items| - i0, |items|
      {
        var again := RoundFor(i0, overlaps, all);
        if !again {
          i0 := i0 + 1;
        }
      }
      forall d | d in all ensures exists e :: e in items && SameTag(e, d) && Leads(e, all) {
        var e := LeaderStays(d, items, all);
      }
    }

    /** Compares element `i0` with all later ones; tells whether it was itself deleted, so that
        the same index has to be tried again. */
    method RoundFor(i0: nat, overlaps: (Corners, Corners) -> bool, ghost all: seq<Detection>) returns (again: bool)
      requires i0 < |items| && Kept(items, all, overlaps) && Settled(items, i0, overlaps)
      modifies this
      ensures |items| <= |old(items)| && Kept(items, all, overlaps)
      ensures again ==> |items| < |old(items)| && i0 <= |items| && Settled(items, i0, overlaps)
      ensures !again ==> i0 < |items| && Settled(items, i0 + 1, overlaps)
    {
      hide Kept, Settled, Better;
      var i1 := i0 + 1;
      while i1 < |items|
        invariant i0 < i1 <= |items| <= |old(items)| && Kept(items, all, overlaps) && Settled(items, i0, overlaps)
        invariant forall j :: i0 < j < i1 ==> !Conflict(items[i0], items[j], overlaps)
        decreases |items| - i1
      {
        var det0, det1 := items[i0], items[i1];
        if det0.id != det1.id || det0.family != det1.family || !overlaps(det0.p, det1.p) {
          i1 := i1 + 1;
        } else {
          var pref := Prefer(det0, det1);
          if pref < 0 {
            RemoveKeeps(items, all, i1, i0, i0, overlaps);
            RemoveIndex(i1);
          } else {
            RemoveKeeps(items, all, i0, i1, i0, overlaps);
            RemoveIndex(i0);
            return true;
          }
        }
      }
      SettledOneMore(items, i0, overlaps);
      return false;
    }
  }

  /** A detection of the same tag, equal in all that counts, is in the list. */
  predicate Survives(d: Detection, items: seq<Detection>) {
    exists e :: e in items && SameTag(e, d) && Keys(e) == Keys(d)
  }

  /** Nobody for the same tag in `all` has fewer errors, or as many and a bigger margin. */
  predicate Leads(e: Detection, all: seq<Detection>) {
    forall d :: d in all && SameTag(d, e) ==> e.hamming < d.hamming || (e.hamming == d.hamming && e.margin >= d.margin)
  }

  lemma LeaderStays(d: Detection, items: seq<Detection>, all: seq<Detection>) returns (e: Detection)
    requires d in all && Sound(items, all)
    ensures e in items && SameTag(e, d) && Leads(e, all)
  {
    hide Keys, Better;
    var b := BestExists(all, d);
    e :| e in items && SameTag(e, b) && Keys(e) == Keys(b);
    FirstKeys(e);
    FirstKeys(b);
    forall f | f in all && SameTag(f, e) ensures e.hamming < f.hamming || (e.hamming == f.hamming && e.margin >= f.margin) {
      PreferenceMeans(f, b);
      NotBetter(f, b);
    }
  }

  lemma NotBetter(f: Detection, b: Detection)
    requires !Better(f, b)
    ensures b.hamming < f.hamming || (b.hamming == f.hamming && b.margin >= f.margin)
  {
  }

  /** The list is part of the whole and no best detection is lost. */
  ghost predicate Sound(items: seq<Detection>, all: seq<Detection>) {
    && multiset(items) <= multiset(all)
    && forall d :: d in all && Best(d, all) ==> Survives(d, items)
  }

  /** Another detection overlaps it for the same tag and is at least as good. */
  ghost predicate Excused(d: Detection, all: seq<Detection>, overlaps: (Corners, Corners) -> bool) {
    exists e :: e in multiset(all) - multiset{d} && (Conflict(d, e, overlaps) || Conflict(e, d, overlaps)) && !Better(d, e)
  }

  /** Whatever is missing is excused. */
  ghost predicate Accounted(items: seq<Detection>, all: seq<Detection>, overlaps: (Corners, Corners) -> bool) {
    forall d :: d in all && multiset(items)[d] < multiset(all)[d] ==> Excused(d, all, overlaps)
  }

  lemma RemoveAccounted(items: seq<Detection>, all: seq<Detection>, gone: nat, kept: nat, overlaps: (Corners, Corners) -> bool)
    requires multiset(items) <= multiset(all) && Accounted(items, all, overlaps) && gone < |items| && kept < |items| && gone != kept
    requires Conflict(items[gone], items[kept], overlaps) || Conflict(items[kept], items[gone], overlaps)
    requires !Better(items[gone], items[kept])
    ensures Accounted(Removed(items, gone), all, overlaps)
  {
    hide Removed, Better, Conflict, Excused;
    var d, e := items[gone], items[kept];
    RemovedMultiset(items, gone);
    KeptIsThere(items, gone, kept);
    assert e in multiset(Removed(items, gone));
    assert e in multiset(all) - multiset{d};
    ExcusedBy(d, e, all, overlaps);
  }

  lemma ExcusedBy(d: Detection, e: Detection, all: seq<Detection>, overlaps: (Corners, Corners) -> bool)
    requires e in multiset(all) - multiset{d} && (Conflict(d, e, overlaps) || Conflict(e, d, overlaps)) && !Better(d, e)
    ensures Excused(d, all, overlaps)
  {
  }

  /** No element before `i0` conflicts with a later one. */
  ghost predicate Settled(items: seq<Detection>, i0: nat, overlaps: (Corners, Corners) -> bool) {
    forall i, j :: 0 <= i < i0 && i < j < |items| ==> !Conflict(items[i], items[j], overlaps)
  }

  lemma InWhole(items: seq<Detection>, all: seq<Detection>, d: Detection)
    requires multiset(items) <= multiset(all) && d in items
    ensures d in all
  {
    assert d in multiset(items);
    assert d in multiset(all);
  }

  /** Deleting the one that is not preferred of two conflicting detections loses nothing. */
  lemma RemoveSound(items: seq<Detection>, all: seq<Detection>, gone: nat, kept: nat)
    requires Sound(items, all) && gone < |items| && kept < |items| && gone != kept
    requires SameTag(items[gone], items[kept]) && Preference(items[kept], items[gone]) <= 0
    ensures Sound(Removed(items, gone), all)
  {
    RemovedElements(items, gone);
    RemovedMultiset(items, gone);
    hide Removed, Keys;
    var rest := Removed(items, gone);
    forall d | d in all && Best(d, all) ensures Survives(d, rest) {
      var e :| e in items && SameTag(e, d) && Keys(e) == Keys(d);
      if e != items[gone] {
        assert e in rest;
      } else {
        KeptIsThere(items, gone, kept);
        InWhole(items, all, items[kept]);
        CompareSym(Keys(items[kept]), Keys(d));
        assert Preference(items[kept], d) >= 0;
        assert items[kept] in rest;
      }
    }
  }

  lemma KeptIsThere(items: seq<Detection>, gone: nat, kept: nat)
    requires gone < |items| && kept < |items| && gone != kept
    ensures items[kept] in Removed(items, gone)
  {
    var r := Removed(items, gone);
    if kept == |items| - 1 {
      assert r[gone] == items[kept];
    } else {
      assert r[kept] == items[kept];
    }
  }

  lemma SettledOneMore(items: seq<Detection>, i0: nat, overlaps: (Corners, Corners) -> bool)
    requires i0 < |items| && Settled(items, i0, overlaps)
    requires forall j :: i0 < j < |items| ==> !Conflict(items[i0], items[j], overlaps)
    ensures Settled(items, i0 + 1, overlaps)
  {
    hide Conflict;
  }

  ghost predicate Kept(items: seq<Detection>, all: seq<Detection>, overlaps: (Corners, Corners) -> bool) {
    Sound(items, all) && Accounted(items, all, overlaps)
  }

  lemma RemoveKeeps(items: seq<Detection>, all: seq<Detection>, gone: nat, kept: nat, i0: nat, overlaps: (Corners, Corners) -> bool)
    requires Kept(items, all, overlaps) && Settled(items, i0, overlaps) && i0 <= gone < |items| && kept < |items| && gone != kept
    requires Conflict(items[gone], items[kept], overlaps) || Conflict(items[kept], items[gone], overlaps)
    requires !Better(items[gone], items[kept])
    ensures Kept(Removed(items, gone), all, overlaps) && Settled(Removed(items, gone), i0, overlaps)
  {
    hide Removed, Better, Settled;
    PreferenceMeans(items[gone], items[kept]);
    PreferenceMeans(items[kept], items[gone]);
    RemoveSound(items, all, gone, kept);
    RemoveAccounted(items, all, gone, kept, overlaps);
    RemoveSettled(items, gone, i0, overlaps);
  }

  lemma RemoveSettled(items: seq<Detection>, gone: nat, i0: nat, overlaps: (Corners, Corners) -> bool)
    requires Settled(items, i0, overlaps) && i0 <= gone < |items|
    ensures Settled(Removed(items, gone), i0, overlaps)
  {
    var r := Removed(items, gone);
    forall i, j | 0 <= i < i0 && i < j < |r| ensures !Conflict(r[i], r[j], overlaps) {
      assert !Conflict(items[i], items[if j == gone then |items| - 1 else j], overlaps);
    }
  }

  /** Every tag that was detected has a best detection. */
  lemma {:induction false} BestExists(all: seq<Detection>, d: Detection) returns (b: Detection)
    requires d in all
    ensures b in all && SameTag(b, d) && Best(b, all)
  {
    var i :| 0 <= i < |all| && all[i] == d;
    b := d;
    var n := 0;
    while n < |all|
      invariant n <= |all| && b in all && SameTag(b, d)
      invariant forall k :: 0 <= k < n && SameTag(all[k], d) ==> Preference(all[k], b) >= 0
    {
      if SameTag(all[n], d) && Preference(all[n], b) < 0 {
        forall k | 0 <= k < n && SameTag(all[k], d) ensures Preference(all[k], all[n]) >= 0 {
          CompareSym(Keys(all[k]), Keys(b));
          CompareSym(Keys(all[k]), Keys(all[n]));
          CompareTrans(Keys(all[n]), Keys(b), Keys(all[k]));
        }
        b := all[n];
        CompareSym(Keys(b), Keys(b));
      } else {
        CompareSym(Keys(b), Keys(b));
      }
      n := n + 1;
    }
  }
}
