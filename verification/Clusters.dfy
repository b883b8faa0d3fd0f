/** Clusters of edge points between components: rows are scanned in chunks, each with its own hash
    table, and the sorted lists that come out are merged pairwise. */
module Clusters {
  import opened UnionFind
  import opened Components

  /** A point half-way between two pixels, with the direction towards the white one. */
  datatype Pt = Pt(x: int, y: int, gx: int, gy: int)

  /** A point and the cluster it belongs to. */
  datatype Item = Item(id: nat, p: Pt)

  datatype Cluster = Cluster(hash: nat, id: nat, data: seq<Pt>)

  /** `u64hash_2`, with the program's 64-bit wrap-around. */
  function Hash(x: nat): nat { (2654435761 * x % 0x1_0000_0000_0000_0000) / 0x1_0000_0000 }

  function Bucket(id: nat, n: nat): nat
    requires n > 0
  {
    Hash(id) % n
  }

  function ClusterId(a: nat, b: nat): nat {
    if a < b then b * 0x1_0000_0000 + a else a * 0x1_0000_0000 + b
  }

  /** While element numbers fit in 32 bits a cluster stands for one unordered pair of components. */
  lemma ClusterIdIsPair(a: nat, b: nat, c: nat, d: nat)
    requires a < 0x1_0000_0000 && b < 0x1_0000_0000 && c < 0x1_0000_0000 && d < 0x1_0000_0000
    ensures ClusterId(a, b) == ClusterId(c, d) <==> (a == c && b == d) || (a == d && b == c)
  {
  }

  // ----- the points, in the order of an unchunked scan -----

  /** What one pixel and one of its neighbours contribute. */
  function PairItems(im: Image, rep: seq<nat>, w: nat, h: nat, x: nat, y: nat, dx: int, dy: int): seq<Item>
    requires ImageOk(im, w, h) && 0 <= x + dx < w && 0 <= y + dy < h && x < w && y < h
  {
    var v0, v1 := im[y][x], im[y + dy][x + dx];
    var a, b := Id(x, y, w), Id(x + dx, y + dy, w);
    if v0 + v1 == 255 && a < |rep| && b < |rep| && Count(rep, rep[b]) > 24 then
      [Item(ClusterId(rep[a], rep[b]), Pt(2 * x + dx, 2 * y + dy, dx * (v1 - v0), dy * (v1 - v0)))]
    else []
  }

  function PixelItems(im: Image, rep: seq<nat>, w: nat, h: nat, x: nat, y: nat): seq<Item>
    requires ImageOk(im, w, h) && 1 <= x && x + 1 < w && y + 1 < h
  {
    if im[y][x] == 127 || !(Id(x, y, w) < |rep|) || Count(rep, rep[Id(x, y, w)]) < 25 then []
    else PairItems(im, rep, w, h, x, y, 1, 0) + PairItems(im, rep, w, h, x, y, 0, 1)
         + PairItems(im, rep, w, h, x, y, -1, 1) + PairItems(im, rep, w, h, x, y, 1, 1)
  }

  /** The pixels of a row from 1 to `n - 1`. */
  function RowItems(im: Image, rep: seq<nat>, w: nat, h: nat, y: nat, n: nat): seq<Item>
    requires ImageOk(im, w, h) && y + 1 < h && n <= w - 1
  {
    if n <= 1 then [] else RowItems(im, rep, w, h, y, n - 1) + PixelItems(im, rep, w, h, n - 1, y)
  }

  /** The rows from `y0` to `y1 - 1`. */
  function Items(im: Image, rep: seq<nat>, w: nat, h: nat, y0: nat, y1: nat): seq<Item>
    requires ImageOk(im, w, h) && y1 + 1 <= h && w >= 1
  {
    if y1 <= y0 then [] else Items(im, rep, w, h, y0, y1 - 1) + RowItems(im, rep, w, h, y1 - 1, w - 1)
  }

  lemma {:induction false} ItemsSplit(im: Image, rep: seq<nat>, w: nat, h: nat, y0: nat, y1: nat, y2: nat)
    requires ImageOk(im, w, h) && y0 <= y1 <= y2 && y2 + 1 <= h && w >= 1
    ensures Items(im, rep, w, h, y0, y2) == Items(im, rep, w, h, y0, y1) + Items(im, rep, w, h, y1, y2)
  {
    hide RowItems;
    if y1 < y2 {
      ItemsSplit(im, rep, w, h, y0, y1, y2 - 1);
      var a, b, c := Items(im, rep, w, h, y0, y1), Items(im, rep, w, h, y1, y2 - 1), RowItems(im, rep, w, h, y2 - 1, w - 1);
      assert (a + b) + c == a + (b + c);
    } else {
      assert Items(im, rep, w, h, y1, y2) == [];
    }
  }

  /** The points of one cluster, in order. */
  function Filter(items: seq<Item>, id: nat): seq<Pt> {
    if items == [] then [] else
      var last := items[|items| - 1];
      Filter(items[..|items| - 1], id) + if last.id == id then [last.p] else []
  }

  lemma {:induction false} FilterAppend(a: seq<Item>, b: seq<Item>, id: nat)
    ensures Filter(a + b, id) == Filter(a, id) + Filter(b, id)
  {
    if b == [] {
      assert a + b == a;
    } else {
      assert (a + b)[..|a + b| - 1] == a + b[..|b| - 1];
      FilterAppend(a, b[..|b| - 1], id);
    }
  }

  lemma FilterOne(items: seq<Item>, x: Item, id: nat)
    ensures Filter(items + [x], id) == Filter(items, id) + if x.id == id then [x.p] else []
  {
    assert (items + [x])[..|items|] == items;
  }

  lemma {:induction false} FilterSome(items: seq<Item>, id: nat, i: nat)
    requires i < |items| && items[i].id == id
    ensures Filter(items, id) != []
  {
    if i < |items| - 1 { FilterSome(items[..|items| - 1], id, i); }
  }

  lemma {:induction false} FilterNone(items: seq<Item>, id: nat)
    requires forall i :: 0 <= i < |items| ==> items[i].id != id
    ensures Filter(items, id) == []
  {
    if items != [] { FilterNone(items[..|items| - 1], id); }
  }

  lemma FilterEmpty(items: seq<Item>, id: nat)
    ensures Filter(items, id) == [] <==> forall i :: 0 <= i < |items| ==> items[i].id != id
  {
    hide Filter;
    if i :| 0 <= i < |items| && items[i].id == id {
      FilterSome(items, id, i);
    } else {
      FilterNone(items, id);
    }
  }

  // ----- lists of clusters -----

  predicate Less(a: Cluster, b: Cluster) { a.hash < b.hash || (a.hash == b.hash && a.id < b.id) }

  predicate StrictlySorted(c: seq<Cluster>) { forall i, j :: 0 <= i < j < |c| ==> Less(c[i], c[j]) }

  /** The cluster has all its points and no others. */
  predicate Right(c: Cluster, items: seq<Item>, n: nat)
    requires n > 0
  {
    c.hash == Bucket(c.id, n) && c.data == Filter(items, c.id) && c.data != []
  }

  predicate HasId(c: seq<Cluster>, id: nat) { exists k :: 0 <= k < |c| && c[k].id == id }

  /** The list has exactly the clusters of the items. */
  ghost predicate Represents(c: seq<Cluster>, items: seq<Item>, n: nat)
    requires n > 0
  {
    && (forall k :: 0 <= k < |c| ==> Right(c[k], items, n))
    && (forall i :: 0 <= i < |items| ==> HasId(c, items[i].id))
  }

  lemma AbsentIsEmpty(c: seq<Cluster>, items: seq<Item>, n: nat, id: nat)
    requires n > 0 && Represents(c, items, n) && !HasId(c, id)
    ensures Filter(items, id) == []
  {
    FilterEmpty(items, id);
  }

  /** A sorted list is determined by the items. */
  lemma {:induction false} Determined(c: seq<Cluster>, d: seq<Cluster>, items: seq<Item>, n: nat)
    requires n > 0 && Represents(c, items, n) && Represents(d, items, n) && StrictlySorted(c) && StrictlySorted(d)
    ensures c == d
  {
    AllIn(c, d, items, n);
    AllIn(d, c, items, n);
    SameLists(c, d);
  }

  lemma AllIn(c: seq<Cluster>, d: seq<Cluster>, items: seq<Item>, n: nat)
    requires n > 0 && Represents(c, items, n) && Represents(d, items, n)
    ensures forall k :: 0 <= k < |c| ==> c[k] in d
  {
    forall k | 0 <= k < |c| ensures c[k] in d {
      assert Right(c[k], items, n);
      FilterEmpty(items, c[k].id);
      var i :| 0 <= i < |items| && items[i].id == c[k].id;
      assert HasId(d, items[i].id);
      var j :| 0 <= j < |d| && d[j].id == c[k].id;
      assert Right(d[j], items, n);
      assert d[j] == c[k];
    }
  }

  lemma SameHead(c: seq<Cluster>, d: seq<Cluster>)
    requires StrictlySorted(c) && StrictlySorted(d) && c != [] && d != [] && c[0] in d && d[0] in c
    ensures c[0] == d[0]
  {
    var i :| 0 <= i < |d| && d[i] == c[0];
    var j :| 0 <= j < |c| && c[j] == d[0];
    if i > 0 { assert Less(d[0], d[i]); }
    if j > 0 { assert Less(c[0], c[j]); }
  }

  lemma SomeIn(c: seq<Cluster>, d: seq<Cluster>)
    requires c != [] && forall k :: 0 <= k < |c| ==> c[k] in d
    ensures d != []
  {
    assert c[0] in d;
  }

  lemma RestSorted(c: seq<Cluster>)
    requires c != [] && StrictlySorted(c)
    ensures StrictlySorted(c[1..])
  {
  }

  lemma {:induction false} SameLists(c: seq<Cluster>, d: seq<Cluster>)
    requires StrictlySorted(c) && StrictlySorted(d)
    requires (forall k :: 0 <= k < |c| ==> c[k] in d) && (forall k :: 0 <= k < |d| ==> d[k] in c)
    ensures c == d
  {
    hide Less, StrictlySorted;
    if c != [] { SomeIn(c, d); }
    if d != [] {
      SomeIn(d, c);
      assert c[0] in d && d[0] in c;
      SameHead(c, d);
      RestIn(c, d);
      RestIn(d, c);
      RestSorted(c);
      RestSorted(d);
      SameLists(c[1..], d[1..]);
      assert c == [c[0]] + c[1..] && d == [d[0]] + d[1..];
    }
  }

  lemma RestIn(c: seq<Cluster>, d: seq<Cluster>)
    requires c != [] && d != [] && c[0] == d[0] && StrictlySorted(c) && forall k :: 0 <= k < |c| ==> c[k] in d
    ensures forall k :: 0 <= k < |c[1..]| ==> c[1..][k] in d[1..]
  {
    forall k | 0 <= k < |c[1..]| ensures c[1..][k] in d[1..] {
      assert c[k + 1] in d;
      var i :| 0 <= i < |d| && d[i] == c[k + 1];
      assert Less(c[0], c[k + 1]);
      assert d[1..][i - 1] == c[1..][k];
    }
  }

  // ----- merging two lists -----

  /** What has been merged so far is right and has every id that was taken. */
  ghost predicate Gathered(ret: seq<Cluster>, c1: seq<Cluster>, c2: seq<Cluster>, i1: nat, i2: nat, a: seq<Item>, b: seq<Item>, n: nat)
    requires n > 0 && i1 <= |c1| && i2 <= |c2|
  {
    && (forall k :: 0 <= k < |ret| ==> Right(ret[k], a + b, n))
    && (forall k :: 0 <= k < i1 ==> HasId(ret, c1[k].id))
    && (forall k :: 0 <= k < i2 ==> HasId(ret, c2[k].id))
  }

  /** What was taken comes before what is left. */
  ghost predicate Ordered(ret: seq<Cluster>, c1: seq<Cluster>, c2: seq<Cluster>, i1: nat, i2: nat)
    requires i1 <= |c1| && i2 <= |c2|
  {
    && StrictlySorted(ret)
    && (forall k :: 0 <= k < |ret| && i1 < |c1| ==> Less(ret[k], c1[i1]))
    && (forall k :: 0 <= k < |ret| && i2 < |c2| ==> Less(ret[k], c2[i2]))
    && (forall k :: 0 <= k < i1 && i2 < |c2| ==> Less(c1[k], c2[i2]))
    && (forall k :: 0 <= k < i2 && i1 < |c1| ==> Less(c2[k], c1[i1]))
  }

  /** What is known in the middle of a merge. */
  ghost predicate Merging(ret: seq<Cluster>, c1: seq<Cluster>, c2: seq<Cluster>, i1: nat, i2: nat, a: seq<Item>, b: seq<Item>, n: nat)
    requires n > 0
  {
    i1 <= |c1| && i2 <= |c2| && Gathered(ret, c1, c2, i1, i2, a, b, n) && Ordered(ret, c1, c2, i1, i2)
  }

  /** Two lists that may be merged. */
  ghost predicate Mergeable(c1: seq<Cluster>, c2: seq<Cluster>, a: seq<Item>, b: seq<Item>, n: nat) {
    n > 0 && Represents(c1, a, n) && Represents(c2, b, n) && StrictlySorted(c1) && StrictlySorted(c2)
  }

  lemma MoreIds(ret: seq<Cluster>, c: Cluster, id: nat)
    ensures HasId(ret, id) || c.id == id ==> HasId(ret + [c], id)
  {
    if HasId(ret, id) {
      var k :| 0 <= k < |ret| && ret[k].id == id;
      assert (ret + [c])[k].id == id;
    }
    if c.id == id { assert (ret + [c])[|ret|].id == id; }
  }

  /** Nothing in the other list has the id of an element that is smaller than what is left of it. */
  lemma NotInOther(c2: seq<Cluster>, i2: nat, c: Cluster, b: seq<Item>, n: nat)
    requires n > 0 && Represents(c2, b, n) && StrictlySorted(c2) && i2 <= |c2| && c.hash == Bucket(c.id, n)
    requires forall k :: 0 <= k < i2 ==> Less(c2[k], c)
    requires i2 < |c2| ==> Less(c, c2[i2])
    ensures Filter(b, c.id) == []
  {
    forall k | 0 <= k < |c2| ensures c2[k].id != c.id {
      assert Right(c2[k], b, n);
      if k > i2 { assert Less(c2[i2], c2[k]); }
    }
    AbsentIsEmpty(c2, b, n, c.id);
  }

  /** Taking a cluster with the ids of the next elements of one list or of both. */
  lemma GatherMore(ret: seq<Cluster>, c: Cluster, c1: seq<Cluster>, c2: seq<Cluster>, i1: nat, i2: nat, j1: nat, j2: nat,
                   a: seq<Item>, b: seq<Item>, n: nat)
    requires n > 0 && i1 <= j1 <= |c1| && i2 <= j2 <= |c2| && j1 <= i1 + 1 && j2 <= i2 + 1
    requires Gathered(ret, c1, c2, i1, i2, a, b, n) && Right(c, a + b, n)
    requires (j1 > i1 ==> c1[i1].id == c.id) && (j2 > i2 ==> c2[i2].id == c.id)
    ensures Gathered(ret + [c], c1, c2, j1, j2, a, b, n)
  {
    hide Right, HasId;
    var r := ret + [c];
    forall k | 0 <= k < j1 ensures HasId(r, c1[k].id) { MoreIds(ret, c, c1[k].id); }
    forall k | 0 <= k < j2 ensures HasId(r, c2[k].id) { MoreIds(ret, c, c2[k].id); }
  }

  lemma OrderFirst(ret: seq<Cluster>, c1: seq<Cluster>, c2: seq<Cluster>, i1: nat, i2: nat)
    requires i1 < |c1| && i2 <= |c2| && Ordered(ret, c1, c2, i1, i2) && StrictlySorted(c1)
    requires i2 < |c2| ==> Less(c1[i1], c2[i2])
    ensures Ordered(ret + [c1[i1]], c1, c2, i1 + 1, i2)
  {
    assert i1 + 1 < |c1| ==> Less(c1[i1], c1[i1 + 1]);
  }

  lemma OrderSym(ret: seq<Cluster>, c1: seq<Cluster>, c2: seq<Cluster>, i1: nat, i2: nat)
    requires i1 <= |c1| && i2 <= |c2|
    ensures Ordered(ret, c1, c2, i1, i2) <==> Ordered(ret, c2, c1, i2, i1)
  {
    hide Less, StrictlySorted;
  }

  lemma OrderBoth(ret: seq<Cluster>, c: Cluster, c1: seq<Cluster>, c2: seq<Cluster>, i1: nat, i2: nat)
    requires i1 < |c1| && i2 < |c2| && Ordered(ret, c1, c2, i1, i2) && StrictlySorted(c1) && StrictlySorted(c2)
    requires c.hash == c1[i1].hash == c2[i2].hash && c.id == c1[i1].id == c2[i2].id
    ensures Ordered(ret + [c], c1, c2, i1 + 1, i2 + 1)
  {
    assert i1 + 1 < |c1| ==> Less(c1[i1], c1[i1 + 1]);
    assert i2 + 1 < |c2| ==> Less(c2[i2], c2[i2 + 1]);
  }

  lemma TakeFirst(ret: seq<Cluster>, c1: seq<Cluster>, c2: seq<Cluster>, i1: nat, i2: nat, a: seq<Item>, b: seq<Item>, n: nat)
    requires Mergeable(c1, c2, a, b, n) && Merging(ret, c1, c2, i1, i2, a, b, n) && i1 < |c1|
    requires i2 < |c2| ==> Less(c1[i1], c2[i2])
    ensures Merging(ret + [c1[i1]], c1, c2, i1 + 1, i2, a, b, n)
  {
    hide Less, Bucket, HasId, Gathered, StrictlySorted;
    var c := c1[i1];
    assert Right(c, a, n);
    NotInOther(c2, i2, c, b, n);
    FilterAppend(a, b, c.id);
    GatherMore(ret, c, c1, c2, i1, i2, i1 + 1, i2, a, b, n);
    OrderFirst(ret, c1, c2, i1, i2);
  }

  lemma TakeSecond(ret: seq<Cluster>, c1: seq<Cluster>, c2: seq<Cluster>, i1: nat, i2: nat, a: seq<Item>, b: seq<Item>, n: nat)
    requires Mergeable(c1, c2, a, b, n) && Merging(ret, c1, c2, i1, i2, a, b, n) && i2 < |c2|
    requires i1 < |c1| ==> Less(c2[i2], c1[i1])
    ensures Merging(ret + [c2[i2]], c1, c2, i1, i2 + 1, a, b, n)
  {
    hide Less, Bucket, HasId, Gathered, StrictlySorted;
    var c := c2[i2];
    assert Right(c, b, n);
    NotInOther(c1, i1, c, a, n);
    FilterAppend(a, b, c.id);
    GatherMore(ret, c, c1, c2, i1, i2, i1, i2 + 1, a, b, n);
    OrderSym(ret, c1, c2, i1, i2);
    OrderFirst(ret, c2, c1, i2, i1);
    OrderSym(ret + [c], c1, c2, i1, i2 + 1);
  }

  lemma TakeBoth(ret: seq<Cluster>, c1: seq<Cluster>, c2: seq<Cluster>, i1: nat, i2: nat, a: seq<Item>, b: seq<Item>, n: nat)
    requires Mergeable(c1, c2, a, b, n) && Merging(ret, c1, c2, i1, i2, a, b, n) && i1 < |c1| && i2 < |c2|
    requires c1[i1].hash == c2[i2].hash && c1[i1].id == c2[i2].id
    ensures Merging(ret + [c1[i1].(data := c1[i1].data + c2[i2].data)], c1, c2, i1 + 1, i2 + 1, a, b, n)
  {
    hide Less, Bucket, HasId, Gathered, StrictlySorted;
    var c := c1[i1].(data := c1[i1].data + c2[i2].data);
    assert Right(c1[i1], a, n) && Right(c2[i2], b, n);
    FilterAppend(a, b, c.id);
    GatherMore(ret, c, c1, c2, i1, i2, i1 + 1, i2 + 1, a, b, n);
    OrderBoth(ret, c, c1, c2, i1, i2);
  }

  lemma MergeDone(ret: seq<Cluster>, c1: seq<Cluster>, c2: seq<Cluster>, a: seq<Item>, b: seq<Item>, n: nat)
    requires Mergeable(c1, c2, a, b, n) && Merging(ret, c1, c2, |c1|, |c2|, a, b, n)
    ensures Represents(ret, a + b, n) && StrictlySorted(ret)
  {
    forall i | 0 <= i < |a + b| ensures HasId(ret, (a + b)[i].id) {
      if i < |a| {
        assert HasId(c1, a[i].id);
      } else {
        assert HasId(c2, b[i - |a|].id);
      }
    }
  }

  /** Merges two sorted lists; clusters that both have get the points of the first, then those of
      the second. */
  method MergeClusters(c1: seq<Cluster>, c2: seq<Cluster>, ghost a: seq<Item>, ghost b: seq<Item>, ghost n: nat) returns (ret: seq<Cluster>)
    requires Mergeable(c1, c2, a, b, n)
    ensures Represents(ret, a + b, n) && StrictlySorted(ret)
  {
    hide Represents, StrictlySorted, Right, Merging, Less;
    ret := [];
    var i1, i2 := 0, 0;
    assert Merging(ret, c1, c2, 0, 0, a, b, n) by { MergeStart(c1, c2, a, b, n); }
    while i1 < |c1| && i2 < |c2|
      invariant i1 <= |c1| && i2 <= |c2| && Merging(ret, c1, c2, i1, i2, a, b, n)
      decreases |c1| - i1 + |c2| - i2
    {
      var h1, h2 := c1[i1], c2[i2];
      Trichotomy(h1, h2);
      if h1.hash == h2.hash && h1.id == h2.id {
        TakeBoth(ret, c1, c2, i1, i2, a, b, n);
        ret := ret + [h1.(data := h1.data + h2.data)];
        i1 := i1 + 1;
        i2 := i2 + 1;
      } else if h2.hash < h1.hash || (h2.hash == h1.hash && h2.id < h1.id) {
        TakeSecond(ret, c1, c2, i1, i2, a, b, n);
        ret := ret + [h2];
        i2 := i2 + 1;
      } else {
        TakeFirst(ret, c1, c2, i1, i2, a, b, n);
        ret := ret + [h1];
        i1 := i1 + 1;
      }
    }
    while i1 < |c1|
      invariant i1 <= |c1| && i2 <= |c2| && (i1 < |c1| ==> i2 == |c2|) && Merging(ret, c1, c2, i1, i2, a, b, n)
    {
      TakeFirst(ret, c1, c2, i1, i2, a, b, n);
      ret := ret + [c1[i1]];
      i1 := i1 + 1;
    }
    while i2 < |c2|
      invariant i1 == |c1| && i2 <= |c2| && Merging(ret, c1, c2, i1, i2, a, b, n)
    {
      TakeSecond(ret, c1, c2, i1, i2, a, b, n);
      ret := ret + [c2[i2]];
      i2 := i2 + 1;
    }
    MergeDone(ret, c1, c2, a, b, n);
  }

  lemma MergeStart(c1: seq<Cluster>, c2: seq<Cluster>, a: seq<Item>, b: seq<Item>, n: nat)
    requires n > 0
    ensures Merging([], c1, c2, 0, 0, a, b, n)
  {
  }

  lemma Trichotomy(a: Cluster, b: Cluster)
    ensures Less(a, b) <==> a.hash < b.hash || (a.hash == b.hash && a.id < b.id)
    ensures Less(b, a) <==> b.hash < a.hash || (b.hash == a.hash && b.id < a.id)
  {
  }

  // ----- the hash table of one chunk -----

  predicate DistinctIds(chain: seq<Cluster>) { forall j, k :: 0 <= j < k < |chain| ==> chain[j].id != chain[k].id }

  /** A chain holds clusters of its bucket, each once and with all its points so far. */
  ghost predicate ChainOk(chain: seq<Cluster>, bucket: nat, items: seq<Item>, n: nat)
    requires n > 0
  {
    DistinctIds(chain) && forall k :: 0 <= k < |chain| ==> chain[k].hash == bucket && Right(chain[k], items, n)
  }

  /** Every item is in the chain of its bucket. */
  ghost predicate TableOk(chains: seq<seq<Cluster>>, items: seq<Item>) {
    && |chains| > 0
    && (forall b :: 0 <= b < |chains| ==> ChainOk(chains[b], b, items, |chains|))
    && (forall i :: 0 <= i < |items| ==> HasId(chains[Bucket(items[i].id, |chains|)], items[i].id))
  }

  /** Another item does not change the clusters with other ids. */
  lemma OtherRight(c: Cluster, items: seq<Item>, x: Item, n: nat)
    requires n > 0 && Right(c, items, n) && c.id != x.id
    ensures Right(c, items + [x], n)
  {
    FilterOne(items, x, c.id);
  }

  lemma ChainElsewhere(chain: seq<Cluster>, bucket: nat, items: seq<Item>, x: Item, n: nat)
    requires n > 0 && ChainOk(chain, bucket, items, n) && bucket != Bucket(x.id, n)
    ensures ChainOk(chain, bucket, items + [x], n)
  {
    forall k | 0 <= k < |chain| ensures Right(chain[k], items + [x], n) {
      assert Right(chain[k], items, n);
      OtherRight(chain[k], items, x, n);
    }
  }

  /** The chain after the point went to its cluster, which is new if there was none. */
  function ChainWith(chain: seq<Cluster>, k: nat, x: Item, bucket: nat): seq<Cluster> {
    if k < |chain| then chain[k := chain[k].(data := chain[k].data + [x.p])] else [Cluster(bucket, x.id, [x.p])] + chain
  }

  lemma OldGrows(chain: seq<Cluster>, k: nat, items: seq<Item>, x: Item, n: nat)
    requires n > 0 && ChainOk(chain, Bucket(x.id, n), items, n) && k < |chain| && chain[k].id == x.id
    ensures ChainOk(ChainWith(chain, k, x, Bucket(x.id, n)), Bucket(x.id, n), items + [x], n)
  {
    hide Bucket, Filter;
    var r := ChainWith(chain, k, x, Bucket(x.id, n));
    FilterOne(items, x, x.id);
    forall j | 0 <= j < |r| ensures r[j].hash == Bucket(x.id, n) && Right(r[j], items + [x], n) {
      assert Right(chain[j], items, n);
      if j != k { OtherRight(chain[j], items, x, n); }
    }
  }

  lemma NewGrows(chain: seq<Cluster>, items: seq<Item>, x: Item, n: nat)
    requires n > 0 && ChainOk(chain, Bucket(x.id, n), items, n) && !HasId(chain, x.id) && Filter(items, x.id) == []
    ensures ChainOk(ChainWith(chain, |chain|, x, Bucket(x.id, n)), Bucket(x.id, n), items + [x], n)
  {
    hide Bucket, Filter;
    var r := ChainWith(chain, |chain|, x, Bucket(x.id, n));
    FilterOne(items, x, x.id);
    forall j | 0 <= j < |r| ensures r[j].hash == Bucket(x.id, n) && Right(r[j], items + [x], n) {
      if j > 0 {
        assert r[j] == chain[j - 1];
        assert Right(chain[j - 1], items, n);
        OtherRight(chain[j - 1], items, x, n);
      }
    }
  }

  lemma IdsStay(chain: seq<Cluster>, k: nat, x: Item, bucket: nat)
    requires k <= |chain| && (k < |chain| ==> chain[k].id == x.id)
    ensures HasId(ChainWith(chain, k, x, bucket), x.id)
    ensures forall id :: HasId(chain, id) ==> HasId(ChainWith(chain, k, x, bucket), id)
  {
    var r := ChainWith(chain, k, x, bucket);
    var shift := if k < |chain| then 0 else 1;
    forall id | HasId(chain, id) ensures HasId(r, id) {
      var j :| 0 <= j < |chain| && chain[j].id == id;
      assert r[j + shift].id == id;
    }
    assert r[if k < |chain| then k else 0].id == x.id;
  }

  lemma ChainGrows(chain: seq<Cluster>, k: nat, items: seq<Item>, x: Item, n: nat)
    requires n > 0 && ChainOk(chain, Bucket(x.id, n), items, n) && k <= |chain|
    requires if k < |chain| then chain[k].id == x.id else !HasId(chain, x.id) && Filter(items, x.id) == []
    ensures ChainOk(ChainWith(chain, k, x, Bucket(x.id, n)), Bucket(x.id, n), items + [x], n)
    ensures HasId(ChainWith(chain, k, x, Bucket(x.id, n)), x.id)
    ensures forall id :: HasId(chain, id) ==> HasId(ChainWith(chain, k, x, Bucket(x.id, n)), id)
  {
    hide Bucket, Filter, ChainWith, ChainOk, HasId;
    IdsStay(chain, k, x, Bucket(x.id, n));
    if k < |chain| { OldGrows(chain, k, items, x, n); } else { NewGrows(chain, items, x, n); }
  }

  lemma AbsentHere(chains: seq<seq<Cluster>>, items: seq<Item>, id: nat)
    requires TableOk(chains, items) && !HasId(chains[Bucket(id, |chains|)], id)
    ensures Filter(items, id) == []
  {
    FilterEmpty(items, id);
  }

  lemma TableGrows(chains: seq<seq<Cluster>>, k: nat, items: seq<Item>, x: Item)
    requires TableOk(chains, items)
    requires var chain := chains[Bucket(x.id, |chains|)];
             k <= |chain| && if k < |chain| then chain[k].id == x.id else !HasId(chain, x.id)
    ensures var b := Bucket(x.id, |chains|);
            TableOk(chains[b := ChainWith(chains[b], k, x, b)], items + [x])
  {
    hide HasId, ChainWith, Filter, Right, Hash;
    var n, b := |chains|, Bucket(x.id, |chains|);
    if k == |chains[b]| { AbsentHere(chains, items, x.id); }
    ChainGrows(chains[b], k, items, x, n);
    var chains' := chains[b := ChainWith(chains[b], k, x, b)];
    forall b' | 0 <= b' < n ensures ChainOk(chains'[b'], b', items + [x], n) {
      if b' != b { ChainElsewhere(chains[b'], b', items, x, n); }
    }
  }

  /** Puts a point into its cluster, walking the chain of its bucket. */
  method AddPoint(chains: array<seq<Cluster>>, id: nat, p: Pt, ghost items: seq<Item>)
    requires TableOk(chains[..], items)
    modifies chains
    ensures TableOk(chains[..], items + [Item(id, p)])
  {
    hide ChainOk, Right, Filter, Hash;
    var bucket := Bucket(id, chains.Length);
    var chain := chains[bucket];
    var k := 0;
    while k < |chain| && chain[k].id != id
      invariant k <= |chain| && forall j :: 0 <= j < k ==> chain[j].id != id
    {
      k := k + 1;
    }
    TableGrows(chains[..], k, items, Item(id, p));
    if k == |chain| {
      var entry := Cluster(bucket, id, []);
      entry := entry.(data := entry.data + [p]);
      chains[bucket] := [entry] + chain;
      assert entry == Cluster(bucket, id, [p]);
    } else {
      chains[bucket] := chain[k := chain[k].(data := chain[k].data + [p])];
    }
  }

  // ----- scanning the pixels of a chunk -----

  /** One neighbour of a pixel. */
  method Connect(chains: array<seq<Cluster>>, im: Image, uf: Forest, w: nat, h: nat, x: nat, y: nat, dx: int, dy: int, rep0: nat, ghost items: seq<Item>)
    requires ImageOk(im, w, h) && 0 <= x + dx < w && 0 <= y + dy < h && x < w && y < h
    requires uf.Valid() && uf.maxid == w * h && TableOk(chains[..], items) && Id(x, y, w) < |uf.rep| && rep0 == uf.rep[Id(x, y, w)]
    modifies chains, uf.parent
    ensures uf.Valid() && TableOk(chains[..], items + PairItems(im, uf.rep, w, h, x, y, dx, dy))
  {
    hide TableOk, Finest, TreesOk, Hash, Count;
    var v0, v1 := im[y][x], im[y + dy][x + dx];
    assert items + [] == items;
    if v0 + v1 == 255 {
      IdBelow(x + dx, y + dy, w, h);
      var rep1 := uf.GetRepresentative(Id(x + dx, y + dy, w));
      RepBelow(uf, Id(x + dx, y + dy, w));
      var size := uf.GetSetSize(rep1);
      if size > 24 {
        AddPoint(chains, ClusterId(rep0, rep1), Pt(2 * x + dx, 2 * y + dy, dx * (v1 - v0), dy * (v1 - v0)), items);
      }
    }
  }

  lemma RepBelow(uf: Forest, i: nat)
    requires uf.Valid() && i <= uf.maxid
    ensures i < |uf.rep| && uf.rep[i] <= uf.maxid && uf.rep[uf.rep[i]] == uf.rep[i]
  {
    RootsAre(uf.parent[..], uf.size[..], uf.rep, i);
  }

  method ScanPixel(chains: array<seq<Cluster>>, im: Image, uf: Forest, w: nat, h: nat, x: nat, y: nat, ghost items: seq<Item>)
    requires ImageOk(im, w, h) && 1 <= x && x + 1 < w && y + 1 < h && uf.Valid() && uf.maxid == w * h && TableOk(chains[..], items)
    modifies chains, uf.parent
    ensures uf.Valid() && TableOk(chains[..], items + PixelItems(im, uf.rep, w, h, x, y))
  {
    hide TableOk, Finest, TreesOk, PairItems, Count, Id;
    assert items + [] == items;
    var v0 := im[y][x];
    if v0 == 127 {
      return;
    }
    IdBelow(x, y, w, h);
    var rep0 := uf.GetRepresentative(Id(x, y, w));
    RepBelow(uf, Id(x, y, w));
    var size := uf.GetSetSize(rep0);
    if size < 25 {
      return;
    }
    ghost var a := PairItems(im, uf.rep, w, h, x, y, 1, 0);
    ghost var b := PairItems(im, uf.rep, w, h, x, y, 0, 1);
    ghost var c := PairItems(im, uf.rep, w, h, x, y, -1, 1);
    Connect(chains, im, uf, w, h, x, y, 1, 0, rep0, items);
    Connect(chains, im, uf, w, h, x, y, 0, 1, rep0, items + a);
    Connect(chains, im, uf, w, h, x, y, -1, 1, rep0, items + a + b);
    Connect(chains, im, uf, w, h, x, y, 1, 1, rep0, items + a + b + c);
    assert items + a + b + c + PairItems(im, uf.rep, w, h, x, y, 1, 1) == items + PixelItems(im, uf.rep, w, h, x, y);
  }

  method ScanRow(chains: array<seq<Cluster>>, im: Image, uf: Forest, w: nat, h: nat, y: nat, ghost items: seq<Item>)
    requires ImageOk(im, w, h) && w >= 1 && y + 1 < h && uf.Valid() && uf.maxid == w * h && TableOk(chains[..], items)
    modifies chains, uf.parent
    ensures uf.Valid() && TableOk(chains[..], items + RowItems(im, uf.rep, w, h, y, w - 1))
  {
    hide TableOk, Finest, TreesOk, PixelItems;
    assert items + [] == items;
    var x := 1;
    while x < w - 1
      invariant 1 <= x && uf.Valid()
      invariant TableOk(chains[..], items + RowItems(im, uf.rep, w, h, y, if x < w - 1 then x else w - 1))
    {
      ghost var before := RowItems(im, uf.rep, w, h, y, x);
      ScanPixel(chains, im, uf, w, h, x, y, items + before);
      assert items + before + PixelItems(im, uf.rep, w, h, x, y) == items + (before + PixelItems(im, uf.rep, w, h, x, y));
      x := x + 1;
    }
  }

  // ----- the list that comes out of a chunk -----

  class ClusterList {
    var items: seq<Cluster>

    constructor ()
      ensures items == []
    {
      items := [];
    }

    method Exchange(k: nat)
      requires k + 1 < |items|
      modifies this
      ensures items == old(items)[k := old(items)[k + 1]][k + 1 := old(items)[k]]
    {
      var tmp := items[k + 1];
      items := items[k + 1 := items[k]];
      items := items[k := tmp];
    }

    /** One round of exchanging neighbours that are out of order, up to `end`. */
    method Pass(start: nat, end: nat)
      requires start < end <= |items| && TailSorted(items, start, end)
      modifies this
      ensures Rearranged(old(items), items, start) && TailSorted(items, start, end - 1)
    {
      hide PassOk, Rearranged, TailSorted;
      ghost var was := items;
      PassStart(was, start, end);
      var k := start;
      while k < end - 1
        invariant start <= k <= end - 1 && |items| == |was| && PassOk(was, items, start, k, end)
      {
        if items[k].id > items[k + 1].id {
          PassExchange(was, items, start, k, end);
          Exchange(k);
        } else {
          PassOn(was, items, start, k, end);
        }
        k := k + 1;
      }
      PassEnd(was, items, start, end);
    }

    /** Sorts the part of the list from `start` on by id, by exchanging neighbours. */
    method BubbleSort(start: nat)
      requires start <= |items| && DistinctIds(items[start..])
      modifies this
      ensures Rearranged(old(items), items, start)
      ensures forall j, k :: start <= j < k < |items| ==> items[j].id < items[k].id
    {
      hide Rearranged, TailSorted;
      ghost var was := items;
      var n := |items| - start;
      RearrangedSelf(items, start);
      NoTail(items, start);
      var j := 0;
      while j < n - 1
        invariant 0 <= j && (n > 0 ==> j <= n - 1) && |items| == |was| && Rearranged(was, items, start)
        invariant TailSorted(items, start, |items| - j)
      {
        ghost var before := items;
        Pass(start, start + n - j);
        RearrangedSize(before, items, start);
        RearrangedTrans(was, before, items, start);
        j := j + 1;
      }
      AllSorted(was, items, start);
    }
  }

  /** The part from `start` on has the same clusters in some order, the part before is as it was. */
  ghost predicate Rearranged(before: seq<Cluster>, after: seq<Cluster>, start: nat) {
    && start <= |before| == |after| && after[..start] == before[..start]
    && multiset(after[start..]) == multiset(before[start..])
  }

  lemma RearrangedSelf(s: seq<Cluster>, start: nat)
    requires start <= |s|
    ensures Rearranged(s, s, start)
  {
  }

  lemma RearrangedSize(a: seq<Cluster>, b: seq<Cluster>, start: nat)
    requires Rearranged(a, b, start)
    ensures |a| == |b|
  {
  }

  lemma RearrangedTrans(a: seq<Cluster>, b: seq<Cluster>, c: seq<Cluster>, start: nat)
    requires Rearranged(a, b, start) && Rearranged(b, c, start)
    ensures Rearranged(a, c, start)
  {
  }

  /** From place `at` on the list is in order, and nothing before that is bigger. */
  ghost predicate TailSorted(items: seq<Cluster>, start: nat, at: int) {
    forall i, k :: start <= i < k < |items| && at <= k ==> items[i].id <= items[k].id
  }

  /** Nothing from `start` to `k` is bigger than what is at `k`. */
  ghost predicate BiggestIs(items: seq<Cluster>, start: nat, k: nat) {
    k < |items| && forall i :: start <= i <= k ==> items[i].id <= items[k].id
  }

  /** In the middle of a round: the biggest so far is at `k`. */
  ghost predicate PassOk(was: seq<Cluster>, items: seq<Cluster>, start: nat, k: nat, end: nat) {
    Rearranged(was, items, start) && TailSorted(items, start, end) && BiggestIs(items, start, k)
  }

  lemma PassStart(was: seq<Cluster>, start: nat, end: nat)
    requires start < |was| && TailSorted(was, start, end)
    ensures PassOk(was, was, start, start, end)
  {
  }

  lemma PassExchange(was: seq<Cluster>, items: seq<Cluster>, start: nat, k: nat, end: nat)
    requires PassOk(was, items, start, k, end) && start <= k && k + 1 < end <= |items| && items[k].id > items[k + 1].id
    ensures PassOk(was, items[k := items[k + 1]][k + 1 := items[k]], start, k + 1, end)
  {
    hide Rearranged, TailSorted, BiggestIs;
    var after := items[k := items[k + 1]][k + 1 := items[k]];
    Exchanged(items, after, start, k);
    RearrangedTrans(was, items, after, start);
    ExchangedSorted(items, after, start, k, end);
  }

  lemma PassOn(was: seq<Cluster>, items: seq<Cluster>, start: nat, k: nat, end: nat)
    requires PassOk(was, items, start, k, end) && k + 1 < |items| && items[k].id <= items[k + 1].id
    ensures PassOk(was, items, start, k + 1, end)
  {
    hide Rearranged, TailSorted;
  }

  lemma PassEnd(was: seq<Cluster>, items: seq<Cluster>, start: nat, end: nat)
    requires start < end <= |items| && PassOk(was, items, start, end - 1, end)
    ensures Rearranged(was, items, start) && TailSorted(items, start, end - 1)
  {
    hide Rearranged;
  }

  lemma ExchangedSorted(before: seq<Cluster>, after: seq<Cluster>, start: nat, k: nat, end: nat)
    requires start <= k && k + 1 < end <= |before| && after == before[k := before[k + 1]][k + 1 := before[k]]
    requires TailSorted(before, start, end) && BiggestIs(before, start, k) && before[k].id > before[k + 1].id
    ensures TailSorted(after, start, end) && BiggestIs(after, start, k + 1)
  {
    forall i, m | start <= i < m < |after| && end <= m ensures after[i].id <= after[m].id {
      assert before[if i == k then k + 1 else if i == k + 1 then k else i].id <= before[m].id;
    }
  }

  lemma NoTail(items: seq<Cluster>, start: nat)
    ensures TailSorted(items, start, |items|)
  {
  }

  lemma AllSorted(was: seq<Cluster>, items: seq<Cluster>, start: nat)
    requires start <= |was| && DistinctIds(was[start..]) && Rearranged(was, items, start) && TailSorted(items, start, start + 1)
    ensures forall j, k :: start <= j < k < |items| ==> items[j].id < items[k].id
  {
    DistinctStays(was[start..], items[start..]);
    forall j, k | start <= j < k < |items| ensures items[j].id < items[k].id {
      assert items[start..][j - start] == items[j] && items[start..][k - start] == items[k];
    }
  }

  lemma Exchanged(before: seq<Cluster>, after: seq<Cluster>, start: nat, k: nat)
    requires start <= k && k + 1 < |before| && after == before[k := before[k + 1]][k + 1 := before[k]]
    ensures Rearranged(before, after, start)
  {
    var a, b := before[start..k], before[k + 2..];
    assert before[start..] == a + [before[k], before[k + 1]] + b;
    assert after[start..] == a + [before[k + 1], before[k]] + b;
  }

  /** The same clusters in another order have distinct ids too. */
  lemma DistinctStays(c: seq<Cluster>, d: seq<Cluster>)
    requires DistinctIds(c) && multiset(c) == multiset(d)
    ensures DistinctIds(d)
  {
    forall j, k | 0 <= j < k < |d| ensures d[j].id != d[k].id {
      if d[j].id == d[k].id {
        assert d[j] in multiset(c) && d[k] in multiset(c);
        var x :| 0 <= x < |c| && c[x] == d[j];
        var y :| 0 <= y < |c| && c[y] == d[k];
        assert d[j] == d[k];
        Twice(d, j, k);
        Once(c, x);
        assert false;
      }
    }
  }

  lemma Twice(d: seq<Cluster>, j: nat, k: nat)
    requires j < k < |d| && d[j] == d[k]
    ensures multiset(d)[d[j]] >= 2
  {
    assert d == d[..j] + [d[j]] + d[j + 1..k] + [d[k]] + d[k + 1..];
  }

  lemma Once(c: seq<Cluster>, x: nat)
    requires x < |c| && DistinctIds(c)
    ensures multiset(c)[c[x]] == 1
  {
    assert c == c[..x] + [c[x]] + c[x + 1..];
    assert c[x] !in multiset(c[..x]) && c[x] !in multiset(c[x + 1..]);
  }

  // ----- one chunk -----

  /** The list has the clusters of the first `i` buckets, in order. */
  ghost predicate Emitted(list: seq<Cluster>, chains: seq<seq<Cluster>>, i: nat, items: seq<Item>)
    requires |chains| > 0
  {
    && StrictlySorted(list)
    && (forall k :: 0 <= k < |list| ==> Right(list[k], items, |chains|) && list[k].hash < i)
    && (forall b, k :: 0 <= b < i && b < |chains| && 0 <= k < |chains[b]| ==> HasId(list, chains[b][k].id))
  }

  /** What the list looks like after the chain was appended and sorted in. */
  lemma EmittedElements(list: seq<Cluster>, chain: seq<Cluster>, after: seq<Cluster>)
    requires Rearranged(list + chain, after, |list|)
    ensures |after| == |list| + |chain|
    ensures forall k :: 0 <= k < |list| ==> after[k] == list[k]
    ensures forall k :: |list| <= k < |after| ==> after[k] in chain
    ensures forall c :: c in chain ==> c in after
  {
    assert (list + chain)[..|list|] == list && (list + chain)[|list|..] == chain;
    forall k | |list| <= k < |after| ensures after[k] in chain {
      assert after[|list|..][k - |list|] == after[k];
      assert after[k] in multiset(chain);
    }
    forall k | 0 <= k < |list| ensures after[k] == list[k] {
      assert after[..|list|][k] == list[k];
    }
    forall c | c in chain ensures c in after {
      assert c in multiset(after[|list|..]);
    }
  }

  lemma IdsEmitted(list: seq<Cluster>, chain: seq<Cluster>, after: seq<Cluster>, id: nat)
    requires Rearranged(list + chain, after, |list|) && (HasId(list, id) || HasId(chain, id))
    ensures HasId(after, id)
  {
    hide Rearranged;
    EmittedElements(list, chain, after);
    if HasId(list, id) {
      var m :| 0 <= m < |list| && list[m].id == id;
      assert after[m].id == id;
    } else {
      var m :| 0 <= m < |chain| && chain[m].id == id;
      assert chain[m] in after;
    }
  }

  lemma EmitChain(list: seq<Cluster>, after: seq<Cluster>, chains: seq<seq<Cluster>>, i: nat, items: seq<Item>)
    requires i < |chains| && Emitted(list, chains, i, items) && ChainOk(chains[i], i, items, |chains|)
    requires Rearranged(list + chains[i], after, |list|)
    requires forall j, k :: |list| <= j < k < |after| ==> after[j].id < after[k].id
    ensures Emitted(after, chains, i + 1, items)
  {
    hide Right, Bucket, Rearranged, HasId;
    EmittedElements(list, chains[i], after);
    forall b, k | 0 <= b < i + 1 && b < |chains| && 0 <= k < |chains[b]| ensures HasId(after, chains[b][k].id) {
      if b == i { HasOwnId(chains[i], k); }
      IdsEmitted(list, chains[i], after, chains[b][k].id);
    }
    assert forall k :: |list| <= k < |after| ==> after[k].hash == i;
    assert StrictlySorted(after);
  }

  lemma HasOwnId(chain: seq<Cluster>, k: nat)
    requires k < |chain|
    ensures HasId(chain, chain[k].id)
  {
  }

  lemma EmittedAll(list: seq<Cluster>, chains: seq<seq<Cluster>>, items: seq<Item>)
    requires TableOk(chains, items) && Emitted(list, chains, |chains|, items)
    ensures Represents(list, items, |chains|) && StrictlySorted(list)
  {
    forall i | 0 <= i < |items| ensures HasId(list, items[i].id) {
      var b := Bucket(items[i].id, |chains|);
      assert HasId(chains[b], items[i].id);
      var k :| 0 <= k < |chains[b]| && chains[b][k].id == items[i].id;
      assert HasId(list, chains[b][k].id);
    }
  }

  lemma EmptyTable(chains: seq<seq<Cluster>>)
    requires |chains| > 0 && forall b :: 0 <= b < |chains| ==> chains[b] == []
    ensures TableOk(chains, []) && Emitted([], chains, 0, [])
  {
  }

  lemma ChainOfTable(chains: seq<seq<Cluster>>, items: seq<Item>, i: nat)
    requires TableOk(chains, items) && i < |chains|
    ensures ChainOk(chains[i], i, items, |chains|) && DistinctIds(chains[i])
  {
  }

  /** The clusters of the rows from `y0` to `y1 - 1`, sorted. */
  method DoGradientClusters(im: Image, uf: Forest, w: nat, h: nat, y0: nat, y1: nat, n: nat) returns (clusters: seq<Cluster>)
    requires ImageOk(im, w, h) && w >= 1 && y0 <= y1 && y1 + 1 <= h && uf.Valid() && uf.maxid == w * h && n > 0
    modifies uf.parent
    ensures uf.Valid()
    ensures Represents(clusters, Items(im, uf.rep, w, h, y0, y1), n) && StrictlySorted(clusters)
  {
    hide TableOk, Finest, TreesOk, RowItems, ChainOk, Emitted, Represents, StrictlySorted, Rearranged;
    var chains := new seq<Cluster>[n](_ => []);
    EmptyTable(chains[..]);
    for y := y0 to y1
      invariant uf.Valid() && TableOk(chains[..], Items(im, uf.rep, w, h, y0, y))
    {
      ScanRow(chains, im, uf, w, h, y, Items(im, uf.rep, w, h, y0, y));
    }
    ghost var items := Items(im, uf.rep, w, h, y0, y1);
    var list := new ClusterList();
    NothingEmitted(chains[..], items);
    ghost var table := chains[..];
    for i := 0 to n
      invariant uf.Valid() && chains[..] == table && Emitted(list.items, table, i, items) && fresh(list)
    {
      ghost var before := list.items;
      var start := |list.items|;
      list.items := list.items + chains[i];
      ChainOfTable(table, items, i);
      assert list.items[start..] == table[i];
      list.BubbleSort(start);
      EmitChain(before, list.items, table, i, items);
    }
    clusters := list.items;
    EmittedAll(clusters, table, items);
  }

  lemma NothingEmitted(chains: seq<seq<Cluster>>, items: seq<Item>)
    requires |chains| > 0
    ensures Emitted([], chains, 0, items)
  {
  }

  // ----- all chunks -----

  /** The items of the pieces, one after the other. */
  function Flat(pieces: seq<seq<Item>>): seq<Item> {
    if pieces == [] then [] else pieces[0] + Flat(pieces[1..])
  }

  lemma {:induction false} FlatAppend(pieces: seq<seq<Item>>, p: seq<Item>)
    ensures Flat(pieces + [p]) == Flat(pieces) + p
  {
    if pieces == [] {
      assert pieces + [p] == [p];
      assert Flat([p]) == p + Flat([p][1..]);
    } else {
      assert (pieces + [p])[1..] == pieces[1..] + [p];
      FlatAppend(pieces[1..], p);
    }
  }

  /** Each two neighbouring pieces joined. */
  function Paired(pieces: seq<seq<Item>>): seq<seq<Item>> {
    if |pieces| < 2 then pieces else [pieces[0] + pieces[1]] + Paired(pieces[2..])
  }

  lemma {:induction false} PairedIs(pieces: seq<seq<Item>>)
    ensures |Paired(pieces)| == |pieces| / 2 + |pieces| % 2
    ensures forall k :: 0 <= k < |pieces| / 2 ==> Paired(pieces)[k] == pieces[2 * k] + pieces[2 * k + 1]
    ensures |pieces| % 2 == 1 ==> Paired(pieces)[|pieces| / 2] == pieces[|pieces| - 1]
    ensures Flat(Paired(pieces)) == Flat(pieces)
  {
    if |pieces| >= 2 {
      hide Flat;
      var rest := pieces[2..];
      PairedIs(rest);
      PairedFlat(pieces);
      forall k | 0 <= k < |pieces| / 2 ensures Paired(pieces)[k] == pieces[2 * k] + pieces[2 * k + 1] {
        if k > 0 {
          assert Paired(pieces)[k] == Paired(rest)[k - 1];
          assert rest[2 * (k - 1)] == pieces[2 * k] && rest[2 * (k - 1) + 1] == pieces[2 * k + 1];
        }
      }
    }
  }

  lemma FlatStep(p: seq<Item>, rest: seq<seq<Item>>)
    ensures Flat([p] + rest) == p + Flat(rest)
  {
    assert ([p] + rest)[1..] == rest;
  }

  lemma PairedStep(p: seq<Item>, q: seq<Item>, rest: seq<seq<Item>>)
    ensures Paired([p, q] + rest) == [p + q] + Paired(rest)
  {
    assert ([p, q] + rest)[2..] == rest;
  }

  lemma FlatPair(p: seq<Item>, q: seq<Item>, rest: seq<seq<Item>>)
    ensures Flat([p, q] + rest) == Flat([p + q] + rest)
  {
    hide Flat;
    FlatStep(p + q, rest);
    FlatStep(q, rest);
    FlatStep(p, [q] + rest);
    assert [p, q] + rest == [p] + ([q] + rest);
    assert (p + q) + Flat(rest) == p + (q + Flat(rest));
  }

  lemma PairedFlat(pieces: seq<seq<Item>>)
    requires |pieces| >= 2 && Flat(Paired(pieces[2..])) == Flat(pieces[2..])
    ensures Flat(Paired(pieces)) == Flat(pieces)
  {
    hide Flat, Paired;
    var p, q, rest := pieces[0], pieces[1], pieces[2..];
    assert pieces == [p, q] + rest;
    PairedStep(p, q, rest);
    FlatPair(p, q, rest);
    FlatStep(p + q, rest);
    FlatStep(p + q, Paired(rest));
  }

  /** Every list has the clusters of its piece. */
  ghost predicate AllRight(lists: seq<seq<Cluster>>, pieces: seq<seq<Item>>, n: nat) {
    && n > 0 && |lists| == |pieces|
    && forall k :: 0 <= k < |lists| ==> Represents(lists[k], pieces[k], n) && StrictlySorted(lists[k])
  }

  lemma PieceOf(lists: seq<seq<Cluster>>, pieces: seq<seq<Item>>, n: nat, k: nat)
    requires AllRight(lists, pieces, n) && k < |lists|
    ensures n > 0 && k < |pieces| == |lists| && Represents(lists[k], pieces[k], n) && StrictlySorted(lists[k])
  {
  }

  lemma OneMoreList(lists: seq<seq<Cluster>>, pieces: seq<seq<Item>>, n: nat, c: seq<Cluster>, p: seq<Item>)
    requires n > 0 && AllRight(lists, pieces, n) && Represents(c, p, n) && StrictlySorted(c)
    ensures AllRight(lists + [c], pieces + [p], n)
  {
  }

  /** The first `write` lists are those of joined pieces, those from `i` on are as they were. */
  ghost predicate Halfway(lists: seq<seq<Cluster>>, before: seq<seq<Cluster>>, pieces: seq<seq<Item>>, n: nat, write: nat, i: nat) {
    && i == 2 * write && i <= |before| == |pieces| == |lists| && |Paired(pieces)| >= write
    && AllRight(before, pieces, n)
    && lists[i..] == before[i..] && AllRight(lists[..write], Paired(pieces)[..write], n)
  }

  lemma HalfwayMore(lists: seq<seq<Cluster>>, before: seq<seq<Cluster>>, pieces: seq<seq<Item>>, n: nat, write: nat, i: nat, merged: seq<Cluster>)
    requires Halfway(lists, before, pieces, n, write, i) && i + 1 < |pieces| && n > 0
    requires Represents(merged, pieces[i] + pieces[i + 1], n) && StrictlySorted(merged)
    ensures Halfway(lists[write := merged], before, pieces, n, write + 1, i + 2)
  {
    hide Represents, StrictlySorted, Paired;
    PairedIs(pieces);
    var paired, lists' := Paired(pieces), lists[write := merged];
    OneMoreList(lists[..write], paired[..write], n, merged, pieces[i] + pieces[i + 1]);
    assert lists'[..write + 1] == lists[..write] + [merged] && paired[..write + 1] == paired[..write] + [pieces[i] + pieces[i + 1]];
    assert lists'[i + 2..] == lists[i..][2..] && before[i + 2..] == before[i..][2..];
  }

  lemma HalfwayLast(lists: seq<seq<Cluster>>, before: seq<seq<Cluster>>, pieces: seq<seq<Item>>, n: nat, write: nat, i: nat)
    requires Halfway(lists, before, pieces, n, write, i) && i + 1 == |pieces| && n > 0
    ensures AllRight(lists[write := lists[i]][..write + 1], Paired(pieces), n)
  {
    hide Represents, StrictlySorted, Paired;
    PairedIs(pieces);
    var paired := Paired(pieces);
    PieceOf(before, pieces, n, i);
    assert lists[i..][0] == before[i..][0];
    OneMoreList(lists[..write], paired[..write], n, lists[i], pieces[i]);
    assert lists[write := lists[i]][..write + 1] == lists[..write] + [lists[i]] && paired == paired[..write] + [pieces[i]];
  }

  lemma HalfwayPair(lists: seq<seq<Cluster>>, before: seq<seq<Cluster>>, pieces: seq<seq<Item>>, n: nat, write: nat, i: nat)
    requires Halfway(lists, before, pieces, n, write, i) && i + 1 < |pieces|
    ensures Mergeable(lists[i], lists[i + 1], pieces[i], pieces[i + 1], n)
  {
    hide Represents, StrictlySorted;
    PieceOf(before, pieces, n, i);
    PieceOf(before, pieces, n, i + 1);
    assert lists[i..][0] == before[i..][0] && lists[i..][1] == before[i..][1];
  }

  lemma HalfwayDone(lists: seq<seq<Cluster>>, before: seq<seq<Cluster>>, pieces: seq<seq<Item>>, n: nat, write: nat, i: nat)
    requires Halfway(lists, before, pieces, n, write, i) && i == |pieces|
    ensures AllRight(lists[..write], Paired(pieces), n)
  {
    hide Represents, StrictlySorted, Paired;
    PairedIs(pieces);
    assert Paired(pieces)[..write] == Paired(pieces);
  }

  /** One round of merging neighbouring lists in place; the last one of an odd number moves up. */
  method MergeRound(lists: array<seq<Cluster>>, length: nat, ghost pieces: seq<seq<Item>>, ghost n: nat) returns (newLength: nat)
    requires 1 < length <= lists.Length && n > 0 && |pieces| == length && AllRight(lists[..length], pieces, n)
    modifies lists
    ensures newLength == length / 2 + length % 2 && AllRight(lists[..newLength], Paired(pieces), n)
  {
    ghost var before := lists[..length];
    var write, i := 0, 0;
    assert Halfway(lists[..length], before, pieces, n, write, i);
    hide Halfway, AllRight, Paired, Represents, StrictlySorted;
    while i < length - 1
      invariant i == 2 * write && i <= length && Halfway(lists[..length], before, pieces, n, write, i)
    {
      HalfwayPair(lists[..length], before, pieces, n, write, i);
      var merged := MergeClusters(lists[i], lists[i + 1], pieces[i], pieces[i + 1], n);
      HalfwayMore(lists[..length], before, pieces, n, write, i, merged);
      ghost var was := lists[..length];
      lists[write] := merged;
      assert lists[..length] == was[write := merged];
      write := write + 1;
      i := i + 2;
    }
    if length % 2 != 0 {
      assert i == length - 1;
      HalfwayLast(lists[..length], before, pieces, n, write, i);
      ghost var was := lists[..length];
      lists[write] := lists[length - 1];
      assert lists[..length] == was[write := was[i]];
      assert lists[..write + 1] == lists[..length][..write + 1];
    } else {
      assert i == length;
      HalfwayDone(lists[..length], before, pieces, n, write, i);
      assert lists[..write] == lists[..length][..write];
    }
    newLength := length / 2 + length % 2;
  }

  method MergeAll(lists: array<seq<Cluster>>, ghost pieces: seq<seq<Item>>, ghost n: nat)
    requires lists.Length > 0 && n > 0 && AllRight(lists[..], pieces, n)
    modifies lists
    ensures Represents(lists[0], Flat(pieces), n) && StrictlySorted(lists[0])
  {
    hide Represents, StrictlySorted, Paired;
    var length := lists.Length;
    ghost var p := pieces;
    assert lists[..length] == lists[..];
    while length > 1
      invariant 0 < length <= lists.Length && |p| == length && AllRight(lists[..length], p, n) && Flat(p) == Flat(pieces)
      decreases length
    {
      PairedIs(p);
      length := MergeRound(lists, length, p, n);
      p := Paired(p);
    }
    PieceOf(lists[..length], p, n, 0);
    assert lists[..length][0] == lists[0];
    assert p[1..] == [] && p[0] + [] == p[0];
  }

  function Min(a: nat, b: nat): nat { if a < b then a else b }

  /** The clusters of an image, scanned in chunks for any number of threads: the list has the
      clusters of one scan of all inner rows, strictly sorted, and their points are returned. */
  method GradientClusters(im: Image, uf: Forest, w: nat, h: nat, nthreads: nat, nclustermap: nat)
    returns (clusters: seq<seq<Pt>>, ghost list: seq<Cluster>)
    requires ImageOk(im, w, h) && w >= 1 && h >= 3 && nthreads >= 1 && uf.Valid() && uf.maxid == w * h
    requires PerChunk(h, nthreads, nclustermap) > 0
    modifies uf.parent
    ensures uf.Valid()
    ensures Represents(list, Items(im, uf.rep, w, h, 1, h - 1), PerChunk(h, nthreads, nclustermap)) && StrictlySorted(list)
    ensures |clusters| == |list| && forall k :: 0 <= k < |list| ==> clusters[k] == list[k].data
  {
    hide Represents, StrictlySorted, Finest, TreesOk, Items, Flat, AllRight;
    var sz := h - 1;
    var chunksize := 1 + sz / nthreads;
    var n := nclustermap / (sz / chunksize + 1);
    ghost var pieces: seq<seq<Item>> := [];
    var tasks: seq<seq<Cluster>> := [];
    var i := 1;
    NoItems(im, uf.rep, w, h);
    NoLists(n);
    while i < sz
      invariant 1 <= i && uf.Valid() && AllRight(tasks, pieces, n) && (i > 1 ==> |tasks| > 0)
      invariant Flat(pieces) == Items(im, uf.rep, w, h, 1, Min(i, sz))
      decreases sz - i
    {
      var y1 := Min(sz, i + chunksize);
      var c := DoGradientClusters(im, uf, w, h, i, y1, n);
      ghost var piece := Items(im, uf.rep, w, h, i, y1);
      ItemsSplit(im, uf.rep, w, h, 1, i, y1);
      FlatAppend(pieces, piece);
      OneMoreList(tasks, pieces, n, c, piece);
      tasks, pieces := tasks + [c], pieces + [piece];
      i := i + chunksize;
    }
    var lists := new seq<Cluster>[|tasks|](k requires 0 <= k < |tasks| => tasks[k]);
    assert lists[..] == tasks;
    MergeAll(lists, pieces, n);
    list := lists[0];
    clusters := Points(lists[0]);
  }

  /** The points of each cluster of a list. */
  method Points(list: seq<Cluster>) returns (clusters: seq<seq<Pt>>)
    ensures |clusters| == |list| && forall k :: 0 <= k < |list| ==> clusters[k] == list[k].data
  {
    clusters := [];
    for k := 0 to |list|
      invariant |clusters| == k && forall m :: 0 <= m < k ==> clusters[m] == list[m].data
    {
      clusters := clusters + [list[k].data];
    }
  }

  /** How many buckets each chunk gets. */
  function PerChunk(h: nat, nthreads: nat, nclustermap: nat): nat
    requires h >= 1 && nthreads >= 1
  {
    nclustermap / ((h - 1) / (1 + (h - 1) / nthreads) + 1)
  }

  lemma NoLists(n: nat)
    requires n > 0
    ensures AllRight([], [], n) && Flat([]) == []
  {
  }

  lemma NoItems(im: Image, rep: seq<nat>, w: nat, h: nat)
    requires ImageOk(im, w, h) && w >= 1 && h >= 3
    ensures Items(im, rep, w, h, 1, 1) == []
  {
  }

  /** A list has a cluster for exactly the ids that have points. */
  lemma HasIdExactly(list: seq<Cluster>, items: seq<Item>, n: nat, id: nat)
    requires n > 0 && Represents(list, items, n)
    ensures HasId(list, id) <==> Filter(items, id) != []
  {
    FilterEmpty(items, id);
    if Filter(items, id) != [] {
      var i :| 0 <= i < |items| && items[i].id == id;
      assert HasId(list, items[i].id);
    }
    if HasId(list, id) {
      var k :| 0 <= k < |list| && list[k].id == id;
      assert Right(list[k], items, n);
    }
  }

  /** Two runs over the same image and components, with any numbers of threads and of buckets: they find
      clusters for the same ids, and those have the same points in the same order, namely that of one
      unchunked scan. */
  lemma ChunksDoNotMatter(im: Image, rep: seq<nat>, w: nat, h: nat, threads: nat, buckets: nat, list: seq<Cluster>,
                          threads': nat, buckets': nat, list': seq<Cluster>, id: nat)
    requires ImageOk(im, w, h) && w >= 1 && h >= 3 && threads >= 1 && threads' >= 1
    requires PerChunk(h, threads, buckets) > 0 && PerChunk(h, threads', buckets') > 0
    requires Represents(list, Items(im, rep, w, h, 1, h - 1), PerChunk(h, threads, buckets))
    requires Represents(list', Items(im, rep, w, h, 1, h - 1), PerChunk(h, threads', buckets'))
    ensures HasId(list, id) <==> HasId(list', id)
    ensures forall j, k :: 0 <= j < |list| && 0 <= k < |list'| && list[j].id == list'[k].id == id ==>
              list[j].data == list'[k].data == Filter(Items(im, rep, w, h, 1, h - 1), id)
  {
    hide Items, PerChunk, Filter;
    var items, n, n' := Items(im, rep, w, h, 1, h - 1), PerChunk(h, threads, buckets), PerChunk(h, threads', buckets');
    HasIdExactly(list, items, n, id);
    HasIdExactly(list', items, n', id);
    forall j, k | 0 <= j < |list| && 0 <= k < |list'| && list[j].id == list'[k].id == id
      ensures list[j].data == list'[k].data == Filter(items, id)
    {
      assert Right(list[j], items, n) && Right(list'[k], items, n');
    }
  }
}
