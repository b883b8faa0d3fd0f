/** What the clusters hold: one point for each pair of a black and a white pixel that touch and that
    belong to components big enough, half-way between them and pointing to the white one. */
module EdgePoints {
  import opened UnionFind
  import opened Components
  import opened Clusters

  datatype Pixel = Pixel(x: int, y: int)

  /** The image holds nothing but black, white and "neither". */
  predicate Thresholded(im: Image) {
    forall y, x :: 0 <= y < |im| && 0 <= x < |im[y]| ==> im[y][x] == 0 || im[y][x] == 127 || im[y][x] == 255
  }

  predicate Inside(p: Pixel, w: nat, h: nat) { 0 <= p.x < w && 0 <= p.y < h }

  /** Side by side or corner to corner. */
  predicate Touch(b: Pixel, q: Pixel) { b != q && -1 <= q.x - b.x <= 1 && -1 <= q.y - b.y <= 1 }

  /** The pixel belongs to a component of at least 25 pixels. */
  predicate Big(rep: seq<nat>, p: Pixel, w: nat, h: nat)
    requires Inside(p, w, h)
  {
    Id(p.x, p.y, w) < |rep| && Count(rep, rep[Id(p.x, p.y, w)]) >= 25
  }

  /** The black pixel `b` and the white pixel `q` are at the border between two components. */
  predicate Edge(im: Image, rep: seq<nat>, w: nat, h: nat, b: Pixel, q: Pixel)
    requires ImageOk(im, w, h)
  {
    && Inside(b, w, h) && Inside(q, w, h) && Touch(b, q)
    && im[b.y][b.x] == 0 && im[q.y][q.x] == 255
    && Big(rep, b, w, h) && Big(rep, q, w, h)
  }

  /** The one that the scan comes to first. */
  function First(b: Pixel, q: Pixel): Pixel {
    if b.y < q.y || (b.y == q.y && b.x < q.x) then b else q
  }

  /** The scan of rows `y0` to `y1 - 1` visits the first of the two; it leaves out the outer columns. */
  predicate Met(w: nat, y0: nat, y1: nat, b: Pixel, q: Pixel) {
    var f := First(b, q);
    1 <= f.x && f.x + 1 < w && y0 <= f.y < y1
  }

  /** The point half-way between the two, towards the white one, for the cluster of their components. */
  function EdgeItem(rep: seq<nat>, w: nat, h: nat, b: Pixel, q: Pixel): Item
    requires Inside(b, w, h) && Inside(q, w, h) && Id(b.x, b.y, w) < |rep| && Id(q.x, q.y, w) < |rep|
  {
    Item(ClusterId(rep[Id(b.x, b.y, w)], rep[Id(q.x, q.y, w)]), Pt(b.x + q.x, b.y + q.y, 255 * (q.x - b.x), 255 * (q.y - b.y)))
  }

  /** The point tells which two pixels it comes from. */
  function BlackOf(p: Pt): Pixel { Pixel((p.x - p.gx / 255) / 2, (p.y - p.gy / 255) / 2) }

  function WhiteOf(p: Pt): Pixel { Pixel((p.x + p.gx / 255) / 2, (p.y + p.gy / 255) / 2) }

  function SourceOf(p: Pt): Pixel { First(BlackOf(p), WhiteOf(p)) }

  lemma SourceIs(rep: seq<nat>, w: nat, h: nat, b: Pixel, q: Pixel)
    requires Inside(b, w, h) && Inside(q, w, h) && Id(b.x, b.y, w) < |rep| && Id(q.x, q.y, w) < |rep|
    ensures var p := EdgeItem(rep, w, h, b, q).p; BlackOf(p) == b && WhiteOf(p) == q && SourceOf(p) == First(b, q)
  {
    Exact(q.x - b.x);
    Exact(q.y - b.y);
  }

  lemma Exact(d: int)
    ensures 255 * d / 255 == d
  {
  }

  /** The item is that of a border between `(x, y)` and a later pixel. */
  ghost predicate ComesFrom(item: Item, im: Image, rep: seq<nat>, w: nat, h: nat, b: Pixel, q: Pixel)
    requires ImageOk(im, w, h)
  {
    Edge(im, rep, w, h, b, q) && item == EdgeItem(rep, w, h, b, q)
  }

  // ----- one pixel and one neighbour -----

  predicate Forward(dx: int, dy: int) { (dx == 1 && dy == 0) || (dy == 1 && -1 <= dx <= 1) }

  /** A pair gives its item if it is a border, and nothing otherwise. */
  lemma PairIsEdge(im: Image, rep: seq<nat>, w: nat, h: nat, x: nat, y: nat, dx: int, dy: int)
    requires ImageOk(im, w, h) && Thresholded(im) && 0 <= x + dx < w && 0 <= y + dy < h && x < w && y < h && Forward(dx, dy)
    requires im[y][x] != 127 && Big(rep, Pixel(x, y), w, h)
    ensures var f, g := Pixel(x, y), Pixel(x + dx, y + dy);
            var items := PairItems(im, rep, w, h, x, y, dx, dy);
            if Edge(im, rep, w, h, f, g) then items == [EdgeItem(rep, w, h, f, g)]
            else if Edge(im, rep, w, h, g, f) then items == [EdgeItem(rep, w, h, g, f)]
            else items == []
  {
    hide Count;
    var v0, v1 := im[y][x], im[y + dy][x + dx];
    assert v0 == 0 || v0 == 255;
    assert v1 == 0 || v1 == 127 || v1 == 255;
  }

  ghost predicate IsBorder(item: Item, im: Image, rep: seq<nat>, w: nat, h: nat, ok: Pixel -> bool)
    requires ImageOk(im, w, h)
  {
    exists b, q :: ComesFrom(item, im, rep, w, h, b, q) && ok(First(b, q))
  }

  /** What is known of a list of items: they come from borders whose first pixel is as `ok` says, and no
      two have the same point. */
  ghost predicate Borders(items: seq<Item>, im: Image, rep: seq<nat>, w: nat, h: nat, ok: Pixel -> bool)
    requires ImageOk(im, w, h)
  {
    && (forall k :: 0 <= k < |items| ==> IsBorder(items[k], im, rep, w, h, ok))
    && (forall j, k :: 0 <= j < k < |items| ==> items[j].p != items[k].p)
  }

  lemma SourceFits(items: seq<Item>, im: Image, rep: seq<nat>, w: nat, h: nat, ok: Pixel -> bool, k: nat)
    requires ImageOk(im, w, h) && Borders(items, im, rep, w, h, ok) && k < |items|
    ensures ok(SourceOf(items[k].p))
  {
    hide Edge, SourceOf;
    assert IsBorder(items[k], im, rep, w, h, ok);
    var b, q :| ComesFrom(items[k], im, rep, w, h, b, q) && ok(First(b, q));
    assert Edge(im, rep, w, h, b, q);
    EdgeInside(im, rep, w, h, b, q);
    SourceIs(rep, w, h, b, q);
  }

  lemma EdgeInside(im: Image, rep: seq<nat>, w: nat, h: nat, b: Pixel, q: Pixel)
    requires ImageOk(im, w, h) && Edge(im, rep, w, h, b, q)
    ensures Inside(b, w, h) && Inside(q, w, h) && Id(b.x, b.y, w) < |rep| && Id(q.x, q.y, w) < |rep|
  {
  }

  /** Two lists whose items come from different pixels. */
  lemma BordersJoin(a: seq<Item>, c: seq<Item>, im: Image, rep: seq<nat>, w: nat, h: nat, okA: Pixel -> bool, okC: Pixel -> bool, ok: Pixel -> bool)
    requires ImageOk(im, w, h) && Borders(a, im, rep, w, h, okA) && Borders(c, im, rep, w, h, okC)
    requires forall p :: !(okA(p) && okC(p)) && (okA(p) || okC(p) ==> ok(p))
    ensures Borders(a + c, im, rep, w, h, ok)
  {
    hide ComesFrom, SourceOf;
    var all := a + c;
    forall k | 0 <= k < |all| ensures IsBorder(all[k], im, rep, w, h, ok) {
      if k < |a| {
        assert IsBorder(a[k], im, rep, w, h, okA);
      } else {
        assert IsBorder(c[k - |a|], im, rep, w, h, okC);
      }
    }
    forall j, k | 0 <= j < k < |all| ensures all[j].p != all[k].p {
      if j < |a| <= k {
        SourceFits(a, im, rep, w, h, okA, j);
        SourceFits(c, im, rep, w, h, okC, k - |a|);
      }
    }
  }

  // ----- one pixel -----

  function At(x: int, y: int): Pixel -> bool { (p: Pixel) => p == Pixel(x, y) }

  lemma PairBorders(im: Image, rep: seq<nat>, w: nat, h: nat, x: nat, y: nat, dx: int, dy: int)
    requires ImageOk(im, w, h) && Thresholded(im) && 0 <= x + dx < w && 0 <= y + dy < h && x < w && y < h && Forward(dx, dy)
    requires im[y][x] != 127 && Big(rep, Pixel(x, y), w, h)
    ensures var items := PairItems(im, rep, w, h, x, y, dx, dy);
            && Borders(items, im, rep, w, h, At(x, y)) && |items| <= 1
            && (forall k :: 0 <= k < |items| ==> items[k].p.x == 2 * x + dx && items[k].p.y == 2 * y + dy)
  {
    PairIsEdge(im, rep, w, h, x, y, dx, dy);
    hide PairItems, Edge, Thresholded, Big;
    var f, g := Pixel(x, y), Pixel(x + dx, y + dy);
    if Edge(im, rep, w, h, f, g) {
      assert ComesFrom(PairItems(im, rep, w, h, x, y, dx, dy)[0], im, rep, w, h, f, g);
    } else if Edge(im, rep, w, h, g, f) {
      assert ComesFrom(PairItems(im, rep, w, h, x, y, dx, dy)[0], im, rep, w, h, g, f);
    }
  }

  /** Lists from one pixel in different directions. */
  lemma DirectionsJoin(a: seq<Item>, c: seq<Item>, im: Image, rep: seq<nat>, w: nat, h: nat, ok: Pixel -> bool)
    requires ImageOk(im, w, h) && Borders(a, im, rep, w, h, ok) && Borders(c, im, rep, w, h, ok)
    requires forall j, k :: 0 <= j < |a| && 0 <= k < |c| ==> a[j].p != c[k].p
    ensures Borders(a + c, im, rep, w, h, ok)
  {
    hide IsBorder;
    var all := a + c;
    forall k | 0 <= k < |all| ensures IsBorder(all[k], im, rep, w, h, ok) {
      assert all[k] == if k < |a| then a[k] else c[k - |a|];
    }
  }

  lemma NoBorders(im: Image, rep: seq<nat>, w: nat, h: nat, ok: Pixel -> bool)
    requires ImageOk(im, w, h)
    ensures Borders([], im, rep, w, h, ok)
  {
  }

  lemma PixelBorders(im: Image, rep: seq<nat>, w: nat, h: nat, x: nat, y: nat)
    requires ImageOk(im, w, h) && Thresholded(im) && 1 <= x && x + 1 < w && y + 1 < h
    ensures Borders(PixelItems(im, rep, w, h, x, y), im, rep, w, h, At(x, y))
  {
    hide PairItems, Borders, Thresholded, Count, Id;
    if im[y][x] == 127 || !Big(rep, Pixel(x, y), w, h) {
      NoBorders(im, rep, w, h, At(x, y));
    } else {
      var a, b := PairItems(im, rep, w, h, x, y, 1, 0), PairItems(im, rep, w, h, x, y, 0, 1);
      var c, d := PairItems(im, rep, w, h, x, y, -1, 1), PairItems(im, rep, w, h, x, y, 1, 1);
      PairBorders(im, rep, w, h, x, y, 1, 0);
      PairBorders(im, rep, w, h, x, y, 0, 1);
      PairBorders(im, rep, w, h, x, y, -1, 1);
      PairBorders(im, rep, w, h, x, y, 1, 1);
      DirectionsJoin(a, b, im, rep, w, h, At(x, y));
      DirectionsJoin(a + b, c, im, rep, w, h, At(x, y));
      DirectionsJoin(a + b + c, d, im, rep, w, h, At(x, y));
    }
  }

  // ----- rows -----

  function InRow(y: int, n: int): Pixel -> bool { (p: Pixel) => p.y == y && 1 <= p.x < n }

  function InRows(w: nat, y0: int, y1: int): Pixel -> bool { (p: Pixel) => y0 <= p.y < y1 && 1 <= p.x && p.x + 1 < w }

  lemma {:induction false} RowBorders(im: Image, rep: seq<nat>, w: nat, h: nat, y: nat, n: nat)
    requires ImageOk(im, w, h) && Thresholded(im) && y + 1 < h && n <= w - 1
    ensures Borders(RowItems(im, rep, w, h, y, n), im, rep, w, h, InRow(y, n))
  {
    hide PixelItems, Borders, Thresholded;
    if n <= 1 {
      NoBorders(im, rep, w, h, InRow(y, n));
    } else {
      RowBorders(im, rep, w, h, y, n - 1);
      PixelBorders(im, rep, w, h, n - 1, y);
      BordersJoin(RowItems(im, rep, w, h, y, n - 1), PixelItems(im, rep, w, h, n - 1, y), im, rep, w, h, InRow(y, n - 1), At(n - 1, y), InRow(y, n));
    }
  }

  /** Every item comes from a border that the scan meets, and no two have the same point. */
  lemma {:induction false} ItemsAreBorders(im: Image, rep: seq<nat>, w: nat, h: nat, y0: nat, y1: nat)
    requires ImageOk(im, w, h) && Thresholded(im) && y1 + 1 <= h && w >= 1
    ensures Borders(Items(im, rep, w, h, y0, y1), im, rep, w, h, InRows(w, y0, y1))
  {
    hide RowItems, Borders, Thresholded;
    if y1 <= y0 {
      NoBorders(im, rep, w, h, InRows(w, y0, y1));
    } else {
      ItemsAreBorders(im, rep, w, h, y0, y1 - 1);
      RowBorders(im, rep, w, h, y1 - 1, w - 1);
      BordersJoin(Items(im, rep, w, h, y0, y1 - 1), RowItems(im, rep, w, h, y1 - 1, w - 1), im, rep, w, h,
                  InRows(w, y0, y1 - 1), InRow(y1 - 1, w - 1), InRows(w, y0, y1));
    }
  }

  // ----- no border is missed -----

  lemma PixelHasBorder(im: Image, rep: seq<nat>, w: nat, h: nat, b: Pixel, q: Pixel)
    requires ImageOk(im, w, h) && Thresholded(im) && Edge(im, rep, w, h, b, q)
    requires var f := First(b, q); 1 <= f.x && f.x + 1 < w && f.y + 1 < h
    ensures Id(b.x, b.y, w) < |rep| && Id(q.x, q.y, w) < |rep|
    ensures EdgeItem(rep, w, h, b, q) in PixelItems(im, rep, w, h, First(b, q).x, First(b, q).y)
  {
    hide PairItems, Thresholded, Count, Id, EdgeItem;
    var f := First(b, q);
    var g := if f == b then q else b;
    PairIsEdge(im, rep, w, h, f.x, f.y, g.x - f.x, g.y - f.y);
    assert Pixel(f.x + (g.x - f.x), f.y + (g.y - f.y)) == g;
    assert !(Edge(im, rep, w, h, b, q) && Edge(im, rep, w, h, q, b));
    assert EdgeItem(rep, w, h, b, q) in PairItems(im, rep, w, h, f.x, f.y, g.x - f.x, g.y - f.y);
  }

  lemma {:induction false} RowHasPixel(im: Image, rep: seq<nat>, w: nat, h: nat, x: nat, y: nat, n: nat, item: Item)
    requires ImageOk(im, w, h) && y + 1 < h && 1 <= x < n <= w - 1 && item in PixelItems(im, rep, w, h, x, y)
    ensures item in RowItems(im, rep, w, h, y, n)
  {
    hide PixelItems;
    if x < n - 1 { RowHasPixel(im, rep, w, h, x, y, n - 1, item); }
  }

  lemma {:induction false} ItemsHaveRow(im: Image, rep: seq<nat>, w: nat, h: nat, y: nat, y0: nat, y1: nat, item: Item)
    requires ImageOk(im, w, h) && y1 + 1 <= h && w >= 1 && y0 <= y < y1 && item in RowItems(im, rep, w, h, y, w - 1)
    ensures item in Items(im, rep, w, h, y0, y1)
  {
    hide RowItems;
    if y < y1 - 1 { ItemsHaveRow(im, rep, w, h, y, y0, y1 - 1, item); }
  }

  /** The item is the one of a border that the scan of these rows meets. */
  ghost predicate FromMet(item: Item, im: Image, rep: seq<nat>, w: nat, h: nat, y0: nat, y1: nat)
    requires ImageOk(im, w, h)
  {
    exists b, q :: ComesFrom(item, im, rep, w, h, b, q) && Met(w, y0, y1, b, q)
  }

  /** The items of a scan are exactly the borders that it meets: each such pair of a black and a white
      pixel gives one item, the point half-way between them with the direction to the white one, in the
      cluster of their two components. */
  lemma ItemsExactly(im: Image, rep: seq<nat>, w: nat, h: nat, y0: nat, y1: nat)
    requires ImageOk(im, w, h) && Thresholded(im) && y1 + 1 <= h && w >= 1
    ensures forall item :: item in Items(im, rep, w, h, y0, y1) <==> FromMet(item, im, rep, w, h, y0, y1)
    ensures var items := Items(im, rep, w, h, y0, y1);
            forall j, k :: 0 <= j < k < |items| ==> items[j].p != items[k].p
  {
    var items := Items(im, rep, w, h, y0, y1);
    ItemsAreBorders(im, rep, w, h, y0, y1);
    hide Items, Edge, ComesFrom, Thresholded;
    forall item ensures item in items <==> FromMet(item, im, rep, w, h, y0, y1) {
      if item in items {
        assert IsBorder(item, im, rep, w, h, InRows(w, y0, y1));
        var b, q :| ComesFrom(item, im, rep, w, h, b, q) && InRows(w, y0, y1)(First(b, q));
        assert ComesFrom(item, im, rep, w, h, b, q) && Met(w, y0, y1, b, q);
      }
      if FromMet(item, im, rep, w, h, y0, y1) {
        var b, q :| ComesFrom(item, im, rep, w, h, b, q) && Met(w, y0, y1, b, q);
        MetIsThere(item, im, rep, w, h, y0, y1, b, q);
      }
    }
  }

  lemma MetIsThere(item: Item, im: Image, rep: seq<nat>, w: nat, h: nat, y0: nat, y1: nat, b: Pixel, q: Pixel)
    requires ImageOk(im, w, h) && Thresholded(im) && y1 + 1 <= h && w >= 1 && ComesFrom(item, im, rep, w, h, b, q) && Met(w, y0, y1, b, q)
    ensures item in Items(im, rep, w, h, y0, y1)
  {
    hide PixelItems, RowItems, Items, Edge, EdgeItem, Thresholded, Id, Count;
    PixelHasBorder(im, rep, w, h, b, q);
    EdgeInside(im, rep, w, h, b, q);
    var f := First(b, q);
    RowHasPixel(im, rep, w, h, f.x, f.y, w - 1, item);
    ItemsHaveRow(im, rep, w, h, f.y, y0, y1, item);
  }

  // ----- one cluster -----

  lemma {:induction false} FilterHas(items: seq<Item>, id: nat, p: Pt)
    ensures p in Filter(items, id) <==> Item(id, p) in items
  {
    if items != [] {
      var n := |items| - 1;
      FilterHas(items[..n], id, p);
      assert items == items[..n] + [items[n]];
    }
  }

  lemma {:induction false} FilterDistinct(items: seq<Item>, id: nat)
    requires forall j, k :: 0 <= j < k < |items| ==> items[j].p != items[k].p
    ensures forall j, k :: 0 <= j < k < |Filter(items, id)| ==> Filter(items, id)[j] != Filter(items, id)[k]
  {
    if items != [] {
      var n := |items| - 1;
      FilterDistinct(items[..n], id);
      var last := items[n];
      FilterHas(items[..n], id, last.p);
      assert forall j :: 0 <= j < n ==> items[..n][j].p != last.p;
    }
  }

  /** Each cluster found is one border: it has exactly the points half-way between touching black and
      white pixels of its two components, pointing to the white ones, each once. */
  lemma ClusterIsBorder(list: seq<Cluster>, im: Image, rep: seq<nat>, w: nat, h: nat, n: nat, k: nat)
    requires ImageOk(im, w, h) && Thresholded(im) && w >= 1 && h >= 3 && n > 0 && k < |list|
    requires Represents(list, Items(im, rep, w, h, 1, h - 1), n)
    ensures forall p :: p in list[k].data <==> FromMet(Item(list[k].id, p), im, rep, w, h, 1, h - 1)
    ensures forall i, j :: 0 <= i < j < |list[k].data| ==> list[k].data[i] != list[k].data[j]
  {
    var items, id := Items(im, rep, w, h, 1, h - 1), list[k].id;
    assert Right(list[k], items, n);
    hide Items, Filter, FromMet, Thresholded, Represents;
    ItemsExactly(im, rep, w, h, 1, h - 1);
    FilterDistinct(items, id);
    forall p ensures p in list[k].data <==> FromMet(Item(id, p), im, rep, w, h, 1, h - 1) {
      FilterHas(items, id, p);
    }
  }
}
