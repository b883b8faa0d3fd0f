/** Connected components of a thresholded image: a row scan that leaves out the unions that others
    already imply, on one thread. */
module Components {
  import opened UnionFind

  /** Rows of pixels: 0, 255, or 127 for "neither". */
  type Image = seq<seq<int>>

  predicate ImageOk(im: Image, w: nat, h: nat) {
    |im| == h > 0 && forall y :: 0 <= y < h ==> |im[y]| >= w && |im[y]| >= 2
  }

  /** The element for a pixel. */
  function Id(x: nat, y: nat, w: nat): nat { y * w + x }

  lemma IdBelow(x: nat, y: nat, w: nat, h: nat)
    requires x < w && y < h
    ensures Id(x, y, w) < w * h
  {
    assert (h - 1 - y) * w >= 0;
  }

  lemma RowsApart(y: nat, y': nat, w: nat)
    requires y < y'
    ensures y * w + w <= y' * w
  {
    assert (y' - y - 1) * w >= 0;
    assert (y' - y - 1) * w == y' * w - y * w - w;
  }

  lemma IdInjective(x: nat, y: nat, x': nat, y': nat, w: nat)
    requires x < w && x' < w && Id(x, y, w) == Id(x', y', w)
    ensures x == x' && y == y'
  {
    if y < y' { RowsApart(y, y', w); } else if y' < y { RowsApart(y', y, w); }
  }

  /** If the two pixels have the same value they have the same label. */
  ghost predicate EdgeOk(f: seq<nat>, im: Image, w: nat, x: nat, y: nat, x': nat, y': nat)
    requires y < |im| && x < |im[y]| && y' < |im| && x' < |im[y']|
  {
    im[y][x] == im[y'][x'] ==> Id(x, y, w) < |f| && Id(x', y', w) < |f| && f[Id(x, y, w)] == f[Id(x', y', w)]
  }

  // ----- the scan that performs every union -----

  ghost predicate FullPixel(f: seq<nat>, im: Image, w: nat, h: nat, x: nat, y: nat)
    requires ImageOk(im, w, h) && 1 <= x && x + 1 < w && y < h
  {
    im[y][x] != 127 ==>
      && EdgeOk(f, im, w, x, y, x - 1, y)
      && (y > 0 ==> EdgeOk(f, im, w, x, y, x, y - 1))
      && (y > 0 && im[y][x] == 255 ==> EdgeOk(f, im, w, x, y, x - 1, y - 1) && EdgeOk(f, im, w, x, y, x + 1, y - 1))
  }

  /** The labelling respects every union of equal neighbours: four neighbours, eight for white. */
  ghost predicate FullRespects(f: seq<nat>, im: Image, w: nat, h: nat)
    requires ImageOk(im, w, h)
  {
    forall x: nat, y: nat :: 1 <= x && x + 1 < w && y < h ==> FullPixel(f, im, w, h, x, y)
  }

  /** The two pixels are in one component of the scan that performs every union. */
  ghost predicate FullyConnected(im: Image, w: nat, h: nat, a: nat, b: nat)
    requires ImageOk(im, w, h) && a <= w * h && b <= w * h
  {
    forall f: seq<nat> :: |f| == w * h + 1 && FullRespects(f, im, w, h) ==> f[a] == f[b]
  }

  // ----- the scan that skips unions -----

  /** The test before the union with the pixel above. */
  predicate JoinsUp(im: Image, w: nat, h: nat, x: nat, y: nat)
    requires ImageOk(im, w, h) && 1 <= x && x + 1 < w && 0 < y < h
  {
    x == 1 || !(im[y][x - 1] == im[y - 1][x - 1] && im[y - 1][x - 1] == im[y - 1][x])
  }

  predicate JoinsUpLeft(im: Image, w: nat, h: nat, x: nat, y: nat)
    requires ImageOk(im, w, h) && 1 <= x && x + 1 < w && 0 < y < h
  {
    im[y][x] == 255 && (x == 1 || !(im[y][x - 1] == im[y - 1][x - 1] || im[y - 1][x] == im[y - 1][x - 1]))
  }

  predicate JoinsUpRight(im: Image, w: nat, h: nat, x: nat, y: nat)
    requires ImageOk(im, w, h) && 1 <= x && x + 1 < w && 0 < y < h
  {
    im[y][x] == 255 && im[y - 1][x] != im[y - 1][x + 1]
  }

  ghost predicate SkipPixel(f: seq<nat>, im: Image, w: nat, h: nat, x: nat, y: nat)
    requires ImageOk(im, w, h) && 1 <= x && x + 1 < w && y < h
  {
    im[y][x] != 127 ==>
      && EdgeOk(f, im, w, x, y, x - 1, y)
      && (y > 0 && JoinsUp(im, w, h, x, y) ==> EdgeOk(f, im, w, x, y, x, y - 1))
      && (y > 0 && JoinsUpLeft(im, w, h, x, y) ==> EdgeOk(f, im, w, x, y, x - 1, y - 1))
      && (y > 0 && JoinsUpRight(im, w, h, x, y) ==> EdgeOk(f, im, w, x, y, x + 1, y - 1))
  }

  /** The labelling respects what the scan has joined when it comes to pixel `(x, y)`. */
  ghost predicate SkipRespects(f: seq<nat>, im: Image, w: nat, h: nat, x: nat, y: nat)
    requires ImageOk(im, w, h)
  {
    forall x': nat, y': nat :: 1 <= x' && x' + 1 < w && y' < h && (y' < y || (y' == y && x' < x)) ==> SkipPixel(f, im, w, h, x', y')
  }

  /** The links joined so far are those of the scan up to pixel `(x, y)`. */
  ghost predicate Scanned(links: set<(nat, nat)>, im: Image, w: nat, h: nat, x: nat, y: nat)
    requires ImageOk(im, w, h)
  {
    forall f: seq<nat> :: |f| == w * h + 1 ==> (Respects(f, links) <==> SkipRespects(f, im, w, h, x, y))
  }

  lemma OneMoreLink(f: seq<nat>, links: set<(nat, nat)>, a: nat, b: nat)
    ensures Respects(f, links + {(a, b)}) <==> Respects(f, links) && a < |f| && b < |f| && f[a] == f[b]
  {
    var links' := links + {(a, b)};
    if Respects(f, links') {
      assert (a, b) in links';
      forall e | e in links ensures e.0 < |f| && e.1 < |f| && f[e.0] == f[e.1] {
        assert e in links';
      }
    }
  }

  /** Joins two pixels if they have the same value. */
  method JoinIfSame(uf: Forest, im: Image, w: nat, h: nat, x: nat, y: nat, x': nat, y': nat)
    requires ImageOk(im, w, h) && uf.Valid() && uf.maxid == w * h && x < w && x' < w && y < h && y' < h
    modifies uf, uf.parent, uf.size
    ensures uf.Valid()
    ensures forall f: seq<nat> :: |f| == w * h + 1 ==>
      (Respects(f, uf.links) <==> Respects(f, old(uf.links)) && EdgeOk(f, im, w, x, y, x', y'))
  {
    hide Respects, Finest, TreesOk;
    ghost var before := uf.links;
    if im[y'][x'] == im[y][x] {
      IdBelow(x, y, w, h);
      IdBelow(x', y', w, h);
      var root := uf.Connect(y * w + x, y' * w + x');
      forall f: seq<nat> | |f| == w * h + 1
        ensures Respects(f, uf.links) <==> Respects(f, before) && EdgeOk(f, im, w, x, y, x', y')
      {
        OneMoreLink(f, before, Id(x, y, w), Id(x', y', w));
      }
    }
  }

  lemma NextPixel(f: seq<nat>, im: Image, w: nat, h: nat, x: nat, y: nat)
    requires ImageOk(im, w, h) && 1 <= x && x + 1 < w && y < h
    ensures SkipRespects(f, im, w, h, x + 1, y) <==> SkipRespects(f, im, w, h, x, y) && SkipPixel(f, im, w, h, x, y)
  {
    hide SkipPixel;
  }

  lemma NextScanned(links: set<(nat, nat)>, links': set<(nat, nat)>, im: Image, w: nat, h: nat, x: nat, y: nat)
    requires ImageOk(im, w, h) && 1 <= x && x + 1 < w && y < h && Scanned(links, im, w, h, x, y)
    requires forall f: seq<nat> :: |f| == w * h + 1 ==> (Respects(f, links') <==> Respects(f, links) && SkipPixel(f, im, w, h, x, y))
    ensures Scanned(links', im, w, h, x + 1, y)
  {
    hide Respects, SkipPixel, SkipRespects;
    forall f: seq<nat> | |f| == w * h + 1 ensures Respects(f, links') <==> SkipRespects(f, im, w, h, x + 1, y) {
      NextPixel(f, im, w, h, x, y);
      assert Respects(f, links) <==> SkipRespects(f, im, w, h, x, y);
    }
  }

  lemma NextRow(links: set<(nat, nat)>, im: Image, w: nat, h: nat, x: nat, y: nat)
    requires ImageOk(im, w, h) && x + 1 >= w && Scanned(links, im, w, h, x, y)
    ensures Scanned(links, im, w, h, 1, y + 1)
  {
    hide Respects, SkipPixel;
    forall f: seq<nat> | |f| == w * h + 1 ensures Respects(f, links) <==> SkipRespects(f, im, w, h, 1, y + 1) {
      assert SkipRespects(f, im, w, h, x, y) <==> SkipRespects(f, im, w, h, 1, y + 1);
    }
  }

  method FirstLine(uf: Forest, im: Image, w: nat, h: nat)
    requires ImageOk(im, w, h) && uf.Valid() && uf.maxid == w * h && Scanned(uf.links, im, w, h, 1, 0)
    modifies uf, uf.parent, uf.size
    ensures uf.Valid() && Scanned(uf.links, im, w, h, 1, 1)
  {
    hide Respects, Finest, TreesOk, Scanned, EdgeOk;
    var y := 0;
    var x := 1;
    while x + 1 < w
      invariant 1 <= x && uf.Valid() && Scanned(uf.links, im, w, h, x, y)
    {
      ghost var before := uf.links;
      var v := im[y][x];
      if v != 127 {
        JoinIfSame(uf, im, w, h, x, y, x - 1, y);
      }
      NextScanned(before, uf.links, im, w, h, x, y);
      x := x + 1;
    }
    NextRow(uf.links, im, w, h, x, y);
  }

  /** The unions of one pixel, given the values around it. */
  method JoinPixel(uf: Forest, im: Image, w: nat, h: nat, x: nat, y: nat, v_m1_m1: int, v_0_m1: int, v_1_m1: int, v_m1_0: int, v: int)
    requires ImageOk(im, w, h) && uf.Valid() && uf.maxid == w * h && 1 <= x && x + 1 < w && 0 < y < h
    requires v_m1_m1 == im[y - 1][x - 1] && v_0_m1 == im[y - 1][x] && v_1_m1 == im[y - 1][x + 1]
    requires v_m1_0 == im[y][x - 1] && v == im[y][x] != 127
    modifies uf, uf.parent, uf.size
    ensures uf.Valid()
    ensures forall f: seq<nat> :: |f| == w * h + 1 ==>
      (Respects(f, uf.links) <==> Respects(f, old(uf.links)) && SkipPixel(f, im, w, h, x, y))
  {
    hide Respects, Finest, TreesOk, EdgeOk;
    JoinIfSame(uf, im, w, h, x, y, x - 1, y);
    if x == 1 || !(v_m1_0 == v_m1_m1 && v_m1_m1 == v_0_m1) {
      JoinIfSame(uf, im, w, h, x, y, x, y - 1);
    }
    if v == 255 {
      if x == 1 || !(v_m1_0 == v_m1_m1 || v_0_m1 == v_m1_m1) {
        JoinIfSame(uf, im, w, h, x, y, x - 1, y - 1);
      }
      if !(v_0_m1 == v_1_m1) {
        JoinIfSame(uf, im, w, h, x, y, x + 1, y - 1);
      }
    }
  }

  /** One row after the first, with the values around the pixel sliding along. */
  method Line(uf: Forest, im: Image, w: nat, h: nat, y: nat)
    requires ImageOk(im, w, h) && uf.Valid() && uf.maxid == w * h && 0 < y < h && Scanned(uf.links, im, w, h, 1, y)
    modifies uf, uf.parent, uf.size
    ensures uf.Valid() && Scanned(uf.links, im, w, h, 1, y + 1)
  {
    hide Respects, Finest, TreesOk, Scanned, SkipPixel;
    var v_0_m1 := im[y - 1][0];
    var v_1_m1 := im[y - 1][1];
    var v := im[y][0];
    var x := 1;
    while x + 1 < w
      invariant 1 <= x && uf.Valid() && Scanned(uf.links, im, w, h, x, y)
      invariant x < |im[y]| && x < |im[y - 1]|
      invariant v_0_m1 == im[y - 1][x - 1] && v_1_m1 == im[y - 1][x] && v == im[y][x - 1]
    {
      ghost var before := uf.links;
      var v_m1_m1 := v_0_m1;
      v_0_m1 := v_1_m1;
      v_1_m1 := im[y - 1][x + 1];
      var v_m1_0 := v;
      v := im[y][x];
      if v != 127 {
        JoinPixel(uf, im, w, h, x, y, v_m1_m1, v_0_m1, v_1_m1, v_m1_0, v);
      } else {
        NothingToJoin(im, w, h, x, y);
      }
      NextScanned(before, uf.links, im, w, h, x, y);
      x := x + 1;
    }
    NextRow(uf.links, im, w, h, x, y);
  }

  lemma NothingToJoin(im: Image, w: nat, h: nat, x: nat, y: nat)
    requires ImageOk(im, w, h) && 1 <= x && x + 1 < w && y < h && im[y][x] == 127
    ensures forall f: seq<nat> :: SkipPixel(f, im, w, h, x, y)
  {
  }

  // ----- the skipped unions are implied -----

  /** Equal pixels above each other have the same label, whether or not they were joined. */
  lemma {:induction false} UpImplied(f: seq<nat>, im: Image, w: nat, h: nat, x: nat, y: nat)
    requires ImageOk(im, w, h) && SkipRespects(f, im, w, h, 1, h) && 1 <= x && x + 1 < w && 0 < y < h
    requires im[y][x] != 127
    ensures EdgeOk(f, im, w, x, y, x, y - 1)
    decreases x
  {
    hide Id;
    assert SkipPixel(f, im, w, h, x, y);
    if im[y][x] == im[y - 1][x] && !JoinsUp(im, w, h, x, y) {
      UpImplied(f, im, w, h, x - 1, y);
      assert SkipPixel(f, im, w, h, x, y - 1);
    }
  }

  lemma UpLeftImplied(f: seq<nat>, im: Image, w: nat, h: nat, x: nat, y: nat)
    requires ImageOk(im, w, h) && SkipRespects(f, im, w, h, 1, h) && 1 <= x && x + 1 < w && 0 < y < h
    requires im[y][x] == 255
    ensures EdgeOk(f, im, w, x, y, x - 1, y - 1)
  {
    hide Id;
    assert SkipPixel(f, im, w, h, x, y);
    if im[y][x] == im[y - 1][x - 1] && !JoinsUpLeft(im, w, h, x, y) {
      if im[y][x - 1] == 255 {
        UpImplied(f, im, w, h, x - 1, y);
      } else {
        UpImplied(f, im, w, h, x, y);
        assert SkipPixel(f, im, w, h, x, y - 1);
      }
    }
  }

  lemma UpRightImplied(f: seq<nat>, im: Image, w: nat, h: nat, x: nat, y: nat)
    requires ImageOk(im, w, h) && SkipRespects(f, im, w, h, 1, h) && 1 <= x && x + 2 < w && 0 < y < h
    requires im[y][x] == 255
    ensures EdgeOk(f, im, w, x, y, x + 1, y - 1)
  {
    hide Id;
    assert SkipPixel(f, im, w, h, x, y);
    if im[y][x] == im[y - 1][x + 1] && !JoinsUpRight(im, w, h, x, y) {
      UpImplied(f, im, w, h, x, y);
      assert SkipPixel(f, im, w, h, x + 1, y - 1);
    }
  }

  /** A labelling that respects every union respects those that were not skipped. */
  lemma FullIsMore(f: seq<nat>, im: Image, w: nat, h: nat)
    requires ImageOk(im, w, h) && FullRespects(f, im, w, h)
    ensures SkipRespects(f, im, w, h, 1, h)
  {
    hide EdgeOk;
    forall x: nat, y: nat | 1 <= x && x + 1 < w && y < h ensures SkipPixel(f, im, w, h, x, y) {
      assert FullPixel(f, im, w, h, x, y);
    }
  }

  // ----- the last column -----

  /** Whether the pixel of the last column in row `y - 1` hangs on its neighbour below to the left. */
  predicate Hangs(im: Image, w: nat, h: nat, y: nat)
    requires ImageOk(im, w, h)
  {
    w >= 3 && 0 < y < h && im[y][w - 2] == 255 == im[y - 1][w - 1]
  }

  /** The labelling with the pixels of the last column relabelled like the neighbours they hang on. */
  function Patched(f: seq<nat>, im: Image, w: nat, h: nat, y: nat): (g: seq<nat>)
    requires ImageOk(im, w, h) && |f| == w * h + 1
    ensures |g| == |f|
  {
    if y == 0 then f
    else
      var g := Patched(f, im, w, h, y - 1);
      if Hangs(im, w, h, y) && Id(w - 1, y - 1, w) < |f| && Id(w - 2, y, w) < |f|
      then g[Id(w - 1, y - 1, w) := f[Id(w - 2, y, w)]] else g
  }

  lemma {:induction false} PatchedKeeps(f: seq<nat>, im: Image, w: nat, h: nat, y: nat, x': nat, y': nat)
    requires ImageOk(im, w, h) && |f| == w * h + 1 && x' + 1 < w && y' < h
    ensures Id(x', y', w) < |f| && Patched(f, im, w, h, y)[Id(x', y', w)] == f[Id(x', y', w)]
  {
    IdBelow(x', y', w, h);
    hide Id;
    if y > 0 {
      PatchedKeeps(f, im, w, h, y - 1, x', y');
      if Id(w - 1, y - 1, w) == Id(x', y', w) { IdInjective(w - 1, y - 1, x', y', w); }
    }
  }

  lemma {:induction false} PatchedHangs(f: seq<nat>, im: Image, w: nat, h: nat, y: nat, y': nat)
    requires ImageOk(im, w, h) && |f| == w * h + 1 && Hangs(im, w, h, y') && y' <= y
    ensures Id(w - 1, y' - 1, w) < |f| && Id(w - 2, y', w) < |f|
    ensures Patched(f, im, w, h, y)[Id(w - 1, y' - 1, w)] == f[Id(w - 2, y', w)]
  {
    IdBelow(w - 1, y' - 1, w, h);
    IdBelow(w - 2, y', w, h);
    hide Id;
    if y' < y {
      PatchedHangs(f, im, w, h, y - 1, y');
      if Id(w - 1, y - 1, w) == Id(w - 1, y' - 1, w) { IdInjective(w - 1, y - 1, w - 1, y' - 1, w); }
    }
  }

  lemma EdgePatched(f: seq<nat>, im: Image, w: nat, h: nat, x: nat, y: nat, x': nat, y': nat)
    requires ImageOk(im, w, h) && |f| == w * h + 1 && x + 1 < w && x' + 1 < w && y < h && y' < h
    requires EdgeOk(f, im, w, x, y, x', y')
    ensures EdgeOk(Patched(f, im, w, h, h), im, w, x, y, x', y')
  {
    PatchedKeeps(f, im, w, h, h, x, y);
    PatchedKeeps(f, im, w, h, h, x', y');
    hide Patched, Id;
  }

  lemma LastEdgePatched(f: seq<nat>, im: Image, w: nat, h: nat, y: nat)
    requires ImageOk(im, w, h) && |f| == w * h + 1 && w >= 3 && 0 < y < h && im[y][w - 2] == 255
    ensures EdgeOk(Patched(f, im, w, h, h), im, w, w - 2, y, w - 1, y - 1)
  {
    hide Patched, Id;
    if im[y - 1][w - 1] == 255 {
      PatchedKeeps(f, im, w, h, h, w - 2, y);
      PatchedHangs(f, im, w, h, h, y);
    }
  }

  /** So patched, a labelling of the scan that skips respects every union. */
  lemma PatchedRespects(f: seq<nat>, im: Image, w: nat, h: nat)
    requires ImageOk(im, w, h) && |f| == w * h + 1 && SkipRespects(f, im, w, h, 1, h)
    ensures FullRespects(Patched(f, im, w, h, h), im, w, h)
  {
    hide EdgeOk, Patched;
    var g := Patched(f, im, w, h, h);
    forall x: nat, y: nat | 1 <= x && x + 1 < w && y < h ensures FullPixel(g, im, w, h, x, y) {
      if im[y][x] != 127 {
        assert SkipPixel(f, im, w, h, x, y);
        EdgePatched(f, im, w, h, x, y, x - 1, y);
        if y > 0 {
          UpImplied(f, im, w, h, x, y);
          EdgePatched(f, im, w, h, x, y, x, y - 1);
          if im[y][x] == 255 {
            UpLeftImplied(f, im, w, h, x, y);
            EdgePatched(f, im, w, h, x, y, x - 1, y - 1);
            if x + 2 < w {
              UpRightImplied(f, im, w, h, x, y);
              EdgePatched(f, im, w, h, x, y, x + 1, y - 1);
            } else {
              LastEdgePatched(f, im, w, h, y);
            }
          }
        }
      }
    }
  }

  /** On all columns but the last, skipping changes nothing: two pixels are in one tree exactly
      when the scan that performs every union connects them. */
  lemma SkippingIsExact(rep: seq<nat>, links: set<(nat, nat)>, im: Image, w: nat, h: nat, x: nat, y: nat, x': nat, y': nat)
    requires ImageOk(im, w, h) && |rep| == w * h + 1 && Finest(rep, links) && Scanned(links, im, w, h, 1, h)
    requires x + 1 < w && x' + 1 < w && y < h && y' < h
    ensures Id(x, y, w) < |rep| && Id(x', y', w) < |rep|
    ensures rep[Id(x, y, w)] == rep[Id(x', y', w)] <==> FullyConnected(im, w, h, Id(x, y, w), Id(x', y', w))
  {
    IdBelow(x, y, w, h);
    IdBelow(x', y', w, h);
    hide Id, SkipRespects, FullRespects, Patched;
    var a, b := Id(x, y, w), Id(x', y', w);
    if rep[a] == rep[b] {
      forall f: seq<nat> | |f| == w * h + 1 && FullRespects(f, im, w, h) ensures f[a] == f[b] {
        FullIsMore(f, im, w, h);
        assert Respects(f, links);
        assert f[a] == f[rep[a]] && f[b] == f[rep[b]];
      }
    }
    if FullyConnected(im, w, h, a, b) {
      assert SkipRespects(rep, im, w, h, 1, h);
      PatchedRespects(rep, im, w, h);
      PatchedKeeps(rep, im, w, h, h, x, y);
      PatchedKeeps(rep, im, w, h, h, x', y');
      var g := Patched(rep, im, w, h, h);
      assert g[a] == g[b];
    }
  }

  lemma NothingScanned(im: Image, w: nat, h: nat)
    requires ImageOk(im, w, h)
    ensures Scanned({}, im, w, h, 1, 0)
  {
  }

  // ----- all columns -----

  /** A white pixel of the last column whose union with the white pixel below to its left is left out,
      although nothing else joins the two. */
  predicate Dropped(im: Image, w: nat, h: nat, y: nat)
    requires ImageOk(im, w, h)
  {
    w >= 3 && 0 < y < h && im[y][w - 2] == im[y - 1][w - 2] == im[y - 1][w - 1] == 255
  }

  /** The trees are the components of the scan that performs every union, the last column included. */
  ghost predicate SamePartition(rep: seq<nat>, im: Image, w: nat, h: nat)
    requires ImageOk(im, w, h) && |rep| == w * h + 1
  {
    forall a: nat, b: nat :: a <= w * h && b <= w * h ==> (rep[a] == rep[b] <==> FullyConnected(im, w, h, a, b))
  }

  lemma SkipIsFull(f: seq<nat>, im: Image, w: nat, h: nat)
    requires ImageOk(im, w, h) && SkipRespects(f, im, w, h, 1, h) && forall y: nat :: !Dropped(im, w, h, y)
    ensures FullRespects(f, im, w, h)
  {
    hide EdgeOk;
    forall x: nat, y: nat | 1 <= x && x + 1 < w && y < h ensures FullPixel(f, im, w, h, x, y) {
      if im[y][x] != 127 {
        assert SkipPixel(f, im, w, h, x, y);
        if y > 0 {
          UpImplied(f, im, w, h, x, y);
          if im[y][x] == 255 {
            UpLeftImplied(f, im, w, h, x, y);
            if x + 2 < w {
              UpRightImplied(f, im, w, h, x, y);
            } else if im[y - 1][x + 1] == 255 {
              assert !Dropped(im, w, h, y);
            } else {
              Unequal(f, im, w, x, y, x + 1, y - 1);
            }
          }
        }
      }
    }
  }

  lemma Unequal(f: seq<nat>, im: Image, w: nat, x: nat, y: nat, x': nat, y': nat)
    requires y < |im| && x < |im[y]| && y' < |im| && x' < |im[y']| && im[y][x] != im[y'][x']
    ensures EdgeOk(f, im, w, x, y, x', y')
  {
  }

  /** One label for everything but the pixel of the last column in row `y - 1`. */
  function Lone(w: nat, h: nat, y: nat): seq<nat> { seq(w * h + 1, (i: nat) => if y > 0 && w > 0 && i == Id(w - 1, y - 1, w) then 1 else 0) }

  lemma LoneEdge(im: Image, w: nat, h: nat, y: nat, x: nat, y0: nat, x': nat, y1: nat)
    requires ImageOk(im, w, h) && 0 < y < h && x + 1 < w && x' < w && y0 < h && y1 < h && !(x' == w - 1 && y1 == y - 1)
    ensures EdgeOk(Lone(w, h, y), im, w, x, y0, x', y1)
  {
    IdBelow(x, y0, w, h);
    IdBelow(x', y1, w, h);
    var i, j, k := Id(x, y0, w), Id(x', y1, w), Id(w - 1, y - 1, w);
    if i == k { IdInjective(x, y0, w - 1, y - 1, w); }
    if j == k { IdInjective(x', y1, w - 1, y - 1, w); }
    hide Id;
  }

  /** The scan joins nothing to that pixel. */
  lemma LoneRespects(im: Image, w: nat, h: nat, y: nat)
    requires ImageOk(im, w, h) && Dropped(im, w, h, y)
    ensures SkipRespects(Lone(w, h, y), im, w, h, 1, h)
  {
    hide EdgeOk, Id, Lone;
    var f := Lone(w, h, y);
    forall x: nat, y': nat | 1 <= x && x + 1 < w && y' < h ensures SkipPixel(f, im, w, h, x, y') {
      LoneEdge(im, w, h, y, x, y', x - 1, y');
      if y' > 0 {
        LoneEdge(im, w, h, y, x, y', x, y' - 1);
        LoneEdge(im, w, h, y, x, y', x - 1, y' - 1);
        if !(x + 2 == w && y' == y) {
          LoneEdge(im, w, h, y, x, y', x + 1, y' - 1);
        }
      }
    }
  }

  /** Where a union is dropped the two scans differ. */
  lemma DroppedDiffers(rep: seq<nat>, links: set<(nat, nat)>, im: Image, w: nat, h: nat, y: nat)
    requires ImageOk(im, w, h) && |rep| == w * h + 1 && Finest(rep, links) && Scanned(links, im, w, h, 1, h) && Dropped(im, w, h, y)
    ensures var a, b := Id(w - 2, y, w), Id(w - 1, y - 1, w);
            a < |rep| && b < |rep| && rep[a] != rep[b] && FullyConnected(im, w, h, a, b)
  {
    IdBelow(w - 2, y, w, h);
    IdBelow(w - 1, y - 1, w, h);
    assert Id(w - 2, y, w) != Id(w - 1, y - 1, w);
    hide Id, SkipRespects, FullRespects;
    var a, b, f := Id(w - 2, y, w), Id(w - 1, y - 1, w), Lone(w, h, y);
    LoneRespects(im, w, h, y);
    assert Respects(f, links);
    assert f[a] == f[rep[a]] && f[b] == f[rep[b]];
    forall g: seq<nat> | |g| == w * h + 1 && FullRespects(g, im, w, h) ensures g[a] == g[b] {
      FullCorner(g, im, w, h, y);
    }
  }

  lemma FullCorner(g: seq<nat>, im: Image, w: nat, h: nat, y: nat)
    requires ImageOk(im, w, h) && |g| == w * h + 1 && FullRespects(g, im, w, h) && Dropped(im, w, h, y)
    ensures Id(w - 2, y, w) < |g| && Id(w - 1, y - 1, w) < |g| && g[Id(w - 2, y, w)] == g[Id(w - 1, y - 1, w)]
  {
    hide Id;
    assert FullPixel(g, im, w, h, w - 2, y);
  }

  /** With the last column the scan that skips agrees with the one that performs every union if and
      only if no union is dropped. */
  lemma LastColumnExactly(rep: seq<nat>, links: set<(nat, nat)>, im: Image, w: nat, h: nat)
    requires ImageOk(im, w, h) && |rep| == w * h + 1 && Finest(rep, links) && Scanned(links, im, w, h, 1, h)
    ensures SamePartition(rep, im, w, h) <==> forall y: nat :: !Dropped(im, w, h, y)
  {
    hide Id, SkipRespects, FullRespects, Dropped;
    if y: nat :| Dropped(im, w, h, y) {
      DroppedDiffers(rep, links, im, w, h, y);
    } else {
      forall a: nat, b: nat | a <= w * h && b <= w * h ensures rep[a] == rep[b] <==> FullyConnected(im, w, h, a, b) {
        if rep[a] == rep[b] {
          forall f: seq<nat> | |f| == w * h + 1 && FullRespects(f, im, w, h) ensures f[a] == f[b] {
            FullIsMore(f, im, w, h);
            assert Respects(f, links);
            assert f[a] == f[rep[a]] && f[b] == f[rep[b]];
          }
        }
        if FullyConnected(im, w, h, a, b) {
          assert SkipRespects(rep, im, w, h, 1, h);
          SkipIsFull(rep, im, w, h);
        }
      }
    }
  }

  /** The components of an image, on one thread. */
  method ConnectedComponents(im: Image, w: nat, h: nat) returns (uf: Forest)
    requires ImageOk(im, w, h)
    ensures uf.Valid() && uf.maxid == w * h
    ensures forall x: nat, y: nat, x': nat, y': nat :: x + 1 < w && x' + 1 < w && y < h && y' < h ==>
      && Id(x, y, w) < |uf.rep| && Id(x', y', w) < |uf.rep|
      && (uf.rep[Id(x, y, w)] == uf.rep[Id(x', y', w)] <==> FullyConnected(im, w, h, Id(x, y, w), Id(x', y', w)))
    ensures |uf.rep| == w * h + 1 && (SamePartition(uf.rep, im, w, h) <==> forall y: nat :: !Dropped(im, w, h, y))
  {
    hide Finest, TreesOk, Scanned, FullyConnected, Id, SamePartition, Dropped;
    uf := new Forest(w * h);
    NothingScanned(im, w, h);
    FirstLine(uf, im, w, h);
    for y := 1 to h
      invariant fresh(uf) && fresh(uf.parent) && fresh(uf.size)
      invariant uf.Valid() && Scanned(uf.links, im, w, h, 1, y)
    {
      Line(uf, im, w, h, y);
    }
    LastColumnExactly(uf.rep, uf.links, im, w, h);
    forall x: nat, y: nat, x': nat, y': nat | x + 1 < w && x' + 1 < w && y < h && y' < h
      ensures Id(x, y, w) < |uf.rep| && Id(x', y', w) < |uf.rep|
      ensures uf.rep[Id(x, y, w)] == uf.rep[Id(x', y', w)] <==> FullyConnected(im, w, h, Id(x, y, w), Id(x', y', w))
    {
      SkippingIsExact(uf.rep, uf.links, im, w, h, x, y, x', y');
    }
  }
}
