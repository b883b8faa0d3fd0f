/** Connections as paths: what "connected" means for links and for pixels, step by step. */
module PixelPaths {
  import opened UnionFind
  import opened Components
  import opened EdgePoints

  // ----- links -----

  predicate Linked(links: set<(nat, nat)>, a: nat, b: nat) { (a, b) in links || (b, a) in links }

  predicate IsLinkPath(path: seq<nat>, links: set<(nat, nat)>) {
    path != [] && forall k :: 0 <= k < |path| - 1 ==> Linked(links, path[k], path[k + 1])
  }

  ghost predicate LinkPath(links: set<(nat, nat)>, a: nat, b: nat) {
    exists path: seq<nat> :: IsLinkPath(path, links) && path[0] == a && path[|path| - 1] == b
  }

  lemma {:induction false} PathRespected(f: seq<nat>, links: set<(nat, nat)>, path: seq<nat>)
    requires Respects(f, links) && IsLinkPath(path, links) && path[0] < |f|
    ensures path[|path| - 1] < |f| && f[path[0]] == f[path[|path| - 1]]
    decreases |path|
  {
    if |path| > 1 {
      var n := |path| - 1;
      PathRespected(f, links, path[..n]);
      assert Linked(links, path[n - 1], path[n]);
    }
  }

  lemma LongerPath(links: set<(nat, nat)>, a: nat, b: nat, c: nat)
    requires LinkPath(links, a, b) && Linked(links, b, c)
    ensures LinkPath(links, a, c)
  {
    var path: seq<nat> :| IsLinkPath(path, links) && path[0] == a && path[|path| - 1] == b;
    var more := path + [c];
    assert IsLinkPath(more, links) && more[0] == a && more[|more| - 1] == c;
  }

  /** The elements that a path leads to from `a` are labelled 1, the others 0. */
  ghost function ReachedFrom(links: set<(nat, nat)>, n: nat, a: nat): seq<nat> {
    seq(n, (i: nat) => if LinkPath(links, a, i) then 1 else 0)
  }

  /** Two elements are connected exactly when a path of links leads from one to the other. */
  lemma ConnectedIsPath(links: set<(nat, nat)>, n: nat, a: nat, b: nat)
    requires a < n && b < n && forall e :: e in links ==> e.0 < n && e.1 < n
    ensures Connected(links, n, a, b) <==> LinkPath(links, a, b)
  {
    hide LinkPath;
    if LinkPath(links, a, b) {
      var path := TheLinkPath(links, a, b);
      forall f: seq<nat> | |f| == n && Respects(f, links) ensures f[a] == f[b] {
        PathRespected(f, links, path);
      }
    }
    if Connected(links, n, a, b) {
      var f := ReachedFrom(links, n, a);
      forall e | e in links ensures e.0 < |f| && e.1 < |f| && f[e.0] == f[e.1] {
        if LinkPath(links, a, e.0) { LongerPath(links, a, e.0, e.1); }
        if LinkPath(links, a, e.1) { LongerPath(links, a, e.1, e.0); }
      }
      assert Respects(f, links);
      SelfPath(links, a);
      assert f[a] == f[b];
    }
  }

  lemma TheLinkPath(links: set<(nat, nat)>, a: nat, b: nat) returns (path: seq<nat>)
    requires LinkPath(links, a, b)
    ensures IsLinkPath(path, links) && path[0] == a && path[|path| - 1] == b
  {
    path :| IsLinkPath(path, links) && path[0] == a && path[|path| - 1] == b;
  }

  lemma SelfPath(links: set<(nat, nat)>, a: nat)
    ensures LinkPath(links, a, a)
  {
    assert IsLinkPath([a], links) && [a][0] == a;
  }

  /** In a forest two elements have the same representative exactly when a path of links leads from one to
      the other. */
  lemma SameIsPath(rep: seq<nat>, links: set<(nat, nat)>, a: nat, b: nat)
    requires Finest(rep, links) && a < |rep| && b < |rep|
    ensures rep[a] == rep[b] <==> LinkPath(links, a, b)
  {
    SameIsConnected(rep, links, a, b);
    assert Respects(rep, links);
    ConnectedIsPath(links, |rep|, a, b);
  }

  // ----- pixels -----

  /** The one that the scan comes to last. */
  function Later(p: Pixel, q: Pixel): Pixel { if First(p, q) == p then q else p }

  /** Two pixels of the same region: they touch, are both black or both white, side by side or, if they
      are white, corner to corner.  The scan joins them when it comes to the later one, for which it
      leaves out the outer columns. */
  predicate Neighbours(im: Image, w: nat, h: nat, p: Pixel, q: Pixel)
    requires ImageOk(im, w, h)
  {
    && Inside(p, w, h) && Inside(q, w, h) && Touch(p, q)
    && im[p.y][p.x] == im[q.y][q.x] != 127
    && (im[p.y][p.x] == 255 || p.x == q.x || p.y == q.y)
    && 1 <= Later(p, q).x && Later(p, q).x + 1 < w
  }

  predicate IsPath(path: seq<Pixel>, im: Image, w: nat, h: nat)
    requires ImageOk(im, w, h)
  {
    path != [] && forall k :: 0 <= k < |path| - 1 ==> Neighbours(im, w, h, path[k], path[k + 1])
  }

  /** One pixel can be reached from the other from neighbour to neighbour. */
  ghost predicate Region(im: Image, w: nat, h: nat, p: Pixel, q: Pixel)
    requires ImageOk(im, w, h)
  {
    exists path: seq<Pixel> :: IsPath(path, im, w, h) && path[0] == p && path[|path| - 1] == q
  }

  function IdOf(p: Pixel, w: nat): int { p.y * w + p.x }

  lemma IdInside(p: Pixel, w: nat, h: nat)
    requires Inside(p, w, h)
    ensures 0 <= IdOf(p, w) == Id(p.x, p.y, w) < w * h
  {
    IdBelow(p.x, p.y, w, h);
  }

  /** A labelling gives neighbours the same label. */
  ghost predicate SameForNeighbours(f: seq<nat>, im: Image, w: nat, h: nat)
    requires ImageOk(im, w, h) && |f| == w * h + 1
  {
    forall p, q :: Neighbours(im, w, h, p, q) ==> SameLabel(f, p, q, w)
  }

  predicate SameLabel(f: seq<nat>, p: Pixel, q: Pixel, w: nat) {
    0 <= IdOf(p, w) < |f| && 0 <= IdOf(q, w) < |f| && f[IdOf(p, w)] == f[IdOf(q, w)]
  }

  lemma NeighbourRespected(f: seq<nat>, im: Image, w: nat, h: nat, p: Pixel, q: Pixel)
    requires ImageOk(im, w, h) && |f| == w * h + 1 && FullRespects(f, im, w, h) && Neighbours(im, w, h, p, q)
    ensures SameLabel(f, p, q, w)
  {
    hide Id, IdOf, FullRespects;
    IdInside(p, w, h);
    IdInside(q, w, h);
    var l := Later(p, q);
    PixelRespected(f, im, w, h, l.x, l.y);
  }

  lemma PixelRespected(f: seq<nat>, im: Image, w: nat, h: nat, x: nat, y: nat)
    requires ImageOk(im, w, h) && FullRespects(f, im, w, h) && 1 <= x && x + 1 < w && y < h
    ensures FullPixel(f, im, w, h, x, y)
  {
    hide FullPixel;
  }

  /** If all neighbours have the same label one edge of the scan is respected. */
  lemma EdgeRespected(f: seq<nat>, im: Image, w: nat, h: nat, x: nat, y: nat, x': nat, y': nat)
    requires ImageOk(im, w, h) && |f| == w * h + 1 && SameForNeighbours(f, im, w, h)
    requires 1 <= x && x + 1 < w && y < h && x' < w && y' < h && im[y][x] != 127
    requires (y' == y && x' == x - 1) || (y' == y - 1 && x' == x) || (y' == y - 1 && (x' == x - 1 || x' == x + 1) && im[y][x] == 255)
    ensures EdgeOk(f, im, w, x, y, x', y')
  {
    hide SameForNeighbours, Id, IdOf;
    if im[y][x] == im[y'][x'] {
      var p, q := Pixel(x, y), Pixel(x', y');
      assert Neighbours(im, w, h, p, q);
      SameByNeighbours(f, im, w, h, p, q);
      IdInside(p, w, h);
      IdInside(q, w, h);
    }
  }

  lemma SameByNeighbours(f: seq<nat>, im: Image, w: nat, h: nat, p: Pixel, q: Pixel)
    requires ImageOk(im, w, h) && |f| == w * h + 1 && SameForNeighbours(f, im, w, h) && Neighbours(im, w, h, p, q)
    ensures SameLabel(f, p, q, w)
  {
    hide Neighbours, SameLabel;
  }

  /** The scan that performs every union joins exactly the neighbours. */
  lemma FullIsNeighbours(f: seq<nat>, im: Image, w: nat, h: nat)
    requires ImageOk(im, w, h) && |f| == w * h + 1
    ensures FullRespects(f, im, w, h) <==> SameForNeighbours(f, im, w, h)
  {
    hide EdgeOk, Neighbours, SameLabel, Id;
    if FullRespects(f, im, w, h) {
      forall p, q | Neighbours(im, w, h, p, q) ensures SameLabel(f, p, q, w) {
        hide FullRespects;
        NeighbourRespected(f, im, w, h, p, q);
      }
    }
    if SameForNeighbours(f, im, w, h) {
      forall x: nat, y: nat | 1 <= x && x + 1 < w && y < h ensures FullPixel(f, im, w, h, x, y) {
        hide SameForNeighbours;
        if im[y][x] != 127 {
          EdgeRespected(f, im, w, h, x, y, x - 1, y);
          if y > 0 {
            EdgeRespected(f, im, w, h, x, y, x, y - 1);
            if im[y][x] == 255 {
              EdgeRespected(f, im, w, h, x, y, x - 1, y - 1);
              EdgeRespected(f, im, w, h, x, y, x + 1, y - 1);
            }
          }
        }
      }
    }
  }

  lemma {:induction false} RegionRespected(f: seq<nat>, im: Image, w: nat, h: nat, path: seq<Pixel>)
    requires ImageOk(im, w, h) && |f| == w * h + 1 && SameForNeighbours(f, im, w, h) && IsPath(path, im, w, h) && Inside(path[0], w, h)
    ensures SameLabel(f, path[0], path[|path| - 1], w)
    decreases |path|
  {
    hide Neighbours, SameForNeighbours, IdOf;
    if |path| > 1 {
      var n := |path| - 1;
      RegionRespected(f, im, w, h, path[..n]);
      assert Neighbours(im, w, h, path[n - 1], path[n]);
      SameByNeighbours(f, im, w, h, path[n - 1], path[n]);
    } else {
      IdInside(path[0], w, h);
    }
  }

  lemma LargerRegion(im: Image, w: nat, h: nat, p: Pixel, q: Pixel, r: Pixel)
    requires ImageOk(im, w, h) && Region(im, w, h, p, q) && Neighbours(im, w, h, q, r)
    ensures Region(im, w, h, p, r)
  {
    hide Neighbours;
    var path: seq<Pixel> :| IsPath(path, im, w, h) && path[0] == p && path[|path| - 1] == q;
    var more := path + [r];
    assert IsPath(more, im, w, h) && more[0] == p && more[|more| - 1] == r;
  }

  lemma SelfRegion(im: Image, w: nat, h: nat, p: Pixel)
    requires ImageOk(im, w, h)
    ensures Region(im, w, h, p, p)
  {
    assert IsPath([p], im, w, h) && [p][0] == p;
  }

  lemma TheRegionPath(im: Image, w: nat, h: nat, p: Pixel, q: Pixel) returns (path: seq<Pixel>)
    requires ImageOk(im, w, h) && Region(im, w, h, p, q)
    ensures IsPath(path, im, w, h) && path[0] == p && path[|path| - 1] == q
  {
    path :| IsPath(path, im, w, h) && path[0] == p && path[|path| - 1] == q;
  }

  lemma NeighboursSym(im: Image, w: nat, h: nat, p: Pixel, q: Pixel)
    requires ImageOk(im, w, h) && Neighbours(im, w, h, p, q)
    ensures Neighbours(im, w, h, q, p)
  {
  }

  /** The element is that of a pixel in the region of `p`. */
  ghost predicate Reached(im: Image, w: nat, h: nat, p: Pixel, i: nat)
    requires ImageOk(im, w, h)
  {
    exists q :: Inside(q, w, h) && IdOf(q, w) == i && Region(im, w, h, p, q)
  }

  ghost function RegionOf(im: Image, w: nat, h: nat, p: Pixel): seq<nat>
    requires ImageOk(im, w, h)
  {
    seq(w * h + 1, (i: nat) => if Reached(im, w, h, p, i) then 1 else 0)
  }

  lemma ReachedIs(im: Image, w: nat, h: nat, p: Pixel, q: Pixel)
    requires ImageOk(im, w, h) && Inside(q, w, h)
    ensures 0 <= IdOf(q, w) && (Reached(im, w, h, p, IdOf(q, w)) <==> Region(im, w, h, p, q))
  {
    hide Region;
    IdInside(q, w, h);
    if Reached(im, w, h, p, IdOf(q, w)) {
      var r :| Inside(r, w, h) && IdOf(r, w) == IdOf(q, w) && Region(im, w, h, p, r);
      IdInside(r, w, h);
      IdInjective(r.x, r.y, q.x, q.y, w);
    }
  }

  lemma RegionIsClosed(im: Image, w: nat, h: nat, p: Pixel)
    requires ImageOk(im, w, h)
    ensures SameForNeighbours(RegionOf(im, w, h, p), im, w, h)
  {
    hide Region, Reached, IdOf;
    var f := RegionOf(im, w, h, p);
    forall q, r | Neighbours(im, w, h, q, r) ensures SameLabel(f, q, r, w) {
      ReachedIs(im, w, h, p, q);
      ReachedIs(im, w, h, p, r);
      IdInside(q, w, h);
      IdInside(r, w, h);
      NeighboursSym(im, w, h, q, r);
      if Region(im, w, h, p, q) { LargerRegion(im, w, h, p, q, r); }
      if Region(im, w, h, p, r) { LargerRegion(im, w, h, p, r, q); }
    }
  }

  /** The scan that performs every union connects two pixels exactly when one can be reached from the other
      from neighbour to neighbour. */
  lemma FullyConnectedIsRegion(im: Image, w: nat, h: nat, p: Pixel, q: Pixel)
    requires ImageOk(im, w, h) && Inside(p, w, h) && Inside(q, w, h)
    ensures 0 <= IdOf(p, w) <= w * h && 0 <= IdOf(q, w) <= w * h
    ensures FullyConnected(im, w, h, IdOf(p, w), IdOf(q, w)) <==> Region(im, w, h, p, q)
  {
    hide Region, Reached, IdOf, FullRespects, SameForNeighbours;
    IdInside(p, w, h);
    IdInside(q, w, h);
    if Region(im, w, h, p, q) {
      var path := TheRegionPath(im, w, h, p, q);
      forall f: seq<nat> | |f| == w * h + 1 && FullRespects(f, im, w, h) ensures f[IdOf(p, w)] == f[IdOf(q, w)] {
        FullIsNeighbours(f, im, w, h);
        RegionRespected(f, im, w, h, path);
      }
    }
    if FullyConnected(im, w, h, IdOf(p, w), IdOf(q, w)) {
      var f := RegionOf(im, w, h, p);
      RegionIsClosed(im, w, h, p);
      FullIsNeighbours(f, im, w, h);
      SelfRegion(im, w, h, p);
      ReachedIs(im, w, h, p, p);
      ReachedIs(im, w, h, p, q);
    }
  }

  /** What the scan that skips unions makes of an image: on all columns but the last two pixels have the same
      representative exactly when one can be reached from the other from neighbour to neighbour. */
  lemma TreesAreRegions(rep: seq<nat>, links: set<(nat, nat)>, im: Image, w: nat, h: nat, p: Pixel, q: Pixel)
    requires ImageOk(im, w, h) && |rep| == w * h + 1 && Finest(rep, links) && Scanned(links, im, w, h, 1, h)
    requires Inside(p, w, h) && Inside(q, w, h) && p.x + 1 < w && q.x + 1 < w
    ensures SameLabel(rep, p, q, w) <==> Region(im, w, h, p, q)
  {
    hide Finest, Scanned, Region, FullyConnected, Id, IdOf;
    IdInside(p, w, h);
    IdInside(q, w, h);
    SkippingIsExact(rep, links, im, w, h, p.x, p.y, q.x, q.y);
    FullyConnectedIsRegion(im, w, h, p, q);
  }
}
