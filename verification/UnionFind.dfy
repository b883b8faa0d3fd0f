/** The union-find structure: trees in an array, joined by size, with paths collapsed when they
    are walked. */
module UnionFind {

  /** A labelling gives both ends of every link the same label. */
  ghost predicate Respects(f: seq<nat>, links: set<(nat, nat)>) {
    forall e :: e in links ==> e.0 < |f| && e.1 < |f| && f[e.0] == f[e.1]
  }

  /** Every labelling of `n` elements that respects the links labels `a` and `b` alike; that is,
      `a` and `b` are joined by a path of links. */
  ghost predicate Connected(links: set<(nat, nat)>, n: nat, a: nat, b: nat)
    requires a < n && b < n
  {
    forall f: seq<nat> :: |f| == n && Respects(f, links) ==> f[a] == f[b]
  }

  /** How many elements of `s` are `x`. */
  function Count(s: seq<nat>, x: nat): nat {
    if s == [] then 0 else (if s[0] == x then 1 else 0) + Count(s[1..], x)
  }

  function Merged(rep: seq<nat>, a: nat, b: nat, root: nat): seq<nat> {
    seq(|rep|, (i: nat) requires i < |rep| => if rep[i] == a || rep[i] == b then root else rep[i])
  }

  lemma {:induction false} CountBound(s: seq<nat>, x: nat, y: nat)
    ensures Count(s, x) <= |s|
    ensures x != y ==> Count(s, x) + Count(s, y) <= |s|
  {
    if s != [] { CountBound(s[1..], x, y); }
  }

  lemma {:induction false} CountMerged(rep: seq<nat>, a: nat, b: nat, root: nat, x: nat)
    requires a != b && (root == a || root == b)
    ensures Count(Merged(rep, a, b, root), x) ==
            if x == root then Count(rep, a) + Count(rep, b) else if x == a || x == b then 0 else Count(rep, x)
  {
    if rep != [] {
      assert Merged(rep, a, b, root)[1..] == Merged(rep[1..], a, b, root);
      CountMerged(rep[1..], a, b, root, x);
    }
  }

  lemma {:induction false} CountUnique(s: seq<nat>, lo: nat, x: nat)
    requires forall i :: 0 <= i < |s| ==> s[i] == lo + i
    ensures Count(s, x) == if lo <= x < lo + |s| then 1 else 0
  {
    if s != [] { CountUnique(s[1..], lo + 1, x); }
  }

  /** One more link joins two classes. */
  lemma LinkMerges(rep: seq<nat>, links: set<(nat, nat)>, a: nat, b: nat, root: nat)
    requires a < |rep| && b < |rep| && Finest(rep, links) && (root == rep[a] || root == rep[b])
    ensures Finest(Merged(rep, rep[a], rep[b], root), links + {(a, b)})
  {
    var rep' := Merged(rep, rep[a], rep[b], root);
    forall f: seq<nat>, i: nat | |f| == |rep| && Respects(f, links + {(a, b)}) && i < |rep| ensures f[i] == f[rep'[i]] {
      assert Respects(f, links) by {
        forall e | e in links ensures e.0 < |f| && e.1 < |f| && f[e.0] == f[e.1] {
          assert e in links + {(a, b)};
        }
      }
      assert (a, b) in links + {(a, b)};
      assert f[i] == f[rep[i]] && f[a] == f[rep[a]] && f[b] == f[rep[b]];
    }
  }

  /** `rep` labels exactly the classes that the links generate, each by one of its members. */
  ghost predicate Finest(rep: seq<nat>, links: set<(nat, nat)>) {
    && Respects(rep, links)
    && (forall i :: 0 <= i < |rep| ==> rep[i] < |rep|)
    && (forall f: seq<nat>, i: nat :: |f| == |rep| && Respects(f, links) && i < |rep| ==> f[i] == f[rep[i]])
  }

  /** Two elements have the same representative exactly when the links connect them. */
  lemma SameIsConnected(rep: seq<nat>, links: set<(nat, nat)>, a: nat, b: nat)
    requires Finest(rep, links) && a < |rep| && b < |rep|
    ensures rep[a] == rep[b] <==> Connected(links, |rep|, a, b)
  {
    if rep[a] == rep[b] {
      forall f: seq<nat> | |f| == |rep| && Respects(f, links) ensures f[a] == f[b] {
        assert f[a] == f[rep[a]] && f[b] == f[rep[b]];
      }
    }
  }

  /** The parent of an element leads to the representative, towards a bigger tree; a root knows
      its tree's size. */
  ghost predicate NodeOk(parent: seq<nat>, size: seq<nat>, rep: seq<nat>, i: nat)
    requires i < |parent| == |size| == |rep|
  {
    var n, p, r := |rep|, parent[i], rep[i];
    && p < n && r < n && rep[p] == r
    && parent[r] == r && rep[r] == r
    && 1 <= size[i] <= n
    && (p != i ==> size[i] < size[p] && size[i] < size[r])
    && (p == i ==> r == i && size[i] == Count(rep, i))
  }

  ghost predicate TreesOk(parent: seq<nat>, size: seq<nat>, rep: seq<nat>) {
    && |parent| == |size| == |rep|
    && (forall i: nat :: i < |rep| ==> NodeOk(parent, size, rep, i))
  }

  /** Hanging an element that is not a root directly below its root. */
  lemma Collapsed(parent: seq<nat>, size: seq<nat>, rep: seq<nat>, i: nat)
    requires TreesOk(parent, size, rep) && i < |rep| && parent[i] != i
    ensures TreesOk(parent[i := rep[i]], size, rep)
  {
    hide Count;
    assert NodeOk(parent, size, rep, i);
    var parent' := parent[i := rep[i]];
    forall k: nat | k < |rep| ensures NodeOk(parent', size, rep, k) {
      assert NodeOk(parent, size, rep, k);
    }
  }

  /** Hanging the tree of root `child` below `root`. */
  lemma Joined(parent: seq<nat>, size: seq<nat>, rep: seq<nat>, child: nat, root: nat)
    requires TreesOk(parent, size, rep) && child < |rep| && root < |rep| && child != root
    requires parent[child] == child && parent[root] == root && size[child] <= size[root]
    ensures TreesOk(parent[child := root], size[root := size[root] + size[child]], Merged(rep, child, root, root))
  {
    hide Count;
    var rep' := Merged(rep, child, root, root);
    CountBound(rep, child, root);
    assert NodeOk(parent, size, rep, child) && NodeOk(parent, size, rep, root);
    var parent', size' := parent[child := root], size[root := size[root] + size[child]];
    forall i: nat | i < |rep| ensures NodeOk(parent', size', rep', i) {
      CountMerged(rep, child, root, root, i);
      assert NodeOk(parent, size, rep, i);
      assert NodeOk(parent, size, rep, parent[i]) && NodeOk(parent, size, rep, rep[i]);
    }
  }

  lemma SingleTrees(n: nat)
    ensures var ids := seq(n, (i: nat) => i);
            TreesOk(ids, seq(n, _ => 1), ids) && Finest(ids, {})
  {
    var ids := seq(n, (i: nat) => i);
    forall i: nat | i < n ensures Count(ids, i) == 1 {
      CountUnique(ids, 0, i);
    }
  }

  class Forest {
    const maxid: nat
    const parent: array<nat>
    const size: array<nat>
    ghost var rep: seq<nat>
    ghost var links: set<(nat, nat)>

    ghost predicate Valid()
      reads this, parent, size
    {
      && parent.Length == size.Length == |rep| == maxid + 1 && parent != size
      && TreesOk(parent[..], size[..], rep)
      && Finest(rep, links)
    }

    constructor (maxid: nat)
      ensures Valid() && fresh(parent) && fresh(size)
      ensures this.maxid == maxid && links == {}
    {
      this.maxid := maxid;
      parent := new nat[maxid + 1](i => i);
      size := new nat[maxid + 1](_ => 1);
      rep := seq(maxid + 1, (i: nat) => i);
      links := {};
      new;
      SingleTrees(maxid + 1);
      assert parent[..] == rep;
      assert size[..] == seq(maxid + 1, _ => 1);
    }

    /** Chases down the root. */
    method FindRoot(id: nat) returns (root: nat)
      requires Valid() && id <= maxid
      ensures root == rep[id] <= maxid && parent[root] == root
    {
      hide Finest, Count;
      root := id;
      while parent[root] != root
        invariant root <= maxid && rep[root] == rep[id]
        decreases maxid + 1 - size[root]
      {
        assert NodeOk(parent[..], size[..], rep, root) && NodeOk(parent[..], size[..], rep, parent[root]);
        root := parent[root];
      }
      assert NodeOk(parent[..], size[..], rep, root);
    }

    /** Goes back and collapses the path. */
    method CollapsePath(id: nat, root: nat)
      requires Valid() && id <= maxid && root == rep[id] <= maxid && parent[root] == root
      modifies parent
      ensures Valid() && parent[id] == root
    {
      hide Finest, Count, TreesOk;
      var i: nat := id;
      while parent[i] != root
        invariant parent.Length == size.Length == |rep| == maxid + 1 && TreesOk(parent[..], size[..], rep)
        invariant i <= maxid && rep[i] == root && parent[root] == root && (i == id || parent[id] == root)
        decreases maxid + 1 - size[i]
      {
        var tmp := parent[i];
        ghost var before := parent[..];
        NodeFacts(before, size[..], rep, i);
        Collapsed(before, size[..], rep, i);
        parent[i] := root;
        assert parent[..] == before[i := root];
        i := tmp;
      }
    }

    /** The root of the tree that holds `id`; the path to it is collapsed on the way back. */
    method GetRepresentative(id: nat) returns (root: nat)
      requires Valid() && id <= maxid
      modifies parent
      ensures Valid() && root == rep[id] <= maxid && parent[id] == root
    {
      root := FindRoot(id);
      CollapsePath(id, root);
    }

    /** The number of elements in the tree that holds `id`. */
    method GetSetSize(id: nat) returns (n: nat)
      requires Valid() && id <= maxid
      modifies parent
      ensures Valid() && n == Count(rep, rep[id])
    {
      var repid := GetRepresentative(id);
      assert NodeOk(parent[..], size[..], rep, id) && NodeOk(parent[..], size[..], rep, repid);
      n := size[repid];
    }

    /** Hangs the tree of `child` below `root`. */
    method Attach(child: nat, root: nat)
      requires Valid() && child <= maxid && root <= maxid && child != root
      requires rep[child] == child && rep[root] == root && size[child] <= size[root]
      modifies this`rep, parent, size
      ensures parent.Length == size.Length == |rep| == maxid + 1 && TreesOk(parent[..], size[..], rep)
      ensures rep == Merged(old(rep), child, root, root)
    {
      ghost var par, sz := parent[..], size[..];
      NodeFacts(par, sz, rep, child);
      NodeFacts(par, sz, rep, root);
      Joined(par, sz, rep, child, root);
      hide Finest, Count, TreesOk;
      parent[child] := root;
      size[root] := size[root] + size[child];
      rep := Merged(rep, child, root, root);
      assert parent[..] == par[child := root] && size[..] == sz[root := sz[root] + sz[child]];
    }

    /** Joins the trees of `a` and `b`, the one with fewer elements below the other. */
    method Connect(a: nat, b: nat) returns (root: nat)
      requires Valid() && a <= maxid && b <= maxid
      modifies this, parent, size
      ensures Valid() && links == old(links) + {(a, b)}
      ensures rep == Merged(old(rep), old(rep)[a], old(rep)[b], root)
      ensures var ra, rb := old(rep)[a], old(rep)[b];
              root == if Count(old(rep), ra) > Count(old(rep), rb) then ra else rb
    {
      hide Finest, Count, TreesOk, NodeOk;
      var aroot := GetRepresentative(a);
      var broot := GetRepresentative(b);
      ghost var before := rep;
      RootsAre(parent[..], size[..], rep, a);
      RootsAre(parent[..], size[..], rep, b);
      RootSize(parent[..], size[..], rep, a);
      RootSize(parent[..], size[..], rep, b);
      if aroot == broot {
        root := aroot;
        SameMerged(rep, aroot);
      } else {
        if size[aroot] > size[broot] {
          root := aroot;
          Attach(broot, aroot);
        } else {
          root := broot;
          Attach(aroot, broot);
        }
        MergedEither(before, aroot, broot, root);
      }
      LinkMerges(before, links, a, b, root);
      links := links + {(a, b)};
    }
  }

  lemma NodeFacts(parent: seq<nat>, size: seq<nat>, rep: seq<nat>, i: nat)
    requires TreesOk(parent, size, rep) && i < |rep|
    ensures parent[i] < |rep| && rep[i] < |rep| && rep[parent[i]] == rep[i] && 1 <= size[i] <= |rep|
    ensures parent[i] != i ==> size[i] < size[parent[i]] <= |rep|
    ensures parent[i] != rep[i] ==> parent[i] != i
    ensures rep[i] == i ==> parent[i] == i
  {
    assert NodeOk(parent, size, rep, i);
    assert NodeOk(parent, size, rep, parent[i]);
  }

  lemma RootsAre(parent: seq<nat>, size: seq<nat>, rep: seq<nat>, i: nat)
    requires TreesOk(parent, size, rep) && i < |rep|
    ensures rep[i] < |rep| && rep[rep[i]] == rep[i]
  {
    assert NodeOk(parent, size, rep, i);
  }

  lemma RootSize(parent: seq<nat>, size: seq<nat>, rep: seq<nat>, i: nat)
    requires TreesOk(parent, size, rep) && i < |rep|
    ensures rep[i] < |size| && size[rep[i]] == Count(rep, rep[i])
  {
    assert NodeOk(parent, size, rep, i);
    assert NodeOk(parent, size, rep, rep[i]);
  }

  lemma SameMerged(rep: seq<nat>, r: nat)
    ensures Merged(rep, r, r, r) == rep
  {
  }

  lemma MergedEither(rep: seq<nat>, a: nat, b: nat, root: nat)
    ensures Merged(rep, a, b, root) == Merged(rep, b, a, root)
  {
  }
}
