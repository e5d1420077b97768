/** The parent-link forest of a disjoint-set union and the partition it represents.
    Shared by the sequential and the lock-free union-find. */
module DisjointSets {
  import opened Graphs

  /** Linking order: higher priority first, ties broken towards the smaller id. */
  predicate Above(prio: seq<nat>, a: nat, b: nat)
    requires a < |prio| && b < |prio|
  {
    prio[a] > prio[b] || (prio[a] == prio[b] && a < b)
  }

  /** The two conditional swaps of `order_edge`: the first result is the new root, the second its child. */
  function OrderEdge(prio: seq<nat>, a: nat, b: nat): (r: (nat, nat))
    requires a < |prio| && b < |prio|
    ensures r == (a, b) || r == (b, a)
    ensures a != b ==> Above(prio, r.0, r.1)
  {
    var (x, y) := if prio[a] == prio[b] && a > b then (b, a) else (a, b);
    if prio[x] < prio[y] then (y, x) else (x, y)
  }

  /** Every parent link is a self-loop or climbs strictly in the linking order. */
  ghost predicate Ascending(prio: seq<nat>, parent: seq<nat>) {
    && |parent| == |prio|
    && (forall i :: 0 <= i < |parent| ==> parent[i] < |parent|)
    && (forall i :: 0 <= i < |parent| ==> parent[i] == i || Above(prio, parent[i], i))
  }

  /** How many vertices stand above `u`: bounds the length of any climb from `u`. */
  ghost function Height(prio: seq<nat>, u: nat): nat
    requires u < |prio|
  {
    |set w: nat | w < |prio| && Above(prio, w, u)|
  }

  function Upto(lo: nat, hi: nat): (s: set<nat>)
    ensures forall t: nat :: t in s <==> lo <= t < hi
    decreases hi
  {
    if hi <= lo then {} else Upto(lo, hi - 1) + {hi - 1}
  }

  lemma ProperSubsetSmaller(a: set<nat>, b: set<nat>, x: nat)
    requires a <= b && x in b && x !in a
    ensures |a| < |b|
  {
    var c := b - {x};
    SubsetSize(a, c);
  }

  lemma {:induction false} SubsetSize<T>(a: set<T>, b: set<T>)
    requires a <= b
    ensures |a| <= |b|
    decreases a
  {
    if a != {} {
      var x :| x in a;
      SubsetSize(a - {x}, b - {x});
    }
  }

  lemma {:induction false} RangeSize(s: set<nat>, n: nat)
    requires forall x :: x in s ==> x < n
    ensures |s| <= n
  {
    if n == 0 {
      assert s == {};
    } else {
      RangeSize(s - {n - 1}, n - 1);
    }
  }

  lemma HeightDecreases(prio: seq<nat>, a: nat, b: nat)
    requires a < |prio| && b < |prio| && Above(prio, a, b)
    ensures Height(prio, a) < Height(prio, b)
  {
    var A := set w: nat | w < |prio| && Above(prio, w, a);
    var B := set w: nat | w < |prio| && Above(prio, w, b);
    ProperSubsetSmaller(A, B, a);
  }

  lemma HeightBounded(prio: seq<nat>, u: nat)
    requires u < |prio|
    ensures Height(prio, u) < |prio|
  {
    var A := set w: nat | w < |prio| && Above(prio, w, u);
    assert u !in A;
    ProperSubsetSmaller(A, A + {u}, u);
    RangeSize(A + {u}, |prio|);
  }

  function Root(prio: seq<nat>, parent: seq<nat>, u: nat): (r: nat)
    requires Ascending(prio, parent) && u < |parent|
    ensures r < |parent| && parent[r] == r && (r == u || Above(prio, r, u))
    decreases Height(prio, u)
  {
    if parent[u] == u then u
    else
      HeightDecreases(prio, parent[u], u);
      Root(prio, parent, parent[u])
  }

  predicate Same(prio: seq<nat>, parent: seq<nat>, x: nat, y: nat)
    requires Ascending(prio, parent) && x < |parent| && y < |parent|
  {
    Root(prio, parent, x) == Root(prio, parent, y)
  }

  function RootSet(parent: seq<nat>): set<nat> {
    set i: nat | i < |parent| && parent[i] == i
  }

  /** A path-halving write: `u` is not a root and `g` is above it in the same set. */
  lemma {:induction false} HalvingKeepsRoot(prio: seq<nat>, parent: seq<nat>, u: nat, g: nat, x: nat)
    requires Ascending(prio, parent) && u < |parent| && g < |parent| && x < |parent|
    requires parent[u] != u && Above(prio, g, u) && Same(prio, parent, u, g)
    ensures Ascending(prio, parent[u := g])
    ensures Root(prio, parent[u := g], x) == Root(prio, parent, x)
    decreases Height(prio, x)
  {
    var p' := parent[u := g];
    if x == u {
      HeightDecreases(prio, g, u);
      HalvingKeepsRoot(prio, parent, u, g, g);
    } else if parent[x] != x {
      HeightDecreases(prio, parent[x], x);
      HalvingKeepsRoot(prio, parent, u, g, parent[x]);
    }
  }

  lemma HalvingKeepsPartition(prio: seq<nat>, parent: seq<nat>, u: nat, g: nat)
    requires Ascending(prio, parent) && u < |parent| && g < |parent|
    requires parent[u] != u && Above(prio, g, u) && Same(prio, parent, u, g)
    ensures Ascending(prio, parent[u := g])
    ensures forall x :: 0 <= x < |parent| ==> Root(prio, parent[u := g], x) == Root(prio, parent, x)
    ensures RootSet(parent[u := g]) == RootSet(parent)
  {
    forall x | 0 <= x < |parent|
      ensures Root(prio, parent[u := g], x) == Root(prio, parent, x)
    {
      HalvingKeepsRoot(prio, parent, u, g, x);
    }
    assert g != u;
  }

  /** A linking write: root `b` is hung below a vertex `a` above it. */
  lemma {:induction false} LinkRoot(prio: seq<nat>, parent: seq<nat>, a: nat, b: nat, x: nat)
    requires Ascending(prio, parent) && a < |parent| && b < |parent| && x < |parent|
    requires parent[b] == b && Above(prio, a, b)
    ensures Ascending(prio, parent[b := a])
    ensures Root(prio, parent, a) != b
    ensures Root(prio, parent[b := a], x)
         == if Root(prio, parent, x) == b then Root(prio, parent, a) else Root(prio, parent, x)
    decreases Height(prio, x)
  {
    var p' := parent[b := a];
    if x == b {
      HeightDecreases(prio, a, b);
      LinkRoot(prio, parent, a, b, a);
    } else if parent[x] != x {
      HeightDecreases(prio, parent[x], x);
      LinkRoot(prio, parent, a, b, parent[x]);
    }
  }

  lemma LinkJoins(prio: seq<nat>, parent: seq<nat>, a: nat, b: nat)
    requires Ascending(prio, parent) && a < |parent| && b < |parent|
    requires parent[b] == b && Above(prio, a, b)
    ensures Ascending(prio, parent[b := a])
    ensures Root(prio, parent, a) != b
    ensures forall x :: 0 <= x < |parent| ==>
              Root(prio, parent[b := a], x) ==
              if Root(prio, parent, x) == b then Root(prio, parent, a) else Root(prio, parent, x)
    ensures RootSet(parent[b := a]) == RootSet(parent) - {b}
    ensures |RootSet(parent[b := a])| == |RootSet(parent)| - 1
  {
    forall x | 0 <= x < |parent|
      ensures Root(prio, parent[b := a], x)
           == if Root(prio, parent, x) == b then Root(prio, parent, a) else Root(prio, parent, x)
    {
      LinkRoot(prio, parent, a, b, x);
    }
    LinkRoot(prio, parent, a, b, a);
    assert a != b;
    assert RootSet(parent[b := a]) == RootSet(parent) - {b};
    assert b in RootSet(parent);
  }

  /** The parent links and the edge set `F` describe the same partition of the vertices, and `F` has no cycle. */
  ghost predicate Represents(prio: seq<nat>, parent: seq<nat>, F: set<Edge>) {
    && Ascending(prio, parent)
    && Acyclic(F)
    && (forall e :: e in F ==> e.src < |parent| && e.dst < |parent|)
    && (forall x: nat, y: nat :: x < |parent| && y < |parent| ==> (Same(prio, parent, x, y) <==> Connected(F, x, y)))
  }

  /** Linking the sets of the two ends of `e` adds exactly the edge `e` to the represented forest. */
  lemma LinkKeepsRepresents(prio: seq<nat>, parent: seq<nat>, F: set<Edge>, e: Edge, a: nat, b: nat)
    requires Represents(prio, parent, F)
    requires e.src < |parent| && e.dst < |parent| && a < |parent| && b < |parent|
    requires parent[b] == b && Above(prio, a, b)
    requires (Same(prio, parent, e.src, a) && Same(prio, parent, e.dst, b))
          || (Same(prio, parent, e.src, b) && Same(prio, parent, e.dst, a))
    ensures !Same(prio, parent, e.src, e.dst) && e !in F
    ensures Represents(prio, parent[b := a], F + {e})
  {
    var q := parent[b := a];
    LinkJoins(prio, parent, a, b);
    assert !Connected(F, e.src, e.dst);
    if e in F { ConnectedEdge(F, e); assert false; }
    AcyclicAdd(F, e);
    forall x: nat, y: nat | x < |q| && y < |q|
      ensures Same(prio, q, x, y) <==> Connected(F + {e}, x, y)
    {
      ConnectedAdd(F, e, x, y);
      SameThroughLink(prio, parent, F, e, a, b, x, y);
    }
  }

  lemma SameThroughLink(prio: seq<nat>, parent: seq<nat>, F: set<Edge>, e: Edge, a: nat, b: nat, x: nat, y: nat)
    requires Represents(prio, parent, F)
    requires e.src < |parent| && e.dst < |parent| && a < |parent| && b < |parent| && x < |parent| && y < |parent|
    requires parent[b] == b && Above(prio, a, b)
    requires (Same(prio, parent, e.src, a) && Same(prio, parent, e.dst, b))
          || (Same(prio, parent, e.src, b) && Same(prio, parent, e.dst, a))
    ensures Ascending(prio, parent[b := a])
    ensures Same(prio, parent[b := a], x, y) <==> ThroughEdge(F, e, x, y)
  {
    LinkRoot(prio, parent, a, b, x);
    LinkRoot(prio, parent, a, b, y);
    assert Connected(F, x, y) <==> Same(prio, parent, x, y);
    assert Connected(F, x, e.src) <==> Same(prio, parent, x, e.src);
    assert Connected(F, x, e.dst) <==> Same(prio, parent, x, e.dst);
    assert Connected(F, e.src, y) <==> Same(prio, parent, e.src, y);
    assert Connected(F, e.dst, y) <==> Same(prio, parent, e.dst, y);
  }

  /** Fresh or reset union-find: everything is its own root and the forest is empty. */
  lemma IdentityRepresents(prio: seq<nat>)
    ensures var p := seq(|prio|, i => i);
            && Represents(prio, p, {})
            && (forall x :: 0 <= x < |prio| ==> Root(prio, p, x) == x)
            && |RootSet(p)| == |prio|
  {
    var p: seq<nat> := seq(|prio|, i => i);
    forall x: nat, y: nat | x < |p| && y < |p|
      ensures Same(prio, p, x, y) <==> Connected({}, x, y)
    {
      if x == y { ConnectedRefl({}, x); }
      if Connected({}, x, y) { ConnectedInClosed({}, {x}, x, y); }
    }
    FullRangeSize(RootSet(p), |prio|);
  }

  lemma {:induction false} FullRangeSize(s: set<nat>, n: nat)
    requires forall x: nat :: x in s <==> x < n
    ensures |s| == n
  {
    if n > 0 {
      FullRangeSize(s - {n - 1}, n - 1);
    }
  }

  /** Both arrays have the same roots: path halving cannot be told apart from outside. */
  ghost predicate SameRoots(prio: seq<nat>, a: seq<nat>, b: seq<nat>) {
    && Ascending(prio, a) && Ascending(prio, b) && RootSet(a) == RootSet(b)
    && (forall x: nat :: x < |prio| ==> Root(prio, a, x) == Root(prio, b, x))
  }

  lemma SameRootsRepresents(prio: seq<nat>, a: seq<nat>, b: seq<nat>, F: set<Edge>)
    requires Represents(prio, a, F) && SameRoots(prio, a, b)
    ensures Represents(prio, b, F)
  {
    forall x: nat, y: nat | x < |b| && y < |b| ensures Same(prio, b, x, y) <==> Connected(F, x, y) {
      assert Same(prio, a, x, y) <==> Connected(F, x, y);
    }
  }

  lemma SameRootsTrans(prio: seq<nat>, a: seq<nat>, b: seq<nat>, c: seq<nat>)
    requires SameRoots(prio, a, b) && SameRoots(prio, b, c)
    ensures SameRoots(prio, a, c)
  {
  }

  lemma SameRootsRefl(prio: seq<nat>, a: seq<nat>)
    requires Ascending(prio, a)
    ensures SameRoots(prio, a, a)
  {
  }

  // ---------- the sequential operations on the array ----------

  lemma HalveOnce(prio: seq<nat>, start: seq<nat>, now: seq<nat>, u: nat)
    requires SameRoots(prio, start, now) && u < |now| && now[now[u]] != now[u]
    ensures var g := now[now[u]];
            && SameRoots(prio, start, now[u := g]) && g < |now| && Root(prio, now[u := g], g) == Root(prio, now, u)
            && Height(prio, g) < Height(prio, u)
  {
    var v := now[u];
    var g := now[v];
    assert Above(prio, v, u) && Above(prio, g, v);
    HeightDecreases(prio, v, u);
    HeightDecreases(prio, g, v);
    assert Same(prio, now, u, g);
    HalvingKeepsPartition(prio, now, u, g);
  }

  /** The array after `find_root(u)`: every vertex visited is hung below its grandparent, which is visited next. */
  function HalveUp(prio: seq<nat>, parent: seq<nat>, u: nat): (q: seq<nat>)
    requires Ascending(prio, parent) && u < |parent|
    ensures SameRoots(prio, parent, q)
    decreases Height(prio, u)
  {
    if parent[parent[u]] == parent[u] then parent
    else
      HalveOnce(prio, parent, parent, u);
      HalveUp(prio, parent[u := parent[parent[u]]], parent[parent[u]])
  }

  /** The array after `merge(a, b)`. */
  function MergedArray(prio: seq<nat>, parent: seq<nat>, a: nat, b: nat): seq<nat>
    requires Ascending(prio, parent) && a < |parent| && b < |parent|
  {
    var q := HalveUp(prio, HalveUp(prio, parent, a), b);
    var (top, below) := OrderEdge(prio, Root(prio, q, a), Root(prio, q, b));
    if top == below then q else q[below := top]
  }
}
