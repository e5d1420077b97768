/** The reference checker of the test suite (`GraphVerifier`): what it accepts is right, and when its cached answer
    goes stale. */
module GraphVerifiers {
  import opened Graphs
  import opened DisjointSets
  import opened QueryLoop
  import opened SequentialDsu

  /** Row i of the matrix holds the pairs (i, i), (i, i + 1), ..., (i, n - 1). */
  ghost predicate Shaped(adj: seq<seq<bool>>, n: nat) {
    |adj| == n && forall i :: 0 <= i < n ==> |adj[i]| == n - i
  }

  ghost predicate HasEdge(adj: seq<seq<bool>>, e: Edge) {
    e.src < |adj| && e.src <= e.dst && e.dst - e.src < |adj[e.src]| && adj[e.src][e.dst - e.src]
  }

  ghost function EdgesOf(adj: seq<seq<bool>>): set<Edge> {
    set i, j | 0 <= i < |adj| && 0 <= j < |adj[i]| && adj[i][j] :: Edge(i, i + j)
  }

  lemma EdgesOfMember(adj: seq<seq<bool>>, e: Edge)
    ensures e in EdgesOf(adj) <==> HasEdge(adj, e)
  {
    if HasEdge(adj, e) {
      var i, j := e.src, e.dst - e.src;
      assert 0 <= i < |adj| && 0 <= j < |adj[i]| && adj[i][j];
      assert Edge(i, i + j) == e;
    }
  }

  function FlipAt(adj: seq<seq<bool>>, i: nat, j: nat): seq<seq<bool>>
    requires i < |adj| && j < |adj[i]|
  {
    adj[i := adj[i][j := !adj[i][j]]]
  }

  lemma FlipEdges(adj: seq<seq<bool>>, i: nat, j: nat)
    requires i < |adj| && j < |adj[i]|
    ensures EdgesOf(FlipAt(adj, i, j)) ==
            if adj[i][j] then EdgesOf(adj) - {Edge(i, i + j)} else EdgesOf(adj) + {Edge(i, i + j)}
  {
    var now := FlipAt(adj, i, j);
    forall e: Edge ensures e in EdgesOf(now) <==> if e == Edge(i, i + j) then !adj[i][j] else e in EdgesOf(adj) {
      EdgesOfMember(now, e);
      EdgesOfMember(adj, e);
    }
  }

  lemma {:induction false} OntoSize(A: set<nat>, B: set<nat>, h: map<nat, nat>)
    requires (forall a :: a in A ==> a in h) && (forall b :: b in B ==> exists a :: a in A && h[a] == b)
    ensures |B| <= |A|
    decreases B
  {
    if B != {} {
      var b :| b in B;
      var a :| a in A && h[a] == b;
      var A', B' := A - {a}, B - {b};
      forall c | c in B' ensures exists a' :: a' in A' && h[a'] == c {
        var a' :| a' in A && h[a'] == c;
        assert a' in A';
      }
      OntoSize(A', B', h);
    }
  }

  /** A map onto a set of the same size never sends two elements to one. */
  lemma OntoIsInjective(A: set<nat>, B: set<nat>, h: map<nat, nat>, x: nat, y: nat)
    requires |A| == |B| && (forall a :: a in A ==> a in h) && (forall b :: b in B ==> exists a :: a in A && h[a] == b)
    requires x in A && y in A && h[x] == h[y]
    ensures x == y
  {
    if x != y {
      var A' := A - {x};
      forall b | b in B ensures exists a :: a in A' && h[a] == b {
        var a :| a in A && h[a] == b;
        assert (if a == x then y else a) in A';
      }
      OntoSize(A', B, h);
    }
  }

  /** A map onto a set of the same size never leaves it. */
  lemma OntoStaysInside(A: set<nat>, B: set<nat>, h: map<nat, nat>, x: nat)
    requires |A| == |B| && (forall a :: a in A ==> a in h) && (forall b :: b in B ==> exists a :: a in A && h[a] == b)
    requires x in A
    ensures h[x] in B
  {
    if h[x] !in B {
      var A' := A - {x};
      forall b | b in B ensures exists a :: a in A' && h[a] == b {
        var a :| a in A && h[a] == b;
        assert a in A';
      }
      OntoSize(A', B, h);
    }
  }

  // ---------- component answers ----------

  /** A `ConnectedComponents` object: one entry per vertex, and `count` is the number of vertices that name themselves.
      Its constructor promises no more, because its look-ups race. */
  ghost predicate Counted(n: nat, arr: seq<nat>, count: nat) { |arr| == n && count == |RootSet(arr)| }

  /** Every entry names a vertex that names itself. */
  ghost predicate SelfNaming(arr: seq<nat>) { forall x :: 0 <= x < |arr| ==> arr[x] in RootSet(arr) }

  /** Same set of the union-find implies same entry. */
  ghost predicate Coarsens(prio: seq<nat>, parent: seq<nat>, arr: seq<nat>, k: nat)
    requires Ascending(prio, parent) && |arr| == |parent|
  {
    k <= |parent| && forall i :: 0 <= i < k ==> arr[Root(prio, parent, i)] == arr[i]
  }

  lemma EveryClassMet(prio: seq<nat>, parent: seq<nat>, arr: seq<nat>, h: map<nat, nat>)
    requires Ascending(prio, parent) && |arr| == |parent|
    requires Coarsens(prio, parent, arr, |arr|) && h == map k | k in RootSet(parent) :: arr[k]
    ensures forall b :: b in RootSet(arr) ==> exists a :: a in RootSet(parent) && h[a] == b
  {
    forall b | b in RootSet(arr) ensures exists a :: a in RootSet(parent) && h[a] == b {
      var k := Root(prio, parent, b);
      assert arr[k] == arr[b] == b && k in RootSet(parent);
    }
  }

  /** Refinement plus equal counts is equality, and then every entry names a vertex that names itself. */
  lemma CountDecides(prio: seq<nat>, parent: seq<nat>, arr: seq<nat>, x: nat, y: nat)
    requires Ascending(prio, parent) && |arr| == |parent|
    requires Coarsens(prio, parent, arr, |arr|) && |RootSet(parent)| == |RootSet(arr)| && x < |arr| && y < |arr|
    ensures arr[x] == arr[y] <==> Same(prio, parent, x, y)
    ensures arr[x] in RootSet(arr)
  {
    var h := map k | k in RootSet(parent) :: arr[k];
    EveryClassMet(prio, parent, arr, h);
    var kx, ky := Root(prio, parent, x), Root(prio, parent, y);
    assert arr[kx] == arr[x] && arr[ky] == arr[y] && kx in RootSet(parent) && ky in RootSet(parent);
    if arr[x] == arr[y] { OntoIsInjective(RootSet(parent), RootSet(arr), h, kx, ky); }
    OntoStaysInside(RootSet(parent), RootSet(arr), h, kx);
  }

  lemma AllDecided(prio: seq<nat>, parent: seq<nat>, arr: seq<nat>)
    requires Ascending(prio, parent) && |arr| == |parent|
    requires Coarsens(prio, parent, arr, |arr|) && |RootSet(parent)| == |RootSet(arr)|
    ensures Agrees(prio, parent, arr) && SelfNaming(arr)
  {
    forall x: nat, y: nat | x < |arr| && y < |arr| ensures Same(prio, parent, x, y) <==> arr[x] == arr[y] {
      CountDecides(prio, parent, arr, x, y);
    }
    forall x | 0 <= x < |arr| ensures arr[x] in RootSet(arr) { CountDecides(prio, parent, arr, x, x); }
  }

  ghost predicate Agrees(prio: seq<nat>, parent: seq<nat>, arr: seq<nat>)
    requires Ascending(prio, parent) && |arr| == |parent|
  {
    forall x: nat, y: nat :: x < |arr| && y < |arr| ==> (Same(prio, parent, x, y) <==> arr[x] == arr[y])
  }

  lemma AgreesCoarsens(prio: seq<nat>, parent: seq<nat>, arr: seq<nat>)
    requires Ascending(prio, parent) && |arr| == |parent| && Agrees(prio, parent, arr)
    ensures Coarsens(prio, parent, arr, |arr|)
  {
    forall i | 0 <= i < |arr| ensures arr[Root(prio, parent, i)] == arr[i] {
      assert Same(prio, parent, Root(prio, parent, i), i);
    }
  }

  lemma EveryRootMet(prio: seq<nat>, parent: seq<nat>, arr: seq<nat>, g: map<nat, nat>, k: nat)
    requires Ascending(prio, parent) && |arr| == |parent| && SelfNaming(arr) && Agrees(prio, parent, arr)
    requires g == map c | c in RootSet(arr) :: Root(prio, parent, c)
    requires k in RootSet(parent)
    ensures exists c :: c in RootSet(arr) && g[c] == k
  {
    var c := arr[k];
    assert arr[c] == arr[k] && c in RootSet(arr);
    assert Same(prio, parent, c, k);
    assert g[c] == k;
  }

  /** An exact answer has as many classes as the union-find. */
  lemma ExactCount(prio: seq<nat>, parent: seq<nat>, arr: seq<nat>)
    requires Ascending(prio, parent) && |arr| == |parent| && SelfNaming(arr) && Agrees(prio, parent, arr)
    ensures |RootSet(parent)| == |RootSet(arr)| && Coarsens(prio, parent, arr, |arr|)
  {
    AgreesCoarsens(prio, parent, arr);
    NoMoreClasses(prio, parent, arr);
    NoFewerClasses(prio, parent, arr);
  }

  lemma NoMoreClasses(prio: seq<nat>, parent: seq<nat>, arr: seq<nat>)
    requires Ascending(prio, parent) && |arr| == |parent| && Coarsens(prio, parent, arr, |arr|)
    ensures |RootSet(arr)| <= |RootSet(parent)|
  {
    var h := map k | k in RootSet(parent) :: arr[k];
    EveryClassMet(prio, parent, arr, h);
    OntoSize(RootSet(parent), RootSet(arr), h);
  }

  lemma NoFewerClasses(prio: seq<nat>, parent: seq<nat>, arr: seq<nat>)
    requires Ascending(prio, parent) && |arr| == |parent| && SelfNaming(arr) && Agrees(prio, parent, arr)
    ensures |RootSet(parent)| <= |RootSet(arr)|
  {
    var g := map c | c in RootSet(arr) :: Root(prio, parent, c);
    forall k | k in RootSet(parent)
      ensures exists c :: c in RootSet(arr) && g[c] == k
    {
      EveryRootMet(prio, parent, arr, g, k);
    }
    OntoSize(RootSet(arr), RootSet(parent), g);
  }

  // ---------- forests ----------

  lemma EdgesWithin(adj: seq<seq<bool>>, n: nat)
    requires Shaped(adj, n)
    ensures Within(n, EdgesOf(adj))
  {
    forall e | e in EdgesOf(adj) ensures e.src < n && e.dst < n { EdgesOfMember(adj, e); }
  }

  /** The part of the matrix before row i, column j. */
  ghost function Scanned(adj: seq<seq<bool>>, i: nat, j: nat): set<Edge> {
    set e | e in EdgesOf(adj) && (e.src < i || (e.src == i && e.dst < i + j))
  }

  lemma ScanNext(adj: seq<seq<bool>>, n: nat, i: nat, j: nat)
    requires Shaped(adj, n) && i < n && j < n - i
    ensures Scanned(adj, i, j + 1) == if adj[i][j] then Scanned(adj, i, j) + {Edge(i, i + j)} else Scanned(adj, i, j)
  {
    forall e: Edge
      ensures e in Scanned(adj, i, j + 1) <==> e in Scanned(adj, i, j) || (adj[i][j] && e == Edge(i, i + j))
    {
      EdgesOfMember(adj, e);
    }
  }

  lemma ScanRow(adj: seq<seq<bool>>, n: nat, i: nat)
    requires Shaped(adj, n) && i < n
    ensures Scanned(adj, i, n - i) == Scanned(adj, i + 1, 0)
    ensures Scanned(adj, 0, 0) == {}
    ensures i + 1 == n ==> Scanned(adj, i + 1, 0) == EdgesOf(adj)
  {
    var a, b := Scanned(adj, i, n - i), Scanned(adj, i + 1, 0);
    forall e: Edge ensures e in a <==> e in b { EdgesOfMember(adj, e); }
    forall e | e in EdgesOf(adj) ensures e.src < n { EdgesOfMember(adj, e); }
  }

  class GraphVerifier {
    const n: nat
    const dsu: DisjointSetUnion
    var adj: seq<seq<bool>>
    var ccs: nat
    var need: bool

    ghost predicate Shape()
      reads this, dsu, dsu.parent
    {
      0 < n && Shaped(adj, n) && dsu.Valid() && dsu.n == n
    }

    /** The cached union-find is that of the current graph. */
    ghost predicate CacheExact()
      reads this, dsu, dsu.parent
    {
      Shape() && SpanningForest(dsu.forest, EdgesOf(adj)) && ccs == |RootSet(dsu.parent[..])|
    }

    ghost predicate Valid()
      reads this, dsu, dsu.parent
    {
      Shape() && (!need ==> CacheExact())
    }

    constructor (vertices: nat, priorities: seq<nat>)
      requires 0 < vertices == |priorities|
      ensures Valid() && n == vertices && need && EdgesOf(adj) == {} && fresh(dsu) && fresh(dsu.parent)
    {
      n := vertices;
      dsu := new DisjointSetUnion(priorities);
      adj := seq(vertices, i requires 0 <= i < vertices => seq(vertices - i, j => false));
      ccs, need := 0, true;
    }

    /** `edge_update`: flips one pair; false stands for the exception. */
    method EdgeUpdate(a: nat, b: nat) returns (ok: bool)
      requires Shape()
      modifies this`adj, this`need
      ensures Shape() && ok == (a < n && b < n)
      ensures ok ==> need
      ensures ok ==> EdgesOf(adj) == if Normal(a, b) in old(EdgesOf(adj)) then old(EdgesOf(adj)) - {Normal(a, b)}
                                     else old(EdgesOf(adj)) + {Normal(a, b)}
      ensures !ok ==> adj == old(adj) && need == old(need)
    {
      if a >= n || b >= n { return false; }
      var e := Normal(a, b);
      FlipEdges(adj, e.src, e.dst - e.src);
      EdgesOfMember(adj, e);
      adj := FlipAt(adj, e.src, e.dst - e.src);
      need := true;
      ok := true;
    }

    /** `kruskal`: recomputes the union-find unless the cached one is still good. */
    method Kruskal()
      requires Valid()
      modifies this`ccs, this`need, dsu`forest, dsu.parent
      ensures Valid() && !need
    {
      if !need { return; }
      ccs := n;
      dsu.Reset();
      var i := 0;
      ScanRow(adj, n, 0);
      while i < n
        invariant i <= n && Shape() && need && SpanningForest(dsu.forest, Scanned(adj, i, 0))
        invariant ccs == |RootSet(dsu.parent[..])|
      {
        KruskalRow(i);
        ScanRow(adj, n, i);
        i := i + 1;
      }
      ScanRow(adj, n, n - 1);
      need := false;
    }

    method KruskalRow(i: nat)
      requires Shape() && i < n && SpanningForest(dsu.forest, Scanned(adj, i, 0)) && ccs == |RootSet(dsu.parent[..])|
      modifies this`ccs, dsu`forest, dsu.parent
      ensures Shape() && SpanningForest(dsu.forest, Scanned(adj, i, n - i)) && ccs == |RootSet(dsu.parent[..])|
    {
      var j := 0;
      while j < n - i
        invariant j <= n - i && Shape() && SpanningForest(dsu.forest, Scanned(adj, i, j))
        invariant ccs == |RootSet(dsu.parent[..])|
      {
        ScanNext(adj, n, i, j);
        if adj[i][j] { KruskalPair(i, j, Scanned(adj, i, j)); }
        j := j + 1;
      }
    }

    method KruskalPair(i: nat, j: nat, ghost P: set<Edge>)
      requires Shape() && i < n && j < n - i && SpanningForest(dsu.forest, P) && ccs == |RootSet(dsu.parent[..])|
      modifies this`ccs, dsu`forest, dsu.parent
      ensures Shape() && SpanningForest(dsu.forest, P + {Edge(i, i + j)}) && ccs == |RootSet(dsu.parent[..])|
    {
      ghost var F := dsu.forest;
      var merged, _, _ := dsu.Merge(i, i + j);
      if merged {
        NewEdgeSpans(F, P, Edge(i, i + j));
        ccs := ccs - 1;
      } else {
        InnerEdgeSpans(F, P, Edge(i, i + j));
      }
    }

    /** `verify_connected_components`: accepts exactly the answers that match the graph and name a vertex that names
        itself in every entry; an answer that look-ups raced to wrong entries is caught. */
    method VerifyConnectedComponents(arr: seq<nat>, count: nat) returns (ok: bool)
      requires Valid() && Counted(n, arr, count)
      modifies this`ccs, this`need, dsu`forest, dsu.parent
      ensures Valid() && !need && (ok <==> Exact(n, EdgesOf(adj), arr) && SelfNaming(arr))
    {
      Kruskal();
      ExactIsAgrees(n, dsu.prio, dsu.parent[..], dsu.forest, EdgesOf(adj), arr);
      if Exact(n, EdgesOf(adj), arr) && SelfNaming(arr) { ExactCount(dsu.prio, dsu.parent[..], arr); }
      if ccs != count { return false; }
      ok := CheckRoots(arr);
      if ok {
        AllDecided(dsu.prio, dsu.parent[..], arr);
      }
      ExactIsAgrees(n, dsu.prio, dsu.parent[..], dsu.forest, EdgesOf(adj), arr);
    }

    method CheckRoots(arr: seq<nat>) returns (ok: bool)
      requires dsu.Valid() && dsu.n == n == |arr|
      modifies dsu.parent
      ensures dsu.Valid() && SameRoots(dsu.prio, old(dsu.parent[..]), dsu.parent[..])
      ensures ok <==> Coarsens(dsu.prio, dsu.parent[..], arr, n)
    {
      var i := 0;
      while i < n
        invariant i <= n && dsu.Valid() && SameRoots(dsu.prio, old(dsu.parent[..]), dsu.parent[..])
        invariant Coarsens(dsu.prio, dsu.parent[..], arr, i)
      {
        var root := dsu.FindRoot(i);
        if arr[root] != arr[i] { return false; }
        i := i + 1;
      }
      ok := true;
    }
  }

  lemma ExactIsAgrees(n: nat, prio: seq<nat>, parent: seq<nat>, F: set<Edge>, E: set<Edge>, arr: seq<nat>)
    requires Represents(prio, parent, F) && |parent| == n == |arr| && SpanningForest(F, E)
    ensures Exact(n, E, arr) <==> Agrees(prio, parent, arr)
  {
    forall x: nat, y: nat | x < n && y < n ensures Same(prio, parent, x, y) <==> Connected(E, x, y) {
      AnswerExact(n, prio, parent, F, E, x, y);
    }
  }
}
