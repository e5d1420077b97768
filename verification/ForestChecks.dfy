/** `verify_spanning_forests`: whatever it accepts is a list of edge-disjoint spanning forests, each of the graph left
    by the earlier ones; and exactly when it leaves the verifier's cached components stale. */
module ForestChecks {
  import opened Graphs
  import opened DisjointSets
  import opened SequentialDsu
  import opened GraphVerifiers
  import opened KForests

  ghost predicate InRange(n: nat, forest: seq<Edge>) {
    forall i :: 0 <= i < |forest| ==> forest[i].src < n && forest[i].dst < n
  }

  /** Every set of the first union-find lies inside one set of the second. */
  ghost predicate Refines(prio: seq<nat>, parent: seq<nat>, prio2: seq<nat>, parent2: seq<nat>, k: nat,
                          roots: map<nat, nat>)
    requires Ascending(prio, parent) && Ascending(prio2, parent2) && |parent| == |parent2| && k <= |parent|
  {
    forall i :: 0 <= i < k ==> Root(prio, parent, i) in roots && roots[Root(prio, parent, i)] == Root(prio2, parent2, i)
  }

  lemma RefinesFrame(prio: seq<nat>, a: seq<nat>, b: seq<nat>, prio2: seq<nat>, a2: seq<nat>, b2: seq<nat>, k: nat,
                     roots: map<nat, nat>)
    requires SameRoots(prio, a, b) && SameRoots(prio2, a2, b2) && |a| == |a2| && k <= |a|
    requires Refines(prio, a, prio2, a2, k, roots)
    ensures Refines(prio, b, prio2, b2, k, roots)
  {
    forall i | 0 <= i < k ensures Root(prio, b, i) in roots && roots[Root(prio, b, i)] == Root(prio2, b2, i) {
      assert Root(prio, a, i) == Root(prio, b, i) && Root(prio2, a2, i) == Root(prio2, b2, i);
    }
  }

  /** Every entry of the map comes from a vertex. */
  ghost predicate Witnessed(prio: seq<nat>, parent: seq<nat>, prio2: seq<nat>, parent2: seq<nat>, k: nat,
                            m: map<nat, nat>)
    requires Ascending(prio, parent) && Ascending(prio2, parent2) && |parent| == |parent2| && k <= |parent|
  {
    forall r :: r in m ==> exists i :: 0 <= i < k && Root(prio, parent, i) == r && Root(prio2, parent2, i) == m[r]
  }

  /** Two vertices together in the first union-find and apart in the second. */
  ghost predicate TornApart(prio: seq<nat>, parent: seq<nat>, prio2: seq<nat>, parent2: seq<nat>)
    requires Ascending(prio, parent) && Ascending(prio2, parent2) && |parent| == |parent2|
  {
    exists i: nat, j: nat :: i < |parent| && j < |parent| && Same(prio, parent, i, j) && !Same(prio2, parent2, i, j)
  }

  lemma WitnessedFrame(prio: seq<nat>, a: seq<nat>, b: seq<nat>, prio2: seq<nat>, a2: seq<nat>, b2: seq<nat>, k: nat,
                       m: map<nat, nat>)
    requires SameRoots(prio, a, b) && SameRoots(prio2, a2, b2) && |a| == |a2| && k <= |a|
    requires Witnessed(prio, a, prio2, a2, k, m)
    ensures Witnessed(prio, b, prio2, b2, k, m)
  {
    forall r | r in m ensures exists i :: 0 <= i < k && Root(prio, b, i) == r && Root(prio2, b2, i) == m[r] {
      var i :| 0 <= i < k && Root(prio, a, i) == r && Root(prio2, a2, i) == m[r];
      assert Root(prio, b, i) == r && Root(prio2, b2, i) == m[r];
    }
  }

  lemma WitnessedNext(prio: seq<nat>, parent: seq<nat>, prio2: seq<nat>, parent2: seq<nat>, i: nat, m: map<nat, nat>,
                      kr: nat, fr: nat)
    requires Ascending(prio, parent) && Ascending(prio2, parent2) && |parent| == |parent2| && i < |parent|
    requires Witnessed(prio, parent, prio2, parent2, i, m) && kr == Root(prio, parent, i)
    requires fr == Root(prio2, parent2, i)
    ensures Witnessed(prio, parent, prio2, parent2, i + 1, if kr in m then m else m[kr := fr])
    ensures kr in m && m[kr] != fr ==> TornApart(prio, parent, prio2, parent2)
  {
    var m' := if kr in m then m else m[kr := fr];
    forall r | r in m'
      ensures exists j :: 0 <= j < i + 1 && Root(prio, parent, j) == r && Root(prio2, parent2, j) == m'[r]
    {
      if r in m {
        var j :| 0 <= j < i && Root(prio, parent, j) == r && Root(prio2, parent2, j) == m[r];
      } else {
        assert Root(prio, parent, i) == r && Root(prio2, parent2, i) == m'[r];
      }
    }
    if kr in m && m[kr] != fr {
      var j :| 0 <= j < i && Root(prio, parent, j) == kr && Root(prio2, parent2, j) == m[kr];
      assert Same(prio, parent, i, j) && !Same(prio2, parent2, i, j);
    }
  }

  /** The root-map loop: accepts exactly if each component of `k` stays together in `f`. */
  method CheckRootMap(k: DisjointSetUnion, f: DisjointSetUnion) returns (ok: bool, ghost roots: map<nat, nat>)
    requires k.Valid() && f.Valid() && k.n == f.n && k != f && k.parent != f.parent
    modifies k.parent, f.parent
    ensures k.Valid() && f.Valid() && SameRoots(k.prio, old(k.parent[..]), k.parent[..])
    ensures if ok then Refines(k.prio, k.parent[..], f.prio, f.parent[..], k.n, roots)
            else TornApart(k.prio, k.parent[..], f.prio, f.parent[..])
  {
    var m: map<nat, nat> := map[];
    var i := 0;
    SameRootsRefl(k.prio, k.parent[..]);
    while i < k.n
      invariant i <= k.n && k.Valid() && f.Valid() && SameRoots(k.prio, old(k.parent[..]), k.parent[..])
      invariant Refines(k.prio, k.parent[..], f.prio, f.parent[..], i, m)
      invariant Witnessed(k.prio, k.parent[..], f.prio, f.parent[..], i, m)
    {
      ghost var a, a2 := k.parent[..], f.parent[..];
      var kr, fr := FindBoth(k, f, i);
      SameRootsTrans(k.prio, old(k.parent[..]), a, k.parent[..]);
      RefinesFrame(k.prio, a, k.parent[..], f.prio, a2, f.parent[..], i, m);
      WitnessedFrame(k.prio, a, k.parent[..], f.prio, a2, f.parent[..], i, m);
      WitnessedNext(k.prio, k.parent[..], f.prio, f.parent[..], i, m, kr, fr);
      if kr in m && m[kr] != fr { return false, m; }
      RefinesNext(k.prio, k.parent[..], f.prio, f.parent[..], i, m, kr, fr);
      if kr !in m { m := m[kr := fr]; }
      i := i + 1;
    }
    ok, roots := true, m;
  }

  lemma RefinesNext(prio: seq<nat>, parent: seq<nat>, prio2: seq<nat>, parent2: seq<nat>, i: nat, m: map<nat, nat>,
                    kr: nat, fr: nat)
    requires Ascending(prio, parent) && Ascending(prio2, parent2) && |parent| == |parent2| && i < |parent|
    requires Refines(prio, parent, prio2, parent2, i, m) && kr == Root(prio, parent, i) && fr == Root(prio2, parent2, i)
    requires kr in m ==> m[kr] == fr
    ensures Refines(prio, parent, prio2, parent2, i + 1, if kr in m then m else m[kr := fr])
  {
  }

  method FindBoth(k: DisjointSetUnion, f: DisjointSetUnion, i: nat) returns (kr: nat, fr: nat)
    requires k.Valid() && f.Valid() && k.n == f.n && k != f && k.parent != f.parent && i < k.n
    modifies k.parent, f.parent
    ensures k.Valid() && f.Valid()
    ensures SameRoots(k.prio, old(k.parent[..]), k.parent[..]) && SameRoots(f.prio, old(f.parent[..]), f.parent[..])
    ensures kr == Root(k.prio, k.parent[..], i) && fr == Root(f.prio, f.parent[..], i)
  {
    kr := k.FindRoot(i);
    assert f.parent[..] == old(f.parent[..]);
    fr := f.FindRoot(i);
  }

  lemma RefinedSpans(n: nat, prio: seq<nat>, parent: seq<nat>, K: set<Edge>, prio2: seq<nat>, parent2: seq<nat>,
                     F: set<Edge>,
                     E: set<Edge>, roots: map<nat, nat>)
    requires Represents(prio, parent, K) && Represents(prio2, parent2, F) && |parent| == |parent2| == n
    requires SpanningForest(K, E)
    requires Within(n, E) && F <= E && Refines(prio, parent, prio2, parent2, n, roots)
    ensures SpanningForest(F, E)
  {
    forall u: nat, v: nat | Connected(E, u, v) ensures Connected(F, u, v) {
      if u >= n || v >= n {
        AloneOutside(n, E, u, v);
        ConnectedRefl(F, u);
      } else {
        assert Same(prio, parent, u, v);
        assert Same(prio2, parent2, u, v);
      }
    }
  }

  /** The first `k` listed edges. */
  function EdgeSet(forest: seq<Edge>, k: nat): set<Edge>
    requires k <= |forest|
  {
    if k == 0 then {} else EdgeSet(forest, k - 1) + {Normal(forest[k - 1].src, forest[k - 1].dst)}
  }

  lemma {:induction false} EdgeSetGrows(forest: seq<Edge>, i: nat, k: nat)
    requires i <= k <= |forest|
    ensures EdgeSet(forest, i) <= EdgeSet(forest, k)
  {
    if i < k { EdgeSetGrows(forest, i, k - 1); }
  }

  function EdgeOf(forest: seq<Edge>, i: nat): Edge
    requires i < |forest|
  {
    Normal(forest[i].src, forest[i].dst)
  }

  /** No edge is listed twice. */
  ghost predicate NoRepeat(forest: seq<Edge>, k: nat)
    requires k <= |forest|
  {
    forall i, j :: 0 <= i < j < k ==> EdgeOf(forest, i) != EdgeOf(forest, j)
  }

  lemma {:induction false} EdgeSetMember(forest: seq<Edge>, k: nat, e: Edge)
    requires k <= |forest|
    ensures e in EdgeSet(forest, k) <==> exists i :: 0 <= i < k && EdgeOf(forest, i) == e
  {
    if k > 0 {
      EdgeSetMember(forest, k - 1, e);
      if EdgeOf(forest, k - 1) == e {
      } else if e in EdgeSet(forest, k - 1) {
        var i :| 0 <= i < k - 1 && EdgeOf(forest, i) == e;
      }
    }
  }

  /** The list is a spanning forest of `E`. */
  ghost predicate GoodForest(forest: seq<Edge>, E: set<Edge>) {
    NoRepeat(forest, |forest|) && SpanningForest(EdgeSet(forest, |forest|), E)
  }

  lemma NotListedBefore(forest: seq<Edge>, i: nat, k: nat)
    requires i < k <= |forest| && NoRepeat(forest, k)
    ensures EdgeOf(forest, i) !in EdgeSet(forest, i) && EdgeOf(forest, i) in EdgeSet(forest, k)
  {
    EdgeSetMember(forest, i, EdgeOf(forest, i));
    EdgeSetMember(forest, k, EdgeOf(forest, i));
  }

  lemma BadMerge(forest: seq<Edge>, i: nat, E: set<Edge>)
    requires i < |forest| && Connected(EdgeSet(forest, i), forest[i].src, forest[i].dst)
    ensures !GoodForest(forest, E)
  {
    if GoodForest(forest, E) {
      var F, e := EdgeSet(forest, |forest|), EdgeOf(forest, i);
      NotListedBefore(forest, i, |forest|);
      EdgeSetGrows(forest, i, |forest|);
      ConnectedMono(EdgeSet(forest, i), F - {e}, forest[i].src, forest[i].dst);
      ConnectedSym(F - {e}, forest[i].src, forest[i].dst);
    }
  }

  lemma BadEdge(forest: seq<Edge>, i: nat, E: set<Edge>)
    requires i < |forest| && EdgeOf(forest, i) !in E - EdgeSet(forest, i)
    ensures !GoodForest(forest, E)
  {
    if GoodForest(forest, E) { NotListedBefore(forest, i, |forest|); }
  }

  lemma StillNoRepeat(forest: seq<Edge>, i: nat)
    requires i < |forest| && NoRepeat(forest, i) && EdgeOf(forest, i) !in EdgeSet(forest, i)
    ensures NoRepeat(forest, i + 1)
  {
    EdgeSetMember(forest, i, EdgeOf(forest, i));
  }

  lemma MergedIsNew(F: set<Edge>, a: nat, b: nat)
    requires !Connected(F, a, b)
    ensures Normal(a, b) !in F
  {
    if Normal(a, b) in F { ConnectedEdge(F, Normal(a, b)); }
  }

  /** The first `i` edges have been merged into `F` and removed from `E`. */
  ghost predicate Taken(forest: seq<Edge>, i: nat, E: set<Edge>, F: set<Edge>, now: set<Edge>) {
    i <= |forest| && F == EdgeSet(forest, i) && F <= E && now == E - F && NoRepeat(forest, i)
  }

  lemma TakenNext(forest: seq<Edge>, i: nat, E: set<Edge>, F: set<Edge>, now: set<Edge>)
    requires Taken(forest, i, E, F, now) && i < |forest|
    ensures var a, b := forest[i].src, forest[i].dst;
            if !Connected(F, a, b) && Normal(a, b) in now
            then Taken(forest, i + 1, E, F + {Normal(a, b)}, now - {Normal(a, b)})
            else !GoodForest(forest, E)
  {
    var a, b := forest[i].src, forest[i].dst;
    if Connected(F, a, b) {
      BadMerge(forest, i, E);
    } else if Normal(a, b) !in now {
      BadEdge(forest, i, E);
    } else {
      MergedIsNew(F, a, b);
      StillNoRepeat(forest, i);
    }
  }

  /** The check of this list gets past its first edge. */
  predicate TakesOne(forest: seq<Edge>, E: set<Edge>) {
    forest != [] && forest[0].src != forest[0].dst && EdgeOf(forest, 0) in E
  }

  lemma FirstTaken(forest: seq<Edge>, E: set<Edge>)
    requires forest != []
    ensures TakesOne(forest, E) <==> !Connected({}, forest[0].src, forest[0].dst) && EdgeOf(forest, 0) in E
  {
    var a, b := forest[0].src, forest[0].dst;
    if a == b {
      ConnectedRefl({}, a);
    } else if Connected({}, a, b) {
      ConnectedInClosed({}, {a}, a, b);
    }
  }

  /** After `i` edges of the list; `need` is the verifier's stale mark. */
  ghost predicate Taking(forest: seq<Edge>, i: nat, E: set<Edge>, F: set<Edge>, now: set<Edge>, need: bool) {
    Taken(forest, i, E, F, now) && (need <==> i > 0) && (i > 0 ==> TakesOne(forest, E))
  }

  lemma TakingNext(forest: seq<Edge>, i: nat, E: set<Edge>, F: set<Edge>, now: set<Edge>, need: bool, ok: bool)
    requires Taking(forest, i, E, F, now, need) && i < |forest|
    requires ok <==> !Connected(F, forest[i].src, forest[i].dst) && EdgeOf(forest, i) in now
    ensures ok ==> Taking(forest, i + 1, E, F + {EdgeOf(forest, i)}, now - {EdgeOf(forest, i)}, true)
    ensures !ok ==> !GoodForest(forest, E) && (need <==> TakesOne(forest, E))
  {
    TakenNext(forest, i, E, F, now);
    if i == 0 { FirstTaken(forest, E); }
  }

  /** The edges of one forest: each joins two sets, is in the current graph, and is then removed from it. */
  method TakeOut(gv: GraphVerifier, fc: DisjointSetUnion, forest: seq<Edge>) returns (ok: bool)
    requires gv.Valid() && !gv.need && fc.Valid() && fc.n == gv.n && fc.forest == {} && InRange(gv.n, forest)
    requires fc != gv.dsu && fc.parent != gv.dsu.parent
    modifies gv`adj, gv`need, fc`forest, fc.parent
    ensures gv.Valid() && fc.Valid()
    ensures ok ==> Taken(forest, |forest|, old(EdgesOf(gv.adj)), fc.forest,
                         EdgesOf(gv.adj)) && (gv.need <==> forest != [])
    ensures !ok ==> !GoodForest(forest, old(EdgesOf(gv.adj)))
    ensures gv.need <==> TakesOne(forest, old(EdgesOf(gv.adj)))
    ensures !gv.need ==> EdgesOf(gv.adj) == old(EdgesOf(gv.adj))
  {
    ghost var E := EdgesOf(gv.adj);
    var i := 0;
    while i < |forest|
      invariant i <= |forest| && gv.Valid() && fc.Valid()
      invariant Taking(forest, i, E, fc.forest, EdgesOf(gv.adj), gv.need)
    {
      ghost var F, now, need := fc.forest, EdgesOf(gv.adj), gv.need;
      ok := TakeOne(gv, fc, forest[i].src, forest[i].dst);
      TakingNext(forest, i, E, F, now, need, ok);
      if !ok { return; }
      i := i + 1;
    }
    ok := true;
  }

  method TakeOne(gv: GraphVerifier, fc: DisjointSetUnion, a: nat, b: nat) returns (ok: bool)
    requires gv.Valid() && fc.Valid() && fc.n == gv.n && a < gv.n && b < gv.n && fc != gv.dsu
    requires fc.parent != gv.dsu.parent
    modifies gv`adj, gv`need, fc`forest, fc.parent
    ensures gv.Valid() && fc.Valid()
    ensures ok ==> gv.need && fc.forest == old(fc.forest) + {Normal(a, b)}
    ensures ok ==> EdgesOf(gv.adj) == old(EdgesOf(gv.adj)) - {Normal(a, b)}
    ensures ok <==> !Connected(old(fc.forest), a, b) && Normal(a, b) in old(EdgesOf(gv.adj))
    ensures !ok ==> gv.need == old(gv.need) && gv.adj == old(gv.adj)
  {
    var merged, _, _ := fc.Merge(a, b);
    ok := merged;
    if ok { ok := RemoveEdge(gv, a, b); }
  }

  /** `verify_edge` followed by `edge_update`. */
  method RemoveEdge(gv: GraphVerifier, a: nat, b: nat) returns (ok: bool)
    requires gv.Valid() && a < gv.n && b < gv.n
    modifies gv`adj, gv`need
    ensures gv.Valid() && (ok <==> Normal(a, b) in old(EdgesOf(gv.adj)))
    ensures ok ==> gv.need && EdgesOf(gv.adj) == old(EdgesOf(gv.adj)) - {Normal(a, b)}
    ensures !ok ==> gv.need == old(gv.need) && gv.adj == old(gv.adj)
  {
    var e := Normal(a, b);
    EdgesOfMember(gv.adj, e);
    if !gv.adj[e.src][e.dst - e.src] { return false; }
    ok := gv.EdgeUpdate(a, b);
  }

  /** One forest: accepted if and only if it is a spanning forest of the current graph. */
  method CheckForest(gv: GraphVerifier, forest: seq<Edge>, prio: seq<nat>) returns (ok: bool)
    requires gv.Valid() && |prio| == gv.n && InRange(gv.n, forest)
    modifies gv`adj, gv`need, gv`ccs, gv.dsu`forest, gv.dsu.parent
    ensures gv.Valid()
    ensures ok <==> GoodForest(forest, old(EdgesOf(gv.adj)))
    ensures ok ==> EdgesOf(gv.adj) == old(EdgesOf(gv.adj)) - EdgeSet(forest, |forest|) && (gv.need <==> forest != [])
    ensures gv.need <==> TakesOne(forest, old(EdgesOf(gv.adj)))
    ensures !gv.need ==> EdgesOf(gv.adj) == old(EdgesOf(gv.adj))
  {
    gv.Kruskal();
    var fc := new DisjointSetUnion(prio);
    ghost var E := EdgesOf(gv.adj);
    EdgesWithin(gv.adj, gv.n);
    ok := TakeOut(gv, fc, forest);
    if !ok { return; }
    ghost var before := gv.dsu.parent[..];
    var same, roots := CheckRootMap(gv.dsu, fc);
    CacheKept(gv.dsu.prio, before, gv.dsu.parent[..]);
    if same {
      RefinedSpans(gv.n, gv.dsu.prio, gv.dsu.parent[..], gv.dsu.forest, fc.prio, fc.parent[..], fc.forest, E, roots);
    } else {
      TornDoesNotSpan(gv.n, gv.dsu.prio, gv.dsu.parent[..], gv.dsu.forest, fc.prio, fc.parent[..], fc.forest, E);
    }
    ok := same;
  }

  lemma TornDoesNotSpan(n: nat, prio: seq<nat>, parent: seq<nat>, K: set<Edge>, prio2: seq<nat>, parent2: seq<nat>,
                        F: set<Edge>, E: set<Edge>)
    requires Represents(prio, parent, K) && Represents(prio2, parent2, F) && |parent| == |parent2| == n && K <= E
    requires TornApart(prio, parent, prio2, parent2)
    ensures !SpanningForest(F, E)
  {
    var i: nat, j: nat :| i < n && j < n && Same(prio, parent, i, j) && !Same(prio2, parent2, i, j);
    ConnectedMono(K, E, i, j);
  }

  lemma CacheKept(prio: seq<nat>, a: seq<nat>, b: seq<nat>)
    requires SameRoots(prio, a, b)
    ensures RootSet(a) == RootSet(b)
  {
  }

  /** All forests non-trivial at the end, or none anywhere. */
  ghost predicate CacheSurvives(fs: seq<seq<Edge>>) {
    fs == [] || fs[|fs| - 1] != [] || forall i :: 0 <= i < |fs| ==> fs[i] == []
  }

  /** The listed forests as edge sets. */
  function Sets(fs: seq<seq<Edge>>): (r: seq<set<Edge>>)
    ensures |r| == |fs| && forall i :: 0 <= i < |fs| ==> r[i] == EdgeSet(fs[i], |fs[i]|)
  {
    seq(|fs|, i requires 0 <= i < |fs| => EdgeSet(fs[i], |fs[i]|))
  }

  /** Each list is a spanning forest of what the earlier ones leave. */
  ghost predicate AllGood(E: set<Edge>, fs: seq<seq<Edge>>, k: nat)
    requires k <= |fs|
  {
    forall i: nat :: i < k ==> GoodAt(E, fs, i)
  }

  ghost predicate GoodAt(E: set<Edge>, fs: seq<seq<Edge>>, i: nat)
    requires i < |fs|
  {
    GoodForest(fs[i], Residual(E, Sets(fs), i))
  }

  lemma AllGoodPeeled(E: set<Edge>, fs: seq<seq<Edge>>)
    requires AllGood(E, fs, |fs|)
    ensures Peeled(E, Sets(fs))
  {
    forall i | 0 <= i < |fs| ensures SpanningForest(Sets(fs)[i], Residual(E, Sets(fs), i)) {
      assert GoodAt(E, fs, i);
    }
  }

  lemma {:induction false} EmptyList(forest: seq<Edge>)
    ensures EdgeSet(forest, |forest|) == {} <==> forest == []
  {
    if forest != [] { assert Normal(forest[|forest| - 1].src, forest[|forest| - 1].dst) in EdgeSet(forest, |forest|); }
  }

  lemma {:induction false} NothingTaken(E: set<Edge>, Fs: seq<set<Edge>>, k: nat)
    requires k <= |Fs| && forall i :: 0 <= i < k ==> Fs[i] == {}
    ensures Residual(E, Fs, k) == E
  {
    if k > 0 { NothingTaken(E, Fs, k - 1); }
  }

  /** An accepted empty last forest means the rest of the graph joins nothing; so a cache computed on that rest is
      wrong for a graph from which an earlier forest took an edge. */
  lemma StaleCache(E: set<Edge>, Fs: seq<set<Edge>>, K: set<Edge>, i: nat)
    requires Peeled(E, Fs) && |Fs| > 0 && Fs[|Fs| - 1] == {} && i < |Fs| && Fs[i] != {}
    requires SpanningForest(K, Residual(E, Fs, |Fs| - 1))
    ensures !SpanningForest(K, E)
  {
    var R := Residual(E, Fs, |Fs| - 1);
    ResidualIsRest(E, Fs, i);
    var e :| e in Fs[i];
    assert SpanningForest(Fs[i], Residual(E, Fs, i));
    assert e in E;
    ConnectedEdge(E, e);
    if Connected(K, e.src, e.dst) {
      assert SpanningForest(Fs[|Fs| - 1], R);
      ConnectedMono(K, R, e.src, e.dst);
      ConnectedInClosed({}, {e.src}, e.src, e.dst);
      ConnectedRefl(Fs[i] - {e}, e.src);
    }
  }

  /** The first list that is no spanning forest of what the earlier ones leave. */
  ghost predicate FirstBad(E: set<Edge>, fs: seq<seq<Edge>>, bad: nat) {
    bad < |fs| && AllGood(E, fs, bad) && !GoodAt(E, fs, bad)
  }

  /** An edge of list `bad` was taken out, or the graph left before that list joins as much as the whole graph. */
  ghost predicate CacheOutlives(E: set<Edge>, fs: seq<seq<Edge>>, bad: nat)
    requires bad < |fs|
  {
    TakesOne(fs[bad], Residual(E, Sets(fs), bad)) || JoinsAs(E, Residual(E, Sets(fs), bad))
  }

  /** `R` joins whatever `E` joins. */
  ghost predicate JoinsAs(E: set<Edge>, R: set<Edge>) {
    forall u: nat, v: nat :: Connected(E, u, v) ==> Connected(R, u, v)
  }

  lemma {:induction false} ResidualInside(E: set<Edge>, Fs: seq<set<Edge>>, k: nat)
    requires k <= |Fs|
    ensures Residual(E, Fs, k) <= E
  {
    if k > 0 { ResidualInside(E, Fs, k - 1); }
  }

  /** A cache computed on a part of the graph is right for the whole graph if and only if the part joins as much. */
  lemma PartCache(E: set<Edge>, R: set<Edge>, K: set<Edge>)
    requires SpanningForest(K, R) && R <= E
    ensures SpanningForest(K, E) <==> JoinsAs(E, R)
  {
    if SpanningForest(K, E) {
      forall u: nat, v: nat | Connected(E, u, v) ensures Connected(R, u, v) { ConnectedMono(K, R, u, v); }
    }
    if JoinsAs(E, R) {
      forall u: nat, v: nat | Connected(E, u, v) ensures Connected(K, u, v) { assert Connected(R, u, v); }
    }
  }

  /** One edge, listed as two forests: the second list is rejected before an edge is taken, and the cache left behind is
      that of the empty graph, although the same two lists would keep it if they were accepted. */
  lemma RejectedStale(e: Edge)
    requires e.src < e.dst
    ensures FirstBad({e}, [[e], [e]], 1) && !CacheOutlives({e}, [[e], [e]], 1) && CacheSurvives([[e], [e]])
  {
    var fs := [[e], [e]];
    assert EdgeSet([e], 1) == EdgeSet([e], 0) + {e} == {e};
    ConnectedEdge({e}, e);
    assert Residual({e}, Sets(fs), 0) == {e} && Residual({e}, Sets(fs), 1) == {};
    if Connected({}, e.src, e.dst) { ConnectedInClosed({}, {e.src}, e.src, e.dst); }
    assert Acyclic({e}) by { assert {e} - {e} == {}; }
    assert GoodAt({e}, fs, 0);
  }

  /** `verify_spanning_forests`. The graph is always restored. It accepts if and only if each list is a spanning forest
      of what the earlier ones left. After it accepts, the verifier's cache is right if and only if the last forest has
      an edge or none of them has. After it rejects list `bad`, the cache is right if and only if an edge of that list
      was taken out, which marks the cache stale, or the graph left before that list joins as much as the whole. */
  method VerifySpanningForests(gv: GraphVerifier, fs: seq<seq<Edge>>, prio: seq<nat>) returns (ok: bool, ghost bad: nat)
    requires gv.Valid() && |prio| == gv.n && forall i :: 0 <= i < |fs| ==> InRange(gv.n, fs[i])
    modifies gv`adj, gv`need, gv`ccs, gv.dsu`forest, gv.dsu.parent
    ensures gv.adj == old(gv.adj) && gv.Shape()
    ensures ok <==> AllGood(EdgesOf(gv.adj), fs, |fs|)
    ensures ok ==> (gv.Valid() <==> CacheSurvives(fs))
    ensures !ok ==> FirstBad(EdgesOf(gv.adj), fs, bad) && (gv.Valid() <==> CacheOutlives(EdgesOf(gv.adj), fs, bad))
  {
    var backup := gv.adj;
    ok, bad := CheckAll(gv, fs, prio);
    if ok {
      CacheAfter(EdgesOf(backup), fs, gv.need, gv.dsu.forest);
    } else {
      CacheAfterReject(EdgesOf(backup), fs, bad, gv.need, gv.dsu.forest);
    }
    gv.adj := backup;
  }

  lemma CacheAfterReject(E: set<Edge>, fs: seq<seq<Edge>>, bad: nat, need: bool, K: set<Edge>)
    requires bad < |fs| && (need <==> TakesOne(fs[bad], Residual(E, Sets(fs), bad)))
    requires !need ==> SpanningForest(K, Residual(E, Sets(fs), bad))
    ensures CacheOutlives(E, fs, bad) <==> (!need ==> SpanningForest(K, E))
  {
    ResidualInside(E, Sets(fs), bad);
    if !need { PartCache(E, Residual(E, Sets(fs), bad), K); }
  }

  /** The loop over the forests, without the final restore. */
  method CheckAll(gv: GraphVerifier, fs: seq<seq<Edge>>, prio: seq<nat>) returns (ok: bool, ghost bad: nat)
    requires gv.Valid() && |prio| == gv.n && forall i :: 0 <= i < |fs| ==> InRange(gv.n, fs[i])
    modifies gv`adj, gv`need, gv`ccs, gv.dsu`forest, gv.dsu.parent
    ensures gv.Valid()
    ensures ok <==> AllGood(old(EdgesOf(gv.adj)), fs, |fs|)
    ensures ok ==> EdgesOf(gv.adj) == Residual(old(EdgesOf(gv.adj)), Sets(fs),
                                               |fs|) && (|fs| > 0 ==> (gv.need <==> fs[|fs| - 1] != []))
    ensures !ok ==> FirstBad(old(EdgesOf(gv.adj)), fs, bad)
    ensures !ok ==> (gv.need <==> TakesOne(fs[bad], Residual(old(EdgesOf(gv.adj)), Sets(fs), bad)))
    ensures !ok && !gv.need ==> EdgesOf(gv.adj) == Residual(old(EdgesOf(gv.adj)), Sets(fs), bad)
  {
    ghost var E := EdgesOf(gv.adj);
    var i := 0;
    bad := 0;
    while i < |fs|
      invariant i <= |fs| && gv.Valid() && Progress(E, fs, i, EdgesOf(gv.adj))
      invariant i > 0 ==> (gv.need <==> fs[i - 1] != [])
    {
      ProgressNext(E, fs, i, EdgesOf(gv.adj));
      ok := CheckForest(gv, fs[i], prio);
      if !ok { return false, i; }
      i := i + 1;
    }
    ok := true;
  }

  ghost predicate Progress(E: set<Edge>, fs: seq<seq<Edge>>, i: nat, R: set<Edge>) {
    i <= |fs| && AllGood(E, fs, i) && R == Residual(E, Sets(fs), i)
  }

  lemma AllGoodNext(E: set<Edge>, fs: seq<seq<Edge>>, i: nat)
    requires i < |fs| && AllGood(E, fs, i) && GoodAt(E, fs, i)
    ensures AllGood(E, fs, i + 1)
  {
    forall j: nat | j < i + 1 ensures GoodAt(E, fs, j) { }
  }

  lemma ProgressNext(E: set<Edge>, fs: seq<seq<Edge>>, i: nat, R: set<Edge>)
    requires Progress(E, fs, i, R) && i < |fs|
    ensures GoodForest(fs[i], R) ==> Progress(E, fs, i + 1, R - EdgeSet(fs[i], |fs[i]|))
    ensures !GoodForest(fs[i], R) ==> !AllGood(E, fs, |fs|)
  {
    if GoodForest(fs[i], R) {
      AllGoodNext(E, fs, i);
    } else {
      assert !GoodAt(E, fs, i);
    }
  }

  lemma CacheAfter(E: set<Edge>, fs: seq<seq<Edge>>, need: bool, K: set<Edge>)
    requires AllGood(E, fs, |fs|) && (|fs| > 0 ==> (need <==> fs[|fs| - 1] != []))
    requires !need ==> SpanningForest(K, Residual(E, Sets(fs), |fs|))
    ensures CacheSurvives(fs) <==> (!need ==> SpanningForest(K, E))
  {
    var Fs := Sets(fs);
    AllGoodPeeled(E, fs);
    forall i | 0 <= i < |fs| ensures Fs[i] == {} <==> fs[i] == [] { EmptyList(fs[i]); }
    if |fs| > 0 && fs[|fs| - 1] == [] {
      if forall i :: 0 <= i < |fs| ==> fs[i] == [] {
        NothingTaken(E, Fs, |Fs|);
      } else {
        var i :| 0 <= i < |fs| && fs[i] != [];
        assert Residual(E, Fs, |Fs|) == Residual(E, Fs, |Fs| - 1);
        StaleCache(E, Fs, K, i);
      }
    }
  }
}
