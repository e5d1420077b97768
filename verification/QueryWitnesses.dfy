/** Runs that show the conditions of the query theorems to be needed: a query that throws, a forest query that throws
    half way, and a cached query whose racing look-ups can answer wrongly. */
module QueryWitnesses {
  import opened Graphs
  import opened DisjointSets
  import opened XorAlgebra
  import opened Sketches
  import opened Supernodes
  import opened Partitions
  import opened RoundSafety
  import opened MislabelledRounds
  import opened LookUps
  import opened LookUpsExact
  import opened LookUpRaces
  import opened LookUpRun
  import opened DeepForests
  import opened QueryLoop
  import opened Traces
  import opened Caches
  import opened QueryEngine
  import opened KForests

  // ---------- too few samples ----------

  lemma Separated(F: set<Edge>, S: set<nat>, u: nat, v: nat)
    requires Closed(F, S) && u in S && v !in S
    ensures !Connected(F, u, v)
  {
    if Connected(F, u, v) { ConnectedInClosed(F, S, u, v); }
  }

  lemma OneIdFaithful(p: Params, X: set<nat>, id: nat, r: nat)
    requires p.Valid() && p.hash(0) != 0 && id != 0 && X <= {id}
    ensures FaithfulAt(p, X, r)
  {
    forall k | 0 <= k < p.Len() && InRound(p, k, r) ensures Faithful(p, Filter(p, k, X)) {
      var S := Filter(p, k, X);
      ContentSingleton(id, p.hash);
      assert S == {} || S == {id};
    }
  }

  lemma OneEdgeCut(e: Edge, S: set<nat>)
    ensures CutIds({e}, S) <= {EdgeId(e)}
  {
    assert forall f :: f in Cut({e}, S) ==> f == e;
  }

  /** No run on a graph of one edge inspects a bucket that fools its checksum. */
  lemma OneEdgeFaithful(q: Query, tr: Trace, e: Edge)
    requires q.Valid() && q.E == {e} && q.p.hash(0) != 0
    ensures !LuckOf(q, tr).fooled
  {
    forall r: nat | r < |tr| ensures !FooledAt(q, tr, r) {
      if |tr[r].l.m| == q.n { OneEdgeRound(q, tr[r], r, e); }
    }
  }

  lemma OneEdgeRound(q: Query, rd: Round, r: nat, e: Edge)
    requires q.Valid() && q.E == {e} && q.p.hash(0) != 0 && |rd.l.m| == q.n
    ensures GroupsFaithful(CtxOf(q, r, rd), q.E)
  {
    forall root | HasRoot(rd.l.m, root) ensures FaithfulAt(q.p, CutIds(q.E, Supernode(rd.l, root)), r) {
      OneEdgeCut(e, Supernode(rd.l, root));
      OneIdFaithful(q.p, CutIds(q.E, Supernode(rd.l, root)), EdgeId(e), r);
    }
  }

  lemma EmptySpansNot(e: Edge)
    requires e.src != e.dst
    ensures !SpanningForest({}, {e})
  {
    ConnectedEdge({e}, e);
    Separated({}, {e.src}, e.src, e.dst);
  }

  /** With one sample per sketch the second round throws, so no query on a one-edge graph is answered by a run. */
  lemma OneSampleThrows(cfg: Config, e: Edge, c: Cache, mid: Cache)
    requires cfg.Valid() && cfg.p.samples == 1 && cfg.p.hash(0) != 0 && e.src < e.dst && cfg.n < 6
    requires QueryStep(cfg, {e}, c, mid) && !c.valid
    ensures !mid.valid
  {
    assert Unfold(0);
    OneEdgeFaithful(cfg.Ask({e}), mid.past.trace, e);
    RacesNeedRoom(cfg.Ask({e}), mid.past.trace);
    EmptySpansNot(e);
  }

  lemma ToggleExact(cfg: Config, c: Cache, e: Edge, now: Cache)
    requires ToggleStep(cfg, c, e, now)
    ensures Ascending(cfg.prio, c.parent) && e.src < |c.parent| && e.dst < |c.parent| && now == ToggleCache(cfg, c, e)
  {
    assert Unfold(0);
  }

  lemma OneEdgeSteps()
    ensures GrownForest({}, Edge(0, 1)) == {Edge(0, 1)} && ToggleEdge({}, Edge(0, 1)) == {Edge(0, 1)}
    ensures ToggleEdge({Edge(0, 1)}, Edge(0, 1)) == {}
  {
    Separated({}, {0}, 0, 1);
  }

  /** One update, with the forest and the validity of the cache spelled out. */
  method UpdateExactly(alg: CCSketchAlg, a: nat, b: nat)
    requires alg.Valid() && alg.Flushed() && a < b < alg.cfg.n
    modifies alg
    ensures alg.Valid() && alg.Flushed() && alg.graph == ToggleEdge(old(alg.graph), Edge(a, b))
    ensures alg.forest == if old(alg.dsuValid) then GrownForest(old(alg.forest), Edge(a, b)) else old(alg.forest)
    ensures alg.dsuValid <==> old(alg.dsuValid) && Edge(a, b) !in old(alg.forest)
    ensures alg.past == old(alg.past) && Ascending(alg.cfg.prio, old(alg.parent))
    ensures |old(alg.parent)| == alg.cfg.n
    ensures old(alg.dsuValid) ==> alg.parent == MergedArray(alg.cfg.prio, old(alg.parent), a, b)
  {
    ghost var was := alg.Cached();
    alg.Update(a, b);
    ToggleExact(alg.cfg, was, Edge(a, b), alg.Cached());
  }

  /** Insert, delete and insert one edge: the cache is gone. */
  method MakeUncached(cfg: Config) returns (alg: CCSketchAlg)
    requires cfg.Valid() && cfg.n == 2
    ensures fresh(alg) && alg.Valid() && alg.Flushed() && alg.cfg == cfg && alg.graph == {Edge(0, 1)} && !alg.dsuValid
  {
    alg := new CCSketchAlg(cfg);
    OneEdgeSteps();
    UpdateExactly(alg, 0, 1);
    UpdateExactly(alg, 0, 1);
    UpdateExactly(alg, 0, 1);
  }

  /** With one sample the query then throws. */
  method ThrowingQuery(cfg: Config) returns (a: Answer)
    requires cfg.Valid() && cfg.p.samples == 1 && cfg.p.hash(0) != 0 && cfg.n == 2
    ensures a.Exception?
  {
    var alg := MakeUncached(cfg);
    ghost var before, mid := alg.Cached(), alg.Cached();
    a, mid := alg.ConnectedComponents();
    OneSampleThrows(cfg, Edge(0, 1), before, mid);
  }

  // ---------- a forest query that stops half way ----------

  function Triangle(): set<Edge> { {Edge(0, 1), Edge(1, 2), Edge(0, 2)} }
  function TwoSides(): set<Edge> { {Edge(0, 1), Edge(1, 2)} }

  lemma TriangleSteps()
    ensures GrownForest({}, Edge(0, 1)) == ToggleEdge({}, Edge(0, 1)) == {Edge(0, 1)}
    ensures GrownForest({Edge(0, 1)}, Edge(1, 2)) == ToggleEdge({Edge(0, 1)}, Edge(1, 2)) == TwoSides()
    ensures GrownForest(TwoSides(), Edge(0, 2)) == TwoSides() && ToggleEdge(TwoSides(), Edge(0, 2)) == Triangle()
  {
    Separated({}, {0}, 0, 1);
    Separated({Edge(0, 1)}, {0, 1}, 1, 2);
    ConnectedEdge(TwoSides(), Edge(0, 1));
    ConnectedEdge(TwoSides(), Edge(1, 2));
    ConnectedTrans(TwoSides(), 0, 1, 2);
  }

  method MakeTriangle(cfg: Config) returns (alg: CCSketchAlg)
    requires cfg.Valid() && cfg.n == 3
    ensures fresh(alg) && alg.Valid() && alg.Flushed() && alg.cfg == cfg
    ensures alg.dsuValid && alg.graph == Triangle() && alg.forest == TwoSides()
  {
    alg := new CCSketchAlg(cfg);
    TriangleSteps();
    UpdateExactly(alg, 0, 1);
    UpdateExactly(alg, 1, 2);
    UpdateExactly(alg, 0, 2);
  }

  lemma LeftOver(found: seq<Found>)
    requires |found| > 0 && found[0].mid.forest == TwoSides()
    ensures LeftOf(Triangle(), found, 1) == {Edge(0, 2)}
  {
    assert FlipAll(Triangle(), ForestsOf(found), 0) == Triangle();
  }

  lemma CachedUsed(cfg: Config, E: set<Edge>, c: Cache, mid: Cache)
    requires cfg.Valid() && QueryStep(cfg, E, c, mid) && c.valid
    ensures mid == c
  {
    assert Unfold(0);
  }

  lemma FirstIsCached(cfg: Config, found: seq<Found>)
    requires cfg.Valid() && FoundOk(cfg, Triangle(), found) && |found| > 0
    requires found[0].before.valid && found[0].before.forest == TwoSides()
    ensures found[0].mid.forest == TwoSides()
  {
    assert FoundAt(cfg, Triangle(), found, 0);
    CachedUsed(cfg, LeftOf(Triangle(), found, 0), found[0].before, found[0].mid);
  }

  lemma SecondForestImpossible(cfg: Config, found: seq<Found>)
    requires cfg.Valid() && cfg.p.samples == 1 && cfg.p.hash(0) != 0 && cfg.n == 3 && FoundOk(cfg, Triangle(), found)
    requires |found| > 0 && found[0].mid.forest == TwoSides()
    ensures |found| < 2
  {
    LeftOver(found);
    if |found| >= 2 {
      assert FoundAt(cfg, Triangle(), found, 1);
      OneSampleThrows(cfg, Edge(0, 2), found[1].before, found[1].mid);
      assert false;
    }
  }

  lemma NotAtOnce(cfg: Config, E: set<Edge>, found: seq<Found>, last: Found)
    requires cfg.Valid() && StoppedBy(cfg, E, found, last)
    ensures !last.before.valid
  {
    if last.before.valid { CachedUsed(cfg, LeftOf(E, found, |found|), last.before, last.mid); }
  }

  /** Two forests of a triangle with one sample: the second query throws, and the first forest stays deleted. */
  method ThrowingForests(cfg: Config) returns (a: ForestsAnswer, alg: CCSketchAlg)
    requires cfg.Valid() && cfg.p.samples == 1 && cfg.p.hash(0) != 0 && cfg.n == 3
    ensures a.ForestsException? && alg.graph == {Edge(0, 2)} && alg.updateLocked
  {
    alg := MakeTriangle(cfg);
    ghost var found, last;
    a, found, last := CalcDisjointSpanningForests(alg, 2);
    if a.ForestsException? { NotAtOnce(cfg, Triangle(), found, last); }
    FirstIsCached(cfg, found);
    SecondForestImpossible(cfg, found);
    LeftOver(found);
  }

  // ---------- racing look-ups in a cached answer ----------

  /** Every component answer that can be read from this union-find is exact. */
  ghost predicate AlwaysExact(n: nat, threads: nat, E: set<Edge>, from: seq<nat>) {
    forall arr, after :: CanAnswer(from, threads, arr, after) ==> Exact(n, E, arr)
  }

  lemma AnswersOfRun(prio: seq<nat>, from: seq<nat>, threads: nat, moves: Moves) returns (arr: seq<nat>)
    requires Ascending(prio, from) && Finished(Looked(LookStart(from, threads), moves))
    ensures var l := Looked(LookStart(from, threads), moves);
            && SetAnswers(prio, from, arr) && CanAnswer(from, threads, arr, l.parent)
            && (AllRoots(prio, from, arr) ==> RootAnswers(prio, from, l.ans))
  {
    var l := Looked(LookStart(from, threads), moves);
    StartInv(prio, from, threads);
    LookedInv(prio, from, LookStart(from, threads), moves);
    forall v: nat | v < |from|
      ensures v in l.ans && AnswerOk(prio, from, v, l.ans[v])
    {
      FinishedAnswers(prio, from, l, v);
    }
    arr := seq(|from|, v requires 0 <= v < |from| && v in l.ans => l.ans[v]);
    assert Answers(from, threads, moves, arr, l.parent);
  }

  /** With two or more threads, component answers read from a union-find that holds the components are exact under
      every interleaving if and only if no vertex is more than four links below its root. */
  lemma CachedQueryExactIff(n: nat, prio: seq<nat>, threads: nat, E: set<Edge>, from: seq<nat>)
    requires |from| == n && threads >= 2 && HoldsComponents(prio, from, E)
    ensures AlwaysExact(n, threads, E, from) <==> AtMostFour(prio, from)
  {
    OnceExactIff(prio, from, threads);
    if AtMostFour(prio, from) {
      forall arr, after | CanAnswer(from, threads, arr, after) ensures Exact(n, E, arr) {
        CanAnswerFacts(prio, from, threads, arr, after);
        ExactIffRoots(n, prio, from, E, arr);
      }
    } else {
      var moves: Moves :| Finished(Looked(LookStart(from, threads), moves))
        && !RootAnswers(prio, from, Looked(LookStart(from, threads), moves).ans);
      var arr := AnswersOfRun(prio, from, threads, moves);
      ExactIffRoots(n, prio, from, E, arr);
    }
  }

  lemma ChainEdge(k: nat)
    ensures Edge(k, k + 1) !in ChainEdges(k, 6)
  {
    ChainEdgesBelow(k);
  }

  lemma {:induction false} ChainEdgesBelow(k: nat)
    ensures forall e :: e in ChainEdges(k, 6) ==> e.dst <= k
  {
    if k > 0 { ChainEdgesBelow(k - 1); }
  }

  /** An insertion between the roots k and k + 1 lengthens the chain. */
  lemma ChainGrows(k: nat, forest: set<Edge>)
    requires k < 5 && Represents(Rising(6), ChainTo(6, k, 6), forest)
    ensures MergedArray(Rising(6), ChainTo(6, k, 6), k, k + 1) == ChainTo(6, k + 1, 6)
    ensures GrownForest(forest, Edge(k, k + 1)) == forest + {Edge(k, k + 1)}
  {
    var prio, q := Rising(6), ChainTo(6, k, 6);
    assert q[k] == k && q[k + 1] == k + 1;
    assert HalveUp(prio, HalveUp(prio, q, k), k + 1) == q;
    assert Root(prio, q, k) == k && Root(prio, q, k + 1) == k + 1;
    assert !Same(prio, q, k, k + 1);
    assert q[k := k + 1] == ChainTo(6, k + 1, 6);
  }

  lemma CacheRepresents(cfg: Config, E: set<Edge>, c: Cache)
    requires cfg.Valid() && CacheOk(cfg, E, c)
    ensures Represents(cfg.prio, c.parent, c.forest)
  {
    assert Unfold(0);
  }

  /** Five insertions with ascending priorities: the cache is valid and its union-find is one chain of five links. */
  method MakeChain(cfg: Config) returns (alg: CCSketchAlg)
    requires cfg.Valid() && cfg.n == 6 && cfg.prio == Rising(6)
    ensures fresh(alg) && alg.Valid() && alg.Flushed() && alg.cfg == cfg && alg.past == Past({}, [])
    ensures alg.dsuValid && alg.graph == ChainEdges(5, 6) && alg.parent == ChainTo(6, 5, 6)
  {
    alg := new CCSketchAlg(cfg);
    assert alg.parent == ChainTo(6, 0, 6);
    var k := 0;
    while k < 5
      invariant k <= 5 && fresh(alg) && alg.Valid() && alg.Flushed() && alg.dsuValid && alg.cfg == cfg
      invariant alg.past == Past({}, [])
      invariant alg.graph == alg.forest == ChainEdges(k, 6) && alg.parent == ChainTo(6, k, 6)
    {
      CacheRepresents(cfg, alg.graph, alg.Cached());
      ChainGrows(k, alg.forest);
      ChainEdge(k);
      UpdateExactly(alg, k, k + 1);
      k := k + 1;
    }
  }

  lemma ChainAnswer(threads: nat) returns (arr: seq<nat>, after: seq<nat>)
    requires threads >= 2
    ensures CanAnswer(ChainTo(6, 5, 6), threads, arr, after) && arr == [5, 5, 4, 5, 5, 5]
  {
    var prio, q := Rising(6), ChainTo(6, 5, 6);
    assert Ascending(prio, q);
    var l := ChainRace(threads);
    var order := SomeOrder(l.todo);
    var bs: Begun := [] + [(1, 0), (0, 2)];
    var moves;
    moves, arr, after := AnswerFrom(prio, q, threads, bs, l, order);
    ChainRoots();
    assert arr == [5, 5, 4, 5, 5, 5];
  }

  lemma ChainRace(threads: nat) returns (l: Look)
    requires threads >= 2
    ensures Reach(LookStart(ChainTo(6, 5, 6), threads), [] + [(1, 0), (0, 2)], l) && AllFree(l) && |l.slots| == threads
    ensures l.ans == map[2 := 4, 0 := 5]
  {
    var prio, q := Rising(6), ChainTo(6, 5, 6);
    var l0 := LookStart(q, threads);
    StartInv(prio, q, threads);
    FineStep(prio, q, l0);
    ReachSelf(l0);
    RacePair(l0, [], l0, 0, 1, 0, 1, 2, 3, 4, 5);
    l := Look(q[0 := 2][2 := 4], l0.slots, l0.todo - {0} - {2}, l0.ans[2 := 4][0 := 5]);
  }

  lemma ChainRoots()
    ensures Ascending(Rising(6), ChainTo(6, 5, 6))
    ensures forall v :: 0 <= v < 6 ==> Root(Rising(6), ChainTo(6, 5, 6), v) == 5
  {
    var prio, q := Rising(6), ChainTo(6, 5, 6);
    assert Ascending(prio, q);
    assert Root(prio, q, 5) == 5;
    assert Root(prio, q, 4) == 5;
    assert Root(prio, q, 3) == 5;
    assert Root(prio, q, 2) == 5;
    assert Root(prio, q, 1) == 5;
  }

  /** One cached query can go wrong: six vertices, five insertions, two or more threads. The answer [5, 5, 4, 5, 5, 5]
      is possible and separates vertex 2 from the rest, although the graph is connected. */
  method RacedAnswer(cfg: Config) returns (alg: CCSketchAlg, ghost arr: seq<nat>, ghost after: seq<nat>)
    requires cfg.Valid() && cfg.n == 6 && cfg.prio == Rising(6) && cfg.threads >= 2
    ensures alg.Valid() && alg.dsuValid && alg.cfg == cfg && SpanningForest(alg.forest, alg.graph)
    ensures CanAnswer(alg.parent, cfg.threads, arr, after) && arr == [5, 5, 4, 5, 5, 5]
    ensures !Exact(6, alg.graph, arr) && Connected(alg.graph, 0, 2)
  {
    alg := MakeChain(cfg);
    arr, after := ChainAnswer(cfg.threads);
    EmptyOk(cfg);
    CacheSpans(cfg, alg.graph, alg.Cached());
    SpanningHolds(cfg.prio, alg.parent, alg.forest, alg.graph);
    ChainRoots();
    assert Same(cfg.prio, alg.parent, 0, 2);
  }

  lemma CacheSpans(cfg: Config, E: set<Edge>, c: Cache)
    requires cfg.Valid() && CacheOk(cfg, E, c) && c.valid && c.past == Past({}, [])
    ensures Represents(cfg.prio, c.parent, c.forest) && SpanningForest(c.forest, E)
  {
    EmptyOk(cfg);
    assert Unfold(0);
  }
}
