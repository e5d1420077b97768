/** The cached answer of the connectivity algorithm as a state machine: what an update, a query's emulation and the
    reading of an answer do to it, which replies are possible, and what they tell about the graph. */
module Caches {
  import opened Graphs
  import opened DisjointSets
  import opened XorAlgebra
  import opened Sketches
  import opened Supernodes
  import opened RoundProtocol
  import opened LookUps
  import opened LookUpsExact
  import opened LookUpRaces
  import opened LookUpRun
  import opened QueryLoop
  import opened Traces
  import opened ReturnTypes

  datatype Config = Config(p: Params, n: nat, threads: nat, prio: seq<nat>) {
    ghost predicate Valid() {
      p.Valid() && 0 < threads <= n <= WIDTH && threads < UNSET && |prio| == n
    }

    function Ask(E: set<Edge>): Query { Query(p, n, threads, prio, E) }
  }

  /** The run of the query loop on the graph of that time; no rounds before the first one. */
  datatype Past = Past(graph: set<Edge>, trace: Trace)

  datatype Cache = Cache(valid: bool, parent: seq<nat>, forest: set<Edge>, rounds: nat, past: Past)

  /** What happened in the run behind the cache. */
  ghost function LuckOfPast(cfg: Config, past: Past): Luck
    requires cfg.Valid() && Simple(cfg.n, past.graph)
  {
    LuckOf(cfg.Ask(past.graph), past.trace)
  }

  /** Union-find and forest are in step; a valid cache from a sound run spans the graph. */
  ghost predicate CacheFacts(cfg: Config, E: set<Edge>, c: Cache)
    requires cfg.Valid() && Simple(cfg.n, c.past.graph)
  {
    && Represents(cfg.prio, c.parent, c.forest)
    && (c.past.trace != [] ==> Ended(cfg.Ask(c.past.graph), c.past.trace))
    && (c.valid && LuckOfPast(cfg, c.past).Sound() ==> SpanningForest(c.forest, E))
  }

  /** `CacheFacts`, folded except in proofs that mention `Unfold`. */
  ghost predicate CacheOk(cfg: Config, E: set<Edge>, c: Cache)
    requires cfg.Valid()
  {
    && Simple(cfg.n, E) && |c.parent| == cfg.n && Ascending(cfg.prio, c.parent) && NormalEdges(cfg.n, c.forest)
    && Simple(cfg.n, c.past.graph) && forall o {:trigger Unfold(o)} :: Unfold(o) ==> CacheFacts(cfg, E, c)
  }

  // ---------- the empty graph ----------

  function EmptyCache(n: nat): Cache { Cache(true, Identity(n), {}, 0, Past({}, [])) }

  lemma EmptyOk(cfg: Config)
    requires cfg.Valid()
    ensures CacheOk(cfg, {}, EmptyCache(cfg.n))
    ensures LuckOfPast(cfg, Past({}, [])) == Luck(false, false, false, false, false)
  {
    StartOk(cfg.n, cfg.prio, {}, Luck(false, false, false, false, false));
  }

  // ---------- updates ----------

  /** The forest after an update that finds the cache valid. */
  ghost function GrownForest(F: set<Edge>, e: Edge): set<Edge> { if Connected(F, e.src, e.dst) then F else F + {e} }

  /** The eager union-find: a joining edge is taken up, toggling a forest edge makes the cache invalid. */
  ghost function ToggleCache(cfg: Config, c: Cache, e: Edge): Cache
    requires Ascending(cfg.prio, c.parent) && e.src < |c.parent| && e.dst < |c.parent|
  {
    if !c.valid then c
    else c.(valid := e !in c.forest, parent := MergedArray(cfg.prio, c.parent, e.src, e.dst),
              forest := GrownForest(c.forest, e))
  }

  /** `ToggleCache` as a step, folded except in proofs that mention `Unfold`. */
  ghost predicate ToggleStep(cfg: Config, c: Cache, e: Edge, now: Cache) {
    forall o {:trigger Unfold(o)} :: Unfold(o) ==>
      Ascending(cfg.prio, c.parent) && e.src < |c.parent| && e.dst < |c.parent| && now == ToggleCache(cfg, c, e)
  }

  lemma ToggleFacts(cfg: Config, c: Cache, e: Edge, now: Cache)
    requires ToggleStep(cfg, c, e, now)
    ensures c.forest <= now.forest && (now.valid <==> c.valid && e !in c.forest) && now.rounds == c.rounds
    ensures now.past == c.past
  {
    assert Unfold(0);
  }

  lemma ToggleSimple(n: nat, E: set<Edge>, e: Edge)
    requires Simple(n, E) && e.src < e.dst < n
    ensures Simple(n, ToggleEdge(E, e))
  {
    CutOfToggle(n, E, e, {});
  }

  lemma MergedStays(prio: seq<nat>, parent: seq<nat>, F: set<Edge>, e: Edge)
    requires Represents(prio, parent, F) && e.src < |parent| && e.dst < |parent| && Same(prio, parent, e.src, e.dst)
    ensures |MergedArray(prio, parent, e.src, e.dst)| == |parent|
    ensures Represents(prio, MergedArray(prio, parent, e.src, e.dst), F)
  {
    var q1 := HalveUp(prio, parent, e.src);
    var q := HalveUp(prio, q1, e.dst);
    SameRootsTrans(prio, parent, q1, q);
    SameRootsRepresents(prio, parent, q, F);
  }

  lemma MergedJoins(n: nat, prio: seq<nat>, parent: seq<nat>, F: set<Edge>, E: set<Edge>, exact: bool, e: Edge)
    requires |parent| == n && Represents(prio, parent, F) && NormalEdges(n, F) && e.src < e.dst < n
    requires !Same(prio, parent, e.src, e.dst) && (exact ==> SpanningForest(F, E))
    ensures var q := MergedArray(prio, parent, e.src, e.dst); |q| == n && Represents(prio, q, F + {e})
    ensures NormalEdges(n, F + {e}) && e !in F && (exact ==> SpanningForest(F + {e}, ToggleEdge(E, e)))
  {
    var q1 := HalveUp(prio, parent, e.src);
    var q := HalveUp(prio, q1, e.dst);
    SameRootsTrans(prio, parent, q1, q);
    SameRootsRepresents(prio, parent, q, F);
    JoinKeepsCache(n, prio, q, F, E, exact, e);
  }

  /** The eager merge of an update: union-find and forest stay in step, and an exact cache stays exact unless the edge
      is in the forest. */
  lemma MergeKeepsCache(n: nat, prio: seq<nat>, parent: seq<nat>, F: set<Edge>, E: set<Edge>, exact: bool, e: Edge)
    requires |parent| == n && Represents(prio, parent, F) && NormalEdges(n, F) && e.src < e.dst < n
    requires (exact ==> SpanningForest(F, E))
    ensures Root(prio, parent, e.src) == Root(prio, parent, e.dst) <==> Connected(F, e.src, e.dst)
    ensures var q := MergedArray(prio, parent, e.src, e.dst); |q| == n && Represents(prio, q, GrownForest(F, e))
    ensures NormalEdges(n, GrownForest(F, e)) && (e in F ==> Connected(F, e.src, e.dst))
    ensures exact && e !in F ==> SpanningForest(GrownForest(F, e), ToggleEdge(E, e))
  {
    assert Same(prio, parent, e.src, e.dst) <==> Connected(F, e.src, e.dst);
    if e in F { ConnectedEdge(F, e); }
    if Connected(F, e.src, e.dst) {
      MergedStays(prio, parent, F, e);
      if e !in F { InnerKeepsCache(prio, parent, F, E, exact, e); }
    } else {
      MergedJoins(n, prio, parent, F, E, exact, e);
    }
  }

  lemma ToggleKeeps(cfg: Config, E: set<Edge>, c: Cache, e: Edge, now: Cache)
    requires cfg.Valid() && CacheOk(cfg, E, c) && e.src < e.dst < cfg.n && ToggleStep(cfg, c, e, now)
    ensures CacheOk(cfg, ToggleEdge(E, e), now)
  {
    assert Unfold(0);
    ToggleSimple(cfg.n, E, e);
    MergeKeepsCache(cfg.n, cfg.prio, c.parent, c.forest, E, c.valid && LuckOfPast(cfg, c.past).Sound(), e);
  }

  /** The branches of `pre_insert`. */
  method EagerMerge(cfg: Config, parent: seq<nat>, F: set<Edge>, valid: bool, e: Edge, ghost E: set<Edge>,
                    ghost c: Cache)
    returns (q: seq<nat>, grown: set<Edge>, kept: bool)
    requires cfg.Valid() && CacheOk(cfg, E, c) && e.src < e.dst < cfg.n && c.parent == parent && c.forest == F
    requires c.valid == valid
    ensures (kept ==> valid) && ToggleStep(cfg, c, e, Cache(kept, q, grown, c.rounds, c.past))
    ensures CacheOk(cfg, ToggleEdge(E, e), Cache(kept, q, grown, c.rounds, c.past))
  {
    MergeForest(cfg, E, c, e);
    q, grown, kept := parent, F, valid;
    if valid {
      q := MergedArray(cfg.prio, parent, e.src, e.dst);
      if Root(cfg.prio, parent, e.src) != Root(cfg.prio, parent, e.dst) {
        grown := F + {e};
      } else if e in F {
        kept := false;
      }
    }
    ToggleKeeps(cfg, E, c, e, Cache(kept, q, grown, c.rounds, c.past));
  }

  lemma MergeForest(cfg: Config, E: set<Edge>, c: Cache, e: Edge)
    requires cfg.Valid() && CacheOk(cfg, E, c) && e.src < e.dst < cfg.n
    ensures Root(cfg.prio, c.parent, e.src) == Root(cfg.prio, c.parent, e.dst) <==> Connected(c.forest, e.src, e.dst)
    ensures e in c.forest ==> Connected(c.forest, e.src, e.dst)
  {
    assert Unfold(0);
    assert Same(cfg.prio, c.parent, e.src, e.dst) <==> Connected(c.forest, e.src, e.dst);
    if e in c.forest { ConnectedEdge(c.forest, e); }
  }

  // ---------- the emulation behind a query ----------

  /** A valid cache is used as it is; otherwise some run of the query loop on the current graph fills it. */
  ghost predicate Refreshed(cfg: Config, E: set<Edge>, c: Cache, now: Cache)
    requires cfg.Valid() && Simple(cfg.n, E)
  {
    if c.valid then now == c
    else
      && now.past.graph == E && Ended(cfg.Ask(E), now.past.trace)
      && var rd := Last(now.past.trace);
         && now.valid == !rd.sh.failed && now.parent == rd.settled && now.forest == rd.sh.forest
         && now.rounds == if rd.sh.failed then c.rounds else |now.past.trace| - 1
  }

  /** What a query can rely on. Without mishaps more than log2(n) samples bring an answer. A sound run spans the graph.
      Right after a faithful run, whatever the look-ups did, the forest is part of the graph and sets are connected. */
  ghost predicate Reliable(cfg: Config, E: set<Edge>, c: Cache, now: Cache)
    requires cfg.Valid() && CacheOk(cfg, E, now)
  {
    var k := LuckOfPast(cfg, now.past);
    && (k.Calm() && cfg.n < Pow2(cfg.p.samples) ==> now.valid)
    && (now.valid && k.Sound() ==> SpanningForest(now.forest, E) && HoldsComponents(cfg.prio, now.parent, E))
    && (!c.valid && now.valid && !k.fooled ==> now.forest <= E && (SpanningForest(now.forest, E) <==> !k.torn))
    && (!c.valid && now.valid && !k.fooled ==> TrueSets(cfg.prio, now.parent, E))
    && (!c.valid && now.valid ==> now.rounds < cfg.p.samples && (now.rounds == 0 ==> now.forest == {}))
    && (!c.valid && !now.valid && !k.fooled ==> |now.past.trace| == cfg.p.samples + 1)
  }

  /** Vertices in one set are connected in the graph. */
  ghost predicate TrueSets(prio: seq<nat>, parent: seq<nat>, E: set<Edge>)
    requires Ascending(prio, parent)
  {
    forall x: nat, y: nat :: x < |parent| && y < |parent| && Same(prio, parent, x, y) ==> Connected(E, x, y)
  }

  lemma FreshRun(cfg: Config, E: set<Edge>, c: Cache, now: Cache)
    requires cfg.Valid() && Simple(cfg.n, E) && !c.valid && Refreshed(cfg, E, c, now)
    ensures CacheOk(cfg, E, now)
    ensures var k := LuckOfPast(cfg, now.past);
            && (now.valid && !k.fooled ==>
                now.forest <= E && TrueSets(cfg.prio, now.parent, E) && (SpanningForest(now.forest, E) <==> !k.torn))
            && (now.valid ==> now.rounds < cfg.p.samples && (now.rounds == 0 ==> now.forest == {}))
  {
    var q, tr := cfg.Ask(E), now.past.trace;
    RunEnds(q, tr);
    if now.valid { RunEndsNormally(q, tr); }
  }

  lemma FreshEnd(cfg: Config, E: set<Edge>, c: Cache, now: Cache)
    requires cfg.Valid() && Simple(cfg.n, E) && !c.valid && Refreshed(cfg, E, c, now)
    ensures var k := LuckOf(cfg.Ask(E), now.past.trace);
            && (k.Calm() && cfg.n < Pow2(cfg.p.samples) ==> now.valid)
            && (!now.valid && !k.fooled ==> |now.past.trace| == cfg.p.samples + 1)
  {
    var q, tr := cfg.Ask(E), now.past.trace;
    if LuckOf(q, tr).Calm() { CalmRunEnds(q, tr); }
    if !now.valid && !LuckOf(q, tr).fooled { RunThrows(q, tr); }
  }

  /** Every refreshed cache is in order and reliable. */
  lemma RefreshKeeps(cfg: Config, E: set<Edge>, c: Cache, now: Cache)
    requires cfg.Valid() && CacheOk(cfg, E, c) && Refreshed(cfg, E, c, now)
    ensures CacheOk(cfg, E, now) && Reliable(cfg, E, c, now)
  {
    assert Unfold(0);
    if !c.valid {
      FreshRun(cfg, E, c, now);
      FreshEnd(cfg, E, c, now);
    }
    if now.valid && LuckOfPast(cfg, now.past).Sound() { SpanningHolds(cfg.prio, now.parent, now.forest, E); }
  }

  /** How a query comes by the cache it answers from, folded except in proofs that mention `Unfold`. */
  ghost predicate QueryStep(cfg: Config, E: set<Edge>, c: Cache, mid: Cache)
    requires cfg.Valid()
  {
    && CacheOk(cfg, E, mid)
    && forall o {:trigger Unfold(o)} :: Unfold(o) ==> Refreshed(cfg, E, c, mid) && Reliable(cfg, E, c, mid)
  }

  /** `Refreshed`, folded except in proofs that mention `Unfold`. */
  ghost predicate FillStep(cfg: Config, E: set<Edge>, c: Cache, now: Cache)
    requires cfg.Valid() && Simple(cfg.n, E)
  {
    forall o {:trigger Unfold(o)} :: Unfold(o) ==> Refreshed(cfg, E, c, now)
  }

  lemma NothingToFill(cfg: Config, E: set<Edge>, c: Cache)
    requires cfg.Valid() && Simple(cfg.n, E) && c.valid
    ensures FillStep(cfg, E, c, c)
  {
  }

  lemma QueryStepOk(cfg: Config, E: set<Edge>, c: Cache, mid: Cache)
    requires cfg.Valid() && CacheOk(cfg, E, c) && FillStep(cfg, E, c, mid)
    ensures QueryStep(cfg, E, c, mid)
  {
    assert Unfold(0);
    RefreshKeeps(cfg, E, c, mid);
  }

  // ---------- reading an answer ----------

  /** Look-ups of all vertices, each once, on a valid cache: the answers and the halved union-find are those of some
      run. */
  ghost predicate ReadStep(cfg: Config, c: Cache, now: Cache, roots: seq<nat>, count: nat) {
    && CanAnswer(c.parent, cfg.threads, roots, now.parent) && count == |RootSet(c.parent)|
    && now == c.(parent := now.parent)
  }

  lemma SameRootsCache(cfg: Config, E: set<Edge>, c: Cache, now: Cache)
    requires cfg.Valid() && CacheOk(cfg, E, c) && now == c.(parent := now.parent)
    requires SameRoots(cfg.prio, c.parent, now.parent)
    ensures CacheOk(cfg, E, now)
  {
    assert Unfold(0);
    SameRootsRepresents(cfg.prio, c.parent, now.parent, c.forest);
  }

  lemma ReadKeeps(cfg: Config, E: set<Edge>, c: Cache, now: Cache, roots: seq<nat>, count: nat)
    requires cfg.Valid() && CacheOk(cfg, E, c) && ReadStep(cfg, c, now, roots, count)
    ensures CacheOk(cfg, E, now) && SetAnswers(cfg.prio, c.parent, roots)
    ensures HoldsComponents(cfg.prio, c.parent, E) ==> Told(cfg.n, cfg.prio, cfg.threads, E, c.parent, roots, count)
    ensures TrueSets(cfg.prio, c.parent, E) ==> TruePairs(E, roots)
  {
    CanAnswerFacts(cfg.prio, c.parent, cfg.threads, roots, now.parent);
    SameRootsCache(cfg, E, c, now);
    if HoldsComponents(cfg.prio, c.parent, E) { Tell(cfg.n, cfg.prio, cfg.threads, E, c.parent, roots, now.parent); }
    if TrueSets(cfg.prio, c.parent, E) { AnswersTrue(cfg.prio, c.parent, E, roots); }
  }

  /** Vertices with the same answer are connected. */
  ghost predicate TruePairs(E: set<Edge>, roots: seq<nat>) {
    forall x: nat, y: nat :: x < |roots| && y < |roots| && roots[x] == roots[y] ==> Connected(E, x, y)
  }

  lemma AnswersTrue(prio: seq<nat>, parent: seq<nat>, E: set<Edge>, roots: seq<nat>)
    requires Ascending(prio, parent) && TrueSets(prio, parent, E) && SetAnswers(prio, parent, roots)
    ensures TruePairs(E, roots)
  {
    forall x: nat, y: nat | x < |roots| && y < |roots| && roots[x] == roots[y] ensures Connected(E, x, y) {
      assert AnswerOk(prio, parent, x, roots[x]) && AnswerOk(prio, parent, y, roots[y]);
      assert Same(prio, parent, x, y);
    }
  }

  // ---------- what an answer tells ----------

  /** The sets of the union-find are the connected components. */
  ghost predicate HoldsComponents(prio: seq<nat>, parent: seq<nat>, E: set<Edge>) {
    && Ascending(prio, parent)
    && forall x: nat, y: nat :: x < |parent| && y < |parent| ==> (Same(prio, parent, x, y) <==> Connected(E, x, y))
  }

  lemma SpanningHolds(prio: seq<nat>, parent: seq<nat>, F: set<Edge>, E: set<Edge>)
    requires Represents(prio, parent, F) && SpanningForest(F, E)
    ensures HoldsComponents(prio, parent, E)
  {
    forall x: nat, y: nat | x < |parent| && y < |parent| ensures Same(prio, parent, x, y) <==> Connected(E, x, y) {
      AnswerExact(|parent|, prio, parent, F, E, x, y);
    }
  }

  /** An answer whose entries lie in the right sets, roots answering themselves, is exact if and only if every entry is
      a root. */
  lemma ExactIffRoots(n: nat, prio: seq<nat>, parent: seq<nat>, E: set<Edge>, arr: seq<nat>)
    requires |parent| == n && HoldsComponents(prio, parent, E) && SetAnswers(prio, parent, arr)
    ensures Exact(n, E, arr) <==> AllRoots(prio, parent, arr)
  {
    if Exact(n, E, arr) {
      forall v | 0 <= v < n ensures arr[v] == Root(prio, parent, v) {
        var r := Root(prio, parent, v);
        assert Same(prio, parent, v, r) && AnswerOk(prio, parent, r, arr[r]);
        assert Connected(E, v, r) && arr[v] == arr[r];
      }
    }
  }

  /** `reps` has exactly one vertex of every component. */
  ghost predicate Representatives(n: nat, E: set<Edge>, reps: set<nat>) {
    && (forall r :: r in reps ==> r < n)
    && (forall r, s :: r in reps && s in reps && r != s ==> !Connected(E, r, s))
    && (forall v: nat :: v < n ==> Joined(E, v, reps))
  }

  ghost predicate Joined(E: set<Edge>, v: nat, reps: set<nat>) { exists r :: r in reps && Connected(E, v, r) }

  lemma RootsRepresent(n: nat, prio: seq<nat>, parent: seq<nat>, E: set<Edge>)
    requires |parent| == n && HoldsComponents(prio, parent, E)
    ensures Representatives(n, E, RootSet(parent))
  {
    forall v: nat | v < n ensures Joined(E, v, RootSet(parent)) {
      var r := Root(prio, parent, v);
      assert Same(prio, parent, v, r) && r in RootSet(parent);
    }
    forall r, s | r in RootSet(parent) && s in RootSet(parent) && r != s ensures !Connected(E, r, s) {
      assert !Same(prio, parent, r, s);
    }
  }

  /** What a component query tells about the graph `E`: the answers of some run of racing look-ups on a union-find
      `from` that holds the components. The count is exact; the entries are exact if and only if they are roots, as
      they are with one thread or when no vertex is more than four links below its root. */
  ghost predicate Told(n: nat, prio: seq<nat>, threads: nat, E: set<Edge>, from: seq<nat>, arr: seq<nat>, count: nat) {
    && |from| == n && HoldsComponents(prio, from, E) && SetAnswers(prio, from, arr)
    && (exists after :: CanAnswer(from, threads, arr, after))
    && (exists reps :: Representatives(n, E, reps) && count == |reps|)
    && (Exact(n, E, arr) <==> AllRoots(prio, from, arr))
    && (threads == 1 || AtMostFour(prio, from) ==> Exact(n, E, arr))
  }

  lemma Tell(n: nat, prio: seq<nat>, threads: nat, E: set<Edge>, from: seq<nat>, arr: seq<nat>, after: seq<nat>)
    requires |from| == n && HoldsComponents(prio, from, E) && CanAnswer(from, threads, arr, after)
    ensures Told(n, prio, threads, E, from, arr, |RootSet(from)|)
  {
    CanAnswerFacts(prio, from, threads, arr, after);
    ExactIffRoots(n, prio, from, E, arr);
    RootsRepresent(n, prio, from, E);
  }

  /** With few vertices the answer is exact however many threads look up. */
  lemma ToldFew(n: nat, prio: seq<nat>, threads: nat, E: set<Edge>, from: seq<nat>, arr: seq<nat>, count: nat)
    requires Told(n, prio, threads, E, from, arr, count) && n < 6
    ensures Exact(n, E, arr)
  {
    FewAreShallow(prio, from);
  }

  // ---------- the three queries ----------

  datatype Answer = Components(roots: seq<nat>, count: nat) | Exception
  datatype PointAnswer = Joint(yes: bool) | PointException
  datatype ForestAnswer = Forest(edges: set<Edge>) | ForestException

  /** A component answer read from `mid`. After a sound run the cache holds the components and `Told` says what racing
      look-ups make of it; right after a faithful run, vertices with the same answer are connected in any case. */
  ghost predicate ComponentsReply(cfg: Config, E: set<Edge>, c: Cache, mid: Cache, now: Cache, a: Answer)
    requires cfg.Valid() && Simple(cfg.n, mid.past.graph)
  {
    && (if mid.valid then a.Components? && ReadStep(cfg, mid, now, a.roots, a.count) else a.Exception? && now == mid)
    && (a.Components? && LuckOfPast(cfg, mid.past).Sound() ==>
          Told(cfg.n, cfg.prio, cfg.threads, E, mid.parent, a.roots, a.count))
    && (a.Components? && !c.valid && !LuckOfPast(cfg, mid.past).fooled ==> TruePairs(E, a.roots))
  }

  /** A point answer: two look-ups on one thread. */
  ghost predicate PointReply(cfg: Config, E: set<Edge>, c: Cache, mid: Cache, now: Cache, x: nat, y: nat,
                             a: PointAnswer)
    requires cfg.Valid() && Simple(cfg.n, mid.past.graph)
    requires Ascending(cfg.prio, mid.parent) && x < |mid.parent| && y < |mid.parent|
  {
    && (if mid.valid then
          && a == Joint(Same(cfg.prio, mid.parent, x, y))
          && now == mid.(parent := HalveUp(cfg.prio, HalveUp(cfg.prio, mid.parent, x), y))
        else a.PointException? && now == mid)
    && (a.Joint? && LuckOfPast(cfg, mid.past).Sound() ==> (a.yes <==> Connected(E, x, y)))
    && (a.Joint? && !c.valid && !LuckOfPast(cfg, mid.past).fooled && a.yes ==> Connected(E, x, y))
  }

  /** A forest answer; a component answer is also built, and dropped. */
  ghost predicate ForestReply(cfg: Config, E: set<Edge>, c: Cache, mid: Cache, now: Cache, a: ForestAnswer)
    requires cfg.Valid() && Simple(cfg.n, mid.past.graph)
  {
    && (if mid.valid then a == Forest(mid.forest) && exists roots, count :: ReadStep(cfg, mid, now, roots, count)
        else a.ForestException? && now == mid)
    && (a.Forest? && LuckOfPast(cfg, mid.past).Sound() ==> SpanningForest(a.edges, E))
    && (a.Forest? && !c.valid && !LuckOfPast(cfg, mid.past).fooled ==> a.edges <= E)
  }

  // The same, folded except in proofs that mention `Unfold`.
  ghost predicate ComponentsStep(cfg: Config, E: set<Edge>, c: Cache, mid: Cache, now: Cache, a: Answer)
    requires cfg.Valid() && Simple(cfg.n, mid.past.graph)
  {
    && a.Components? == mid.valid == now.valid && now.forest == mid.forest && now.past == mid.past
    && now.rounds == mid.rounds
    && forall o {:trigger Unfold(o)} :: Unfold(o) ==> ComponentsReply(cfg, E, c, mid, now, a)
  }

  ghost predicate PointStep(cfg: Config, E: set<Edge>, c: Cache, mid: Cache, now: Cache, x: nat, y: nat, a: PointAnswer)
    requires cfg.Valid() && Simple(cfg.n, mid.past.graph)
    requires Ascending(cfg.prio, mid.parent) && x < |mid.parent| && y < |mid.parent|
  {
    && a.Joint? == mid.valid == now.valid
    && forall o {:trigger Unfold(o)} :: Unfold(o) ==> PointReply(cfg, E, c, mid, now, x, y, a)
  }

  ghost predicate ForestStep(cfg: Config, E: set<Edge>, c: Cache, mid: Cache, now: Cache, a: ForestAnswer)
    requires cfg.Valid() && Simple(cfg.n, mid.past.graph)
  {
    && a.Forest? == mid.valid == now.valid
    && forall o {:trigger Unfold(o)} :: Unfold(o) ==> ForestReply(cfg, E, c, mid, now, a)
  }

  lemma NoComponents(cfg: Config, E: set<Edge>, c: Cache, mid: Cache)
    requires cfg.Valid() && Simple(cfg.n, mid.past.graph) && !mid.valid
    ensures ComponentsStep(cfg, E, c, mid, mid, Exception)
  {
  }

  lemma ComponentsMean(cfg: Config, E: set<Edge>, c: Cache, mid: Cache, now: Cache, roots: seq<nat>, count: nat)
    requires cfg.Valid() && QueryStep(cfg, E, c, mid) && mid.valid && ReadStep(cfg, mid, now, roots, count)
    ensures CacheOk(cfg, E, now) && ComponentsStep(cfg, E, c, mid, now, Components(roots, count))
  {
    assert Unfold(0);
    ReadKeeps(cfg, E, mid, now, roots, count);
  }

  lemma ForestMeans(cfg: Config, E: set<Edge>, c: Cache, mid: Cache, now: Cache, a: Answer)
    requires cfg.Valid() && QueryStep(cfg, E, c, mid) && ComponentsStep(cfg, E, c, mid, now, a)
    ensures ForestStep(cfg, E, c, mid, now, if a.Components? then Forest(mid.forest) else ForestException)
  {
    assert Unfold(0);
    if mid.valid { assert ReadStep(cfg, mid, now, a.roots, a.count); }
  }

  lemma PointMeans(cfg: Config, E: set<Edge>, c: Cache, mid: Cache, x: nat, y: nat)
    requires cfg.Valid() && QueryStep(cfg, E, c, mid) && x < cfg.n && y < cfg.n
    ensures var now := if mid.valid then mid.(parent := HalveUp(cfg.prio, HalveUp(cfg.prio, mid.parent, x), y))
                       else mid;
            var a := if mid.valid then Joint(Same(cfg.prio, mid.parent, x, y)) else PointException;
            CacheOk(cfg, E, now) && PointStep(cfg, E, c, mid, now, x, y, a)
  {
    assert Unfold(0);
    if mid.valid {
      var q := HalveUp(cfg.prio, HalveUp(cfg.prio, mid.parent, x), y);
      SameRootsTrans(cfg.prio, mid.parent, HalveUp(cfg.prio, mid.parent, x), q);
      SameRootsCache(cfg, E, mid, mid.(parent := q));
    }
  }

  /** The answer object built from a valid cache; its look-ups halve paths of the union-find. */
  method ReadFrom(cfg: Config, parent: seq<nat>, ghost E: set<Edge>, ghost c: Cache, ghost mid: Cache)
    returns (a: Answer, after: seq<nat>)
    requires cfg.Valid() && QueryStep(cfg, E, c, mid) && mid.valid && mid.parent == parent
    ensures a.Components? && CacheOk(cfg, E, mid.(parent := after))
    ensures ComponentsStep(cfg, E, c, mid, mid.(parent := after), a)
  {
    var roots, count;
    roots, count, after := ComponentsOf(cfg.prio, parent, cfg.threads);
    ComponentsMean(cfg, E, c, mid, mid.(parent := after), roots, count);
    a := Components(roots, count);
  }

  method LookUpTwo(cfg: Config, parent: seq<nat>, x: nat, y: nat, ghost E: set<Edge>, ghost c: Cache, ghost mid: Cache)
    returns (a: PointAnswer, q: seq<nat>)
    requires cfg.Valid() && QueryStep(cfg, E, c, mid) && mid.valid && mid.parent == parent && x < cfg.n && y < cfg.n
    ensures a.Joint? && CacheOk(cfg, E, mid.(parent := q)) && PointStep(cfg, E, c, mid, mid.(parent := q), x, y, a)
  {
    PointMeans(cfg, E, c, mid, x, y);
    q := HalveUp(cfg.prio, HalveUp(cfg.prio, parent, x), y);
    a := Joint(Root(cfg.prio, parent, x) == Root(cfg.prio, parent, y));
  }
}
