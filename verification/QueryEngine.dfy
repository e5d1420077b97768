/** The connectivity algorithm over whole runs: edge updates with the eager union-find, batched updates, and queries
    by Boruvka emulation on the sketches. */
module QueryEngine {
  import opened Graphs
  import opened XorAlgebra
  import opened Sketches
  import opened Supernodes
  import opened RoundProtocol
  import opened BoruvkaRounds
  import opened QueryLoop
  import opened Traces
  import opened Emulation
  import opened Caches

  /** The vertex sketches stand for the index sets `content`, ready to be sampled from the start. */
  ghost predicate Stands(p: Params, sks: seq<SketchVal>, content: seq<set<nat>>)
    requires p.Valid()
  {
    |sks| == |content| && forall v :: 0 <= v < |sks| ==> sks[v] == SketchVal(SketchOf(p, content[v]), 0)
  }

  /** Every half-edge of the stream has reached its vertex. */
  ghost predicate InStep(E: set<Edge>, content: seq<set<nat>>) {
    forall v :: 0 <= v < |content| ==> content[v] == CutIds(E, {v})
  }

  function ToggleAt(content: seq<set<nat>>, v: nat, x: nat): seq<set<nat>>
    requires v < |content|
  {
    content[v := Toggle(content[v], x)]
  }

  lemma UpdateStands(p: Params, sks: seq<SketchVal>, content: seq<set<nat>>, v: nat, x: nat)
    requires p.Valid() && Stands(p, sks, content) && v < |sks|
    ensures |sks[v].buckets| == p.Len()
    ensures Stands(p, sks[v := sks[v].(buckets := UpdateFn(p, sks[v].buckets, x))], ToggleAt(content, v, x))
  {
    UpdateToggles(p, content[v], x);
  }

  lemma BatchStands(p: Params, sks: seq<SketchVal>, content: seq<set<nat>>, v: nat, ids: seq<nat>)
    requires p.Valid() && Stands(p, sks, content) && v < |sks|
    ensures |sks[v].buckets| == p.Len()
    ensures Stands(p, sks[v := sks[v].(buckets := MergeFn(sks[v].buckets, UpdateAll(p, ZeroFn(p), ids)))],
                   content[v := ToggleAll(content[v], ids)])
  {
    BatchToggles(p, content[v], ids);
  }

  /** Both half-edges together deliver the edge. */
  lemma BothHalves(n: nat, E: set<Edge>, content: seq<set<nat>>, a: nat, b: nat)
    requires Simple(n, E) && |content| == n && a < n && b < n && a != b && InStep(E, content)
    ensures InStep(ToggleEdge(E, Normal(a, b)), ToggleAt(ToggleAt(content, a, PairId(a, b)), b, PairId(a, b)))
  {
    var e := Normal(a, b);
    var now := ToggleAt(ToggleAt(content, a, PairId(a, b)), b, PairId(a, b));
    forall v | 0 <= v < n ensures now[v] == CutIds(ToggleEdge(E, e), {v}) {
      CutOfToggle(n, E, e, {v});
    }
  }

  lemma StandsHold(p: Params, n: nat, E: set<Edge>, sks: seq<SketchVal>, content: seq<set<nat>>)
    requires p.Valid() && |content| == n && Stands(p, sks, content) && InStep(E, content)
    ensures SketchesHold(p, n, E, sks) && forall v :: 0 <= v < n ==> sks[v].sampleIdx == 0
  {
  }

  function ResetAll(sks: seq<SketchVal>): (r: seq<SketchVal>)
    ensures |r| == |sks| && forall v :: 0 <= v < |r| ==> r[v] == SketchVal(sks[v].buckets, 0)
  {
    seq(|sks|, v requires 0 <= v < |sks| => SketchVal(sks[v].buckets, 0))
  }

  /** Resetting the sample positions brings back the sketches as they were before the query. */
  lemma ResetRestores(p: Params, n: nat, E: set<Edge>, before: seq<SketchVal>, now: seq<SketchVal>,
                      content: seq<set<nat>>)
    requires p.Valid() && |content| == n && Stands(p, before, content) && InStep(E, content)
    requires SketchesHold(p, n, E, now)
    ensures ResetAll(now) == before
  {
  }

  method FillCache(cfg: Config, sks0: seq<SketchVal>, ghost E: set<Edge>, ghost c: Cache)
    returns (ok: bool, sks: seq<SketchVal>, parent: seq<nat>, forest: set<Edge>, rounds: nat, ghost run: Past)
    requires cfg.Valid() && Simple(cfg.n, E) && !c.valid
    requires SketchesHold(cfg.p, cfg.n, E, sks0) && forall v :: 0 <= v < cfg.n ==> sks0[v].sampleIdx == 0
    ensures SketchesHold(cfg.p, cfg.n, E, sks)
    ensures FillStep(cfg, E, c, Cache(ok, parent, forest, if ok then rounds else c.rounds, run))
  {
    ghost var tr;
    ok, sks, parent, forest, rounds, tr := Emulate(cfg.p, cfg.n, cfg.threads, cfg.prio, sks0, E);
    run := Past(E, tr);
  }

  class CCSketchAlg {
    const cfg: Config
    var sks: seq<SketchVal>
    var parent: seq<nat>
    var forest: set<Edge>
    var dsuValid: bool
    var sharedDsuValid: bool
    var updateLocked: bool
    var lastQueryRounds: nat
    ghost var graph: set<Edge>           // the edges of the stream so far
    ghost var content: seq<set<nat>>     // what each vertex sketch stands for
    ghost var past: Past                 // the last emulation

    ghost function Cached(): Cache
      reads this
    {
      Cache(dsuValid, parent, forest, lastQueryRounds, past)
    }

    /** Kept by every operation. Whenever the cache is valid and comes from a sound run of the query loop, it is
        exact. */
    ghost predicate Valid()
      reads this
    {
      && cfg.Valid() && |content| == cfg.n && Stands(cfg.p, sks, content)
      && CacheOk(cfg, graph, Cached())
      && dsuValid == sharedDsuValid
      && (dsuValid ==> !updateLocked)
    }

    /** Every update has reached the sketches, as after flushing the buffers. */
    ghost predicate Flushed()
      reads this
    {
      InStep(graph, content)
    }

    constructor (config: Config)
      requires config.Valid()
      ensures Valid() && Flushed() && graph == {} && cfg == config
      ensures Cached() == EmptyCache(config.n) && !updateLocked
    {
      cfg := config;
      sks := seq(config.n, v => SketchVal(ZeroFn(config.p), 0));
      parent, forest := Identity(config.n), {};
      dsuValid, sharedDsuValid, updateLocked, lastQueryRounds := true, true, false, 0;
      graph, past := {}, Past({}, []);
      content := seq(config.n, v => {});
      new;
      EmptyOk(cfg);
      ZeroIsEmpty(cfg.p);
      EmptyInStep(cfg.n, content);
    }

    // ---------- updates ----------

    /** `pre_insert` with the eager union-find: keeps a valid cache valid unless a forest edge is toggled. */
    method PreInsert(a: nat, b: nat)
      requires Valid() && a < cfg.n && b < cfg.n && a != b
      modifies this`parent, this`forest, this`dsuValid, this`sharedDsuValid, this`graph
      ensures Valid() && graph == ToggleEdge(old(graph), Normal(a, b))
      ensures ToggleStep(cfg, old(Cached()), Normal(a, b), Cached())
    {
      var e := Normal(a, b);
      var q, grown, kept := EagerMerge(cfg, parent, forest, dsuValid, e, graph, Cached());
      parent, forest, dsuValid, sharedDsuValid := q, grown, kept, kept;
      graph := ToggleEdge(graph, e);
    }

    method UpdateSketch(v: nat, id: nat)
      requires Valid() && v < cfg.n
      modifies this`sks, this`content
      ensures Valid() && content == ToggleAt(old(content), v, id)
    {
      UpdateStands(cfg.p, sks, content, v, id);
      sks := sks[v := sks[v].(buckets := UpdateFn(cfg.p, sks[v].buckets, id))];
      content := ToggleAt(content, v, id);
    }

    /** `update`: an insertion or deletion of one edge, applied to both end points at once. */
    method Update(a: nat, b: nat)
      requires Valid() && a < cfg.n && b < cfg.n && a != b
      modifies this`parent, this`forest, this`dsuValid, this`sharedDsuValid, this`graph, this`sks, this`content
      ensures Valid() && graph == ToggleEdge(old(graph), Normal(a, b))
      ensures old(Flushed()) ==> Flushed()
      ensures ToggleStep(cfg, old(Cached()), Normal(a, b), Cached())
    {
      PreInsert(a, b);
      var id := PairId(a, b);
      if old(InStep(graph, content)) { BothHalves(cfg.n, old(graph), content, a, b); }
      UpdateSketch(a, id);
      UpdateSketch(b, id);
    }

    /** `apply_update_batch`: half-edges of one source vertex; refused while the algorithm is locked. */
    method ApplyUpdateBatch(src: nat, dsts: seq<nat>) returns (ok: bool)
      requires Valid() && src < cfg.n
      modifies this`sks, this`content
      ensures Valid() && ok == !updateLocked
      ensures ok ==> content == old(content)[src := ToggleAll(old(content)[src], HalfIds(src, dsts))]
      ensures !ok ==> sks == old(sks) && content == old(content)
    {
      ok := !updateLocked;
      if ok {
        var ids := HalfIds(src, dsts);
        BatchStands(cfg.p, sks, content, src, ids);
        sks := sks[src := sks[src].(buckets := MergeFn(sks[src].buckets, UpdateAll(cfg.p, ZeroFn(cfg.p), ids)))];
        content := content[src := ToggleAll(content[src], ids)];
      }
    }

    // ---------- queries ----------

    /** `boruvka_emulation` on the fields of the algorithm: locks out batches, and unlocks them again only when it
        returns normally. The cache is filled by a run of the query loop on the current graph. */
    method BoruvkaEmulation() returns (ok: bool)
      requires Valid() && Flushed() && !dsuValid
      modifies this`sks, this`parent, this`forest, this`dsuValid, this`sharedDsuValid, this`updateLocked,
               this`lastQueryRounds, this`past
      ensures SketchesHold(cfg.p, cfg.n, graph, sks)
      ensures FillStep(cfg, graph, old(Cached()), Cached())
      ensures dsuValid == sharedDsuValid == ok && updateLocked == !ok
    {
      updateLocked := true;
      StandsHold(cfg.p, cfg.n, graph, sks, content);
      var now, q, f, rounds;
      ghost var run;
      ok, now, q, f, rounds, run := FillCache(cfg, sks, graph, Cached());
      sks, parent, forest, past := now, q, f, run;
      if ok {
        lastQueryRounds := rounds;
        dsuValid, sharedDsuValid, updateLocked := true, true, false;
      }
    }

    /** The common part of all queries: answer from the cache, or run the emulation and reset the sample positions.
        A failed emulation leaves batches locked out until a later query succeeds. */
    method Refresh() returns (ok: bool)
      requires Valid() && (dsuValid || Flushed())
      modifies this`sks, this`parent, this`forest, this`dsuValid, this`sharedDsuValid, this`updateLocked,
               this`lastQueryRounds, this`past
      ensures Valid() && sks == old(sks) && ok == dsuValid == !updateLocked
      ensures QueryStep(cfg, graph, old(Cached()), Cached())
    {
      ghost var before := Cached();
      ok := true;
      if !sharedDsuValid {
        ok := BoruvkaEmulation();
        ResetRestores(cfg.p, cfg.n, graph, old(sks), sks, content);
        sks := ResetAll(sks);
      } else {
        NothingToFill(cfg, graph, before);
      }
      QueryStepOk(cfg, graph, before, Cached());
    }

    /** `connected_components`: `mid` is the cache that the answer was read from. */
    method ConnectedComponents() returns (a: Answer, ghost mid: Cache)
      requires Valid() && (dsuValid || Flushed())
      modifies this`sks, this`parent, this`forest, this`dsuValid, this`sharedDsuValid, this`updateLocked,
               this`lastQueryRounds, this`past
      ensures Valid() && sks == old(sks) && a.Components? == dsuValid == !updateLocked
      ensures QueryStep(cfg, graph, old(Cached()), mid) && ComponentsStep(cfg, graph, old(Cached()), mid, Cached(), a)
    {
      ghost var before := Cached();
      var ok := Refresh();
      mid := Cached();
      if ok {
        a, parent := ReadFrom(cfg, parent, graph, before, mid);
      } else {
        NoComponents(cfg, graph, before, mid);
        a := Exception;
      }
    }

    /** `point_query`. */
    method PointQuery(x: nat, y: nat) returns (a: PointAnswer, ghost mid: Cache)
      requires Valid() && (dsuValid || Flushed()) && x < cfg.n && y < cfg.n
      modifies this`sks, this`parent, this`forest, this`dsuValid, this`sharedDsuValid, this`updateLocked,
               this`lastQueryRounds, this`past
      ensures Valid() && sks == old(sks) && a.Joint? == dsuValid == !updateLocked
      ensures QueryStep(cfg, graph, old(Cached()), mid) && PointStep(cfg, graph, old(Cached()), mid, Cached(), x, y, a)
    {
      ghost var before := Cached();
      var ok := Refresh();
      mid := Cached();
      if ok {
        a, parent := LookUpTwo(cfg, parent, x, y, graph, before, mid);
      } else {
        PointMeans(cfg, graph, before, mid, x, y);
        a := PointException;
      }
    }

    /** `calc_spanning_forest`. */
    method CalcSpanningForest() returns (a: ForestAnswer, ghost mid: Cache)
      requires Valid() && (dsuValid || Flushed())
      modifies this`sks, this`parent, this`forest, this`dsuValid, this`sharedDsuValid, this`updateLocked,
               this`lastQueryRounds, this`past
      ensures Valid() && sks == old(sks) && a.Forest? == dsuValid == !updateLocked
      ensures QueryStep(cfg, graph, old(Cached()), mid) && ForestStep(cfg, graph, old(Cached()), mid, Cached(), a)
    {
      ghost var before := Cached();
      var cc;
      cc, mid := ConnectedComponents();
      ForestMeans(cfg, graph, before, mid, Cached(), cc);
      a := if cc.Components? then Forest(forest) else ForestException;
    }
  }

  lemma EmptyInStep(n: nat, content: seq<set<nat>>)
    requires |content| == n && forall v :: 0 <= v < n ==> content[v] == {}
    ensures InStep({}, content)
  {
    forall v | 0 <= v < n ensures CutIds({}, {v}) == {} { assert Cut({}, {v}) == {}; }
  }
}
