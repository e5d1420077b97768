/** One round of the query as the query loop calls it: round zero samples the vertex sketches directly, later rounds
    run the parallel protocol over the merge list. */
module BoruvkaRounds {
  import opened Graphs
  import opened DisjointSets
  import opened XorAlgebra
  import opened Sketches
  import opened Supernodes
  import opened Partitions
  import opened MergeLists
  import opened RoundProtocol
  import opened RoundSafety
  import opened RoundRuns
  import opened CountingSort
  import opened Boruvka

  function Buckets(sks: seq<SketchVal>): (b: seq<seq<Bucket>>)
    ensures |b| == |sks| && forall v :: 0 <= v < |sks| ==> b[v] == sks[v].buckets
  {
    seq(|sks|, v requires 0 <= v < |sks| => sks[v].buckets)
  }

  /** The merge list divided among the threads as `get_ith_partition` does. */
  function LayoutOf(m: seq<MergeInstr>, threads: nat): Layout
    requires 0 < threads <= |m|
  {
    Layout(m, BoundsFn(|m|, threads), seq(|m|, q requires 0 <= q < |m| => PartIdx(|m|, threads, q)))
  }

  function RoundCtx(p: Params, r: nat, m: seq<MergeInstr>, threads: nat, sks: seq<SketchVal>,
                    prio: seq<nat>, parent: seq<nat>, forest: set<Edge>): Ctx
    requires 0 < threads <= |m|
  {
    Ctx(p, r, LayoutOf(m, threads), Buckets(sks), prio, parent, forest)
  }

  /** The sketches hold the graph: each vertex the indices of its own edges, buckets only. */
  ghost predicate SketchesHold(p: Params, n: nat, E: set<Edge>, sks: seq<SketchVal>)
    requires p.Valid()
  {
    |sks| == n && forall v :: 0 <= v < n ==> sks[v].buckets == SketchOf(p, CutIds(E, {v}))
  }

  lemma LayoutValid(m: seq<MergeInstr>, threads: nat, find: seq<nat>)
    requires 0 < threads <= |m| && ListOf(m, find)
    ensures LayoutOf(m, threads).Valid() && LayoutOf(m, threads).Threads() == threads
    ensures ChildrenOk(LayoutOf(m, threads))
  {
    var l := LayoutOf(m, threads);
    BoundsCorrect(|m|, threads);
    forall q | 0 <= q < |m| ensures Owns(l.bounds, l.part[q], q) { PartIdxOwns(|m|, threads, q); }
    assert l.Tiled();
  }

  lemma RoundCtxOk(p: Params, r: nat, m: seq<MergeInstr>, threads: nat, sks: seq<SketchVal>,
                   prio: seq<nat>, parent: seq<nat>, forest: set<Edge>, E: set<Edge>, find: seq<nat>)
    requires p.Valid() && 0 < threads <= |m| && threads < UNSET && ListOf(m, find) && Simple(|m|, E)
    requires SketchesHold(p, |m|, E, sks) && |prio| == |parent| == |m| && Represents(prio, parent, forest)
    ensures CtxOk(RoundCtx(p, r, m, threads, sks, prio, parent, forest), E)
  {
    LayoutValid(m, threads, find);
  }

  // ---------- round zero ----------

  ghost predicate ZeroLog(c: Ctx, E: set<Edge>, todo: set<nat>, log: seq<Entry>)
    requires c.p.Valid()
  {
    && (forall k :: 0 <= k < |log| ==>
          log[k].root < |c.parent0| && log[k].outcome == OutcomeOf(c.p, 0, E, {log[k].root}))
    && (forall v: nat :: v < |c.parent0| && v !in todo ==> Logged(log, v))
  }

  lemma ZeroLogNext(c: Ctx, E: set<Edge>, todo: set<nat>, log: seq<Entry>, v: nat, en: Entry)
    requires c.p.Valid() && ZeroLog(c, E, todo, log) && v in todo && v < |c.parent0|
    requires en.root == v && en.outcome == OutcomeOf(c.p, 0, E, {v})
    ensures ZeroLog(c, E, todo - {v}, log + [en])
  {
    var l2 := log + [en];
    forall u: nat | u < |c.parent0| && u !in todo - {v} ensures Logged(l2, u) {
      if u == v {
        assert l2[|log|].root == v;
      } else {
        assert Logged(log, u);
        var k :| 0 <= k < |log| && log[k].root == u;
        assert l2[k].root == u;
      }
    }
  }

  /** The state after `dsu.reset()`: every vertex is its own set and its own group. */
  ghost predicate FreshSets(c: Ctx) {
    && c.p.Valid() && c.r == 0 && |c.prio| == |c.parent0| == |c.l.m|
    && (forall v :: 0 <= v < |c.parent0| ==> c.parent0[v] == v)
    && (forall q :: 0 <= q < |c.l.m| ==> c.l.m[q] == MergeInstr(q, q))
  }

  lemma OwnGroup(c: Ctx, v: nat)
    requires FreshSets(c)
    ensures HasRoot(c.l.m, v) <==> v < |c.parent0|
    ensures v < |c.parent0| ==> Supernode(c.l, v) == {v}
  {
    if v < |c.parent0| { assert c.l.m[v].root == v && c.l.m[v].child == v; }
  }

  lemma ZeroLogSamplesGroups(c: Ctx, E: set<Edge>, sh: Shared)
    requires FreshSets(c) && Ascending(c.prio, c.parent0) && SharedOk(c, sh) && ZeroLog(c, E, {}, sh.log)
    ensures GroupsSampled(c, E, sh)
  {
    forall k | 0 <= k < |sh.log|
      ensures HasRoot(c.l.m, sh.log[k].root) && Supernode(c.l, sh.log[k].root) == {sh.log[k].root}
    {
      OwnGroup(c, sh.log[k].root);
    }
    forall root | HasRoot(c.l.m, root) ensures Logged(sh.log, root) { OwnGroup(c, root); }
  }

  ghost predicate Fresh(todo: set<nat>, now: seq<SketchVal>) {
    forall v :: v in todo ==> v < |now| && now[v].sampleIdx == 0
  }

  lemma ZeroSketches(p: Params, n: nat, E: set<Edge>, todo: set<nat>, now: seq<SketchVal>, v: nat)
    requires p.Valid() && SketchesHold(p, n, E, now) && Fresh(todo, now) && v in todo
    ensures |now[v].buckets| == p.Len() && SampleFn(p, now[v]).1 == OutcomeOf(p, 0, E, {v})
    ensures SketchesHold(p, n, E, now[v := SampleFn(p, now[v]).0]) && Fresh(todo - {v}, now[v := SampleFn(p, now[v]).0])
  {
  }

  lemma ZeroShared(c: Ctx, E: set<Edge>, todo: set<nat>, sh: Shared, v: nat, skt: SketchVal)
    requires c.p.Valid() && Ascending(c.prio, c.parent0) && SharedOk(c, sh) && ZeroLog(c, E, todo, sh.log) && v in todo
    requires v < |c.parent0|
    requires |skt.buckets| == c.p.Len() && SampleFn(c.p, skt).1 == OutcomeOf(c.p, 0, E, {v})
    ensures SharedOk(c, SampleSupernode(c.p, c.prio, sh, v, skt))
    ensures ZeroLog(c, E, todo - {v}, SampleSupernode(c.p, c.prio, sh, v, skt).log)
  {
    SampleKeepsShared(c, sh, v, skt);
    ZeroLogNext(c, E, todo, sh.log, v, Entry(v, skt, SampleFn(c.p, skt).1));
  }

  // ---------- which rounds are possible ----------

  /** The shared state after sampling the vertices `order` one after the other. */
  ghost function ZeroAfter(c: Ctx, order: seq<nat>): Shared
    requires c.p.Valid()
    decreases |order|
  {
    if order == [] then Shared(c.parent0, c.forest0, false, false, [])
    else
      var sh, v := ZeroAfter(c, order[..|order| - 1]), order[|order| - 1];
      if Ascending(c.prio, sh.parent) && v < |c.sks| && |c.sks[v]| == c.p.Len() then
        SampleSupernode(c.p, c.prio, sh, v, SketchVal(c.sks[v], 0))
      else sh
  }

  /** Each vertex once. */
  ghost predicate Permutes(order: seq<nat>, n: nat) { Distinct(order) && forall v: nat :: v < n <==> v in order }

  /** Sampling the vertices in some order gives this result. */
  ghost predicate ZeroRan(c: Ctx, sh: Shared)
    requires c.p.Valid()
  {
    exists order :: Permutes(order, |c.parent0|) && ZeroAfter(c, order) == sh
  }

  /** The sketches of the context are those of the vertices, ready to be sampled from the start. */
  lemma VertexOutcome(c: Ctx, E: set<Edge>, v: nat)
    requires CtxOk(c, E) && v < |c.parent0|
    ensures |c.sks[v]| == c.p.Len() && SampleFn(c.p, SketchVal(c.sks[v], 0)).1 == OutcomeOf(c.p, 0, E, {v})
  {
  }

  lemma WithoutLast(order: seq<nat>)
    requires order != [] && Distinct(order)
    ensures var init, v := order[..|order| - 1], order[|order| - 1];
            Distinct(init) && v !in init && forall u: nat :: u in order <==> u in init || u == v
  {
    var init, v := order[..|order| - 1], order[|order| - 1];
    assert order == init + [v];
    assert forall i :: 0 <= i < |init| ==> init[i] == order[i] && order[i] != order[|order| - 1];
  }

  lemma {:induction false} ZeroPrefix(c: Ctx, E: set<Edge>, order: seq<nat>, todo: set<nat>)
    requires CtxOk(c, E) && FreshSets(c) && Distinct(order) && (forall v :: v in order ==> v < |c.parent0|)
    requires forall v: nat :: v in todo <==> v < |c.parent0| && v !in order
    ensures SharedOk(c, ZeroAfter(c, order)) && ZeroLog(c, E, todo, ZeroAfter(c, order).log)
    decreases |order|
  {
    if order == [] {
      StartShared(c);
    } else {
      var init, v := order[..|order| - 1], order[|order| - 1];
      assert order == init + [v];
      WithoutLast(order);
      ZeroPrefix(c, E, init, todo + {v});
      VertexOutcome(c, E, v);
      ZeroShared(c, E, todo + {v}, ZeroAfter(c, init), v, SketchVal(c.sks[v], 0));
      assert todo + {v} - {v} == todo;
    }
  }

  lemma ZeroRanSamples(c: Ctx, E: set<Edge>, sh: Shared)
    requires CtxOk(c, E) && FreshSets(c) && ZeroRan(c, sh)
    ensures GroupsSampled(c, E, sh)
  {
    var order :| Permutes(order, |c.parent0|) && ZeroAfter(c, order) == sh;
    ZeroPrefix(c, E, order, {});
    ZeroLogSamplesGroups(c, E, sh);
  }

  /** Some order or interleaving of the round gives this result. */
  ghost predicate RoundRan(c: Ctx, sh: Shared)
    requires c.p.Valid()
  {
    if c.r == 0 then ZeroRan(c, sh) else RanTo(c, sh)
  }

  /** Whatever the order or interleaving, every group of the list is sampled once on the edges that leave it. */
  lemma RanSamples(c: Ctx, E: set<Edge>, sh: Shared)
    requires CtxOk(c, E) && (c.r == 0 ==> FreshSets(c)) && RoundRan(c, sh)
    ensures GroupsSampled(c, E, sh)
  {
    if c.r == 0 {
      ZeroRanSamples(c, E, sh);
    } else {
      RanResult(c, E, sh);
      RoundSamplesGroups(c, E, sh);
    }
  }

  // ---------- running them ----------

  lemma AppendDistinct(order: seq<nat>, v: nat)
    requires Distinct(order) && v !in order
    ensures Distinct(order + [v])
  {
  }

  /** `run_round_zero`: every vertex sketch is sampled where it stands, in any order. */
  method RunRoundZero(c: Ctx, sks: seq<SketchVal>, ghost E: set<Edge>) returns (sh: Shared, now: seq<SketchVal>)
    requires CtxOk(c, E) && FreshSets(c) && c.sks == Buckets(sks)
    requires forall v :: 0 <= v < |sks| ==> sks[v].sampleIdx == 0
    ensures ZeroRan(c, sh)
    ensures SketchesHold(c.p, |c.parent0|, E, now)
  {
    sh := Shared(c.parent0, c.forest0, false, false, []);
    now := sks;
    var todo := Upto(0, |c.parent0|);
    ghost var order: seq<nat> := [];
    StartShared(c);
    while todo != {}
      invariant Ascending(c.prio, sh.parent) && SharedOk(c, sh) && sh == ZeroAfter(c, order)
      invariant Distinct(order) && forall v: nat :: v < |c.parent0| <==> v in order || v in todo
      invariant todo <= Upto(0, |c.parent0|) && forall v :: v in todo ==> v !in order
      invariant SketchesHold(c.p, |c.parent0|, E, now) && Fresh(todo, now)
    {
      var v :| v in todo;
      ZeroSketches(c.p, |c.parent0|, E, todo, now, v);
      VertexOutcome(c, E, v);
      ZeroStep(c, sh, order, v);
      assert now[v] == SketchVal(c.sks[v], 0);
      sh := SampleSupernode(c.p, c.prio, sh, v, now[v]);
      now := now[v := SampleFn(c.p, now[v]).0];
      todo := todo - {v};
      order := order + [v];
    }
  }

  lemma ZeroStep(c: Ctx, sh: Shared, order: seq<nat>, v: nat)
    requires c.p.Valid() && Ascending(c.prio, c.parent0) && SharedOk(c, sh) && sh == ZeroAfter(c, order)
    requires v < |c.sks| && |c.sks[v]| == c.p.Len() && Distinct(order) && v !in order
    ensures ZeroAfter(c, order + [v]) == SampleSupernode(c.p, c.prio, sh, v, SketchVal(c.sks[v], 0))
    ensures SharedOk(c, ZeroAfter(c, order + [v])) && Distinct(order + [v])
  {
    var all := order + [v];
    assert all[..|all| - 1] == order;
    SampleKeepsShared(c, sh, v, SketchVal(c.sks[v], 0));
    AppendDistinct(order, v);
  }

  /** `perform_boruvka_round`: some order of samples in round zero, some interleaving of the protocol in later rounds.
      Only round zero moves the sample positions of the vertex sketches. */
  method PerformBoruvkaRound(c: Ctx, sks: seq<SketchVal>, ghost E: set<Edge>) returns (sh: Shared, now: seq<SketchVal>)
    requires CtxOk(c, E) && c.sks == Buckets(sks) && SketchesHold(c.p, |c.parent0|, E, sks)
    requires c.r == 0 ==> FreshSets(c) && forall v :: 0 <= v < |sks| ==> sks[v].sampleIdx == 0
    ensures RoundRan(c, sh)
    ensures SketchesHold(c.p, |c.parent0|, E, now)
  {
    if c.r == 0 {
      sh, now := RunRoundZero(c, sks, E);
    } else {
      sh := RunRound(c, E);
      now := sks;
    }
  }
}
