/** End to end: what the sketches of a subgraph hold once edge store and gutters have been flushed through its
    stream. */
module SubgraphSketches {
  import opened XorAlgebra
  import opened Sketches
  import opened Supernodes
  import opened EdgeStores
  import opened Gutters
  import opened GpuIngest

  ghost predicate NodeIds(s: seq<nat>) { forall i :: 0 <= i < |s| ==> s[i] < WIDTH }

  lemma PairIdInjective(v: nat, a: nat, b: nat)
    requires v < WIDTH && a < WIDTH && b < WIDTH && PairId(v, a) == PairId(v, b)
    ensures a == b
  {
    PairRoundTrip(v, a);
    PairRoundTrip(v, b);
  }

  /** A destination occurs as often as the index of its edge. */
  lemma {:induction false} HalfIdsCount(v: nat, dsts: seq<nat>, dst: nat)
    requires v < WIDTH && dst < WIDTH && NodeIds(dsts)
    ensures multiset(HalfIds(v, dsts))[PairId(v, dst)] == multiset(dsts)[dst]
  {
    if dsts != [] {
      var last := |dsts| - 1;
      var rest: seq<nat> := dsts[..last];
      HalfIdsCount(v, rest, dst);
      assert dsts == rest + [dsts[last]];
      assert HalfIds(v, dsts) == HalfIds(v, rest) + [PairId(v, dsts[last])];
      assert multiset(dsts)[dst] == multiset(rest)[dst] + multiset([dsts[last]])[dst];
      if PairId(v, dsts[last]) == PairId(v, dst) { PairIdInjective(v, dsts[last], dst); }
    }
  }

  /** The edges at `v` that belong to subgraph `g` in the current graph. */
  ghost function SubgraphIds(store: EdgeStore, g: nat, v: nat): set<nat>
    reads store
  {
    set h | h in store.inserted && h.src == v && store.depth(v, h.dst) >= g :: PairId(v, h.dst)
  }

  /** The stream of vertex `v` carries exactly the edges of the subgraph, up to pairs that cancel. */
  lemma StreamIsSubgraph(alg: MCGPUSketchAlg, g: nat, v: nat, ids: seq<nat>)
    requires alg.Valid() && !alg.store.Pending() && g < alg.store.cur && v < alg.store.n <= WIDTH && g < |alg.subs|
    requires g < |alg.streams| && v < |alg.streams[g]| && NodeIds(alg.streams[g][v])
    requires forall h :: h in alg.store.inserted ==> h.dst < WIDTH
    requires multiset(ids) == multiset(HalfIds(v, alg.streams[g][v]))
    ensures ToggleAll({}, ids) == SubgraphIds(alg.store, g, v)
  {
    var S, dsts := SubgraphIds(alg.store, g, v), alg.streams[g][v];
    forall x ensures x in ToggleAll({}, ids) <==> x in S {
      if x >= 0 {
        ToggleAllMember({}, ids, x);
        if x in S {
          var h :| h in alg.store.inserted && h.src == v && alg.store.depth(v, h.dst) >= g && PairId(v, h.dst) == x;
          HalfIdsCount(v, dsts, h.dst);
          Conserved(alg, g, v, h.dst);
          assert h == Half(v, h.dst);
        }
        if multiset(ids)[x] % 2 == 1 {
          var dst := Origin(v, dsts, x);
          HalfIdsCount(v, dsts, dst);
          Conserved(alg, g, v, dst);
          assert Half(v, dst) in alg.store.inserted;
        }
      }
    }
  }

  lemma Origin(v: nat, dsts: seq<nat>, x: nat) returns (dst: nat)
    requires multiset(HalfIds(v, dsts))[x] > 0 && NodeIds(dsts)
    ensures dst < WIDTH && PairId(v, dst) == x
  {
    assert x in multiset(HalfIds(v, dsts));
    var i :| 0 <= i < |HalfIds(v, dsts)| && HalfIds(v, dsts)[i] == x;
    dst := dsts[i];
  }

  /** After `ApplyFlushUpdates`, applying the batches sent to subgraph `g`, in any order across vertices and split in
      any way, to zero sketches gives the sketches of exactly the edges of the current graph with depth at least g. */
  lemma SubgraphSketchesExact(alg: MCGPUSketchAlg, p: Params, g: nat, sks: seq<seq<Bucket>>, bs: seq<Batch>)
    requires p.Valid() && alg.Valid() && !alg.store.Pending() && g < alg.store.cur && alg.store.n <= WIDTH
    requires g < |alg.subs| && forall v :: 0 <= v < alg.store.n ==> Flat(alg.subs[g].sent[v]) == alg.streams[g][v]
    requires forall v :: 0 <= v < alg.store.n ==> NodeIds(alg.streams[g][v])
    requires forall h :: h in alg.store.inserted ==> h.dst < WIDTH
    requires |sks| == alg.store.n && (forall v :: 0 <= v < |sks| ==> |sks[v]| == p.Len() && sks[v] == ZeroFn(p))
    requires (forall i :: 0 <= i < |bs| ==> bs[i].src < |sks|)
    requires forall v :: 0 <= v < |sks| ==>
        multiset(Delivered(bs, v)) == multiset(HalfIds(v, Flat(alg.subs[g].sent[v])))
    ensures forall v :: 0 <= v < |sks| ==> ApplyBatches(p, sks, bs)[v] == SketchOf(p, SubgraphIds(alg.store, g, v))
  {
    ZeroIsEmpty(p);
    var X := seq(|sks|, _ => {});
    BatchesMeaning(p, sks, X, bs);
    forall v | 0 <= v < |sks| ensures ApplyBatches(p, sks, bs)[v] == SketchOf(p, SubgraphIds(alg.store, g, v)) {
      StreamIsSubgraph(alg, g, v, Delivered(bs, v));
    }
  }
}
