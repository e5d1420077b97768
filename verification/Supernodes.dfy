/** Vertex sketches of a graph, and what merged sketches of a set of vertices contain. */
module Supernodes {
  import opened Graphs
  import opened XorAlgebra
  import opened Sketches

  const WIDTH: nat := 0x1_0000_0000

  /** `concat_pairing_fn`: the smaller id in the upper 32 bits. */
  function PairId(i: nat, j: nat): nat {
    if i > j then j * WIDTH + i else i * WIDTH + j
  }

  /** `inv_concat_pairing_fn`. */
  function EdgeAt(idx: nat): Edge { Edge(idx / WIDTH, idx % WIDTH) }

  function EdgeId(e: Edge): nat { PairId(e.src, e.dst) }

  lemma PairRoundTrip(i: nat, j: nat)
    requires i < WIDTH && j < WIDTH
    ensures EdgeAt(PairId(i, j)) == Normal(i, j)
  {
  }

  /** A simple graph on vertices 0..n-1, edges stored with the smaller end first. */
  ghost predicate Simple(n: nat, E: set<Edge>) {
    n <= WIDTH && forall e :: e in E ==> e.src < e.dst < n
  }

  function Ids(E: set<Edge>): set<nat> {
    set e | e in E :: EdgeId(e)
  }

  /** The vector indices of the edges that leave `S`. */
  function CutIds(E: set<Edge>, S: set<nat>): set<nat> { Ids(Cut(E, S)) }

  lemma CutIdsMember(n: nat, E: set<Edge>, S: set<nat>, x: nat)
    requires Simple(n, E)
    ensures x in CutIds(E, S) <==> EdgeAt(x) in Cut(E, S) && x == EdgeId(EdgeAt(x))
  {
    forall e | e in E ensures EdgeAt(EdgeId(e)) == e {
      PairRoundTrip(e.src, e.dst);
    }
  }

  /** Cut lemma: the cut of a union of disjoint vertex sets is the symmetric difference of their cuts. */
  lemma CutOfUnion(n: nat, E: set<Edge>, S: set<nat>, T: set<nat>)
    requires Simple(n, E) && S !! T
    ensures CutIds(E, S + T) == SymDiff(CutIds(E, S), CutIds(E, T))
  {
    forall x ensures x in CutIds(E, S + T) <==> x in SymDiff(CutIds(E, S), CutIds(E, T)) {
      if x >= 0 {
        CutIdsMember(n, E, S + T, x);
        CutIdsMember(n, E, S, x);
        CutIdsMember(n, E, T, x);
      }
    }
  }

  function ToggleEdge(E: set<Edge>, e: Edge): set<Edge> {
    if e in E then E - {e} else E + {e}
  }

  /** A toggled edge toggles its index in the cut of `S` exactly when it leaves `S`. */
  lemma CutOfToggle(n: nat, E: set<Edge>, e: Edge, S: set<nat>)
    requires Simple(n, E) && e.src < e.dst < n
    ensures Simple(n, ToggleEdge(E, e))
    ensures CutIds(ToggleEdge(E, e), S)
         == if (e.src in S) != (e.dst in S) then Toggle(CutIds(E, S), EdgeId(e)) else CutIds(E, S)
  {
    var F := ToggleEdge(E, e);
    PairRoundTrip(e.src, e.dst);
    var R := if (e.src in S) != (e.dst in S) then Toggle(CutIds(E, S), EdgeId(e)) else CutIds(E, S);
    forall x ensures x in CutIds(F, S) <==> x in R {
      if x >= 0 {
        CutIdsMember(n, E, S, x);
        CutIdsMember(n, F, S, x);
        CutIdsMember(n, E, S, EdgeId(e));
      }
    }
  }

  // ---------- merged sketches of a supernode ----------

  /** What range-merging the round-`r` columns of the vertices in `S` produces. */
  ghost function Held(p: Params, r: nat, E: set<Edge>, S: set<nat>): (v: SketchVal)
    requires p.Valid()
    ensures |v.buckets| == p.Len()
  {
    SketchVal(if r >= p.samples then ZeroFn(p)
              else seq(p.Len(), k requires 0 <= k < p.Len() =>
                     if InRound(p, k, r) then SketchOf(p, CutIds(E, S))[k] else ZERO),
              if S == {} then 0 else if r < p.samples then r else p.samples)
  }

  lemma HeldEmpty(p: Params, r: nat, E: set<Edge>)
    requires p.Valid()
    ensures Held(p, r, E, {}) == SketchVal(ZeroFn(p), 0)
  {
    assert Cut(E, {}) == {};
    assert CutIds(E, {}) == {};
    ZeroIsEmpty(p);
    assert Held(p, r, E, {}).buckets == ZeroFn(p);
  }

  /** Merging the held sketches of disjoint vertex sets holds their union. */
  lemma HeldMerge(p: Params, r: nat, n: nat, E: set<Edge>, S: set<nat>, T: set<nat>, b: seq<Bucket>)
    requires p.Valid() && Simple(n, E) && S !! T && T != {} && |b| == p.Len()
    requires r < p.samples ==> forall k :: 0 <= k < p.Len() && InRound(p, k, r) ==> b[k] == SketchOf(p, CutIds(E, T))[k]
    ensures RangeMergeFn(p, Held(p, r, E, S), b, r) == Held(p, r, E, S + T)
  {
    assert S + T != {};
    if r < p.samples {
      CutOfUnion(n, E, S, T);
      MergeIsSymDiff(p, CutIds(E, S), CutIds(E, T));
      var a := RangeMergeFn(p, Held(p, r, E, S), b, r).buckets;
      var h := Held(p, r, E, S + T).buckets;
      forall k | 0 <= k < p.Len() ensures a[k] == h[k] {
        if InRound(p, k, r) {
          assert a[k] == MergeFn(SketchOf(p, CutIds(E, S)), SketchOf(p, CutIds(E, T)))[k];
        }
      }
      assert a == h;
    }
  }

  lemma HeldAddVertex(p: Params, r: nat, n: nat, E: set<Edge>, S: set<nat>, v: nat)
    requires p.Valid() && Simple(n, E) && v !in S
    ensures RangeMergeFn(p, Held(p, r, E, S), SketchOf(p, CutIds(E, {v})), r) == Held(p, r, E, S + {v})
  {
    HeldMerge(p, r, n, E, S, {v}, SketchOf(p, CutIds(E, {v})));
  }

  lemma HeldUnion(p: Params, r: nat, n: nat, E: set<Edge>, S: set<nat>, T: set<nat>)
    requires p.Valid() && Simple(n, E) && S !! T && T != {}
    ensures RangeMergeFn(p, Held(p, r, E, S), Held(p, r, E, T).buckets, r) == Held(p, r, E, S + T)
  {
    HeldMerge(p, r, n, E, S, T, Held(p, r, E, T).buckets);
  }

  /** Sampling a merged supernode is sampling the sketch of its cut, or running out of samples. */
  lemma HeldSample(p: Params, r: nat, E: set<Edge>, S: set<nat>)
    requires p.Valid() && S != {}
    ensures SampleFn(p, Held(p, r, E, S)).1 ==
            if r < p.samples then Sampled(SampleAt(p, SketchOf(p, CutIds(E, S)), r)) else OutOfSamples
  {
    if r < p.samples {
      SampleLocal(p, Held(p, r, E, S).buckets, SketchOf(p, CutIds(E, S)), r);
    }
  }

  /** Zeroing, range-merging any list at `r` and sampling is the same as merging the list fully and sampling at `r`. */
  function RangeMergeAll(p: Params, acc: SketchVal, list: seq<seq<Bucket>>, r: nat): (v: SketchVal)
    requires |acc.buckets| == p.Len() && forall i :: 0 <= i < |list| ==> |list[i]| == p.Len()
    ensures |v.buckets| == p.Len()
    decreases |list|
  {
    if list == [] then acc
    else RangeMergeAll(p, RangeMergeFn(p, acc, list[0], r), list[1..], r)
  }

  function MergeAll(acc: seq<Bucket>, list: seq<seq<Bucket>>): (v: seq<Bucket>)
    requires forall i :: 0 <= i < |list| ==> |list[i]| == |acc|
    ensures |v| == |acc|
    decreases |list|
  {
    if list == [] then acc else MergeAll(MergeFn(acc, list[0]), list[1..])
  }

  lemma {:induction false} RangeMergeAgrees(p: Params, a: SketchVal, b: seq<Bucket>, list: seq<seq<Bucket>>, r: nat)
    requires p.Valid() && r < p.samples && |a.buckets| == |b| == p.Len()
    requires forall i :: 0 <= i < |list| ==> |list[i]| == p.Len()
    requires forall k :: 0 <= k < p.Len() && InRound(p, k, r) ==> a.buckets[k] == b[k]
    requires a.sampleIdx <= r
    ensures var v := RangeMergeAll(p, a, list, r);
            && (forall k :: 0 <= k < p.Len() && InRound(p, k, r) ==> v.buckets[k] == MergeAll(b, list)[k])
            && v.sampleIdx == if list == [] then a.sampleIdx else r
    decreases |list|
  {
    if list != [] {
      RangeMergeAgrees(p, RangeMergeFn(p, a, list[0], r), MergeFn(b, list[0]), list[1..], r);
    }
  }

  lemma RangeMergeThenSample(p: Params, list: seq<seq<Bucket>>, r: nat)
    requires p.Valid() && r < p.samples && list != []
    requires forall i :: 0 <= i < |list| ==> |list[i]| == p.Len()
    ensures SampleFn(p, RangeMergeAll(p, SketchVal(ZeroFn(p), 0), list, r)).1
         == Sampled(SampleAt(p, MergeAll(ZeroFn(p), list), r))
  {
    RangeMergeAgrees(p, SketchVal(ZeroFn(p), 0), ZeroFn(p), list, r);
    SampleLocal(p, RangeMergeAll(p, SketchVal(ZeroFn(p), 0), list, r).buckets, MergeAll(ZeroFn(p), list), r);
  }

  // ---------- batched half-edge updates ----------

  function ToggleAll(X: set<nat>, ids: seq<nat>): set<nat>
    decreases |ids|
  {
    if ids == [] then X else ToggleAll(Toggle(X, ids[0]), ids[1..])
  }

  lemma {:induction false} ToggleAllMember(X: set<nat>, ids: seq<nat>, x: nat)
    ensures x in ToggleAll(X, ids) <==> ((x in X) != (multiset(ids)[x] % 2 == 1))
    decreases |ids|
  {
    if ids != [] {
      ToggleAllMember(Toggle(X, ids[0]), ids[1..], x);
      assert ids == [ids[0]] + ids[1..];
      assert multiset(ids) == multiset{ids[0]} + multiset(ids[1..]);
    }
  }

  function UpdateAll(p: Params, b: seq<Bucket>, ids: seq<nat>): (r: seq<Bucket>)
    requires p.Valid() && |b| == p.Len()
    ensures |r| == p.Len()
    decreases |ids|
  {
    if ids == [] then b else UpdateAll(p, UpdateFn(p, b, ids[0]), ids[1..])
  }

  lemma {:induction false} UpdateAllToggles(p: Params, X: set<nat>, ids: seq<nat>)
    requires p.Valid()
    ensures UpdateAll(p, SketchOf(p, X), ids) == SketchOf(p, ToggleAll(X, ids))
    decreases |ids|
  {
    if ids != [] {
      UpdateToggles(p, X, ids[0]);
      UpdateAllToggles(p, Toggle(X, ids[0]), ids[1..]);
    }
  }

  datatype Batch = Batch(src: nat, dsts: seq<nat>)

  function HalfIds(src: nat, dsts: seq<nat>): (ids: seq<nat>)
    ensures |ids| == |dsts|
  {
    seq(|dsts|, i requires 0 <= i < |dsts| => PairId(src, dsts[i]))
  }

  /** `apply_update_batch`: build a delta sketch from zero, then merge it into the source vertex's sketch. */
  function ApplyBatch(p: Params, sks: seq<seq<Bucket>>, b: Batch): (r: seq<seq<Bucket>>)
    requires p.Valid() && b.src < |sks| && forall v :: 0 <= v < |sks| ==> |sks[v]| == p.Len()
    ensures |r| == |sks| && forall v :: 0 <= v < |r| ==> |r[v]| == p.Len()
  {
    sks[b.src := MergeFn(sks[b.src], UpdateAll(p, ZeroFn(p), HalfIds(b.src, b.dsts)))]
  }

  function ApplyBatches(p: Params, sks: seq<seq<Bucket>>, bs: seq<Batch>): (r: seq<seq<Bucket>>)
    requires p.Valid() && forall v :: 0 <= v < |sks| ==> |sks[v]| == p.Len()
    requires forall i :: 0 <= i < |bs| ==> bs[i].src < |sks|
    ensures |r| == |sks|
    decreases |bs|
  {
    if bs == [] then sks else ApplyBatches(p, ApplyBatch(p, sks, bs[0]), bs[1..])
  }

  /** All half-edge indices delivered to `v`, in order. */
  function Delivered(bs: seq<Batch>, v: nat): seq<nat>
    decreases |bs|
  {
    if bs == [] then []
    else (if bs[0].src == v then HalfIds(v, bs[0].dsts) else []) + Delivered(bs[1..], v)
  }

  lemma {:induction false} ToggleAllConcat(X: set<nat>, a: seq<nat>, b: seq<nat>)
    ensures ToggleAll(X, a + b) == ToggleAll(ToggleAll(X, a), b)
    decreases |a|
  {
    if a == [] {
      assert a + b == b;
    } else {
      assert (a + b)[1..] == a[1..] + b;
      ToggleAllConcat(Toggle(X, a[0]), a[1..], b);
    }
  }

  lemma ToggleAllShift(X: set<nat>, ids: seq<nat>)
    ensures SymDiff(X, ToggleAll({}, ids)) == ToggleAll(X, ids)
  {
    forall x ensures x in SymDiff(X, ToggleAll({}, ids)) <==> x in ToggleAll(X, ids) {
      if x >= 0 {
        ToggleAllMember(X, ids, x);
        ToggleAllMember({}, ids, x);
      }
    }
  }

  lemma BatchToggles(p: Params, X: set<nat>, ids: seq<nat>)
    requires p.Valid()
    ensures MergeFn(SketchOf(p, X), UpdateAll(p, ZeroFn(p), ids)) == SketchOf(p, ToggleAll(X, ids))
  {
    ZeroIsEmpty(p);
    UpdateAllToggles(p, {}, ids);
    MergeIsSymDiff(p, X, ToggleAll({}, ids));
    ToggleAllShift(X, ids);
  }

  ghost predicate Holds(p: Params, sks: seq<seq<Bucket>>, X: seq<set<nat>>)
    requires p.Valid()
  {
    |sks| == |X| && forall v :: 0 <= v < |sks| ==> sks[v] == SketchOf(p, X[v])
  }

  /** After any batches each vertex holds exactly the indices delivered to it an odd number of times. */
  lemma {:induction false} BatchesMeaning(p: Params, sks: seq<seq<Bucket>>, X: seq<set<nat>>, bs: seq<Batch>)
    requires p.Valid() && Holds(p, sks, X) && forall i :: 0 <= i < |bs| ==> bs[i].src < |sks|
    ensures var r := ApplyBatches(p, sks, bs);
            forall v :: 0 <= v < |sks| ==> r[v] == SketchOf(p, ToggleAll(X[v], Delivered(bs, v)))
    decreases |bs|
  {
    if bs != [] {
      var b := bs[0];
      var ids := HalfIds(b.src, b.dsts);
      BatchToggles(p, X[b.src], ids);
      var X' := X[b.src := ToggleAll(X[b.src], ids)];
      BatchesMeaning(p, ApplyBatch(p, sks, b), X', bs[1..]);
      forall v | 0 <= v < |sks|
        ensures ToggleAll(X'[v], Delivered(bs[1..], v)) == ToggleAll(X[v], Delivered(bs, v))
      {
        if v == b.src {
          ToggleAllConcat(X[v], ids, Delivered(bs[1..], v));
        } else {
          assert [] + Delivered(bs[1..], v) == Delivered(bs[1..], v);
        }
      }
    }
  }

  /** Only how often each half-edge is delivered counts: any two ways of batching and ordering the same
      half-edges give the same sketches. */
  lemma BatchingIrrelevant(p: Params, sks: seq<seq<Bucket>>, X: seq<set<nat>>, a: seq<Batch>, b: seq<Batch>)
    requires p.Valid() && Holds(p, sks, X)
    requires forall i :: 0 <= i < |a| ==> a[i].src < |sks|
    requires forall i :: 0 <= i < |b| ==> b[i].src < |sks|
    requires forall v :: 0 <= v < |sks| ==> multiset(Delivered(a, v)) == multiset(Delivered(b, v))
    ensures ApplyBatches(p, sks, a) == ApplyBatches(p, sks, b)
  {
    BatchesMeaning(p, sks, X, a);
    BatchesMeaning(p, sks, X, b);
    forall v | 0 <= v < |sks| ensures ToggleAll(X[v], Delivered(a, v)) == ToggleAll(X[v], Delivered(b, v)) {
      SameParity(X[v], Delivered(a, v), Delivered(b, v));
    }
    assert ApplyBatches(p, sks, a) == ApplyBatches(p, sks, b);
  }

  // ---------- batches against one-by-one updates ----------

  ghost predicate NormalStream(n: nat, es: seq<Edge>) { forall i :: 0 <= i < |es| ==> es[i].src < es[i].dst < n }

  function ApplyEdges(E: set<Edge>, es: seq<Edge>): set<Edge>
    decreases |es|
  {
    if es == [] then E else ApplyEdges(ToggleEdge(E, es[0]), es[1..])
  }

  /** The indices of the stream's edges at vertex `v`, in order. */
  function StreamAt(es: seq<Edge>, v: nat): seq<nat>
    decreases |es|
  {
    if es == [] then []
    else (if es[0].src == v || es[0].dst == v then [EdgeId(es[0])] else []) + StreamAt(es[1..], v)
  }

  lemma {:induction false} StreamContent(n: nat, E: set<Edge>, es: seq<Edge>, v: nat)
    requires Simple(n, E) && NormalStream(n, es)
    ensures Simple(n, ApplyEdges(E, es))
    ensures ToggleAll(CutIds(E, {v}), StreamAt(es, v)) == CutIds(ApplyEdges(E, es), {v})
    decreases |es|
  {
    if es != [] {
      var e := es[0];
      CutOfToggle(n, E, e, {v});
      StreamContent(n, ToggleEdge(E, e), es[1..], v);
      var rest := StreamAt(es[1..], v);
      if e.src == v || e.dst == v {
        assert StreamAt(es, v)[0] == EdgeId(e) && StreamAt(es, v)[1..] == rest;
      } else {
        assert StreamAt(es, v) == rest;
      }
    }
  }

  /** `update` on both ends of an edge. */
  function UpdateEdge(p: Params, sks: seq<seq<Bucket>>, e: Edge): (r: seq<seq<Bucket>>)
    requires p.Valid() && e.src < |sks| && e.dst < |sks| && forall v :: 0 <= v < |sks| ==> |sks[v]| == p.Len()
    ensures |r| == |sks| && forall v :: 0 <= v < |r| ==> |r[v]| == p.Len()
  {
    var one := sks[e.src := UpdateFn(p, sks[e.src], EdgeId(e))];
    one[e.dst := UpdateFn(p, one[e.dst], EdgeId(e))]
  }

  function UpdateStream(p: Params, sks: seq<seq<Bucket>>, es: seq<Edge>): (r: seq<seq<Bucket>>)
    requires p.Valid() && NormalStream(|sks|, es) && forall v :: 0 <= v < |sks| ==> |sks[v]| == p.Len()
    ensures |r| == |sks|
    decreases |es|
  {
    if es == [] then sks else UpdateStream(p, UpdateEdge(p, sks, es[0]), es[1..])
  }

  /** Each vertex sketch holds the edges at that vertex. */
  ghost predicate SketchesOf(p: Params, n: nat, E: set<Edge>, sks: seq<seq<Bucket>>)
    requires p.Valid()
  {
    |sks| == n && forall v :: 0 <= v < n ==> sks[v] == SketchOf(p, CutIds(E, {v}))
  }

  lemma OneUpdate(p: Params, n: nat, E: set<Edge>, sks: seq<seq<Bucket>>, e: Edge)
    requires p.Valid() && Simple(n, E) && SketchesOf(p, n, E, sks) && e.src < e.dst < n
    ensures SketchesOf(p, n, ToggleEdge(E, e), UpdateEdge(p, sks, e))
  {
    var r := UpdateEdge(p, sks, e);
    forall v | 0 <= v < n ensures r[v] == SketchOf(p, CutIds(ToggleEdge(E, e), {v})) {
      CutOfToggle(n, E, e, {v});
      UpdateToggles(p, CutIds(E, {v}), EdgeId(e));
    }
  }

  lemma {:induction false} DirectUpdates(p: Params, n: nat, E: set<Edge>, sks: seq<seq<Bucket>>, es: seq<Edge>)
    requires p.Valid() && Simple(n, E) && SketchesOf(p, n, E, sks) && NormalStream(n, es)
    ensures SketchesOf(p, n, ApplyEdges(E, es), UpdateStream(p, sks, es))
    decreases |es|
  {
    if es != [] {
      OneUpdate(p, n, E, sks, es[0]);
      CutOfToggle(n, E, es[0], {});
      DirectUpdates(p, n, ToggleEdge(E, es[0]), UpdateEdge(p, sks, es[0]), es[1..]);
    }
  }

  lemma BatchedContent(p: Params, n: nat, E: set<Edge>, sks: seq<seq<Bucket>>, es: seq<Edge>, bs: seq<Batch>)
    requires p.Valid() && Simple(n, E) && SketchesOf(p, n, E, sks) && NormalStream(n, es)
    requires forall i :: 0 <= i < |bs| ==> bs[i].src < n
    requires forall v :: 0 <= v < n ==> multiset(Delivered(bs, v)) == multiset(StreamAt(es, v))
    ensures SketchesOf(p, n, ApplyEdges(E, es), ApplyBatches(p, sks, bs))
  {
    var X := seq(n, v requires 0 <= v < n => CutIds(E, {v}));
    BatchesMeaning(p, sks, X, bs);
    forall v | 0 <= v < n ensures ToggleAll(X[v], Delivered(bs, v)) == CutIds(ApplyEdges(E, es), {v}) {
      SameParity(X[v], Delivered(bs, v), StreamAt(es, v));
      StreamContent(n, E, es, v);
    }
  }

  /** Any split of the stream's half-edges into per-source batches, in any order, gives the sketches of one-by-one
      `update` calls, which are those of the graph after the stream. */
  lemma BatchedEqualsDirect(p: Params, n: nat, E: set<Edge>, sks: seq<seq<Bucket>>, es: seq<Edge>, bs: seq<Batch>)
    requires p.Valid() && Simple(n, E) && SketchesOf(p, n, E, sks) && NormalStream(n, es)
    requires forall i :: 0 <= i < |bs| ==> bs[i].src < n
    requires forall v :: 0 <= v < n ==> multiset(Delivered(bs, v)) == multiset(StreamAt(es, v))
    ensures ApplyBatches(p, sks, bs) == UpdateStream(p, sks, es)
    ensures SketchesOf(p, n, ApplyEdges(E, es), ApplyBatches(p, sks, bs))
  {
    BatchedContent(p, n, E, sks, es, bs);
    DirectUpdates(p, n, E, sks, es);
    SketchesDetermined(p, n, ApplyEdges(E, es), ApplyBatches(p, sks, bs), UpdateStream(p, sks, es));
  }

  lemma SketchesDetermined(p: Params, n: nat, E: set<Edge>, a: seq<seq<Bucket>>, b: seq<seq<Bucket>>)
    requires p.Valid() && SketchesOf(p, n, E, a) && SketchesOf(p, n, E, b)
    ensures a == b
  {
  }

  lemma SameParity(X: set<nat>, a: seq<nat>, b: seq<nat>)
    requires multiset(a) == multiset(b)
    ensures ToggleAll(X, a) == ToggleAll(X, b)
  {
    forall x ensures x in ToggleAll(X, a) <==> x in ToggleAll(X, b) {
      if x >= 0 {
        ToggleAllMember(X, a, x);
        ToggleAllMember(X, b, x);
      }
    }
  }
}
