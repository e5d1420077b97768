/** The gutters of the sketch subgraphs: per-vertex buffers filled through 16-slot local buffers and emptied in
    batches, keeping every destination exactly once and in order. */
module Gutters {
  import opened TaggedUpdates
  import opened EdgeStores

  const SLOTS: nat := 16

  function Flat(batches: seq<seq<nat>>): seq<nat> {
    if batches == [] then [] else Flat(batches[..|batches| - 1]) + batches[|batches| - 1]
  }

  lemma FlatAppend(batches: seq<seq<nat>>, b: seq<nat>)
    ensures Flat(batches + [b]) == Flat(batches) + b
  {
    assert (batches + [b])[..|batches|] == batches;
  }

  /** Filling a gutter and, when it is full, starting over: nothing is lost, repeated or reordered. */
  lemma FillFits(d: seq<nat>, e: nat, dsts: seq<nat>, sent: seq<nat>)
    requires e < |d| && |dsts| < |d| - e
    ensures var d1 := d[..e] + dsts + d[e + |dsts|..];
            |d1| == |d| && sent + d1[..e + |dsts|] == sent + d[..e] + dsts
  {
    var d1 := d[..e] + dsts + d[e + |dsts|..];
    assert d1[..e + |dsts|] == d[..e] + dsts;
    assert sent + (d[..e] + dsts) == sent + d[..e] + dsts;
  }

  lemma FillOverflows(d: seq<nat>, e: nat, dsts: seq<nat>, sent: seq<nat>, cap: nat, left: nat)
    requires e < |d| && cap == |d| - e <= |dsts| <= |d| && left == |dsts| - cap
    ensures var d1 := d[..e] + dsts[..cap] + d[e + cap..];
            |d1| == |d| && sent + d1 + (dsts[cap..] + d1[left..])[..left] == sent + d[..e] + dsts
  {
    var d1 := d[..e] + dsts[..cap] + d[e + cap..];
    assert d1 == d[..e] + dsts[..cap];
    assert (dsts[cap..] + d1[left..])[..left] == dsts[cap..];
    assert dsts[..cap] + dsts[cap..] == dsts;
    assert sent + (d[..e] + dsts[..cap]) + dsts[cap..] == sent + d[..e] + (dsts[..cap] + dsts[cap..]);
  }

  /** One gutter `d` with `e` destinations in it: filled, and started again when it is full. */
  method FillGutter(d0: seq<nat>, e0: nat, dsts: seq<nat>, ghost sent: seq<seq<nat>>)
    returns (d: seq<nat>, e: nat, ghost s': seq<seq<nat>>)
    requires e0 < |d0| && |dsts| <= |d0|
    ensures |d| == |d0| && e < |d| && Flat(s') + d[..e] == Flat(sent) + d0[..e0] + dsts
    ensures if |dsts| < |d0| - e0 then s' == sent else exists b :: |b| == |d0| && s' == sent + [b]
  {
    var capacity := |d0| - e0;
    if |dsts| < capacity {
      FillFits(d0, e0, dsts, Flat(sent));
    } else {
      FillOverflows(d0, e0, dsts, Flat(sent), capacity, |dsts| - capacity);
    }
    var k := if |dsts| < capacity then |dsts| else capacity;
    d, e, s' := d0[..e0] + dsts[..k] + d0[e0 + k..], e0 + k, sent;
    if |dsts| >= capacity {
      FlatAppend(s', d);
      s' := s' + [d];
      var left := |dsts| - capacity;
      d, e := dsts[capacity..] + d[left..], left;
    }
  }

  class SketchSubgraph {
    const n: nat
    const batchSize: nat
    var elms: seq<nat>
    var data: seq<seq<nat>>
    ghost var sent: seq<seq<seq<nat>>>      // per vertex: the batches given to the stream so far

    ghost predicate Valid()
      reads this
    {
      && |elms| == |data| == |sent| == n && batchSize >= SLOTS
      && (forall v :: 0 <= v < n ==> |data[v]| == batchSize && elms[v] < batchSize)
    }

    /** Everything routed to vertex `v`: what went out followed by what still waits in the gutter. */
    ghost function Routed(v: nat): seq<nat>
      requires Valid() && v < n
      reads this
    {
      Flat(sent[v]) + data[v][..elms[v]]
    }

    ghost function Streams(): (s: seq<seq<nat>>)
      requires Valid()
      ensures |s| == n && forall v :: 0 <= v < n ==> s[v] == Routed(v)
      reads this
    {
      seq(n, v requires 0 <= v < n && Valid() reads this => Routed(v))
    }

    constructor (vertices: nat, size: nat)
      requires size >= SLOTS
      ensures Valid() && n == vertices && batchSize == size && Streams() == seq(vertices, _ => [])
      ensures sent == seq(vertices, _ => [])
    {
      n, batchSize := vertices, size;
      elms := seq(vertices, _ => 0);
      data := seq(vertices, _ => seq(size, _ => 0));
      sent := seq(vertices, _ => []);
    }

    /** `batch_insert`: fill the gutter; when it is full hand it out and start again with the rest. */
    method BatchInsert(src: nat, dsts: seq<nat>)
      requires Valid() && src < n && |dsts| <= SLOTS
      modifies this
      ensures Valid() && Streams() == old(Streams())[src := old(Streams())[src] + dsts]
      ensures forall v :: 0 <= v < n && v != src ==> sent[v] == old(sent[v])
      ensures if |dsts| < batchSize - old(elms[src]) then sent[src] == old(sent[src])
              else exists b :: |b| == batchSize && sent[src] == old(sent[src]) + [b]
    {
      var d, e;
      ghost var s';
      d, e, s' := FillGutter(data[src], elms[src], dsts, sent[src]);
      Store(src, e, d, s');
    }

    method Store(src: nat, e: nat, d: seq<nat>, ghost s': seq<seq<nat>>)
      requires Valid() && src < n && |d| == batchSize && e < batchSize
      modifies this
      ensures Valid() && Streams() == old(Streams())[src := Flat(s') + d[..e]]
      ensures sent == old(sent)[src := s'] && elms == old(elms)[src := e]
    {
      elms, data, sent := elms[src := e], data[src := d], sent[src := s'];
    }

    /** `flush`: every non-empty gutter goes out as one last batch. */
    method Flush()
      requires Valid()
      modifies this
      ensures Valid() && Streams() == old(Streams())
      ensures forall v :: 0 <= v < n ==> elms[v] == 0 && Flat(sent[v]) == Streams()[v]
    {
      ghost var was := Streams();
      var v := 0;
      while v < n
        invariant v <= n && Valid()
        invariant forall u :: 0 <= u < n ==> Routed(u) == was[u]
        invariant forall u :: 0 <= u < v ==> elms[u] == 0
      {
        if elms[v] > 0 {
          var out := data[v][..elms[v]];
          FlatAppend(sent[v], out);
          ghost var whole := Routed(v);
          ghost var s0, d0, e0 := sent, data, elms;
          sent := sent[v := sent[v] + [out]];
          elms := elms[v := 0];
          data := data[v := seq(batchSize, i requires 0 <= i < batchSize => if i < |out| then out[i] else 0)];
          assert Routed(v) == whole;
          forall u | 0 <= u < n && u != v ensures Routed(u) == was[u] {
            assert sent[u] == s0[u] && data[u] == d0[u] && elms[u] == e0[u];
          }
        }
        v := v + 1;
      }
      assert Streams() == was;
      forall u | 0 <= u < n ensures Flat(sent[u]) == was[u] { assert data[u][..0] == []; }
    }
  }

  // ---------- routing a tagged batch ----------

  /** The destinations that subgraph `g` takes from a tagged batch, in order. */
  function RoutedSeq(data: seq<Upd>, lo: nat, first: nat, g: nat): seq<nat> {
    if data == [] then []
    else
      var u := data[|data| - 1];
      RoutedSeq(data[..|data| - 1], lo, first, g) + (if lo <= g < first && g <= u.subgraph then [u.dst] else [])
  }

  /** Destinations are routed in the order of their updates. */
  lemma {:induction false} RoutedInOrder(a: seq<Upd>, b: seq<Upd>, lo: nat, first: nat, g: nat)
    ensures RoutedSeq(a + b, lo, first, g) == RoutedSeq(a, lo, first, g) + RoutedSeq(b, lo, first, g)
    decreases |b|
  {
    if b == [] {
      assert a + b == a;
    } else {
      var last := |b| - 1;
      assert (a + b)[..|a + b| - 1] == a + b[..last];
      RoutedInOrder(a, b[..last], lo, first, g);
    }
  }

  /** How often a destination is routed: as often as its update occurs, if the subgraph takes it. */
  lemma {:induction false} RoutedCount(depth: (nat, nat) -> nat, src: nat, data: seq<Upd>, lo: nat, first: nat, g: nat,
                                       dst: nat)
    requires TagsOk(depth, src, data)
    ensures multiset(RoutedSeq(data, lo, first, g))[dst]
         == if lo <= g < first && g <= depth(src, dst) then multiset(data)[Upd(depth(src, dst), dst)] else 0
  {
    if data != [] {
      var rest, u := data[..|data| - 1], data[|data| - 1];
      assert data == rest + [u];
      RoutedCount(depth, src, rest, lo, first, g, dst);
      var x := Upd(depth(src, dst), dst);
      assert multiset(data)[x] == multiset(rest)[x] + multiset([u])[x];
      assert u in data;
    }
  }

  /** A destination is routed an odd number of times exactly when the batch hands it over. */
  lemma RoutedIsRoute(depth: (nat, nat) -> nat, b: Tagged, g: nat, dst: nat)
    requires TagsOk(depth, b.src, b.data)
    ensures multiset(RoutedSeq(b.data, b.minSubgraph, b.firstEs, g))[dst] % 2 == 1 <==>
        Handed(g, b.src, dst) in Route(b)
  {
    RoutedCount(depth, b.src, b.data, b.minSubgraph, b.firstEs, g, dst);
    RouteMember(depth, b, Handed(g, b.src, dst));
  }

  /** The subgraphs are different objects, all in order and all for the same vertices. */
  ghost predicate Ready(subs: seq<SketchSubgraph>, n: nat)
    reads subs
  {
    && (forall g :: 0 <= g < |subs| ==> subs[g].Valid() && subs[g].n == n)
    && (forall g, h :: 0 <= g < h < |subs| ==> subs[g] != subs[h])
  }

  /** The streams of all subgraphs agree with `S`. */
  ghost predicate StreamsAre(subs: seq<SketchSubgraph>, n: nat, S: seq<seq<seq<nat>>>)
    requires Ready(subs, n)
    reads subs
  {
    |S| == |subs| && forall g :: 0 <= g < |subs| ==> |S[g]| == n && subs[g].Streams() == S[g]
  }

  /** Give `dsts` to subgraph `g`. */
  method GiveTo(subs: seq<SketchSubgraph>, n: nat, g: nat, src: nat, dsts: seq<nat>, ghost S: seq<seq<seq<nat>>>)
    requires Ready(subs, n) && StreamsAre(subs, n, S) && g < |subs| && src < n && |dsts| <= SLOTS
    modifies subs[g]
    ensures Ready(subs, n) && StreamsAre(subs, n, S[g := S[g][src := S[g][src] + dsts]])
  {
    ghost var others := set h | 0 <= h < |subs| && h != g :: subs[h];
    assert subs[g] !in others;
    subs[g].BatchInsert(src, dsts);
    forall h | 0 <= h < |subs| && h != g ensures subs[h].Valid() && subs[h].Streams() == S[h] {
      assert subs[h] in others;
    }
  }

  /** What subgraph `g` should have taken once update `i` has been put into the buffers of the subgraphs below `gid`. */
  ghost function Due(b: Tagged, i: nat, gid: nat, g: nat): seq<nat>
    requires i < |b.data| || (i == |b.data| && gid == 0)
  {
    RoutedSeq(b.data[..if g < gid then i + 1 else i], b.minSubgraph, b.firstEs, g)
  }

  lemma DueNext(b: Tagged, i: nat, g: nat)
    requires i < |b.data|
    ensures RoutedSeq(b.data[..i + 1], b.minSubgraph, b.firstEs, g)
         == RoutedSeq(b.data[..i], b.minSubgraph, b.firstEs, g)
            + if b.minSubgraph <= g < b.firstEs && g <= b.data[i].subgraph then [b.data[i].dst] else []
  {
    assert b.data[..i + 1][..i] == b.data[..i];
  }

  /** Per subgraph: the stream of the source followed by the local buffer is what is due; nothing else changed. */
  ghost predicate Routing(S0: seq<seq<seq<nat>>>, S: seq<seq<seq<nat>>>, bufs: seq<seq<nat>>, b: Tagged, i: nat,
                          gid: nat)
    requires i < |b.data| || (i == |b.data| && gid == 0)
  {
    && |S0| == |S| && b.firstEs == |bufs| <= |S|
    && (forall g :: 0 <= g < |S| ==> |S[g]| == |S0[g]| && b.src < |S[g]| && S[g] == S0[g][b.src := S[g][b.src]])
    && (forall g :: |bufs| <= g < |S| ==> S[g] == S0[g])
    && (forall g :: 0 <= g < |bufs| ==> |bufs[g]| < SLOTS && S[g][b.src] + bufs[g] == S0[g][b.src] + Due(b, i, gid, g))
  }

  /** One destination into the buffer of subgraph `g`, which is emptied when it is full. */
  lemma RouteOne(S0: seq<seq<seq<nat>>>, S: seq<seq<seq<nat>>>, bufs: seq<seq<nat>>, b: Tagged, i: nat, g: nat)
    requires i < |b.data| && Routing(S0, S, bufs, b, i, g) && b.minSubgraph <= g < |bufs| && g <= b.data[i].subgraph
    ensures var full := bufs[g] + [b.data[i].dst];
            if |full| >= SLOTS then Routing(S0, S[g := S[g][b.src := S[g][b.src] + full]], bufs[g := []], b, i, g + 1)
            else Routing(S0, S, bufs[g := full], b, i, g + 1)
  {
    DueNext(b, i, g);
    var full := bufs[g] + [b.data[i].dst];
    assert S[g][b.src] + full == S0[g][b.src] + Due(b, i, g + 1, g) by {
      assert S[g][b.src] + full == (S[g][b.src] + bufs[g]) + [b.data[i].dst];
    }
    assert S[g][b.src] + full + [] == S[g][b.src] + full;
  }

  /** Subgraphs outside the range of update `i` take nothing from it. */
  lemma RouteSkip(S0: seq<seq<seq<nat>>>, S: seq<seq<seq<nat>>>, bufs: seq<seq<nat>>, b: Tagged, i: nat, gid: nat,
                  gid': nat)
    requires i < |b.data| && Routing(S0, S, bufs, b, i, gid)
    requires var lo, hi := if gid < gid' then gid else gid', if gid < gid' then gid' else gid;
             hi <= b.minSubgraph || lo >= b.firstEs || lo > b.data[i].subgraph
    ensures Routing(S0, S, bufs, b, i, gid')
  {
    forall g | 0 <= g < |bufs| ensures Due(b, i, gid', g) == Due(b, i, gid, g) {
      DueNext(b, i, g);
    }
  }

  lemma RouteDone(S0: seq<seq<seq<nat>>>, S: seq<seq<seq<nat>>>, bufs: seq<seq<nat>>, b: Tagged, i: nat)
    requires i < |b.data| && Routing(S0, S, bufs, b, i, b.firstEs)
    ensures Routing(S0, S, bufs, b, i + 1, 0)
  {
    forall g | 0 <= g < |bufs| ensures Due(b, i + 1, 0, g) == Due(b, i, b.firstEs, g) { }
  }

  method PutOne(subs: seq<SketchSubgraph>, n: nat, b: Tagged, i: nat, g: nat, bufs0: seq<seq<nat>>,
                ghost S0: seq<seq<seq<nat>>>, ghost Sin: seq<seq<seq<nat>>>)
    returns (bufs: seq<seq<nat>>, ghost S: seq<seq<seq<nat>>>)
    requires Ready(subs, n) && StreamsAre(subs, n, Sin) && b.src < n && i < |b.data|
    requires Routing(S0, Sin, bufs0, b, i, g) && b.minSubgraph <= g < |bufs0| && g <= b.data[i].subgraph
    modifies subs
    ensures Ready(subs, n) && StreamsAre(subs, n, S) && Routing(S0, S, bufs, b, i, g + 1)
  {
    RouteOne(S0, Sin, bufs0, b, i, g);
    var full := bufs0[g] + [b.data[i].dst];
    bufs, S := bufs0[g := full], Sin;
    if |full| >= SLOTS {
      GiveTo(subs, n, g, b.src, full, S);
      S := S[g := S[g][b.src := S[g][b.src] + full]];
      bufs := bufs0[g := []];
    }
  }

  /** The inner loop: one update goes to every subgraph of its range. */
  method RouteUpdate(subs: seq<SketchSubgraph>, n: nat, b: Tagged, i: nat, bufs0: seq<seq<nat>>,
                     ghost S0: seq<seq<seq<nat>>>, ghost Sin: seq<seq<seq<nat>>>)
    returns (bufs: seq<seq<nat>>, ghost S: seq<seq<seq<nat>>>)
    requires Ready(subs, n) && StreamsAre(subs, n, Sin) && b.src < n && i < |b.data| && 0 < b.firstEs
    requires Routing(S0, Sin, bufs0, b, i, 0)
    modifies subs
    ensures Ready(subs, n) && StreamsAre(subs, n, S) && Routing(S0, S, bufs, b, i + 1, 0)
  {
    bufs, S := bufs0, Sin;
    var last := if b.data[i].subgraph < b.firstEs - 1 then b.data[i].subgraph else b.firstEs - 1;
    var g := b.minSubgraph;
    RouteSkip(S0, S, bufs, b, i, 0, g);
    while g <= last
      invariant Ready(subs, n) && StreamsAre(subs, n, S) && b.minSubgraph <= g
      invariant Routing(S0, S, bufs, b, i, g)
      invariant g <= last + 1 || g == b.minSubgraph
    {
      bufs, S := PutOne(subs, n, b, i, g, bufs, S0, S);
      g := g + 1;
    }
    RouteSkip(S0, S, bufs, b, i, g, b.firstEs);
    RouteDone(S0, S, bufs, b, i);
  }

  /** What the streams are after the batch has been routed completely. */
  ghost predicate RoutedAll(S0: seq<seq<seq<nat>>>, S: seq<seq<seq<nat>>>, b: Tagged) {
    && |S| == |S0| && (forall g :: 0 <= g < |S| ==> b.src < |S0[g]|)
    && (forall g :: 0 <= g < |S| ==>
          S[g] == S0[g][b.src := S0[g][b.src] + RoutedSeq(b.data, b.minSubgraph, b.firstEs, g)])
  }

  lemma StreamAfter(S0: seq<seq<seq<nat>>>, S: seq<seq<seq<nat>>>, b: Tagged, g: nat, src: nat)
    requires RoutedAll(S0, S, b) && g < |S| && src < |S0[g]|
    ensures |S[g]| == |S0[g]|
    ensures S[g][src] ==
            if src == b.src then S0[g][src] + RoutedSeq(b.data, b.minSubgraph, b.firstEs, g) else S0[g][src]
  {
  }

  lemma {:induction false} NothingBeyond(data: seq<Upd>, lo: nat, first: nat, g: nat)
    requires g >= first
    ensures RoutedSeq(data, lo, first, g) == []
  {
    if data != [] { NothingBeyond(data[..|data| - 1], lo, first, g); }
  }

  lemma EmptyBuffersDone(S0: seq<seq<seq<nat>>>, S: seq<seq<seq<nat>>>, bufs: seq<seq<nat>>, b: Tagged)
    requires Routing(S0, S, bufs, b, |b.data|, 0) && forall g :: 0 <= g < |bufs| ==> bufs[g] == []
    ensures RoutedAll(S0, S, b)
  {
    assert b.data[..|b.data|] == b.data;
    forall g | 0 <= g < |S|
      ensures S[g] == S0[g][b.src := S0[g][b.src] + RoutedSeq(b.data, b.minSubgraph, b.firstEs, g)]
    {
      if g < |bufs| {
        assert S[g][b.src] + bufs[g] == S[g][b.src];
      } else {
        NothingBeyond(b.data, b.minSubgraph, b.firstEs, g);
        assert S0[g][b.src] + [] == S0[g][b.src];
      }
    }
  }

  /** The routing loops of `complete_update_batch`: each subgraph below `firstEs` receives exactly the destinations
      routed to it, in order. */
  method RouteBatch(subs: seq<SketchSubgraph>, n: nat, b: Tagged, ghost S0: seq<seq<seq<nat>>>)
    returns (ghost S: seq<seq<seq<nat>>>)
    requires Ready(subs, n) && StreamsAre(subs, n, S0) && b.src < n && 0 < b.firstEs <= |subs| && b.firstEs <= SLOTS
    modifies subs
    ensures Ready(subs, n) && StreamsAre(subs, n, S) && RoutedAll(S0, S, b)
  {
    S := S0;
    var bufs: seq<seq<nat>> := seq(b.firstEs, _ => []);
    var i := 0;
    while i < |b.data|
      invariant i <= |b.data| && Ready(subs, n) && StreamsAre(subs, n, S) && Routing(S0, S, bufs, b, i, 0)
    {
      bufs, S := RouteUpdate(subs, n, b, i, bufs, S0, S);
      i := i + 1;
    }
    bufs, S := EmptyBuffers(subs, n, b, bufs, S0, S);
    EmptyBuffersDone(S0, S, bufs, b);
  }

  lemma EmptyOne(S0: seq<seq<seq<nat>>>, S: seq<seq<seq<nat>>>, bufs: seq<seq<nat>>, b: Tagged, g: nat)
    requires Routing(S0, S, bufs, b, |b.data|, 0) && g < |bufs|
    ensures Routing(S0, S[g := S[g][b.src := S[g][b.src] + bufs[g]]], bufs[g := []], b, |b.data|, 0)
  {
    assert S[g][b.src] + bufs[g] + [] == S[g][b.src] + bufs[g];
  }

  /** The last loop: what is left in the local buffers. */
  method EmptyBuffers(subs: seq<SketchSubgraph>, n: nat, b: Tagged, bufs0: seq<seq<nat>>,
                      ghost S0: seq<seq<seq<nat>>>, ghost Sin: seq<seq<seq<nat>>>)
    returns (bufs: seq<seq<nat>>, ghost S: seq<seq<seq<nat>>>)
    requires Ready(subs, n) && StreamsAre(subs, n, Sin) && b.src < n && Routing(S0, Sin, bufs0, b, |b.data|, 0)
    modifies subs
    ensures Ready(subs, n) && StreamsAre(subs, n, S) && Routing(S0, S, bufs, b, |b.data|, 0)
    ensures |bufs| == |bufs0| && forall g :: 0 <= g < |bufs| ==> bufs[g] == []
  {
    bufs, S := bufs0, Sin;
    var g := 0;
    while g < |bufs|
      invariant g <= |bufs| == |bufs0| && Ready(subs, n) && StreamsAre(subs, n, S)
      invariant Routing(S0, S, bufs, b, |b.data|, 0) && forall h :: 0 <= h < g ==> bufs[h] == []
    {
      if |bufs[g]| > 0 {
        EmptyOne(S0, S, bufs, b, g);
        GiveTo(subs, n, g, b.src, bufs[g], S);
        S := S[g := S[g][b.src := S[g][b.src] + bufs[g]]];
        bufs := bufs[g := []];
      }
      g := g + 1;
    }
  }
}
