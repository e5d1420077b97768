/** Ingestion of the k-connectivity algorithm on one thread: edge store, contraction and gutters together. Whatever
    the stream and whenever the store contracts, each subgraph receives every edge with the right parity. */
module GpuIngest {
  import opened XorAlgebra
  import opened TaggedUpdates
  import opened EdgeStores
  import opened Gutters

  /** What subgraph `g` has been given for `src` contains `dst` an odd number of times. */
  ghost predicate OddStream(S: seq<seq<seq<nat>>>, h: Handed) {
    h.g < |S| && h.src < |S[h.g]| && multiset(S[h.g][h.src])[h.dst] % 2 == 1
  }

  /** The streams hold exactly the half-edges handed out so far. */
  ghost predicate Agree(S: seq<seq<seq<nat>>>, n: nat, handed: set<Handed>) {
    forall g: nat, src: nat, dst: nat :: g < |S| && src < n ==>
        (OddStream(S, Handed(g, src, dst)) <==> Handed(g, src, dst) in handed)
  }

  lemma ParityOfAppend(a: seq<nat>, b: seq<nat>, x: nat)
    ensures multiset(a + b)[x] % 2 == 1 <==> ((multiset(a)[x] % 2 == 1) != (multiset(b)[x] % 2 == 1))
  {
    assert multiset(a + b)[x] == multiset(a)[x] + multiset(b)[x];
  }

  lemma RouteAgreesOne(depth: (nat, nat) -> nat, S0: seq<seq<seq<nat>>>, S: seq<seq<seq<nat>>>, b: Tagged, h: Handed)
    requires RoutedAll(S0, S, b) && TagsOk(depth, b.src, b.data) && h.g < |S| && h.src < |S0[h.g]|
    ensures OddStream(S, h) <==> (OddStream(S0, h) != (h in Route(b)))
  {
    StreamAfter(S0, S, b, h.g, h.src);
    if h.src == b.src {
      RoutedIsRoute(depth, b, h.g, h.dst);
      ParityOfAppend(S0[h.g][h.src], RoutedSeq(b.data, b.minSubgraph, b.firstEs, h.g), h.dst);
    } else {
      RouteMember(depth, b, h);
    }
  }

  lemma RouteAgrees(depth: (nat, nat) -> nat, n: nat, S0: seq<seq<seq<nat>>>, S: seq<seq<seq<nat>>>, b: Tagged,
                    handed: set<Handed>)
    requires Agree(S0, n, handed) && RoutedAll(S0, S, b) && TagsOk(depth, b.src, b.data)
    requires forall g :: 0 <= g < |S0| ==> |S0[g]| == n
    ensures Agree(S, n, SymDiff(handed, Route(b)))
  {
    forall g: nat, src: nat, dst: nat | g < |S| && src < n
      ensures OddStream(S, Handed(g, src, dst)) <==> Handed(g, src, dst) in SymDiff(handed, Route(b))
    {
      RouteAgreesOne(depth, S0, S, b, Handed(g, src, dst));
    }
  }

  /** The tagged updates that enter the store. */
  method SplitBatch(depth: (nat, nat) -> nat, src: nat, dsts: seq<nat>, first: nat)
    returns (deep: seq<Upd>, all: seq<Upd>)
    ensures all == Tag(depth, src, dsts) && deep == Kept(all, first)
  {
    deep, all := [], [];
    var i := 0;
    while i < |dsts|
      invariant i <= |dsts| && all == Tag(depth, src, dsts[..i]) && deep == Kept(all, first)
    {
      var u := Upd(depth(src, dsts[i]), dsts[i]);
      assert Tag(depth, src, dsts[..i + 1]) == all + [u];
      assert (all + [u])[..|all|] == all;
      if u.subgraph >= first { deep := deep + [u]; }
      all := all + [u];
      i := i + 1;
    }
    assert dsts[..i] == dsts;
  }

  class MCGPUSketchAlg {
    const store: EdgeStore
    const subs: seq<SketchSubgraph>
    var curSubgraphs: nat
    var updateLocked: bool
    ghost var streams: seq<seq<seq<nat>>>
    ghost var ended: bool               // a contraction has ended and no batch has reached the store since

    /** Store and subgraphs are in order; the allocated subgraphs are exactly those in use, or one is about to be. */
    ghost predicate Shape()
      reads this, store, subs
    {
      && store.Valid() && Ready(subs, store.n) && StreamsAre(subs, store.n, streams)
      && store.levels <= |subs| <= SLOTS
    }

    /** Between operations: every half-edge handed out is in its subgraph. */
    ghost predicate Valid()
      reads this, store, subs
    {
      && Shape() && Agree(streams, store.n, store.handed)
      && store.Needed() <= curSubgraphs <= store.cur
      && (!store.Pending() && !ended ==> store.numEdges < store.maxEdges)
    }

    constructor (n: nat, limit: nat, depth: (nat, nat) -> nat, levels: nat, subgraphs: seq<SketchSubgraph>)
      requires limit > 0 && (forall src: nat, dst: nat :: depth(src, dst) < levels) && levels <= |subgraphs| <= SLOTS
      requires Ready(subgraphs, n)
      requires forall g :: 0 <= g < |subgraphs| ==> subgraphs[g].Streams() == seq(n, _ => [])
      ensures Valid() && fresh(store) && store.inserted == {} && store.n == n && store.depth == depth && !ended
      ensures subs == subgraphs && !updateLocked
    {
      store := new EdgeStore(n, limit, depth, levels);
      subs, curSubgraphs, updateLocked, ended := subgraphs, 0, false, false;
      ghost var none: seq<seq<nat>> := seq(n, _ => []);
      streams := seq(|subgraphs|, _ => none);
      new;
      NothingYet(streams, n);
    }

    /** `complete_update_batch`: allocate the next subgraph if the batch needs it, then route the batch. The subgraphs
        that receive something are always allocated ones. */
    method CompleteUpdateBatch(b: Tagged)
      requires Shape() && b.src < store.n && 0 < b.firstEs <= |subs| && b.firstEs <= curSubgraphs + 1
      requires TagsOk(store.depth, b.src, b.data)
      modifies this`curSubgraphs, this`streams, subs
      ensures Shape() && RoutedAll(old(streams), streams, b)
      ensures curSubgraphs == if b.firstEs > old(curSubgraphs) then b.firstEs else old(curSubgraphs)
    {
      if b.firstEs > curSubgraphs { curSubgraphs := curSubgraphs + 1; }
      streams := RouteBatch(subs, store.n, b, streams);
    }

    /** The updates of a batch that reach the store. */
    ghost function ToStore(src: nat, dsts: seq<nat>): seq<Upd>
      reads this, store
    {
      Kept(Tag(store.depth, src, dsts), store.cur)
    }

    /** `apply_update_batch`: a batch of half-edges of one source; refused while a query has locked updates out. With no
        contraction under way, the store moves on exactly when the batch has filled it. */
    method ApplyUpdateBatch(src: nat, dsts: seq<nat>) returns (ok: bool)
      requires Valid() && src < store.n
      modifies this`curSubgraphs, this`streams, this`ended, subs, store
      ensures MovesOn(ok && old(ToStore(src, dsts)) != [], old(store.Pending()), old(store.cur), store.Pending(),
                      store.cur, store.numEdges >= store.maxEdges)
      ensures ended == if ok && old(ToStore(src, dsts)) != [] then old(store.Pending()) && !store.Pending()
                       else old(ended)
      ensures !ok || old(ToStore(src, dsts)) == [] ==> store.adj == old(store.adj)
      ensures Valid() && ok == !updateLocked
      ensures ok ==> store.inserted == SymDiff(old(store.inserted), OddHalves(src, Tag(store.depth, src, dsts)))
      ensures !ok ==> streams == old(streams) && store.adj == old(store.adj)
      ensures !ok ==> store.inserted == old(store.inserted) && store.handed == old(store.handed)
    {
      ok := !updateLocked;
      if ok { InsertBatch(src, dsts); }
    }

    method InsertBatch(src: nat, dsts: seq<nat>)
      requires Valid() && src < store.n
      modifies this`curSubgraphs, this`streams, this`ended, subs, store
      ensures Valid()
      ensures store.inserted == SymDiff(old(store.inserted), OddHalves(src, Tag(store.depth, src, dsts)))
      ensures MovesOn(old(ToStore(src, dsts)) != [], old(store.Pending()), old(store.cur), store.Pending(), store.cur,
                      store.numEdges >= store.maxEdges)
      ensures ended == if old(ToStore(src, dsts)) != [] then old(store.Pending()) && !store.Pending() else old(ended)
      ensures old(ToStore(src, dsts)) == [] ==> store.adj == old(store.adj)
    {
      var first := store.cur;
      ghost var h0 := store.handed;
      var all, more := Enter(src, dsts);
      if first > 0 {
        Deliver(Tagged(src, 0, first, all), h0);
      } else {
        NothingToRoute(src, first, all);
        SymDiffEmpty(h0);
      }
      Deliver(more, SymDiff(h0, Route(Tagged(src, 0, first, all))));
    }

    /** The store takes its part of the batch; what is to be handed out has not been delivered yet. */
    method Enter(src: nat, dsts: seq<nat>) returns (all: seq<Upd>, more: Tagged)
      requires Valid() && src < store.n
      modifies this`ended, store
      ensures store.Valid() && all == Tag(store.depth, src, dsts) && store.Needed() <= old(store.cur) <= store.cur
      ensures all == [] || old(ToStore(src, dsts)) == [] ==> store.Needed() == old(store.Needed())
      ensures more.firstEs == old(store.cur) && TagsOk(store.depth, more.src, more.data)
      ensures more.data != [] ==> more.src < store.n && more.firstEs > 0
      ensures store.inserted == SymDiff(old(store.inserted), OddHalves(src, all))
      ensures store.handed == SymDiff(SymDiff(old(store.handed), Route(Tagged(src, 0, old(store.cur), all))),
                                      Route(more))
      ensures MovesOn(old(ToStore(src, dsts)) != [], old(store.Pending()), old(store.cur), store.Pending(), store.cur,
                      store.numEdges >= store.maxEdges)
      ensures ended == if old(ToStore(src, dsts)) != [] then old(store.Pending()) && !store.Pending() else old(ended)
      ensures old(ToStore(src, dsts)) == [] ==> store.adj == old(store.adj)
      ensures !store.Pending() && !ended ==> store.numEdges < store.maxEdges
    {
      var first := store.cur;
      var deep;
      deep, all := SplitBatch(store.depth, src, dsts, first);
      DeepEnough(all, first);
      ghost var pending := store.Pending();
      more := store.InsertAdjEdges(src, first, deep, dsts);
      if deep != [] { ended := pending && !store.Pending(); }
    }

    /** A batch with something in it is completed; either way it then counts as delivered. */
    method Deliver(b: Tagged, ghost handed: set<Handed>)
      requires Shape() && Agree(streams, store.n, handed) && TagsOk(store.depth, b.src, b.data)
      requires b.data != [] ==> b.src < store.n && 0 < b.firstEs <= |subs| && b.firstEs <= curSubgraphs + 1
      modifies this`curSubgraphs, this`streams, subs
      ensures Shape() && Agree(streams, store.n, SymDiff(handed, Route(b)))
      ensures curSubgraphs == if b.data != [] && b.firstEs > old(curSubgraphs) then b.firstEs else old(curSubgraphs)
    {
      ghost var S0 := streams;
      if |b.data| > 0 {
        CompleteUpdateBatch(b);
        RouteAgrees(store.depth, store.n, S0, streams, b, handed);
      } else {
        RouteEmpty(b.src, b.minSubgraph, b.firstEs);
        SymDiffEmpty(handed);
      }
    }

    /** The contraction loop of `apply_flush_updates`: afterwards no contraction is under way. */
    method FinishContraction()
      requires Valid()
      modifies this`curSubgraphs, this`streams, this`ended, subs, store
      ensures Valid() && !store.Pending() && store.inserted == old(store.inserted) && store.cur == old(store.cur)
      ensures ended == (old(ended) || old(store.Pending()))
      ensures store.adj == if old(store.Pending()) then Deep(old(store.adj), store.cur) else old(store.adj)
      ensures store.numEdges == Total(store.adj)
    {
      if !store.Pending() { return; }
      ended := true;
      while store.Pending()
        invariant Valid() && store.inserted == old(store.inserted) && store.cur == old(store.cur) && ended
        invariant Deep(store.adj, store.cur) == Deep(old(store.adj), store.cur)
        invariant !store.Pending() ==> store.adj == Deep(store.adj, store.cur)
        decreases store.n + 1 - store.needs
      {
        AdvanceOnce();
      }
    }

    method AdvanceOnce()
      requires Valid() && store.Pending() && ended
      modifies this`curSubgraphs, this`streams, subs, store
      ensures Valid() && store.inserted == old(store.inserted) && store.cur == old(store.cur)
      ensures old(store.needs) < store.needs <= store.n + 1
      ensures Deep(store.adj, store.cur) == Deep(old(store.adj), store.cur)
      ensures !store.Pending() ==> store.adj == Deep(store.adj, store.cur)
    {
      ghost var h0, adj0 := store.handed, store.adj;
      var more := store.Advance();
      if more.data != [] { DeepAgain(adj0, more.src, store.cur); }
      Deliver(more, h0);
    }
  }

  /** `apply_flush_updates`: finish the contraction, then empty the gutters of every subgraph in use. What each stream
      has then been sent, batch after batch, is everything routed to it. */
  method ApplyFlushUpdates(alg: MCGPUSketchAlg)
    requires alg.Valid()
    modifies alg`curSubgraphs, alg`streams, alg`ended, alg.subs, alg.store
    ensures alg.Valid() && !alg.store.Pending() && alg.store.inserted == old(alg.store.inserted)
    ensures alg.store.cur == old(alg.store.cur)
    ensures alg.store.adj == if old(alg.store.Pending()) then Deep(old(alg.store.adj), alg.store.cur)
                             else old(alg.store.adj)
    ensures alg.curSubgraphs == alg.store.cur
    ensures forall g, v :: 0 <= g < alg.store.cur && 0 <= v < alg.store.n ==>
        Flat(alg.subs[g].sent[v]) == alg.streams[g][v]
  {
    alg.FinishContraction();
    var subs, n := alg.subs, alg.store.n;
    var g := 0;
    while g < alg.curSubgraphs
      modifies subs
      invariant g <= alg.curSubgraphs <= |subs| && Ready(subs, n) && StreamsAre(subs, n, alg.streams)
      invariant forall h, v :: 0 <= h < g && 0 <= v < n ==> Flat(subs[h].sent[v]) == alg.streams[h][v]
    {
      FlushOne(subs, n, g, alg.streams);
      g := g + 1;
    }
  }

  method FlushOne(subs: seq<SketchSubgraph>, n: nat, g: nat, ghost S: seq<seq<seq<nat>>>)
    requires Ready(subs, n) && StreamsAre(subs, n, S) && g < |subs|
    modifies subs[g]
    ensures Ready(subs, n) && StreamsAre(subs, n, S)
    ensures forall v :: 0 <= v < n ==> Flat(subs[g].sent[v]) == S[g][v]
    ensures forall h :: 0 <= h < |subs| && h != g ==> subs[h].sent == old(subs[h].sent)
  {
    ghost var others := set h | 0 <= h < |subs| && h != g :: subs[h];
    assert subs[g] !in others;
    subs[g].Flush();
    forall h | 0 <= h < |subs| && h != g ensures subs[h].Valid() && subs[h].Streams() == S[h] {
      assert subs[h] in others;
    }
  }

  lemma DeepAgain(adj: seq<seq<Upd>>, src: nat, cur: nat)
    requires src < |adj|
    ensures Deep(adj[src := Kept(adj[src], cur)], cur) == Deep(adj, cur)
  {
    KeptTwice(adj[src], cur);
  }

  lemma DeepEnough(all: seq<Upd>, cur: nat)
    ensures Kept(all, cur) != [] ==> SomeDeep(Kept(all, cur), cur)
  {
    var data := Kept(all, cur);
    if data != [] {
      assert data[0] in data;
      KeptAll(all, cur, data[0]);
    }
  }

  lemma NothingYet(S: seq<seq<seq<nat>>>, n: nat)
    requires forall g :: 0 <= g < |S| ==> |S[g]| == n && forall v :: 0 <= v < n ==> S[g][v] == []
    ensures Agree(S, n, {})
  {
  }

  lemma NothingToRoute(src: nat, first: nat, all: seq<Upd>)
    requires all == [] || first == 0
    ensures Route(Tagged(src, 0, first, all)) == {}
  {
  }

  /** Conservation: once no contraction is pending, subgraph g below `cur` holds each edge of depth at least g with
      exactly its inserted parity and nothing else, and the store holds exactly the edges of depth `cur` or more. */
  lemma Conserved(alg: MCGPUSketchAlg, g: nat, src: nat, dst: nat)
    requires alg.Valid() && !alg.store.Pending() && src < alg.store.n && g < |alg.subs|
    ensures var d := alg.store.depth(src, dst); var ins := Half(src, dst) in alg.store.inserted;
            && (OddStream(alg.streams, Handed(g, src, dst)) <==> g < alg.store.cur && g <= d && ins)
            && (Odd(alg.store.adj[src], Upd(d, dst)) <==> d >= alg.store.cur && ins)
  {
    var s := alg.store;
    assert Open(0);
    var w := Waiting(s.Pending(), s.contracted);
    assert VertexOk(s.depth, w[src], s.cur, src, s.adj[src], s.inserted, s.handed);
    assert EdgeOk(false, s.cur, s.depth(src, dst), Half(src, dst) in s.inserted,
                  Odd(s.adj[src], Upd(s.depth(src, dst), dst)), src, dst, s.handed);
  }
}
