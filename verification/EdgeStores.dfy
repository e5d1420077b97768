/** The adjacency-list edge store with its incremental contractions, used by one thread, and the half-edges it hands
    to the sketch subgraphs. */
module EdgeStores {
  import opened XorAlgebra
  import opened TaggedUpdates

  /** `TaggedUpdateBatch`: subgraph g takes an update with minSubgraph <= g <= min(its tag, firstEs - 1). */
  datatype Tagged = Tagged(src: nat, minSubgraph: nat, firstEs: nat, data: seq<Upd>)

  /** One half-edge in the sketch of one subgraph. */
  datatype Handed = Handed(g: nat, src: nat, dst: nat)
  datatype Half = Half(src: nat, dst: nat)

  /** The half-edges a batch hands over an odd number of times. */
  ghost function Route(b: Tagged): set<Handed> {
    set u, g: nat | u in b.data && b.minSubgraph <= g < b.firstEs && g <= u.subgraph && Odd(b.data, u) ::
        Handed(g, b.src, u.dst)
  }

  /** Each update carries the depth of its edge. */
  ghost predicate TagsOk(depth: (nat, nat) -> nat, src: nat, data: seq<Upd>) {
    forall u :: u in data ==> u.subgraph == depth(src, u.dst)
  }

  lemma OddIn(s: seq<Upd>, u: Upd)
    requires Odd(s, u)
    ensures u in s
  {
    assert u in multiset(s);
  }

  lemma RouteMember(depth: (nat, nat) -> nat, b: Tagged, h: Handed)
    requires TagsOk(depth, b.src, b.data)
    ensures h in Route(b) <==> h.src == b.src && b.minSubgraph <= h.g < b.firstEs && h.g <= depth(b.src, h.dst)
                               && Odd(b.data, Upd(depth(b.src, h.dst), h.dst))
  {
    var u := Upd(depth(b.src, h.dst), h.dst);
    if Odd(b.data, u) { OddIn(b.data, u); }
  }

  // ---------- one edge ----------

  /** What holds of one half-edge (depth `d`, inserted parity `ins`, parity `st` in the store). `waiting` says that
      a contraction to `cur` is under way and has not reached the buffer of `src`. */
  ghost predicate EdgeOk(waiting: bool, cur: nat, d: nat, ins: bool, st: bool, src: nat, dst: nat,
                         handed: set<Handed>) {
    if waiting then
      && cur > 0
      && (forall g: nat :: Handed(g, src, dst) in handed ==> g < cur && g <= d)
      && (forall g: nat :: g + 1 < cur && g <= d ==> (Handed(g, src, dst) in handed <==> ins))
      && (d >= cur - 1 ==> (ins <==> (Handed(cur - 1, src, dst) in handed) != st))
      && (d >= cur ==> Handed(cur - 1, src, dst) !in handed)
      && (d < cur - 1 ==> !st)
    else
      && (forall g: nat :: Handed(g, src, dst) in handed <==> g < cur && g <= d && ins)
      && (st <==> ins && d >= cur)
  }

  /** Contracting the buffer hands its contents to subgraph cur - 1 and keeps what is deep enough. */
  lemma EdgeContract(cur: nat, d: nat, ins: bool, st: bool, src: nat, dst: nat, handed: set<Handed>, now: set<Handed>)
    requires EdgeOk(true, cur, d, ins, st, src, dst, handed)
    requires forall g: nat :: Handed(g, src, dst) in now <==>
        (Handed(g, src, dst) in handed) != (g == cur - 1 && g <= d && st)
    ensures EdgeOk(false, cur, d, ins, st && d >= cur, src, dst, now)
  {
  }

  /** New updates: subgraphs below cur take them at once, deeper ones also enter the store. */
  lemma EdgeInsert(waiting: bool, cur: nat, d: nat, ins: bool, st: bool, t: bool, src: nat, dst: nat,
                   handed: set<Handed>, now: set<Handed>)
    requires EdgeOk(waiting, cur, d, ins, st, src, dst, handed) && (waiting && d >= cur ==> !t)
    requires forall g: nat :: Handed(g, src, dst) in now <==>
        (Handed(g, src, dst) in handed) != (g < cur && g <= d && t)
    ensures EdgeOk(waiting, cur, d, ins != t, st != (t && d >= cur), src, dst, now)
  {
  }

  lemma EdgeStart(cur: nat, d: nat, ins: bool, st: bool, src: nat, dst: nat, handed: set<Handed>)
    requires EdgeOk(false, cur, d, ins, st, src, dst, handed)
    ensures EdgeOk(true, cur + 1, d, ins, st, src, dst, handed)
  {
  }

  lemma EdgeFrame(waiting: bool, cur: nat, d: nat, ins: bool, st: bool, src: nat, dst: nat, handed: set<Handed>,
                  now: set<Handed>)
    requires EdgeOk(waiting, cur, d, ins, st, src, dst, handed)
    requires forall g: nat :: Handed(g, src, dst) in now <==> Handed(g, src, dst) in handed
    ensures EdgeOk(waiting, cur, d, ins, st, src, dst, now)
  {
  }

  // ---------- one vertex ----------

  /** Nothing in the buffer is shallower than the store's first subgraph (or the one before, until contracted). */
  ghost predicate FloorOk(waiting: bool, cur: nat, buf: seq<Upd>) {
    forall u :: u in buf ==> u.subgraph >= cur || (waiting && u.subgraph + 1 >= cur)
  }

  ghost predicate VertexOk(depth: (nat, nat) -> nat, waiting: bool, cur: nat, src: nat, buf: seq<Upd>,
                           inserted: set<Half>, handed: set<Handed>) {
    && TagsOk(depth, src, buf) && FloorOk(waiting, cur, buf)
    && forall dst: nat :: EdgeOk(waiting, cur, depth(src, dst), Half(src, dst) in inserted,
                                 Odd(buf, Upd(depth(src, dst), dst)), src, dst, handed)
  }

  lemma VertexContract(depth: (nat, nat) -> nat, cur: nat, src: nat, buf: seq<Upd>, inserted: set<Half>,
                       handed: set<Handed>)
    requires cur > 0 && VertexOk(depth, true, cur, src, buf, inserted, handed)
    ensures VertexOk(depth, false, cur, src, Kept(buf, cur), inserted,
                     SymDiff(handed, Route(Tagged(src, cur - 1, cur, buf))))
  {
    var b := Tagged(src, cur - 1, cur, buf);
    var now := SymDiff(handed, Route(b));
    forall u | u in Kept(buf, cur) ensures u.subgraph == depth(src, u.dst) && u.subgraph >= cur {
      KeptParity(buf, cur, u);
      assert u in multiset(Kept(buf, cur));
      assert u in multiset(buf);
    }
    forall dst: nat
      ensures EdgeOk(false, cur, depth(src, dst), Half(src, dst) in inserted,
                     Odd(Kept(buf, cur), Upd(depth(src, dst), dst)), src, dst, now)
    {
      var d := depth(src, dst);
      var u := Upd(d, dst);
      KeptParity(buf, cur, u);
      forall g: nat
        ensures Handed(g, src, dst) in now <==> (Handed(g, src,
                                                        dst) in handed) != (g == cur - 1 && g <= d && Odd(buf, u))
      {
        RouteMember(depth, b, Handed(g, src, dst));
      }
      EdgeContract(cur, d, Half(src, dst) in inserted, Odd(buf, u), src, dst, handed, now);
    }
  }

  /** Batches of other vertices do not concern this one. */
  lemma VertexFrame(depth: (nat, nat) -> nat, waiting: bool, cur: nat, src: nat, buf: seq<Upd>, inserted: set<Half>,
                    handed: set<Handed>,
                    inserted': set<Half>, b: Tagged)
    requires VertexOk(depth, waiting, cur, src, buf, inserted, handed) && b.src != src && TagsOk(depth, b.src, b.data)
    requires forall dst: nat :: Half(src, dst) in inserted' <==> Half(src, dst) in inserted
    ensures VertexOk(depth, waiting, cur, src, buf, inserted', SymDiff(handed, Route(b)))
  {
    var now := SymDiff(handed, Route(b));
    forall dst: nat
      ensures EdgeOk(waiting, cur, depth(src, dst), Half(src, dst) in inserted', Odd(buf, Upd(depth(src, dst), dst)),
                     src, dst, now)
    {
      forall g: nat
        ensures Handed(g, src, dst) in now <==> Handed(g, src, dst) in handed
      {
        RouteMember(depth, b, Handed(g, src, dst));
      }
      EdgeFrame(waiting, cur, depth(src, dst), Half(src, dst) in inserted, Odd(buf, Upd(depth(src, dst), dst)), src,
                dst, handed, now);
    }
  }

  /** All updates of a batch for one source, tagged. */
  function Tag(depth: (nat, nat) -> nat, src: nat, dsts: seq<nat>): (r: seq<Upd>)
    ensures |r| == |dsts| && forall i :: 0 <= i < |r| ==> r[i] == Upd(depth(src, dsts[i]), dsts[i])
  {
    seq(|dsts|, i requires 0 <= i < |dsts| => Upd(depth(src, dsts[i]), dsts[i]))
  }

  ghost function OddHalves(src: nat, data: seq<Upd>): set<Half> {
    set u | u in data && Odd(data, u) :: Half(src, u.dst)
  }

  lemma OddHalvesMember(depth: (nat, nat) -> nat, src: nat, data: seq<Upd>, h: Half)
    requires TagsOk(depth, src, data)
    ensures h in OddHalves(src, data) <==> h.src == src && Odd(data, Upd(depth(src, h.dst), h.dst))
  {
    var u := Upd(depth(src, h.dst), h.dst);
    if Odd(data, u) { OddIn(data, u); }
  }

  /** A new batch for `src`: `all` goes to the subgraphs below cur, its deep part into the buffer. */
  lemma VertexInsert(depth: (nat, nat) -> nat, waiting: bool, cur: nat, src: nat, buf: seq<Upd>, buf': seq<Upd>,
                     all: seq<Upd>,
                     inserted: set<Half>, handed: set<Handed>)
    requires VertexOk(depth, waiting, cur, src, buf, inserted, handed) && TagsOk(depth, src, all)
    requires TagsOk(depth, src, buf')
    requires FloorOk(waiting, cur, buf')
    requires forall u :: Odd(buf', u) <==> (Odd(buf, u) != (u.subgraph >= cur && Odd(all, u)))
    requires waiting ==> forall u :: u in all ==> u.subgraph < cur
    ensures VertexOk(depth, waiting, cur, src, buf', SymDiff(inserted, OddHalves(src, all)),
                     SymDiff(handed, Route(Tagged(src, 0, cur, all))))
  {
    var b := Tagged(src, 0, cur, all);
    var now, ins' := SymDiff(handed, Route(b)), SymDiff(inserted, OddHalves(src, all));
    forall dst: nat
      ensures EdgeOk(waiting, cur, depth(src, dst), Half(src, dst) in ins', Odd(buf', Upd(depth(src, dst), dst)),
                     src, dst, now)
    {
      var d := depth(src, dst);
      var u := Upd(d, dst);
      OddHalvesMember(depth, src, all, Half(src, dst));
      if Odd(all, u) { OddIn(all, u); }
      forall g: nat
        ensures Handed(g, src, dst) in now <==> (Handed(g, src, dst) in handed) != (g < cur && g <= d && Odd(all, u))
      {
        RouteMember(depth, b, Handed(g, src, dst));
      }
      EdgeInsert(waiting, cur, d, Half(src, dst) in inserted, Odd(buf, u), Odd(all, u), src, dst, handed, now);
    }
  }

  lemma VertexStart(depth: (nat, nat) -> nat, cur: nat, src: nat, buf: seq<Upd>, inserted: set<Half>,
                    handed: set<Handed>)
    requires VertexOk(depth, false, cur, src, buf, inserted, handed)
    ensures VertexOk(depth, true, cur + 1, src, buf, inserted, handed)
  {
    forall dst: nat
      ensures EdgeOk(true, cur + 1, depth(src, dst), Half(src, dst) in inserted, Odd(buf, Upd(depth(src, dst), dst)),
                     src, dst, handed)
    {
      EdgeStart(cur, depth(src, dst), Half(src, dst) in inserted, Odd(buf, Upd(depth(src, dst), dst)), src, dst,
                handed);
    }
  }

  // ---------- the store ----------

  function Total(adj: seq<seq<Upd>>): nat { if adj == [] then 0 else Total(adj[..|adj| - 1]) + |adj[|adj| - 1]| }

  lemma {:induction false} TotalOfUpdate(adj: seq<seq<Upd>>, v: nat, buf: seq<Upd>)
    requires v < |adj|
    ensures Total(adj[v := buf]) == Total(adj) - |adj[v]| + |buf|
  {
    var last := |adj| - 1;
    if v == last {
      assert adj[v := buf][..last] == adj[..last];
    } else {
      TotalOfUpdate(adj[..last], v, buf);
      assert adj[v := buf][..last] == adj[..last][v := buf];
    }
  }

  lemma {:induction false} TotalEmpty(adj: seq<seq<Upd>>)
    requires forall v :: 0 <= v < |adj| ==> adj[v] == []
    ensures Total(adj) == 0
  {
    if adj != [] { TotalEmpty(adj[..|adj| - 1]); }
  }

  lemma {:induction false} SomeEdge(adj: seq<seq<Upd>>) returns (v: nat)
    requires Total(adj) > 0
    ensures v < |adj| && adj[v] != []
  {
    var last := |adj| - 1;
    if adj[last] != [] { v := last; } else { v := SomeEdge(adj[..last]); }
  }

  /** Some buffer that still waits to be contracted has something to hand out. */
  ghost predicate SomeWaiting(adj: seq<seq<Upd>>, contracted: seq<bool>) {
    exists v :: 0 <= v < |adj| == |contracted| && !contracted[v] && adj[v] != []
  }

  lemma RouteEmpty(src: nat, lo: nat, first: nat)
    ensures Route(Tagged(src, lo, first, [])) == {}
  {
  }

  lemma KeptAll(all: seq<Upd>, cur: nat, u: Upd)
    ensures Odd(Kept(all, cur), u) <==> u.subgraph >= cur && Odd(all, u)
    ensures u in Kept(all, cur) <==> u in all && u.subgraph >= cur
  {
    KeptParity(all, cur, u);
    assert u in Kept(all, cur) <==> u in multiset(Kept(all, cur));
    assert u in all <==> u in multiset(all);
  }

  /** All vertices of the store together. */
  ghost predicate StoreOk(depth: (nat, nat) -> nat, adj: seq<seq<Upd>>, waiting: seq<bool>, cur: nat,
                          inserted: set<Half>, handed: set<Handed>)
  {
    |waiting| == |adj| && forall k {:trigger Open(k)} :: Open(k) ==>
      forall v :: 0 <= v < |adj| ==> VertexOk(depth, waiting[v], cur, v, adj[v], inserted, handed)
  }

  // `StoreOk` is unfolded only in proofs that mention `Open`; the methods just pass it on.
  ghost predicate Open(k: nat) { true }

  lemma StoreTags(depth: (nat, nat) -> nat, adj: seq<seq<Upd>>, waiting: seq<bool>, cur: nat, inserted: set<Half>,
                  handed: set<Handed>, v: nat)
    requires StoreOk(depth, adj, waiting, cur, inserted, handed) && v < |adj|
    ensures TagsOk(depth, v, adj[v]) && FloorOk(waiting[v], cur, adj[v])
  {
    assert Open(0);
  }

  lemma StoreContract(depth: (nat, nat) -> nat, adj: seq<seq<Upd>>, waiting: seq<bool>, cur: nat, inserted: set<Half>,
                      handed: set<Handed>, src: nat)
    requires StoreOk(depth, adj, waiting, cur, inserted, handed) && src < |adj| && waiting[src] && cur > 0
    ensures StoreOk(depth, adj[src := Kept(adj[src], cur)], waiting[src := false], cur, inserted,
                    SymDiff(handed, Route(Tagged(src, cur - 1, cur, adj[src]))))
  {
    assert Open(0);
    var b := Tagged(src, cur - 1, cur, adj[src]);
    VertexContract(depth, cur, src, adj[src], inserted, handed);
    forall v | 0 <= v < |adj| && v != src
      ensures VertexOk(depth, waiting[v], cur, v, adj[v], inserted, SymDiff(handed, Route(b)))
    {
      assert VertexOk(depth, waiting[src], cur, src, adj[src], inserted, handed);
      VertexFrame(depth, waiting[v], cur, v, adj[v], inserted, handed, inserted, b);
    }
  }

  lemma ContractStep(depth: (nat, nat) -> nat, adj: seq<seq<Upd>>, contracted: seq<bool>, cur: nat, inserted: set<Half>,
                     handed: set<Handed>, src: nat)
    requires StoreOk(depth, adj, Waiting(true, contracted), cur, inserted, handed) && src < |adj| && !contracted[src]
    requires cur > 0
    ensures StoreOk(depth, adj[src := Kept(adj[src], cur)], Waiting(true, contracted[src := true]), cur, inserted,
                    SymDiff(handed, Route(Tagged(src, cur - 1, cur, adj[src]))))
    ensures TagsOk(depth, src, adj[src])
    ensures SomeWaiting(adj, contracted) && adj[src] == [] ==>
        SomeWaiting(adj[src := Kept(adj[src], cur)], contracted[src := true])
  {
    StoreContract(depth, adj, Waiting(true, contracted), cur, inserted, handed, src);
    StoreTags(depth, adj, Waiting(true, contracted), cur, inserted, handed, src);
    assert Waiting(true, contracted[src := true]) == Waiting(true, contracted)[src := false];
    KeepWaiting(adj, contracted, src, Kept(adj[src], cur));
  }

  lemma StoreInsert(depth: (nat, nat) -> nat, adj: seq<seq<Upd>>, waiting: seq<bool>, cur: nat, inserted: set<Half>,
                    handed: set<Handed>,
                    src: nat, all: seq<Upd>, buf: seq<Upd>)
    requires StoreOk(depth, adj, waiting, cur, inserted, handed) && src < |adj| && TagsOk(depth, src, all)
    requires TagsOk(depth, src, buf)
    requires FloorOk(waiting[src], cur, buf)
    requires forall u :: Odd(buf, u) <==> (Odd(adj[src], u) != (u.subgraph >= cur && Odd(all, u)))
    requires waiting[src] ==> forall u :: u in all ==> u.subgraph < cur
    ensures StoreOk(depth, adj[src := buf], waiting, cur, SymDiff(inserted, OddHalves(src, all)),
                    SymDiff(handed, Route(Tagged(src, 0, cur, all))))
  {
    assert Open(0);
    var b, ins' := Tagged(src, 0, cur, all), SymDiff(inserted, OddHalves(src, all));
    VertexInsert(depth, waiting[src], cur, src, adj[src], buf, all, inserted, handed);
    forall v | 0 <= v < |adj| && v != src
      ensures VertexOk(depth, waiting[v], cur, v, adj[v], ins', SymDiff(handed, Route(b)))
    {
      VertexFrame(depth, waiting[v], cur, v, adj[v], inserted, handed, ins', b);
    }
  }

  lemma StoreStart(depth: (nat, nat) -> nat, adj: seq<seq<Upd>>, waiting: seq<bool>, now: seq<bool>, cur: nat,
                   inserted: set<Half>, handed: set<Handed>)
    requires StoreOk(depth, adj, waiting, cur, inserted, handed) && |now| == |adj|
    requires forall v :: 0 <= v < |adj| ==> !waiting[v] && now[v]
    ensures StoreOk(depth, adj, now, cur + 1, inserted, handed)
  {
    assert Open(0);
    forall v | 0 <= v < |adj| ensures VertexOk(depth, now[v], cur + 1, v, adj[v], inserted, handed) {
      assert VertexOk(depth, waiting[v], cur, v, adj[v], inserted, handed);
      VertexStart(depth, cur, v, adj[v], inserted, handed);
    }
  }

  ghost function Waiting(pending: bool, contracted: seq<bool>): (w: seq<bool>)
    ensures |w| == |contracted| && forall v :: 0 <= v < |w| ==> w[v] == (pending && !contracted[v])
  {
    seq(|contracted|, v requires 0 <= v < |contracted| => pending && !contracted[v])
  }

  /** What contracting every buffer leaves. */
  ghost function Deep(adj: seq<seq<Upd>>, cur: nat): (r: seq<seq<Upd>>)
    ensures |r| == |adj| && forall v :: 0 <= v < |r| ==> r[v] == Kept(adj[v], cur)
  {
    seq(|adj|, v requires 0 <= v < |adj| => Kept(adj[v], cur))
  }

  lemma AllDeep(depth: (nat, nat) -> nat, adj: seq<seq<Upd>>, waiting: seq<bool>, cur: nat, inserted: set<Half>,
                handed: set<Handed>)
    requires StoreOk(depth, adj, waiting, cur, inserted, handed) && forall v :: 0 <= v < |waiting| ==> !waiting[v]
    ensures adj == Deep(adj, cur)
  {
    forall v | 0 <= v < |adj| ensures adj[v] == Kept(adj[v], cur) {
      StoreTags(depth, adj, waiting, cur, inserted, handed, v);
      KeptWhole(adj[v], cur);
    }
  }

  method KeepDeep(buf: seq<Upd>, cur: nat) returns (kept: seq<Upd>)
    ensures kept == Kept(buf, cur)
  {
    kept := buf;
    if |buf| > 0 { kept := KeepLoop(buf, cur); }
  }

  class EdgeStore {
    const n: nat
    const maxEdges: nat
    const depth: (nat, nat) -> nat
    const levels: nat
    var adj: seq<seq<Upd>>
    var contracted: seq<bool>
    var cur: nat
    var trueMin: nat
    var needs: nat
    var numEdges: nat
    ghost var inserted: set<Half>       // half-edges inserted an odd number of times
    ghost var handed: set<Handed>       // half-edges handed to a subgraph an odd number of times
    ghost var served: bool              // the contraction under way has handed something to subgraph cur - 1

    predicate Pending() reads this { trueMin < cur }

    /** At most one contraction is under way, the edge count is right, and every half-edge is accounted for. */
    ghost predicate Valid()
      reads this
    {
      && |adj| == |contracted| == n && trueMin <= cur <= trueMin + 1
      && maxEdges > 0 && cur <= levels && (forall src: nat, dst: nat :: depth(src, dst) < levels)
      && (Pending() && !served ==> SomeWaiting(adj, contracted))
      && numEdges == Total(adj)
      && (Pending() ==> needs <= n && forall v :: 0 <= v < needs ==> contracted[v])
      && StoreOk(depth, adj, Waiting(Pending(), contracted), cur, inserted, handed)
    }

    /** How many subgraphs have received something or are about to. */
    ghost function Needed(): nat
      reads this
    {
      if Pending() && !served then cur - 1 else cur
    }

    constructor (vertices: nat, limit: nat, depths: (nat, nat) -> nat, numLevels: nat)
      requires limit > 0 && forall src: nat, dst: nat :: depths(src, dst) < numLevels
      ensures Valid() && cur == 0 && !Pending() && inserted == {} && handed == {}
      ensures adj == seq(vertices, _ => []) && numEdges == 0
      ensures n == vertices && maxEdges == limit && depth == depths && levels == numLevels
    {
      n, maxEdges, depth, levels, served := vertices, limit, depths, numLevels, false;
      adj, contracted := seq(vertices, _ => []), seq(vertices, _ => true);
      cur, trueMin, needs, numEdges := 0, 0, 0, 0;
      inserted, handed := {}, {};
      new;
      TotalEmpty(adj);
    }

    /** `vertex_contract`: hand out the whole buffer and keep the deep part, unless that has already been done. */
    method Contract(src: nat) returns (ret: seq<Upd>)
      requires Valid() && src < n && Pending()
      modifies this`adj, this`contracted, this`numEdges, this`handed, this`served
      ensures Valid() && contracted == old(contracted)[src := true] && served == (old(served) || ret != [])
      ensures ret == (if old(contracted)[src] then [] else old(adj)[src])
      ensures adj == if old(contracted)[src] then old(adj) else old(adj)[src := Kept(old(adj)[src], cur)]
      ensures handed == SymDiff(old(handed), Route(Tagged(src, cur - 1, cur, ret))) && TagsOk(depth, src, ret)
    {
      if contracted[src] {
        assert contracted[src := true] == contracted;
        RouteEmpty(src, cur - 1, cur);
        ret := [];
      } else {
        ret := ContractNow(src);
      }
    }

    method ContractNow(src: nat) returns (ret: seq<Upd>)
      requires Valid() && src < n && Pending() && !contracted[src]
      modifies this`adj, this`contracted, this`numEdges, this`handed, this`served
      ensures Valid() && contracted == old(contracted)[src := true] && served == (old(served) || ret != [])
      ensures ret == old(adj)[src] && adj == old(adj)[src := Kept(ret, cur)]
      ensures handed == SymDiff(old(handed), Route(Tagged(src, cur - 1, cur, ret))) && TagsOk(depth, src, ret)
    {
      ret := adj[src];
      ContractStep(depth, adj, contracted, cur, inserted, handed, src);
      ghost var h := SymDiff(handed, Route(Tagged(src, cur - 1, cur, ret)));
      var kept := KeepDeep(ret, cur);
      SetContracted(src, kept, served || ret != [], h);
    }

    method SetContracted(src: nat, kept: seq<Upd>, ghost nowServed: bool, ghost nowHanded: set<Handed>)
      requires Valid() && src < n && Pending() && !contracted[src]
      requires StoreOk(depth, adj[src := kept], Waiting(true, contracted[src := true]), cur, inserted, nowHanded)
      requires !nowServed ==> SomeWaiting(adj[src := kept], contracted[src := true])
      modifies this`adj, this`contracted, this`numEdges, this`handed, this`served
      ensures Valid() && contracted == old(contracted)[src := true] && served == nowServed && handed == nowHanded
      ensures adj == old(adj)[src := kept]
    {
      TotalOfUpdate(adj, src, kept);
      numEdges := numEdges - |adj[src]| + |kept|;
      contracted, adj := contracted[src := true], adj[src := kept];
      handed, served := nowHanded, nowServed;
    }

    /** `vertex_advance_subgraph`: contract the next vertex that needs it, or end the contraction. A vertex that is
        already contracted or has an empty buffer is only marked. */
    method Advance() returns (b: Tagged)
      requires Valid() && Pending()
      modifies this`adj, this`contracted, this`numEdges, this`handed, this`needs, this`trueMin, this`served
      ensures Valid() && old(needs) < needs <= n + 1
      ensures if b.data == [] then !Pending() && served == old(served) == true else Pending() && served
      ensures b.firstEs == cur && b.minSubgraph == cur - 1 && TagsOk(depth, b.src, b.data)
      ensures b.data != [] ==> b.src < n && b.data == old(adj)[b.src]
      ensures adj == if b.data == [] then old(adj) else old(adj)[b.src := Kept(b.data, cur)]
      ensures b.data == [] ==> adj == Deep(adj, cur)
      ensures handed == SymDiff(old(handed), Route(b))
    {
      while needs < n
        invariant Valid() && Pending() && handed == old(handed) && needs >= old(needs)
        invariant trueMin == old(trueMin) && served == old(served) && adj == old(adj)
        decreases n - needs
      {
        var src := needs;
        var found := |adj[src]| > 0 && !contracted[src];
        var ret := Contract(src);
        needs := needs + 1;
        if found { return Tagged(src, cur - 1, cur, ret); }
        RouteEmpty(src, cur - 1, cur);
      }
      b := Finish();
    }

    method Finish() returns (b: Tagged)
      requires Valid() && Pending() && needs == n
      modifies this`needs, this`trueMin
      ensures Valid() && !Pending() && b == Tagged(0, cur - 1, cur, []) && Route(b) == {} && served && needs == n + 1
      ensures adj == Deep(adj, cur)
    {
      AllDeep(depth, adj, Waiting(true, contracted), cur, inserted, handed);
      assert Waiting(false, contracted) == Waiting(true, contracted);
      needs := needs + 1;
      trueMin := trueMin + 1;
      b := Tagged(0, cur - 1, cur, []);
      RouteEmpty(0, cur - 1, cur);
    }

    /** `check_if_too_big`: start a contraction to the next subgraph when the store is full. */
    method CheckIfTooBig()
      requires Valid()
      modifies this`contracted, this`needs, this`cur, this`served
      ensures Valid() && cur == old(cur) + (if numEdges >= maxEdges && !old(Pending()) then 1 else 0)
      ensures if cur == old(cur) then served == old(served) else Pending() && !served
    {
      if numEdges < maxEdges || Pending() { return; }
      ghost var v := SomeEdge(adj);
      StoreTags(depth, adj, Waiting(false, contracted), cur, inserted, handed, v);
      assert adj[v][0] in adj[v];
      Begin(v);
    }

    method Begin(ghost v: nat)
      requires Valid() && !Pending() && cur < levels && v < n && adj[v] != []
      modifies this`contracted, this`needs, this`cur, this`served
      ensures Valid() && cur == old(cur) + 1 && Pending() && !served
    {
      var none: seq<bool> := seq(n, _ => false);
      StoreStart(depth, adj, Waiting(false, contracted), Waiting(true, none), cur, inserted, handed);
      assert SomeWaiting(adj, none) by { assert !none[v]; }
      contracted, needs, cur, served := none, 0, cur + 1, false;
    }

    /** The buffers once the batch `data` has been merged into that of `src`, which is contracted first if it is due. */
    ghost function AfterMerge(src: nat, data: seq<Upd>): seq<seq<Upd>>
      requires src < |adj| == |contracted|
      reads this
    {
      var buf := if Pending() && !contracted[src] then Kept(adj[src], cur) else adj[src];
      adj[src := Merged(buf, Kept(SortUpdates(data), cur))]
    }

    /** `insert_adj_edges`: `data` are the updates of the batch `dsts` that are deep enough for a store that starts at
        `callerFirst`, the first store subgraph as the caller read it. The caller hands the whole batch to the subgraphs
        below `callerFirst`; the result is one more batch to hand out. A contraction may have started since the caller
        read; its data is then handed out again, to the subgraph that left the store. The scan for deep updates relies
        on there being one. */
    method InsertAdjEdges(src: nat, callerFirst: nat, data: seq<Upd>, ghost dsts: seq<nat>) returns (b: Tagged)
      requires Valid() && src < n && callerFirst <= cur <= callerFirst + 1
      requires data == Kept(Tag(depth, src, dsts), callerFirst)
      requires data != [] ==> SomeDeep(data, cur)
      modifies this`adj, this`contracted, this`numEdges, this`handed, this`needs, this`trueMin, this`cur,
               this`inserted, this`served
      ensures Valid() && old(cur) <= cur && Needed() <= old(cur) && (data == [] ==> Needed() == old(Needed()))
      ensures b.firstEs == old(cur) && TagsOk(depth, b.src, b.data)
      ensures (b.data != [] ==> b.src < n && b.firstEs > 0 && b.minSubgraph == b.firstEs - 1)
      ensures inserted == SymDiff(old(inserted), OddHalves(src, Tag(depth, src, dsts)))
      ensures handed == SymDiff(SymDiff(old(handed), Route(Tagged(src, 0, callerFirst, Tag(depth, src, dsts)))),
                                Route(b))
      ensures MovesOn(data != [], old(Pending()), old(cur), Pending(), cur, numEdges >= maxEdges)
      ensures data == [] ==> adj == old(adj) && b.data == []
      ensures data != [] && !old(Pending()) ==> adj == old(AfterMerge(src, data))
      ensures data != [] && old(Pending()) ==>
                (Pending() <==> b.data != []) && Advanced(old(AfterMerge(src, data)), adj, cur, b)
    {
      ghost var all := Tag(depth, src, dsts);
      if |data| == 0 {
        b := InsertShallow(src, callerFirst, all);
      } else {
        b := InsertDeep(src, callerFirst, data, all);
      }
    }

    /** Nothing for the store: only the caller's own batch is handed out. */
    method InsertShallow(src: nat, callerFirst: nat, ghost all: seq<Upd>) returns (b: Tagged)
      requires Valid() && src < n && callerFirst <= cur && Kept(all, callerFirst) == [] && TagsOk(depth, src, all)
      modifies this`adj, this`numEdges, this`handed, this`inserted
      ensures Valid() && Needed() == old(Needed()) && b.firstEs == cur && b.src == src && b.data == []
      ensures adj == old(adj)
      ensures inserted == SymDiff(old(inserted), OddHalves(src, all))
      ensures HandsOut(old(handed), handed, src, callerFirst, all, b)
    {
      NothingDeep(all, callerFirst);
      ShallowRoute(src, callerFirst, cur, all);
      TakeUp(src, all, adj[src]);
      b := Tagged(src, Below(cur), cur, []);
      RouteEmpty(src, Below(cur), cur);
      SymDiffEmpty(handed);
    }

    method InsertDeep(src: nat, callerFirst: nat, data: seq<Upd>, ghost all: seq<Upd>) returns (b: Tagged)
      requires Valid() && src < n && callerFirst <= cur <= callerFirst + 1 && data == Kept(all, callerFirst)
      requires TagsOk(depth, src, all) && SomeDeep(data, cur)
      modifies this`adj, this`contracted, this`numEdges, this`handed, this`needs, this`trueMin, this`cur,
               this`inserted, this`served
      ensures Valid() && old(cur) <= cur && Needed() <= old(cur)
      ensures b.firstEs == old(cur) && TagsOk(depth, b.src, b.data)
      ensures (b.data != [] ==> b.src < n && b.firstEs > 0 && b.minSubgraph == b.firstEs - 1)
      ensures inserted == SymDiff(old(inserted), OddHalves(src, all))
      ensures HandsOut(old(handed), handed, src, callerFirst, all, b)
      ensures MovesOn(true, old(Pending()), old(cur), Pending(), cur, numEdges >= maxEdges)
      ensures !old(Pending()) ==> adj == old(AfterMerge(src, data))
      ensures old(Pending()) ==>
                (Pending() <==> b.data != []) && Advanced(old(AfterMerge(src, data)), adj, cur, b)
    {
      var first := cur;
      var ret := MergeBatch(src, callerFirst, data, all);
      b := Tagged(src, Below(first), first, ret);
      if |ret| == 0 && Pending() {
        RouteEmpty(src, Below(first), first);
        SymDiffEmpty(SymDiff(old(handed), Route(Tagged(src, 0, callerFirst, all))));
        b := Advance();
      } else {
        CheckIfTooBig();
      }
    }

    /** The part of `insert_adj_edges` under the lock of `src`: contract the buffer if it is due, add the data of a late
        caller to what is handed out, then merge. */
    method MergeBatch(src: nat, callerFirst: nat, data: seq<Upd>, ghost all: seq<Upd>) returns (ret: seq<Upd>)
      requires Valid() && src < n && callerFirst <= cur <= callerFirst + 1 && data == Kept(all, callerFirst)
      requires TagsOk(depth, src, all) && SomeDeep(data, cur)
      modifies this`adj, this`contracted, this`numEdges, this`handed, this`inserted, this`served
      ensures Valid() && TagsOk(depth, src, ret) && (cur == 0 ==> ret == [])
      ensures inserted == SymDiff(old(inserted), OddHalves(src, all))
      ensures HandsOut(old(handed), handed, src, callerFirst, all, Tagged(src, Below(cur), cur, ret))
      ensures adj == old(AfterMerge(src, data))
    {
      ret := ContractIfDue(src, Below(cur));
      MergeIn(src, callerFirst, data, all);
      BatchRoute(depth, src, callerFirst, cur, all, ret, old(handed));
      if callerFirst < cur { ret := ret + SortUpdates(data); }
    }

    method ContractIfDue(src: nat, ghost lo: nat) returns (ret: seq<Upd>)
      requires Valid() && src < n && (cur > 0 ==> lo == cur - 1)
      modifies this`adj, this`contracted, this`numEdges, this`handed, this`served
      ensures Valid() && TagsOk(depth, src, ret) && (!Pending() ==> ret == []) && (Pending() ==> contracted[src])
      ensures adj == if Pending() && !old(contracted)[src] then old(adj)[src := Kept(old(adj)[src], cur)] else old(adj)
      ensures handed == SymDiff(old(handed), Route(Tagged(src, lo, cur, ret)))
    {
      if Pending() && !contracted[src] {
        ret := Contract(src);
      } else {
        ret := [];
        RouteEmpty(src, lo, cur);
        SymDiffEmpty(handed);
      }
    }

    method MergeIn(src: nat, callerFirst: nat, data: seq<Upd>, ghost all: seq<Upd>)
      requires Valid() && src < n && callerFirst <= cur && data == Kept(all, callerFirst) && TagsOk(depth, src, all)
      requires SomeDeep(data, cur)
      requires Pending() ==> contracted[src]
      modifies this`adj, this`numEdges, this`handed, this`inserted
      ensures Valid() && inserted == SymDiff(old(inserted), OddHalves(src, all))
      ensures handed == SymDiff(old(handed), Route(Tagged(src, 0, cur, all)))
      ensures adj == old(adj)[src := Merged(old(adj)[src], Kept(SortUpdates(data), cur))]
    {
      var buf := MergeSorted(adj[src], data, callerFirst, cur, all);
      TakeUp(src, all, buf);
    }

    /** The merged buffer replaces the old one; the caller's own batch counts as handed out. */
    method TakeUp(src: nat, ghost all: seq<Upd>, buf: seq<Upd>)
      requires Valid() && src < n && TagsOk(depth, src, all)
      requires forall u :: Odd(buf, u) <==> (Odd(adj[src], u) != (u.subgraph >= cur && Odd(all, u)))
      requires forall u :: u in buf ==> u in adj[src] || (u in all && u.subgraph >= cur)
      requires Pending() && !contracted[src] ==> buf == adj[src] && forall u :: u in all ==> u.subgraph < cur
      modifies this`adj, this`numEdges, this`handed, this`inserted
      ensures Valid() && adj == old(adj)[src := buf]
      ensures inserted == SymDiff(old(inserted), OddHalves(src, all))
      ensures handed == SymDiff(old(handed), Route(Tagged(src, 0, cur, all)))
    {
      StoreTags(depth, adj, Waiting(Pending(), contracted), cur, inserted, handed, src);
      StoreInsert(depth, adj, Waiting(Pending(), contracted), cur, inserted, handed, src, all, buf);
      if Pending() && !served && contracted[src] { KeepOthers(adj, contracted, src, buf); }
      TotalOfUpdate(adj, src, buf);
      numEdges := numEdges - |adj[src]| + |buf|;
      adj := adj[src := buf];
      inserted := SymDiff(inserted, OddHalves(src, all));
      handed := SymDiff(handed, Route(Tagged(src, 0, cur, all)));
    }
  }

  /** What a batch does to the first subgraph `cur`. One that reaches the store moves it on by one exactly if no
      contraction is pending and the store is then full; during a contraction it can only bring that to its end. */
  predicate MovesOn(reached: bool, pending: bool, cur: nat, pending': bool, cur': nat, full: bool) {
    if !reached then pending' == pending && cur' == cur
    else if pending then cur' == cur
    else pending' == full && cur' == if full then cur + 1 else cur
  }

  /** Under a contraction at most one more buffer is contracted, and its content is what is handed out; when nothing
      is left to hand out, every buffer holds only what is deep enough. */
  ghost predicate Advanced(merged: seq<seq<Upd>>, adj: seq<seq<Upd>>, cur: nat, b: Tagged) {
    && (adj == merged || (b.src < |merged| && b.data == merged[b.src] && adj == merged[b.src := Kept(b.data, cur)]))
    && (b.data == [] ==> adj == merged == Deep(merged, cur))
  }

  lemma KeepWaiting(adj: seq<seq<Upd>>, contracted: seq<bool>, src: nat, kept: seq<Upd>)
    requires src < |adj| == |contracted|
    ensures SomeWaiting(adj, contracted) && adj[src] == [] ==> SomeWaiting(adj[src := kept], contracted[src := true])
  {
    if SomeWaiting(adj, contracted) && adj[src] == [] {
      var v :| 0 <= v < |adj| && !contracted[v] && adj[v] != [];
      assert adj[src := kept][v] != [] && !contracted[src := true][v];
    }
  }

  lemma KeepOthers(adj: seq<seq<Upd>>, contracted: seq<bool>, src: nat, buf: seq<Upd>)
    requires src < |adj| == |contracted| && contracted[src] && SomeWaiting(adj, contracted)
    ensures SomeWaiting(adj[src := buf], contracted)
  {
    var v :| 0 <= v < |adj| && !contracted[v] && adj[v] != [];
    assert adj[src := buf][v] != [] && !contracted[v];
  }

  lemma SymDiffEmpty(h: set<Handed>)
    ensures SymDiff(h, {}) == h
  {
  }

  lemma NothingDeep(all: seq<Upd>, cur: nat)
    requires Kept(all, cur) == []
    ensures forall u :: u in all ==> u.subgraph < cur
    ensures forall u :: Odd(all, u) ==> u.subgraph < cur
  {
    forall u ensures (u in all ==> u.subgraph < cur) && (Odd(all, u) ==> u.subgraph < cur) { KeptAll(all, cur, u); }
  }

  lemma SymDiffSwap(h: set<Handed>, a: set<Handed>, b: set<Handed>)
    ensures SymDiff(SymDiff(h, a), b) == SymDiff(SymDiff(h, b), a)
  {
  }

  /** Some update belongs into a store that starts at `cur`. */
  predicate SomeDeep(data: seq<Upd>, cur: nat) { exists i :: 0 <= i < |data| && data[i].subgraph >= cur }

  lemma LastIsDeep(data: seq<Upd>, cur: nat, sorted: seq<Upd>)
    requires multiset(sorted) == multiset(data) && SomeDeep(data, cur) && Sorted(sorted)
    ensures sorted != [] && sorted[|sorted| - 1].subgraph >= cur
  {
    var i :| 0 <= i < |data| && data[i].subgraph >= cur;
    assert data[i] in multiset(data);
    assert data[i] in multiset(sorted);
    assert data[i] in sorted;
    var j :| 0 <= j < |sorted| && sorted[j] == data[i];
    assert j < |sorted| - 1 ==> sorted[j].subgraph <= sorted[|sorted| - 1].subgraph;
  }

  /** The merged buffer has the parity of buffer and batch together, counting only updates that belong into the
      store. */
  lemma MergedDeep(buf: seq<Upd>, sorted: seq<Upd>, cur: nat, all: seq<Upd>)
    requires forall u: Upd :: u.subgraph >= cur ==> (Odd(sorted, u) <==> Odd(all, u))
    requires forall u :: u in sorted ==> u in all
    ensures var m := Merged(buf, Kept(sorted, cur));
            forall u :: (Odd(m, u) <==> (Odd(buf, u) != (u.subgraph >= cur && Odd(all, u))))
                        && (u in m ==> u in buf || (u in all && u.subgraph >= cur))
  {
    forall u: Upd
      ensures Odd(Merged(buf, Kept(sorted, cur)), u) <==> (Odd(buf, u) != (u.subgraph >= cur && Odd(all, u)))
      ensures u in Merged(buf, Kept(sorted, cur)) ==> u in buf || (u in all && u.subgraph >= cur)
    {
      MergedParity(buf, Kept(sorted, cur), u);
      KeptAll(sorted, cur, u);
    }
  }

  /** Sorts the batch and merges its deep part into the buffer. */
  method MergeSorted(buf0: seq<Upd>, data: seq<Upd>, first: nat, cur: nat, ghost all: seq<Upd>) returns (buf: seq<Upd>)
    requires first <= cur && data == Kept(all, first) && SomeDeep(data, cur)
    ensures buf == Merged(buf0, Kept(SortUpdates(data), cur))
    ensures forall u :: Odd(buf, u) <==> (Odd(buf0, u) != (u.subgraph >= cur && Odd(all, u)))
    ensures forall u :: u in buf ==> u in buf0 || (u in all && u.subgraph >= cur)
  {
    var sorted := SortUpdates(data);
    SortIsSorted(data);
    DeepPart(all, first, cur, sorted);
    buf := MergeUpdates(buf0, sorted, cur);
    MergedDeep(buf0, sorted, cur, all);
  }

  lemma DeepPart(all: seq<Upd>, first: nat, cur: nat, sorted: seq<Upd>)
    requires first <= cur && multiset(sorted) == multiset(Kept(all, first)) && SomeDeep(Kept(all, first), cur)
    requires Sorted(sorted)
    ensures sorted != [] && sorted[|sorted| - 1].subgraph >= cur
    ensures forall u: Upd :: u.subgraph >= cur ==> (Odd(sorted, u) <==> Odd(all, u))
    ensures forall u :: u in sorted ==> u in all
  {
    LastIsDeep(Kept(all, first), cur, sorted);
    forall u: Upd
      ensures u.subgraph >= cur ==> (Odd(sorted, u) <==> Odd(all, u))
      ensures u in sorted ==> u in all
    {
      KeptAll(all, first, u);
      assert u in sorted <==> u in multiset(sorted);
      assert u in Kept(all, first) <==> u in multiset(Kept(all, first));
    }
  }

  /** Updates too shallow for the store reach the same subgraphs whichever first subgraph is assumed. */
  lemma ShallowRoute(src: nat, first: nat, cur: nat, all: seq<Upd>)
    requires first <= cur && forall u :: u in all ==> u.subgraph < first
    ensures Route(Tagged(src, 0, first, all)) == Route(Tagged(src, 0, cur, all))
  {
  }

  lemma RouteOfConcat(depth: (nat, nat) -> nat, src: nat, lo: nat, cur: nat, a: seq<Upd>, b: seq<Upd>)
    requires TagsOk(depth, src, a) && TagsOk(depth, src, b)
    ensures TagsOk(depth, src, a + b)
    ensures Route(Tagged(src, lo, cur, a + b)) == SymDiff(Route(Tagged(src, lo, cur, a)),
                                                          Route(Tagged(src, lo, cur, b)))
  {
    forall h: Handed
      ensures h in Route(Tagged(src, lo, cur, a + b)) <==>
          h in SymDiff(Route(Tagged(src, lo, cur, a)), Route(Tagged(src, lo, cur, b)))
    {
      RouteMember(depth, Tagged(src, lo, cur, a + b), h);
      RouteMember(depth, Tagged(src, lo, cur, a), h);
      RouteMember(depth, Tagged(src, lo, cur, b), h);
      var u := Upd(depth(src, h.dst), h.dst);
      assert multiset(a + b)[u] == multiset(a)[u] + multiset(b)[u];
    }
  }

  /** What a caller that is one contraction late hands out itself, and its deep data handed out again to the subgraph
      that left the store, make up the whole batch. */
  lemma LateSplit(depth: (nat, nat) -> nat, src: nat, first: nat, all: seq<Upd>, data: seq<Upd>)
    requires TagsOk(depth, src, all) && multiset(data) == multiset(Kept(all, first))
    ensures TagsOk(depth, src, data)
    ensures SymDiff(Route(Tagged(src, 0, first, all)), Route(Tagged(src, first, first + 1, data))) ==
            Route(Tagged(src, 0, first + 1, all))
  {
    forall u | u in data ensures u.subgraph == depth(src, u.dst) {
      assert u in multiset(data);
      KeptAll(all, first, u);
      assert u in Kept(all, first);
    }
    var L := SymDiff(Route(Tagged(src, 0, first, all)), Route(Tagged(src, first, first + 1, data)));
    var R := Route(Tagged(src, 0, first + 1, all));
    forall h: Handed ensures h in L <==> h in R {
      RouteMember(depth, Tagged(src, 0, first, all), h);
      RouteMember(depth, Tagged(src, first, first + 1, data), h);
      RouteMember(depth, Tagged(src, 0, first + 1, all), h);
      KeptAll(all, first, Upd(depth(src, h.dst), h.dst));
    }
  }

  /** `cur - 1` as an unsigned 32-bit number. */
  function Below(cur: nat): nat { if cur == 0 then 0xFFFF_FFFF else cur - 1 }

  /** Together with the caller's own batch below `first`, the batch `b` accounts for the change of what is handed
      out. */
  ghost predicate HandsOut(was: set<Handed>, now: set<Handed>, src: nat, first: nat, all: seq<Upd>, b: Tagged) {
    now == SymDiff(SymDiff(was, Route(Tagged(src, 0, first, all))), Route(b))
  }

  lemma BatchRoute(depth: (nat, nat) -> nat, src: nat, first: nat, cur: nat, all: seq<Upd>, ret: seq<Upd>,
                   h0: set<Handed>)
    requires TagsOk(depth, src, all) && TagsOk(depth, src, ret) && first <= cur <= first + 1
    ensures var out := if first < cur then ret + SortUpdates(Kept(all, first)) else ret;
            var now := SymDiff(SymDiff(h0, Route(Tagged(src, Below(cur), cur, ret))), Route(Tagged(src, 0, cur, all)));
            TagsOk(depth, src, out) && HandsOut(h0, now, src, first, all, Tagged(src, Below(cur), cur, out))
  {
    if first < cur {
      LateRoute(depth, src, first, all, ret, h0);
    } else {
      SymDiffSwap(h0, Route(Tagged(src, Below(cur), cur, ret)), Route(Tagged(src, 0, cur, all)));
    }
  }

  lemma LateRoute(depth: (nat, nat) -> nat, src: nat, first: nat, all: seq<Upd>, ret: seq<Upd>, h0: set<Handed>)
    requires TagsOk(depth, src, all) && TagsOk(depth, src, ret)
    ensures var out := ret + SortUpdates(Kept(all, first));
            var now := SymDiff(SymDiff(h0, Route(Tagged(src, first, first + 1, ret))),
                               Route(Tagged(src, 0, first + 1, all)));
            TagsOk(depth, src, out) && HandsOut(h0, now, src, first, all, Tagged(src, first, first + 1, out))
  {
    var data := SortUpdates(Kept(all, first));
    SortIsSorted(Kept(all, first));
    LateSplit(depth, src, first, all, data);
    RouteOfConcat(depth, src, first, first + 1, ret, data);
    FourSets(h0, Route(Tagged(src, first, first + 1, ret)), Route(Tagged(src, 0, first, all)),
             Route(Tagged(src, first, first + 1, data)));
  }

  lemma FourSets(h: set<Handed>, r: set<Handed>, a: set<Handed>, d: set<Handed>)
    ensures SymDiff(SymDiff(h, r), SymDiff(a, d)) == SymDiff(SymDiff(h, a), SymDiff(r, d))
  {
  }

  /** A caller two or more contractions late: an inserted half-edge that is deep enough keeps its old parity in subgraph
      cur - 2, because neither the caller's own batch nor the returned one reaches that subgraph. So the accounting
      breaks, whatever the store itself does. */
  lemma TooLateLoses(depth: (nat, nat) -> nat, src: nat, first: nat, cur: nat, all: seq<Upd>, dst: nat, ins: bool,
                     st: bool,
                     after: bool, handed: set<Handed>)
    requires first + 2 <= cur <= depth(src, dst) && TagsOk(depth, src, all) && Odd(all, Upd(depth(src, dst), dst))
    requires EdgeOk(false, cur, depth(src, dst), ins, st, src, dst, handed)
    ensures var late := Route(Tagged(src, cur - 1, cur, Kept(all, first)));
            var now := SymDiff(SymDiff(handed, Route(Tagged(src, 0, first, all))), late);
            && (Handed(cur - 2, src, dst) in now <==> ins)
            && !EdgeOk(false, cur, depth(src, dst), !ins, after, src, dst, now)
  {
    var h := Handed(cur - 2, src, dst);
    assert h !in Route(Tagged(src, 0, first, all)) && h !in Route(Tagged(src, cur - 1, cur, Kept(all, first)));
    assert h in handed <==> ins;
  }

  lemma OneUpdate(cur: nat)
    requires cur <= 2
    ensures var u := Upd(2, 0);
            SortUpdates([u]) == [u] && Kept([u], cur) == [u] && Merged([], [u]) == [u] && Total([[u]]) == 1
  {
    var u := Upd(2, 0);
    assert [u][1..] == [] && [u][..0] == [] && [[u]][..0] == [];
    assert SortUpdates([]) == [] && Kept([], cur) == [] && Total([]) == 0;
  }

  /** When a contraction ends, nothing looks at how full the store still is: one update that is deep enough to stay
      leaves a store of room for one full, with no contraction under way. */
  method StillFull() returns (s: EdgeStore)
    ensures s.Valid() && s.cur == 1 && !s.Pending() && s.numEdges == s.maxEdges
  {
    s := FillOne();
    OneUpdate(1);
    while s.Pending()
      invariant s.Valid() && s.adj == [[Upd(2, 0)]] && s.cur == 1 && s.n == s.maxEdges == 1
      decreases s.n + 1 - s.needs
    {
      AdvanceOne(s);
    }
  }

  method AdvanceOne(s: EdgeStore)
    requires s.Valid() && s.Pending() && s.adj == [[Upd(2, 0)]] && s.cur == 1
    modifies s
    ensures s.Valid() && s.adj == [[Upd(2, 0)]] && s.cur == 1 && old(s.needs) < s.needs <= s.n + 1
  {
    OneUpdate(1);
    var b := s.Advance();
  }

  method FillOne() returns (s: EdgeStore)
    ensures fresh(s) && s.Valid() && s.adj == [[Upd(2, 0)]] && s.cur == 1 && s.n == s.maxEdges == 1
  {
    s := new EdgeStore(1, 1, (a: nat, b: nat) => 2, 3);
    OneUpdate(0);
    assert Tag(s.depth, 0, [0]) == [Upd(2, 0)];
    assert [Upd(2, 0)][0].subgraph >= s.cur;
    assert s.AfterMerge(0, [Upd(2, 0)]) == [[Upd(2, 0)]];
    var b := s.InsertAdjEdges(0, 0, [Upd(2, 0)], [0]);
  }
}
