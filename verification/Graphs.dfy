/** Undirected graphs as finite edge sets: connectivity by paths, cuts, forests. */
module Graphs {

  datatype Edge = Edge(src: nat, dst: nat)

  /** The undirected edge between i and j, smaller end first. */
  function Normal(i: nat, j: nat): Edge { if i > j then Edge(j, i) else Edge(i, j) }

  predicate Joins(e: Edge, u: nat, v: nat) {
    (e.src == u && e.dst == v) || (e.src == v && e.dst == u)
  }

  ghost predicate Adjacent(E: set<Edge>, u: nat, v: nat) {
    exists e :: e in E && Joins(e, u, v)
  }

  /** `p` lists the vertices visited after `u` on a walk that ends in `v`. */
  ghost predicate Walk(E: set<Edge>, u: nat, p: seq<nat>, v: nat)
    decreases |p|
  {
    if p == [] then u == v else Adjacent(E, u, p[0]) && Walk(E, p[0], p[1..], v)
  }

  ghost predicate Connected(E: set<Edge>, u: nat, v: nat) {
    exists p: seq<nat> :: Walk(E, u, p, v)
  }

  lemma ConnectedRefl(E: set<Edge>, u: nat)
    ensures Connected(E, u, u)
  {
    assert Walk(E, u, [], u);
  }

  lemma ConnectedEdge(E: set<Edge>, e: Edge)
    requires e in E
    ensures Connected(E, e.src, e.dst) && Connected(E, e.dst, e.src)
  {
    assert Joins(e, e.src, e.dst) && Joins(e, e.dst, e.src);
    assert Walk(E, e.dst, [], e.dst) && Walk(E, e.src, [], e.src);
    assert [e.dst][1..] == [] && [e.src][1..] == [];
    assert Walk(E, e.src, [e.dst], e.dst);
    assert Walk(E, e.dst, [e.src], e.src);
  }

  lemma {:induction false} WalkConcat(E: set<Edge>, u: nat, p: seq<nat>, v: nat, q: seq<nat>, w: nat)
    requires Walk(E, u, p, v) && Walk(E, v, q, w)
    ensures Walk(E, u, p + q, w)
    decreases |p|
  {
    if p == [] {
      assert p + q == q;
    } else {
      WalkConcat(E, p[0], p[1..], v, q, w);
      assert (p + q)[1..] == p[1..] + q;
    }
  }

  lemma ConnectedTrans(E: set<Edge>, u: nat, v: nat, w: nat)
    requires Connected(E, u, v) && Connected(E, v, w)
    ensures Connected(E, u, w)
  {
    var p :| Walk(E, u, p, v);
    var q :| Walk(E, v, q, w);
    WalkConcat(E, u, p, v, q, w);
  }

  lemma {:induction false} WalkReverse(E: set<Edge>, u: nat, p: seq<nat>, v: nat)
    requires Walk(E, u, p, v)
    ensures Connected(E, v, u)
    decreases |p|
  {
    if p == [] {
      ConnectedRefl(E, u);
    } else {
      WalkReverse(E, p[0], p[1..], v);
      var e :| e in E && Joins(e, u, p[0]);
      ConnectedEdge(E, e);
      ConnectedTrans(E, v, p[0], u);
    }
  }

  lemma ConnectedSym(E: set<Edge>, u: nat, v: nat)
    requires Connected(E, u, v)
    ensures Connected(E, v, u)
  {
    var p :| Walk(E, u, p, v);
    WalkReverse(E, u, p, v);
  }

  lemma {:induction false} WalkMono(E: set<Edge>, F: set<Edge>, u: nat, p: seq<nat>, v: nat)
    requires E <= F && Walk(E, u, p, v)
    ensures Walk(F, u, p, v)
    decreases |p|
  {
    if p != [] {
      var e :| e in E && Joins(e, u, p[0]);
      assert e in F;
      WalkMono(E, F, p[0], p[1..], v);
    }
  }

  lemma ConnectedMono(E: set<Edge>, F: set<Edge>, u: nat, v: nat)
    requires E <= F && Connected(E, u, v)
    ensures Connected(F, u, v)
  {
    var p :| Walk(E, u, p, v);
    WalkMono(E, F, u, p, v);
  }

  /** No edge of `E` leaves `S`. */
  ghost predicate Closed(E: set<Edge>, S: set<nat>) {
    forall e :: e in E ==> (e.src in S <==> e.dst in S)
  }

  lemma {:induction false} WalkInClosed(E: set<Edge>, S: set<nat>, u: nat, p: seq<nat>, v: nat)
    requires Closed(E, S) && Walk(E, u, p, v)
    ensures u in S <==> v in S
    decreases |p|
  {
    if p != [] {
      var e :| e in E && Joins(e, u, p[0]);
      WalkInClosed(E, S, p[0], p[1..], v);
    }
  }

  lemma ConnectedInClosed(E: set<Edge>, S: set<nat>, u: nat, v: nat)
    requires Closed(E, S) && Connected(E, u, v)
    ensures u in S <==> v in S
  {
    var p :| Walk(E, u, p, v);
    WalkInClosed(E, S, u, p, v);
  }

  ghost predicate Within(n: nat, E: set<Edge>) { forall e :: e in E ==> e.src < n && e.dst < n }

  lemma AloneOutside(n: nat, E: set<Edge>, u: nat, v: nat)
    requires Within(n, E) && Connected(E, u, v) && (u >= n || v >= n)
    ensures u == v
  {
    ConnectedInClosed(E, {if u >= n then u else v}, u, v);
  }

  /** What a new edge can add: a walk that uses it enters at one end and leaves at the other. */
  ghost predicate ThroughEdge(E: set<Edge>, e: Edge, x: nat, y: nat) {
    || Connected(E, x, y)
    || (Connected(E, x, e.src) && Connected(E, e.dst, y))
    || (Connected(E, x, e.dst) && Connected(E, e.src, y))
  }

  lemma ThroughEdgeExtend(E: set<Edge>, e: Edge, x: nat, z: nat, y: nat)
    requires Connected(E, x, z) || Joins(e, x, z)
    requires ThroughEdge(E, e, z, y)
    ensures ThroughEdge(E, e, x, y)
  {
    if Connected(E, x, z) {
      if Connected(E, z, y) {
        ConnectedTrans(E, x, z, y);
      } else if Connected(E, z, e.src) && Connected(E, e.dst, y) {
        ConnectedTrans(E, x, z, e.src);
      } else {
        ConnectedTrans(E, x, z, e.dst);
      }
    } else {
      ConnectedRefl(E, x);
      if Connected(E, z, y) {
      } else if Connected(E, z, e.src) && Connected(E, e.dst, y) {
        if x == e.dst { ConnectedRefl(E, e.src); }
      } else {
        if x == e.src { ConnectedRefl(E, e.dst); }
      }
    }
  }

  lemma {:induction false} WalkThroughEdge(E: set<Edge>, e: Edge, x: nat, p: seq<nat>, y: nat)
    requires Walk(E + {e}, x, p, y)
    ensures ThroughEdge(E, e, x, y)
    decreases |p|
  {
    if p == [] {
      ConnectedRefl(E, x);
    } else {
      WalkThroughEdge(E, e, p[0], p[1..], y);
      var f :| f in E + {e} && Joins(f, x, p[0]);
      if f in E { ConnectedEdge(E, f); }
      ThroughEdgeExtend(E, e, x, p[0], y);
    }
  }

  lemma ConnectedAdd(E: set<Edge>, e: Edge, x: nat, y: nat)
    ensures Connected(E + {e}, x, y) <==> ThroughEdge(E, e, x, y)
  {
    if Connected(E + {e}, x, y) {
      var p :| Walk(E + {e}, x, p, y);
      WalkThroughEdge(E, e, x, p, y);
    }
    if ThroughEdge(E, e, x, y) {
      ConnectedEdge(E + {e}, e);
      if Connected(E, x, y) {
        ConnectedMono(E, E + {e}, x, y);
      } else if Connected(E, x, e.src) && Connected(E, e.dst, y) {
        ConnectedMono(E, E + {e}, x, e.src);
        ConnectedMono(E, E + {e}, e.dst, y);
        ConnectedTrans(E + {e}, x, e.src, e.dst);
        ConnectedTrans(E + {e}, x, e.dst, y);
      } else {
        ConnectedMono(E, E + {e}, x, e.dst);
        ConnectedMono(E, E + {e}, e.src, y);
        ConnectedTrans(E + {e}, x, e.dst, e.src);
        ConnectedTrans(E + {e}, x, e.src, y);
      }
    }
  }

  /** Every edge is a bridge: there is no cycle. */
  ghost predicate Acyclic(F: set<Edge>) {
    forall e :: e in F ==> !Connected(F - {e}, e.src, e.dst)
  }

  lemma AcyclicAdd(F: set<Edge>, e: Edge)
    requires Acyclic(F) && !Connected(F, e.src, e.dst)
    ensures Acyclic(F + {e})
  {
    if e in F { ConnectedEdge(F, e); assert false; }
    forall f | f in F + {e}
      ensures !Connected(F + {e} - {f}, f.src, f.dst)
    {
      if f == e {
        assert F + {e} - {f} == F;
      } else {
        var G := F - {f};
        assert F + {e} - {f} == G + {e};
        if Connected(G + {e}, f.src, f.dst) {
          ConnectedAdd(G, e, f.src, f.dst);
          BridgeReplaced(F, f, e);
          assert false;
        }
      }
    }
  }

  // If removing `f` and adding `e` reconnects the ends of `f`, then `F` already joined the ends of `e`.
  lemma BridgeReplaced(F: set<Edge>, f: Edge, e: Edge)
    requires f in F && !Connected(F - {f}, f.src, f.dst) && ThroughEdge(F - {f}, e, f.src, f.dst)
    ensures Connected(F, e.src, e.dst)
  {
    var G := F - {f};
    ConnectedEdge(F, f);
    if Connected(G, f.src, e.src) && Connected(G, e.dst, f.dst) {
      ConnectedMono(G, F, f.src, e.src);
      ConnectedMono(G, F, e.dst, f.dst);
      ConnectedSym(F, f.src, e.src);
      ConnectedSym(F, e.dst, f.dst);
      ConnectedTrans(F, e.src, f.src, f.dst);
      ConnectedTrans(F, e.src, f.dst, e.dst);
    } else {
      ConnectedMono(G, F, f.src, e.dst);
      ConnectedMono(G, F, e.src, f.dst);
      ConnectedTrans(F, e.src, f.dst, f.src);
      ConnectedTrans(F, e.src, f.src, e.dst);
    }
  }

  /** `F` is a spanning forest of `E`: part of it, without cycles, joining whatever `E` joins. */
  ghost predicate SpanningForest(F: set<Edge>, E: set<Edge>) {
    && F <= E
    && Acyclic(F)
    && forall u: nat, v: nat :: Connected(E, u, v) ==> Connected(F, u, v)
  }

  /** The edges of `E` with exactly one end in `S`. */
  function Cut(E: set<Edge>, S: set<nat>): set<Edge> {
    set e | e in E && (e.src in S) != (e.dst in S)
  }

  // A spanning forest meets every non-empty cut.
  lemma ForestMeetsCut(F: set<Edge>, E: set<Edge>, S: set<nat>)
    requires SpanningForest(F, E) && Cut(E, S) != {}
    ensures Cut(F, S) != {}
  {
    var e :| e in Cut(E, S);
    ConnectedEdge(E, e);
    assert Connected(F, e.src, e.dst);
    if Cut(F, S) == {} {
      assert forall f :: f in F ==> f !in Cut(F, S);
      ConnectedInClosed(F, S, e.src, e.dst);
    }
  }
}
