/** Path halving does what its name says. */
module PathHalving {
  import opened DisjointSets
  import opened LookUpsExact

  /** `find_root(u)` leaves every vertex alone that is not on the way up from `u`. */
  lemma {:induction false} HalveKeepsLow(prio: seq<nat>, parent: seq<nat>, u: nat, v: nat)
    requires Ascending(prio, parent) && u < |parent| && v < |parent| && Height(prio, v) > Height(prio, u)
    ensures HalveUp(prio, parent, u)[v] == parent[v]
    decreases Height(prio, u)
  {
    if parent[parent[u]] != parent[u] {
      var g := parent[parent[u]];
      HalveOnce(prio, parent, parent, u);
      HalveKeepsLow(prio, parent[u := g], g, v);
    }
  }

  /** A link changed at `u` does not show from a vertex above it. */
  lemma {:induction false} LinksAbove(prio: seq<nat>, parent: seq<nat>, q: seq<nat>, u: nat, x: nat)
    requires Ascending(prio, parent) && Ascending(prio, q) && u < |parent| && x < |parent|
    requires Height(prio, x) < Height(prio, u) && q == parent[u := q[u]]
    ensures Links(prio, q, x) == Links(prio, parent, x)
    decreases Height(prio, x)
  {
    if parent[x] != x {
      HeightDecreases(prio, parent[x], x);
      LinksAbove(prio, parent, q, u, parent[x]);
    }
  }

  /** After `find_root(u)` the vertex is half as far below its root, rounded up. */
  lemma {:induction false} PathHalved(prio: seq<nat>, parent: seq<nat>, u: nat)
    requires Ascending(prio, parent) && u < |parent|
    ensures Links(prio, HalveUp(prio, parent, u), u) == (Links(prio, parent, u) + 1) / 2
    decreases Height(prio, u)
  {
    var p := parent[u];
    if parent[p] == p {
      assert Links(prio, parent, p) == 0;
    } else {
      var g := parent[p];
      var next := parent[u := g];
      HalveOnce(prio, parent, parent, u);
      HalveKeepsLow(prio, next, g, u);
      PathHalved(prio, next, g);
      LinksAbove(prio, parent, next, u, g);
      TwoUp(prio, parent, u);
    }
  }

  lemma TwoUp(prio: seq<nat>, parent: seq<nat>, u: nat)
    requires Ascending(prio, parent) && u < |parent| && parent[parent[u]] != parent[u]
    ensures Links(prio, parent, u) == 2 + Links(prio, parent, parent[parent[u]])
  {
    assert Links(prio, parent, parent[u]) == 1 + Links(prio, parent, parent[parent[u]]);
  }
}
