/** The sequential union-find with path halving, on an array updated in place. */
module SequentialDsu {
  import opened Graphs
  import opened DisjointSets

  lemma RootsFrame(prio: seq<nat>, a: seq<nat>, b: seq<nat>, c: seq<nat>, u: nat, v: nat)
    requires SameRoots(prio, a, b) && SameRoots(prio, b, c) && u < |a| && v < |a|
    ensures Root(prio, c, u) == Root(prio, a, u) == Root(prio, b, u) && Root(prio, c, v) == Root(prio, a, v)
    ensures RootSet(c) == RootSet(a)
  {
  }

  class DisjointSetUnion {
    const n: nat
    const prio: seq<nat>
    const parent: array<nat>
    ghost var forest: set<Edge>      // the pairs whose merge succeeded

    ghost predicate Valid()
      reads this, parent
    {
      |prio| == n == parent.Length && Represents(prio, parent[..], forest)
    }

    constructor (priorities: seq<nat>)
      ensures Valid() && n == |priorities| && prio == priorities && forest == {} && fresh(parent)
      ensures |RootSet(parent[..])| == n
    {
      n, prio := |priorities|, priorities;
      parent := new nat[|priorities|](i requires 0 <= i => i);
      forest := {};
      new;
      IdentityRepresents(prio);
      assert parent[..] == seq(|prio|, i => i);
    }

    /** `find_root`: the root of `u`; halving the path changes no root. */
    method FindRoot(u: nat) returns (r: nat)
      requires Valid() && u < n
      modifies parent
      ensures Valid() && SameRoots(prio, old(parent[..]), parent[..]) && r == Root(prio, parent[..], u)
      ensures parent[..] == HalveUp(prio, old(parent[..]), u)
    {
      var v: nat := u;
      ghost var start := parent[..];
      while parent[parent[v]] != parent[v]
        invariant SameRoots(prio, start, parent[..]) && v < n && Root(prio, parent[..], v) == Root(prio, start, u)
        invariant forall i :: 0 <= i < n ==> parent[i] < n
        invariant HalveUp(prio, parent[..], v) == HalveUp(prio, start, u)
        decreases Height(prio, v)
      {
        HalveOnce(prio, start, parent[..], v);
        ghost var was := parent[..];
        parent[v] := parent[parent[v]];
        assert parent[..] == was[v := was[was[v]]];
        v := parent[v];
      }
      SameRootsRepresents(prio, start, parent[..], forest);
      r := parent[v];
    }

    /** `merge`: joins the two sets exactly if they were different; then the lower of the two roots hangs below the
        other, which becomes the root of both sets. */
    method Merge(u: nat, v: nat) returns (merged: bool, root: nat, child: nat)
      requires Valid() && u < n && v < n
      modifies this`forest, parent
      ensures Valid() && (merged <==> !Connected(old(forest), u, v))
      ensures forest == if merged then old(forest) + {Normal(u, v)} else old(forest)
      ensures |RootSet(parent[..])| == old(|RootSet(parent[..])|) - if merged then 1 else 0
      ensures parent[..] == MergedArray(prio, old(parent[..]), u, v)
      ensures merged ==> (root, child) == OrderEdge(prio, old(Root(prio, parent[..], u)),
                                                    old(Root(prio, parent[..], v)))
      ensures merged ==> Root(prio, parent[..], u) == Root(prio, parent[..], v) == root
      ensures !merged ==> root == 0 && child == 0
    {
      var a := FindRoot(u);
      var b := FindRoot(v);
      ghost var was := old(parent[..]);
      RootsFrame(prio, was, HalveUp(prio, was, u), parent[..], u, v);
      assert Same(prio, parent[..], u, v) <==> Connected(forest, u, v);
      if a == b { return false, 0, 0; }
      root, child := Link(a, b, Normal(u, v));
      merged := true;
    }

    /** Hang the lower of two roots below the other. */
    method Link(a: nat, b: nat, ghost e: Edge) returns (top: nat, below: nat)
      requires Valid() && a < n && b < n && a != b && parent[a] == a && parent[b] == b && e.src < n && e.dst < n
      requires (Root(prio, parent[..], e.src) == a && Root(prio, parent[..], e.dst) == b)
            || (Root(prio, parent[..], e.src) == b && Root(prio, parent[..], e.dst) == a)
      modifies this`forest, parent
      ensures Valid() && forest == old(forest) + {e} && (top, below) == OrderEdge(prio, a, b)
      ensures parent[..] == old(parent[..])[below := top]
      ensures |RootSet(parent[..])| == old(|RootSet(parent[..])|) - 1
      ensures Root(prio, parent[..], e.src) == Root(prio, parent[..], e.dst) == top
    {
      top, below := OrderEdge(prio, a, b).0, OrderEdge(prio, a, b).1;
      LinkJoins(prio, parent[..], top, below);
      LinkKeepsRepresents(prio, parent[..], forest, e, top, below);
      ghost var was := parent[..];
      parent[below] := top;
      assert parent[..] == was[below := top];
      forest := forest + {e};
    }

    method Reset()
      requires Valid()
      modifies this`forest, parent
      ensures Valid() && forest == {} && |RootSet(parent[..])| == n
    {
      var i := 0;
      while i < n
        invariant i <= n && forall j :: 0 <= j < i ==> parent[j] == j
      {
        parent[i] := i;
        i := i + 1;
      }
      forest := {};
      IdentityRepresents(prio);
      assert parent[..] == seq(|prio|, i => i);
    }
  }
}
