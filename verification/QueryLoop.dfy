/** Lemmas behind the query engine: what one round does to the invariant of the query loop, and what one edge
    update does to a cached answer. */
module QueryLoop {
  import opened Graphs
  import opened DisjointSets
  import opened XorAlgebra
  import opened Sketches
  import opened Supernodes
  import opened RoundProtocol
  import opened RoundSafety
  import opened CountingSort
  import opened Boruvka
  import opened MislabelledRounds
  import opened LookUpsExact

  ghost predicate NormalEdges(n: nat, F: set<Edge>) { forall e :: e in F ==> e.src < e.dst < n }

  /** x doubled r times. */
  ghost function Doubled(r: nat, x: nat): nat { if r == 0 then x else Doubled(r - 1, 2 * x) }

  lemma {:induction false} DoubledMono(r: nat, x: nat, y: nat)
    requires x <= y
    ensures Doubled(r, x) <= Doubled(r, y)
  {
    if r > 0 { DoubledMono(r - 1, 2 * x, 2 * y); }
  }

  lemma {:induction false} DoubledIsPow2(r: nat, x: nat)
    ensures Doubled(r, x) == Pow2(r) * x
  {
    if r > 0 {
      DoubledIsPow2(r - 1, 2 * x);
      assert Pow2(r) * x == Pow2(r - 1) * (2 * x);
    }
  }

  // ---------- what can go wrong in a query ----------

  /** What happened during one emulation; `Traces.LuckOf` reads it off the run. */
  datatype Luck = Luck(
    fooled: bool,     // an inspected bucket fooled its checksum
    unlucky: bool,    // a sample reported FAIL
    inexact: bool,    // the look-ups between two rounds raced to a label that is no root
    torn: bool,       // the last round split two sets that an edge joins
    deep: bool)       // look-ups started from an array with a vertex more than four links below its root
  {
    predicate Sound() { !fooled && !torn }
    predicate Calm() { !fooled && !unlucky && !inexact }
  }

  // ---------- the loop invariant ----------

  /** Before round r: the union-find represents the forest; with faithful checksums the forest is part of the graph,
      and as long as all labels were roots and no sample failed either, at most n / 2^r sets are active. */
  ghost predicate LoopOk(n: nat, prio: seq<nat>, parent: seq<nat>, forest: set<Edge>, E: set<Edge>, r: nat, k: Luck) {
    && |prio| == |parent| == n && Represents(prio, parent, forest) && NormalEdges(n, forest)
    && (!k.fooled ==> forest <= E)
    && (k.Calm() ==> Doubled(r, |Active(prio, parent, E)|) <= n && (r > 0 ==> Pow2(r) <= n))
  }

  /** Path halving is invisible to the loop. */
  lemma LoopFrame(n: nat, prio: seq<nat>, a: seq<nat>, b: seq<nat>, forest: set<Edge>, E: set<Edge>, r: nat, k: Luck)
    requires LoopOk(n, prio, a, forest, E, r, k) && SameRoots(prio, a, b)
    ensures LoopOk(n, prio, b, forest, E, r, k)
  {
    SameRootsRepresents(prio, a, b, forest);
    SameActive(prio, a, b, E);
  }

  lemma SameActive(prio: seq<nat>, a: seq<nat>, b: seq<nat>, E: set<Edge>)
    requires SameRoots(prio, a, b)
    ensures Active(prio, a, E) == Active(prio, b, E)
  {
    forall root: nat ensures IsRoot(a, root) <==> IsRoot(b, root) { assert root in RootSet(a) <==> root in RootSet(b); }
    forall root: nat ensures Comp(prio, a, root) == Comp(prio, b, root) { }
  }

  lemma SameTorn(prio: seq<nat>, a: seq<nat>, b: seq<nat>, find: seq<nat>, E: set<Edge>)
    requires SameRoots(prio, a, b) && |find| == |a|
    ensures SameSetLabels(prio, a, find) <==> SameSetLabels(prio, b, find)
    ensures Torn(prio, a, find, E) <==> Torn(prio, b, find, E)
  {
    forall x: nat | x < |a| ensures Split(prio, a, find, x) <==> Split(prio, b, find, x) { }
  }

  /** A climb of more than four links needs six vertices. */
  lemma {:induction false} LinksBounded(prio: seq<nat>, parent: seq<nat>, u: nat)
    requires Ascending(prio, parent) && u < |parent|
    ensures Links(prio, parent, u) <= Height(prio, u)
    decreases Height(prio, u)
  {
    if parent[u] != u {
      HeightDecreases(prio, parent[u], u);
      LinksBounded(prio, parent, parent[u]);
    }
  }

  lemma FewAreShallow(prio: seq<nat>, parent: seq<nat>)
    requires Ascending(prio, parent) && |parent| < 6
    ensures AtMostFour(prio, parent)
  {
    forall u | 0 <= u < |parent| ensures Links(prio, parent, u) <= 4 {
      LinksBounded(prio, parent, u);
      HeightBounded(prio, u);
    }
  }

  function Identity(n: nat): (s: seq<nat>)
    ensures |s| == n && forall i :: 0 <= i < n ==> s[i] == i
  {
    seq(n, i => i)
  }

  lemma StartOk(n: nat, prio: seq<nat>, E: set<Edge>, k: Luck)
    requires |prio| == n
    ensures LoopOk(n, prio, Identity(n), {}, E, 0, k)
    ensures FindsOf(prio, Identity(n), Identity(n)) && |RootSet(Identity(n))| == n
  {
    IdentityRepresents(prio);
    RangeSize(Active(prio, Identity(n), E), n);
  }

  lemma NormalAfterRound(c: Ctx, sh: Shared)
    requires c.p.Valid() && Ascending(c.prio, c.parent0) && SharedOk(c, sh) && NormalEdges(|c.parent0|, c.forest0)
    ensures NormalEdges(|c.parent0|, sh.forest)
  {
    forall e | e in sh.forest ensures e.src < e.dst < |c.parent0| {
      if e !in c.forest0 {
        assert SampledEdge(sh.log, e);
        assert Acyclic(sh.forest);
        if e.src == e.dst { ConnectedRefl(sh.forest - {e}, e.src); assert false; }
      }
    }
  }

  lemma ActiveShrinks(c: Ctx, E: set<Edge>, sh: Shared)
    requires c.p.Valid() && Represents(c.prio, c.parent0, c.forest0) && SampledAll(c, E, sh)
    requires Simple(|c.parent0|, E) && c.r < c.p.samples && RoundFaithful(c, E) && !sh.failed && sh.modified
    requires !SomeFail(sh.log)
    ensures 2 * |Active(c.prio, sh.parent, E)| <= |Active(c.prio, c.parent0, E)|
    ensures 2 <= |Active(c.prio, c.parent0, E)|
  {
    RoundHalves(c, E, sh);
    if Active(c.prio, c.parent0, E) == {} {
      QuietWhenInactive(c, E, sh);
      assert false;
    }
    NeverOneActive(c.prio, c.parent0, E);
  }

  lemma CountAfterRound(n: nat, r: nat, before: nat, after: nat)
    requires Doubled(r, before) <= n && 2 * after <= before && 2 <= before
    ensures Doubled(r + 1, after) <= n && Pow2(r + 1) <= n
  {
    DoubledMono(r, 2 * after, before);
    DoubledMono(r, 2, before);
    DoubledIsPow2(r, 2);
  }

  lemma ExactRoundKeeps(c: Ctx, E: set<Edge>, sh: Shared, n: nat, find: seq<nat>)
    requires c.p.Valid() && Simple(n, E) && |c.parent0| == n && Represents(c.prio, c.parent0, c.forest0)
    requires GroupsSampled(c, E, sh)
    requires FindsOf(c.prio, c.parent0, find) && ListOf(c.l.m, find) && GroupsFaithful(c, E) && c.r < c.p.samples
    requires !sh.failed && sh.modified && !SomeFail(sh.log) && Doubled(c.r, |Active(c.prio, c.parent0, E)|) <= n
    ensures Doubled(c.r + 1, |Active(c.prio, sh.parent, E)|) <= n && Pow2(c.r + 1) <= n
  {
    RoundSamplesAll(c, E, sh, find);
    GroupsAreSets(c, E, find);
    ActiveShrinks(c, E, sh);
    CountAfterRound(n, c.r, |Active(c.prio, c.parent0, E)|, |Active(c.prio, sh.parent, E)|);
  }

  /** One round over any same-set labels: it fails only when samples run out, an unmodified round is exact if and only
      if it tore nothing apart, a modified one keeps the loop invariant. */
  lemma RoundKeepsLoop(c: Ctx, E: set<Edge>, sh: Shared, n: nat, find: seq<nat>, k: Luck)
    requires c.p.Valid() && n > 0 && Simple(n, E) && |c.parent0| == n
    requires LoopOk(n, c.prio, c.parent0, c.forest0, E, c.r, k) && GroupsSampled(c, E, sh)
    requires SameSetLabels(c.prio, c.parent0, find) && ListOf(c.l.m, find)
    requires !k.fooled ==> GroupsFaithful(c, E)
    requires k.Calm() ==> FindsOf(c.prio, c.parent0, find) && !SomeFail(sh.log)
    ensures |sh.parent| == n && Represents(c.prio, sh.parent, sh.forest) && NormalEdges(n, sh.forest)
    ensures !k.fooled && sh.failed ==> c.r >= c.p.samples
    ensures !k.fooled && !sh.failed ==> sh.forest <= E
    ensures !sh.failed ==> c.r < c.p.samples
    ensures !sh.modified ==> sh.parent == c.parent0 && sh.forest == c.forest0
    ensures !sh.failed && !sh.modified && !k.fooled ==>
        (SpanningForest(sh.forest, E) <==> !Torn(c.prio, c.parent0, find, E))
    ensures !sh.failed && sh.modified ==> LoopOk(n, c.prio, sh.parent, sh.forest, E, c.r + 1, k)
  {
    NormalAfterRound(c, sh);
    if c.r >= c.p.samples { OutOfSamplesFails(c, E, sh); }
    if !k.fooled {
      AnyLabelsSound(c, E, sh);
      if !sh.failed && !sh.modified { UnmodifiedIsExact(c, E, sh, find); }
      if !sh.failed && sh.modified && k.Calm() { ExactRoundKeeps(c, E, sh, n, find); }
    }
  }

  // ---------- edge updates against a cached answer ----------

  lemma NewEdgeSpans(F: set<Edge>, E: set<Edge>, e: Edge)
    requires SpanningForest(F, E) && !Connected(F, e.src, e.dst)
    ensures e !in E && SpanningForest(F + {e}, E + {e})
  {
    if e in E { ConnectedEdge(E, e); assert false; }
    AcyclicAdd(F, e);
    forall u: nat, v: nat | Connected(E + {e}, u, v) ensures Connected(F + {e}, u, v) {
      ConnectedAdd(E, e, u, v);
      ConnectedAdd(F, e, u, v);
    }
  }

  lemma InnerEdgeSpans(F: set<Edge>, E: set<Edge>, e: Edge)
    requires SpanningForest(F, E) && Connected(F, e.src, e.dst)
    ensures SpanningForest(F, E + {e})
  {
    ConnectedSym(F, e.src, e.dst);
    forall u: nat, v: nat | Connected(E + {e}, u, v) ensures Connected(F, u, v) {
      ConnectedAdd(E, e, u, v);
      if Connected(E, u, v) {
      } else if Connected(E, u, e.src) && Connected(E, e.dst, v) {
        ConnectedTrans(F, u, e.src, e.dst);
        ConnectedTrans(F, u, e.dst, v);
      } else {
        ConnectedTrans(F, u, e.dst, e.src);
        ConnectedTrans(F, u, e.src, v);
      }
    }
  }

  lemma SpareEdgeSpans(F: set<Edge>, E: set<Edge>, e: Edge)
    requires SpanningForest(F, E) && e !in F
    ensures SpanningForest(F, E - {e})
  {
    forall u: nat, v: nat | Connected(E - {e}, u, v) ensures Connected(F, u, v) {
      ConnectedMono(E - {e}, E, u, v);
    }
  }

  /** An update of an edge inside one set that is not a forest edge leaves the forest spanning. */
  lemma InnerToggleSpans(F: set<Edge>, E: set<Edge>, e: Edge)
    requires SpanningForest(F, E) && Connected(F, e.src, e.dst) && e !in F
    ensures SpanningForest(F, ToggleEdge(E, e))
  {
    if e in E { SpareEdgeSpans(F, E, e); } else { InnerEdgeSpans(F, E, e); }
  }

  /** The new edge joins two sets: the union-find and the forest take it up. */
  lemma JoinKeepsCache(n: nat, prio: seq<nat>, parent: seq<nat>, F: set<Edge>, E: set<Edge>, exact: bool, e: Edge)
    requires |parent| == n && Represents(prio, parent, F) && NormalEdges(n, F) && e.src < e.dst < n
    requires !Same(prio, parent, e.src, e.dst) && (exact ==> SpanningForest(F, E))
    ensures var (a, b) := OrderEdge(prio, Root(prio, parent, e.src), Root(prio, parent, e.dst));
            Represents(prio, parent[b := a], F + {e}) && NormalEdges(n, F + {e})
    ensures e !in F && (exact ==> SpanningForest(F + {e}, ToggleEdge(E, e)))
  {
    LinkForSample(prio, parent, F, e);
    assert !Connected(F, e.src, e.dst);
    if e in F { ConnectedEdge(F, e); assert false; }
    if exact { NewEdgeSpans(F, E, e); }
  }

  lemma InnerKeepsCache(prio: seq<nat>, parent: seq<nat>, F: set<Edge>, E: set<Edge>, exact: bool, e: Edge)
    requires Represents(prio, parent, F) && e.src < |parent| && e.dst < |parent|
    requires Same(prio, parent, e.src, e.dst) && e !in F && (exact ==> SpanningForest(F, E))
    ensures exact ==> SpanningForest(F, ToggleEdge(E, e))
  {
    if exact { InnerToggleSpans(F, E, e); }
  }

  /** The answer agrees with the graph on every pair of vertices. */
  ghost predicate Exact(n: nat, E: set<Edge>, roots: seq<nat>) {
    |roots| == n && forall x: nat, y: nat :: x < n && y < n ==> (roots[x] == roots[y] <==> Connected(E, x, y))
  }

  /** What an exact answer says. */
  lemma AnswerExact(n: nat, prio: seq<nat>, parent: seq<nat>, F: set<Edge>, E: set<Edge>, x: nat, y: nat)
    requires Represents(prio, parent, F) && |parent| == n && SpanningForest(F, E) && x < n && y < n
    ensures Same(prio, parent, x, y) <==> Connected(E, x, y)
  {
    if Connected(F, x, y) { ConnectedMono(F, E, x, y); }
  }
}
