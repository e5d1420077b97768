/** What a finished round has sampled, and why a round over exact groups without failed samples at least halves the
    sets that can still grow. */
module Boruvka {
  import opened Graphs
  import opened DisjointSets
  import opened Sketches
  import opened Supernodes
  import opened Partitions
  import opened MergeLists
  import opened RoundProtocol
  import opened RoundSafety
  import opened RoundRuns
  import opened CountingSort

  predicate IsRoot(parent: seq<nat>, root: nat) { root < |parent| && parent[root] == root }

  /** The vertices in the set of `root`. */
  ghost function Comp(prio: seq<nat>, parent: seq<nat>, root: nat): set<nat>
    requires Ascending(prio, parent)
  {
    set v: nat | v < |parent| && Root(prio, parent, v) == root
  }

  /** What sampling the complete supernode `S` in round `r` gives. */
  ghost function OutcomeOf(p: Params, r: nat, E: set<Edge>, S: set<nat>): SampleOutcome
    requires p.Valid()
  {
    if r < p.samples then Sampled(SampleAt(p, SketchOf(p, CutIds(E, S)), r)) else OutOfSamples
  }

  /** Every group of the merge list was sampled in this round, on the sketch of the edges that leave it. */
  ghost predicate GroupsSampled(c: Ctx, E: set<Edge>, sh: Shared)
    requires c.p.Valid() && Ascending(c.prio, c.parent0)
  {
    && SharedOk(c, sh)
    && (forall k :: 0 <= k < |sh.log| ==>
          HasRoot(c.l.m, sh.log[k].root) && sh.log[k].outcome == OutcomeOf(c.p, c.r, E, Supernode(c.l, sh.log[k].root)))
    && (forall root :: HasRoot(c.l.m, root) ==> Logged(sh.log, root))
  }

  /** Every set of the union-find was sampled in this round, on the sketch of the edges that leave it. */
  ghost predicate SampledAll(c: Ctx, E: set<Edge>, sh: Shared)
    requires c.p.Valid() && Ascending(c.prio, c.parent0)
  {
    && SharedOk(c, sh)
    && (forall k :: 0 <= k < |sh.log| ==>
          IsRoot(c.parent0, sh.log[k].root) &&
          sh.log[k].outcome == OutcomeOf(c.p, c.r, E, Comp(c.prio, c.parent0, sh.log[k].root)))
    && (forall root :: IsRoot(c.parent0, root) ==> Logged(sh.log, root))
  }

  ghost predicate FindsOf(prio: seq<nat>, parent: seq<nat>, find: seq<nat>)
    requires Ascending(prio, parent)
  {
    |find| == |parent| && forall v :: 0 <= v < |parent| ==> find[v] == Root(prio, parent, v)
  }

  lemma ListedSupernode(c: Ctx, find: seq<nat>, root: nat)
    requires Ascending(c.prio, c.parent0) && FindsOf(c.prio, c.parent0, find) && ListOf(c.l.m, find)
    ensures Supernode(c.l, root) == Comp(c.prio, c.parent0, root)
  {
    var S, C := Supernode(c.l, root), Comp(c.prio, c.parent0, root);
    forall v | v in C ensures v in S {
      assert ListsChild(c.l.m, v);
      var q :| 0 <= q < |c.l.m| && c.l.m[q].child == v;
    }
  }

  lemma ListedRoots(c: Ctx, find: seq<nat>, root: nat)
    requires Ascending(c.prio, c.parent0) && FindsOf(c.prio, c.parent0, find) && ListOf(c.l.m, find)
    ensures HasRoot(c.l.m, root) <==> IsRoot(c.parent0, root)
  {
    if IsRoot(c.parent0, root) {
      assert ListsChild(c.l.m, root);
      var q :| 0 <= q < |c.l.m| && c.l.m[q].child == root;
      assert find[root] == root;
    }
  }

  lemma HeldOutcome(p: Params, r: nat, E: set<Edge>, S: set<nat>)
    requires p.Valid() && S != {}
    ensures SampleFn(p, Held(p, r, E, S)).1 == OutcomeOf(p, r, E, S)
  {
    HeldSample(p, r, E, S);
  }

  lemma EntrySketch(c: Ctx, sh: Shared, k: nat)
    requires c.p.Valid() && Ascending(c.prio, c.parent0) && SharedOk(c, sh) && k < |sh.log|
    ensures |sh.log[k].sketch.buckets| == c.p.Len() && sh.log[k].outcome == SampleFn(c.p, sh.log[k].sketch).1
  {
    assert EntryOk(c, sh, sh.log[k]);
  }

  /** A parallel round samples every group of its list. */
  lemma RoundSamplesGroups(c: Ctx, E: set<Edge>, sh: Shared)
    requires CtxOk(c, E) && RoundResult(c, E, sh)
    ensures GroupsSampled(c, E, sh)
  {
    forall k | 0 <= k < |sh.log| ensures sh.log[k].outcome == OutcomeOf(c.p, c.r, E, Supernode(c.l, sh.log[k].root)) {
      EntrySketch(c, sh, k);
      FullPortion(c.l, sh.log[k].root);
      HeldOutcome(c.p, c.r, E, Supernode(c.l, sh.log[k].root));
    }
  }

  /** With a list that pairs each vertex with its root, the groups are the sets of the union-find. */
  lemma RoundSamplesAll(c: Ctx, E: set<Edge>, sh: Shared, find: seq<nat>)
    requires c.p.Valid() && Ascending(c.prio, c.parent0) && GroupsSampled(c, E, sh)
    requires FindsOf(c.prio, c.parent0, find) && ListOf(c.l.m, find)
    ensures SampledAll(c, E, sh)
  {
    forall k | 0 <= k < |sh.log|
      ensures IsRoot(c.parent0, sh.log[k].root)
      ensures sh.log[k].outcome == OutcomeOf(c.p, c.r, E, Comp(c.prio, c.parent0, sh.log[k].root))
    {
      ListedRoots(c, find, sh.log[k].root);
      ListedSupernode(c, find, sh.log[k].root);
    }
    forall root | IsRoot(c.parent0, root) ensures Logged(sh.log, root) { ListedRoots(c, find, root); }
  }

  // ---------- faithful checksums ----------

  /** The checksums of the buckets this round inspects are not fooled. */
  ghost predicate RoundFaithful(c: Ctx, E: set<Edge>)
    requires c.p.Valid() && Ascending(c.prio, c.parent0)
  {
    c.r < c.p.samples ==>
      forall root :: IsRoot(c.parent0, root) ==> FaithfulAt(c.p, CutIds(E, Comp(c.prio, c.parent0, root)), c.r)
  }

  lemma OutcomeMeaning(p: Params, r: nat, n: nat, E: set<Edge>, S: set<nat>)
    requires p.Valid() && Simple(n, E) && r < p.samples && FaithfulAt(p, CutIds(E, S), r)
    ensures match OutcomeOf(p, r, E, S).s
            case Zero => Cut(E, S) == {}
            case Good(x) => EdgeAt(x) in Cut(E, S)
            case Fail => Cut(E, S) != {}
  {
    SampleMeaning(p, CutIds(E, S), r);
    assert forall e :: e in Cut(E, S) ==> EdgeId(e) in CutIds(E, S);
    match OutcomeOf(p, r, E, S).s
    case Good(x) => CutIdsMember(n, E, S, x);
    case _ =>
  }

  lemma EntryMeaning(c: Ctx, E: set<Edge>, sh: Shared, k: nat)
    requires c.p.Valid() && Ascending(c.prio, c.parent0) && SampledAll(c, E, sh) && k < |sh.log|
    requires Simple(|c.parent0|, E) && c.r < c.p.samples && RoundFaithful(c, E)
    ensures sh.log[k].outcome.Sampled?
    ensures var S := Comp(c.prio, c.parent0, sh.log[k].root);
            match sh.log[k].outcome.s
            case Zero => Cut(E, S) == {}
            case Good(x) => EdgeAt(x) in Cut(E, S)
            case Fail => Cut(E, S) != {}
  {
    OutcomeMeaning(c.p, c.r, |c.parent0|, E, Comp(c.prio, c.parent0, sh.log[k].root));
  }

  lemma ClosedSetsSpan(prio: seq<nat>, parent: seq<nat>, F: set<Edge>, E: set<Edge>)
    requires Represents(prio, parent, F) && Simple(|parent|, E) && F <= E
    requires forall root :: IsRoot(parent, root) ==> Closed(E, Comp(prio, parent, root))
    ensures SpanningForest(F, E)
  {
    var n := |parent|;
    forall u: nat, v: nat | Connected(E, u, v) ensures Connected(F, u, v) {
      if u >= n || v >= n {
        AloneOutside(n, E, u, v);
        ConnectedRefl(F, u);
      } else {
        var root := Root(prio, parent, u);
        assert IsRoot(parent, root);
        ConnectedInClosed(E, Comp(prio, parent, root), u, v);
        assert Same(prio, parent, u, v);
      }
    }
  }

  // ---------- rounds shrink ----------

  /** Sets that still have an edge leaving them. */
  ghost function Active(prio: seq<nat>, parent: seq<nat>, E: set<Edge>): set<nat>
    requires Ascending(prio, parent)
  {
    set root: nat | root < |parent| && IsRoot(parent, root) && Cut(E, Comp(prio, parent, root)) != {}
  }

  lemma EdgeActivates(prio: seq<nat>, parent: seq<nat>, E: set<Edge>, e: Edge)
    requires Ascending(prio, parent) && e in E && e.src < |parent| && e.dst < |parent|
    requires !Same(prio, parent, e.src, e.dst)
    ensures Root(prio, parent, e.src) in Active(prio, parent, E) && Root(prio, parent, e.dst) in Active(prio, parent, E)
  {
    assert e in Cut(E, Comp(prio, parent, Root(prio, parent, e.src)));
    assert e in Cut(E, Comp(prio, parent, Root(prio, parent, e.dst)));
  }

  /** Active sets come in pairs. */
  lemma NeverOneActive(prio: seq<nat>, parent: seq<nat>, E: set<Edge>)
    requires Ascending(prio, parent) && Simple(|parent|, E)
    ensures |Active(prio, parent, E)| != 1
  {
    var A := Active(prio, parent, E);
    if |A| == 1 {
      var r :| r in A;
      var e :| e in Cut(E, Comp(prio, parent, r));
      EdgeActivates(prio, parent, E, e);
      var a, b := Root(prio, parent, e.src), Root(prio, parent, e.dst);
      SubsetSize({a, b}, A);
    }
  }

  lemma GoodJoined(c: Ctx, sh: Shared, k: nat)
    requires c.p.Valid() && Ascending(c.prio, c.parent0) && SharedOk(c, sh) && k < |sh.log| && !sh.failed
    requires sh.log[k].outcome.Sampled? && sh.log[k].outcome.s.Good?
    ensures var e := EdgeAt(sh.log[k].outcome.s.idx);
            e.src < |sh.parent| && e.dst < |sh.parent| && Same(c.prio, sh.parent, e.src, e.dst)
  {
    assert EntryOk(c, sh, sh.log[k]);
  }

  /** An active set that was sampled successfully now shares its set with another set that was active. */
  lemma ActivePartner(c: Ctx, E: set<Edge>, sh: Shared, root: nat) returns (e: Edge)
    requires c.p.Valid() && Ascending(c.prio, c.parent0) && SampledAll(c, E, sh)
    requires Simple(|c.parent0|, E) && c.r < c.p.samples && RoundFaithful(c, E) && !sh.failed
    requires forall k :: 0 <= k < |sh.log| ==> sh.log[k].outcome != Sampled(Fail)
    requires root in Active(c.prio, c.parent0, E)
    ensures e in Cut(E, Comp(c.prio, c.parent0, root)) && Same(c.prio, sh.parent, e.src, e.dst)
  {
    assert Logged(sh.log, root);
    var k :| 0 <= k < |sh.log| && sh.log[k].root == root;
    EntryMeaning(c, E, sh, k);
    GoodJoined(c, sh, k);
    e := EdgeAt(sh.log[k].outcome.s.idx);
  }

  ghost predicate SetsKept(prio: seq<nat>, old_: seq<nat>, new_: seq<nat>)
    requires Ascending(prio, old_) && Ascending(prio, new_) && |old_| == |new_|
  {
    forall x: nat, y: nat :: x < |old_| && y < |old_| && Same(prio, old_, x, y) ==> Same(prio, new_, x, y)
  }

  lemma SomeActiveInside(prio: seq<nat>, old_: seq<nat>, new_: seq<nat>, E: set<Edge>, now: nat) returns (first: nat)
    requires Ascending(prio, old_) && Ascending(prio, new_) && |old_| == |new_| && SetsKept(prio, old_, new_)
    requires Simple(|old_|, E) && now in Active(prio, new_, E)
    ensures first in Active(prio, old_, E) && Root(prio, new_, first) == now
  {
    var S := Comp(prio, new_, now);
    var e :| e in Cut(E, S);
    assert !Same(prio, old_, e.src, e.dst);
    EdgeActivates(prio, old_, E, e);
    var x := if e.src in S then e.src else e.dst;
    first := Root(prio, old_, x);
    assert Same(prio, old_, first, x);
  }

  lemma PairInside(prio: seq<nat>, old_: seq<nat>, new_: seq<nat>, E: set<Edge>, first: nat, f: Edge)
    requires Ascending(prio, old_) && Ascending(prio, new_) && |old_| == |new_| && SetsKept(prio, old_, new_)
    requires Simple(|old_|, E) && IsRoot(old_, first) && f in Cut(E, Comp(prio, old_, first))
    requires Same(prio, new_, f.src, f.dst)
    ensures var a, b := Root(prio, old_, f.src), Root(prio, old_, f.dst);
            && a != b && a in Active(prio, old_, E) && b in Active(prio, old_, E)
            && Root(prio, new_, a) == Root(prio, new_, b) == Root(prio, new_, first)
  {
    EdgeActivates(prio, old_, E, f);
    var a, b := Root(prio, old_, f.src), Root(prio, old_, f.dst);
    assert Same(prio, old_, a, f.src) && Same(prio, old_, b, f.dst);
    assert a == first || b == first;
  }

  /** Every active set after the round holds at least two sets that were active before. */
  lemma TwoInside(c: Ctx, E: set<Edge>, sh: Shared, now: nat) returns (a: nat, b: nat)
    requires c.p.Valid() && Ascending(c.prio, c.parent0) && SampledAll(c, E, sh)
    requires Simple(|c.parent0|, E) && c.r < c.p.samples && RoundFaithful(c, E) && !sh.failed
    requires forall k :: 0 <= k < |sh.log| ==> sh.log[k].outcome != Sampled(Fail)
    requires now in Active(c.prio, sh.parent, E)
    ensures a != b && a in Active(c.prio, c.parent0, E) && b in Active(c.prio, c.parent0, E)
    ensures Root(c.prio, sh.parent, a) == Root(c.prio, sh.parent, b) == now
  {
    assert SetsKept(c.prio, c.parent0, sh.parent);
    var first := SomeActiveInside(c.prio, c.parent0, sh.parent, E, now);
    var f := ActivePartner(c, E, sh, first);
    PairInside(c.prio, c.parent0, sh.parent, E, first, f);
    a, b := Root(c.prio, c.parent0, f.src), Root(c.prio, c.parent0, f.dst);
  }

  /** If each element of `A` has two elements of `B` mapped to it, `B` is at least twice as large. */
  lemma {:induction false} TwoEach(A: set<nat>, B: set<nat>, up: map<nat, nat>)
    requires forall x :: x in B ==> x in up
    requires forall z :: z in A ==> exists x, y :: x in B && y in B && x != y && up[x] == z && up[y] == z
    ensures 2 * |A| <= |B|
    decreases A
  {
    if A != {} {
      var z :| z in A;
      var x, y :| x in B && y in B && x != y && up[x] == z && up[y] == z;
      var A', B' := A - {z}, B - {x} - {y};
      forall w | w in A' ensures exists x', y' :: x' in B' && y' in B' && x' != y' && up[x'] == w && up[y'] == w {
        var x', y' :| x' in B && y' in B && x' != y' && up[x'] == w && up[y'] == w;
        assert x' in B' && y' in B';
      }
      TwoEach(A', B', up);
    }
  }

  /** Without failed samples a round at least halves the active sets. */
  lemma RoundHalves(c: Ctx, E: set<Edge>, sh: Shared)
    requires c.p.Valid() && Ascending(c.prio, c.parent0) && SampledAll(c, E, sh)
    requires Simple(|c.parent0|, E) && c.r < c.p.samples && RoundFaithful(c, E) && !sh.failed
    requires forall k :: 0 <= k < |sh.log| ==> sh.log[k].outcome != Sampled(Fail)
    ensures 2 * |Active(c.prio, sh.parent, E)| <= |Active(c.prio, c.parent0, E)|
  {
    var A, B := Active(c.prio, sh.parent, E), Active(c.prio, c.parent0, E);
    var up := map x | x in B :: Root(c.prio, sh.parent, x);
    forall z | z in A ensures exists x, y :: x in B && y in B && x != y && up[x] == z && up[y] == z {
      var a, b := TwoInside(c, E, sh, z);
      assert up[a] == z && up[b] == z;
    }
    TwoEach(A, B, up);
  }

  /** Once nothing is active, a round changes nothing, whatever the checksums do. */
  lemma QuietWhenInactive(c: Ctx, E: set<Edge>, sh: Shared)
    requires c.p.Valid() && Ascending(c.prio, c.parent0) && SampledAll(c, E, sh) && c.r < c.p.samples
    requires Active(c.prio, c.parent0, E) == {}
    ensures !sh.modified && !sh.failed
  {
    forall k | 0 <= k < |sh.log| ensures sh.log[k].outcome == Sampled(Zero) {
      var S := Comp(c.prio, c.parent0, sh.log[k].root);
      assert sh.log[k].root !in Active(c.prio, c.parent0, E);
      assert Cut(E, S) == {};
      assert CutIds(E, S) == {};
      SmallVectorsExact(c.p, CutIds(E, S), 0, c.r);
    }
    assert forall e :: e in sh.forest ==> e in c.forest0 || SampledEdge(sh.log, e);
    assert sh.forest <= c.forest0;
  }
}
