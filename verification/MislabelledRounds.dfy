/** Rounds over a merge list whose labels come from racing look-ups: a label names some vertex of the right set, not
    necessarily its root, so a set may be split into several groups. What always holds, and exactly how much splitting
    an unmodified round tolerates. */
module MislabelledRounds {
  import opened Graphs
  import opened DisjointSets
  import opened Sketches
  import opened Supernodes
  import opened Partitions
  import opened RoundProtocol
  import opened RoundSafety
  import opened CountingSort
  import opened Boruvka

  /** Every label names a vertex of the same set, which is all that a racing look-up promises. */
  ghost predicate SameSetLabels(prio: seq<nat>, parent: seq<nat>, find: seq<nat>)
    requires Ascending(prio, parent)
  {
    |find| == |parent| && forall v :: 0 <= v < |find| ==> find[v] < |parent| && Same(prio, parent, v, find[v])
  }

  /** Two vertices of the set of `x` carry different labels. */
  ghost predicate Split(prio: seq<nat>, parent: seq<nat>, find: seq<nat>, x: nat)
    requires Ascending(prio, parent) && |find| == |parent| && x < |parent|
  {
    exists a, b :: 0 <= a < |find| && 0 <= b < |find| && Same(prio, parent, a, x) && Same(prio, parent, b, x) &&
        find[a] != find[b]
  }

  /** Some edge of the graph joins two different sets that are both split. */
  ghost predicate Torn(prio: seq<nat>, parent: seq<nat>, find: seq<nat>, E: set<Edge>)
    requires Ascending(prio, parent) && |find| == |parent|
  {
    exists e :: e in E && e.src < |parent| && e.dst < |parent| && !Same(prio, parent, e.src, e.dst)
             && Split(prio, parent, find, e.src) && Split(prio, parent, find, e.dst)
  }

  /** The checksums of the buckets this round inspects are not fooled. */
  ghost predicate GroupsFaithful(c: Ctx, E: set<Edge>)
    requires c.p.Valid()
  {
    c.r < c.p.samples ==> forall root :: HasRoot(c.l.m, root) ==> FaithfulAt(c.p, CutIds(E, Supernode(c.l, root)), c.r)
  }

  lemma GroupMeaning(c: Ctx, E: set<Edge>, sh: Shared, k: nat)
    requires c.p.Valid() && Ascending(c.prio, c.parent0) && GroupsSampled(c, E, sh) && k < |sh.log|
    requires Simple(|c.parent0|, E) && c.r < c.p.samples && GroupsFaithful(c, E)
    ensures sh.log[k].outcome.Sampled?
    ensures var S := Supernode(c.l, sh.log[k].root);
            match sh.log[k].outcome.s
            case Zero => Cut(E, S) == {}
            case Good(x) => EdgeAt(x) in Cut(E, S)
            case Fail => Cut(E, S) != {}
  {
    OutcomeMeaning(c.p, c.r, |c.parent0|, E, Supernode(c.l, sh.log[k].root));
  }

  lemma LabelledEdgeReal(c: Ctx, E: set<Edge>, sh: Shared, e: Edge)
    requires c.p.Valid() && Ascending(c.prio, c.parent0) && GroupsSampled(c, E, sh)
    requires Simple(|c.parent0|, E) && c.r < c.p.samples && GroupsFaithful(c, E) && SampledEdge(sh.log, e)
    ensures e in E
  {
    var k :| 0 <= k < |sh.log| && sh.log[k].outcome.Sampled? && sh.log[k].outcome.s.Good?
      && e == Normal(EdgeAt(sh.log[k].outcome.s.idx).src, EdgeAt(sh.log[k].outcome.s.idx).dst);
    GroupMeaning(c, E, sh, k);
  }

  /** Past the last sample every round throws. */
  lemma OutOfSamplesFails(c: Ctx, E: set<Edge>, sh: Shared)
    requires c.p.Valid() && Ascending(c.prio, c.parent0) && GroupsSampled(c, E, sh)
    requires c.r >= c.p.samples && |c.l.m| > 0
    ensures sh.failed
  {
    assert HasRoot(c.l.m, c.l.m[0].root);
    assert Logged(sh.log, c.l.m[0].root);
    var k :| 0 <= k < |sh.log| && sh.log[k].root == c.l.m[0].root;
    assert EntryOk(c, sh, sh.log[k]);
  }

  /** Whatever the labels: with faithful checksums the forest never leaves the graph, and a round throws only when the
      samples have run out. */
  lemma AnyLabelsSound(c: Ctx, E: set<Edge>, sh: Shared)
    requires c.p.Valid() && Ascending(c.prio, c.parent0) && GroupsSampled(c, E, sh) && |c.l.m| > 0
    requires Simple(|c.parent0|, E) && GroupsFaithful(c, E) && c.forest0 <= E
    ensures c.r < c.p.samples ==> sh.forest <= E
    ensures sh.failed <==> c.r >= c.p.samples
  {
    if c.r >= c.p.samples {
      OutOfSamplesFails(c, E, sh);
    } else {
      forall k | 0 <= k < |sh.log| ensures !Throws(|c.parent0|, sh.log[k]) { GroupMeaning(c, E, sh, k); }
      forall e | e in sh.forest ensures e in E {
        if e !in c.forest0 { LabelledEdgeReal(c, E, sh, e); }
      }
    }
  }

  // ---------- an unmodified round ----------

  /** A set that is not split is sampled as a whole. */
  lemma UnsplitIsGroup(c: Ctx, find: seq<nat>, x: nat)
    requires Ascending(c.prio, c.parent0) && SameSetLabels(c.prio, c.parent0, find) && ListOf(c.l.m, find)
    requires x < |find| && !Split(c.prio, c.parent0, find, x)
    ensures HasRoot(c.l.m, find[x]) && Supernode(c.l, find[x]) == Comp(c.prio, c.parent0, Root(c.prio, c.parent0, x))
  {
    var S, C := Supernode(c.l, find[x]), Comp(c.prio, c.parent0, Root(c.prio, c.parent0, x));
    assert ListsChild(c.l.m, x);
    var q :| 0 <= q < |c.l.m| && c.l.m[q].child == x;
    assert c.l.m[q].root == find[x];
    forall v | v in C ensures v in S {
      assert Same(c.prio, c.parent0, v, x) && find[v] == find[x];
      assert ListsChild(c.l.m, v);
      var a :| 0 <= a < |c.l.m| && c.l.m[a].child == v;
    }
    forall v | v in S ensures v in C {
      assert Same(c.prio, c.parent0, v, find[v]) && Same(c.prio, c.parent0, x, find[x]);
    }
  }

  lemma QuietEntry(c: Ctx, E: set<Edge>, sh: Shared, k: nat, z: nat)
    requires c.p.Valid() && Ascending(c.prio, c.parent0) && GroupsSampled(c, E, sh) && k < |sh.log|
    requires Simple(|c.parent0|, E) && c.r < c.p.samples && GroupsFaithful(c, E) && !sh.modified && !sh.failed
    requires Supernode(c.l, sh.log[k].root) == Comp(c.prio, c.parent0, z)
    ensures Cut(E, Comp(c.prio, c.parent0, z)) == {}
  {
    GroupMeaning(c, E, sh, k);
    assert EntryOk(c, sh, sh.log[k]) && sh.parent == c.parent0;
  }

  /** An edge with one end in a set that is not split stays inside that set. */
  lemma QuietEnd(c: Ctx, E: set<Edge>, sh: Shared, find: seq<nat>, e: Edge, x: nat)
    requires c.p.Valid() && Ascending(c.prio, c.parent0) && GroupsSampled(c, E, sh)
    requires SameSetLabels(c.prio, c.parent0, find) && ListOf(c.l.m, find)
    requires Simple(|c.parent0|, E) && c.r < c.p.samples && GroupsFaithful(c, E) && !sh.modified && !sh.failed
    requires e in E && (x == e.src || x == e.dst) && !Split(c.prio, c.parent0, find, x)
    ensures Same(c.prio, c.parent0, e.src, e.dst)
  {
    var S := Comp(c.prio, c.parent0, Root(c.prio, c.parent0, x));
    UnsplitIsGroup(c, find, x);
    assert Logged(sh.log, find[x]);
    var k :| 0 <= k < |sh.log| && sh.log[k].root == find[x];
    QuietEntry(c, E, sh, k, Root(c.prio, c.parent0, x));
    assert e !in Cut(E, S);
    assert x in S;
  }

  lemma InnerEdgesSpan(prio: seq<nat>, parent: seq<nat>, F: set<Edge>, E: set<Edge>)
    requires Represents(prio, parent, F) && Simple(|parent|, E) && F <= E
    requires forall e :: e in E ==> Same(prio, parent, e.src, e.dst)
    ensures SpanningForest(F, E)
  {
    forall root | IsRoot(parent, root) ensures Closed(E, Comp(prio, parent, root)) { }
    ClosedSetsSpan(prio, parent, F, E);
  }

  lemma EdgeAcrossMisses(prio: seq<nat>, parent: seq<nat>, F: set<Edge>, E: set<Edge>, e: Edge)
    requires Represents(prio, parent, F) && e in E && e.src < |parent| && e.dst < |parent|
    requires !Same(prio, parent, e.src, e.dst)
    ensures !SpanningForest(F, E)
  {
    ConnectedEdge(E, e);
  }

  /** A faithful round that changes nothing has found exactly the components if and only if no edge of the graph joins
      two different sets that its labels split. */
  lemma UnmodifiedIsExact(c: Ctx, E: set<Edge>, sh: Shared, find: seq<nat>)
    requires c.p.Valid() && Represents(c.prio, c.parent0, c.forest0) && GroupsSampled(c, E, sh)
    requires SameSetLabels(c.prio, c.parent0, find) && ListOf(c.l.m, find)
    requires Simple(|c.parent0|, E) && c.r < c.p.samples && GroupsFaithful(c, E) && c.forest0 <= E && !sh.modified
    requires !sh.failed
    ensures sh.parent == c.parent0 && sh.forest == c.forest0
    ensures SpanningForest(sh.forest, E) <==> !Torn(c.prio, c.parent0, find, E)
  {
    if Torn(c.prio, c.parent0, find, E) {
      var e :| e in E && e.src < |c.parent0| && e.dst < |c.parent0| && !Same(c.prio, c.parent0, e.src, e.dst);
      EdgeAcrossMisses(c.prio, c.parent0, c.forest0, E, e);
    } else {
      forall e | e in E ensures Same(c.prio, c.parent0, e.src, e.dst) {
        if !Split(c.prio, c.parent0, find, e.src) {
          QuietEnd(c, E, sh, find, e, e.src);
        } else if !Split(c.prio, c.parent0, find, e.dst) {
          QuietEnd(c, E, sh, find, e, e.dst);
        }
      }
      InnerEdgesSpan(c.prio, c.parent0, c.forest0, E);
    }
  }

  /** One split set is harmless, whatever the graph: an edge leaving it would also leave a set sampled as a whole. */
  lemma OneSplitSetTolerated(c: Ctx, E: set<Edge>, sh: Shared, find: seq<nat>, z: nat)
    requires c.p.Valid() && Represents(c.prio, c.parent0, c.forest0) && GroupsSampled(c, E, sh)
    requires SameSetLabels(c.prio, c.parent0, find) && ListOf(c.l.m, find)
    requires Simple(|c.parent0|, E) && c.r < c.p.samples && GroupsFaithful(c, E) && c.forest0 <= E && !sh.modified
    requires !sh.failed
    requires z < |find|
    requires forall x :: 0 <= x < |find| && Split(c.prio, c.parent0, find, x) ==> Same(c.prio, c.parent0, x, z)
    ensures SpanningForest(sh.forest, E)
  {
    UnmodifiedIsExact(c, E, sh, find);
  }

  // ---------- exact labels ----------

  lemma RootsNeverTorn(prio: seq<nat>, parent: seq<nat>, find: seq<nat>, E: set<Edge>)
    requires Ascending(prio, parent) && FindsOf(prio, parent, find)
    ensures SameSetLabels(prio, parent, find) && !Torn(prio, parent, find, E)
  {
  }

  /** With root labels the groups are the sets, so the round is faithful on the sets. */
  lemma GroupsAreSets(c: Ctx, E: set<Edge>, find: seq<nat>)
    requires c.p.Valid() && Ascending(c.prio, c.parent0) && FindsOf(c.prio, c.parent0, find) && ListOf(c.l.m, find)
    ensures GroupsFaithful(c, E) <==> RoundFaithful(c, E)
  {
    forall root: nat
      ensures HasRoot(c.l.m, root) <==> IsRoot(c.parent0, root)
      ensures Supernode(c.l, root) == Comp(c.prio, c.parent0, root)
    {
      ListedRoots(c, find, root);
      ListedSupernode(c, find, root);
    }
  }
}
