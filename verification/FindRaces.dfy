/** What concurrent `find_root` calls return while no merge runs (label look-ups between Boruvka rounds).
    The loop test loads parent[u] twice, and another thread may halve the path in between. */
module FindRaces {
  import opened DisjointSets
  import opened LockFreeDsu

  ghost predicate MergeFree(sched: Schedule) {
    forall i :: 0 <= i < |sched| ==> !sched[i].1.BeginMerge?
  }

  ghost predicate AllIdle(s: State) {
    forall t :: 0 <= t < |s.calls| ==> s.calls[t].Idle?
  }

  /** No vertex is more than two links away from its root. */
  ghost predicate Shallow(parent: seq<nat>) {
    && (forall i :: 0 <= i < |parent| ==> parent[i] < |parent|)
    && (forall i :: 0 <= i < |parent| ==> parent[parent[parent[i]]] == parent[parent[i]])
  }

  lemma ShallowGrandIsRoot(prio: seq<nat>, parent: seq<nat>, u: nat)
    requires Ascending(prio, parent) && Shallow(parent) && u < |parent|
    ensures parent[parent[u]] == Root(prio, parent, u)
  {
    assert Root(prio, parent, parent[u]) == Root(prio, parent, u);
    assert Root(prio, parent, parent[parent[u]]) == Root(prio, parent, parent[u]);
  }

  ghost predicate FindShallow(prio: seq<nat>, parent: seq<nat>, f: Find)
    requires Ascending(prio, parent) && FindInRange(|parent|, f)
  {
    var root := Root(prio, parent, f.u);
    match f.at
    case LeftParent(p) => parent[p] == root
    case LeftGrand(q) => q == root
    case RightParent(r) => r == root ==> parent[f.u] == root
    case BothParents(r, p) => parent[p] == root && (r == root ==> parent[f.u] == root)
    case BodyParent(p) => parent[p] == root
    case BodyGrand(g) => g == root
    case Leave => parent[f.u] == root
    case Found(res) => res == Root(prio, parent, f.start)
    case _ => true
  }

  ghost predicate ShallowInv(s: State) {
    && Inv(s) && Shallow(s.parent)
    && (forall t :: 0 <= t < |s.calls| ==>
          s.calls[t].Idle? || (s.calls[t].Finding? && FindShallow(s.prio, s.parent, s.calls[t].f)))
  }

  /** Same sets, same roots, and whoever points at its root keeps doing so. */
  ghost predicate Flatter(prio: seq<nat>, p: seq<nat>, q: seq<nat>) {
    && Ascending(prio, p) && Ascending(prio, q) && |p| == |q|
    && (forall x :: 0 <= x < |p| ==> Root(prio, q, x) == Root(prio, p, x))
    && (forall x :: 0 <= x < |p| && p[x] == Root(prio, p, x) ==> q[x] == p[x])
  }

  lemma FindShallowStable(prio: seq<nat>, p: seq<nat>, q: seq<nat>, f: Find)
    requires Flatter(prio, p, q) && FindInRange(|p|, f) && FindShallow(prio, p, f)
    requires FindOk(prio, p, f)
    ensures FindShallow(prio, q, f)
  {
    match f.at
    case LeftParent(x) => PointsAtRoot(prio, p, f.u, x);
    case BothParents(r, x) => PointsAtRoot(prio, p, f.u, x);
    case BodyParent(x) => PointsAtRoot(prio, p, f.u, x);
    case _ =>
  }

  lemma PointsAtRoot(prio: seq<nat>, parent: seq<nat>, u: nat, x: nat)
    requires Ascending(prio, parent) && u < |parent| && x < |parent|
    requires parent[x] == Root(prio, parent, u)
    ensures parent[x] == Root(prio, parent, x)
  {
    assert Root(prio, parent, parent[x]) == parent[x];
  }

  lemma HalvingIsFlatter(prio: seq<nat>, parent: seq<nat>, u: nat, g: nat)
    requires Ascending(prio, parent) && Shallow(parent) && u < |parent| && g < |parent|
    requires parent[u] != u && Above(prio, g, u) && Same(prio, parent, u, g) && g == Root(prio, parent, u)
    ensures Flatter(prio, parent, parent[u := g]) && Shallow(parent[u := g])
  {
    var q := parent[u := g];
    HalvingKeepsPartition(prio, parent, u, g);
    forall i | 0 <= i < |q| ensures q[q[q[i]]] == q[q[i]] {
      ShallowGrandIsRoot(prio, parent, i);
      ShallowGrandIsRoot(prio, parent, parent[i]);
      assert q[g] == g;
    }
  }

  lemma FindStepShallow(prio: seq<nat>, parent: seq<nat>, f: Find, choice: bool)
    requires Ascending(prio, parent) && Shallow(parent)
    requires FindOk(prio, parent, f) && FindShallow(prio, parent, f)
    ensures var (q, f') := FindStep(parent, f, choice);
            Flatter(prio, parent, q) && Shallow(q) && FindInRange(|q|, f') && FindShallow(prio, q, f')
  {
    FindStepOk(prio, parent, f, choice);
    ShallowGrandIsRoot(prio, parent, f.u);
    if f.at.BodyGrand? { HalvingIsFlatter(prio, parent, f.u, f.at.g); }
  }

  lemma ApplyShallow(s: State, t: nat, act: Action)
    requires ShallowInv(s) && !act.BeginMerge?
    ensures ShallowInv(Apply(s, t, act))
    ensures Flatter(s.prio, s.parent, Apply(s, t, act).parent)
  {
    ApplyKeepsInv(s, t, act);
    ApplyShape(s, t, act);
    var s' := Apply(s, t, act);
    if t < |s.calls| && act.Run? && s.calls[t].Finding? {
      var f := s.calls[t].f;
      assert CallOk(s.prio, s.parent, s.calls[t]);
      FindStepShallow(s.prio, s.parent, f, act.choice);
      forall i | 0 <= i < |s'.calls|
        ensures s'.calls[i].Idle? || (s'.calls[i].Finding? && FindShallow(s.prio, s'.parent, s'.calls[i].f))
      {
        if i != t && s.calls[i].Finding? {
          assert CallOk(s.prio, s.parent, s.calls[i]);
          FindShallowStable(s.prio, s.parent, s'.parent, s.calls[i].f);
        }
      }
    }
  }

  /** Every finished look-up holds the root of its argument. */
  ghost predicate FindsExact(s: State) {
    forall t :: 0 <= t < |s.calls| && s.calls[t].Finding? ==> FindExact(s, s.calls[t].f)
  }

  ghost predicate FindExact(s: State, f: Find) {
    f.at.Found? ==> f.start < |s.parent| && Ascending(s.prio, s.parent) && f.at.res == Root(s.prio, s.parent, f.start)
  }

  lemma ShallowInvExact(s: State)
    requires ShallowInv(s)
    ensures FindsExact(s)
  {
    forall t | 0 <= t < |s.calls| && s.calls[t].Finding? ensures FindExact(s, s.calls[t].f) {
      assert CallOk(s.prio, s.parent, s.calls[t]);
    }
  }

  /** Positive half: while no merge runs and no vertex is deeper than two links, every `find_root`
      returns the root of its argument, under every schedule. */
  lemma {:induction false} ShallowFindsReturnRoots(s: State, sched: Schedule)
    requires ShallowInv(s) && MergeFree(sched)
    ensures ShallowInv(Exec(s, sched)) && FindsExact(Exec(s, sched))
    decreases |sched|
  {
    if sched == [] {
      ShallowInvExact(s);
    } else {
      ApplyShallow(s, sched[0].0, sched[0].1);
      ShallowFindsReturnRoots(Apply(s, sched[0].0, sched[0].1), sched[1..]);
    }
  }

  // ---------- the failing family ----------

  ghost predicate Reaches(s: State, s': State) {
    exists sched: Schedule :: MergeFree(sched) && Exec(s, sched) == s'
  }

  lemma {:induction false} ExecConcat(s: State, a: Schedule, b: Schedule)
    ensures Exec(s, a + b) == Exec(Exec(s, a), b)
    decreases |a|
  {
    if a == [] {
      assert a + b == b;
    } else if InRange(s) {
      ExecConcat(Apply(s, a[0].0, a[0].1), a[1..], b);
      assert (a + b)[1..] == a[1..] + b;
    } else {
      assert a + b != [];
    }
  }

  lemma ReachesThen(s: State, s1: State, t: nat, act: Action)
    requires InRange(s1) && Reaches(s, s1) && !act.BeginMerge?
    ensures Reaches(s, Apply(s1, t, act))
  {
    var a: Schedule :| MergeFree(a) && Exec(s, a) == s1;
    var b: Schedule := [(t, act)];
    ExecConcat(s, a, b);
    assert b[1..] == [];
    assert Exec(s1, b) == Exec(Apply(s1, t, act), b[1..]);
    assert MergeFree(a + b);
  }

  lemma ReachesRun(s: State, s1: State, t: nat, f: Find)
    requires InRange(s1) && Reaches(s, s1)
    requires t < |s1.calls| && s1.calls[t] == Finding(f) && FindInRange(|s1.parent|, f)
    ensures var (q, f') := FindStep(s1.parent, f, false);
            var s2 := s1.(parent := q, calls := s1.calls[t := Finding(f')]);
            InRange(s2) && Reaches(s, s2)
  {
    ReachesThen(s, s1, t, Run(false));
  }

  lemma ReachesBegin(s: State, s1: State, t: nat, u: nat)
    requires InRange(s1) && Reaches(s, s1)
    requires t < |s1.calls| && s1.calls[t].Idle? && u < |s1.parent|
    ensures var s2 := s1.(calls := s1.calls[t := Finding(Find(u, u, Test, 0))]);
            InRange(s2) && Reaches(s, s2)
  {
    ReachesThen(s, s1, t, BeginFind(u));
  }

  /** Negative half: as soon as one vertex is three links from its root, two concurrent `find_root` calls
      on it can make one of them return a vertex that is no root. */
  lemma DeepFindCanMiss(s: State, u: nat)
    requires Inv(s) && AllIdle(s) && |s.calls| >= 2 && u < |s.parent|
    requires s.parent[u] < |s.parent| && s.parent[s.parent[u]] < |s.parent|
    requires s.parent[s.parent[s.parent[u]]] != s.parent[s.parent[u]]
    ensures exists s' :: Reaches(s, s') && MissedRoot(s', u)
  {
    var n := |s.parent|;
    var p := s.parent[u];
    var g := s.parent[p];
    assert Above(s.prio, p, u) && Above(s.prio, g, p) && g != u && p != g;
    assert Exec(s, []) == s;
    assert MergeFree([]);
    DeepFindStart(s, u, p, g);
  }

  lemma DeepFindStart(s: State, u: nat, p: nat, g: nat)
    requires InRange(s) && AllIdle(s) && |s.calls| >= 2 && Reaches(s, s)
    requires u < |s.parent| && p < |s.parent| && g < |s.parent|
    requires s.parent[u] == p && s.parent[p] == g && s.parent[g] != g && g != u && p != g
    ensures exists s' :: Reaches(s, s') && MissedRoot(s', u)
  {
    var c := s.calls;
    // thread 0 loads p and then g = parent[p]
    ReachesBegin(s, s, 0, u);
    var s1 := s.(calls := c[0 := Finding(Find(u, u, Test, 0))]);
    ReachesRun(s, s1, 0, Find(u, u, Test, 0));
    var s2 := s.(calls := c[0 := Finding(Find(u, u, LeftParent(p), 0))]);
    assert s2.calls == s1.calls[0 := Finding(Find(u, u, LeftParent(p), 0))];
    ReachesRun(s, s2, 0, Find(u, u, LeftParent(p), 0));
    var c0 := c[0 := Finding(Find(u, u, LeftGrand(g), 0))];
    assert c0 == s2.calls[0 := Finding(Find(u, u, LeftGrand(g), 0))];
    DeepFindOvertaken(s, s.(calls := c0), u, p, g);
  }

  ghost predicate MissedRoot(s: State, u: nat) {
    && |s.calls| > 0 && s.calls[0].Finding?
    && s.calls[0].f.start == u && s.calls[0].f.at.Found?
    && s.calls[0].f.at.res < |s.parent|
    && s.parent[s.calls[0].f.at.res] != s.calls[0].f.at.res
  }

  // thread 1 halves u completely while thread 0 waits between its loads
  lemma DeepFindOvertaken(s: State, s3: State, u: nat, p: nat, g: nat)
    requires InRange(s3) && Reaches(s, s3)
    requires |s3.calls| >= 2 && s3.calls[0] == Finding(Find(u, u, LeftGrand(g), 0)) && s3.calls[1].Idle?
    requires u < |s3.parent| && p < |s3.parent| && g < |s3.parent|
    requires s3.parent[u] == p && s3.parent[p] == g && s3.parent[g] != g && g != u && p != g
    ensures exists s' :: Reaches(s, s') && MissedRoot(s', u)
  {
    var c := s3.calls;
    ReachesBegin(s, s3, 1, u);
    var s4 := s3.(calls := c[1 := Finding(Find(u, u, Test, 0))]);
    ReachesRun(s, s4, 1, Find(u, u, Test, 0));
    var s5 := s3.(calls := c[1 := Finding(Find(u, u, LeftParent(p), 0))]);
    assert s5.calls == s4.calls[1 := Finding(Find(u, u, LeftParent(p), 0))];
    ReachesRun(s, s5, 1, Find(u, u, LeftParent(p), 0));
    var s6 := s3.(calls := c[1 := Finding(Find(u, u, LeftGrand(g), 0))]);
    assert s6.calls == s5.calls[1 := Finding(Find(u, u, LeftGrand(g), 0))];
    ReachesRun(s, s6, 1, Find(u, u, LeftGrand(g), 0));
    var s7 := s3.(calls := c[1 := Finding(Find(u, u, Body, 0))]);
    assert s7.calls == s6.calls[1 := Finding(Find(u, u, Body, 0))];
    DeepFindHalved(s, s7, u, p, g);
  }

  lemma DeepFindHalved(s: State, s7: State, u: nat, p: nat, g: nat)
    requires InRange(s7) && Reaches(s, s7)
    requires |s7.calls| >= 2 && s7.calls[0] == Finding(Find(u, u, LeftGrand(g), 0))
    requires s7.calls[1] == Finding(Find(u, u, Body, 0))
    requires u < |s7.parent| && p < |s7.parent| && g < |s7.parent|
    requires s7.parent[u] == p && s7.parent[p] == g && s7.parent[g] != g && g != u && p != g
    ensures exists s' :: Reaches(s, s') && MissedRoot(s', u)
  {
    var c := s7.calls;
    ReachesRun(s, s7, 1, Find(u, u, Body, 0));
    var s8 := s7.(calls := c[1 := Finding(Find(u, u, BodyParent(p), 0))]);
    ReachesRun(s, s8, 1, Find(u, u, BodyParent(p), 0));
    var s9 := s7.(calls := c[1 := Finding(Find(u, u, BodyGrand(g), 0))]);
    assert s9.calls == s8.calls[1 := Finding(Find(u, u, BodyGrand(g), 0))];
    ReachesRun(s, s9, 1, Find(u, u, BodyGrand(g), 0));
    var s10 := s7.(parent := s7.parent[u := g], calls := c[1 := Finding(Find(u, u, Advance, 0))]);
    assert s10.calls == s9.calls[1 := Finding(Find(u, u, Advance, 0))];
    // thread 0 now sees parent[u] == g and leaves
    ReachesRun(s, s10, 0, Find(u, u, LeftGrand(g), 0));
    var s11 := s10.(calls := s10.calls[0 := Finding(Find(u, u, Leave, 0))]);
    ReachesRun(s, s11, 0, Find(u, u, Leave, 0));
    var s12 := s10.(calls := s11.calls[0 := Finding(Find(u, u, Found(g), 0))]);
    assert MissedRoot(s12, u);
  }

  lemma MissedIsInexact(s: State, u: nat)
    requires MissedRoot(s, u)
    ensures !FindsExact(s)
  {
    var f := s.calls[0].f;
    assert !FindExact(s, f);
  }

  ghost predicate AlwaysExact(s: State) {
    forall sched: Schedule :: MergeFree(sched) ==> FindsExact(Exec(s, sched))
  }

  lemma IdleShallowInv(s: State)
    requires Inv(s) && AllIdle(s) && Shallow(s.parent)
    ensures ShallowInv(s)
  {
  }

  lemma ShallowAlwaysExact(s: State)
    requires ShallowInv(s)
    ensures AlwaysExact(s)
  {
    forall sched: Schedule | MergeFree(sched) ensures FindsExact(Exec(s, sched)) {
      ShallowFindsReturnRoots(s, sched);
    }
  }

  lemma DeepSometimesInexact(s: State, u: nat)
    requires Inv(s) && AllIdle(s) && |s.calls| >= 2 && u < |s.parent|
    requires s.parent[u] < |s.parent| && s.parent[s.parent[u]] < |s.parent|
    requires s.parent[s.parent[s.parent[u]]] != s.parent[s.parent[u]]
    ensures !AlwaysExact(s)
  {
    DeepFindCanMiss(s, u);
    var s' :| Reaches(s, s') && MissedRoot(s', u);
    MissedIsInexact(s', u);
    var sched: Schedule :| MergeFree(sched) && Exec(s, sched) == s';
  }

  /** Concurrent label look-ups are exact under every schedule if and only if no vertex is deeper than two links. */
  lemma FindsExactIffShallow(s: State)
    requires Inv(s) && AllIdle(s) && |s.calls| >= 2
    ensures AlwaysExact(s) <==> Shallow(s.parent)
  {
    if Shallow(s.parent) {
      IdleShallowInv(s);
      ShallowAlwaysExact(s);
    } else {
      var u :| 0 <= u < |s.parent| && s.parent[s.parent[s.parent[u]]] != s.parent[s.parent[u]];
      DeepSometimesInexact(s, u);
    }
  }
}
