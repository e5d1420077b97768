/** Deep union-find arrays are real: merging 0-1, 1-2, ... with ascending priorities builds a single chain. */
module DeepForests {
  import opened Graphs
  import opened DisjointSets
  import opened LockFreeDsu
  import opened FindRaces

  ghost predicate Reachable(s: State, s': State) { exists sched: Schedule :: Exec(s, sched) == s' }

  lemma ReachableStep(s0: State, s: State, t: nat, act: Action)
    requires Reachable(s0, s) && InRange(s)
    ensures Reachable(s0, Apply(s, t, act))
  {
    var a: Schedule :| Exec(s0, a) == s;
    var b: Schedule := [(t, act)];
    ExecConcat(s0, a, b);
    assert b[1..] == [];
    assert Exec(s, b) == Exec(Apply(s, t, act), b[1..]);
  }

  /** Thread `t` is at call `c`. */
  function With(s: State, t: nat, c: Call): State
    requires t < |s.calls|
  {
    s.(calls := s.calls[t := c])
  }

  lemma ReachableRun(s0: State, s: State, t: nat, c: Call, s': State, c': Call)
    requires t < |s.calls| && InRange(With(s, t, c)) && Reachable(s0, With(s, t, c))
    requires Apply(With(s, t, c), t, Run(false)) == s'.(calls := With(s, t, c).calls[t := c']) && s'.calls == s.calls
    ensures Reachable(s0, With(s', t, c'))
  {
    ReachableStep(s0, With(s, t, c), t, Run(false));
    assert With(s, t, c).calls[t := c'] == s.calls[t := c'];
  }

  /** Looking up a root inside a merge takes four steps and finds it. */
  lemma SeekRoot(s0: State, s: State, t: nat, c: Call, r: nat, first: bool)
    requires InRange(s) && t < |s.calls| && c.Merging? && MergeInRange(|s.parent|, c.(at := Seek)) && r < |s.parent|
    requires s.parent[r] == r
    requires c.at == if first then SeekA(StartFind(r), false) else SeekB(StartFind(r), true)
    requires Reachable(s0, With(s, t, c))
    ensures Reachable(s0, With(s, t, c.(at := c.at.(f := Find(r, r, Found(r), 0)))))
  {
    var c1, c2 := c.(at := c.at.(f := Find(r, r, LeftParent(r), 0))), c.(at := c.at.(f := Find(r, r, LeftGrand(r), 0)));
    var c3, c4 := c.(at := c.at.(f := Find(r, r, Leave, 0))), c.(at := c.at.(f := Find(r, r, Found(r), 0)));
    ReachableRun(s0, s, t, c, s, c1);
    ReachableRun(s0, s, t, c1, s, c2);
    ReachableRun(s0, s, t, c2, s, c3);
    ReachableRun(s0, s, t, c3, s, c4);
  }

  /** An undisturbed merge of two roots hangs the lower one below the other. */
  lemma MergeRoots(s0: State, s: State, t: nat, x: nat, y: nat)
    requires InRange(s) && Reachable(s0, s) && t < |s.calls| && s.calls[t].Idle?
    requires x < |s.parent| && y < |s.parent| && s.parent[x] == x && s.parent[y] == y && Above(s.prio, y, x)
    ensures Reachable(s0, State(s.prio, s.parent[x := y], s.calls, s.forest + {Edge(x, y)}, s.asked + {Edge(x, y)}))
  {
    ReachableStep(s0, s, t, BeginMerge(x, y));
    var s1 := s.(asked := s.asked + {Edge(x, y)});
    var c := Merging(x, y, x, y, Seek);
    ReachableRun(s0, s1, t, c, s1, c.(at := SeekA(StartFind(x), false)));
    MergeSeek(s0, s1, t, x, y);
    MergeSwap(s0, s1, t, x, y);
  }

  lemma MergeSeek(s0: State, s: State, t: nat, x: nat, y: nat)
    requires InRange(s) && t < |s.calls| && Reachable(s0, With(s, t, Merging(x, y, x, y, SeekA(StartFind(x), false))))
    requires x < |s.parent| && y < |s.parent| && s.parent[x] == x && s.parent[y] == y
    ensures Reachable(s0, With(s, t, Merging(x, y, x, y, Compare)))
  {
    var c := Merging(x, y, x, y, Seek);
    SeekRoot(s0, s, t, c.(at := SeekA(StartFind(x), false)), x, true);
    ReachableRun(s0, s, t, c.(at := SeekA(Find(x, x, Found(x), 0), false)), s, c.(at := SeekB(StartFind(y), true)));
    SeekRoot(s0, s, t, c.(at := SeekB(StartFind(y), true)), y, false);
    ReachableRun(s0, s, t, c.(at := SeekB(Find(y, y, Found(y), 0), true)), s, c.(at := Compare));
  }

  lemma MergeSwap(s0: State, s: State, t: nat, x: nat, y: nat)
    requires InRange(s) && t < |s.calls| && s.calls[t].Idle? && Reachable(s0, With(s, t, Merging(x, y, x, y, Compare)))
    requires x < |s.parent| && y < |s.parent| && s.parent[x] == x && s.parent[y] == y && Above(s.prio, y, x)
    ensures Reachable(s0, s.(parent := s.parent[x := y], forest := s.forest + {Edge(x, y)}))
  {
    var c := Merging(x, y, y, x, Swap);
    assert OrderEdge(s.prio, x, y) == (y, x);
    ReachableRun(s0, s, t, Merging(x, y, x, y, Compare), s, c);
    var s2 := s.(parent := s.parent[x := y], forest := s.forest + {Edge(x, y)});
    var done := Merged(x, y, true);
    ReachableRun(s0, s, t, c, s2, done);
    ReachableStep(s0, With(s2, t, done), t, Return);
    assert With(s2, t, done).calls[t := Idle] == s2.calls;
  }

  /** Priorities 0, 1, 2, ... */
  function Rising(n: nat): (prio: seq<nat>)
    ensures |prio| == n && forall i :: 0 <= i < n ==> prio[i] == i
  {
    seq(n, i => i)
  }

  /** i -> i + 1 for every i below `k` other than `gap`; everything else is its own root. */
  function ChainTo(n: nat, k: nat, gap: nat): (parent: seq<nat>)
    ensures |parent| == n && forall i :: 0 <= i < n ==> parent[i] == if i < k && i != gap && i + 1 < n then i + 1 else i
  {
    seq(n, i requires 0 <= i => if i < k && i != gap && i + 1 < n then i + 1 else i)
  }

  function ChainEdges(k: nat, gap: nat): set<Edge> {
    if k == 0 then {} else ChainEdges(k - 1, gap) + if k - 1 == gap then {} else {Edge(k - 1, k)}
  }

  function ChainState(n: nat, threads: nat, k: nat, gap: nat): State {
    State(Rising(n), ChainTo(n, k, gap), seq(threads, i => Idle), ChainEdges(k, gap), ChainEdges(k, gap))
  }

  /** From the fresh union-find, one chain, or two with a gap between them, is reached by merging neighbours. */
  lemma {:induction false} ChainReachable(n: nat, threads: nat, k: nat, gap: nat)
    requires k < n && threads > 0
    ensures Reachable(Fresh(Rising(n), threads), ChainState(n, threads, k, gap))
  {
    var s0 := Fresh(Rising(n), threads);
    if k == 0 {
      assert Exec(s0, []) == s0;
      assert ChainTo(n, 0, gap) == seq(n, i => i);
    } else {
      ChainReachable(n, threads, k - 1, gap);
      if k - 1 == gap {
        assert ChainTo(n, k - 1, gap) == ChainTo(n, k, gap);
      } else {
        MergeRoots(s0, ChainState(n, threads, k - 1, gap), 0, k - 1, k);
        assert ChainTo(n, k - 1, gap)[k - 1 := k] == ChainTo(n, k, gap);
      }
    }
  }
}
