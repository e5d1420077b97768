/** Parallel look-ups of all vertices, each vertex once: what the threads do between Boruvka rounds to rebuild the merge
    list, and when a query reads its answer. The steps are those of `find_root` in `LockFreeDsu`; no merge runs. */
module LookUps {
  import opened DisjointSets
  import opened LockFreeDsu

  datatype Slot = Free | Busy(f: Find)

  /** `todo` are the vertices nobody has looked up yet, `ans` the answers so far. */
  datatype Look = Look(parent: seq<nat>, slots: seq<Slot>, todo: set<nat>, ans: map<nat, nat>)

  /** A free thread takes a vertex; a busy one performs its next atomic step or hands in its answer. */
  datatype Move = Begin(v: nat) | Go(choice: bool)

  type Moves = seq<(nat, Move)>

  predicate Fine(l: Look) {
    && (forall i :: 0 <= i < |l.parent| ==> l.parent[i] < |l.parent|)
    && (forall t :: 0 <= t < |l.slots| && l.slots[t].Busy? ==> FindInRange(|l.parent|, l.slots[t].f))
  }

  function LookStep(l: Look, t: nat, mv: Move): Look
    requires Fine(l)
  {
    if t >= |l.slots| then l
    else
      match l.slots[t]
      case Free =>
        if mv.Begin? && mv.v in l.todo && mv.v < |l.parent| then
          l.(slots := l.slots[t := Busy(StartFind(mv.v))], todo := l.todo - {mv.v})
        else l
      case Busy(f) =>
        if mv.Begin? then l
        else if f.at.Found? then l.(slots := l.slots[t := Free], ans := l.ans[f.start := f.at.res])
        else
          var (parent, f') := FindStep(l.parent, f, mv.choice);
          l.(parent := parent, slots := l.slots[t := Busy(f')])
  }

  function Looked(l: Look, moves: Moves): Look
    decreases |moves|
  {
    if moves == [] || !Fine(l) then l else Looked(LookStep(l, moves[0].0, moves[0].1), moves[1..])
  }

  function LookStart(parent: seq<nat>, threads: nat): Look {
    Look(parent, seq(threads, _ => Free), Upto(0, |parent|), map[])
  }

  predicate Finished(l: Look) {
    l.todo == {} && forall t :: 0 <= t < |l.slots| ==> l.slots[t].Free?
  }

  // ---------- what every step keeps ----------

  /** The answer of `v` lies in the set of `v`, and is `v` itself exactly if `v` is the root. */
  ghost predicate AnswerOk(prio: seq<nat>, parent: seq<nat>, v: nat, res: nat)
    requires Ascending(prio, parent)
  {
    v < |parent| && res < |parent| && Same(prio, parent, v, res) && (res == v <==> parent[v] == v)
  }

  ghost predicate BusyOk(prio: seq<nat>, parent: seq<nat>, f: Find)
    requires Ascending(prio, parent)
  {
    && FindOk(prio, parent, f) && AboveEq(prio, f.u, f.start)
    && (f.at.Found? ==> AnswerOk(prio, parent, f.start, f.at.res))
  }

  /** Who deals with vertex `v`: nobody yet, exactly one thread, or it is answered. */
  ghost predicate Handled(l: Look, v: nat) {
    || (v in l.todo && v !in l.ans)
    || (v !in l.todo && v in l.ans)
    || (v !in l.todo && v !in l.ans && InWork(l, v))
  }

  ghost predicate InWork(l: Look, v: nat) {
    exists t :: 0 <= t < |l.slots| && l.slots[t].Busy? && l.slots[t].f.start == v
  }

  /** Each vertex is looked up once: the vertices in work are distinct and neither waiting nor answered. */
  ghost predicate Once(l: Look) {
    && (forall v :: v in l.todo || v in l.ans ==> v < |l.parent|)
    && (forall v: nat :: v < |l.parent| ==> Handled(l, v))
    && (forall t :: 0 <= t < |l.slots| && l.slots[t].Busy? ==>
        l.slots[t].f.start !in l.todo && l.slots[t].f.start !in l.ans)
    && (forall t, s :: 0 <= t < s < |l.slots| && l.slots[t].Busy? && l.slots[s].Busy? ==>
        l.slots[t].f.start != l.slots[s].f.start)
  }

  ghost predicate LookInv(prio: seq<nat>, parent0: seq<nat>, l: Look) {
    && SameRoots(prio, parent0, l.parent)
    && (forall t :: 0 <= t < |l.slots| && l.slots[t].Busy? ==> BusyOk(prio, l.parent, l.slots[t].f))
    && (forall v :: v in l.ans ==> AnswerOk(prio, parent0, v, l.ans[v]))
    && Once(l)
  }

  lemma StartInv(prio: seq<nat>, parent: seq<nat>, threads: nat)
    requires Ascending(prio, parent)
    ensures LookInv(prio, parent, LookStart(parent, threads))
  {
    SameRootsRefl(prio, parent);
  }

  lemma AnswerFrame(prio: seq<nat>, a: seq<nat>, b: seq<nat>, v: nat, res: nat)
    requires SameRoots(prio, a, b) && AnswerOk(prio, a, v, res)
    ensures AnswerOk(prio, b, v, res)
  {
    assert v in RootSet(a) <==> v in RootSet(b);
  }

  lemma SameRootsCoarser(prio: seq<nat>, a: seq<nat>, b: seq<nat>)
    requires SameRoots(prio, a, b)
    ensures Coarser(prio, a, b)
  {
    forall u | 0 <= u < |a| && b[u] == u ensures a[u] == u { assert u in RootSet(b); }
  }

  lemma SameRootsSym(prio: seq<nat>, a: seq<nat>, b: seq<nat>)
    requires SameRoots(prio, a, b)
    ensures SameRoots(prio, b, a)
  {
  }

  lemma BusyFrame(prio: seq<nat>, a: seq<nat>, b: seq<nat>, f: Find)
    requires SameRoots(prio, a, b) && BusyOk(prio, a, f)
    ensures BusyOk(prio, b, f)
  {
    SameRootsCoarser(prio, a, b);
    FindOkStable(prio, a, b, f);
    if f.at.Found? { AnswerFrame(prio, a, b, f.start, f.at.res); }
  }

  /** One step of a look-up keeps all roots and its own promise. */
  lemma BusyStep(prio: seq<nat>, parent: seq<nat>, f: Find, choice: bool)
    requires Ascending(prio, parent) && BusyOk(prio, parent, f)
    ensures var (q, f') := FindStep(parent, f, choice);
            SameRoots(prio, parent, q) && BusyOk(prio, q, f') && f'.start == f.start
  {
    FindStepOk(prio, parent, f, choice);
    var u := f.u;
    if f.at.Advance? {
      if u != f.start { AboveTrans(prio, parent[u], u, f.start); }
    }
    if f.at.Leave? { LeaveAnswer(prio, parent, f); }
  }

  lemma LeaveAnswer(prio: seq<nat>, parent: seq<nat>, f: Find)
    requires Ascending(prio, parent) && BusyOk(prio, parent, f)
    ensures AnswerOk(prio, parent, f.start, parent[f.u])
  {
    var u := f.u;
    assert Root(prio, parent, parent[u]) == Root(prio, parent, u);
    if parent[u] != u && u != f.start { AboveTrans(prio, parent[u], u, f.start); }
  }

  lemma {:induction false} FineStep(prio: seq<nat>, parent0: seq<nat>, l: Look)
    requires LookInv(prio, parent0, l)
    ensures Fine(l)
  {
  }

  lemma BeginKeepsOnce(l: Look, t: nat, v: nat)
    requires Once(l) && t < |l.slots| && l.slots[t].Free? && v in l.todo
    ensures Once(l.(slots := l.slots[t := Busy(StartFind(v))], todo := l.todo - {v}))
  {
    var l' := l.(slots := l.slots[t := Busy(StartFind(v))], todo := l.todo - {v});
    assert Handled(l, v);
    forall w: nat | w < |l'.parent| ensures Handled(l', w) {
      assert Handled(l, w);
      if w == v {
        assert l'.slots[t].Busy? && l'.slots[t].f.start == v;
      } else if InWork(l, w) {
        var s :| 0 <= s < |l.slots| && l.slots[s].Busy? && l.slots[s].f.start == w;
        assert l'.slots[s] == l.slots[s];
      }
    }
  }

  lemma AnswerKeepsOnce(l: Look, t: nat, f: Find, res: nat)
    requires Once(l) && t < |l.slots| && l.slots[t] == Busy(f) && f.start < |l.parent|
    ensures Once(l.(slots := l.slots[t := Free], ans := l.ans[f.start := res]))
  {
    var l' := l.(slots := l.slots[t := Free], ans := l.ans[f.start := res]);
    forall w: nat | w < |l'.parent| ensures Handled(l', w) {
      assert Handled(l, w);
      if w != f.start && InWork(l, w) {
        var s :| 0 <= s < |l.slots| && l.slots[s].Busy? && l.slots[s].f.start == w;
        assert l'.slots[s] == l.slots[s];
      }
    }
  }

  lemma MoveKeepsOnce(l: Look, t: nat, f: Find, q: seq<nat>, f': Find)
    requires Once(l) && t < |l.slots| && l.slots[t] == Busy(f) && f'.start == f.start && |q| == |l.parent|
    ensures Once(l.(parent := q, slots := l.slots[t := Busy(f')]))
  {
    var l' := l.(parent := q, slots := l.slots[t := Busy(f')]);
    forall w: nat | w < |l'.parent| ensures Handled(l', w) {
      assert Handled(l, w);
      if InWork(l, w) {
        var s :| 0 <= s < |l.slots| && l.slots[s].Busy? && l.slots[s].f.start == w;
        assert l'.slots[s].Busy? && l'.slots[s].f.start == w;
      }
    }
  }

  lemma GoKeepsInv(prio: seq<nat>, parent0: seq<nat>, l: Look, t: nat, f: Find, choice: bool)
    requires LookInv(prio, parent0, l) && t < |l.slots| && l.slots[t] == Busy(f)
    ensures FindInRange(|l.parent|, f)
    ensures var (q, f') := FindStep(l.parent, f, choice);
        LookInv(prio, parent0, l.(parent := q, slots := l.slots[t := Busy(f')]))
  {
    BusyStep(prio, l.parent, f, choice);
    var (q, f') := FindStep(l.parent, f, choice);
    SameRootsTrans(prio, parent0, l.parent, q);
    MoveKeepsOnce(l, t, f, q, f');
    forall s | 0 <= s < |l.slots| && s != t && l.slots[s].Busy? ensures BusyOk(prio, q, l.slots[s].f) {
      BusyFrame(prio, l.parent, q, l.slots[s].f);
    }
  }

  lemma LookStepInv(prio: seq<nat>, parent0: seq<nat>, l: Look, t: nat, mv: Move)
    requires LookInv(prio, parent0, l)
    ensures Fine(l) && LookInv(prio, parent0, LookStep(l, t, mv))
  {
    FineStep(prio, parent0, l);
    if t < |l.slots| {
      match l.slots[t]
      case Free =>
        if mv.Begin? && mv.v in l.todo {
          BeginKeepsOnce(l, t, mv.v);
          StartFindOk(prio, l.parent, mv.v);
        }
      case Busy(f) =>
        if mv.Go? {
          if f.at.Found? {
            AnswerKeepsOnce(l, t, f, f.at.res);
            SameRootsSym(prio, parent0, l.parent);
            AnswerFrame(prio, l.parent, parent0, f.start, f.at.res);
          } else {
            GoKeepsInv(prio, parent0, l, t, f, mv.choice);
          }
        }
    }
  }

  lemma {:induction false} LookedInv(prio: seq<nat>, parent0: seq<nat>, l: Look, moves: Moves)
    requires LookInv(prio, parent0, l)
    ensures LookInv(prio, parent0, Looked(l, moves))
    decreases |moves|
  {
    if moves != [] {
      LookStepInv(prio, parent0, l, moves[0].0, moves[0].1);
      LookedInv(prio, parent0, LookStep(l, moves[0].0, moves[0].1), moves[1..]);
    }
  }

  /** Every vertex ends up answered, in its own set, and the roots answer themselves. */
  lemma FinishedAnswers(prio: seq<nat>, parent0: seq<nat>, l: Look, v: nat)
    requires LookInv(prio, parent0, l) && Finished(l) && v < |parent0|
    ensures v in l.ans && AnswerOk(prio, parent0, v, l.ans[v])
  {
    assert Handled(l, v);
  }
}
