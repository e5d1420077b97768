/** When look-ups of every vertex once are exact: always with one thread, and with several threads as long as no vertex
    is more than four links below its root. */
module LookUpsExact {
  import opened DisjointSets
  import opened LockFreeDsu
  import opened LookUps

  /** Links from `u` to its root. */
  ghost function Links(prio: seq<nat>, parent: seq<nat>, u: nat): (d: nat)
    requires Ascending(prio, parent) && u < |parent|
    ensures d == 0 <==> parent[u] == u
    decreases Height(prio, u)
  {
    if parent[u] == u then 0
    else
      HeightDecreases(prio, parent[u], u);
      1 + Links(prio, parent, parent[u])
  }

  /** No vertex is more than four links below its root. */
  ghost predicate AtMostFour(prio: seq<nat>, parent: seq<nat>)
    requires Ascending(prio, parent)
  {
    forall u :: 0 <= u < |parent| ==> Links(prio, parent, u) <= 4
  }

  ghost predicate RootAnswers(prio: seq<nat>, parent: seq<nat>, ans: map<nat, nat>)
    requires Ascending(prio, parent)
  {
    forall v :: v in ans ==> v < |parent| && ans[v] == Root(prio, parent, v)
  }

  // ---------- levels: links counted in the array the look-ups started from ----------

  /** `w` is at least `k` levels above `u`. */
  ghost predicate Higher(prio: seq<nat>, parent0: seq<nat>, w: nat, u: nat, k: nat)
    requires Ascending(prio, parent0)
  {
    u < |parent0| && w < |parent0| && Links(prio, parent0, w) + k <= Links(prio, parent0, u)
  }

  /** A link is the original one, or has been halved and then skips a level; roots stay. */
  ghost predicate LinkOk(prio: seq<nat>, parent0: seq<nat>, parent: seq<nat>, u: nat)
    requires Ascending(prio, parent0) && |parent| == |parent0| && u < |parent|
  {
    || parent[u] == parent0[u]
    || (parent0[u] != u && Higher(prio, parent0, parent[u], u, 2))
  }

  ghost predicate LinksOk(prio: seq<nat>, parent0: seq<nat>, parent: seq<nat>)
    requires Ascending(prio, parent0) && |parent| == |parent0|
  {
    forall u: nat :: u < |parent| ==> LinkOk(prio, parent0, parent, u)
  }

  ghost predicate FindLevels(prio: seq<nat>, parent0: seq<nat>, parent: seq<nat>, f: Find)
    requires Ascending(prio, parent0) && |parent| == |parent0| && FindInRange(|parent|, f)
  {
    && (f.u != f.start ==> Higher(prio, parent0, f.u, f.start, 2))
    && (Links(prio, parent0, f.u) <= 1 ==> LowPc(parent0[f.u], f.at))
    && match f.at
       case LeftParent(p) => parent0[f.u] != f.u ==> Higher(prio, parent0, p, f.u, 1)
       case BothParents(_, p) => parent0[f.u] != f.u ==> Higher(prio, parent0, p, f.u, 1)
       case BodyParent(p) => Higher(prio, parent0, p, f.u, 1)
       case BodyGrand(g) => Higher(prio, parent0, g, f.u, 2)
       case Advance => Higher(prio, parent0, parent[f.u], f.u, 2)
       case _ => true
  }

  /** On a root or a child of a root every load gives the root, so the loop body is never entered. */
  ghost predicate LowPc(root: nat, at: FindPc) {
    match at
    case LeftParent(p) => p == root
    case LeftGrand(q) => q == root
    case RightParent(r) => r == root
    case BothParents(r, p) => r == root && p == root
    case Body => false
    case BodyParent(_) => false
    case BodyGrand(_) => false
    case Advance => false
    case _ => true
  }

  lemma ParentHigher(prio: seq<nat>, parent0: seq<nat>, parent: seq<nat>, u: nat)
    requires SameRoots(prio, parent0, parent) && LinksOk(prio, parent0, parent) && u < |parent|
    ensures parent[u] == u <==> parent0[u] == u
    ensures parent[u] != u ==> Higher(prio, parent0, parent[u], u, 1)
    ensures Links(prio, parent0, u) <= 1 ==>
        parent[u] == parent0[u] && parent[parent0[u]] == parent0[u] && parent0[parent0[u]] == parent0[u]
  {
    assert u in RootSet(parent) <==> u in RootSet(parent0);
    assert parent0[u] in RootSet(parent) <==> parent0[u] in RootSet(parent0);
    assert LinkOk(prio, parent0, parent, u);
  }

  /** A step keeps the levels; the only write halves a link of the vertex the look-up stands on. */
  lemma StepLevels(prio: seq<nat>, parent0: seq<nat>, parent: seq<nat>, f: Find, choice: bool)
    requires SameRoots(prio, parent0, parent) && LinksOk(prio, parent0, parent) && BusyOk(prio, parent, f)
    requires FindLevels(prio, parent0, parent, f)
    ensures var (q, f') := FindStep(parent, f, choice);
            |q| == |parent| && LinksOk(prio, parent0, q) && FindInRange(|q|, f') && FindLevels(prio, parent0, q, f')
  {
    if f.at.BodyGrand? {
      WriteLevels(prio, parent0, parent, f.u, f.at.g);
    } else if f.at.Body? || f.at.BodyParent? || f.at.Advance? {
      BodyLevels(prio, parent0, parent, f, choice);
    } else {
      TestLevels(prio, parent0, parent, f, choice);
    }
  }

  lemma WriteLevels(prio: seq<nat>, parent0: seq<nat>, parent: seq<nat>, u: nat, g: nat)
    requires Ascending(prio, parent0) && |parent| == |parent0| && LinksOk(prio, parent0, parent)
    requires Higher(prio, parent0, g, u, 2)
    ensures LinksOk(prio, parent0, parent[u := g])
  {
    var q := parent[u := g];
    forall w: nat | w < |q| ensures LinkOk(prio, parent0, q, w) { assert LinkOk(prio, parent0, parent, w); }
  }

  lemma BodyLevels(prio: seq<nat>, parent0: seq<nat>, parent: seq<nat>, f: Find, choice: bool)
    requires SameRoots(prio, parent0, parent) && LinksOk(prio, parent0, parent) && BusyOk(prio, parent, f)
    requires FindLevels(prio, parent0, parent, f) && (f.at.Body? || f.at.BodyParent? || f.at.Advance?)
    ensures var (q, f') := FindStep(parent, f, choice);
            q == parent && FindInRange(|q|, f') && FindLevels(prio, parent0, parent, f')
  {
    ParentHigher(prio, parent0, parent, f.u);
    if f.at.BodyParent? { ParentHigher(prio, parent0, parent, f.at.p); }
    if f.at.Advance? { AdvanceLevels(prio, parent0, parent, f); }
  }

  lemma TestLevels(prio: seq<nat>, parent0: seq<nat>, parent: seq<nat>, f: Find, choice: bool)
    requires SameRoots(prio, parent0, parent) && LinksOk(prio, parent0, parent) && BusyOk(prio, parent, f)
    requires FindLevels(prio, parent0, parent, f) && !f.at.Body? && !f.at.BodyParent? && !f.at.Advance?
    requires !f.at.BodyGrand?
    ensures var (q, f') := FindStep(parent, f, choice);
            q == parent && FindInRange(|q|, f') && FindLevels(prio, parent0, parent, f')
  {
    ParentHigher(prio, parent0, parent, f.u);
  }

  lemma AdvanceLevels(prio: seq<nat>, parent0: seq<nat>, parent: seq<nat>, f: Find)
    requires SameRoots(prio, parent0, parent) && BusyOk(prio, parent, f) && FindLevels(prio, parent0, parent, f)
    requires f.at.Advance?
    ensures Higher(prio, parent0, parent[f.u], f.start, 2)
  {
  }

  /** Steps of other look-ups keep the levels of this one. */
  lemma OtherLevels(prio: seq<nat>, parent0: seq<nat>, parent: seq<nat>, q: seq<nat>, f: Find)
    requires Ascending(prio, parent0) && |q| == |parent| == |parent0| && FindInRange(|parent|, f)
    requires FindLevels(prio, parent0, parent, f)
    requires q[f.u] == parent[f.u] || Higher(prio, parent0, q[f.u], f.u, 2)
    ensures FindLevels(prio, parent0, q, f)
  {
  }

  // ---------- several threads, at most four links ----------

  /** What a look-up holds when nobody else can stand on its vertex, three or more links below the root. */
  ghost predicate HighPc(first: nat, now: nat, at: FindPc) {
    && (at.Advance? || now == first)
    && match at
       case LeftParent(p) => p == first
       case LeftGrand(q) => q != first
       case RightParent(r) => r == first
       case BothParents(r, p) => r == first && p == first
       case Leave => false
       case Found(_) => false
       case _ => true
  }

  /** What a look-up holds within two links of the root, whatever the others do. */
  ghost predicate NearPc(root: nat, now: nat, at: FindPc) {
    match at
    case LeftGrand(q) => q == root
    case RightParent(r) => r == root ==> now == root
    case BothParents(r, _) => r == root ==> now == root
    case Leave => now == root
    case Found(res) => res == root
    case _ => true
  }

  ghost predicate FourOk(prio: seq<nat>, parent0: seq<nat>, parent: seq<nat>, f: Find)
    requires Ascending(prio, parent0) && |parent| == |parent0| && FindInRange(|parent|, f)
  {
    && FindLevels(prio, parent0, parent, f)
    && if Links(prio, parent0, f.u) >= 3 then HighPc(parent0[f.u], parent[f.u], f.at)
       else NearPc(Root(prio, parent0, f.start), parent[f.u], f.at)
  }

  lemma NearParent(prio: seq<nat>, parent0: seq<nat>, parent: seq<nat>, p: nat)
    requires SameRoots(prio, parent0, parent) && LinksOk(prio, parent0, parent) && p < |parent|
    requires Links(prio, parent0, p) <= 1
    ensures parent[p] == Root(prio, parent0, p)
  {
    ParentHigher(prio, parent0, parent, p);
    assert Root(prio, parent0, parent0[p]) == parent0[p];
  }

  lemma NearStep(prio: seq<nat>, parent0: seq<nat>, parent: seq<nat>, f: Find, choice: bool)
    requires SameRoots(prio, parent0, parent) && LinksOk(prio, parent0, parent) && BusyOk(prio, parent, f)
    requires FourOk(prio, parent0, parent, f) && Links(prio, parent0, f.u) <= 2
    ensures var (q, f') := FindStep(parent, f, choice);
        |q| == |parent| && FindInRange(|q|, f') && FourOk(prio, parent0, q, f')
  {
    StepLevels(prio, parent0, parent, f, choice);
    if f.at.LeftParent? || f.at.BothParents? {
      NearLoaded(prio, parent0, parent, f, f.at.p);
    } else if f.at.Advance? {
      AdvanceLevels(prio, parent0, parent, f);
    }
  }

  lemma NearLoaded(prio: seq<nat>, parent0: seq<nat>, parent: seq<nat>, f: Find, p: nat)
    requires SameRoots(prio, parent0, parent) && LinksOk(prio, parent0, parent) && FindOk(prio, parent, f)
    requires FindLevels(prio, parent0, parent, f) && Links(prio, parent0, f.u) <= 2
    requires (f.at.LeftParent? || f.at.BothParents?) && f.at.p == p
    ensures parent[p] == Root(prio, parent0, f.start)
  {
    NearParent(prio, parent0, parent, p);
    assert Root(prio, parent, p) == Root(prio, parent, f.u) == Root(prio, parent, f.start);
  }

  lemma HighStep(prio: seq<nat>, parent0: seq<nat>, parent: seq<nat>, f: Find, choice: bool)
    requires SameRoots(prio, parent0, parent) && LinksOk(prio, parent0, parent) && BusyOk(prio, parent, f)
    requires AtMostFour(prio, parent0) && FourOk(prio, parent0, parent, f) && Links(prio, parent0, f.u) >= 3
    ensures var (q, f') := FindStep(parent, f, choice);
        |q| == |parent| && FindInRange(|q|, f') && FourOk(prio, parent0, q, f')
  {
    StepLevels(prio, parent0, parent, f, choice);
    var first := parent0[f.u];
    assert Links(prio, parent0, first) >= 2;
    ParentHigher(prio, parent0, parent, first);
    if f.at.Advance? { AdvanceLevels(prio, parent0, parent, f); }
  }

  /** Another look-up's write leaves this one alone: it is at another vertex, or puts the root there. */
  lemma FourFrame(prio: seq<nat>, parent0: seq<nat>, parent: seq<nat>, f: Find, u: nat, g: nat)
    requires SameRoots(prio, parent0, parent) && FindOk(prio, parent, f) && FourOk(prio, parent0, parent, f)
    requires Higher(prio, parent0, g, u, 2) && Same(prio, parent0, u, g)
    requires Links(prio, parent0, u) >= 3 ==> u != f.u
    ensures FourOk(prio, parent0, parent[u := g], f)
  {
    OtherLevels(prio, parent0, parent, parent[u := g], f);
    if u == f.u {
      assert parent0[g] == g;
      assert Root(prio, parent0, g) == g;
      assert Root(prio, parent, f.u) == Root(prio, parent, f.start);
    }
  }

  ghost predicate BusyFour(prio: seq<nat>, parent0: seq<nat>, parent: seq<nat>, slots: seq<Slot>)
    requires Ascending(prio, parent0) && |parent| == |parent0|
  {
    forall t :: 0 <= t < |slots| && slots[t].Busy? ==>
        FindInRange(|parent|, slots[t].f) && FourOk(prio, parent0, parent, slots[t].f)
  }

  /** Vertices three or more links down that nobody has looked up are untouched. */
  ghost predicate TodoFour(prio: seq<nat>, parent0: seq<nat>, parent: seq<nat>, todo: set<nat>)
    requires Ascending(prio, parent0) && |parent| == |parent0|
  {
    forall v :: v in todo && v < |parent| && Links(prio, parent0, v) >= 3 ==> parent[v] == parent0[v]
  }

  ghost predicate FourInv(prio: seq<nat>, parent0: seq<nat>, l: Look) {
    && LookInv(prio, parent0, l) && AtMostFour(prio, parent0) && LinksOk(prio, parent0, l.parent)
    && BusyFour(prio, parent0, l.parent, l.slots) && TodoFour(prio, parent0, l.parent, l.todo)
    && RootAnswers(prio, parent0, l.ans)
  }

  lemma FourAtHome(prio: seq<nat>, parent0: seq<nat>, parent: seq<nat>, f: Find)
    requires Ascending(prio, parent0) && |parent| == |parent0| && FindInRange(|parent|, f)
    requires AtMostFour(prio, parent0) && FindLevels(prio, parent0, parent, f)
    ensures Links(prio, parent0, f.u) >= 3 ==> f.u == f.start
  {
  }

  lemma SameBack(prio: seq<nat>, parent0: seq<nat>, parent: seq<nat>, x: nat, y: nat)
    requires SameRoots(prio, parent0, parent) && x < |parent| && y < |parent| && Same(prio, parent, x, y)
    ensures Same(prio, parent0, x, y)
  {
  }

  lemma FourOther(prio: seq<nat>, parent0: seq<nat>, parent: seq<nat>, f: Find, h: Find, choice: bool)
    requires SameRoots(prio, parent0, parent) && AtMostFour(prio, parent0) && BusyOk(prio, parent, f)
    requires BusyOk(prio, parent, h)
    requires FourOk(prio, parent0, parent, f) && FourOk(prio, parent0, parent, h) && f.start != h.start
    ensures |FindStep(parent, f, choice).0| == |parent|
    ensures FourOk(prio, parent0, FindStep(parent, f, choice).0, h)
  {
    FourAtHome(prio, parent0, parent, f);
    FourAtHome(prio, parent0, parent, h);
    if f.at.BodyGrand? {
      SameBack(prio, parent0, parent, f.u, f.at.g);
      FourFrame(prio, parent0, parent, h, f.u, f.at.g);
    }
  }

  lemma OwnFour(prio: seq<nat>, parent0: seq<nat>, parent: seq<nat>, f: Find, choice: bool)
    requires SameRoots(prio, parent0, parent) && LinksOk(prio, parent0, parent) && BusyOk(prio, parent, f)
    requires AtMostFour(prio, parent0) && FourOk(prio, parent0, parent, f)
    ensures var (q, f') := FindStep(parent, f, choice);
        |q| == |parent| && FindInRange(|q|, f') && FourOk(prio, parent0, q, f')
  {
    if Links(prio, parent0, f.u) >= 3 { HighStep(prio, parent0, parent, f, choice); }
    else { NearStep(prio, parent0, parent, f, choice); }
  }

  lemma GoBusyFour(prio: seq<nat>, parent0: seq<nat>, l: Look, t: nat, f: Find, q: seq<nat>, f': Find, choice: bool)
    requires FourInv(prio, parent0, l) && t < |l.slots| && l.slots[t] == Busy(f) && FindInRange(|l.parent|, f)
    requires (q, f') == FindStep(l.parent, f, choice) && |q| == |l.parent|
    ensures BusyFour(prio, parent0, q, l.slots[t := Busy(f')])
  {
    assert BusyOk(prio, l.parent, f);
    OwnFour(prio, parent0, l.parent, f, choice);
    forall s | 0 <= s < |l.slots| && s != t && l.slots[s].Busy?
      ensures FindInRange(|q|, l.slots[s].f) && FourOk(prio, parent0, q, l.slots[s].f)
    {
      assert BusyOk(prio, l.parent, l.slots[s].f);
      FourOther(prio, parent0, l.parent, f, l.slots[s].f, choice);
    }
  }

  lemma GoTodoFour(prio: seq<nat>, parent0: seq<nat>, l: Look, t: nat, f: Find, choice: bool)
    requires FourInv(prio, parent0, l) && t < |l.slots| && l.slots[t] == Busy(f) && FindInRange(|l.parent|, f)
    ensures |FindStep(l.parent, f, choice).0| == |l.parent|
    ensures TodoFour(prio, parent0, FindStep(l.parent, f, choice).0, l.todo)
  {
    FourAtHome(prio, parent0, l.parent, f);
  }

  lemma FourGo(prio: seq<nat>, parent0: seq<nat>, l: Look, t: nat, f: Find, choice: bool)
    requires FourInv(prio, parent0, l) && t < |l.slots| && l.slots[t] == Busy(f) && FindInRange(|l.parent|, f)
    ensures var (q, f') := FindStep(l.parent, f, choice);
        FourInv(prio, parent0, l.(parent := q, slots := l.slots[t := Busy(f')]))
  {
    var (q, f') := FindStep(l.parent, f, choice);
    assert BusyOk(prio, l.parent, f) && FourOk(prio, parent0, l.parent, f);
    GoKeepsInv(prio, parent0, l, t, f, choice);
    StepLevels(prio, parent0, l.parent, f, choice);
    GoTodoFour(prio, parent0, l, t, f, choice);
    GoBusyFour(prio, parent0, l, t, f, q, f', choice);
  }

  lemma FourBegin(prio: seq<nat>, parent0: seq<nat>, l: Look, t: nat, v: nat)
    requires FourInv(prio, parent0, l) && t < |l.slots| && l.slots[t].Free? && v in l.todo && v < |l.parent|
    ensures BusyFour(prio, parent0, l.parent, l.slots[t := Busy(StartFind(v))])
  {
  }

  lemma FourStep(prio: seq<nat>, parent0: seq<nat>, l: Look, t: nat, mv: Move)
    requires FourInv(prio, parent0, l)
    ensures Fine(l) && FourInv(prio, parent0, LookStep(l, t, mv))
  {
    LookStepInv(prio, parent0, l, t, mv);
    if t < |l.slots| {
      match l.slots[t]
      case Free => if mv.Begin? && mv.v in l.todo { FourBegin(prio, parent0, l, t, mv.v); }
      case Busy(f) =>
        if mv.Go? {
          if f.at.Found? { FourAnswer(prio, parent0, l, t, f); } else { FourGo(prio, parent0, l, t, f, mv.choice); }
        }
    }
  }

  lemma FourAnswer(prio: seq<nat>, parent0: seq<nat>, l: Look, t: nat, f: Find)
    requires FourInv(prio, parent0, l) && t < |l.slots| && l.slots[t] == Busy(f) && f.at.Found?
    ensures RootAnswers(prio, parent0, l.ans[f.start := f.at.res])
    ensures BusyFour(prio, parent0, l.parent, l.slots[t := Free])
  {
  }

  lemma {:induction false} FourExec(prio: seq<nat>, parent0: seq<nat>, l: Look, moves: Moves)
    requires FourInv(prio, parent0, l)
    ensures FourInv(prio, parent0, Looked(l, moves))
    decreases |moves|
  {
    if moves != [] {
      FourStep(prio, parent0, l, moves[0].0, moves[0].1);
      FourExec(prio, parent0, LookStep(l, moves[0].0, moves[0].1), moves[1..]);
    }
  }

  lemma FourStart(prio: seq<nat>, parent: seq<nat>, threads: nat)
    requires Ascending(prio, parent) && AtMostFour(prio, parent)
    ensures FourInv(prio, parent, LookStart(parent, threads))
  {
    StartInv(prio, parent, threads);
  }

  // ---------- one thread ----------

  /** Nobody interferes: what was loaded is still there. */
  ghost predicate AloneOk(prio: seq<nat>, parent: seq<nat>, f: Find)
    requires Ascending(prio, parent) && FindInRange(|parent|, f)
  {
    var p0 := parent[f.u];
    match f.at
    case LeftParent(p) => p == p0
    case LeftGrand(q) => q == parent[p0]
    case RightParent(r) => r == p0
    case BothParents(r, p) => r == p0 && p == p0
    case Leave => parent[p0] == p0
    case Found(res) => res == Root(prio, parent, f.start)
    case _ => true
  }

  ghost predicate AloneInv(prio: seq<nat>, parent0: seq<nat>, l: Look) {
    && LookInv(prio, parent0, l) && |l.slots| == 1
    && (l.slots[0].Busy? ==> AloneOk(prio, l.parent, l.slots[0].f))
    && RootAnswers(prio, parent0, l.ans)
  }

  lemma AloneFindStep(prio: seq<nat>, parent: seq<nat>, f: Find, choice: bool)
    requires Ascending(prio, parent) && BusyOk(prio, parent, f) && AloneOk(prio, parent, f)
    ensures var (q, f') := FindStep(parent, f, choice);
        Ascending(prio, q) && FindInRange(|q|, f') && AloneOk(prio, q, f')
  {
    BusyStep(prio, parent, f, choice);
    if f.at.Leave? {
      assert Root(prio, parent, parent[f.u]) == parent[f.u];
      assert Root(prio, parent, parent[f.u]) == Root(prio, parent, f.u);
    }
  }

  lemma AloneGo(prio: seq<nat>, parent0: seq<nat>, l: Look, f: Find, choice: bool)
    requires AloneInv(prio, parent0, l) && l.slots[0] == Busy(f) && FindInRange(|l.parent|, f)
    ensures var (q, f') := FindStep(l.parent, f, choice);
        AloneInv(prio, parent0, l.(parent := q, slots := l.slots[0 := Busy(f')]))
  {
    GoKeepsInv(prio, parent0, l, 0, f, choice);
    AloneFindStep(prio, l.parent, f, choice);
  }

  lemma AloneStep(prio: seq<nat>, parent0: seq<nat>, l: Look, t: nat, mv: Move)
    requires AloneInv(prio, parent0, l)
    ensures Fine(l) && AloneInv(prio, parent0, LookStep(l, t, mv))
  {
    LookStepInv(prio, parent0, l, t, mv);
    if t == 0 && l.slots[0].Busy? && mv.Go? && !l.slots[0].f.at.Found? {
      AloneGo(prio, parent0, l, l.slots[0].f, mv.choice);
    }
  }

  lemma {:induction false} AloneExec(prio: seq<nat>, parent0: seq<nat>, l: Look, moves: Moves)
    requires AloneInv(prio, parent0, l)
    ensures AloneInv(prio, parent0, Looked(l, moves))
    decreases |moves|
  {
    if moves != [] {
      AloneStep(prio, parent0, l, moves[0].0, moves[0].1);
      AloneExec(prio, parent0, LookStep(l, moves[0].0, moves[0].1), moves[1..]);
    }
  }

  /** Positive half: with one thread, or no vertex deeper than four links, all answers are roots. */
  lemma ExactWhenShallow(prio: seq<nat>, parent: seq<nat>, threads: nat, moves: Moves)
    requires Ascending(prio, parent) && (threads == 1 || AtMostFour(prio, parent))
    ensures RootAnswers(prio, parent, Looked(LookStart(parent, threads), moves).ans)
  {
    if threads == 1 {
      StartInv(prio, parent, threads);
      AloneExec(prio, parent, LookStart(parent, threads), moves);
    } else {
      FourStart(prio, parent, threads);
      FourExec(prio, parent, LookStart(parent, threads), moves);
    }
  }
}
