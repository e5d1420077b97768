/** Sets that lie in one queue each: the threads never touch each other's entries, so all answers are roots however deep
    the sets are. */
module LookUpsApart {
  import opened DisjointSets
  import opened LockFreeDsu
  import opened LookUps
  import opened LookUpsExact
  import opened LookUpRaces
  import opened LookUpRun
  import opened LookUpQueues

  /** No set is shared between two queues. */
  ghost predicate Apart(prio: seq<nat>, parent: seq<nat>, qs: Queues)
    requires Ascending(prio, parent)
  {
    forall t, s, a, b :: 0 <= t < |qs| && 0 <= s < |qs| && t != s && a in qs[t] && b in qs[s]
                         && a < |parent| && b < |parent| ==>
      !Same(prio, parent, a, b)
  }

  /** Every thread looks up a vertex of its own queue, undisturbed. */
  ghost predicate ApartInv(prio: seq<nat>, parent0: seq<nat>, qs: Queues, l: Look) {
    && LookInv(prio, parent0, l) && |l.slots| == |qs| && RootAnswers(prio, parent0, l.ans)
    && (forall t :: 0 <= t < |l.slots| && l.slots[t].Busy? ==> Undisturbed(prio, l.parent, qs[t], l.slots[t].f))
  }

  ghost predicate Undisturbed(prio: seq<nat>, parent: seq<nat>, q: seq<nat>, f: Find)
    requires Ascending(prio, parent)
  {
    f.start in q && BusyOk(prio, parent, f) && AloneOk(prio, parent, f)
  }

  /** A store in another set disturbs nothing. */
  lemma StoreElsewhere(prio: seq<nat>, parent: seq<nat>, now: seq<nat>, q: seq<nat>, f: Find, x: nat)
    requires SameRoots(prio, parent, now) && Undisturbed(prio, parent, q, f) && x < |parent|
    requires !Same(prio, parent, x, f.start)
    requires forall i :: 0 <= i < |parent| && i != x ==> now[i] == parent[i]
    ensures Undisturbed(prio, now, q, f)
  {
    BusyFrame(prio, parent, now, f);
    assert Same(prio, parent, f.start, f.u) && Same(prio, parent, f.u, parent[f.u]);
  }

  lemma FindWrites(parent: seq<nat>, f: Find, choice: bool)
    requires FindInRange(|parent|, f)
    ensures var (q, f') := FindStep(parent, f, choice);
            |q| == |parent| && forall i :: 0 <= i < |parent| && i != f.u ==> q[i] == parent[i]
  {
  }

  lemma ApartGo(prio: seq<nat>, parent0: seq<nat>, qs: Queues, l: Look, t: nat, f: Find, choice: bool)
    requires ApartInv(prio, parent0, qs, l) && Apart(prio, parent0, qs) && t < |l.slots| && l.slots[t] == Busy(f)
    requires FindInRange(|l.parent|, f)
    ensures var (q, f') := FindStep(l.parent, f, choice);
            ApartInv(prio, parent0, qs, l.(parent := q, slots := l.slots[t := Busy(f')]))
  {
    var (q, f') := FindStep(l.parent, f, choice);
    GoKeepsInv(prio, parent0, l, t, f, choice);
    AloneFindStep(prio, l.parent, f, choice);
    BusyStep(prio, l.parent, f, choice);
    FindWrites(l.parent, f, choice);
    forall s | 0 <= s < |l.slots| && s != t && l.slots[s].Busy? ensures Undisturbed(prio, q, qs[s], l.slots[s].f) {
      NotMine(prio, parent0, qs, l, t, s);
      StoreElsewhere(prio, l.parent, q, qs[s], l.slots[s].f, f.u);
    }
  }

  lemma NotMine(prio: seq<nat>, parent0: seq<nat>, qs: Queues, l: Look, t: nat, s: nat)
    requires ApartInv(prio, parent0, qs, l) && Apart(prio, parent0, qs) && t < |l.slots| && s < |l.slots| && t != s
    requires l.slots[t].Busy? && l.slots[s].Busy?
    ensures l.slots[t].f.u < |l.parent| && l.slots[s].f.start < |l.parent|
    ensures !Same(prio, l.parent, l.slots[t].f.u, l.slots[s].f.start)
  {
    var f, g := l.slots[t].f, l.slots[s].f;
    assert Undisturbed(prio, l.parent, qs[t], f) && Undisturbed(prio, l.parent, qs[s], g);
    assert !Same(prio, parent0, f.start, g.start);
  }

  lemma ApartBegin(prio: seq<nat>, parent0: seq<nat>, qs: Queues, l: Look, t: nat, v: nat)
    requires ApartInv(prio, parent0, qs, l) && t < |l.slots| && l.slots[t].Free? && v in l.todo && v in qs[t]
    requires v < |l.parent|
    ensures Fine(l) && ApartInv(prio, parent0, qs, LookStep(l, t, Begin(v)))
  {
    LookStepInv(prio, parent0, l, t, Begin(v));
    StartFindOk(prio, l.parent, v);
  }

  lemma AnswerIsRoot(prio: seq<nat>, parent0: seq<nat>, l: Look, q: seq<nat>, f: Find)
    requires SameRoots(prio, parent0, l.parent) && Undisturbed(prio, l.parent, q, f) && f.at.Found?
    ensures f.start < |parent0| && f.at.res == Root(prio, parent0, f.start)
  {
  }

  lemma ApartAnswer(prio: seq<nat>, parent0: seq<nat>, qs: Queues, l: Look, t: nat, choice: bool)
    requires ApartInv(prio, parent0, qs, l) && t < |l.slots| && l.slots[t].Busy? && l.slots[t].f.at.Found?
    ensures Fine(l) && ApartInv(prio, parent0, qs, LookStep(l, t, Go(choice)))
  {
    var f := l.slots[t].f;
    LookStepInv(prio, parent0, l, t, Go(choice));
    assert Undisturbed(prio, l.parent, qs[t], f);
    AnswerIsRoot(prio, parent0, l, qs[t], f);
    var l' := LookStep(l, t, Go(choice));
    assert l'.ans == l.ans[f.start := f.at.res] && l'.parent == l.parent && l'.slots == l.slots[t := Free];
    forall s | 0 <= s < |l'.slots| && l'.slots[s].Busy? ensures Undisturbed(prio, l'.parent, qs[s], l'.slots[s].f) {
      assert l'.slots[s] == l.slots[s];
    }
  }

  /** Threads begin only vertices of their own queues. */
  ghost predicate Keeps(qs: Queues, moves: Moves) {
    forall i :: 0 <= i < |moves| && moves[i].1.Begin? && moves[i].0 < |qs| ==> moves[i].1.v in qs[moves[i].0]
  }

  lemma ApartStep(prio: seq<nat>, parent0: seq<nat>, qs: Queues, l: Look, t: nat, mv: Move)
    requires ApartInv(prio, parent0, qs, l) && Apart(prio, parent0, qs)
    requires mv.Begin? && t < |qs| ==> mv.v in qs[t]
    ensures Fine(l) && ApartInv(prio, parent0, qs, LookStep(l, t, mv))
  {
    LookStepInv(prio, parent0, l, t, mv);
    if t < |l.slots| {
      match l.slots[t]
      case Free =>
        if mv.Begin? && mv.v in l.todo && mv.v < |l.parent| { ApartBegin(prio, parent0, qs, l, t, mv.v); }
      case Busy(f) =>
        if mv.Go? {
          if f.at.Found? { ApartAnswer(prio, parent0, qs, l, t, mv.choice); }
          else { ApartGo(prio, parent0, qs, l, t, f, mv.choice); }
        }
    }
  }

  lemma {:induction false} ApartExec(prio: seq<nat>, parent0: seq<nat>, qs: Queues, l: Look, moves: Moves)
    requires ApartInv(prio, parent0, qs, l) && Apart(prio, parent0, qs) && Keeps(qs, moves)
    ensures ApartInv(prio, parent0, qs, Looked(l, moves))
    decreases |moves|
  {
    if moves != [] {
      ApartStep(prio, parent0, qs, l, moves[0].0, moves[0].1);
      assert Keeps(qs, moves[1..]) by {
        forall i | 0 <= i < |moves[1..]| && moves[1..][i].1.Begin? && moves[1..][i].0 < |qs|
          ensures moves[1..][i].1.v in qs[moves[1..][i].0] { assert moves[1..][i] == moves[i + 1]; }
      }
      ApartExec(prio, parent0, qs, LookStep(l, moves[0].0, moves[0].1), moves[1..]);
    }
  }

  lemma {:induction false} BegunListed(moves: Moves, i: nat)
    requires i < |moves| && moves[i].1.Begin?
    ensures moves[i].1.v in Project(Begins(moves), moves[i].0)
    decreases |moves|
  {
    var t, v := moves[i].0, moves[i].1.v;
    var first, rest := BegunBy(moves[0].0, moves[0].1), moves[1..];
    assert Begins(moves) == first + Begins(rest);
    ProjectConcat(first, Begins(rest), t);
    if i == 0 {
      ProjectOne(t, v, t);
      assert v in Project(first, t);
    } else {
      assert moves[i] == rest[i - 1];
      BegunListed(rest, i - 1);
    }
  }

  /** If no set is shared between two queues, all answers are roots, whatever the depth and the interleaving. */
  lemma ApartExact(prio: seq<nat>, parent: seq<nat>, qs: Queues)
    requires Ascending(prio, parent) && Apart(prio, parent, qs)
    ensures AlwaysRootsBy(prio, parent, qs)
  {
    forall arr, after | CanAnswerBy(parent, qs, arr, after) ensures AllRoots(prio, parent, arr) {
      var moves: Moves :| Answers(parent, |qs|, moves, arr, after) && Follows(qs, Begins(moves));
      forall i | 0 <= i < |moves| && moves[i].1.Begin? && moves[i].0 < |qs| ensures moves[i].1.v in qs[moves[i].0] {
        BegunListed(moves, i);
        assert Project(Begins(moves), moves[i].0) == qs[moves[i].0];
      }
      StartInv(prio, parent, |qs|);
      ApartExec(prio, parent, qs, LookStart(parent, |qs|), moves);
    }
  }
}
