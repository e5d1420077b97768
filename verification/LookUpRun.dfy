/** Running the look-ups of all vertices to the end, under a scheduler that is free to choose at every step. */
module LookUpRun {
  import opened DisjointSets
  import opened LockFreeDsu
  import opened LookUps
  import opened LookUpsExact
  import opened LookUpRaces

  // ---------- the look-ups end ----------

  function PcWeight(at: FindPc): nat {
    match at
    case Test => 9
    case LeftParent(_) => 8
    case RightParent(_) => 8
    case LeftGrand(_) => 7
    case BothParents(_, _) => 7
    case Body => 6
    case BodyParent(_) => 5
    case BodyGrand(_) => 4
    case Advance => 3
    case Leave => 2
    case Found(_) => 1
  }

  ghost function SlotWeight(prio: seq<nat>, s: Slot): nat {
    if s.Busy? && s.f.u < |prio| then 10 * Height(prio, s.f.u) + PcWeight(s.f.at) else 0
  }

  ghost function SlotsWeight(prio: seq<nat>, slots: seq<Slot>, k: nat): nat
    requires k <= |slots|
  {
    if k == 0 then 0 else SlotsWeight(prio, slots, k - 1) + SlotWeight(prio, slots[k - 1])
  }

  ghost function Times(c: nat, x: nat): nat { if c == 0 then 0 else Times(c - 1, x) + x }

  /** Bounds the steps that are left. */
  ghost function Work(prio: seq<nat>, l: Look): nat {
    SlotsWeight(prio, l.slots, |l.slots|) + Times(|l.todo|, 10 * |prio| + 10)
  }

  lemma {:induction false} WeightOfChange(prio: seq<nat>, slots: seq<Slot>, t: nat, s: Slot, k: nat)
    requires t < |slots| && k <= |slots|
    ensures SlotsWeight(prio, slots[t := s], k) + (if t < k then SlotWeight(prio, slots[t]) else 0)
         == SlotsWeight(prio, slots, k) + (if t < k then SlotWeight(prio, s) else 0)
  {
    if k > 0 { WeightOfChange(prio, slots, t, s, k - 1); }
  }

  lemma FindLighter(prio: seq<nat>, parent: seq<nat>, f: Find, choice: bool)
    requires Ascending(prio, parent) && FindOk(prio, parent, f) && !f.at.Found?
    ensures var (q, f') := FindStep(parent, f, choice); SlotWeight(prio, Busy(f')) < SlotWeight(prio, Busy(f))
  {
    if f.at.Advance? { HeightDecreases(prio, parent[f.u], f.u); }
  }

  /** A move that the scheduler may pick: a busy thread goes on, a free one takes a vertex. */
  predicate Possible(l: Look, t: nat, mv: Move) {
    t < |l.slots| && if l.slots[t].Busy? then mv.Go? else mv.Begin? && mv.v in l.todo
  }

  lemma MoveLighter(prio: seq<nat>, parent0: seq<nat>, l: Look, t: nat, mv: Move)
    requires LookInv(prio, parent0, l) && Possible(l, t, mv)
    ensures Fine(l) && Work(prio, LookStep(l, t, mv)) < Work(prio, l)
  {
    FineStep(prio, parent0, l);
    match l.slots[t]
    case Free =>
      HeightBounded(prio, mv.v);
      WeightOfChange(prio, l.slots, t, Busy(StartFind(mv.v)), |l.slots|);
      assert |l.todo - {mv.v}| == |l.todo| - 1;
    case Busy(f) =>
      if f.at.Found? {
        WeightOfChange(prio, l.slots, t, Free, |l.slots|);
      } else {
        FindLighter(prio, l.parent, f, mv.choice);
        WeightOfChange(prio, l.slots, t, Busy(FindStep(l.parent, f, mv.choice).1), |l.slots|);
      }
  }

  lemma LookedSnoc(l0: Look, moves: Moves, l: Look, t: nat, mv: Move)
    requires Looked(l0, moves) == l && Fine(l)
    ensures Looked(l0, moves + [(t, mv)]) == LookStep(l, t, mv)
  {
    var b: Moves := [(t, mv)];
    LookedConcat(l0, moves, b);
    assert b[1..] == [];
    assert Looked(l, b) == Looked(LookStep(l, t, mv), b[1..]);
  }

  // ---------- running them ----------

  method PickMove(l: Look) returns (t: nat, mv: Move)
    requires |l.slots| > 0 && !Finished(l)
    ensures Possible(l, t, mv)
  {
    t :| 0 <= t < |l.slots| && (l.slots[t].Busy? || l.todo != {});
    if l.slots[t].Busy? {
      var choice: bool := *;
      mv := Go(choice);
    } else {
      var v :| v in l.todo;
      mv := Begin(v);
    }
  }

  /** Answers in the sets of their vertices; exactly the roots answer themselves. */
  ghost predicate SetAnswers(prio: seq<nat>, parent: seq<nat>, arr: seq<nat>)
    requires Ascending(prio, parent)
  {
    |arr| == |parent| && forall v :: 0 <= v < |arr| ==> AnswerOk(prio, parent, v, arr[v])
  }

  ghost predicate AllRoots(prio: seq<nat>, parent: seq<nat>, arr: seq<nat>)
    requires Ascending(prio, parent)
  {
    |arr| == |parent| && forall v :: 0 <= v < |arr| ==> arr[v] == Root(prio, parent, v)
  }

  /** Look up every vertex once. Any assignment to threads, any interleaving: the answers lie in the right sets and no
      root changes; with one thread, or at most four links everywhere, all answers are roots. */
  method LookUpAll(prio: seq<nat>, parent: seq<nat>, threads: nat) returns (arr: seq<nat>, after: seq<nat>)
    requires Ascending(prio, parent) && threads > 0
    ensures CanAnswer(parent, threads, arr, after)
    ensures SameRoots(prio, parent, after) && SetAnswers(prio, parent, arr)
    ensures threads == 1 || AtMostFour(prio, parent) ==> AllRoots(prio, parent, arr)
  {
    var l := LookStart(parent, threads);
    ghost var moves: Moves := [];
    StartInv(prio, parent, threads);
    while !Finished(l)
      invariant LookInv(prio, parent, l) && |l.slots| == threads && Looked(LookStart(parent, threads), moves) == l
      decreases Work(prio, l)
    {
      var t, mv := PickMove(l);
      LookStepInv(prio, parent, l, t, mv);
      MoveLighter(prio, parent, l, t, mv);
      LookedSnoc(LookStart(parent, threads), moves, l, t, mv);
      moves := moves + [(t, mv)];
      l := LookStep(l, t, mv);
    }
    arr := ReadAnswers(prio, parent, l);
    after := l.parent;
    assert Answers(parent, threads, moves, arr, after);
    if threads == 1 || AtMostFour(prio, parent) { ExactWhenShallow(prio, parent, threads, moves); }
  }

  method ReadAnswers(prio: seq<nat>, parent: seq<nat>, l: Look) returns (arr: seq<nat>)
    requires LookInv(prio, parent, l) && Finished(l)
    ensures SetAnswers(prio, parent, arr) && forall v :: 0 <= v < |parent| ==> v in l.ans && arr[v] == l.ans[v]
  {
    forall v: nat | v < |parent|
      ensures v in l.ans && AnswerOk(prio, parent, v, l.ans[v])
    {
      FinishedAnswers(prio, parent, l, v);
    }
    arr := seq(|parent|, v requires 0 <= v < |parent| && v in l.ans => l.ans[v]);
  }

  /** What the answers of every run promise. */
  lemma CanAnswerFacts(prio: seq<nat>, parent: seq<nat>, threads: nat, arr: seq<nat>, after: seq<nat>)
    requires Ascending(prio, parent) && CanAnswer(parent, threads, arr, after)
    ensures SameRoots(prio, parent, after) && SetAnswers(prio, parent, arr)
    ensures threads == 1 || AtMostFour(prio, parent) ==> AllRoots(prio, parent, arr)
  {
    var moves: Moves :| Answers(parent, threads, moves, arr, after);
    var l := Looked(LookStart(parent, threads), moves);
    StartInv(prio, parent, threads);
    LookedInv(prio, parent, LookStart(parent, threads), moves);
    forall v | 0 <= v < |parent| ensures AnswerOk(prio, parent, v, arr[v]) { FinishedAnswers(prio, parent, l, v); }
    if threads == 1 || AtMostFour(prio, parent) { ExactWhenShallow(prio, parent, threads, moves); }
  }
}
