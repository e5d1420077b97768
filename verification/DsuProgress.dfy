/** Progress of the lock-free union-find: how many steps a call can take under any schedule, how often a merge can
    lose its compare-and-swap, and which merges report success. */
module DsuProgress {
  import opened Graphs
  import opened DisjointSets
  import opened LockFreeDsu

  // ---------- how much work a call has left ----------

  function Rank(at: FindPc): nat {
    match at
    case Test => 7
    case LeftParent(_) => 6
    case RightParent(_) => 6
    case LeftGrand(_) => 5
    case BothParents(_, _) => 5
    case Body => 4
    case BodyParent(_) => 3
    case BodyGrand(_) => 2
    case Advance => 1
    case Leave => 1
    case Found(_) => 0
  }

  /** Bounds the steps that a look-up still takes, whatever the other threads do. */
  ghost function FindWork(prio: seq<nat>, f: Find): nat
    requires f.u < |prio|
  {
    8 * Height(prio, f.u) + Rank(f.at)
  }

  lemma FindWorkShrinks(prio: seq<nat>, parent: seq<nat>, f: Find, choice: bool)
    requires Ascending(prio, parent) && FindOk(prio, parent, f) && !f.at.Found?
    ensures var f' := FindStep(parent, f, choice).1; f'.u < |prio| && FindWork(prio, f') < FindWork(prio, f)
  {
    if f.at.Advance? { HeightDecreases(prio, parent[f.u], f.u); }
  }

  lemma StartWork(prio: seq<nat>, u: nat)
    requires u < |prio|
    ensures FindWork(prio, StartFind(u)) < 8 * |prio|
  {
    HeightBounded(prio, u);
  }

  /** The most steps between two compare-and-swaps of one call on `n` vertices. */
  function Lap(n: nat): nat { 16 * n + 3 }

  /** What is left until the next compare-and-swap. */
  ghost function Phase(prio: seq<nat>, at: MergePc): nat
    requires at.SeekA? || at.SeekB? ==> at.f.u < |prio|
  {
    match at
    case Swap => 1
    case Compare => 2
    case SeekA(f, bKnown) => FindWork(prio, f) + 3 + (if bKnown then 0 else 8 * |prio|)
    case SeekB(f, aKnown) => FindWork(prio, f) + 3 + (if aKnown then 0 else 8 * |prio|)
    case Seek => Lap(|prio|)
  }

  /** The height of the lower of the two vertices. */
  ghost function Low(prio: seq<nat>, a: nat, b: nat): nat
    requires a < |prio| && b < |prio|
  {
    if Height(prio, a) < Height(prio, b) then Height(prio, b) else Height(prio, a)
  }

  /** Bounds the steps that a merge still takes if no compare-and-swap fails spuriously. */
  ghost function Work(prio: seq<nat>, c: Call): nat
    requires c.Merging? && MergeInRange(|prio|, c)
  {
    Laps(Lap(|prio|), Low(prio, c.a, c.b)) + Phase(prio, c.at)
  }

  /** `count` laps of `lap` steps: the product, which `LapsIsProduct` proves, kept out of the solver's sight. */
  function Laps(lap: nat, count: nat): nat {
    if count == 0 then 0 else Laps(lap, count - 1) + lap
  }

  lemma {:induction false} LapsIsProduct(lap: nat, count: nat)
    ensures Laps(lap, count) == count * lap
  {
    if count > 0 { LapsIsProduct(lap, count - 1); }
  }

  lemma {:induction false} LapsAdd(lap: nat, a: nat, b: nat)
    ensures Laps(lap, a + b) == Laps(lap, a) + Laps(lap, b)
  {
    if b > 0 { LapsAdd(lap, a, b - 1); }
  }

  lemma {:induction false} LapsMono(lap: nat, a: nat, b: nat)
    requires a <= b
    ensures Laps(lap, a) <= Laps(lap, b) && (a < b ==> Laps(lap, a) + lap <= Laps(lap, b))
  {
    if a < b { LapsMono(lap, a, b - 1); }
  }

  lemma WorkBounded(prio: seq<nat>, parent: seq<nat>, c: Call)
    requires Ascending(prio, parent) && c.Merging? && CallOk(prio, parent, c)
    ensures Work(prio, c) <= Laps(Lap(|prio|), |prio|)
  {
    HeightBounded(prio, c.a);
    HeightBounded(prio, c.b);
    if c.at.SeekA? || c.at.SeekB? { HeightBounded(prio, c.at.f.u); }
    LapsMono(Lap(|prio|), Low(prio, c.a, c.b), |prio|);
  }

  // ---------- one step ----------

  ghost predicate Running(s: State, t: nat) { t < |s.calls| && s.calls[t].Merging? }

  /** The weak compare-and-swap fails although nobody interfered. */
  predicate FailsSpuriously(s: State, t: nat, act: Action)
    requires InRange(s) && t < |s.calls| && s.calls[t].Merging?
  {
    act.Run? && act.choice && s.calls[t].at.Swap? && s.parent[s.calls[t].b] == s.calls[t].b
  }

  /** The compare-and-swap fails because the vertex is no root any more. */
  predicate Loses(s: State, t: nat, act: Action)
    requires InRange(s) && t < |s.calls| && s.calls[t].Merging?
  {
    act.Run? && s.calls[t].at.Swap? && s.parent[s.calls[t].b] != s.calls[t].b
  }

  /** What a step makes of a running merge: it is answered, or it has less work left and has not climbed down. */
  ghost predicate Shrunk(prio: seq<nat>, c: Call, c': Call, extra: nat)
    requires c.Merging? && MergeInRange(|prio|, c)
  {
    c'.Merged? || (c'.Merging? && MergeInRange(|prio|, c') && Work(prio, c') < Work(prio, c) + extra
                   && Low(prio, c'.a, c'.b) <= Low(prio, c.a, c.b))
  }

  lemma SeekingShrinks(prio: seq<nat>, parent: seq<nat>, c: Call, choice: bool)
    requires Ascending(prio, parent) && c.Merging? && MergeInRange(|prio|, c) && (c.at.SeekA? || c.at.SeekB?)
    requires FindOk(prio, parent, c.at.f) && !c.at.f.at.Found?
    ensures Shrunk(prio, c, c.(at := c.at.(f := FindStep(parent, c.at.f, choice).1)), 0)
  {
    FindStepOk(prio, parent, c.at.f, choice);
    FindWorkShrinks(prio, parent, c.at.f, choice);
  }

  lemma SeekShrinks(s: State, c: Call, choice: bool)
    requires InRange(s) && c.Merging? && MergeInRange(|s.prio|, c) && c.at.Seek?
    ensures MergeStep(s, c, choice).0 == s && Shrunk(s.prio, c, MergeStep(s, c, choice).1, 0)
  {
    StartWork(s.prio, c.a);
    StartWork(s.prio, c.b);
  }

  lemma FoundShrinks(s: State, c: Call, choice: bool)
    requires InRange(s) && c.Merging? && MergeInRange(|s.prio|, c) && (c.at.SeekA? || c.at.SeekB?) && c.at.f.at.Found?
    requires Height(s.prio, c.at.f.at.res) <= Height(s.prio, if c.at.SeekA? then c.a else c.b)
    ensures MergeStep(s, c, choice).0 == s && Shrunk(s.prio, c, MergeStep(s, c, choice).1, 0)
  {
    StartWork(s.prio, c.a);
    StartWork(s.prio, c.b);
    var c' := MergeStep(s, c, choice).1;
    LapsMono(Lap(|s.prio|), Low(s.prio, c'.a, c'.b), Low(s.prio, c.a, c.b));
  }

  lemma CompareShrinks(s: State, c: Call, choice: bool)
    requires InRange(s) && c.Merging? && MergeInRange(|s.prio|, c) && c.at.Compare?
    ensures MergeStep(s, c, choice).0 == s && Shrunk(s.prio, c, MergeStep(s, c, choice).1, 0)
  {
    var (a, b) := OrderEdge(s.prio, c.a, c.b);
    assert Low(s.prio, a, b) == Low(s.prio, c.a, c.b);
  }

  /** A lost compare-and-swap takes the lower vertex up; a spurious failure costs one lap. */
  lemma SwapShrinks(s: State, c: Call, choice: bool)
    requires InRange(s) && Ascending(s.prio, s.parent) && c.Merging? && MergeInRange(|s.prio|, c) && c.at.Swap?
    requires Above(s.prio, c.a, c.b) && (s.parent[c.b] != c.b || choice)
    ensures MergeStep(s, c, choice).0 == s
    ensures Shrunk(s.prio, c, MergeStep(s, c, choice).1, if s.parent[c.b] == c.b then Lap(|s.prio|) else 0)
    ensures s.parent[c.b] != c.b ==> Climbed(s.prio, c, MergeStep(s, c, choice).1)
  {
    var b := s.parent[c.b];
    HeightDecreases(s.prio, c.a, c.b);
    if b != c.b {
      HeightDecreases(s.prio, b, c.b);
      LapsMono(Lap(|s.prio|), Low(s.prio, c.a, b), Low(s.prio, c.a, c.b));
    }
  }

  /** Both vertices are now above the one that lost. */
  ghost predicate Climbed(prio: seq<nat>, c: Call, c': Call)
    requires c.Merging? && MergeInRange(|prio|, c)
  {
    && c'.Merging? && MergeInRange(|prio|, c')
    && Low(prio, c'.a, c'.b) < Low(prio, c.a, c.b) == Height(prio, c.b)
  }

  /** Every step of a merge brings it closer to its answer, unless its compare-and-swap fails spuriously. */
  lemma OwnStepShrinks(s: State, t: nat, choice: bool)
    requires Inv(s) && Running(s, t)
    ensures var s' := Apply(s, t, Run(choice));
            && t < |s'.calls|
            && Shrunk(s.prio, s.calls[t], s'.calls[t], if FailsSpuriously(s, t, Run(choice)) then Lap(|s.prio|) else 0)
            && (Loses(s, t, Run(choice)) ==> Climbed(s.prio, s.calls[t], s'.calls[t]))
  {
    var c := s.calls[t];
    if (c.at.SeekA? || c.at.SeekB?) && !c.at.f.at.Found? {
      SeekingShrinks(s.prio, s.parent, c, choice);
      SeekStep(s, t, c, choice);
    } else if c.at.Swap? && s.parent[c.b] == c.b && !choice {
      WinningStep(s, t, c);
    } else {
      if c.at.Swap? {
        SwapShrinks(s, c, choice);
      } else if c.at.Compare? {
        CompareShrinks(s, c, choice);
      } else if c.at.Seek? {
        SeekShrinks(s, c, choice);
      } else {
        FoundShrinks(s, c, choice);
      }
      LocalStep(s, t, c, choice);
    }
  }

  /** Nothing else touches a running merge. */
  lemma OthersKeepCall(s: State, u: nat, act: Action, t: nat)
    requires InRange(s) && Running(s, t) && (u != t || !act.Run?)
    ensures var s' := Apply(s, u, act); Running(s', t) && s'.calls[t] == s.calls[t]
  {
  }

  // ---------- what one step does to the forest ----------

  /** The merge of thread `t` is answered by this step. */
  ghost predicate Answers(s: State, s': State, t: nat) {
    t < |s.calls| && t < |s'.calls| && s.calls[t].Merging? && s'.calls[t].Merged?
  }

  /** The edge that the step adds to the forest: that of a merge which it answers by `true`. */
  ghost function Gained(s: State, s': State, t: nat): set<Edge> {
    if Answers(s, s', t) && s'.calls[t].merged then {Edge(s'.calls[t].x, s'.calls[t].y)} else {}
  }

  /** Roots do not come back, and the forest gains exactly the edge of a merge that is answered by `true`; that edge
      joins two different trees. */
  ghost predicate Outcome(s: State, s': State, t: nat) {
    && Coarser(s.prio, s.parent, s'.parent)
    && s'.forest == s.forest + Gained(s, s', t) && s.forest !! Gained(s, s', t)
    && (Answers(s, s', t) ==> s'.calls[t].x == s.calls[t].x && s'.calls[t].y == s.calls[t].y)
  }

  lemma FindOutcomes(s: State, t: nat, choice: bool)
    requires Inv(s) && t < |s.calls| && s.calls[t].Finding?
    ensures Outcome(s, Apply(s, t, Run(choice)), t)
  {
    var f := s.calls[t].f;
    FindStepOk(s.prio, s.parent, f, choice);
    FindStepKeepsRepresents(s, FindStep(s.parent, f, choice).0);
  }

  lemma SeekOutcomes(s: State, t: nat, c: Call, choice: bool)
    requires Inv(s) && t < |s.calls| && c == s.calls[t] && c.Merging?
    requires (c.at.SeekA? || c.at.SeekB?) && !c.at.f.at.Found?
    ensures Outcome(s, Apply(s, t, Run(choice)), t)
  {
    FindStepOk(s.prio, s.parent, c.at.f, choice);
    FindStepKeepsRepresents(s, FindStep(s.parent, c.at.f, choice).0);
    SeekStep(s, t, c, choice);
  }

  lemma LocalOutcomes(s: State, t: nat, c: Call, choice: bool)
    requires Inv(s) && t < |s.calls| && c == s.calls[t] && c.Merging?
    requires !((c.at.SeekA? || c.at.SeekB?) && !c.at.f.at.Found?)
    requires !(c.at.Swap? && s.parent[c.b] == c.b && !choice)
    ensures Outcome(s, Apply(s, t, Run(choice)), t)
  {
    if c.at.Compare? || c.at.Swap? { CompareOk(s, c, choice); } else { SeekDoneOk(s, c, choice); }
    FindStepKeepsRepresents(s, s.parent);
    LocalStep(s, t, c, choice);
  }

  lemma WinIsNew(prio: seq<nat>, parent: seq<nat>, F: set<Edge>, c: Call)
    requires Represents(prio, parent, F) && c.Merging? && c.at.Swap? && CallOk(prio, parent, c) && parent[c.b] == c.b
    ensures Edge(c.x, c.y) !in F && Coarser(prio, parent, parent[c.b := c.a])
  {
    WinEffect(prio, parent, F, c);
    if Edge(c.x, c.y) in F { ConnectedEdge(F, Edge(c.x, c.y)); }
  }

  lemma WinOutcomes(s: State, t: nat, c: Call)
    requires Inv(s) && t < |s.calls| && c == s.calls[t] && c.Merging? && c.at.Swap? && s.parent[c.b] == c.b
    ensures Outcome(s, Apply(s, t, Run(false)), t)
  {
    WinIsNew(s.prio, s.parent, s.forest, c);
    WinningStep(s, t, c);
  }

  lemma StepOutcome(s: State, t: nat, act: Action)
    requires Inv(s)
    ensures Outcome(s, Apply(s, t, act), t)
  {
    if t >= |s.calls| || !act.Run? || s.calls[t].Idle? || s.calls[t].Merged? {
      FindStepKeepsRepresents(s, s.parent);
    } else {
      var c := s.calls[t];
      if c.Finding? {
        FindOutcomes(s, t, act.choice);
      } else if (c.at.SeekA? || c.at.SeekB?) && !c.at.f.at.Found? {
        SeekOutcomes(s, t, c, act.choice);
      } else if c.at.Swap? && s.parent[c.b] == c.b && !act.choice {
        WinOutcomes(s, t, c);
      } else {
        LocalOutcomes(s, t, c, act.choice);
      }
    }
  }

  // ---------- whole runs ----------

  /** What happens to the running merge of one thread until it is answered. */
  datatype Tally = Tally(steps: nat, losses: nat, spurious: nat, wins: nat)

  function Add(a: Tally, b: Tally): Tally {
    Tally(a.steps + b.steps, a.losses + b.losses, a.spurious + b.spurious, a.wins + b.wins)
  }

  /** The part of one step in it. */
  ghost function One(s: State, u: nat, act: Action, t: nat): Tally
    requires InRange(s) && Running(s, t)
  {
    if u != t || !act.Run? then Tally(0, 0, 0, 0)
    else Tally(1, if Loses(s, t, act) then 1 else 0, if FailsSpuriously(s, t, act) then 1 else 0,
               |Gained(s, Apply(s, u, act), t)|)
  }

  ghost function Follow(s: State, sched: Schedule, t: nat): Tally
    decreases |sched|
  {
    if sched == [] || !InRange(s) || !Running(s, t) then Tally(0, 0, 0, 0)
    else Add(One(s, sched[0].0, sched[0].1, t), Follow(Apply(s, sched[0].0, sched[0].1), sched[1..], t))
  }

  /** The work left for the merge of thread `t`, if it is running. */
  ghost function WorkLeft(s: State, t: nat): nat {
    if Running(s, t) && MergeInRange(|s.prio|, s.calls[t]) then Work(s.prio, s.calls[t]) else 0
  }

  lemma StepCost(s: State, u: nat, act: Action, t: nat)
    requires Inv(s) && Running(s, t)
    ensures var k := One(s, u, act, t);
            WorkLeft(Apply(s, u, act), t) + k.steps <= WorkLeft(s, t) + Laps(Lap(|s.prio|), k.spurious)
  {
    ApplyShape(s, u, act);
    if u == t && act.Run? { OwnStepShrinks(s, t, act.choice); } else { OthersKeepCall(s, u, act, t); }
  }

  /** The steps are covered by the work and a lap for every spurious failure. */
  predicate Paid(k: Tally, work: nat, n: nat) { k.steps <= work + Laps(Lap(n), k.spurious) }

  lemma PaidTogether(a: Tally, b: Tally, work: nat, left: nat, n: nat)
    requires left + a.steps <= work + Laps(Lap(n), a.spurious) && Paid(b, left, n)
    ensures Paid(Add(a, b), work, n)
  {
    LapsAdd(Lap(n), a.spurious, b.spurious);
  }

  /** Under every schedule the steps of a merge are bounded by its work and its spurious failures. */
  lemma {:induction false} StepsWithinWork(s: State, sched: Schedule, t: nat)
    requires Inv(s)
    ensures Paid(Follow(s, sched, t), WorkLeft(s, t), |s.prio|)
    decreases |sched|
  {
    if sched != [] && Running(s, t) {
      var s' := Apply(s, sched[0].0, sched[0].1);
      StepCost(s, sched[0].0, sched[0].1, t);
      ApplyKeepsInv(s, sched[0].0, sched[0].1);
      ApplyShape(s, sched[0].0, sched[0].1);
      StepsWithinWork(s', sched[1..], t);
      PaidTogether(One(s, sched[0].0, sched[0].1, t), Follow(s', sched[1..], t), WorkLeft(s, t), WorkLeft(s', t),
                   |s.prio|);
    }
  }

  lemma WorkLeftBounded(s: State, t: nat)
    requires Inv(s) && Running(s, t)
    ensures WorkLeft(s, t) <= Laps(Lap(|s.prio|), |s.prio|)
  {
    WorkBounded(s.prio, s.parent, s.calls[t]);
  }

  /** More than n laps, and one for every spurious failure. */
  predicate TooMany(steps: nat, spurious: nat, n: nat) { steps > (n + spurious) * (16 * n + 3) }

  /** No merge takes more than (n + spurious failures) laps, whatever the other threads do: a merge that is stalled or
      retries for ever is impossible. */
  lemma MergesAreBounded(prio: seq<nat>, threads: nat, before: Schedule, sched: Schedule, t: nat)
    requires Running(Exec(Fresh(prio, threads), before), t)
    ensures var k := Follow(Exec(Fresh(prio, threads), before), sched, t); !TooMany(k.steps, k.spurious, |prio|)
  {
    Reachable(prio, threads, before);
    StepsBounded(Exec(Fresh(prio, threads), before), sched, t);
  }

  lemma StepsBounded(s: State, sched: Schedule, t: nat)
    requires Inv(s) && Running(s, t)
    ensures !TooMany(Follow(s, sched, t).steps, Follow(s, sched, t).spurious, |s.prio|)
  {
    StepsWithinWork(s, sched, t);
    WorkLeftBounded(s, t);
    WorkInTime(Follow(s, sched, t), WorkLeft(s, t), |s.prio|);
  }

  lemma WorkInTime(k: Tally, work: nat, n: nat)
    requires Paid(k, work, n) && work <= Laps(Lap(n), n)
    ensures !TooMany(k.steps, k.spurious, n)
  {
    LapsAdd(Lap(n), n, k.spurious);
    LapsIsProduct(Lap(n), n + k.spurious);
  }

  lemma Reachable(prio: seq<nat>, threads: nat, sched: Schedule)
    ensures var s := Exec(Fresh(prio, threads), sched); Inv(s) && s.prio == prio && |s.parent| == |prio|
  {
    FreshInv(prio, threads);
    ExecKeepsInv(Fresh(prio, threads), sched);
    ExecShape(Fresh(prio, threads), sched);
  }

  /** A running merge whose thread moves alone is answered within that many steps. */
  lemma AloneIsAnswered(s: State, sched: Schedule, t: nat)
    requires Inv(s) && Running(s, t) && forall i :: 0 <= i < |sched| ==> sched[i].0 == t && sched[i].1.Run?
    requires TooMany(|sched|, Follow(s, sched, t).spurious, |s.prio|)
    ensures t < |Exec(s, sched).calls| && Exec(s, sched).calls[t].Merged?
  {
    StepsBounded(s, sched, t);
    AloneCounts(s, sched, t);
  }

  lemma {:induction false} AloneCounts(s: State, sched: Schedule, t: nat)
    requires Inv(s) && t < |s.calls| && (s.calls[t].Merging? || s.calls[t].Merged?)
    requires forall i :: 0 <= i < |sched| ==> sched[i].0 == t && sched[i].1.Run?
    ensures t < |Exec(s, sched).calls|
    ensures Exec(s, sched).calls[t].Merged? || Follow(s, sched, t).steps == |sched|
    decreases |sched|
  {
    if sched != [] {
      var s' := Apply(s, t, sched[0].1);
      ApplyKeepsInv(s, t, sched[0].1);
      if Running(s, t) { OwnStepShrinks(s, t, sched[0].1.choice); }
      AloneCounts(s', sched[1..], t);
      if !Running(s', t) { StaysAnswered(s', sched[1..], t); }
    }
  }

  lemma {:induction false} StaysAnswered(s: State, sched: Schedule, t: nat)
    requires Inv(s) && t < |s.calls| && s.calls[t].Merged?
    requires forall i :: 0 <= i < |sched| ==> sched[i].0 == t && sched[i].1.Run?
    ensures Exec(s, sched) == s
    decreases |sched|
  {
    if sched != [] { StaysAnswered(s, sched[1..], t); }
  }

  // ---------- lost compare-and-swaps ----------

  /** The vertices that are no roots and that both vertices of the call have left below. */
  ghost function Passed(prio: seq<nat>, parent: seq<nat>, low: nat): set<nat>
    requires |parent| == |prio|
  {
    set v: nat | v < |parent| && parent[v] != v && Height(prio, v) > low
  }

  lemma PassedGrows(prio: seq<nat>, p: seq<nat>, q: seq<nat>, low: nat, low': nat)
    requires |p| == |q| == |prio| && low' <= low && forall v :: 0 <= v < |p| && q[v] == v ==> p[v] == v
    ensures |Passed(prio, p, low)| <= |Passed(prio, q, low')|
  {
    SubsetSize(Passed(prio, p, low), Passed(prio, q, low'));
  }

  lemma PassedOneMore(prio: seq<nat>, p: seq<nat>, b: nat, low': nat)
    requires |p| == |prio| && b < |p| && p[b] != b && low' < Height(prio, b)
    ensures |Passed(prio, p, Height(prio, b))| < |Passed(prio, p, low')|
  {
    ProperSubsetSmaller(Passed(prio, p, Height(prio, b)), Passed(prio, p, low'), b);
  }

  /** They are no more than the links made so far. */
  lemma PassedAreLinks(s: State, low: nat)
    requires Inv(s)
    ensures |Passed(s.prio, s.parent, low)| <= |s.forest|
  {
    var P, R := Passed(s.prio, s.parent, low), RootSet(s.parent);
    assert P !! R;
    assert |P + R| == |P| + |R|;
    RangeSize(P + R, |s.parent|);
  }

  lemma PassedStep(s: State, u: nat, act: Action, t: nat)
    requires Inv(s) && Running(s, t) && Running(Apply(s, u, act), t)
    ensures One(s, u, act, t).losses + |PassedBy(s, t)| <= |PassedBy(Apply(s, u, act), t)|
    ensures One(s, u, act, t).wins == 0
  {
    var s' := Apply(s, u, act);
    StepOutcome(s, u, act);
    ApplyShape(s, u, act);
    ApplyKeepsInv(s, u, act);
    if u == t && act.Run? { OwnStepShrinks(s, t, act.choice); } else { OthersKeepCall(s, u, act, t); }
    var c, c' := s.calls[t], s'.calls[t];
    var low, low' := Low(s.prio, c.a, c.b), Low(s.prio, c'.a, c'.b);
    PassedGrows(s.prio, s.parent, s'.parent, low', low');
    if u == t && act.Run? && Loses(s, t, act) {
      PassedOneMore(s.prio, s.parent, c.b, low');
    } else {
      PassedGrows(s.prio, s.parent, s.parent, low, low');
    }
  }

  ghost function PassedBy(s: State, t: nat): set<nat> {
    if !InRange(s) || !Running(s, t) then {} else Passed(s.prio, s.parent, Low(s.prio, s.calls[t].a, s.calls[t].b))
  }

  lemma AnsweredStep(s: State, u: nat, act: Action, t: nat)
    requires Inv(s) && Running(s, t) && !Running(Apply(s, u, act), t)
    ensures One(s, u, act, t).losses == 0
    ensures |s.forest| + One(s, u, act, t).wins == |Apply(s, u, act).forest|
  {
    ApplyShape(s, u, act);
    StepOutcome(s, u, act);
    if u == t && act.Run? { OwnStepShrinks(s, t, act.choice); } else { OthersKeepCall(s, u, act, t); }
  }

  lemma {:induction false} ForestGrows(s: State, sched: Schedule)
    requires Inv(s)
    ensures |s.forest| <= |Exec(s, sched).forest|
    decreases |sched|
  {
    if sched != [] {
      StepOutcome(s, sched[0].0, sched[0].1);
      ApplyKeepsInv(s, sched[0].0, sched[0].1);
      ForestGrows(Apply(s, sched[0].0, sched[0].1), sched[1..]);
    }
  }

  lemma {:induction false} LossesPass(s: State, sched: Schedule, t: nat)
    requires Inv(s) && Running(s, t)
    ensures var k := Follow(s, sched, t); k.losses + k.wins + |PassedBy(s, t)| <= |Exec(s, sched).forest|
    decreases |sched|
  {
    if sched == [] {
      PassedAreLinks(s, Low(s.prio, s.calls[t].a, s.calls[t].b));
    } else {
      var (u, act) := sched[0];
      var s' := Apply(s, u, act);
      ApplyKeepsInv(s, u, act);
      if Running(s', t) {
        PassedStep(s, u, act, t);
        LossesPass(s', sched[1..], t);
      } else {
        PassedAreLinks(s, Low(s.prio, s.calls[t].a, s.calls[t].b));
        AnsweredStep(s, u, act, t);
        ForestGrows(s', sched[1..]);
      }
    }
  }

  lemma ForestIsSmall(s: State)
    requires Inv(s) && |s.parent| > 0
    ensures |s.forest| < |s.parent|
  {
    assert Root(s.prio, s.parent, 0) in RootSet(s.parent);
  }

  /** Every compare-and-swap that a merge loses to another thread is paid for by a link of another merge, so it loses
      fewer than n. */
  lemma LossesAreLinks(prio: seq<nat>, threads: nat, before: Schedule, sched: Schedule, t: nat)
    requires Running(Exec(Fresh(prio, threads), before), t)
    ensures var s := Exec(Fresh(prio, threads), before);
            var k := Follow(s, sched, t);
            k.losses + k.wins <= |Exec(s, sched).forest| < |prio|
  {
    var s := Exec(Fresh(prio, threads), before);
    Reachable(prio, threads, before);
    LossesPass(s, sched, t);
    ExecKeepsInv(s, sched);
    ExecShape(s, sched);
    ForestIsSmall(Exec(s, sched));
  }

  // ---------- what the merges report ----------

  /** The answers given to merges, in the order of their last steps. */
  ghost function Replies(s: State, sched: Schedule): seq<Call>
    decreases |sched|
  {
    if sched == [] || !InRange(s) then []
    else
      var t, s' := sched[0].0, Apply(s, sched[0].0, sched[0].1);
      (if Answers(s, s', t) then [s'.calls[t]] else []) + Replies(s', sched[1..])
  }

  ghost function Successes(rs: seq<Call>): set<Edge> {
    set c | c in rs && c.Merged? && c.merged :: Edge(c.x, c.y)
  }

  ghost function HowMany(rs: seq<Call>): nat {
    if rs == [] then 0 else (if rs[0].Merged? && rs[0].merged then 1 else 0) + HowMany(rs[1..])
  }

  ghost predicate Joined(s: State, rs: seq<Call>) {
    forall c :: c in rs ==> c.Merged? && Connected(s.forest, c.x, c.y)
  }

  /** Between `s` and `s'` the merges were answered by `rs`. */
  ghost predicate Reported(s: State, s': State, rs: seq<Call>) {
    s'.forest == s.forest + Successes(rs) && |s'.forest| == |s.forest| + HowMany(rs) && Joined(s', rs)
  }

  lemma {:induction false} RepliesOk(s: State, sched: Schedule)
    requires Inv(s)
    ensures Reported(s, Exec(s, sched), Replies(s, sched))
    decreases |sched|
  {
    if sched != [] {
      var t, s1 := sched[0].0, Apply(s, sched[0].0, sched[0].1);
      ApplyKeepsInv(s, t, sched[0].1);
      StepOutcome(s, t, sched[0].1);
      RepliesOk(s1, sched[1..]);
      StepReported(s, s1, t, Exec(s1, sched[1..]), Replies(s1, sched[1..]));
    }
  }

  lemma StepReported(s: State, s1: State, t: nat, s': State, rest: seq<Call>)
    requires Inv(s1) && Outcome(s, s1, t) && Reported(s1, s', rest)
    ensures Reported(s, s', (if Answers(s, s1, t) then [s1.calls[t]] else []) + rest)
  {
    if Answers(s, s1, t) {
      var c := s1.calls[t];
      assert CallOk(s1.prio, s1.parent, c);
      assert Connected(s1.forest, c.x, c.y);
      OneMoreReply(s, s1, t, s', rest);
    } else {
      assert [] + rest == rest;
    }
  }

  lemma MoreSuccesses(c: Call, rest: seq<Call>)
    requires c.Merged?
    ensures Successes([c] + rest) == (if c.merged then {Edge(c.x, c.y)} else {}) + Successes(rest)
    ensures HowMany([c] + rest) == (if c.merged then 1 else 0) + HowMany(rest)
  {
    var rs := [c] + rest;
    assert rs[1..] == rest;
    forall e | e in Successes(rest) ensures e in Successes(rs) {
      var d :| d in rest && d.Merged? && d.merged && e == Edge(d.x, d.y);
      assert d in rs;
    }
    assert c in rs;
  }

  lemma OneMoreReply(s: State, s1: State, t: nat, s': State, rest: seq<Call>)
    requires Answers(s, s1, t) && Outcome(s, s1, t) && Reported(s1, s', rest)
    requires Connected(s1.forest, s1.calls[t].x, s1.calls[t].y)
    ensures Reported(s, s', [s1.calls[t]] + rest)
  {
    var c := s1.calls[t];
    MoreSuccesses(c, rest);
    ConnectedMono(s1.forest, s'.forest, c.x, c.y);
  }

  /** Over every run from the fresh union-find: the forest consists of the edges of exactly those merges that were
      answered by `true`, one edge for each of them, and the arguments of every answered merge are connected in it. */
  lemma FlagsAreForest(prio: seq<nat>, threads: nat, sched: Schedule)
    ensures var s := Exec(Fresh(prio, threads), sched); var rs := Replies(Fresh(prio, threads), sched);
            s.forest == Successes(rs) && |s.forest| == HowMany(rs) && Joined(s, rs)
  {
    FreshInv(prio, threads);
    RepliesOk(Fresh(prio, threads), sched);
  }

  // ---------- look-ups ----------

  /** The steps of the look-up of thread `t` until it has its answer. */
  ghost function FindSteps(s: State, sched: Schedule, t: nat): nat
    decreases |sched|
  {
    if sched == [] || !InRange(s) || !Seeking(s, t) then 0
    else
      (if sched[0].0 == t && sched[0].1.Run? then 1 else 0)
      + FindSteps(Apply(s, sched[0].0, sched[0].1), sched[1..], t)
  }

  ghost predicate Seeking(s: State, t: nat) { t < |s.calls| && s.calls[t].Finding? && !s.calls[t].f.at.Found? }

  ghost function FindLeft(s: State, t: nat): nat {
    if Seeking(s, t) && s.calls[t].f.u < |s.prio| then FindWork(s.prio, s.calls[t].f) else 0
  }

  lemma FindStepCost(s: State, u: nat, act: Action, t: nat)
    requires Inv(s) && Seeking(s, t)
    ensures FindLeft(Apply(s, u, act), t) + (if u == t && act.Run? then 1 else 0) <= FindLeft(s, t)
  {
    ApplyShape(s, u, act);
    if u == t && act.Run? {
      FindWorkShrinks(s.prio, s.parent, s.calls[t].f, act.choice);
    } else {
      OthersKeepFind(s, u, act, t);
    }
  }

  lemma OthersKeepFind(s: State, u: nat, act: Action, t: nat)
    requires InRange(s) && Seeking(s, t) && (u != t || !act.Run?)
    ensures var s' := Apply(s, u, act); Seeking(s', t) && s'.calls[t] == s.calls[t]
  {
  }

  lemma {:induction false} FindStepsWithinWork(s: State, sched: Schedule, t: nat)
    requires Inv(s)
    ensures FindSteps(s, sched, t) <= FindLeft(s, t)
    decreases |sched|
  {
    if sched != [] && Seeking(s, t) {
      FindStepCost(s, sched[0].0, sched[0].1, t);
      ApplyKeepsInv(s, sched[0].0, sched[0].1);
      FindStepsWithinWork(Apply(s, sched[0].0, sched[0].1), sched[1..], t);
    }
  }

  lemma FindStepsBounded(s: State, sched: Schedule, t: nat)
    requires Inv(s) && Seeking(s, t)
    ensures FindSteps(s, sched, t) < 8 * |s.prio|
  {
    FindStepsWithinWork(s, sched, t);
    FindLeftBounded(s, t);
  }

  lemma FindLeftBounded(s: State, t: nat)
    requires InRange(s) && Seeking(s, t)
    ensures FindLeft(s, t) < 8 * |s.prio|
  {
    HeightBounded(s.prio, s.calls[t].f.u);
  }

  /** A look-up has its answer after fewer than 8n steps of its own, whatever the other threads do. */
  lemma FindsAreBounded(prio: seq<nat>, threads: nat, before: Schedule, sched: Schedule, t: nat)
    requires Seeking(Exec(Fresh(prio, threads), before), t)
    ensures FindSteps(Exec(Fresh(prio, threads), before), sched, t) < 8 * |prio|
  {
    Reachable(prio, threads, before);
    FindStepsBounded(Exec(Fresh(prio, threads), before), sched, t);
  }
}
