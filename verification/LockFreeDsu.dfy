/** The lock-free union-find (`DisjointSetUnion_MT`) as a transition system. Every atomic load, store and
    compare-and-swap is one step, and the threads interleave arbitrarily. */
module LockFreeDsu {
  import opened Graphs
  import opened DisjointSets

  /** Where a thread stands inside `find_root`. The right operand of the loop test is loaded before, between or after
      the two loads of the left one. */
  datatype FindPc =
    | Test                          // about to evaluate the loop test
    | LeftParent(p: nat)            // left operand first: p loaded from parent[u]
    | LeftGrand(q: nat)             // q loaded from parent[p]; parent[u] is loaded and compared next
    | RightParent(r: nat)           // right operand first: r loaded from parent[u]
    | BothParents(r: nat, p: nat)   // r and p both loaded from parent[u]; parent[p] is loaded and compared next
    | Body                          // the test succeeded
    | BodyParent(p: nat)
    | BodyGrand(g: nat)             // the possibly stale grandparent, about to be stored
    | Advance
    | Leave                         // the test failed; the result is loaded next
    | Found(res: nat)

  datatype Find = Find(start: nat, u: nat, at: FindPc, turns: nat)

  /** Where a thread stands inside `merge`. */
  datatype MergePc =
    | Seek                          // top of the loop, neither root looked up yet
    | SeekA(f: Find, bKnown: bool)
    | SeekB(f: Find, aKnown: bool)
    | Compare
    | Swap                          // ordered, about to compare-and-swap parent[b]

  datatype Call =
    | Idle
    | Finding(f: Find)
    | Merging(x: nat, y: nat, a: nat, b: nat, at: MergePc)
    | Merged(x: nat, y: nat, merged: bool)

  /** `forest` and `asked` are history: the edges whose merge won, and all edges ever passed to `merge`. */
  datatype State = State(prio: seq<nat>, parent: seq<nat>, calls: seq<Call>, forest: set<Edge>, asked: set<Edge>)

  /** `Run(choice)`: the thread performs its next atomic step. `choice` settles what the language leaves open:
      the operand order of a comparison, or a spurious failure of the weak compare-and-swap. */
  datatype Action = BeginFind(u: nat) | BeginMerge(x: nat, y: nat) | Run(choice: bool) | Return

  function StartFind(u: nat): Find { Find(u, u, Test, 0) }

  predicate PcInRange(n: nat, pc: FindPc) {
    match pc
    case LeftParent(p) => p < n
    case LeftGrand(q) => q < n
    case RightParent(r) => r < n
    case BothParents(r, p) => r < n && p < n
    case BodyParent(p) => p < n
    case BodyGrand(g) => g < n
    case Found(r) => r < n
    case _ => true
  }

  predicate FindInRange(n: nat, f: Find) {
    f.start < n && f.u < n && PcInRange(n, f.at)
  }

  predicate MergeInRange(n: nat, c: Call)
    requires c.Merging?
  {
    && c.x < n && c.y < n && c.a < n && c.b < n
    && (c.at.SeekA? || c.at.SeekB? ==> FindInRange(n, c.at.f))
  }

  predicate CallInRange(n: nat, c: Call) {
    match c
    case Idle => true
    case Finding(f) => FindInRange(n, f)
    case Merging(_, _, _, _, _) => MergeInRange(n, c)
    case Merged(x, y, _) => x < n && y < n
  }

  predicate InRange(s: State) {
    && |s.parent| == |s.prio|
    && (forall i :: 0 <= i < |s.parent| ==> s.parent[i] < |s.parent|)
    && (forall t :: 0 <= t < |s.calls| ==> CallInRange(|s.parent|, s.calls[t]))
  }

  /** One atomic step of `find_root`. */
  function FindStep(parent: seq<nat>, f: Find, rightFirst: bool): (seq<nat>, Find)
    requires FindInRange(|parent|, f)
  {
    var u := f.u;
    match f.at
    case Test =>
      (parent, f.(at := if rightFirst then RightParent(parent[u]) else LeftParent(parent[u])))
    case LeftParent(p) => (parent, f.(at := if rightFirst then BothParents(parent[u], p) else LeftGrand(parent[p])))
    case LeftGrand(q) => (parent, f.(at := if q != parent[u] then Body else Leave))
    case RightParent(r) => (parent, f.(at := BothParents(r, parent[u])))
    case BothParents(r, p) => (parent, f.(at := if parent[p] != r then Body else Leave))
    case Body => (parent, f.(at := BodyParent(parent[u])))
    case BodyParent(p) => (parent, f.(at := BodyGrand(parent[p])))
    case BodyGrand(g) => (parent[u := g], f.(at := Advance))
    case Advance => (parent, f.(u := parent[u], at := Test, turns := f.turns + 1))
    case Leave => (parent, f.(at := Found(parent[u])))
    case Found(_) => (parent, f)
  }

  /** The steps of `merge` that are not steps of an inner `find_root`. */
  function MergeStep(s: State, c: Call, choice: bool): (State, Call)
    requires InRange(s) && c.Merging? && MergeInRange(|s.parent|, c)
    requires !((c.at.SeekA? || c.at.SeekB?) && !c.at.f.at.Found?)
  {
    match c.at
    case Seek =>
      (s, c.(at := if choice then SeekB(StartFind(c.b), false) else SeekA(StartFind(c.a), false)))
    case SeekA(f, bKnown) =>
      (s, c.(a := f.at.res, at := if bKnown then Compare else SeekB(StartFind(c.b), true)))
    case SeekB(f, aKnown) =>
      (s, c.(b := f.at.res, at := if aKnown then Compare else SeekA(StartFind(c.a), true)))
    case Compare =>
      if c.a == c.b then (s, Merged(c.x, c.y, false))
      else
        var (a, b) := OrderEdge(s.prio, c.a, c.b);
        (s, c.(a := a, b := b, at := Swap))
    case Swap =>
      if s.parent[c.b] == c.b && !choice then
        (s.(parent := s.parent[c.b := c.a], forest := s.forest + {Edge(c.x, c.y)}), Merged(c.x, c.y, true))
      else
        (s, c.(b := s.parent[c.b], at := Seek))
  }

  /** Thread `t` performs `act`; an action that is not possible leaves the state alone. */
  function Apply(s: State, t: nat, act: Action): State
    requires InRange(s)
  {
    if t >= |s.calls| then s
    else
      var c := s.calls[t];
      match act
      case BeginFind(u) =>
        if c.Idle? && u < |s.parent| then s.(calls := s.calls[t := Finding(StartFind(u))]) else s
      case BeginMerge(x, y) =>
        if c.Idle? && x < |s.parent| && y < |s.parent| then
          s.(calls := s.calls[t := Merging(x, y, x, y, Seek)], asked := s.asked + {Edge(x, y)})
        else s
      case Return =>
        if c.Merged? || (c.Finding? && c.f.at.Found?) then s.(calls := s.calls[t := Idle]) else s
      case Run(choice) =>
        match c
        case Idle => s
        case Merged(_, _, _) => s
        case Finding(f) =>
          var (parent, f') := FindStep(s.parent, f, choice);
          s.(parent := parent, calls := s.calls[t := Finding(f')])
        case Merging(_, _, _, _, at) =>
          if (at.SeekA? || at.SeekB?) && !at.f.at.Found? then
            var (parent, f') := FindStep(s.parent, at.f, choice);
            s.(parent := parent, calls := s.calls[t := c.(at := at.(f := f'))])
          else
            var (s', c') := MergeStep(s, c, choice);
            s'.(calls := s'.calls[t := c'])
  }

  // ---------- what every step keeps ----------

  ghost predicate AboveEq(prio: seq<nat>, a: nat, b: nat)
    requires a < |prio| && b < |prio|
  {
    a == b || Above(prio, a, b)
  }

  /** What a thread inside `find_root` may rely on although its loads can be stale. */
  ghost predicate FindOk(prio: seq<nat>, parent: seq<nat>, f: Find)
    requires Ascending(prio, parent)
  {
    && FindInRange(|parent|, f)
    && Same(prio, parent, f.start, f.u)
    && f.turns + Height(prio, f.u) <= Height(prio, f.start)
    && var u := f.u;
       match f.at
       case LeftParent(p) => AboveEq(prio, p, u) && Same(prio, parent, u, p) && (parent[u] == u ==> p == u)
       case LeftGrand(q) => parent[u] == u ==> q == u
       case RightParent(r) => parent[u] == u ==> r == u
       case BothParents(r, p) => AboveEq(prio, p, u) && Same(prio, parent, u, p) &&
           (parent[u] == u ==> r == u && p == u)
       case Body => parent[u] != u
       case BodyParent(p) => parent[u] != u && Above(prio, p, u) && Same(prio, parent, u, p)
       case BodyGrand(g) => parent[u] != u && Above(prio, g, u) && Same(prio, parent, u, g)
       case Advance => parent[u] != u
       case Found(res) => Same(prio, parent, f.start, res) && Height(prio, res) <= Height(prio, f.start)
       case _ => true
  }

  ghost predicate CallOk(prio: seq<nat>, parent: seq<nat>, c: Call)
    requires Ascending(prio, parent)
  {
    && CallInRange(|parent|, c)
    && match c
       case Idle => true
       case Finding(f) => FindOk(prio, parent, f)
       case Merged(x, y, _) => Same(prio, parent, x, y)
       case Merging(x, y, a, b, at) =>
         && ((Same(prio, parent, x, a) && Same(prio, parent, y, b))
             || (Same(prio, parent, x, b) && Same(prio, parent, y, a)))
         && (at.SeekA? ==> FindOk(prio, parent, at.f) && at.f.start == a)
         && (at.SeekB? ==> FindOk(prio, parent, at.f) && at.f.start == b)
         && (at.Swap? ==> Above(prio, a, b))
  }

  ghost predicate Answered(s: State, e: Edge) {
    || Connected(s.forest, e.src, e.dst)
    || exists t :: 0 <= t < |s.calls| && s.calls[t].Merging? && s.calls[t].x == e.src && s.calls[t].y == e.dst
  }

  ghost predicate Inv(s: State) {
    && InRange(s)
    && Represents(s.prio, s.parent, s.forest)
    && |RootSet(s.parent)| + |s.forest| == |s.parent|
    && (forall t :: 0 <= t < |s.calls| ==> CallOk(s.prio, s.parent, s.calls[t]))
    && s.forest <= s.asked
    && (forall t :: 0 <= t < |s.calls| && s.calls[t].Merging? ==> Edge(s.calls[t].x, s.calls[t].y) in s.asked)
    && (forall e :: e in s.asked ==> Answered(s, e))
  }

  /** The partition only gets coarser and a vertex that stopped being a root stays so. */
  ghost predicate Coarser(prio: seq<nat>, p: seq<nat>, q: seq<nat>) {
    && Ascending(prio, p) && Ascending(prio, q) && |p| == |q|
    && (forall x: nat, y: nat :: x < |p| && y < |p| && Same(prio, p, x, y) ==> Same(prio, q, x, y))
    && (forall u :: 0 <= u < |p| && q[u] == u ==> p[u] == u)
  }

  lemma FindOkStable(prio: seq<nat>, p: seq<nat>, q: seq<nat>, f: Find)
    requires Coarser(prio, p, q) && FindOk(prio, p, f)
    ensures FindOk(prio, q, f)
  {
  }

  lemma CallOkStable(prio: seq<nat>, p: seq<nat>, q: seq<nat>, c: Call)
    requires Coarser(prio, p, q) && CallOk(prio, p, c)
    ensures CallOk(prio, q, c)
  {
    if c.Finding? { FindOkStable(prio, p, q, c.f); }
    if c.Merging? && (c.at.SeekA? || c.at.SeekB?) { FindOkStable(prio, p, q, c.at.f); }
  }

  lemma AboveTrans(prio: seq<nat>, a: nat, b: nat, c: nat)
    requires a < |prio| && b < |prio| && c < |prio|
    requires AboveEq(prio, a, b) && Above(prio, b, c)
    ensures Above(prio, a, c)
  {
  }

  ghost predicate FindOutcome(prio: seq<nat>, parent: seq<nat>, f: Find, q: seq<nat>, f': Find)
    requires Ascending(prio, parent)
  {
    && Ascending(prio, q) && |q| == |parent|
    && FindOk(prio, q, f') && f'.start == f.start
    && (forall x :: 0 <= x < |parent| ==> Root(prio, q, x) == Root(prio, parent, x))
    && RootSet(q) == RootSet(parent)
  }

  lemma TestStepOk(prio: seq<nat>, parent: seq<nat>, f: Find, choice: bool)
    requires Ascending(prio, parent) && FindOk(prio, parent, f)
    requires f.at.Test? || f.at.LeftParent? || f.at.LeftGrand? || f.at.RightParent? || f.at.BothParents? || f.at.Found?
    ensures var (q, f') := FindStep(parent, f, choice); q == parent && FindOk(prio, parent, f') && f'.start == f.start
  {
  }

  lemma BodyStepOk(prio: seq<nat>, parent: seq<nat>, f: Find, choice: bool)
    requires Ascending(prio, parent) && FindOk(prio, parent, f)
    requires f.at.Body? || f.at.BodyParent? || f.at.Advance? || f.at.Leave?
    ensures var (q, f') := FindStep(parent, f, choice); q == parent && FindOk(prio, parent, f') && f'.start == f.start
  {
    var u := f.u;
    if f.at.BodyParent? { AboveTrans(prio, parent[f.at.p], f.at.p, u); }
    if parent[u] != u { HeightDecreases(prio, parent[u], u); }
  }

  /** A step of `find_root` never changes the partition, whatever stale value it stores. */
  lemma FindStepOk(prio: seq<nat>, parent: seq<nat>, f: Find, choice: bool)
    requires Ascending(prio, parent) && FindOk(prio, parent, f)
    ensures FindOutcome(prio, parent, f, FindStep(parent, f, choice).0, FindStep(parent, f, choice).1)
  {
    match f.at
    case BodyGrand(g) => HalvingKeepsPartition(prio, parent, f.u, g);
    case Body => BodyStepOk(prio, parent, f, choice);
    case BodyParent(_) => BodyStepOk(prio, parent, f, choice);
    case Advance => BodyStepOk(prio, parent, f, choice);
    case Leave => BodyStepOk(prio, parent, f, choice);
    case _ => TestStepOk(prio, parent, f, choice);
  }

  lemma OtherCallsOk(prio: seq<nat>, p: seq<nat>, q: seq<nat>, calls: seq<Call>, t: nat, calls': seq<Call>)
    requires Coarser(prio, p, q) && t < |calls| == |calls'|
    requires forall i :: 0 <= i < |calls| ==> CallOk(prio, p, calls[i])
    requires forall i :: 0 <= i < |calls| && i != t ==> calls'[i] == calls[i]
    requires CallOk(prio, q, calls'[t])
    ensures forall i :: 0 <= i < |calls| ==> CallOk(prio, q, calls'[i])
  {
    forall i | 0 <= i < |calls| ensures CallOk(prio, q, calls'[i]) {
      if i != t { CallOkStable(prio, p, q, calls[i]); }
    }
  }

  // A thread that keeps the same `merge` arguments, or had none, leaves every request answered.
  lemma StillAnswered(s: State, s': State, t: nat)
    requires t < |s.calls| && |s'.calls| == |s.calls|
    requires forall i :: 0 <= i < |s.calls| && i != t ==> s'.calls[i] == s.calls[i]
    requires s.forest <= s'.forest
    requires s.calls[t].Merging? ==>
               || (s'.calls[t].Merging? && s'.calls[t].x == s.calls[t].x && s'.calls[t].y == s.calls[t].y)
               || Connected(s'.forest, s.calls[t].x, s.calls[t].y)
    requires forall e :: e in s.asked ==> Answered(s, e)
    ensures forall e :: e in s.asked ==> Answered(s', e)
  {
    forall e | e in s.asked ensures Answered(s', e) {
      if Connected(s.forest, e.src, e.dst) {
        ConnectedMono(s.forest, s'.forest, e.src, e.dst);
      } else {
        var i :| 0 <= i < |s.calls| && s.calls[i].Merging? && s.calls[i].x == e.src && s.calls[i].y == e.dst;
        if i != t { assert s'.calls[i] == s.calls[i]; }
      }
    }
  }

  lemma FindStepKeepsRepresents(s: State, q: seq<nat>)
    requires Represents(s.prio, s.parent, s.forest) && |q| == |s.parent| && Ascending(s.prio, q)
    requires forall x :: 0 <= x < |q| ==> Root(s.prio, q, x) == Root(s.prio, s.parent, x)
    requires RootSet(q) == RootSet(s.parent)
    ensures Represents(s.prio, q, s.forest) && Coarser(s.prio, s.parent, q)
  {
    forall u | 0 <= u < |q| && q[u] == u ensures s.parent[u] == u {
      assert u in RootSet(q);
    }
    forall x: nat, y: nat | x < |q| && y < |q|
      ensures Same(s.prio, q, x, y) <==> Connected(s.forest, x, y)
    {
      assert Same(s.prio, q, x, y) <==> Same(s.prio, s.parent, x, y);
    }
  }

  ghost predicate SameArguments(c: Call, c': Call) {
    c.Merging? && c'.Merging? && c'.x == c.x && c'.y == c.y
  }

  // Every step changes the call of one thread, and otherwise only coarsens the shared state.
  lemma StepKeepsInv(s: State, s': State, t: nat)
    requires Inv(s) && t < |s.calls| == |s'.calls| && s'.prio == s.prio
    requires forall i :: 0 <= i < |s.calls| && i != t ==> s'.calls[i] == s.calls[i]
    requires Represents(s.prio, s'.parent, s'.forest) && Coarser(s.prio, s.parent, s'.parent)
    requires |RootSet(s'.parent)| + |s'.forest| == |s'.parent|
    requires CallOk(s.prio, s'.parent, s'.calls[t])
    requires s.forest <= s'.forest <= s'.asked && s'.asked == s.asked
    requires SameArguments(s.calls[t], s'.calls[t]) || !s'.calls[t].Merging?
    requires s.calls[t].Merging? ==>
               SameArguments(s.calls[t], s'.calls[t]) || Connected(s'.forest, s.calls[t].x, s.calls[t].y)
    ensures Inv(s')
  {
    OtherCallsOk(s.prio, s.parent, s'.parent, s.calls, t, s'.calls);
    StillAnswered(s, s', t);
  }

  lemma RunFindKeepsInv(s: State, t: nat, choice: bool)
    requires Inv(s) && t < |s.calls| && s.calls[t].Finding?
    ensures Inv(Apply(s, t, Run(choice)))
  {
    var f := s.calls[t].f;
    FindStepOk(s.prio, s.parent, f, choice);
    var (q, f') := FindStep(s.parent, f, choice);
    FindStepKeepsRepresents(s, q);
    StepKeepsInv(s, Apply(s, t, Run(choice)), t);
  }

  lemma SeekCallOk(prio: seq<nat>, p: seq<nat>, q: seq<nat>, c: Call, f: Find)
    requires Coarser(prio, p, q) && CallOk(prio, p, c) && c.Merging? && (c.at.SeekA? || c.at.SeekB?)
    requires FindOk(prio, q, f) && f.start == c.at.f.start
    ensures CallOk(prio, q, c.(at := c.at.(f := f)))
  {
  }

  lemma SeekStep(s: State, t: nat, c: Call, choice: bool)
    requires InRange(s) && t < |s.calls| && c == s.calls[t] && c.Merging?
    requires (c.at.SeekA? || c.at.SeekB?) && !c.at.f.at.Found?
    ensures var (q, f) := FindStep(s.parent, c.at.f, choice);
            Apply(s, t, Run(choice)) == s.(parent := q, calls := s.calls[t := c.(at := c.at.(f := f))])
  {
  }

  lemma RunSeekKeepsInv(s: State, t: nat, c: Call, choice: bool)
    requires InRange(s) && t < |s.calls| && c == s.calls[t] && c.Merging?
    requires (c.at.SeekA? || c.at.SeekB?) && !c.at.f.at.Found?
    requires Inv(s)
    ensures Inv(Apply(s, t, Run(choice)))
  {
    FindStepOk(s.prio, s.parent, c.at.f, choice);
    var (q, f') := FindStep(s.parent, c.at.f, choice);
    FindStepKeepsRepresents(s, q);
    SeekCallOk(s.prio, s.parent, q, c, f');
    StepKeepsInv(s, s.(parent := q, calls := s.calls[t := c.(at := c.at.(f := f'))]), t);
    SeekStep(s, t, c, choice);
  }

  lemma StartFindOk(prio: seq<nat>, parent: seq<nat>, u: nat)
    requires Ascending(prio, parent) && u < |parent|
    ensures FindOk(prio, parent, StartFind(u))
  {
  }

  /** The steps of `merge` that only change the thread's own variables; `merged = false` is only
      answered when the two arguments are in one set. */
  ghost predicate LocalOutcome(s: State, c: Call, c': Call)
    requires Ascending(s.prio, s.parent) && c.Merging? && CallOk(s.prio, s.parent, c)
  {
    && CallOk(s.prio, s.parent, c')
    && (SameArguments(c, c') || (c' == Merged(c.x, c.y, false) && Same(s.prio, s.parent, c.x, c.y)))
  }

  lemma SeekDoneOk(s: State, c: Call, choice: bool)
    requires InRange(s) && Ascending(s.prio, s.parent) && c.Merging? && CallOk(s.prio, s.parent, c)
    requires c.at.Seek? || ((c.at.SeekA? || c.at.SeekB?) && c.at.f.at.Found?)
    ensures MergeStep(s, c, choice).0 == s && LocalOutcome(s, c, MergeStep(s, c, choice).1)
  {
    StartFindOk(s.prio, s.parent, c.a);
    StartFindOk(s.prio, s.parent, c.b);
  }

  lemma CompareOk(s: State, c: Call, choice: bool)
    requires InRange(s) && Ascending(s.prio, s.parent) && c.Merging? && CallOk(s.prio, s.parent, c)
    requires c.at.Compare? || (c.at.Swap? && (s.parent[c.b] != c.b || choice))
    ensures MergeStep(s, c, choice).0 == s && LocalOutcome(s, c, MergeStep(s, c, choice).1)
  {
  }

  lemma LocalStep(s: State, t: nat, c: Call, choice: bool)
    requires InRange(s) && t < |s.calls| && c == s.calls[t] && c.Merging?
    requires !((c.at.SeekA? || c.at.SeekB?) && !c.at.f.at.Found?)
    requires MergeStep(s, c, choice).0 == s
    ensures Apply(s, t, Run(choice)) == s.(calls := s.calls[t := MergeStep(s, c, choice).1])
  {
  }

  lemma RunLocalKeepsInv(s: State, t: nat, c: Call, choice: bool)
    requires InRange(s) && t < |s.calls| && c == s.calls[t] && c.Merging?
    requires !((c.at.SeekA? || c.at.SeekB?) && !c.at.f.at.Found?)
    requires !(c.at.Swap? && s.parent[c.b] == c.b && !choice)
    requires Inv(s)
    ensures Inv(Apply(s, t, Run(choice)))
  {
    if c.at.Compare? || c.at.Swap? { CompareOk(s, c, choice); } else { SeekDoneOk(s, c, choice); }
    FindStepKeepsRepresents(s, s.parent);
    var c' := MergeStep(s, c, choice).1;
    StepKeepsInv(s, s.(calls := s.calls[t := c']), t);
    LocalStep(s, t, c, choice);
  }

  lemma LinkIsCoarser(prio: seq<nat>, parent: seq<nat>, a: nat, b: nat)
    requires Ascending(prio, parent) && a < |parent| && b < |parent|
    requires parent[b] == b && Above(prio, a, b)
    ensures Coarser(prio, parent, parent[b := a])
  {
    LinkJoins(prio, parent, a, b);
  }

  lemma WinEffect(prio: seq<nat>, parent: seq<nat>, F: set<Edge>, c: Call)
    requires Represents(prio, parent, F) && c.Merging? && c.at.Swap? && CallOk(prio, parent, c)
    requires parent[c.b] == c.b
    ensures var q := parent[c.b := c.a];
            var G := F + {Edge(c.x, c.y)};
            && Represents(prio, q, G) && Coarser(prio, parent, q)
            && Same(prio, q, c.x, c.y) && Connected(G, c.x, c.y)
            && !Connected(F, c.x, c.y) && |G| == |F| + 1
            && |RootSet(q)| == |RootSet(parent)| - 1
  {
    var e := Edge(c.x, c.y);
    LinkJoins(prio, parent, c.a, c.b);
    LinkIsCoarser(prio, parent, c.a, c.b);
    LinkKeepsRepresents(prio, parent, F, e, c.a, c.b);
    ConnectedEdge(F + {e}, e);
  }

  /** A winning compare-and-swap joins two distinct sets and adds exactly its own edge. */
  lemma WinJoinsDistinctSets(s: State, t: nat, c: Call)
    requires InRange(s) && t < |s.calls| && c == s.calls[t] && c.Merging? && c.at.Swap?
    requires s.parent[c.b] == c.b
    requires Inv(s)
    ensures var s' := Apply(s, t, Run(false));
            && Inv(s')
            && !Connected(s.forest, c.x, c.y)
            && s'.forest == s.forest + {Edge(c.x, c.y)}
            && |RootSet(s'.parent)| == |RootSet(s.parent)| - 1
            && s'.calls[t] == Merged(c.x, c.y, true)
  {
    WinEffect(s.prio, s.parent, s.forest, c);
    var s' := s.(parent := s.parent[c.b := c.a], forest := s.forest + {Edge(c.x, c.y)},
                 calls := s.calls[t := Merged(c.x, c.y, true)]);
    StepKeepsInv(s, s', t);
    WinningStep(s, t, c);
  }

  lemma WinningStep(s: State, t: nat, c: Call)
    requires InRange(s) && t < |s.calls| && c == s.calls[t] && c.Merging? && c.at.Swap?
    requires s.parent[c.b] == c.b
    ensures Apply(s, t, Run(false)) ==
            s.(parent := s.parent[c.b := c.a], forest := s.forest + {Edge(c.x, c.y)},
               calls := s.calls[t := Merged(c.x, c.y, true)])
  {
  }

  lemma BeginKeepsInv(s: State, t: nat, act: Action)
    requires Inv(s) && !act.Run?
    ensures Inv(Apply(s, t, act))
  {
    var s' := Apply(s, t, act);
    if s' != s {
      FindStepKeepsRepresents(s, s.parent);
      if act.BeginFind? { StartFindOk(s.prio, s.parent, act.u); }
      OtherCallsOk(s.prio, s.parent, s.parent, s.calls, t, s'.calls);
      StillAnswered(s, s', t);
      if act.BeginMerge? {
        assert s'.calls[t].Merging?;
        assert Answered(s', Edge(act.x, act.y));
      }
    }
  }

  lemma ApplyKeepsInv(s: State, t: nat, act: Action)
    requires Inv(s)
    ensures Inv(Apply(s, t, act))
  {
    if t >= |s.calls| {
    } else if !act.Run? {
      BeginKeepsInv(s, t, act);
    } else {
      var c := s.calls[t];
      if c.Finding? {
        RunFindKeepsInv(s, t, act.choice);
      } else if c.Merging? {
        if (c.at.SeekA? || c.at.SeekB?) && !c.at.f.at.Found? {
          RunSeekKeepsInv(s, t, c, act.choice);
        } else if c.at.Swap? && s.parent[c.b] == c.b && !act.choice {
          WinJoinsDistinctSets(s, t, c);
        } else {
          RunLocalKeepsInv(s, t, c, act.choice);
        }
      } else {
        assert Apply(s, t, act) == s;
      }
    }
  }

  // ---------- whole runs ----------

  /** A schedule names, step by step, the thread that moves and what it does. */
  type Schedule = seq<(nat, Action)>

  /** The state after a schedule (the guard never fails: every step keeps `InRange`). */
  function Exec(s: State, sched: Schedule): State
    decreases |sched|
  {
    if sched == [] || !InRange(s) then s
    else Exec(Apply(s, sched[0].0, sched[0].1), sched[1..])
  }

  lemma {:induction false} ExecKeepsInv(s: State, sched: Schedule)
    requires Inv(s)
    ensures Inv(Exec(s, sched))
    decreases |sched|
  {
    if sched != [] {
      ApplyKeepsInv(s, sched[0].0, sched[0].1);
      ExecKeepsInv(Apply(s, sched[0].0, sched[0].1), sched[1..]);
    }
  }

  function Fresh(prio: seq<nat>, threads: nat): State {
    State(prio, seq(|prio|, i => i), seq(threads, i => Idle), {}, {})
  }

  lemma FreshInv(prio: seq<nat>, threads: nat)
    ensures Inv(Fresh(prio, threads))
  {
    IdentityRepresents(prio);
    var s := Fresh(prio, threads);
    forall t | 0 <= t < |s.calls| ensures CallOk(s.prio, s.parent, s.calls[t]) {
    }
  }

  ghost predicate NoMergeRunning(s: State) {
    forall t :: 0 <= t < |s.calls| ==> !s.calls[t].Merging?
  }

  /** Under every schedule: links climb, winning merges form a spanning forest of everything asked so far
      once no merge is running, and roots plus wins always make n. */
  lemma RunsAreExact(prio: seq<nat>, threads: nat, sched: Schedule)
    ensures var s := Exec(Fresh(prio, threads), sched);
            && Ascending(s.prio, s.parent)
            && |RootSet(s.parent)| + |s.forest| == |s.parent|
            && (NoMergeRunning(s) ==>
                 && SpanningForest(s.forest, s.asked)
                 && forall x: nat, y: nat :: x < |s.parent| && y < |s.parent| ==>
                      (Same(s.prio, s.parent, x, y) <==> Connected(s.asked, x, y)))
  {
    FreshInv(prio, threads);
    ExecKeepsInv(Fresh(prio, threads), sched);
    var s := Exec(Fresh(prio, threads), sched);
    if NoMergeRunning(s) {
      forall e | e in s.asked ensures Connected(s.forest, e.src, e.dst) {
        assert Answered(s, e);
      }
      forall x: nat, y: nat ensures Connected(s.asked, x, y) <==> Connected(s.forest, x, y) {
        if Connected(s.asked, x, y) { EdgesConnectedSuffices(s.asked, s.forest, x, y); }
        if Connected(s.forest, x, y) { ConnectedMono(s.forest, s.asked, x, y); }
      }
    }
  }

  lemma EdgesConnectedSuffices(E: set<Edge>, F: set<Edge>, x: nat, y: nat)
    requires Connected(E, x, y) && forall e :: e in E ==> Connected(F, e.src, e.dst)
    ensures Connected(F, x, y)
  {
    var p :| Walk(E, x, p, y);
    WalkInside(E, F, x, p, y);
  }

  lemma {:induction false} WalkInside(E: set<Edge>, F: set<Edge>, x: nat, p: seq<nat>, y: nat)
    requires Walk(E, x, p, y) && forall e :: e in E ==> Connected(F, e.src, e.dst)
    ensures Connected(F, x, y)
    decreases |p|
  {
    if p == [] {
      ConnectedRefl(F, x);
    } else {
      var e :| e in E && Joins(e, x, p[0]);
      if e.src != x { ConnectedSym(F, e.src, e.dst); }
      WalkInside(E, F, p[0], p[1..], y);
      ConnectedTrans(F, x, p[0], y);
    }
  }

  /** Every call ever started is answered correctly: a finished merge has its arguments in one set,
      a finished find returns a member of its argument's set, and no find loops n times or more. */
  lemma CallsAnsweredCorrectly(prio: seq<nat>, threads: nat, sched: Schedule, t: nat)
    requires t < threads
    ensures var s := Exec(Fresh(prio, threads), sched);
            && Ascending(s.prio, s.parent) && t < |s.calls|
            && match s.calls[t]
              case Idle => true
              case Merged(x, y, _) => x < |s.parent| && y < |s.parent| && Same(s.prio, s.parent, x, y)
              case Finding(f) => f.turns < |prio| &&
                (f.at.Found? ==>
                   f.start < |s.parent| && f.at.res < |s.parent| && Same(s.prio, s.parent, f.start, f.at.res))
              case Merging(_, _, _, _, at) => at.SeekA? || at.SeekB? ==> at.f.turns < |prio|
  {
    FreshInv(prio, threads);
    ExecKeepsInv(Fresh(prio, threads), sched);
    var s := Exec(Fresh(prio, threads), sched);
    ExecShape(Fresh(prio, threads), sched);
    assert CallOk(s.prio, s.parent, s.calls[t]);
    match s.calls[t]
    case Finding(f) => HeightBounded(prio, f.start);
    case Merging(_, _, _, _, at) =>
      if at.SeekA? || at.SeekB? { HeightBounded(prio, at.f.start); }
    case _ =>
  }

  lemma {:induction false} ExecShape(s: State, sched: Schedule)
    ensures Exec(s, sched).prio == s.prio && |Exec(s, sched).calls| == |s.calls|
    ensures |Exec(s, sched).parent| == |s.parent|
    decreases |sched|
  {
    if sched != [] && InRange(s) {
      ApplyShape(s, sched[0].0, sched[0].1);
      ExecShape(Apply(s, sched[0].0, sched[0].1), sched[1..]);
    }
  }

  lemma ApplyShape(s: State, t: nat, act: Action)
    requires InRange(s)
    ensures Apply(s, t, act).prio == s.prio && |Apply(s, t, act).calls| == |s.calls|
    ensures |Apply(s, t, act).parent| == |s.parent|
  {
  }
}
