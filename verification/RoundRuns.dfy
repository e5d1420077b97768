/** Whole rounds: every interleaving of the threads, from the start of a round until all of them are done. */
module RoundRuns {
  import opened Graphs
  import opened DisjointSets
  import opened Sketches
  import opened Supernodes
  import opened Partitions
  import opened MergeLists
  import opened RoundProtocol
  import opened RoundSafety
  import opened RoundOutcome

  // ---------- the start of a round ----------

  lemma StartThread(c: Ctx, E: set<Edge>, t: nat)
    requires c.p.Valid() && c.l.Valid() && t < c.l.Threads() && c.l.bounds[t] < c.l.N()
    ensures ThreadOk(c, E, t, InitialThread(c, t))
  {
    assert Look(LAYOUT);
    PartNonEmpty(c.l, t);
    var q := c.l.bounds[t];
    var root := c.l.m[q].root;
    assert HasRoot(c.l.m, root);
    RunIsInterval(c.l.m, root, q);
    assert SegStart(c.l, t, root) == q;
    assert Kids(c.l, q, q) == {};
    HeldEmpty(c.p, c.r, E);
    assert ScanOk(c, E, t, q, root, FromLeft(c.l, t), InitialThread(c, t).local);
  }

  lemma NothingPast(l: Layout, t: nat, root: nat)
    requires l.Valid() && HasRoot(l.m, root) && t < l.Threads() && t in Span(l, root) && l.bounds[t] < l.N()
    ensures l.m[l.bounds[t]].root <= root
  {
    assert Look(LAYOUT);
    PartsOfRoot(l, root, t);
    var q :| 0 <= q < |l.m| && l.m[q].root == root && l.part[q] == t;
    InPart(l, t, q);
    if l.bounds[t] < q { assert l.m[l.bounds[t]].root <= l.m[q].root; }
  }

  lemma StartRoot(c: Ctx, E: set<Edge>, s: State, root: nat)
    requires c.p.Valid() && c.l.Valid() && HasRoot(c.l.m, root)
    requires forall t :: 0 <= t < c.l.Threads() ==> c.l.bounds[t] < |c.l.m|
    requires s == Initial(c)
    ensures RootOk(c, E, s, root)
  {
    PartsOfRoot(c.l, root, First(c.l, root));
    assert PastSet(c, s, root) == {} by {
      forall t | t in PastSet(c, s, root) ensures false { NothingPast(c.l, t, root); }
    }
    assert PendSet(c, s, root) == {};
    StartView(c, E, root);
  }

  lemma StartView(c: Ctx, E: set<Edge>, root: nat)
    requires c.p.Valid() && c.l.Valid() && HasRoot(c.l.m, root)
    ensures ViewOk(c, E, root, {}, {}, false, Global(SketchVal(ZeroFn(c.p), 0), UNSET, 0), false)
  {
    PartsOfRoot(c.l, root, First(c.l, root));
    assert First(c.l, root) in Span(c.l, root);
    assert KidsOf(c.l, root, {}) == {};
    HeldEmpty(c.p, c.r, E);
  }

  lemma StartShared(c: Ctx)
    requires c.p.Valid() && Represents(c.prio, c.parent0, c.forest0)
    ensures SharedOk(c, Shared(c.parent0, c.forest0, false, false, []))
  {
  }

  lemma StartInRange(l: Layout)
    requires l.Valid()
    ensures forall t :: 0 <= t < l.Threads() ==> l.bounds[t] < |l.m|
  {
    forall t | 0 <= t < l.Threads() ensures l.bounds[t] < |l.m| { PartNonEmpty(l, t); }
  }

  lemma InitialInv(c: Ctx, E: set<Edge>)
    requires CtxOk(c, E)
    ensures forall t :: 0 <= t < c.l.Threads() ==> c.l.bounds[t] < |c.l.m|
    ensures Inv(c, E, Initial(c))
  {
    StartInRange(c.l);
    var s := Initial(c);
    forall t | 0 <= t < |s.thr| ensures ThreadOk(c, E, t, s.thr[t]) { StartThread(c, E, t); }
    forall root | HasRoot(c.l.m, root) ensures RootOk(c, E, s, root) { StartRoot(c, E, s, root); }
    StartShared(c);
  }

  // ---------- every round ends ----------

  /** Bounds the steps thread `t` still has to take. */
  function Weight(l: Layout, t: nat, pc: Pc): nat
    requires t < l.Threads()
  {
    var end := l.bounds[t + 1];
    match pc
    case Scan(i, cur, _) =>
      if i >= end then 5 else 4 * (end - i) + 5 + (if i < l.N() && l.m[i].root != cur then 2 else 0)
    case Own(i, _) => if i >= end then 6 else 4 * (end - i) + 6
    case Announce(_) => 4
    case Deposit(_) => 3
    case Collect(_, _) => 2
    case Done => 0
  }

  function Work(l: Layout, thr: seq<Thr>, k: nat): nat
    requires k <= |thr| <= l.Threads()
  {
    if k == 0 then 0 else Work(l, thr, k - 1) + Weight(l, k - 1, thr[k - 1].pc)
  }

  lemma {:induction false} WorkOfChange(l: Layout, a: seq<Thr>, b: seq<Thr>, t: nat, k: nat)
    requires k <= |a| == |b| <= l.Threads() && t < |a|
    requires forall i :: 0 <= i < |a| && i != t ==> b[i] == a[i]
    ensures Work(l, b, k) + (if t < k then Weight(l, t, a[t].pc) else 0)
         == Work(l, a, k) + (if t < k then Weight(l, t, b[t].pc) else 0)
  {
    if k > 0 { WorkOfChange(l, a, b, t, k - 1); }
  }

  lemma StepLighter(c: Ctx, s: State, t: nat)
    requires Runnable(c, s, t) && s.thr[t].pc != Done
    ensures var s' := Step(c, s, t);
            && |s'.thr| == |s.thr| && (forall i :: 0 <= i < |s.thr| && i != t ==> s'.thr[i] == s.thr[i])
            && Weight(c.l, t, s'.thr[t].pc) < Weight(c.l, t, s.thr[t].pc)
  {
  }

  lemma StepDecreases(c: Ctx, s: State, t: nat)
    requires Runnable(c, s, t) && s.thr[t].pc != Done
    ensures |Step(c, s, t).thr| == |s.thr|
    ensures Work(c.l, Step(c, s, t).thr, |s.thr|) < Work(c.l, s.thr, |s.thr|)
  {
    StepLighter(c, s, t);
    WorkOfChange(c.l, s.thr, Step(c, s, t).thr, t, |s.thr|);
  }

  lemma {:induction false} InitialWork(c: Ctx, k: nat)
    requires c.l.Valid() && k <= c.l.Threads()
    requires forall t :: 0 <= t < c.l.Threads() ==> c.l.bounds[t] < |c.l.m|
    ensures Work(c.l, Initial(c).thr, k) == 4 * c.l.bounds[k] + 5 * k
  {
    assert Look(LAYOUT);
    if k > 0 {
      InitialWork(c, k - 1);
      PartNonEmpty(c.l, k - 1);
    }
  }

  // ---------- schedules ----------

  /** The threads named by `sched` move one after the other; a name that is no thread is skipped. */
  ghost function Run(c: Ctx, s: State, sched: seq<nat>): State
    decreases |sched|
  {
    if sched == [] then s
    else if Runnable(c, s, sched[0]) then Run(c, Step(c, s, sched[0]), sched[1..])
    else Run(c, s, sched[1..])
  }

  /** Only threads that still have work are scheduled. */
  ghost predicate Productive(c: Ctx, s: State, sched: seq<nat>)
    decreases |sched|
  {
    sched == [] ||
    (Runnable(c, s, sched[0]) && s.thr[sched[0]].pc != Done && Productive(c, Step(c, s, sched[0]), sched[1..]))
  }

  predicate AllDone(s: State) { forall t :: 0 <= t < |s.thr| ==> s.thr[t].pc == Done }

  lemma {:induction false} RunKeepsInv(c: Ctx, E: set<Edge>, s: State, sched: seq<nat>)
    requires CtxOk(c, E) && Inv(c, E, s)
    ensures Inv(c, E, Run(c, s, sched))
    decreases |sched|
  {
    if sched != [] {
      if Runnable(c, s, sched[0]) {
        StepKeepsInv(c, E, s, sched[0]);
        RunKeepsInv(c, E, Step(c, s, sched[0]), sched[1..]);
      } else {
        RunKeepsInv(c, E, s, sched[1..]);
      }
    }
  }

  lemma {:induction false} ProductiveBounded(c: Ctx, s: State, sched: seq<nat>)
    requires |s.thr| == c.l.Threads() && Productive(c, s, sched)
    ensures |sched| <= Work(c.l, s.thr, |s.thr|)
    decreases |sched|
  {
    if sched != [] {
      StepDecreases(c, s, sched[0]);
      ProductiveBounded(c, Step(c, s, sched[0]), sched[1..]);
    }
  }

  /** What a finished round has done: every supernode was sampled exactly once, on the exclusive-or of the round-r
      columns of all its vertices, and the union-find took up exactly the sampled edges. */
  ghost predicate RoundResult(c: Ctx, E: set<Edge>, sh: Shared)
    requires CtxOk(c, E)
  {
    && LogOk(c, E, sh.log) && SharedOk(c, sh)
    && (forall root :: HasRoot(c.l.m, root) ==> Logged(sh.log, root))
  }

  /** In every reachable state: the counter of a slot never exceeds the number of merges it waits for, no two
      supernodes share a slot, and whoever is sampled has been merged by all threads that hold a portion. */
  ghost predicate SlotsSafe(c: Ctx, s: State)
    requires c.p.Valid() && c.l.Valid() && |s.thr| == |s.globals| == c.l.Threads()
  {
    && (forall root :: HasRoot(c.l.m, root) ==>
          && First(c.l, root) <= Last(c.l, root) < c.l.Threads()
          && (First(c.l, root) < Last(c.l, root) ==>
              s.globals[Last(c.l, root)].done <= s.globals[Last(c.l, root)].needed)
          && (Logged(s.sh.log, root) ==> PastSet(c, s, root) == Span(c.l, root)))
    && (forall a, b | HasRoot(c.l.m, a) && HasRoot(c.l.m, b) && First(c.l, a) < Last(c.l, a)
                      && First(c.l, b) < Last(c.l, b)
          :: Last(c.l, a) == Last(c.l, b) ==> a == b)
  }

  lemma CounterBounded(c: Ctx, E: set<Edge>, s: State, root: nat)
    requires c.p.Valid() && c.l.Valid() && c.l.Threads() < UNSET && |s.thr| == |s.globals| == c.l.Threads()
    requires HasRoot(c.l.m, root) && RootOk(c, E, s, root)
    ensures First(c.l, root) <= Last(c.l, root) < c.l.Threads()
    ensures First(c.l, root) < Last(c.l, root) ==> s.globals[Last(c.l, root)].done <= s.globals[Last(c.l, root)].needed
  {
    assert Look(ROOT);
    PartsOfRoot(c.l, root, 0);
    FullBySize(PastSet(c, s, root), Span(c.l, root));
  }

  lemma InvSlotsSafe(c: Ctx, E: set<Edge>, s: State)
    requires CtxOk(c, E) && Inv(c, E, s)
    ensures SlotsSafe(c, s)
  {
    assert Look(ROOT);
    forall root | HasRoot(c.l.m, root)
      ensures First(c.l, root) <= Last(c.l, root) < c.l.Threads()
      ensures First(c.l, root) < Last(c.l, root) ==>
          s.globals[Last(c.l, root)].done <= s.globals[Last(c.l, root)].needed
      ensures Logged(s.sh.log, root) ==> PastSet(c, s, root) == Span(c.l, root)
    {
      assert RootOk(c, E, s, root);
      CounterBounded(c, E, s, root);
    }
    forall a, b | HasRoot(c.l.m, a) && HasRoot(c.l.m, b) && First(c.l, a) < Last(c.l, a)
      && First(c.l, b) < Last(c.l, b) && Last(c.l, a) == Last(c.l, b) ensures a == b
    {
      SlotsDistinct(c.l, a, b);
    }
  }

  lemma DoneRootLogged(c: Ctx, E: set<Edge>, s: State, root: nat)
    requires c.p.Valid() && c.l.Valid() && |s.thr| == |s.globals| == c.l.Threads()
    requires HasRoot(c.l.m, root) && RootOk(c, E, s, root) && AllDone(s)
    ensures Logged(s.sh.log, root)
  {
    assert Look(ROOT);
    assert PendSet(c, s, root) == {};
    forall t | t in Span(c.l, root) ensures t in PastSet(c, s, root) { PartsOfRoot(c.l, root, t); }
    assert PastSet(c, s, root) == Span(c.l, root);
  }

  lemma DoneMeansSampled(c: Ctx, E: set<Edge>, s: State)
    requires CtxOk(c, E) && Inv(c, E, s) && AllDone(s)
    ensures RoundResult(c, E, s.sh)
  {
    forall root | HasRoot(c.l.m, root) ensures Logged(s.sh.log, root) { DoneRootLogged(c, E, s, root); }
  }

  /** Main theorem. Under every interleaving the counters and slots are safe at all times; a schedule that always
      picks an unfinished thread ends within 4 n + 5 T steps; and once all threads are done every supernode has
      been sampled exactly once on its complete sketch. */
  lemma EveryScheduleExact(c: Ctx, E: set<Edge>, sched: seq<nat>)
    requires CtxOk(c, E)
    ensures forall t :: 0 <= t < c.l.Threads() ==> c.l.bounds[t] < |c.l.m|
    ensures var s := Run(c, Initial(c), sched);
            Inv(c, E, s) && SlotsSafe(c, s) && (AllDone(s) ==> RoundResult(c, E, s.sh))
    ensures Productive(c, Initial(c), sched) ==> |sched| <= 4 * c.l.N() + 5 * c.l.Threads()
  {
    assert Look(THREAD);
    InitialInv(c, E);
    RunKeepsInv(c, E, Initial(c), sched);
    var s := Run(c, Initial(c), sched);
    InvSlotsSafe(c, E, s);
    if AllDone(s) { DoneMeansSampled(c, E, s); }
    if Productive(c, Initial(c), sched) {
      ProductiveBounded(c, Initial(c), sched);
      InitialWork(c, c.l.Threads());
    }
  }

  // ---------- the round as it is called ----------

  lemma {:induction false} RunSnoc(c: Ctx, s: State, sched: seq<nat>, t: nat)
    requires Runnable(c, Run(c, s, sched), t)
    ensures Run(c, s, sched + [t]) == Step(c, Run(c, s, sched), t)
    decreases |sched|
  {
    var all := sched + [t];
    if sched == [] {
      assert all[1..] == [];
      assert Run(c, s, all) == Run(c, Step(c, s, t), all[1..]);
    } else {
      assert all[0] == sched[0] && all[1..] == sched[1..] + [t];
      if Runnable(c, s, sched[0]) { RunSnoc(c, Step(c, s, sched[0]), sched[1..], t); }
      else { RunSnoc(c, s, sched[1..], t); }
    }
  }

  ghost predicate Going(c: Ctx, E: set<Edge>, s: State, sched: seq<nat>)
    requires CtxOk(c, E)
  {
    && (forall t :: 0 <= t < c.l.Threads() ==> c.l.bounds[t] < |c.l.m|)
    && Inv(c, E, s) && Run(c, Initial(c), sched) == s
  }

  lemma StepOnwards(c: Ctx, E: set<Edge>, s: State, t: nat, sched: seq<nat>)
    requires CtxOk(c, E) && Going(c, E, s, sched) && t < |s.thr| && s.thr[t].pc != Done
    ensures Runnable(c, s, t) && Going(c, E, Step(c, s, t), sched + [t]) && Left(c.l, Step(c, s, t)) < Left(c.l, s)
  {
    StepKeepsInv(c, E, s, t);
    StepDecreases(c, s, t);
    RunSnoc(c, Initial(c), sched, t);
  }

  ghost function Left(l: Layout, s: State): nat { if |s.thr| <= l.Threads() then Work(l, s.thr, |s.thr|) else 0 }

  /** Some interleaving of the threads brings the round to an end with this result. */
  ghost predicate RanTo(c: Ctx, sh: Shared) {
    && (forall t :: 0 <= t < c.l.Threads() ==> c.l.bounds[t] < |c.l.m|)
    && exists sched :: AllDone(Run(c, Initial(c), sched)) && Run(c, Initial(c), sched).sh == sh
  }

  lemma RanResult(c: Ctx, E: set<Edge>, sh: Shared)
    requires CtxOk(c, E) && RanTo(c, sh)
    ensures RoundResult(c, E, sh)
  {
    var sched :| AllDone(Run(c, Initial(c), sched)) && Run(c, Initial(c), sched).sh == sh;
    EveryScheduleExact(c, E, sched);
  }

  /** `perform_boruvka_round` for rounds above zero: the threads run in whatever order the scheduler picks. */
  method RunRound(c: Ctx, ghost E: set<Edge>) returns (sh: Shared)
    requires CtxOk(c, E)
    ensures RanTo(c, sh)
  {
    InitialInv(c, E);
    var s := Initial(c);
    ghost var sched: seq<nat> := [];
    while exists t :: 0 <= t < |s.thr| && s.thr[t].pc != Done
      invariant Going(c, E, s, sched)
      decreases Left(c.l, s)
    {
      var t :| 0 <= t < |s.thr| && s.thr[t].pc != Done;
      StepOnwards(c, E, s, t, sched);
      sched := sched + [t];
      s := Step(c, s, t);
    }
    assert AllDone(s);
    sh := s.sh;
  }

  /** Every round can be brought to an end. */
  lemma {:induction false} CanFinish(c: Ctx, E: set<Edge>, s: State, sched: seq<nat>) returns (sh: Shared)
    requires CtxOk(c, E) && Going(c, E, s, sched)
    ensures RanTo(c, sh)
    decreases Left(c.l, s)
  {
    if t :| 0 <= t < |s.thr| && s.thr[t].pc != Done {
      StepOnwards(c, E, s, t, sched);
      sh := CanFinish(c, E, Step(c, s, t), sched + [t]);
    } else {
      assert AllDone(s);
      sh := s.sh;
    }
  }

  lemma SomeRound(c: Ctx, E: set<Edge>) returns (sh: Shared)
    requires CtxOk(c, E)
    ensures RanTo(c, sh)
  {
    InitialInv(c, E);
    sh := CanFinish(c, E, Initial(c), []);
  }
}
