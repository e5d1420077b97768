/** All steps of a round together: whichever thread moves, the round invariant survives. */
module RoundOutcome {
  import opened Graphs
  import opened DisjointSets
  import opened Sketches
  import opened Partitions
  import opened MergeLists
  import opened RoundProtocol
  import opened RoundSafety
  import opened RoundSteps

  ghost predicate GoodStep(c: Ctx, E: set<Edge>, s: State, s': State, t: nat)
    requires c.p.Valid() && c.l.Valid() && Ascending(c.prio, c.parent0)
  {
    && (exists touched :: Effect(c, E, s, s', t, touched))
    && LogOk(c, E, s'.sh.log) && SharedOk(c, s'.sh)
  }

  /** What a step lemma may use about the state before the step. */
  ghost predicate Ready(c: Ctx, E: set<Edge>, s: State, t: nat, root: nat)
    requires c.p.Valid() && c.l.Valid() && Ascending(c.prio, c.parent0)
  {
    && |s.thr| == |s.globals| == c.l.Threads() && t < c.l.Threads()
    && SlotsFit(c, s.globals) && LogOk(c, E, s.sh.log) && SharedOk(c, s.sh)
    && HasRoot(c.l.m, root) && RootOk(c, E, s, root)
  }

  lemma InvReady(c: Ctx, E: set<Edge>, s: State, t: nat, root: nat)
    requires CtxOk(c, E) && Inv(c, E, s) && t < c.l.Threads() && HasRoot(c.l.m, root)
    ensures Ready(c, E, s, t, root) && ThreadOk(c, E, t, s.thr[t])
  {
  }

  ghost predicate Parts(c: Ctx, E: set<Edge>) {
    c.p.Valid() && c.l.Valid() && Ascending(c.prio, c.parent0)
  }

  lemma OneThread(c: Ctx, s: State, t: nat, th: Thr, gs: seq<Global>, sh: Shared)
    requires |s.thr| == |s.globals| == |gs| == c.l.Threads() && t < c.l.Threads()
    ensures OnlyThread(c, s, State(s.thr[t := th], gs, sh), t)
  {
  }

  // ---------- loop iterations ----------

  lemma DoAdvance(c: Ctx, E: set<Edge>, s: State, t: nat, i: nat, cur: nat, fromLeft: bool, loc: SketchVal)
    requires Parts(c, E) && Ready(c, E, s, t, cur)
    requires s.thr[t].pc == Scan(i, cur, fromLeft) && ScanOk(c, E, t, i + 1, cur, fromLeft, loc)
    ensures GoodStep(c, E, s, State(s.thr[t := Thr(Scan(i + 1, cur, fromLeft), loc)], s.globals, s.sh), t)
  {
    var th := Thr(Scan(i + 1, cur, fromLeft), loc);
    OneThread(c, s, t, th, s.globals, s.sh);
    AdvanceStep(c, E, s, State(s.thr[t := th], s.globals, s.sh), t, i, cur, fromLeft);
  }

  lemma DoOwn(c: Ctx, E: set<Edge>, s: State, t: nat, i: nat, cur: nat, g: Global, ready: bool)
    requires CtxOk(c, E) && Ready(c, E, s, t, cur) && |s.thr[t].local.buckets| == c.p.Len()
    requires s.thr[t].pc == Scan(i, cur, true) && ScanOk(c, E, t, i, cur, true, s.thr[t].local)
    requires i < c.l.bounds[t + 1] && c.l.m[i].root != cur
    requires (g, ready) == MergeGlobal(c.p, c.r, s.globals[t], s.thr[t].local)
    ensures GoodStep(c, E, s, State(s.thr[t := Thr(Own(i, ready), s.thr[t].local)], s.globals[t := g], s.sh), t)
  {
    var th := Thr(Own(i, ready), s.thr[t].local);
    OneThread(c, s, t, th, s.globals[t := g], s.sh);
    OwnStep(c, E, s, State(s.thr[t := th], s.globals[t := g], s.sh), t, i, cur);
  }

  lemma DoLocal(c: Ctx, E: set<Edge>, s: State, t: nat, i: nat, cur: nat, sh: Shared)
    requires Parts(c, E) && Ready(c, E, s, t, cur) && |s.thr[t].local.buckets| == c.p.Len()
    requires s.thr[t].pc == Scan(i, cur, false) && ScanOk(c, E, t, i, cur, false, s.thr[t].local)
    requires i < c.l.bounds[t + 1] && c.l.m[i].root != cur
    requires sh == SampleSupernode(c.p, c.prio, s.sh, cur, s.thr[t].local)
    ensures GoodStep(c, E, s, State(s.thr[t := Thr(Scan(i, c.l.m[i].root, false), SketchVal(ZeroFn(c.p), 0))],
                                    s.globals, sh), t)
  {
    var th := Thr(Scan(i, c.l.m[i].root, false), SketchVal(ZeroFn(c.p), 0));
    LeavingRoot(c, E, t, i, cur, false, s.thr[t].local);
    PortionScanned(c, E, t, i, cur, false, s.thr[t].local);
    PartsOfRoot(c.l, cur, t);
    LocalSketch(c, E, s, t, cur);
    SampledShared(c, E, s.sh, cur, s.thr[t].local);
    OneThread(c, s, t, th, s.globals, sh);
    LocalStep(c, E, s, State(s.thr[t := th], s.globals, sh), t, i, cur);
  }

  lemma DoRelease(c: Ctx, E: set<Edge>, s: State, t: nat, i: nat, ready: bool, head: nat, sh: Shared)
    requires Parts(c, E) && Ready(c, E, s, t, head)
    requires s.thr[t].pc == Own(i, ready) && OwnOk(c, t, i) && head == c.l.m[c.l.bounds[t]].root
    requires sh == if ready then SampleSupernode(c.p, c.prio, s.sh, head, s.globals[t].sketch) else s.sh
    ensures GoodStep(c, E, s, State(s.thr[t := Thr(Scan(i, c.l.m[i].root, false), SketchVal(ZeroFn(c.p), 0))],
                                    s.globals, sh), t)
  {
    var th := Thr(Scan(i, c.l.m[i].root, false), SketchVal(ZeroFn(c.p), 0));
    OwnHead(c, t, i);
    if ready {
      CollectSketch(c, E, s, t, head);
      SampledShared(c, E, s.sh, head, s.globals[t].sketch);
    }
    OneThread(c, s, t, th, s.globals, sh);
    ReleaseStep(c, E, s, State(s.thr[t := th], s.globals, sh), t, i, ready, head);
  }

  // ---------- the end of a part ----------

  lemma DoEnd(c: Ctx, E: set<Edge>, s: State, t: nat, cur: nat, fromLeft: bool)
    requires Parts(c, E) && Ready(c, E, s, t, cur)
    requires s.thr[t].pc == Scan(c.l.bounds[t + 1], cur, fromLeft)
    requires ScanOk(c, E, t, c.l.bounds[t + 1], cur, fromLeft, s.thr[t].local)
    requires 0 < c.l.bounds[t + 1] && (ExitsRight(c.l, t) || fromLeft)
    ensures var next := if fromLeft then Deposit(Last(c.l, cur)) else Announce(Last(c.l, cur));
            GoodStep(c, E, s, State(s.thr[t := s.thr[t].(pc := next)], s.globals, s.sh), t)
  {
    var th := s.thr[t].(pc := if fromLeft then Deposit(Last(c.l, cur)) else Announce(Last(c.l, cur)));
    OneThread(c, s, t, th, s.globals, s.sh);
    EndStep(c, E, s, State(s.thr[t := th], s.globals, s.sh), t, cur, fromLeft);
  }

  lemma DoFinish(c: Ctx, E: set<Edge>, s: State, t: nat, cur: nat, sh: Shared)
    requires Parts(c, E) && Ready(c, E, s, t, cur) && |s.thr[t].local.buckets| == c.p.Len()
    requires s.thr[t].pc == Scan(c.l.bounds[t + 1], cur, false)
    requires ScanOk(c, E, t, c.l.bounds[t + 1], cur, false, s.thr[t].local)
    requires 0 < c.l.bounds[t + 1] && !ExitsRight(c.l, t)
    requires sh == SampleSupernode(c.p, c.prio, s.sh, cur, s.thr[t].local)
    ensures GoodStep(c, E, s, State(s.thr[t := s.thr[t].(pc := Done)], s.globals, sh), t)
  {
    var th := s.thr[t].(pc := Done);
    ScanTail(c, E, t, cur, false, s.thr[t].local);
    PortionScanned(c, E, t, c.l.bounds[t + 1], cur, false, s.thr[t].local);
    PartsOfRoot(c.l, cur, t);
    LocalSketch(c, E, s, t, cur);
    SampledShared(c, E, s.sh, cur, s.thr[t].local);
    OneThread(c, s, t, th, s.globals, sh);
    FinishStep(c, E, s, State(s.thr[t := th], s.globals, sh), t, cur);
  }

  lemma DoAnnounce(c: Ctx, E: set<Edge>, s: State, t: nat, gid: nat, tail: nat)
    requires Parts(c, E) && Ready(c, E, s, t, tail) && t <= gid < c.l.Threads()
    requires s.thr[t].pc == Announce(gid) && TailOk(c, t, gid) && tail == c.l.m[c.l.bounds[t + 1] - 1].root
    requires First(c.l, tail) == t && |s.thr[t].local.buckets| == c.p.Len()
    requires PortionHeld(c, E, t, tail, s.thr[t].local)
    ensures GoodStep(c, E, s, State(s.thr[t := s.thr[t].(pc := Deposit(gid))],
                                    s.globals[gid := s.globals[gid].(needed := gid - t + 1)], s.sh), t)
  {
    var th := s.thr[t].(pc := Deposit(gid));
    var gs := s.globals[gid := s.globals[gid].(needed := gid - t + 1)];
    OneThread(c, s, t, th, gs, s.sh);
    AnnounceStep(c, E, s, State(s.thr[t := th], gs, s.sh), t, gid, tail);
  }

  lemma DoDeposit(c: Ctx, E: set<Edge>, s: State, s': State, t: nat, gid: nat, tail: nat, g: Global, ready: bool)
    requires CtxOk(c, E) && Ready(c, E, s, t, tail) && gid < c.l.Threads() && |s.thr[t].local.buckets| == c.p.Len()
    requires s.thr[t].pc == Deposit(gid) && TailOk(c, t, gid) && tail == c.l.m[c.l.bounds[t + 1] - 1].root
    requires PortionHeld(c, E, t, tail, s.thr[t].local)
    requires (g, ready) == MergeGlobal(c.p, c.r, s.globals[gid], s.thr[t].local)
    requires s' == State(s.thr[t := s.thr[t].(pc := Collect(gid, ready))], s.globals[gid := g], s.sh)
    ensures GoodStep(c, E, s, s', t)
  {
    var th := s.thr[t].(pc := Collect(gid, ready));
    OneThread(c, s, t, th, s.globals[gid := g], s.sh);
    DepositTail(c, E, s, s', t, gid, tail);
    DepositStep(c, E, s, s', t, gid, tail);
  }

  lemma DoCollect(c: Ctx, E: set<Edge>, s: State, t: nat, gid: nat, ready: bool, tail: nat, sh: Shared)
    requires Parts(c, E) && Ready(c, E, s, t, tail) && gid < c.l.Threads()
    requires s.thr[t].pc == Collect(gid, ready) && TailOk(c, t, gid) && |s.thr[t].local.buckets| == c.p.Len()
    requires tail == c.l.m[c.l.bounds[t + 1] - 1].root
    requires sh == if ready then SampleSupernode(c.p, c.prio, s.sh, tail, s.globals[gid].sketch) else s.sh
    ensures GoodStep(c, E, s, State(s.thr[t := s.thr[t].(pc := Done)], s.globals, sh), t)
  {
    var th := s.thr[t].(pc := Done);
    if ready {
      CollectSketch(c, E, s, t, tail);
      SampledShared(c, E, s.sh, tail, s.globals[gid].sketch);
    }
    OneThread(c, s, t, th, s.globals, sh);
    CollectStep(c, E, s, State(s.thr[t := th], s.globals, sh), t, tail);
  }

  // ---------- every step ----------

  /** Where a thread stands it can go on. */
  ghost predicate PcRunnable(c: Ctx, t: nat, pc: Pc) {
    && t < c.l.Threads() && |c.l.part| == c.l.N()
    && match pc
       case Scan(i, cur, _) => c.l.bounds[t] <= i <= c.l.bounds[t + 1] && HasRoot(c.l.m, cur) &&
           c.l.part[Hi(c.l.m, cur)] < c.l.Threads()
       case Own(i, _) => i < c.l.N()
       case Announce(gid) => t <= gid < c.l.Threads()
       case Deposit(gid) => gid < c.l.Threads()
       case Collect(gid, _) => gid < c.l.Threads()
       case Done => true
  }

  lemma ThreadRunnable(c: Ctx, E: set<Edge>, t: nat, th: Thr)
    requires c.p.Valid() && c.l.Valid() && t < c.l.Threads() && ThreadOk(c, E, t, th)
    ensures PcRunnable(c, t, th.pc)
  {
    assert Look(THREAD);
    match th.pc
    case Scan(i, cur, _) => PartsOfRoot(c.l, cur, t);
    case Own(_, _) =>
    case Done =>
    case _ => PartsOfRoot(c.l, c.l.m[c.l.bounds[t + 1] - 1].root, t);
  }

  lemma InvRunnable(c: Ctx, E: set<Edge>, s: State, t: nat)
    requires CtxOk(c, E) && Inv(c, E, s) && t < c.l.Threads()
    ensures Runnable(c, s, t)
  {
    assert ThreadOk(c, E, t, s.thr[t]);
    ThreadRunnable(c, E, t, s.thr[t]);
    PartNonEmpty(c.l, t);
  }

  lemma AdvanceEq(c: Ctx, s: State, t: nat, i: nat, cur: nat, fromLeft: bool, loc: SketchVal)
    requires Runnable(c, s, t) && s.thr[t].pc == Scan(i, cur, fromLeft)
    requires i < c.l.bounds[t + 1] && c.l.m[i].root == cur
    requires loc == RangeMergeFn(c.p, s.thr[t].local, c.sks[c.l.m[i].child], c.r)
    ensures Step(c, s, t) == State(s.thr[t := Thr(Scan(i + 1, cur, fromLeft), loc)], s.globals, s.sh)
  {
  }

  lemma AdvanceCase(c: Ctx, E: set<Edge>, s: State, t: nat, i: nat, cur: nat, fromLeft: bool, loc: SketchVal)
    requires Parts(c, E) && Ready(c, E, s, t, cur) && Runnable(c, s, t)
    requires s.thr[t].pc == Scan(i, cur, fromLeft) && ScanOk(c, E, t, i + 1, cur, fromLeft, loc)
    requires i < c.l.bounds[t + 1] && c.l.m[i].root == cur
    requires loc == RangeMergeFn(c.p, s.thr[t].local, c.sks[c.l.m[i].child], c.r)
    ensures GoodStep(c, E, s, Step(c, s, t), t)
  {
    DoAdvance(c, E, s, t, i, cur, fromLeft, loc);
    AdvanceEq(c, s, t, i, cur, fromLeft, loc);
  }

  lemma LeaveCase(c: Ctx, E: set<Edge>, s: State, t: nat, i: nat, cur: nat)
    requires CtxOk(c, E) && Ready(c, E, s, t, cur) && Runnable(c, s, t)
    requires s.thr[t].pc == Scan(i, cur, false) && ScanOk(c, E, t, i, cur, false, s.thr[t].local)
    requires i < c.l.bounds[t + 1] && c.l.m[i].root != cur
    ensures GoodStep(c, E, s, Step(c, s, t), t)
  {
    DoLocal(c, E, s, t, i, cur, SampleSupernode(c.p, c.prio, s.sh, cur, s.thr[t].local));
  }

  lemma OwnMergeCase(c: Ctx, E: set<Edge>, s: State, t: nat, i: nat, cur: nat)
    requires CtxOk(c, E) && Ready(c, E, s, t, cur) && Runnable(c, s, t)
    requires s.thr[t].pc == Scan(i, cur, true) && ScanOk(c, E, t, i, cur, true, s.thr[t].local)
    requires i < c.l.bounds[t + 1] && c.l.m[i].root != cur
    ensures GoodStep(c, E, s, Step(c, s, t), t)
  {
    var (g, ready) := MergeGlobal(c.p, c.r, s.globals[t], s.thr[t].local);
    DoOwn(c, E, s, t, i, cur, g, ready);
  }

  lemma ScanEndCase(c: Ctx, E: set<Edge>, s: State, t: nat, cur: nat, fromLeft: bool)
    requires CtxOk(c, E) && Ready(c, E, s, t, cur) && Runnable(c, s, t)
    requires s.thr[t].pc == Scan(c.l.bounds[t + 1], cur, fromLeft)
    requires ScanOk(c, E, t, c.l.bounds[t + 1], cur, fromLeft, s.thr[t].local)
    ensures GoodStep(c, E, s, Step(c, s, t), t)
  {
    if ExitsRight(c.l, t) || fromLeft {
      DoEnd(c, E, s, t, cur, fromLeft);
    } else {
      DoFinish(c, E, s, t, cur, SampleSupernode(c.p, c.prio, s.sh, cur, s.thr[t].local));
    }
  }

  lemma AnnounceEq(c: Ctx, s: State, t: nat, gid: nat)
    requires Runnable(c, s, t) && s.thr[t].pc == Announce(gid)
    ensures Step(c, s, t) == State(s.thr[t := s.thr[t].(pc := Deposit(gid))],
                                   s.globals[gid := s.globals[gid].(needed := gid - t + 1)], s.sh)
  {
  }

  lemma AnnounceCase(c: Ctx, E: set<Edge>, s: State, t: nat, gid: nat, tail: nat)
    requires Parts(c, E) && Ready(c, E, s, t, tail) && Runnable(c, s, t)
    requires s.thr[t].pc == Announce(gid) && TailOk(c, t, gid) && tail == c.l.m[c.l.bounds[t + 1] - 1].root
    requires First(c.l, tail) == t && PortionHeld(c, E, t, tail, s.thr[t].local)
    ensures GoodStep(c, E, s, Step(c, s, t), t)
  {
    AnnounceEq(c, s, t, gid);
    DoAnnounce(c, E, s, t, gid, tail);
  }

  lemma DepositCase(c: Ctx, E: set<Edge>, s: State, t: nat, gid: nat, tail: nat)
    requires CtxOk(c, E) && Ready(c, E, s, t, tail) && Runnable(c, s, t)
    requires s.thr[t].pc == Deposit(gid) && TailOk(c, t, gid) && tail == c.l.m[c.l.bounds[t + 1] - 1].root
    requires PortionHeld(c, E, t, tail, s.thr[t].local)
    ensures GoodStep(c, E, s, Step(c, s, t), t)
  {
    var (g, ready) := MergeGlobal(c.p, c.r, s.globals[gid], s.thr[t].local);
    DoDeposit(c, E, s, State(s.thr[t := s.thr[t].(pc := Collect(gid, ready))], s.globals[gid := g], s.sh), t, gid,
              tail, g, ready);
  }

  lemma CollectEq(c: Ctx, s: State, t: nat, gid: nat, ready: bool, tail: nat, sh: Shared)
    requires Runnable(c, s, t) && s.thr[t].pc == Collect(gid, ready) && tail == c.l.m[c.l.bounds[t + 1] - 1].root
    requires sh == if ready then SampleSupernode(c.p, c.prio, s.sh, tail, s.globals[gid].sketch) else s.sh
    ensures Step(c, s, t) == State(s.thr[t := s.thr[t].(pc := Done)], s.globals, sh)
  {
  }

  lemma CollectCase(c: Ctx, E: set<Edge>, s: State, t: nat, gid: nat, ready: bool, tail: nat, sh: Shared)
    requires Parts(c, E) && Ready(c, E, s, t, tail) && Runnable(c, s, t)
    requires s.thr[t].pc == Collect(gid, ready) && TailOk(c, t, gid) && tail == c.l.m[c.l.bounds[t + 1] - 1].root
    requires sh == if ready then SampleSupernode(c.p, c.prio, s.sh, tail, s.globals[gid].sketch) else s.sh
    ensures GoodStep(c, E, s, Step(c, s, t), t)
  {
    DoCollect(c, E, s, t, gid, ready, tail, sh);
    CollectEq(c, s, t, gid, ready, tail, sh);
  }

  lemma OwnCase(c: Ctx, E: set<Edge>, s: State, t: nat, i: nat, ready: bool, head: nat)
    requires Parts(c, E) && Ready(c, E, s, t, head) && Runnable(c, s, t)
    requires s.thr[t].pc == Own(i, ready) && OwnOk(c, t, i) && head == c.l.m[c.l.bounds[t]].root
    ensures GoodStep(c, E, s, Step(c, s, t), t)
  {
    DoRelease(c, E, s, t, i, ready, head,
              if ready then SampleSupernode(c.p, c.prio, s.sh, head, s.globals[t].sketch) else s.sh);
  }

  /** Whichever thread moves next, the invariant survives. */
  lemma StepKeepsInv(c: Ctx, E: set<Edge>, s: State, t: nat)
    requires CtxOk(c, E) && Inv(c, E, s) && t < c.l.Threads()
    ensures Runnable(c, s, t) && Inv(c, E, Step(c, s, t))
  {
    InvRunnable(c, E, s, t);
    var s' := Step(c, s, t);
    if s.thr[t].pc != Done {
      assert GoodStep(c, E, s, s', t) by { CaseSplit(c, E, s, t); }
      var touched :| Effect(c, E, s, s', t, touched);
      Assemble(c, E, s, s', t, touched);
    }
  }

  lemma EndRoots(l: Layout, t: nat)
    requires l.Valid() && t < l.Threads()
    ensures l.bounds[t] < l.bounds[t + 1] <= l.N()
    ensures HasRoot(l.m, l.m[l.bounds[t]].root) && HasRoot(l.m, l.m[l.bounds[t + 1] - 1].root)
  {
    PartNonEmpty(l, t);
  }

  lemma ScanSplit(c: Ctx, E: set<Edge>, s: State, t: nat, i: nat, cur: nat, fromLeft: bool)
    requires CtxOk(c, E) && Runnable(c, s, t) && Ready(c, E, s, t, cur)
    requires s.thr[t].pc == Scan(i, cur, fromLeft) && ScanOk(c, E, t, i, cur, fromLeft, s.thr[t].local)
    ensures GoodStep(c, E, s, Step(c, s, t), t)
  {
    if i == c.l.bounds[t + 1] {
      ScanEndCase(c, E, s, t, cur, fromLeft);
    } else if c.l.m[i].root == cur {
      AdvanceScanOk(c, E, t, i, cur, fromLeft, s.thr[t].local);
      AdvanceCase(c, E, s, t, i, cur, fromLeft, RangeMergeFn(c.p, s.thr[t].local, c.sks[c.l.m[i].child], c.r));
    } else if fromLeft {
      OwnMergeCase(c, E, s, t, i, cur);
    } else {
      LeaveCase(c, E, s, t, i, cur);
    }
  }

  lemma TailSplit(c: Ctx, E: set<Edge>, s: State, t: nat, tail: nat)
    requires CtxOk(c, E) && Runnable(c, s, t) && Ready(c, E, s, t, tail) && ThreadOk(c, E, t, s.thr[t])
    requires s.thr[t].pc.Announce? || s.thr[t].pc.Deposit? || s.thr[t].pc.Collect?
    requires tail == c.l.m[c.l.bounds[t + 1] - 1].root
    ensures GoodStep(c, E, s, Step(c, s, t), t)
  {
    assert Look(THREAD);
    match s.thr[t].pc
    case Announce(gid) => AnnounceCase(c, E, s, t, gid, tail);
    case Deposit(gid) => DepositCase(c, E, s, t, gid, tail);
    case Collect(gid, ready) =>
      CollectCase(c, E, s, t, gid, ready, tail,
                  if ready then SampleSupernode(c.p, c.prio, s.sh, tail, s.globals[gid].sketch) else s.sh);
  }

  lemma CaseSplit(c: Ctx, E: set<Edge>, s: State, t: nat)
    requires CtxOk(c, E) && Inv(c, E, s) && t < c.l.Threads() && Runnable(c, s, t) && s.thr[t].pc != Done
    ensures GoodStep(c, E, s, Step(c, s, t), t)
  {
    assert Look(THREAD);
    EndRoots(c.l, t);
    if s.thr[t].pc.Scan? {
      var pc := s.thr[t].pc;
      InvReady(c, E, s, t, pc.cur);
      ScanSplit(c, E, s, t, pc.i, pc.cur, pc.fromLeft);
    } else if s.thr[t].pc.Own? {
      var head := c.l.m[c.l.bounds[t]].root;
      InvReady(c, E, s, t, head);
      OwnCase(c, E, s, t, s.thr[t].pc.i, s.thr[t].pc.ready, head);
    } else {
      var tail := c.l.m[c.l.bounds[t + 1] - 1].root;
      InvReady(c, E, s, t, tail);
      TailSplit(c, E, s, t, tail);
    }
  }
}
