/** The single steps of a parallel round: each concerns one supernode, and leaves it and the thread in order. */
module RoundSteps {
  import opened Graphs
  import opened DisjointSets
  import opened Sketches
  import opened Supernodes
  import opened Partitions
  import opened MergeLists
  import opened RoundProtocol
  import opened RoundSafety

  /** The step of thread `t` does not concern supernode `root`. */
  ghost predicate Untouched(c: Ctx, s: State, s': State, t: nat, root: nat)
    requires c.l.Valid() && |s.thr| == |s.globals| == |s'.thr| == |s'.globals| == c.l.Threads()
    requires t < c.l.Threads() && HasRoot(c.l.m, root) && Last(c.l, root) < c.l.Threads()
  {
    && (t in Span(c.l, root) ==> (Past(c.l, t, s'.thr[t].pc, root) <==> Past(c.l, t, s.thr[t].pc, root)))
    && (Pending(c.l, t, s'.thr[t].pc, root) <==> Pending(c.l, t, s.thr[t].pc, root))
    && (First(c.l, root) < Last(c.l, root) ==>
          && (t == First(c.l, root) ==> (HasAnnounced(s'.thr[t].pc) <==> HasAnnounced(s.thr[t].pc)))
          && s'.globals[Last(c.l, root)] == s.globals[Last(c.l, root)])
    && (Logged(s'.sh.log, root) <==> Logged(s.sh.log, root))
  }

  ghost predicate OnlyThread(c: Ctx, s: State, s': State, t: nat) {
    && |s.thr| == |s.globals| == |s'.thr| == |s'.globals| == c.l.Threads() && t < c.l.Threads()
    && (forall i :: 0 <= i < |s.thr| && i != t ==> s'.thr[i] == s.thr[i])
  }

  lemma SameSets(c: Ctx, s: State, s': State, t: nat, root: nat)
    requires c.l.Valid() && OnlyThread(c, s, s', t) && HasRoot(c.l.m, root) && Last(c.l, root) < c.l.Threads()
    requires Untouched(c, s, s', t, root)
    ensures PastSet(c, s', root) == PastSet(c, s, root) && PendSet(c, s', root) == PendSet(c, s, root)
  {
    forall x ensures x in PastSet(c, s', root) <==> x in PastSet(c, s, root) {
      if 0 <= x < c.l.Threads() && x != t { assert s'.thr[x] == s.thr[x]; }
    }
    forall x ensures x in PendSet(c, s', root) <==> x in PendSet(c, s, root) {
      if 0 <= x < c.l.Threads() && x != t { assert s'.thr[x] == s.thr[x]; }
    }
  }

  // a supernode inside one part needs neither slot nor announcement
  lemma ViewFrame(c: Ctx, E: set<Edge>, root: nat, past: set<nat>, pend: set<nat>, a: bool, slot: Global,
                  logged: bool, a': bool, slot': Global)
    requires c.p.Valid() && c.l.Valid() && HasRoot(c.l.m, root)
    requires ViewOk(c, E, root, past, pend, a, slot, logged)
    requires First(c.l, root) != Last(c.l, root) ==> a == a' && slot == slot'
    ensures ViewOk(c, E, root, past, pend, a', slot', logged)
  {
  }

  lemma FrameRoot(c: Ctx, E: set<Edge>, s: State, s': State, t: nat, root: nat)
    requires c.p.Valid() && c.l.Valid() && OnlyThread(c, s, s', t) && HasRoot(c.l.m, root)
    requires RootOk(c, E, s, root) && Untouched(c, s, s', t, root)
    ensures RootOk(c, E, s', root)
  {
    assert Look(ROOT);
    SameSets(c, s, s', t, root);
    PartsOfRoot(c.l, root, t);
    var f, g := First(c.l, root), Last(c.l, root);
    if f != t { assert s'.thr[f] == s.thr[f]; }
    ViewFrame(c, E, root, PastSet(c, s, root), PendSet(c, s, root), HasAnnounced(s.thr[f].pc), s.globals[g],
              Logged(s.sh.log, root), HasAnnounced(s'.thr[f].pc), s'.globals[g]);
  }

  ghost predicate OthersUntouched(c: Ctx, s: State, s': State, t: nat, touched: nat)
    requires c.l.Valid() && OnlyThread(c, s, s', t)
  {
    forall root :: HasRoot(c.l.m, root) && root != touched && Last(c.l, root) < c.l.Threads() ==>
        Untouched(c, s, s', t, root)
  }

  ghost predicate SlotsFit(c: Ctx, gs: seq<Global>) {
    forall g :: 0 <= g < |gs| ==> |gs[g].sketch.buckets| == c.p.Len()
  }

  /** The step of `t` concerns supernode `touched` only, and leaves it and the thread in order. */
  ghost predicate Effect(c: Ctx, E: set<Edge>, s: State, s': State, t: nat, touched: nat)
    requires c.p.Valid() && c.l.Valid()
  {
    && OnlyThread(c, s, s', t)
    && ThreadOk(c, E, t, s'.thr[t])
    && SlotsFit(c, s'.globals)
    && HasRoot(c.l.m, touched) && RootOk(c, E, s', touched)
    && OthersUntouched(c, s, s', t, touched)
  }

  lemma MakeEffect(c: Ctx, E: set<Edge>, s: State, s': State, t: nat, touched: nat)
    requires c.p.Valid() && c.l.Valid() && OnlyThread(c, s, s', t)
    requires ThreadOk(c, E, t, s'.thr[t]) && SlotsFit(c, s'.globals)
    requires HasRoot(c.l.m, touched) && RootOk(c, E, s', touched) && OthersUntouched(c, s, s', t, touched)
    ensures Effect(c, E, s, s', t, touched)
  {
  }

  lemma Assemble(c: Ctx, E: set<Edge>, s: State, s': State, t: nat, touched: nat)
    requires CtxOk(c, E) && Inv(c, E, s) && Effect(c, E, s, s', t, touched)
    requires LogOk(c, E, s'.sh.log) && SharedOk(c, s'.sh)
    ensures Inv(c, E, s')
  {
    forall root | HasRoot(c.l.m, root) ensures RootOk(c, E, s', root) {
      if root != touched {
        assert RootOk(c, E, s, root);
        FrameRoot(c, E, s, s', t, root);
      }
    }
    forall i | 0 <= i < |s'.thr| ensures ThreadOk(c, E, i, s'.thr[i]) {
      if i != t { assert s'.thr[i] == s.thr[i]; }
    }
  }

  // ---------- geometry of a scan ----------

  /** Leaving root `cur` at position `i`: among the roots of this part, exactly those up to `cur` are behind. */
  lemma NextRoot(c: Ctx, E: set<Edge>, t: nat, i: nat, cur: nat, fromLeft: bool, local: SketchVal, root: nat)
    requires c.p.Valid() && c.l.Valid() && t < c.l.Threads() && ScanOk(c, E, t, i, cur, fromLeft, local)
    requires i < c.l.bounds[t + 1] && c.l.m[i].root != cur
    requires HasRoot(c.l.m, root) && t in Span(c.l, root)
    ensures c.l.bounds[t] < i && c.l.m[i - 1].root == cur < c.l.m[i].root
    ensures root < c.l.m[i].root <==> (root < cur || root == cur)
  {
    assert Look(LAYOUT);
    assert i > SegStart(c.l, t, cur);
    assert c.l.m[i - 1].root == cur;
    PartsOfRoot(c.l, root, t);
    var q :| 0 <= q < |c.l.m| && c.l.m[q].root == root && c.l.part[q] == t;
    InPart(c.l, t, q);
  }

  lemma LeavingRoot(c: Ctx, E: set<Edge>, t: nat, i: nat, cur: nat, fromLeft: bool, local: SketchVal)
    requires c.p.Valid() && c.l.Valid() && t < c.l.Threads() && ScanOk(c, E, t, i, cur, fromLeft, local)
    requires i < c.l.bounds[t + 1] && c.l.m[i].root != cur
    ensures c.l.bounds[t] < i && c.l.m[i - 1].root == cur < c.l.m[i].root
    ensures Last(c.l, cur) == t && t in Span(c.l, cur)
    ensures First(c.l, cur) < t <==> fromLeft
  {
    assert Look(LAYOUT);
    assert i > SegStart(c.l, t, cur);
    assert c.l.m[i - 1].root == cur;
    RunIsInterval(c.l.m, cur, i - 1);
    RunIsInterval(c.l.m, cur, i);
    assert Hi(c.l.m, cur) == i - 1;
    InPart(c.l, t, i - 1);
    PartsOfRoot(c.l, cur, t);
    assert Has(c.l, t, cur);
    HeadOrLater(c, E, t, i, cur, fromLeft, local);
  }

  lemma HeadOrLater(c: Ctx, E: set<Edge>, t: nat, i: nat, cur: nat, fromLeft: bool, local: SketchVal)
    requires c.p.Valid() && c.l.Valid() && t < c.l.Threads() && ScanOk(c, E, t, i, cur, fromLeft, local)
    requires t in Span(c.l, cur)
    ensures First(c.l, cur) < t <==> fromLeft
  {
    FromLeftMeans(c.l, t);
    if First(c.l, cur) < t {
      PartsOfRoot(c.l, cur, t);
      HeadRootOf(c.l, cur, t);
    }
  }

  /** At the end of the part the current root is its last root. */
  lemma ScanTail(c: Ctx, E: set<Edge>, t: nat, cur: nat, fromLeft: bool, local: SketchVal)
    requires c.p.Valid() && c.l.Valid() && t < c.l.Threads() && ScanOk(c, E, t, c.l.bounds[t + 1], cur, fromLeft, local)
    ensures 0 < c.l.bounds[t + 1] <= c.l.N() && c.l.m[c.l.bounds[t + 1] - 1].root == cur
    ensures t in Span(c.l, cur)
    ensures ExitsRight(c.l, t) <==> t < Last(c.l, cur)
    ensures First(c.l, cur) < t <==> fromLeft
  {
    assert c.l.bounds[t + 1] > SegStart(c.l, t, cur);
    ExitsRightMeans(c.l, t);
    HeadOrLater(c, E, t, c.l.bounds[t + 1], cur, fromLeft, local);
  }

  /** A root that starts in part `t` and leaves it is the last root of the part. */
  lemma FirstIsTail(l: Layout, t: nat, root: nat)
    requires l.Valid() && t < l.Threads() && HasRoot(l.m, root) && First(l, root) == t < Last(l, root)
    ensures 0 < l.bounds[t + 1] <= l.N() && l.m[l.bounds[t + 1] - 1].root == root
  {
    PartsOfRoot(l, root, t + 1);
    HeadRootOf(l, root, t + 1);
    PartNonEmpty(l, t);
  }

  /** Once its root is left behind, the scanned segment is the thread's whole portion. */
  lemma PortionScanned(c: Ctx, E: set<Edge>, t: nat, i: nat, cur: nat, fromLeft: bool, local: SketchVal)
    requires c.p.Valid() && c.l.Valid() && t < c.l.Threads() && ScanOk(c, E, t, i, cur, fromLeft, local)
    requires i == c.l.bounds[t + 1] || c.l.m[i].root != cur
    ensures local == Held(c.p, c.r, E, KidsOf(c.l, cur, {t}))
  {
    SegmentIsPortion(c.l, t, SegStart(c.l, t, cur), i, cur);
  }

  lemma SegmentIsPortion(l: Layout, t: nat, lo: nat, i: nat, cur: nat)
    requires l.Valid() && t < l.Threads() && HasRoot(l.m, cur) && lo == SegStart(l, t, cur)
    requires lo <= i <= l.bounds[t + 1] <= l.N()
    requires forall q :: lo <= q < i ==> l.m[q].root == cur
    requires i == l.bounds[t + 1] || l.m[i].root != cur
    ensures Kids(l, lo, i) == KidsOf(l, cur, {t})
  {
    assert Look(LAYOUT);
    forall q | 0 <= q < l.N() ensures lo <= q < i <==> l.m[q].root == cur && l.part[q] == t {
      InPart(l, t, q);
      RunIsInterval(l.m, cur, q);
      if i < l.N() { RunIsInterval(l.m, cur, i); }
    }
    assert Kids(l, lo, i) == KidsOf(l, cur, {t});
  }

  /** Starting on a new root at position `i`. */
  lemma FreshScanOk(c: Ctx, E: set<Edge>, t: nat, i: nat)
    requires c.p.Valid() && c.l.Valid() && t < c.l.Threads()
    requires c.l.bounds[t] < i < c.l.bounds[t + 1] <= c.l.N() && c.l.m[i - 1].root != c.l.m[i].root
    requires c.l.m[c.l.bounds[t]].root != c.l.m[i].root
    ensures ScanOk(c, E, t, i, c.l.m[i].root, false, SketchVal(ZeroFn(c.p), 0))
  {
    assert Look(LAYOUT);
    var root := c.l.m[i].root;
    assert HasRoot(c.l.m, root);
    RunIsInterval(c.l.m, root, i);
    RunIsInterval(c.l.m, root, i - 1);
    assert SegStart(c.l, t, root) == i;
    assert Kids(c.l, i, i) == {};
    HeldEmpty(c.p, c.r, E);
  }

  // ---------- the steps, one by one ----------

  /** Nothing but the thread's own position changes, and not what it means for any supernode. */
  lemma QuietEffect(c: Ctx, E: set<Edge>, s: State, s': State, t: nat, root: nat)
    requires c.p.Valid() && c.l.Valid() && OnlyThread(c, s, s', t)
    requires ThreadOk(c, E, t, s'.thr[t]) && s'.globals == s.globals && s'.sh == s.sh && SlotsFit(c, s.globals)
    requires HasRoot(c.l.m, root) && RootOk(c, E, s, root) && Untouched(c, s, s', t, root)
    requires OthersUntouched(c, s, s', t, root)
    ensures Effect(c, E, s, s', t, root)
  {
    FrameRoot(c, E, s, s', t, root);
  }

  lemma AdvanceScanOk(c: Ctx, E: set<Edge>, t: nat, i: nat, cur: nat, fromLeft: bool, local: SketchVal)
    requires CtxOk(c, E) && t < c.l.Threads() && ScanOk(c, E, t, i, cur, fromLeft, local)
    requires i < c.l.bounds[t + 1] && c.l.m[i].root == cur
    ensures ScanOk(c, E, t, i + 1, cur, fromLeft, RangeMergeFn(c.p, local, c.sks[c.l.m[i].child], c.r))
  {
    var lo, v := SegStart(c.l, t, cur), c.l.m[i].child;
    var A := Kids(c.l, lo, i);
    assert v !in A;
    HeldAddVertex(c.p, c.r, c.l.N(), E, A, v);
    assert Kids(c.l, lo, i + 1) == A + {v};
  }

  lemma AdvanceUntouched(c: Ctx, s: State, s': State, t: nat, cur: nat, root: nat)
    requires c.l.Valid() && OnlyThread(c, s, s', t) && s'.globals == s.globals && s'.sh == s.sh
    requires s.thr[t].pc.Scan? && s'.thr[t].pc.Scan? && s.thr[t].pc.cur == s'.thr[t].pc.cur == cur
    requires HasRoot(c.l.m, root) && Last(c.l, root) < c.l.Threads()
    ensures Untouched(c, s, s', t, root)
  {
  }

  lemma AdvanceQuiet(c: Ctx, E: set<Edge>, s: State, s': State, t: nat, cur: nat)
    requires c.p.Valid() && c.l.Valid() && OnlyThread(c, s, s', t) && s'.globals == s.globals && s'.sh == s.sh
    requires SlotsFit(c, s.globals) && ThreadOk(c, E, t, s'.thr[t])
    requires s.thr[t].pc.Scan? && s'.thr[t].pc.Scan? && s.thr[t].pc.cur == s'.thr[t].pc.cur == cur
    requires HasRoot(c.l.m, cur) && RootOk(c, E, s, cur)
    ensures Effect(c, E, s, s', t, cur)
  {
    AdvanceUntouched(c, s, s', t, cur, cur);
    forall root | HasRoot(c.l.m, root) && root != cur && Last(c.l, root) < c.l.Threads()
      ensures Untouched(c, s, s', t, root)
    {
      AdvanceUntouched(c, s, s', t, cur, root);
    }
    QuietEffect(c, E, s, s', t, cur);
  }

  lemma AdvanceStep(c: Ctx, E: set<Edge>, s: State, s': State, t: nat, i: nat, cur: nat, fromLeft: bool)
    requires c.p.Valid() && c.l.Valid() && OnlyThread(c, s, s', t) && s'.globals == s.globals && s'.sh == s.sh
    requires SlotsFit(c, s.globals) && HasRoot(c.l.m, cur) && RootOk(c, E, s, cur)
    requires s.thr[t].pc == Scan(i, cur, fromLeft) && s'.thr[t].pc == Scan(i + 1, cur, fromLeft)
    requires ScanOk(c, E, t, i + 1, cur, fromLeft, s'.thr[t].local)
    ensures Effect(c, E, s, s', t, cur)
  {
    ScanThreadOk(c, E, t, s'.thr[t], i + 1, cur, fromLeft);
    AdvanceQuiet(c, E, s, s', t, cur);
  }

  lemma ScanThreadOk(c: Ctx, E: set<Edge>, t: nat, th: Thr, i: nat, cur: nat, fromLeft: bool)
    requires c.p.Valid() && c.l.Valid() && t < c.l.Threads() && th.pc == Scan(i, cur, fromLeft)
    requires ScanOk(c, E, t, i, cur, fromLeft, th.local)
    ensures ThreadOk(c, E, t, th)
  {
  }

  lemma PastPend(c: Ctx, s: State, s': State, t: nat, root: nat, pending: bool)
    requires c.l.Valid() && OnlyThread(c, s, s', t) && HasRoot(c.l.m, root) && t in Span(c.l, root)
    requires Past(c.l, t, s'.thr[t].pc, root)
    requires PendSet(c, s, root) == {}
    requires Pending(c.l, t, s'.thr[t].pc, root) <==> pending
    ensures PastSet(c, s', root) == PastSet(c, s, root) + {t}
    ensures PendSet(c, s', root) == if pending then {t} else {}
  {
    forall x ensures x in PastSet(c, s', root) <==> x in PastSet(c, s, root) + {t} {
      if 0 <= x < c.l.Threads() && x != t { assert s'.thr[x] == s.thr[x]; }
    }
    forall x ensures x in PendSet(c, s', root) <==> pending && x == t {
      if 0 <= x < c.l.Threads() && x != t {
        assert s'.thr[x] == s.thr[x];
        assert x !in PendSet(c, s, root);
      }
    }
  }

  /** The part of a deposit that is common to `Scan -> Own` and `Deposit -> Collect`. */
  lemma DepositRoot(c: Ctx, E: set<Edge>, s: State, s': State, t: nat, root: nat, local: SketchVal)
    requires CtxOk(c, E) && OnlyThread(c, s, s', t)
    requires HasRoot(c.l.m, root) && First(c.l, root) < Last(c.l, root) < c.l.Threads() && t in Span(c.l, root)
    requires RootOk(c, E, s, root)
    requires !Past(c.l, t, s.thr[t].pc, root) && Past(c.l, t, s'.thr[t].pc, root)
    requires t == First(c.l, root) ==> HasAnnounced(s.thr[t].pc) && HasAnnounced(s'.thr[t].pc)
    requires local == Held(c.p, c.r, E, KidsOf(c.l, root, {t}))
    requires s'.sh == s.sh
    requires |s.globals[Last(c.l, root)].sketch.buckets| == c.p.Len()
    requires var (g, ready) := MergeGlobal(c.p, c.r, s.globals[Last(c.l, root)], local);
             && s'.globals == s.globals[Last(c.l, root) := g]
             && (Pending(c.l, t, s'.thr[t].pc, root) <==> ready)
    ensures RootOk(c, E, s', root)
    ensures |s'.globals[Last(c.l, root)].sketch.buckets| == c.p.Len()
  {
    assert Look(ROOT);
    var f, g := First(c.l, root), Last(c.l, root);
    var ready := MergeGlobal(c.p, c.r, s.globals[g], local).1;
    assert t !in PastSet(c, s, root);
    ViewDeposit(c, E, root, PastSet(c, s, root), PendSet(c, s, root), HasAnnounced(s.thr[f].pc), s.globals[g],
                Logged(s.sh.log, root), t, local);
    PastPend(c, s, s', t, root, ready);
    if f != t { assert s'.thr[f] == s.thr[f]; }
  }

  lemma OwnUntouched(c: Ctx, E: set<Edge>, s: State, s': State, t: nat, i: nat, cur: nat, root: nat)
    requires c.p.Valid() && c.l.Valid() && OnlyThread(c, s, s', t)
    requires ScanOk(c, E, t, i, cur, true, s.thr[t].local)
    requires s.thr[t].pc == Scan(i, cur, true) && i < c.l.bounds[t + 1] && c.l.m[i].root != cur
    requires s'.thr[t].pc.Own? && s'.thr[t].pc.i == i && s'.sh == s.sh
    requires forall g :: 0 <= g < |s.globals| && g != t ==> s'.globals[g] == s.globals[g]
    requires HasRoot(c.l.m, root) && root != cur && Last(c.l, root) < c.l.Threads()
    ensures Untouched(c, s, s', t, root)
  {
    LeavingRoot(c, E, t, i, cur, true, s.thr[t].local);
    FromLeftMeans(c.l, t);
    if t in Span(c.l, root) { NextRoot(c, E, t, i, cur, true, s.thr[t].local, root); }
    if First(c.l, root) < Last(c.l, root) {
      if Last(c.l, root) == t { SlotsDistinct(c.l, root, cur); }
    }
  }

  /** A thread finishes the root that came from its left and merges it into its own slot. */
  lemma OwnStep(c: Ctx, E: set<Edge>, s: State, s': State, t: nat, i: nat, cur: nat)
    requires CtxOk(c, E) && OnlyThread(c, s, s', t) && s'.sh == s.sh && SlotsFit(c, s.globals)
    requires ScanOk(c, E, t, i, cur, true, s.thr[t].local)
    requires s.thr[t].pc == Scan(i, cur, true) && i < c.l.bounds[t + 1] && c.l.m[i].root != cur && RootOk(c, E, s, cur)
    requires var (g, ready) := MergeGlobal(c.p, c.r, s.globals[t], s.thr[t].local);
             s'.globals == s.globals[t := g] && s'.thr[t] == Thr(Own(i, ready), s.thr[t].local)
    ensures Effect(c, E, s, s', t, cur)
  {
    var local := s.thr[t].local;
    LeavingRoot(c, E, t, i, cur, true, local);
    PortionScanned(c, E, t, i, cur, true, local);
    DepositRoot(c, E, s, s', t, cur, local);
    OwnOthers(c, E, s, s', t, i, cur);
    OwnThreadOk(c, E, t, s'.thr[t], i, cur);
    SlotReplaced(c, s.globals, s'.globals, t);
    MakeEffect(c, E, s, s', t, cur);
  }

  lemma SlotReplaced(c: Ctx, gs: seq<Global>, gs': seq<Global>, g: nat)
    requires SlotsFit(c, gs) && g < |gs| == |gs'| && |gs'[g].sketch.buckets| == c.p.Len()
    requires forall i :: 0 <= i < |gs| && i != g ==> gs'[i] == gs[i]
    ensures SlotsFit(c, gs')
  {
  }

  lemma OwnThreadOk(c: Ctx, E: set<Edge>, t: nat, th: Thr, i: nat, cur: nat)
    requires c.p.Valid() && c.l.Valid() && t < c.l.Threads() && th.pc.Own? && th.pc.i == i
    requires |th.local.buckets| == c.p.Len()
    requires c.l.bounds[t] < i < c.l.bounds[t + 1] <= c.l.N() && FromLeft(c.l, t)
    requires c.l.m[i - 1].root == cur == c.l.m[c.l.bounds[t]].root && cur != c.l.m[i].root
    ensures ThreadOk(c, E, t, th)
  {
  }

  lemma OwnOthers(c: Ctx, E: set<Edge>, s: State, s': State, t: nat, i: nat, cur: nat)
    requires c.p.Valid() && c.l.Valid() && OnlyThread(c, s, s', t)
    requires ScanOk(c, E, t, i, cur, true, s.thr[t].local)
    requires s.thr[t].pc == Scan(i, cur, true) && i < c.l.bounds[t + 1] && c.l.m[i].root != cur
    requires s'.thr[t].pc.Own? && s'.thr[t].pc.i == i && s'.sh == s.sh
    requires forall g :: 0 <= g < |s.globals| && g != t ==> s'.globals[g] == s.globals[g]
    ensures OthersUntouched(c, s, s', t, cur)
  {
    forall root | HasRoot(c.l.m, root) && root != cur && Last(c.l, root) < c.l.Threads()
      ensures Untouched(c, s, s', t, root)
    {
      OwnUntouched(c, E, s, s', t, i, cur, root);
    }
  }

  // ---------- sampling steps ----------

  lemma LoggedAppend(log: seq<Entry>, en: Entry, root: nat)
    ensures Logged(log + [en], root) <==> Logged(log, root) || root == en.root
  {
    if Logged(log, root) {
      var k :| 0 <= k < |log| && log[k].root == root;
      assert (log + [en])[k].root == root;
    }
    if root == en.root { assert (log + [en])[|log|].root == root; }
  }

  lemma LogGrows(c: Ctx, E: set<Edge>, log: seq<Entry>, en: Entry)
    requires c.p.Valid() && c.l.Valid() && LogOk(c, E, log) && !Logged(log, en.root)
    requires HasRoot(c.l.m, en.root) && en.sketch == Held(c.p, c.r, E, Supernode(c.l, en.root))
    ensures LogOk(c, E, log + [en])
  {
    var l2 := log + [en];
    forall k | 0 <= k < |l2|
      ensures HasRoot(c.l.m, l2[k].root) && l2[k].sketch == Held(c.p, c.r, E, Supernode(c.l, l2[k].root))
    {
      if k < |log| { assert l2[k] == log[k]; }
    }
    forall a, b | 0 <= a < b < |l2| ensures l2[a].root != l2[b].root {
      assert l2[a] == log[a];
      if b < |log| { assert l2[b] == log[b]; }
    }
  }

  /** What sampling supernode `root` on its complete sketch does to the shared part of the state. */
  ghost predicate SampledOn(c: Ctx, E: set<Edge>, sh: Shared, sh': Shared, root: nat)
    requires c.p.Valid() && c.l.Valid()
  {
    exists en: Entry :: en.root == root && sh'.log == sh.log + [en]
      && en.sketch == Held(c.p, c.r, E, Supernode(c.l, root))
  }

  lemma SampledShared(c: Ctx, E: set<Edge>, sh: Shared, root: nat, skt: SketchVal)
    requires c.p.Valid() && c.l.Valid() && Ascending(c.prio, c.parent0) && SharedOk(c, sh) && LogOk(c, E, sh.log)
    requires HasRoot(c.l.m, root) && !Logged(sh.log, root) && skt == Held(c.p, c.r, E, Supernode(c.l, root))
    ensures var sh' := SampleSupernode(c.p, c.prio, sh, root, skt);
            SharedOk(c, sh') && LogOk(c, E, sh'.log) && SampledOn(c, E, sh, sh', root)
  {
    SampleKeepsShared(c, sh, root, skt);
    LogGrows(c, E, sh.log, Entry(root, skt, SampleFn(c.p, skt).1));
  }

  lemma SampledLogged(c: Ctx, E: set<Edge>, sh: Shared, sh': Shared, root: nat, other: nat)
    requires c.p.Valid() && c.l.Valid() && SampledOn(c, E, sh, sh', root)
    ensures Logged(sh'.log, other) <==> Logged(sh.log, other) || other == root
  {
    var en: Entry :| en.root == root && sh'.log == sh.log + [en]
      && en.sketch == Held(c.p, c.r, E, Supernode(c.l, root));
    LoggedAppend(sh.log, en, other);
  }

  /** A supernode inside one part: sampled by its thread when the scan leaves it. */
  lemma LocalRoot(c: Ctx, E: set<Edge>, s: State, s': State, t: nat, root: nat)
    requires c.p.Valid() && c.l.Valid() && OnlyThread(c, s, s', t) && HasRoot(c.l.m, root)
    requires First(c.l, root) == Last(c.l, root) == t && RootOk(c, E, s, root)
    requires !Past(c.l, t, s.thr[t].pc, root) && Past(c.l, t, s'.thr[t].pc, root)
    requires !Pending(c.l, t, s'.thr[t].pc, root)
    requires Logged(s'.sh.log, root)
    ensures RootOk(c, E, s', root)
  {
    assert Look(ROOT);
    assert t !in PastSet(c, s, root);
    ViewLocal(c, E, root, PastSet(c, s, root), PendSet(c, s, root), HasAnnounced(s.thr[t].pc), s.globals[t],
              Logged(s.sh.log, root), t);
    PastPend(c, s, s', t, root, false);
    ViewFrame(c, E, root, PastSet(c, s', root), {}, HasAnnounced(s.thr[t].pc), s.globals[t], true,
              HasAnnounced(s'.thr[t].pc), s'.globals[t]);
  }

  lemma LocalSketch(c: Ctx, E: set<Edge>, s: State, t: nat, root: nat)
    requires c.p.Valid() && c.l.Valid() && |s.thr| == |s.globals| == c.l.Threads() && t < c.l.Threads()
    requires HasRoot(c.l.m, root)
    requires First(c.l, root) == Last(c.l, root) == t && RootOk(c, E, s, root)
    requires !Past(c.l, t, s.thr[t].pc, root)
    ensures KidsOf(c.l, root, {t}) == Supernode(c.l, root) && !Logged(s.sh.log, root)
  {
    assert Look(ROOT);
    assert t !in PastSet(c, s, root);
    ViewLocal(c, E, root, PastSet(c, s, root), PendSet(c, s, root), HasAnnounced(s.thr[t].pc), s.globals[t],
              Logged(s.sh.log, root), t);
  }

  lemma LeaveUntouched(c: Ctx, E: set<Edge>, s: State, s': State, t: nat, i: nat, cur: nat, root: nat)
    requires c.p.Valid() && c.l.Valid() && OnlyThread(c, s, s', t) && s'.globals == s.globals
    requires ScanOk(c, E, t, i, cur, false, s.thr[t].local)
    requires s.thr[t].pc == Scan(i, cur, false) && i < c.l.bounds[t + 1] && c.l.m[i].root != cur
    requires s'.thr[t].pc == Scan(i, c.l.m[i].root, false) && SampledOn(c, E, s.sh, s'.sh, cur)
    requires HasRoot(c.l.m, root) && root != cur && Last(c.l, root) < c.l.Threads()
    ensures Untouched(c, s, s', t, root)
  {
    SampledLogged(c, E, s.sh, s'.sh, cur, root);
    if t in Span(c.l, root) { NextRoot(c, E, t, i, cur, false, s.thr[t].local, root); }
  }

  lemma LocalStep(c: Ctx, E: set<Edge>, s: State, s': State, t: nat, i: nat, cur: nat)
    requires c.p.Valid() && c.l.Valid() && OnlyThread(c, s, s', t) && s'.globals == s.globals && SlotsFit(c, s.globals)
    requires ScanOk(c, E, t, i, cur, false, s.thr[t].local) && RootOk(c, E, s, cur)
    requires s.thr[t].pc == Scan(i, cur, false) && i < c.l.bounds[t + 1] && c.l.m[i].root != cur
    requires s'.thr[t] == Thr(Scan(i, c.l.m[i].root, false), SketchVal(ZeroFn(c.p), 0))
    requires SampledOn(c, E, s.sh, s'.sh, cur)
    ensures Effect(c, E, s, s', t, cur)
  {
    assert Look(LAYOUT);
    LeavingRoot(c, E, t, i, cur, false, s.thr[t].local);
    FreshScanOk(c, E, t, i);
    ScanThreadOk(c, E, t, s'.thr[t], i, c.l.m[i].root, false);
    SampledLogged(c, E, s.sh, s'.sh, cur, cur);
    PartsOfRoot(c.l, cur, t);
    LocalRoot(c, E, s, s', t, cur);
    forall root | HasRoot(c.l.m, root) && root != cur && Last(c.l, root) < c.l.Threads()
      ensures Untouched(c, s, s', t, root)
    {
      LeaveUntouched(c, E, s, s', t, i, cur, root);
    }
    MakeEffect(c, E, s, s', t, cur);
  }

  lemma CollectRoot(c: Ctx, E: set<Edge>, s: State, s': State, t: nat, root: nat)
    requires c.p.Valid() && c.l.Valid() && OnlyThread(c, s, s', t) && HasRoot(c.l.m, root) && RootOk(c, E, s, root)
    requires Pending(c.l, t, s.thr[t].pc, root) && !Pending(c.l, t, s'.thr[t].pc, root)
    requires t in Span(c.l, root) ==> (Past(c.l, t, s'.thr[t].pc, root) <==> Past(c.l, t, s.thr[t].pc, root))
    requires First(c.l, root) == t ==> (HasAnnounced(s'.thr[t].pc) <==> HasAnnounced(s.thr[t].pc))
    requires s'.globals == s.globals && Logged(s'.sh.log, root)
    ensures RootOk(c, E, s', root)
  {
    assert Look(ROOT);
    var f, g := First(c.l, root), Last(c.l, root);
    assert t in PendSet(c, s, root);
    ViewCollect(c, E, root, PastSet(c, s, root), PendSet(c, s, root), HasAnnounced(s.thr[f].pc), s.globals[g],
                Logged(s.sh.log, root), t);
    forall x ensures x in PastSet(c, s', root) <==> x in PastSet(c, s, root) {
      if 0 <= x < c.l.Threads() && x != t { assert s'.thr[x] == s.thr[x]; }
    }
    assert PastSet(c, s', root) == PastSet(c, s, root);
    forall x ensures x !in PendSet(c, s', root) {
      if 0 <= x < c.l.Threads() && x != t {
        assert s'.thr[x] == s.thr[x];
        assert x !in PendSet(c, s, root);
      }
    }
    assert PendSet(c, s', root) == {};
    if f != t { assert s'.thr[f] == s.thr[f]; }
  }

  lemma CollectSketch(c: Ctx, E: set<Edge>, s: State, t: nat, root: nat)
    requires c.p.Valid() && c.l.Valid() && |s.thr| == |s.globals| == c.l.Threads() && t < c.l.Threads()
    requires HasRoot(c.l.m, root) && RootOk(c, E, s, root) && Pending(c.l, t, s.thr[t].pc, root)
    ensures s.globals[Last(c.l, root)].sketch == Held(c.p, c.r, E, Supernode(c.l, root)) && !Logged(s.sh.log, root)
  {
    assert Look(ROOT);
    var f, g := First(c.l, root), Last(c.l, root);
    assert t in PendSet(c, s, root);
    ViewCollect(c, E, root, PastSet(c, s, root), PendSet(c, s, root), HasAnnounced(s.thr[f].pc), s.globals[g],
                Logged(s.sh.log, root), t);
  }

  // ---------- after a merge into the thread's own slot ----------

  lemma OwnHead(c: Ctx, t: nat, i: nat)
    requires c.l.Valid() && t < c.l.Threads() && OwnOk(c, t, i)
    ensures var head := c.l.m[c.l.bounds[t]].root;
            HasRoot(c.l.m, head) && Last(c.l, head) == t && First(c.l, head) < t && head < c.l.m[i].root
    ensures c.l.m[i - 1].root != c.l.m[i].root
  {
    assert Look(LAYOUT);
    FromLeftMeans(c.l, t);
    var head := c.l.m[c.l.bounds[t]].root;
    RunIsInterval(c.l.m, head, i - 1);
    RunIsInterval(c.l.m, head, i);
    assert Hi(c.l.m, head) == i - 1;
    InPart(c.l, t, i - 1);
  }

  lemma ReleaseUntouched(c: Ctx, s: State, s': State, t: nat, i: nat, ready: bool, root: nat)
    requires c.l.Valid() && OnlyThread(c, s, s', t) && s'.globals == s.globals
    requires s.thr[t].pc == Own(i, ready) && OwnOk(c, t, i) && s'.thr[t].pc == Scan(i, c.l.m[i].root, false)
    requires Logged(s'.sh.log, root) <==> Logged(s.sh.log, root)
    requires HasRoot(c.l.m, root) && Last(c.l, root) < c.l.Threads()
    requires ready ==> root != c.l.m[c.l.bounds[t]].root
    ensures Untouched(c, s, s', t, root)
  {
  }

  lemma LogAfterSample(c: Ctx, E: set<Edge>, sh: Shared, sh': Shared, ready: bool, sampled: nat)
    requires c.p.Valid() && c.l.Valid()
    requires if ready then SampledOn(c, E, sh, sh', sampled) else sh' == sh
    ensures forall root: nat :: root != sampled || !ready ==> (Logged(sh'.log, root) <==> Logged(sh.log, root))
  {
    if ready {
      forall root: nat | root != sampled ensures Logged(sh'.log, root) <==> Logged(sh.log, root) {
        SampledLogged(c, E, sh, sh', sampled, root);
      }
    }
  }

  /** The owner samples its slot if it was the last to merge, then goes on with the next root. */
  lemma ReleaseStep(c: Ctx, E: set<Edge>, s: State, s': State, t: nat, i: nat, ready: bool, head: nat)
    requires c.p.Valid() && c.l.Valid() && OnlyThread(c, s, s', t) && s'.globals == s.globals && SlotsFit(c, s.globals)
    requires s.thr[t].pc == Own(i, ready) && OwnOk(c, t, i) && head == c.l.m[c.l.bounds[t]].root
    requires HasRoot(c.l.m, head) && RootOk(c, E, s, head)
    requires s'.thr[t] == Thr(Scan(i, c.l.m[i].root, false), SketchVal(ZeroFn(c.p), 0))
    requires if ready then SampledOn(c, E, s.sh, s'.sh, head) else s'.sh == s.sh
    ensures Effect(c, E, s, s', t, head)
  {
    OwnHead(c, t, i);
    FreshScanOk(c, E, t, i);
    ScanThreadOk(c, E, t, s'.thr[t], i, c.l.m[i].root, false);
    LogAfterSample(c, E, s.sh, s'.sh, ready, head);
    if ready {
      SampledLogged(c, E, s.sh, s'.sh, head, head);
      CollectRoot(c, E, s, s', t, head);
    } else {
      ReleaseUntouched(c, s, s', t, i, ready, head);
      FrameRoot(c, E, s, s', t, head);
    }
    forall root | HasRoot(c.l.m, root) && root != head && Last(c.l, root) < c.l.Threads()
      ensures Untouched(c, s, s', t, root)
    {
      ReleaseUntouched(c, s, s', t, i, ready, root);
    }
    MakeEffect(c, E, s, s', t, head);
  }

  // ---------- the end of a part ----------

  lemma EndUntouched(c: Ctx, E: set<Edge>, s: State, s': State, t: nat, cur: nat, fromLeft: bool, root: nat)
    requires c.p.Valid() && c.l.Valid() && OnlyThread(c, s, s', t) && s'.globals == s.globals && s'.sh == s.sh
    requires s.thr[t].pc == Scan(c.l.bounds[t + 1], cur, fromLeft)
    requires ScanOk(c, E, t, c.l.bounds[t + 1], cur, fromLeft, s.thr[t].local)
    requires s'.thr[t].pc.Announce? || s'.thr[t].pc.Deposit?
    requires s'.thr[t].pc.Deposit? ==> fromLeft
    requires HasRoot(c.l.m, root) && Last(c.l, root) < c.l.Threads()
    ensures Untouched(c, s, s', t, root)
  {
    ScanTail(c, E, t, cur, fromLeft, s.thr[t].local);
    if First(c.l, root) == t < Last(c.l, root) { FirstIsTail(c.l, t, root); }
  }

  lemma EndStep(c: Ctx, E: set<Edge>, s: State, s': State, t: nat, cur: nat, fromLeft: bool)
    requires c.p.Valid() && c.l.Valid() && OnlyThread(c, s, s', t) && s'.globals == s.globals && s'.sh == s.sh
    requires SlotsFit(c, s.globals)
    requires s.thr[t].pc == Scan(c.l.bounds[t + 1], cur, fromLeft)
    requires ScanOk(c, E, t, c.l.bounds[t + 1], cur, fromLeft, s.thr[t].local) && RootOk(c, E, s, cur)
    requires 0 < c.l.bounds[t + 1] && (ExitsRight(c.l, t) || fromLeft)
    requires s'.thr[t] == s.thr[t].(pc := if fromLeft then Deposit(Last(c.l, cur)) else Announce(Last(c.l, cur)))
    ensures Effect(c, E, s, s', t, cur)
  {
    ScanTail(c, E, t, cur, fromLeft, s.thr[t].local);
    PortionScanned(c, E, t, c.l.bounds[t + 1], cur, fromLeft, s.thr[t].local);
    PartsOfRoot(c.l, cur, t);
    assert TailOk(c, t, Last(c.l, cur));
    EndUntouched(c, E, s, s', t, cur, fromLeft, cur);
    FrameRoot(c, E, s, s', t, cur);
    forall root | HasRoot(c.l.m, root) && root != cur && Last(c.l, root) < c.l.Threads()
      ensures Untouched(c, s, s', t, root)
    {
      EndUntouched(c, E, s, s', t, cur, fromLeft, root);
    }
    MakeEffect(c, E, s, s', t, cur);
  }

  lemma FinishUntouched(c: Ctx, E: set<Edge>, s: State, s': State, t: nat, cur: nat, root: nat)
    requires c.p.Valid() && c.l.Valid() && OnlyThread(c, s, s', t) && s'.globals == s.globals
    requires s.thr[t].pc == Scan(c.l.bounds[t + 1], cur, false)
    requires ScanOk(c, E, t, c.l.bounds[t + 1], cur, false, s.thr[t].local)
    requires 0 < c.l.bounds[t + 1] && !ExitsRight(c.l, t) && s'.thr[t].pc == Done && SampledOn(c, E, s.sh, s'.sh, cur)
    requires HasRoot(c.l.m, root) && root != cur && Last(c.l, root) < c.l.Threads()
    ensures Untouched(c, s, s', t, root)
  {
    assert Look(LAYOUT);
    SampledLogged(c, E, s.sh, s'.sh, cur, root);
    ScanTail(c, E, t, cur, false, s.thr[t].local);
    if First(c.l, root) == t < Last(c.l, root) { FirstIsTail(c.l, t, root); }
    if t in Span(c.l, root) {
      PartsOfRoot(c.l, root, t);
      var q :| 0 <= q < |c.l.m| && c.l.m[q].root == root && c.l.part[q] == t;
      InPart(c.l, t, q);
    }
  }

  /** The last root of the part lies inside it: sampled locally, and the thread is finished. */
  lemma FinishStep(c: Ctx, E: set<Edge>, s: State, s': State, t: nat, cur: nat)
    requires c.p.Valid() && c.l.Valid() && OnlyThread(c, s, s', t) && s'.globals == s.globals && SlotsFit(c, s.globals)
    requires s.thr[t].pc == Scan(c.l.bounds[t + 1], cur, false)
    requires ScanOk(c, E, t, c.l.bounds[t + 1], cur, false, s.thr[t].local) && RootOk(c, E, s, cur)
    requires 0 < c.l.bounds[t + 1] && !ExitsRight(c.l, t)
    requires s'.thr[t] == s.thr[t].(pc := Done) && SampledOn(c, E, s.sh, s'.sh, cur)
    ensures Effect(c, E, s, s', t, cur)
  {
    ScanTail(c, E, t, cur, false, s.thr[t].local);
    PartsOfRoot(c.l, cur, t);
    SampledLogged(c, E, s.sh, s'.sh, cur, cur);
    LocalRoot(c, E, s, s', t, cur);
    forall root | HasRoot(c.l.m, root) && root != cur && Last(c.l, root) < c.l.Threads()
      ensures Untouched(c, s, s', t, root)
    {
      FinishUntouched(c, E, s, s', t, cur, root);
    }
    MakeEffect(c, E, s, s', t, cur);
  }

  // ---------- collecting the last root of a part ----------

  lemma AnnounceUntouched(c: Ctx, E: set<Edge>, s: State, s': State, t: nat, gid: nat, tail: nat, root: nat)
    requires c.p.Valid() && c.l.Valid() && OnlyThread(c, s, s', t) && s'.sh == s.sh
    requires s.thr[t].pc == Announce(gid) && TailOk(c, t, gid) && tail == c.l.m[c.l.bounds[t + 1] - 1].root
    requires s'.thr[t].pc == Deposit(gid)
    requires forall g :: 0 <= g < |s.globals| && g != gid ==> s'.globals[g] == s.globals[g]
    requires HasRoot(c.l.m, root) && root != tail && Last(c.l, root) < c.l.Threads()
    ensures Untouched(c, s, s', t, root)
  {
    if First(c.l, root) < Last(c.l, root) {
      if Last(c.l, root) == gid { SlotsDistinct(c.l, root, tail); }
      if First(c.l, root) == t { FirstIsTail(c.l, t, root); }
    }
  }

  lemma AnnounceRoot(c: Ctx, E: set<Edge>, s: State, s': State, t: nat, gid: nat, tail: nat)
    requires c.p.Valid() && c.l.Valid() && OnlyThread(c, s, s', t) && s'.sh == s.sh
    requires s.thr[t].pc == Announce(gid) && TailOk(c, t, gid) && tail == c.l.m[c.l.bounds[t + 1] - 1].root
    requires First(c.l, tail) == t && RootOk(c, E, s, tail) && t <= gid < |s.globals|
    requires s'.globals == s.globals[gid := s.globals[gid].(needed := gid - t + 1)]
    requires s'.thr[t].pc == Deposit(gid)
    ensures RootOk(c, E, s', tail)
  {
    assert Look(ROOT);
    AnnounceSets(c, s, s', t, gid, tail);
    ViewAnnounce(c, E, tail, PastSet(c, s, tail), PendSet(c, s, tail), s.globals[gid], Logged(s.sh.log, tail));
  }

  lemma AnnounceSets(c: Ctx, s: State, s': State, t: nat, gid: nat, root: nat)
    requires c.l.Valid() && OnlyThread(c, s, s', t) && HasRoot(c.l.m, root)
    requires s.thr[t].pc == Announce(gid) && s'.thr[t].pc == Deposit(gid)
    ensures PastSet(c, s', root) == PastSet(c, s, root) && PendSet(c, s', root) == PendSet(c, s, root)
  {
    forall x ensures x in PastSet(c, s', root) <==> x in PastSet(c, s, root) {
      if 0 <= x < c.l.Threads() && x != t { assert s'.thr[x] == s.thr[x]; }
    }
    forall x ensures x in PendSet(c, s', root) <==> x in PendSet(c, s, root) {
      if 0 <= x < c.l.Threads() && x != t { assert s'.thr[x] == s.thr[x]; }
    }
  }

  lemma AnnounceStep(c: Ctx, E: set<Edge>, s: State, s': State, t: nat, gid: nat, tail: nat)
    requires c.p.Valid() && c.l.Valid() && OnlyThread(c, s, s', t) && s'.sh == s.sh && SlotsFit(c, s.globals)
    requires s.thr[t].pc == Announce(gid) && TailOk(c, t, gid) && tail == c.l.m[c.l.bounds[t + 1] - 1].root
    requires First(c.l, tail) == t && RootOk(c, E, s, tail) && t <= gid < |s.globals|
    requires s'.globals == s.globals[gid := s.globals[gid].(needed := gid - t + 1)]
    requires s'.thr[t].pc == Deposit(gid) && |s'.thr[t].local.buckets| == c.p.Len()
    requires PortionHeld(c, E, t, tail, s'.thr[t].local)
    ensures Effect(c, E, s, s', t, tail)
  {
    assert ThreadOk(c, E, t, s'.thr[t]);
    AnnounceRoot(c, E, s, s', t, gid, tail);
    forall root | HasRoot(c.l.m, root) && root != tail && Last(c.l, root) < c.l.Threads()
      ensures Untouched(c, s, s', t, root)
    {
      AnnounceUntouched(c, E, s, s', t, gid, tail, root);
    }
    SlotReplaced(c, s.globals, s'.globals, gid);
    MakeEffect(c, E, s, s', t, tail);
  }

  /** Roots of part `t` other than its last are behind a thread that stands at the end of the part. */
  lemma BeforeTail(l: Layout, t: nat, root: nat)
    requires l.Valid() && t < l.Threads() && HasRoot(l.m, root) && t in Span(l, root)
    ensures 0 < l.bounds[t + 1] <= l.N()
    ensures root < l.m[l.bounds[t + 1] - 1].root || root == l.m[l.bounds[t + 1] - 1].root
  {
    assert Look(LAYOUT);
    PartNonEmpty(l, t);
    PartsOfRoot(l, root, t);
    var q :| 0 <= q < |l.m| && l.m[q].root == root && l.part[q] == t;
    InPart(l, t, q);
  }

  lemma OtherSlot(l: Layout, tail: nat, root: nat)
    requires l.Valid() && HasRoot(l.m, tail) && HasRoot(l.m, root) && root != tail
    requires First(l, tail) < Last(l, tail) && First(l, root) < Last(l, root)
    ensures Last(l, root) != Last(l, tail)
  {
    if Last(l, root) == Last(l, tail) { SlotsDistinct(l, root, tail); }
  }

  lemma DepositPast(c: Ctx, s: State, s': State, t: nat, gid: nat, tail: nat, root: nat)
    requires c.l.Valid() && OnlyThread(c, s, s', t)
    requires s.thr[t].pc == Deposit(gid) && s'.thr[t].pc.Collect?
    requires 0 < c.l.bounds[t + 1] <= c.l.N() && tail == c.l.m[c.l.bounds[t + 1] - 1].root
    requires HasRoot(c.l.m, root) && root != tail
    ensures t in Span(c.l, root) ==> (Past(c.l, t, s'.thr[t].pc, root) <==> Past(c.l, t, s.thr[t].pc, root))
    ensures Pending(c.l, t, s'.thr[t].pc, root) <==> Pending(c.l, t, s.thr[t].pc, root)
  {
    if t in Span(c.l, root) { BeforeTail(c.l, t, root); }
  }

  lemma DepositUntouched(c: Ctx, s: State, s': State, t: nat, gid: nat, tail: nat, root: nat)
    requires c.l.Valid() && OnlyThread(c, s, s', t) && s'.sh == s.sh
    requires s.thr[t].pc == Deposit(gid) && TailOk(c, t, gid) && tail == c.l.m[c.l.bounds[t + 1] - 1].root
    requires s'.thr[t].pc.Collect?
    requires forall g :: 0 <= g < |s.globals| && g != gid ==> s'.globals[g] == s.globals[g]
    requires HasRoot(c.l.m, root) && root != tail && Last(c.l, root) < c.l.Threads()
    ensures Untouched(c, s, s', t, root)
  {
    DepositPast(c, s, s', t, gid, tail, root);
    if First(c.l, root) < Last(c.l, root) { OtherSlot(c.l, tail, root); }
  }

  lemma DepositTail(c: Ctx, E: set<Edge>, s: State, s': State, t: nat, gid: nat, tail: nat)
    requires CtxOk(c, E) && OnlyThread(c, s, s', t) && s'.sh == s.sh && gid < |s.globals|
    requires |s.globals[gid].sketch.buckets| == c.p.Len()
    requires s.thr[t].pc == Deposit(gid) && TailOk(c, t, gid) && tail == c.l.m[c.l.bounds[t + 1] - 1].root
    requires s.thr[t].local == Held(c.p, c.r, E, KidsOf(c.l, tail, {t})) && RootOk(c, E, s, tail)
    requires var (g, ready) := MergeGlobal(c.p, c.r, s.globals[gid], s.thr[t].local);
             s'.globals == s.globals[gid := g] && s'.thr[t].pc == Collect(gid, ready)
    ensures RootOk(c, E, s', tail) && |s'.globals[gid].sketch.buckets| == c.p.Len()
  {
    DepositPc(c.l, t, gid, tail, s'.thr[t].pc.ready);
    DepositRoot(c, E, s, s', t, tail, s.thr[t].local);
  }

  lemma DepositPc(l: Layout, t: nat, gid: nat, tail: nat, ready: bool)
    requires l.Valid() && t < l.Threads() && 0 < l.bounds[t + 1] <= l.N() && tail == l.m[l.bounds[t + 1] - 1].root
    ensures !Past(l, t, Deposit(gid), tail) && Past(l, t, Collect(gid, ready), tail)
    ensures Pending(l, t, Collect(gid, ready), tail) <==> ready
  {
  }

  lemma DepositStep(c: Ctx, E: set<Edge>, s: State, s': State, t: nat, gid: nat, tail: nat)
    requires c.p.Valid() && c.l.Valid() && OnlyThread(c, s, s', t) && s'.sh == s.sh && SlotsFit(c, s.globals)
    requires s.thr[t].pc == Deposit(gid) && TailOk(c, t, gid) && tail == c.l.m[c.l.bounds[t + 1] - 1].root
    requires gid < |s.globals| && RootOk(c, E, s', tail) && |s'.globals[gid].sketch.buckets| == c.p.Len()
    requires forall g :: 0 <= g < |s.globals| && g != gid ==> s'.globals[g] == s.globals[g]
    requires s'.thr[t].pc.Collect? && s'.thr[t].pc.gid == gid && |s'.thr[t].local.buckets| == c.p.Len()
    ensures Effect(c, E, s, s', t, tail)
  {
    forall root | HasRoot(c.l.m, root) && root != tail && Last(c.l, root) < c.l.Threads()
      ensures Untouched(c, s, s', t, root)
    {
      DepositUntouched(c, s, s', t, gid, tail, root);
    }
    SlotReplaced(c, s.globals, s'.globals, gid);
    CollectThreadOk(c, E, t, s'.thr[t], gid);
    MakeEffect(c, E, s, s', t, tail);
  }

  lemma CollectThreadOk(c: Ctx, E: set<Edge>, t: nat, th: Thr, gid: nat)
    requires c.p.Valid() && c.l.Valid() && t < c.l.Threads() && th.pc.Collect? && th.pc.gid == gid
    requires TailOk(c, t, gid) && |th.local.buckets| == c.p.Len()
    ensures ThreadOk(c, E, t, th)
  {
  }

  lemma CollectUntouched(c: Ctx, s: State, s': State, t: nat, tail: nat, root: nat)
    requires c.l.Valid() && OnlyThread(c, s, s', t) && s'.globals == s.globals
    requires 0 < c.l.bounds[t + 1] <= c.l.N() && tail == c.l.m[c.l.bounds[t + 1] - 1].root
    requires s.thr[t].pc.Collect? && s'.thr[t].pc == Done
    requires Logged(s'.sh.log, root) <==> Logged(s.sh.log, root)
    requires HasRoot(c.l.m, root) && Last(c.l, root) < c.l.Threads()
    requires s.thr[t].pc.ready ==> root != tail
    ensures Untouched(c, s, s', t, root)
  {
  }

  lemma CollectStep(c: Ctx, E: set<Edge>, s: State, s': State, t: nat, tail: nat)
    requires c.p.Valid() && c.l.Valid() && OnlyThread(c, s, s', t) && s'.globals == s.globals && SlotsFit(c, s.globals)
    requires s.thr[t].pc.Collect? && TailOk(c, t, s.thr[t].pc.gid) && tail == c.l.m[c.l.bounds[t + 1] - 1].root
    requires HasRoot(c.l.m, tail) && RootOk(c, E, s, tail) && s'.thr[t] == s.thr[t].(pc := Done)
    requires |s.thr[t].local.buckets| == c.p.Len()
    requires if s.thr[t].pc.ready then SampledOn(c, E, s.sh, s'.sh, tail) else s'.sh == s.sh
    ensures Effect(c, E, s, s', t, tail)
  {
    LogAfterSample(c, E, s.sh, s'.sh, s.thr[t].pc.ready, tail);
    if s.thr[t].pc.ready {
      SampledLogged(c, E, s.sh, s'.sh, tail, tail);
      CollectRoot(c, E, s, s', t, tail);
    } else {
      CollectUntouched(c, s, s', t, tail, tail);
      FrameRoot(c, E, s, s', t, tail);
    }
    forall root | HasRoot(c.l.m, root) && root != tail && Last(c.l, root) < c.l.Threads()
      ensures Untouched(c, s, s', t, root)
    {
      CollectUntouched(c, s, s', t, tail, root);
    }
    MakeEffect(c, E, s, s', t, tail);
  }
}
