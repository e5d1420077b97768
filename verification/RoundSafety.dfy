/** What every step of a parallel round keeps, for every interleaving: each supernode is collected completely and
    sampled exactly once. */
module RoundSafety {
  import opened Graphs
  import opened DisjointSets
  import opened Sketches
  import opened Supernodes
  import opened Partitions
  import opened MergeLists
  import opened RoundProtocol

  ghost predicate CtxOk(c: Ctx, E: set<Edge>) {
    && c.p.Valid() && c.l.Valid() && c.l.Threads() < UNSET
    && ChildrenOk(c.l)
    && Simple(c.l.N(), E)
    && |c.sks| == c.l.N() && (forall v :: 0 <= v < c.l.N() ==> c.sks[v] == SketchOf(c.p, CutIds(E, {v})))
    && |c.prio| == c.l.N() && |c.parent0| == c.l.N()
    && Represents(c.prio, c.parent0, c.forest0)
  }

  /** Every vertex appears at most once as a child. */
  ghost predicate ChildrenOk(l: Layout) {
    && (forall q :: 0 <= q < l.N() ==> l.m[q].child < l.N())
    && (forall a, b :: 0 <= a < b < l.N() ==> l.m[a].child != l.m[b].child)
  }

  ghost function Kids(l: Layout, lo: nat, hi: nat): set<nat>
    requires hi <= l.N()
  {
    set q | lo <= q < hi :: l.m[q].child
  }

  /** The vertices of supernode `root` that lie in the parts `ts`. */
  ghost function KidsOf(l: Layout, root: nat, ts: set<nat>): set<nat>
    requires |l.part| == |l.m|
  {
    set q | 0 <= q < l.N() && l.m[q].root == root && l.part[q] in ts :: l.m[q].child
  }

  ghost function Supernode(l: Layout, root: nat): set<nat> {
    set q | 0 <= q < l.N() && l.m[q].root == root :: l.m[q].child
  }

  ghost function Span(l: Layout, root: nat): set<nat>
    requires |l.part| == |l.m| && HasRoot(l.m, root)
  {
    Interval(First(l, root), Last(l, root))
  }

  ghost function Interval(lo: nat, hi: nat): (s: set<nat>)
    ensures forall t: nat :: t in s <==> lo <= t <= hi
    ensures lo <= hi ==> |s| == hi - lo + 1
    decreases hi
  {
    if lo > hi then {} else if lo == hi then {lo} else Interval(lo, hi - 1) + {hi}
  }

  // ---------- one supernode at a time ----------

  /** What holds of one supernode: `past` are the threads done with their portion, `pend` those about to sample
      it, `announced` whether num_merge_needed was set, `slot` its collecting slot. */
  ghost predicate ViewOk(c: Ctx, E: set<Edge>, root: nat, past: set<nat>, pend: set<nat>, announced: bool,
                         slot: Global, logged: bool)
    requires c.p.Valid() && c.l.Valid() && HasRoot(c.l.m, root)
  {
    && past <= Span(c.l, root)
    && (logged ==> past == Span(c.l, root))
    && (forall a, b :: a in pend && b in pend ==> a == b)
    && (pend != {} ==> past == Span(c.l, root) && !logged)
    && if First(c.l, root) == Last(c.l, root) then
         pend == {} && (past == Span(c.l, root) ==> logged)
       else
         && slot.sketch == Held(c.p, c.r, E, KidsOf(c.l, root, past))
         && slot.done == |past|
         && slot.needed == (if announced then Last(c.l, root) - First(c.l, root) + 1 else UNSET)
         && (First(c.l, root) in past ==> announced)
         && (past == Span(c.l, root) && !logged ==> pend != {})
  }

  lemma FullBySize(a: set<nat>, b: set<nat>)
    requires a <= b
    ensures |a| <= |b| && (|a| == |b| <==> a == b)
  {
    SubsetSize(a, b);
    if a != b {
      var x :| x in b && x !in a;
      ProperSubsetSmaller(a, b, x);
    }
  }

  lemma KidsOfAdd(l: Layout, root: nat, ts: set<nat>, t: nat)
    requires l.Valid() && ChildrenOk(l) && t !in ts
    ensures KidsOf(l, root, ts + {t}) == KidsOf(l, root, ts) + KidsOf(l, root, {t})
    ensures KidsOf(l, root, ts) !! KidsOf(l, root, {t})
  {
    var A, B, C := KidsOf(l, root, ts), KidsOf(l, root, {t}), KidsOf(l, root, ts + {t});
    forall x | x in C ensures x in A + B {
      var q :| 0 <= q < l.N() && l.m[q].root == root && l.part[q] in ts + {t} && l.m[q].child == x;
      assert l.part[q] in ts || l.part[q] in {t};
    }
    forall x | x in A ensures x !in B {
      var q :| 0 <= q < l.N() && l.m[q].root == root && l.part[q] in ts && l.m[q].child == x;
    }
  }

  lemma PortionNonEmpty(l: Layout, root: nat, t: nat)
    requires l.Valid() && HasRoot(l.m, root) && t in Span(l, root)
    ensures KidsOf(l, root, {t}) != {}
  {
    PartsOfRoot(l, root, t);
    var q :| 0 <= q < |l.m| && l.m[q].root == root && l.part[q] == t;
    assert l.m[q].child in KidsOf(l, root, {t});
  }

  lemma FullPortion(l: Layout, root: nat)
    requires l.Valid() && HasRoot(l.m, root)
    ensures KidsOf(l, root, Span(l, root)) == Supernode(l, root)
    ensures Supernode(l, root) != {}
  {
    forall q | 0 <= q < l.N() && l.m[q].root == root ensures l.part[q] in Span(l, root) {
      PartsOfRoot(l, root, l.part[q]);
      assert Has(l, l.part[q], root);
    }
    assert l.m[Lo(l.m, root)].child in Supernode(l, root);
  }

  /** A deposit: the slot holds one portion more, and the depositor may sample exactly when it was the last. */
  lemma ViewDeposit(c: Ctx, E: set<Edge>, root: nat, past: set<nat>, pend: set<nat>, announced: bool,
                    slot: Global, logged: bool, t: nat, local: SketchVal)
    requires CtxOk(c, E) && HasRoot(c.l.m, root) && First(c.l, root) < Last(c.l, root)
    requires ViewOk(c, E, root, past, pend, announced, slot, logged)
    requires t in Span(c.l, root) && t !in past && (t == First(c.l, root) ==> announced)
    requires local == Held(c.p, c.r, E, KidsOf(c.l, root, {t}))
    ensures var (slot', ready) := MergeGlobal(c.p, c.r, slot, local);
            && ViewOk(c, E, root, past + {t}, if ready then {t} else {}, announced, slot', logged)
            && (ready <==> past + {t} == Span(c.l, root)) && !logged && pend == {}
            && (announced ==> slot'.done <= slot'.needed)
  {
    var l := c.l;
    KidsOfAdd(l, root, past, t);
    PortionNonEmpty(l, root, t);
    HeldUnion(c.p, c.r, l.N(), E, KidsOf(l, root, past), KidsOf(l, root, {t}));
    FullBySize(past + {t}, Span(l, root));
    PartsOfRoot(l, root, t);
    assert |past + {t}| == |past| + 1;
  }

  lemma ViewCollect(c: Ctx, E: set<Edge>, root: nat, past: set<nat>, pend: set<nat>, announced: bool,
                    slot: Global, logged: bool, t: nat)
    requires c.p.Valid() && c.l.Valid() && HasRoot(c.l.m, root)
    requires ViewOk(c, E, root, past, pend, announced, slot, logged) && t in pend
    ensures ViewOk(c, E, root, past, {}, announced, slot, true) && pend == {t}
    ensures slot.sketch == Held(c.p, c.r, E, Supernode(c.l, root))
  {
    FullPortion(c.l, root);
  }

  lemma ViewLocal(c: Ctx, E: set<Edge>, root: nat, past: set<nat>, pend: set<nat>, announced: bool,
                  slot: Global, logged: bool, t: nat)
    requires c.p.Valid() && c.l.Valid() && HasRoot(c.l.m, root)
    requires ViewOk(c, E, root, past, pend, announced, slot, logged)
    requires First(c.l, root) == Last(c.l, root) == t && t !in past
    ensures ViewOk(c, E, root, past + {t}, pend, announced, slot, true) && !logged
    ensures KidsOf(c.l, root, {t}) == Supernode(c.l, root)
  {
    FullPortion(c.l, root);
    assert Span(c.l, root) == {t};
    assert past == {};
  }

  lemma ViewAnnounce(c: Ctx, E: set<Edge>, root: nat, past: set<nat>, pend: set<nat>, slot: Global, logged: bool)
    requires c.p.Valid() && c.l.Valid() && HasRoot(c.l.m, root) && First(c.l, root) < Last(c.l, root)
    requires ViewOk(c, E, root, past, pend, false, slot, logged)
    ensures ViewOk(c, E, root, past, pend, true, slot.(needed := Last(c.l, root) - First(c.l, root) + 1), logged)
  {
  }

  // ---------- the whole state ----------

  /** Thread `t` is done with its portion of supernode `root`. */
  ghost predicate Past(l: Layout, t: nat, pc: Pc, root: nat)
    requires l.Valid() && t < l.Threads()
  {
    match pc
    case Scan(_, cur, _) => root < cur
    case Own(i, _) => i < l.N() && root < l.m[i].root
    case Announce(_) => 0 < l.bounds[t + 1] <= l.N() && root < l.m[l.bounds[t + 1] - 1].root
    case Deposit(_) => 0 < l.bounds[t + 1] <= l.N() && root < l.m[l.bounds[t + 1] - 1].root
    case Collect(_, _) => true
    case Done => true
  }

  /** Thread `t` was told to sample supernode `root` and has not yet done so. */
  ghost predicate Pending(l: Layout, t: nat, pc: Pc, root: nat)
    requires l.Valid() && t < l.Threads()
  {
    || (pc.Own? && pc.ready && l.bounds[t] < l.N() && l.m[l.bounds[t]].root == root)
    || (pc.Collect? && pc.ready && 0 < l.bounds[t + 1] <= l.N() && l.m[l.bounds[t + 1] - 1].root == root)
  }

  ghost predicate HasAnnounced(pc: Pc) { pc.Deposit? || pc.Collect? || pc.Done? }

  ghost function PastSet(c: Ctx, s: State, root: nat): set<nat>
    requires c.l.Valid() && |s.thr| == c.l.Threads() && HasRoot(c.l.m, root)
  {
    set t | t in Span(c.l, root) && t < c.l.Threads() && Past(c.l, t, s.thr[t].pc, root)
  }

  ghost function PendSet(c: Ctx, s: State, root: nat): set<nat>
    requires c.l.Valid() && |s.thr| == c.l.Threads()
  {
    set t | 0 <= t < c.l.Threads() && Pending(c.l, t, s.thr[t].pc, root)
  }

  ghost predicate Logged(log: seq<Entry>, root: nat) {
    exists k :: 0 <= k < |log| && log[k].root == root
  }

  ghost predicate RootOk(c: Ctx, E: set<Edge>, s: State, root: nat)
    requires c.p.Valid() && c.l.Valid() && |s.thr| == |s.globals| == c.l.Threads() && HasRoot(c.l.m, root)
  {
    && First(c.l, root) < c.l.Threads() && Last(c.l, root) < c.l.Threads()
    && forall k {:trigger Look(k)} :: Look(k) && k == ROOT ==>
         ViewOk(c, E, root, PastSet(c, s, root), PendSet(c, s, root),
                HasAnnounced(s.thr[First(c.l, root)].pc), s.globals[Last(c.l, root)], Logged(s.sh.log, root))
  }

  /** Where the portion of `root` in part `t` begins. */
  ghost function SegStart(l: Layout, t: nat, root: nat): nat
    requires t < |l.bounds| && HasRoot(l.m, root)
  {
    if l.bounds[t] > Lo(l.m, root) then l.bounds[t] else Lo(l.m, root)
  }

  ghost predicate ScanOk(c: Ctx, E: set<Edge>, t: nat, i: nat, cur: nat, fromLeft: bool, local: SketchVal)
    requires c.p.Valid() && c.l.Valid() && t < c.l.Threads()
  {
    && c.l.bounds[t] < c.l.bounds[t + 1] <= c.l.N()
    && HasRoot(c.l.m, cur)
    && c.l.bounds[t] <= SegStart(c.l, t, cur) <= i <= c.l.bounds[t + 1]
    && (forall q :: SegStart(c.l, t, cur) <= q < i ==> c.l.m[q].root == cur)
    && (i == SegStart(c.l, t, cur) ==> i < c.l.bounds[t + 1] && c.l.m[i].root == cur)
    && (fromLeft <==> FromLeft(c.l, t) && cur == c.l.m[c.l.bounds[t]].root)
    && local == Held(c.p, c.r, E, Kids(c.l, SegStart(c.l, t, cur), i))
  }

  /** The thread works on the last root of its part, which spans several parts and is collected in slot `gid`. */
  ghost predicate TailOk(c: Ctx, t: nat, gid: nat)
    requires c.l.Valid() && t < c.l.Threads()
  {
    && 0 < c.l.bounds[t + 1] <= c.l.N()
    && var tail := c.l.m[c.l.bounds[t + 1] - 1].root;
       HasRoot(c.l.m, tail) && t in Span(c.l, tail) && First(c.l, tail) < Last(c.l, tail) && gid == Last(c.l, tail)
  }

  /** The thread has just left the root that came from the left, at position `i`. */
  ghost predicate OwnOk(c: Ctx, t: nat, i: nat)
    requires c.l.Valid() && t < c.l.Threads()
  {
    && c.l.bounds[t] < i < c.l.bounds[t + 1] <= c.l.N() && FromLeft(c.l, t)
    && c.l.m[i - 1].root == c.l.m[c.l.bounds[t]].root != c.l.m[i].root
  }

  ghost predicate PortionHeld(c: Ctx, E: set<Edge>, t: nat, root: nat, local: SketchVal)
    requires c.p.Valid() && c.l.Valid()
  {
    local == Held(c.p, c.r, E, KidsOf(c.l, root, {t}))
  }

  ghost predicate ThreadOk(c: Ctx, E: set<Edge>, t: nat, th: Thr)
    requires c.p.Valid() && c.l.Valid() && t < c.l.Threads()
  {
    |th.local.buckets| == c.p.Len() && forall k {:trigger Look(k)} :: Look(k) && k == THREAD ==> PcOk(c, E, t, th)
  }

  ghost predicate PcOk(c: Ctx, E: set<Edge>, t: nat, th: Thr)
    requires c.p.Valid() && c.l.Valid() && t < c.l.Threads()
  {
    match th.pc
    case Scan(i, cur, fromLeft) => ScanOk(c, E, t, i, cur, fromLeft, th.local)
    case Own(i, _) => OwnOk(c, t, i)
    case Announce(gid) =>
      && TailOk(c, t, gid) && First(c.l, c.l.m[c.l.bounds[t + 1] - 1].root) == t
      && PortionHeld(c, E, t, c.l.m[c.l.bounds[t + 1] - 1].root, th.local)
    case Deposit(gid) => TailOk(c, t, gid) && PortionHeld(c, E, t, c.l.m[c.l.bounds[t + 1] - 1].root, th.local)
    case Collect(gid, _) => TailOk(c, t, gid)
    case Done => true
  }

  /** The history: no supernode is sampled twice, and each sample was taken on the complete supernode. */
  ghost predicate LogOk(c: Ctx, E: set<Edge>, log: seq<Entry>)
    requires c.p.Valid() && c.l.Valid()
  {
    && (forall k :: 0 <= k < |log| ==>
          HasRoot(c.l.m, log[k].root) && log[k].sketch == Held(c.p, c.r, E, Supernode(c.l, log[k].root)))
    && (forall a, b :: 0 <= a < b < |log| ==> log[a].root != log[b].root)
  }

  ghost predicate EntryOk(c: Ctx, sh: Shared, en: Entry)
    requires c.p.Valid() && Ascending(c.prio, sh.parent)
  {
    && |en.sketch.buckets| == c.p.Len() && en.outcome == SampleFn(c.p, en.sketch).1
    && match en.outcome
       case OutOfSamples => sh.failed
       case Sampled(Fail) => sh.modified
       case Sampled(Zero) => true
       case Sampled(Good(idx)) =>
         var e := EdgeAt(idx);
         sh.failed || (e.src < |sh.parent| && e.dst < |sh.parent| && Same(c.prio, sh.parent, e.src, e.dst))
  }

  ghost predicate SampledEdge(log: seq<Entry>, e: Edge) {
    exists k :: 0 <= k < |log| && log[k].outcome.Sampled? && log[k].outcome.s.Good?
      && e == Normal(EdgeAt(log[k].outcome.s.idx).src, EdgeAt(log[k].outcome.s.idx).dst)
  }

  /** Sampling past the last column, or an index that names no vertex of the graph, stops the round. */
  predicate Throws(n: nat, en: Entry) {
    en.outcome.OutOfSamples?
    || (en.outcome.s.Good? && (EdgeAt(en.outcome.s.idx).src >= n || EdgeAt(en.outcome.s.idx).dst >= n))
  }

  ghost predicate SomeThrows(n: nat, log: seq<Entry>) {
    exists k :: 0 <= k < |log| && Throws(n, log[k])
  }

  /** Some sample of the round reported FAIL. */
  ghost predicate SomeFail(log: seq<Entry>) {
    exists k :: 0 <= k < |log| && log[k].outcome == Sampled(Fail)
  }

  /** The union-find always represents the recorded forest, which only grows by sampled edges. */
  ghost predicate SharedOk(c: Ctx, sh: Shared)
    requires c.p.Valid() && Ascending(c.prio, c.parent0)
  {
    && Represents(c.prio, sh.parent, sh.forest) && |sh.parent| == |c.parent0|
    && (forall x: nat, y: nat :: x < |sh.parent| && y < |sh.parent| && Same(c.prio, c.parent0, x, y) ==>
        Same(c.prio, sh.parent, x, y))
    && c.forest0 <= sh.forest
    && (!sh.modified ==> sh.parent == c.parent0 && sh.forest == c.forest0)
    && (sh.modified ==> SomeFail(sh.log) || sh.forest != c.forest0)
    && (sh.failed ==> SomeThrows(|c.parent0|, sh.log))
    && (forall k :: 0 <= k < |sh.log| ==> EntryOk(c, sh, sh.log[k]))
    && (forall e :: e in sh.forest && e !in c.forest0 ==> SampledEdge(sh.log, e))
  }

  ghost predicate Inv(c: Ctx, E: set<Edge>, s: State)
    requires CtxOk(c, E)
  {
    && |s.thr| == |s.globals| == c.l.Threads()
    && (forall t :: 0 <= t < |s.thr| ==> ThreadOk(c, E, t, s.thr[t]))
    && (forall g :: 0 <= g < |s.globals| ==> |s.globals[g].sketch.buckets| == c.p.Len())
    && (forall root :: HasRoot(c.l.m, root) ==> RootOk(c, E, s, root))
    && LogOk(c, E, s.sh.log)
    && SharedOk(c, s.sh)
  }

  // ---------- sampling and the union-find ----------

  lemma OriginsKept(n: nat, log: seq<Entry>, en: Entry)
    ensures SomeThrows(n, log) || Throws(n, en) ==> SomeThrows(n, log + [en])
    ensures SomeFail(log) || en.outcome == Sampled(Fail) ==> SomeFail(log + [en])
  {
    assert (log + [en])[|log|] == en;
    if SomeThrows(n, log) {
      var k :| 0 <= k < |log| && Throws(n, log[k]);
      assert (log + [en])[k] == log[k];
    }
    if SomeFail(log) {
      var k :| 0 <= k < |log| && log[k].outcome == Sampled(Fail);
      assert (log + [en])[k] == log[k];
    }
  }

  lemma LogExtended(c: Ctx, sh: Shared, sh': Shared, en: Entry)
    requires c.p.Valid() && Ascending(c.prio, c.parent0) && SharedOk(c, sh)
    requires sh'.log == sh.log + [en] && Represents(c.prio, sh'.parent, sh'.forest)
    requires |sh'.parent| == |sh.parent| && sh.forest <= sh'.forest
    requires sh.failed ==> sh'.failed
    requires sh.modified ==> sh'.modified
    requires sh'.failed ==> sh.failed || Throws(|sh.parent|, en)
    requires sh'.modified ==> sh.modified || en.outcome == Sampled(Fail) || sh'.forest != sh.forest
    requires forall x: nat, y: nat :: x < |sh.parent| && y < |sh.parent| && Same(c.prio, sh.parent, x, y) ==>
        Same(c.prio, sh'.parent, x, y)
    requires !sh'.modified ==> sh'.parent == sh.parent && sh'.forest == sh.forest
    requires EntryOk(c, sh', en)
    requires forall e :: e in sh'.forest && e !in sh.forest ==> SampledEdge([en], e)
    ensures SharedOk(c, sh')
  {
    forall k | 0 <= k < |sh'.log| ensures EntryOk(c, sh', sh'.log[k]) {
      if k < |sh.log| { assert sh'.log[k] == sh.log[k] && EntryOk(c, sh, sh.log[k]); }
    }
    OriginsKept(|sh.parent|, sh.log, en);
    forall e | e in sh'.forest && e !in c.forest0 ensures SampledEdge(sh'.log, e) {
      if e in sh.forest {
        var k :| 0 <= k < |sh.log| && sh.log[k].outcome.Sampled? && sh.log[k].outcome.s.Good?
          && e == Normal(EdgeAt(sh.log[k].outcome.s.idx).src, EdgeAt(sh.log[k].outcome.s.idx).dst);
        assert sh'.log[k] == sh.log[k];
      } else {
        assert sh'.log[|sh.log|] == en && [en][0] == en;
      }
    }
  }

  lemma LinkForSample(prio: seq<nat>, parent: seq<nat>, F: set<Edge>, e: Edge)
    requires Represents(prio, parent, F) && e.src < |parent| && e.dst < |parent| && !Same(prio, parent, e.src, e.dst)
    ensures var (a, b) := OrderEdge(prio, Root(prio, parent, e.src), Root(prio, parent, e.dst));
            var q := parent[b := a];
            && Represents(prio, q, F + {Normal(e.src, e.dst)}) && Normal(e.src, e.dst) !in F
            && Same(prio, q, e.src, e.dst)
            && (forall x: nat, y: nat :: x < |parent| && y < |parent| && Same(prio, parent, x, y) ==>
                Same(prio, q, x, y))
  {
    var (a, b) := OrderEdge(prio, Root(prio, parent, e.src), Root(prio, parent, e.dst));
    var f := Normal(e.src, e.dst);
    LinkKeepsRepresents(prio, parent, F, f, a, b);
    LinkJoins(prio, parent, a, b);
  }

  lemma SampleKeepsShared(c: Ctx, sh: Shared, root: nat, skt: SketchVal)
    requires c.p.Valid() && Ascending(c.prio, c.parent0) && SharedOk(c, sh) && |skt.buckets| == c.p.Len()
    ensures SharedOk(c, SampleSupernode(c.p, c.prio, sh, root, skt))
    ensures SampleSupernode(c.p, c.prio, sh, root, skt).log == sh.log + [Entry(root, skt, SampleFn(c.p, skt).1)]
  {
    var out := SampleFn(c.p, skt).1;
    var en := Entry(root, skt, out);
    var sh' := SampleSupernode(c.p, c.prio, sh, root, skt);
    if out.Sampled? && out.s.Good? {
      var e := EdgeAt(out.s.idx);
      if e.src < |sh.parent| && e.dst < |sh.parent| && !Same(c.prio, sh.parent, e.src, e.dst) {
        LinkForSample(c.prio, sh.parent, sh.forest, e);
        assert SampledEdge([en], Normal(e.src, e.dst)) by { assert [en][0] == en; }
      }
    }
    LogExtended(c, sh, sh', en);
  }
}
