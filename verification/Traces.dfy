/** Runs of the query loop: what happens round by round, which sequences of rounds are possible, and what every possible
    run achieves. */
module Traces {
  import opened Graphs
  import opened DisjointSets
  import opened XorAlgebra
  import opened Sketches
  import opened Supernodes
  import opened Partitions
  import opened MergeLists
  import opened RoundProtocol
  import opened RoundSafety
  import opened CountingSort
  import opened Boruvka
  import opened BoruvkaRounds
  import opened MislabelledRounds
  import opened LookUpsExact
  import opened Regrouping
  import opened QueryLoop

  /** What is asked, and with what: the sketches of the graph `E` on `n` vertices. */
  datatype Query = Query(p: Params, n: nat, threads: nat, prio: seq<nat>, E: set<Edge>) {
    ghost predicate Valid() {
      p.Valid() && 0 < threads <= n && threads < UNSET && |prio| == n && Simple(n, E)
    }
  }

  /** One round: its merge list as divided among the threads, with the labels it was built from, union-find and forest
      at its start, its result, and the union-find as the halving stores inside the round's merges leave it. */
  datatype Round = Round(l: Layout, find: seq<nat>, parent: seq<nat>, forest: set<Edge>, sh: Shared, settled: seq<nat>)

  type Trace = seq<Round>

  ghost function CutSketches(q: Query): (b: seq<seq<Bucket>>)
    requires q.p.Valid()
    ensures |b| == q.n && forall v :: 0 <= v < q.n ==> b[v] == SketchOf(q.p, CutIds(q.E, {v}))
  {
    seq(q.n, v requires 0 <= v < q.n => SketchOf(q.p, CutIds(q.E, {v})))
  }

  ghost function CtxOf(q: Query, r: nat, rd: Round): Ctx
    requires q.Valid() && |rd.l.m| == q.n
  {
    Ctx(q.p, r, rd.l, CutSketches(q), q.prio, rd.parent, rd.forest)
  }

  // ---------- which runs are possible ----------

  /** The round ran, in some order or interleaving, and its merges' look-ups left some array with the same roots. */
  ghost predicate Ran(q: Query, r: nat, rd: Round)
    requires q.Valid()
  {
    |rd.l.m| == q.n && RoundRan(CtxOf(q, r, rd), rd.sh) && SameRoots(q.prio, rd.sh.parent, rd.settled)
  }

  /** The list is divided among the threads as `get_ith_partition` does. */
  ghost predicate LaidOut(q: Query, rd: Round) {
    && 0 < q.threads <= q.n == |rd.l.m|
    && forall o {:trigger UnfoldStep(o)} :: UnfoldStep(o) ==> rd.l == LayoutOf(rd.l.m, q.threads)
  }

  ghost predicate FirstRound(q: Query, rd: Round) {
    && LaidOut(q, rd) && (forall i :: 0 <= i < q.n ==> rd.l.m[i] == MergeInstr(i, i))
    && rd.find == Identity(q.n) && rd.parent == Identity(q.n) && rd.forest == {}
  }

  /** `next` follows `rd`: something changed, the threads looked up their parts of the list, and the list was sorted by
      the answers. */
  ghost predicate Follows(q: Query, rd: Round, next: Round) {
    && !rd.sh.failed && rd.sh.modified
    && CanLabel(rd.l.m, q.threads, rd.settled, next.find, next.parent) && ListOf(next.l.m, next.find)
    && LaidOut(q, next)
    && next.forest == rd.sh.forest
  }

  /** A run of the query loop, perhaps not finished. */
  ghost predicate IsRun(q: Query, tr: Trace)
    requires q.Valid()
  {
    tr != [] && FirstRound(q, tr[0]) && AllRan(q, tr) && AllFollow(q, tr)
  }

  ghost predicate AllRan(q: Query, tr: Trace)
    requires q.Valid()
  {
    forall r: nat :: r < |tr| ==> RanAt(q, tr, r)
  }

  ghost predicate AllFollow(q: Query, tr: Trace)
    decreases |tr|
  {
    |tr| < 2 || (AllFollow(q, Init(tr)) && FollowsAt(q, tr, |tr| - 2))
  }

  function Init(tr: Trace): Trace
    requires tr != []
  {
    tr[..|tr| - 1]
  }

  ghost predicate RanAt(q: Query, tr: Trace, r: nat)
    requires q.Valid() && r < |tr|
  {
    Ran(q, r, tr[r])
  }

  // Folded except in proofs that mention `UnfoldStep`.
  ghost predicate FollowsAt(q: Query, tr: Trace, r: nat)
    requires r + 1 < |tr|
  {
    forall o {:trigger UnfoldStep(o)} :: UnfoldStep(o) ==> Follows(q, tr[r], tr[r + 1])
  }

  ghost predicate UnfoldStep(o: nat) { true }

  ghost predicate Unfold(o: nat) { true }

  lemma FollowsPrefix(q: Query, tr: Trace, rd: Round, r: nat)
    requires r + 1 < |tr| && FollowsAt(q, tr, r)
    ensures FollowsAt(q, tr + [rd], r)
  {
    assert (tr + [rd])[r] == tr[r] && (tr + [rd])[r + 1] == tr[r + 1];
  }

  lemma {:induction false} FollowOf(q: Query, tr: Trace, r: nat)
    requires AllFollow(q, tr) && r + 1 < |tr|
    ensures FollowsAt(q, tr, r)
    decreases |tr|
  {
    if r != |tr| - 2 {
      FollowOf(q, Init(tr), r);
      FollowsPrefix(q, Init(tr), Last(tr), r);
      assert Init(tr) + [Last(tr)] == tr;
    }
  }

  lemma RanOf(q: Query, tr: Trace, r: nat)
    requires q.Valid() && AllRan(q, tr) && r < |tr|
    ensures RanAt(q, tr, r)
  {
  }

  function Last(tr: Trace): Round
    requires tr != []
  {
    tr[|tr| - 1]
  }

  /** The loop has ended: with an exception, or because nothing changed. */
  ghost predicate Ended(q: Query, tr: Trace)
    requires q.Valid()
  {
    IsRun(q, tr) && (Last(tr).sh.failed || !Last(tr).sh.modified)
  }

  // ---------- what happened ----------

  ghost predicate FooledAt(q: Query, tr: Trace, r: nat)
    requires q.Valid() && r < |tr|
  {
    |tr[r].l.m| == q.n && !GroupsFaithful(CtxOf(q, r, tr[r]), q.E)
  }

  ghost predicate FailAt(tr: Trace, r: nat)
    requires r < |tr|
  {
    SomeFail(tr[r].sh.log)
  }

  ghost predicate InexactAt(q: Query, tr: Trace, r: nat)
    requires r < |tr|
  {
    Ascending(q.prio, tr[r].parent) && !FindsOf(q.prio, tr[r].parent, tr[r].find)
  }

  ghost predicate DeepAt(q: Query, tr: Trace, r: nat)
    requires r < |tr|
  {
    Ascending(q.prio, tr[r].settled) && !AtMostFour(q.prio, tr[r].settled)
  }

  /** The last round changed nothing on labels that split two sets which an edge joins. */
  ghost predicate EndsTorn(q: Query, tr: Trace) {
    tr != [] && var rd := Last(tr);
    && !rd.sh.failed && !rd.sh.modified && Ascending(q.prio, rd.parent) && |rd.find| == |rd.parent|
    && Torn(q.prio, rd.parent, rd.find, q.E)
  }

  /** Read off the run: some round inspected an unfaithful bucket, some sample failed, some label is no root, the end is
      torn, some look-ups between rounds started too deep. */
  ghost function LuckOf(q: Query, tr: Trace): Luck
    requires q.Valid()
  {
    Luck(exists r: nat :: r < |tr| && FooledAt(q, tr, r),
         exists r: nat :: r < |tr| && FailAt(tr, r),
         exists r: nat :: r < |tr| && InexactAt(q, tr, r),
         EndsTorn(q, tr),
         exists r: nat :: r + 1 < |tr| && DeepAt(q, tr, r))
  }

  // ---------- what every run keeps ----------

  /** The state before round `r`. */
  ghost predicate Before(q: Query, rd: Round, r: nat, k: Luck)
    requires q.Valid()
  {
    && |rd.l.m| == q.n && rd.l.Valid() && rd.l.Threads() == q.threads && ChildrenOk(rd.l)
    && LoopOk(q.n, q.prio, rd.parent, rd.forest, q.E, r, k)
    && ListOf(rd.l.m, rd.find) && SameSetLabels(q.prio, rd.parent, rd.find)
    && (r == 0 ==>
          rd.parent == Identity(q.n) && rd.forest == {} && forall i :: 0 <= i < q.n ==> rd.l.m[i] == MergeInstr(i, i))
  }

  lemma FirstBefore(q: Query, rd: Round, k: Luck)
    requires q.Valid() && FirstRound(q, rd)
    ensures Before(q, rd, 0, k)
  {
    assert UnfoldStep(0);
    StartOk(q.n, q.prio, q.E, k);
    IdentityList(q.n, rd.l.m);
    LayoutValid(rd.l.m, q.threads, rd.find);
    RootsNeverTorn(q.prio, rd.parent, rd.find, q.E);
  }

  lemma IdentityList(n: nat, m: seq<MergeInstr>)
    requires |m| == n && forall i :: 0 <= i < n ==> m[i] == MergeInstr(i, i)
    ensures ListOf(m, Identity(n))
  {
    forall v | 0 <= v < n ensures ListsChild(m, v) { assert m[v].child == v; }
  }

  lemma ContextOk(q: Query, rd: Round, r: nat, k: Luck)
    requires q.Valid() && Before(q, rd, r, k)
    ensures CtxOk(CtxOf(q, r, rd), q.E) && (r == 0 ==> FreshSets(CtxOf(q, r, rd)))
  {
  }

  /** A round that ran has sampled every group of its list. */
  lemma RanGroups(q: Query, rd: Round, r: nat, k: Luck)
    requires q.Valid() && Before(q, rd, r, k) && Ran(q, r, rd)
    ensures CtxOk(CtxOf(q, r, rd), q.E) && GroupsSampled(CtxOf(q, r, rd), q.E, rd.sh)
  {
    ContextOk(q, rd, r, k);
    RanSamples(CtxOf(q, r, rd), q.E, rd.sh);
  }

  /** The mishaps `k` cover what happens in this round. */
  ghost predicate CoversRound(q: Query, rd: Round, r: nat, k: Luck)
    requires q.Valid() && |rd.l.m| == q.n && Ascending(q.prio, rd.parent)
  {
    && (!k.fooled ==> GroupsFaithful(CtxOf(q, r, rd), q.E))
    && (k.Calm() ==> FindsOf(q.prio, rd.parent, rd.find) && !SomeFail(rd.sh.log))
  }

  /** What one round of a run leaves behind. */
  ghost predicate After(q: Query, rd: Round, r: nat, k: Luck)
    requires q.Valid()
  {
    && SameRoots(q.prio, rd.sh.parent, rd.settled) && |rd.settled| == q.n
    && Represents(q.prio, rd.settled, rd.sh.forest) && NormalEdges(q.n, rd.sh.forest)
    && (!k.fooled && rd.sh.failed ==> r >= q.p.samples)
    && (!k.fooled && !rd.sh.failed ==> rd.sh.forest <= q.E)
    && (!rd.sh.failed ==> r < q.p.samples)
    && (!rd.sh.modified ==> SameRoots(q.prio, rd.parent, rd.settled) && rd.sh.forest == rd.forest)
    && (!rd.sh.failed && !rd.sh.modified && !k.fooled && Ascending(q.prio, rd.parent) && |rd.find| == |rd.parent| ==>
          (SpanningForest(rd.sh.forest, q.E) <==> !Torn(q.prio, rd.parent, rd.find, q.E)))
    && (!rd.sh.failed && rd.sh.modified ==> LoopOk(q.n, q.prio, rd.settled, rd.sh.forest, q.E, r + 1, k))
  }

  /** The same for the array as the links leave it. */
  ghost predicate Linked(q: Query, rd: Round, r: nat, k: Luck)
    requires q.Valid() && Ascending(q.prio, rd.parent) && |rd.find| == |rd.parent|
  {
    && |rd.sh.parent| == q.n && Represents(q.prio, rd.sh.parent, rd.sh.forest) && NormalEdges(q.n, rd.sh.forest)
    && (!k.fooled && rd.sh.failed ==> r >= q.p.samples)
    && (!k.fooled && !rd.sh.failed ==> rd.sh.forest <= q.E)
    && (!rd.sh.failed ==> r < q.p.samples)
    && (!rd.sh.modified ==> rd.sh.parent == rd.parent && rd.sh.forest == rd.forest)
    && (!rd.sh.failed && !rd.sh.modified && !k.fooled ==>
          (SpanningForest(rd.sh.forest, q.E) <==> !Torn(q.prio, rd.parent, rd.find, q.E)))
    && (!rd.sh.failed && rd.sh.modified ==> LoopOk(q.n, q.prio, rd.sh.parent, rd.sh.forest, q.E, r + 1, k))
  }

  lemma RoundLinks(q: Query, rd: Round, r: nat, k: Luck)
    requires q.Valid() && Before(q, rd, r, k) && GroupsSampled(CtxOf(q, r, rd), q.E, rd.sh) && CoversRound(q, rd, r, k)
    ensures Linked(q, rd, r, k)
  {
    RoundKeepsLoop(CtxOf(q, r, rd), q.E, rd.sh, q.n, rd.find, k);
  }

  lemma Settled(q: Query, rd: Round, r: nat, k: Luck)
    requires q.Valid() && Ascending(q.prio, rd.parent) && |rd.find| == |rd.parent| && Linked(q, rd, r, k)
    requires SameRoots(q.prio, rd.sh.parent, rd.settled)
    ensures After(q, rd, r, k)
  {
    SameRootsRepresents(q.prio, rd.sh.parent, rd.settled, rd.sh.forest);
    if !rd.sh.failed && rd.sh.modified {
      LoopFrame(q.n, q.prio, rd.sh.parent, rd.settled, rd.sh.forest, q.E, r + 1, k);
    }
  }

  lemma RoundAfter(q: Query, rd: Round, r: nat, k: Luck)
    requires q.Valid() && Before(q, rd, r, k) && Ran(q, r, rd) && CoversRound(q, rd, r, k)
    ensures After(q, rd, r, k)
  {
    RanGroups(q, rd, r, k);
    RoundLinks(q, rd, r, k);
    Settled(q, rd, r, k);
  }

  lemma NextBefore(q: Query, rd: Round, next: Round, r: nat, k: Luck)
    requires q.Valid() && |rd.l.m| == q.n && After(q, rd, r, k) && Follows(q, rd, next)
    ensures Before(q, next, r + 1, k)
    ensures q.threads == 1 || AtMostFour(q.prio, rd.settled) ==> FindsOf(q.prio, next.parent, next.find)
  {
    assert UnfoldStep(0);
    LayoutValid(next.l.m, q.threads, next.find);
    LabelsGood(q.prio, rd.l.m, q.threads, rd.settled, next.find, next.parent);
    LoopFrame(q.n, q.prio, rd.settled, next.parent, next.forest, q.E, r + 1, k);
  }

  /** The mishaps `k` cover round `r` of the run. */
  ghost predicate CoversAt(q: Query, tr: Trace, r: nat, k: Luck)
    requires q.Valid() && r < |tr|
  {
    (!k.fooled ==> !FooledAt(q, tr, r)) && (k.Calm() ==> !InexactAt(q, tr, r) && !FailAt(tr, r))
  }

  ghost predicate CoversAll(q: Query, tr: Trace, k: Luck)
    requires q.Valid()
  {
    forall r: nat :: r < |tr| ==> CoversAt(q, tr, r, k)
  }

  lemma LuckCovers(q: Query, tr: Trace)
    requires q.Valid()
    ensures CoversAll(q, tr, LuckOf(q, tr))
  {
    var k := LuckOf(q, tr);
    forall r: nat | r < |tr| ensures CoversAt(q, tr, r, k) {
      assert !k.fooled ==> !FooledAt(q, tr, r);
      assert !k.inexact ==> !InexactAt(q, tr, r);
      assert !k.unlucky ==> !FailAt(tr, r);
    }
  }

  // Folded except in proofs that mention `Unfold`.
  ghost predicate Kept(q: Query, rd: Round, r: nat, k: Luck)
    requires q.Valid()
  {
    forall o {:trigger Unfold(o)} :: Unfold(o) ==> Before(q, rd, r, k) && After(q, rd, r, k)
  }

  ghost predicate BeforeFolded(q: Query, rd: Round, r: nat, k: Luck)
    requires q.Valid()
  {
    forall o {:trigger Unfold(o)} :: Unfold(o) ==> Before(q, rd, r, k)
  }

  lemma FirstFolded(q: Query, rd: Round, k: Luck)
    requires q.Valid() && FirstRound(q, rd)
    ensures BeforeFolded(q, rd, 0, k)
  {
    FirstBefore(q, rd, k);
  }

  lemma NextFolded(q: Query, tr: Trace, r: nat, k: Luck)
    requires q.Valid() && r + 1 < |tr| && Kept(q, tr[r], r, k) && FollowsAt(q, tr, r)
    ensures BeforeFolded(q, tr[r + 1], r + 1, k)
  {
    assert Unfold(0) && UnfoldStep(0);
    NextBefore(q, tr[r], tr[r + 1], r, k);
  }

  lemma StepKept(q: Query, tr: Trace, r: nat, k: Luck)
    requires q.Valid() && r < |tr| && BeforeFolded(q, tr[r], r, k) && RanAt(q, tr, r) && CoversAt(q, tr, r, k)
    ensures Kept(q, tr[r], r, k)
  {
    assert Unfold(0);
    RoundAfter(q, tr[r], r, k);
  }

  lemma CoveredAt(q: Query, tr: Trace, r: nat, k: Luck)
    requires q.Valid() && r < |tr| && CoversAll(q, tr, k)
    ensures CoversAt(q, tr, r, k)
  {
  }

  lemma NextKept(q: Query, tr: Trace, r: nat, k: Luck)
    requires q.Valid() && r + 1 < |tr| && Kept(q, tr[r], r, k) && FollowsAt(q, tr, r)
    requires RanAt(q, tr, r + 1) && CoversAt(q, tr, r + 1, k)
    ensures Kept(q, tr[r + 1], r + 1, k)
  {
    NextFolded(q, tr, r, k);
    StepKept(q, tr, r + 1, k);
  }

  lemma {:induction false} KeepsFrom(q: Query, tr: Trace, r: nat, k: Luck)
    requires q.Valid() && r < |tr| && BeforeFolded(q, tr[0], 0, k)
    requires AllRan(q, tr) && AllFollow(q, tr) && CoversAll(q, tr, k)
    ensures Kept(q, tr[r], r, k)
  {
    RanOf(q, tr, r);
    CoveredAt(q, tr, r, k);
    if r == 0 {
      StepKept(q, tr, r, k);
    } else {
      var s: nat := r - 1;
      KeepsFrom(q, tr, s, k);
      FollowOf(q, tr, s);
      NextKept(q, tr, s, k);
    }
  }

  lemma KeepsUnder(q: Query, tr: Trace, r: nat, k: Luck)
    requires q.Valid() && IsRun(q, tr) && r < |tr| && CoversAll(q, tr, k)
    ensures Kept(q, tr[r], r, k)
  {
    FirstFolded(q, tr[0], k);
    KeepsFrom(q, tr, r, k);
  }

  lemma KeptThenBefore(q: Query, rd: Round, next: Round, r: nat, k: Luck)
    requires q.Valid() && Kept(q, rd, r, k) && Follows(q, rd, next)
    ensures Before(q, next, r + 1, k)
  {
    assert Unfold(0);
    NextBefore(q, rd, next, r, k);
  }

  lemma RunKept(q: Query, tr: Trace, r: nat)
    requires q.Valid() && IsRun(q, tr) && r < |tr|
    ensures Kept(q, tr[r], r, LuckOf(q, tr))
  {
    LuckCovers(q, tr);
    KeepsUnder(q, tr, r, LuckOf(q, tr));
  }

  /** In every run, before and after every round. */
  lemma RunKeeps(q: Query, tr: Trace, r: nat)
    requires q.Valid() && IsRun(q, tr) && r < |tr|
    ensures Before(q, tr[r], r, LuckOf(q, tr)) && After(q, tr[r], r, LuckOf(q, tr))
  {
    RunKept(q, tr, r);
    assert Unfold(0);
  }

  // ---------- what every finished run achieves ----------

  /** Right after a run whose inspected buckets were all faithful, whatever the look-ups did: every forest edge is an
      edge of the graph, and vertices in one set are connected. */
  ghost predicate Inside(q: Query, rd: Round) {
    && rd.sh.forest <= q.E && Ascending(q.prio, rd.settled)
    && forall x: nat, y: nat :: x < |rd.settled| && y < |rd.settled| && Same(q.prio, rd.settled, x, y) ==>
        Connected(q.E, x, y)
  }

  lemma InsideGraph(q: Query, rd: Round)
    requires Represents(q.prio, rd.settled, rd.sh.forest) && rd.sh.forest <= q.E
    ensures Inside(q, rd)
  {
    forall x: nat, y: nat | x < |rd.settled| && y < |rd.settled| && Same(q.prio, rd.settled, x, y)
      ensures Connected(q.E, x, y)
    {
      assert Connected(rd.sh.forest, x, y);
      ConnectedMono(rd.sh.forest, q.E, x, y);
    }
  }

  lemma LastRound(q: Query, rd: Round, r: nat, k: Luck)
    requires q.Valid() && Before(q, rd, r, k) && After(q, rd, r, k) && !rd.sh.failed && !rd.sh.modified
    ensures r == 0 ==> rd.sh.forest == {}
    ensures !k.fooled ==>
              Inside(q, rd) && (SpanningForest(rd.sh.forest, q.E) <==> !Torn(q.prio, rd.parent, rd.find, q.E))
  {
    if !k.fooled { InsideGraph(q, rd); }
  }

  /** A finished run leaves union-find and forest in step. */
  lemma RunEnds(q: Query, tr: Trace)
    requires q.Valid() && IsRun(q, tr)
    ensures var rd := Last(tr);
            |rd.settled| == q.n && Represents(q.prio, rd.settled, rd.sh.forest) && NormalEdges(q.n, rd.sh.forest)
  {
    RunKeeps(q, tr, |tr| - 1);
  }

  /** A normal end takes no more rounds than there are samples; on faithful checksums it stays inside the graph and
      spans it if and only if it is not torn. */
  lemma RunEndsNormally(q: Query, tr: Trace)
    requires q.Valid() && Ended(q, tr) && !Last(tr).sh.failed
    ensures |tr| <= q.p.samples && (|tr| == 1 ==> Last(tr).sh.forest == {})
    ensures !LuckOf(q, tr).fooled ==>
              Inside(q, Last(tr)) && (SpanningForest(Last(tr).sh.forest, q.E) <==> !LuckOf(q, tr).torn)
  {
    var k := LuckOf(q, tr);
    RunKeeps(q, tr, |tr| - 1);
    LastRound(q, Last(tr), |tr| - 1, k);
  }

  /** On faithful checksums an exception means that the samples ran out. */
  lemma RunThrows(q: Query, tr: Trace)
    requires q.Valid() && Ended(q, tr) && Last(tr).sh.failed && !LuckOf(q, tr).fooled
    ensures |tr| == q.p.samples + 1
  {
    RunKeeps(q, tr, |tr| - 1);
    if |tr| > 1 { NotYetOut(q, tr); }
  }

  lemma NotYetOut(q: Query, tr: Trace)
    requires q.Valid() && IsRun(q, tr) && |tr| > 1
    ensures |tr| - 2 < q.p.samples
  {
    SampledInTime(q, tr, |tr| - 2);
    WentOn(q, tr, |tr| - 2);
  }

  lemma SampledInTime(q: Query, tr: Trace, r: nat)
    requires q.Valid() && IsRun(q, tr) && r < |tr|
    ensures !tr[r].sh.failed ==> r < q.p.samples
  {
    RunKeeps(q, tr, r);
  }

  lemma WentOn(q: Query, tr: Trace, r: nat)
    requires q.Valid() && IsRun(q, tr) && r + 1 < |tr|
    ensures !tr[r].sh.failed && tr[r].sh.modified
  {
    FollowOf(q, tr, r);
    assert UnfoldStep(0);
  }

  /** Without mishaps the rounds are at most log2(n), so more than log2(n) samples always bring a normal end. */
  lemma CalmRunEnds(q: Query, tr: Trace)
    requires q.Valid() && Ended(q, tr) && LuckOf(q, tr).Calm()
    ensures |tr| > 1 ==> Pow2(|tr| - 1) <= q.n
    ensures q.n < Pow2(q.p.samples) ==> !Last(tr).sh.failed
  {
    RunKeeps(q, tr, |tr| - 1);
    if Last(tr).sh.failed { RunThrows(q, tr); }
  }

  lemma KeptLabels(q: Query, tr: Trace, r: nat, k: Luck)
    requires q.Valid() && r + 1 < |tr| && Kept(q, tr[r], r, k) && FollowsAt(q, tr, r)
    ensures !InexactAt(q, tr, r + 1) || (q.threads >= 2 && DeepAt(q, tr, r))
  {
    assert Unfold(0) && UnfoldStep(0);
    NextBefore(q, tr[r], tr[r + 1], r, k);
  }

  lemma FirstIsExact(q: Query, tr: Trace)
    requires q.Valid() && tr != [] && FirstRound(q, tr[0])
    ensures !InexactAt(q, tr, 0)
  {
    StartOk(q.n, q.prio, q.E, Luck(false, false, false, false, false));
  }

  /** A label that is no root needs a second thread and look-ups from more than four links deep. */
  lemma InexactNeedsDepth(q: Query, tr: Trace, r: nat)
    requires q.Valid() && IsRun(q, tr) && r < |tr| && InexactAt(q, tr, r)
    ensures q.threads >= 2 && r > 0 && DeepAt(q, tr, r - 1)
  {
    if r == 0 {
      FirstIsExact(q, tr);
    } else {
      RunKept(q, tr, r - 1);
      FollowOf(q, tr, r - 1);
      KeptLabels(q, tr, r - 1, LuckOf(q, tr));
    }
  }

  /** What it takes for racing look-ups to matter: two threads and six vertices. */
  lemma RacesNeedRoom(q: Query, tr: Trace)
    requires q.Valid() && IsRun(q, tr)
    ensures var k := LuckOf(q, tr);
            (k.torn ==> k.inexact) && (k.inexact ==> q.threads >= 2 && k.deep) && (k.deep ==> q.n >= 6)
  {
    var k := LuckOf(q, tr);
    if k.torn { TornIsInexact(q, tr); }
    if k.inexact {
      var r: nat :| r < |tr| && InexactAt(q, tr, r);
      InexactNeedsDepth(q, tr, r);
      assert r - 1 + 1 < |tr| && DeepAt(q, tr, r - 1);
    }
    if k.deep {
      var r: nat :| r + 1 < |tr| && DeepAt(q, tr, r);
      RunKeeps(q, tr, r);
      if q.n < 6 { FewAreShallow(q.prio, tr[r].settled); }
    }
  }

  lemma TornIsInexact(q: Query, tr: Trace)
    requires q.Valid() && EndsTorn(q, tr)
    ensures InexactAt(q, tr, |tr| - 1)
  {
    var rd := Last(tr);
    if FindsOf(q.prio, rd.parent, rd.find) { RootsNeverTorn(q.prio, rd.parent, rd.find, q.E); }
  }
}
