/** The query loop: Boruvka rounds on the sketches, with racing look-ups between the rounds, until a round changes
    nothing or throws. What it does is a run in the sense of `Traces`. */
module Emulation {
  import opened Graphs
  import opened Sketches
  import opened Partitions
  import opened RoundProtocol
  import opened RoundSafety
  import opened BoruvkaRounds
  import opened Regrouping
  import opened QueryLoop
  import opened Traces

  /** The round `rd` is about to start after the rounds `tr`. */
  ghost predicate Pending(q: Query, tr: Trace, rd: Round)
    requires q.Valid()
  {
    if tr == [] then FirstRound(q, rd) else IsRun(q, tr) && Follows(q, Last(tr), rd)
  }

  /** Every mishap at once: covers every run. */
  const WORST: Luck := Luck(true, true, true, true, true)

  lemma PendingBefore(q: Query, tr: Trace, rd: Round)
    requires q.Valid() && Pending(q, tr, rd)
    ensures Before(q, rd, |tr|, WORST)
  {
    if tr == [] {
      FirstBefore(q, rd, WORST);
    } else {
      KeepsUnder(q, tr, |tr| - 1, WORST);
      KeptThenBefore(q, Last(tr), rd, |tr| - 1, WORST);
    }
  }

  lemma PendingContext(q: Query, tr: Trace, rd: Round)
    requires q.Valid() && Pending(q, tr, rd)
    ensures |rd.l.m| == q.n && CtxOk(CtxOf(q, |tr|, rd), q.E) && (tr == [] ==> FreshSets(CtxOf(q, |tr|, rd)))
  {
    PendingBefore(q, tr, rd);
    ContextOk(q, rd, |tr|, WORST);
  }

  /** Nothing about the start of a round depends on its result. */
  lemma PendingResult(q: Query, tr: Trace, rd: Round, sh: Shared, settled: seq<nat>)
    requires q.Valid() && Pending(q, tr, rd)
    ensures Pending(q, tr, rd.(sh := sh, settled := settled))
  {
  }

  lemma RanPrefix(q: Query, tr: Trace, rd: Round, r: nat)
    requires q.Valid() && r < |tr| && RanAt(q, tr, r)
    ensures RanAt(q, tr + [rd], r)
  {
    assert (tr + [rd])[r] == tr[r];
  }

  lemma FollowsLast(q: Query, tr: Trace, rd: Round)
    requires tr != [] && Follows(q, Last(tr), rd)
    ensures FollowsAt(q, tr + [rd], |tr + [rd]| - 2)
  {
    var all := tr + [rd];
    assert all[|all| - 2] == Last(tr) && all[|all| - 1] == rd;
  }

  lemma RanExtends(q: Query, tr: Trace, rd: Round)
    requires q.Valid() && AllRan(q, tr) && Ran(q, |tr|, rd)
    ensures AllRan(q, tr + [rd])
  {
    var all := tr + [rd];
    forall r: nat | r < |all| ensures RanAt(q, all, r) {
      if r < |tr| { RanPrefix(q, tr, rd, r); } else { assert all[r] == rd; }
    }
  }

  lemma FollowExtends(q: Query, tr: Trace, rd: Round)
    requires AllFollow(q, tr) && (tr != [] ==> FollowsAt(q, tr + [rd], |tr + [rd]| - 2))
    ensures AllFollow(q, tr + [rd])
  {
    assert Init(tr + [rd]) == tr;
  }

  lemma RunExtends(q: Query, tr: Trace, rd: Round)
    requires q.Valid() && Pending(q, tr, rd) && Ran(q, |tr|, rd)
    ensures IsRun(q, tr + [rd])
  {
    RanExtends(q, tr, rd);
    if tr != [] { FollowsLast(q, tr, rd); }
    FollowExtends(q, tr, rd);
  }

  lemma OneRound(q: Query, a: Round)
    requires q.Valid() && FirstRound(q, a) && Ran(q, 0, a)
    ensures IsRun(q, [a])
  {
    RunExtends(q, [], a);
    assert [] + [a] == [a];
  }

  lemma TwoRounds(q: Query, a: Round, b: Round)
    requires q.Valid() && IsRun(q, [a]) && Follows(q, a, b) && Ran(q, 1, b)
    ensures IsRun(q, [a, b])
  {
    RunExtends(q, [a], b);
    assert [a] + [b] == [a, b];
  }

  lemma SketchesOfQuery(q: Query, sks: seq<SketchVal>)
    requires q.Valid() && SketchesHold(q.p, q.n, q.E, sks)
    ensures Buckets(sks) == CutSketches(q)
  {
  }

  /** One round, and the array its look-ups leave. */
  method RunOne(p: Params, r: nat, m: seq<MergeInstr>, threads: nat, prio: seq<nat>, parent: seq<nat>,
                forest: set<Edge>,
                sks: seq<SketchVal>, ghost q: Query, ghost tr: Trace, ghost rd: Round)
    returns (sh: Shared, settled: seq<nat>, now: seq<SketchVal>, ghost next: Trace)
    requires q.Valid() && p == q.p && threads == q.threads && prio == q.prio && Pending(q, tr, rd) && r == |tr|
    requires m == rd.l.m && parent == rd.parent && forest == rd.forest && SketchesHold(p, q.n, q.E, sks)
    requires r == 0 ==> forall v :: 0 <= v < |sks| ==> sks[v].sampleIdx == 0
    ensures next == tr + [rd.(sh := sh, settled := settled)] && IsRun(q, next)
    ensures SketchesHold(p, q.n, q.E, now)
  {
    PendingContext(q, tr, rd);
    SketchesOfQuery(q, sks);
    assert LaidOut(q, rd) && UnfoldStep(0);
    var c := Ctx(p, r, LayoutOf(m, threads), Buckets(sks), prio, parent, forest);
    sh, now := PerformBoruvkaRound(c, sks, q.E);
    RanSamples(c, q.E, sh);
    settled := Settle(prio, sh.parent);
    next := tr + [rd.(sh := sh, settled := settled)];
    PendingResult(q, tr, rd, sh, settled);
    RunExtends(q, tr, rd.(sh := sh, settled := settled));
  }

  /** The merge list of the next round. */
  method Regroup(m: array<MergeInstr>, prio: seq<nat>, parent: seq<nat>, threads: nat, forest: set<Edge>,
                 ghost q: Query, ghost tr: Trace)
    returns (after: seq<nat>, ghost rd: Round)
    requires q.Valid() && threads == q.threads && prio == q.prio && IsRun(q, tr) && m[..] == Last(tr).l.m
    requires parent == Last(tr).settled
    requires forest == Last(tr).sh.forest && !Last(tr).sh.failed && Last(tr).sh.modified
    modifies m
    ensures Pending(q, tr, rd) && rd.l.m == m[..] && rd.parent == after && rd.forest == forest
  {
    RunKeeps(q, tr, |tr| - 1);
    var find;
    after, find := CreateMergeInstructions(m, prio, parent, threads);
    rd := Round(LayoutOf(m[..], threads), find, after, forest, Last(tr).sh, after);
  }

  /** The query loop of `boruvka_emulation`. It always ends, and what it did is the returned run of the query on the
      graph that the sketches hold: the result is that of its last round. */
  method Emulate(p: Params, n: nat, threads: nat, prio: seq<nat>, sks0: seq<SketchVal>, ghost E: set<Edge>)
    returns (ok: bool, sks: seq<SketchVal>, parent: seq<nat>, forest: set<Edge>, rounds: nat, ghost tr: Trace)
    requires Query(p, n, threads, prio, E).Valid()
    requires SketchesHold(p, n, E, sks0) && forall v :: 0 <= v < n ==> sks0[v].sampleIdx == 0
    ensures SketchesHold(p, n, E, sks)
    ensures Ended(Query(p, n, threads, prio, E), tr)
    ensures rounds == |tr| - 1 && ok == !Last(tr).sh.failed && parent == Last(tr).settled
    ensures forest == Last(tr).sh.forest
  {
    ghost var q := Query(p, n, threads, prio, E);
    var m := new MergeInstr[n](i requires 0 <= i => MergeInstr(i, i));
    sks, parent, forest, rounds := sks0, Identity(n), {}, 0;
    tr := [];
    ghost var rd := Round(LayoutOf(m[..], threads), Identity(n), parent, forest, Shared([], {}, false, false, []), []);
    while true
      invariant Pending(q, tr, rd) && rounds == |tr| && rounds <= p.samples
      invariant rd.l.m == m[..] && rd.parent == parent && rd.forest == forest && SketchesHold(p, n, E, sks)
      invariant rounds == 0 ==> forall v :: 0 <= v < |sks| ==> sks[v].sampleIdx == 0
      decreases p.samples - rounds
    {
      var sh;
      sh, parent, sks, tr := RunOne(p, rounds, m[..], threads, prio, parent, forest, sks, q, tr, rd);
      forest := sh.forest;
      if sh.failed || !sh.modified { return !sh.failed, sks, parent, forest, rounds, tr; }
      SampledInTime(q, tr, rounds);
      rounds := rounds + 1;
      parent, rd := Regroup(m, prio, parent, threads, forest, q, tr);
    }
  }
}
