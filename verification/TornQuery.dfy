/** A whole query that goes wrong although every checksum it looks at is faithful and no sample fails: round zero builds
    two chains, the look-ups of one vertex per thread race and split both, and round one finds nothing to do. */
module TornQuery {
  import opened Arithmetic
  import opened Graphs
  import opened DisjointSets
  import opened Sketches
  import opened Supernodes
  import opened Partitions
  import MergeLists
  import opened RoundProtocol
  import opened RoundSafety
  import RoundRuns
  import opened CountingSort
  import opened Boruvka
  import opened BoruvkaRounds
  import opened MislabelledRounds
  import L = LookUps
  import opened LookUpRaces
  import Q = LookUpQueues
  import opened Regrouping
  import opened DeepForests
  import opened QueryLoop
  import opened Traces
  import Emulation
  import opened Caches
  import opened TornGraph

  /** Twelve threads, one vertex each; ascending priorities. */
  ghost function Ask(): Query { Query(P(), N, N, Rising(N), Bridged()) }

  lemma AskValid()
    ensures Ask().Valid()
  {
    BridgedSimple();
  }

  // ---------- round zero ----------

  /** How far the chains reach after the first `k` vertices were sampled. */
  function Progress(k: nat): nat { if k <= 3 then k else if k <= 5 then k - 1 else if k <= 9 then k else k - 1 }

  lemma ChainAscends(m: nat)
    ensures Ascending(Rising(N), ChainTo(N, m, GAP))
  {
  }

  /** The gap costs nothing. */
  lemma OverTheGap()
    ensures ChainTo(N, 5, GAP) == ChainTo(N, 6, GAP) && ChainEdges(5, GAP) == ChainEdges(6, GAP)
  {
    assert ChainEdges(6, GAP) == ChainEdges(5, GAP) + {};
  }

  /** The state of the round once the chains reach `m`. */
  ghost predicate Chained(sh: Shared, m: nat) {
    sh.parent == ChainTo(N, m, GAP) && sh.forest == ChainEdges(m, GAP) && !sh.failed && !SomeFail(sh.log)
  }

  lemma LogGrows(log: seq<Entry>, en: Entry)
    requires !SomeFail(log) && en.outcome != Sampled(Fail)
    ensures !SomeFail(log + [en])
  {
  }

  lemma RootsAtEnd(m: nat)
    requires m < 11 && m != GAP
    ensures Ascending(Rising(N), ChainTo(N, m, GAP))
    ensures Root(Rising(N), ChainTo(N, m, GAP), m) == m && Root(Rising(N), ChainTo(N, m, GAP), m + 1) == m + 1
    ensures OrderEdge(Rising(N), m, m + 1) == (m + 1, m)
    ensures ChainTo(N, m, GAP)[m := m + 1] == ChainTo(N, m + 1, GAP)
    ensures ChainEdges(m, GAP) + {Edge(m, m + 1)} == ChainEdges(m + 1, GAP)
  {
    ChainAscends(m);
  }

  lemma NewEdge(sh: Shared, m: nat, v: nat, skt: SketchVal)
    requires P().Valid() && Chained(sh, m) && m < 11 && m != GAP && |skt.buckets| == P().Len()
    requires Ascending(Rising(N), sh.parent)
    requires SampleFn(P(), skt).1 == Sampled(Good(PathId(m)))
    ensures Chained(SampleSupernode(P(), Rising(N), sh, v, skt), m + 1)
    ensures SampleSupernode(P(), Rising(N), sh, v, skt).modified
  {
    PathOfId(m);
    RootsAtEnd(m);
    LogGrows(sh.log, Entry(v, skt, SampleFn(P(), skt).1));
  }

  lemma OldEdge(sh: Shared, m: nat, i: nat, v: nat, skt: SketchVal)
    requires P().Valid() && Chained(sh, m) && i < m <= 11 && i != GAP && |skt.buckets| == P().Len()
    requires Ascending(Rising(N), sh.parent)
    requires SampleFn(P(), skt).1 == Sampled(Good(PathId(i)))
    ensures Chained(SampleSupernode(P(), Rising(N), sh, v, skt), m)
    ensures SampleSupernode(P(), Rising(N), sh, v, skt).modified == sh.modified
  {
    PathOfId(i);
    assert sh.parent[i] == i + 1;
    LogGrows(sh.log, Entry(v, skt, SampleFn(P(), skt).1));
  }

  /** The context of round zero. */
  ghost predicate ZeroContext(c: Ctx) {
    && c.p == P() && c.prio == Rising(N) && c.parent0 == Identity(N) && c.forest0 == {}
    && |c.sks| == N && P().Valid() && forall v :: 0 <= v < N ==> c.sks[v] == SketchOf(P(), CutIds(Bridged(), {v}))
  }

  lemma VertexSample(c: Ctx, v: nat)
    requires ZeroContext(c) && v < N
    ensures |c.sks[v]| == P().Len() && SampleFn(P(), SketchVal(c.sks[v], 0)).1 == Sampled(Good(PathId(ShownBy(v))))
  {
    VertexShows(v);
    Sizes();
  }

  /** One vertex after the other: from `sh` to `now` by sampling `v`. */
  ghost predicate Samples(c: Ctx, sh: Shared, v: nat, now: Shared)
    requires P().Valid()
  {
    && v < |c.sks| && |c.sks[v]| == P().Len() && Ascending(Rising(N), sh.parent)
    && now == SampleSupernode(P(), Rising(N), sh, v, SketchVal(c.sks[v], 0))
  }

  lemma NewStep(c: Ctx, sh: Shared, v: nat, now: Shared)
    requires ZeroContext(c) && v < N && v != 3 && v != 9 && Chained(sh, Progress(v)) && Samples(c, sh, v, now)
    ensures Chained(now, Progress(v) + 1) && now.modified
  {
    VertexSample(c, v);
    ShownIsNext(v);
    NewEdge(sh, Progress(v), v, SketchVal(c.sks[v], 0));
  }

  lemma ShownIsNext(v: nat)
    requires v < N && v != 3 && v != 9
    ensures ShownBy(v) == Progress(v) && Progress(v) < 11 && Progress(v) != GAP
    ensures v != 5 ==> Progress(v + 1) == Progress(v) + 1
  {
  }

  lemma OldStep(c: Ctx, sh: Shared, v: nat, now: Shared)
    requires ZeroContext(c) && (v == 3 || v == 9) && Chained(sh, Progress(v)) && Samples(c, sh, v, now)
    ensures Chained(now, Progress(v)) && now.modified == sh.modified
  {
    VertexSample(c, v);
    OldEdge(sh, Progress(v), ShownBy(v), v, SketchVal(c.sks[v], 0));
  }

  lemma ZeroStep(c: Ctx, sh: Shared, v: nat, now: Shared)
    requires ZeroContext(c) && v < N && Chained(sh, Progress(v)) && Samples(c, sh, v, now)
    ensures Chained(now, Progress(v + 1)) && (v == 0 || sh.modified ==> now.modified)
  {
    if v == 3 || v == 9 {
      OldStep(c, sh, v, now);
    } else {
      NewStep(c, sh, v, now);
      ShownIsNext(v);
      if v == 5 { OverTheGap(); }
    }
  }

  lemma ZeroSnoc(c: Ctx, k: nat)
    requires ZeroContext(c) && 0 < k <= N && Ascending(Rising(N), ZeroAfter(c, Identity(k - 1)).parent)
    ensures Samples(c, ZeroAfter(c, Identity(k - 1)), k - 1, ZeroAfter(c, Identity(k)))
  {
    assert Identity(k)[..k - 1] == Identity(k - 1);
    VertexSample(c, k - 1);
  }

  lemma {:induction false} ZeroChains(c: Ctx, k: nat)
    requires ZeroContext(c) && k <= N
    ensures Chained(ZeroAfter(c, Identity(k)), Progress(k)) && (k > 0 ==> ZeroAfter(c, Identity(k)).modified)
  {
    if k == 0 {
      assert ChainTo(N, 0, GAP) == Identity(N);
    } else {
      ZeroChains(c, k - 1);
      ChainAscends(Progress(k - 1));
      ZeroSnoc(c, k);
      ZeroStep(c, ZeroAfter(c, Identity(k - 1)), k - 1, ZeroAfter(c, Identity(k)));
    }
  }

  lemma InOrder()
    ensures Permutes(Identity(N), N)
  {
    forall v: nat ensures v < N <==> v in Identity(N) {
      if v < N { assert Identity(N)[v] == v; }
    }
  }

  function FirstList(): (m: seq<MergeInstr>)
    ensures |m| == N && forall i :: 0 <= i < N ==> m[i] == MergeInstr(i, i)
  {
    seq(N, i requires 0 <= i => MergeInstr(i, i))
  }

  ghost function Start0(): Round {
    Round(LayoutOf(FirstList(), N), Identity(N), Identity(N), {}, Shared([], {}, false, false, []), [])
  }

  ghost function ZeroResult(): Shared
    requires Ask().Valid()
  {
    ZeroAfter(CtxOf(Ask(), 0, Start0()), Identity(N))
  }

  /** Round zero, the vertices sampled in order. */
  ghost function Round0(): Round
    requires Ask().Valid()
  {
    Start0().(sh := ZeroResult(), settled := ZeroResult().parent)
  }

  lemma ZeroRuns()
    ensures Ask().Valid() && FirstRound(Ask(), Round0()) && Ran(Ask(), 0, Round0())
    ensures Chained(Round0().sh, 11) && Round0().sh.modified && Round0().settled == ChainTo(N, 11, GAP)
  {
    AskValid();
    ZeroIsChain();
    ZeroRan0();
  }

  lemma ZeroIsChain()
    requires Ask().Valid()
    ensures Chained(Round0().sh, 11) && Round0().sh.modified && Round0().settled == ChainTo(N, 11, GAP)
  {
    ZeroChains(CtxOf(Ask(), 0, Start0()), N);
  }

  lemma ZeroRan0()
    requires Ask().Valid() && Chained(Round0().sh, 11) && Round0().settled == ChainTo(N, 11, GAP)
    ensures FirstRound(Ask(), Round0()) && Ran(Ask(), 0, Round0())
  {
    InOrder();
    ChainAscends(11);
    SameRootsRefl(Rising(N), ChainTo(N, 11, GAP));
    assert CtxOf(Ask(), 0, Round0()) == CtxOf(Ask(), 0, Start0());
    assert ZeroRan(CtxOf(Ask(), 0, Round0()), Round0().sh);
  }

  // ---------- the labels ----------

  function Labels(): (find: seq<nat>)
    ensures |find| == N && forall v :: 0 <= v < N ==> find[v] == LabelOf(v)
  {
    seq(N, v requires 0 <= v => LabelOf(v))
  }

  /** One vertex per thread. */
  function Singles(): (qs: Q.Queues)
    ensures |qs| == N && forall t :: 0 <= t < N ==> qs[t] == [t]
  {
    seq(N, t requires 0 <= t => Single(t))
  }

  function Single(t: nat): seq<nat> { [t] }

  lemma UnitParts(t: nat)
    requires t <= N
    ensures BoundsFn(N, N)[t] == t
  {
    DivUnique(N * t + N - 1, N, t, N - 1);
  }

  lemma SinglesFrom(qs: Q.Queues)
    requires |qs| == N && forall t: nat :: t < N ==> qs[t] == [t]
    ensures qs == Singles()
  {
  }

  lemma QueuesAreSingles()
    ensures Bounds(BoundsFn(N, N), N) && PartQueues(FirstList(), BoundsFn(N, N)) == Singles()
  {
    BoundsCorrect(N, N);
    forall t: nat | t < N ensures PartQueues(FirstList(), BoundsFn(N, N))[t] == [t] { QueueIsSingle(t); }
    SinglesFrom(PartQueues(FirstList(), BoundsFn(N, N)));
  }

  lemma QueueIsSingle(t: nat)
    requires t < N && Bounds(BoundsFn(N, N), N)
    ensures PartQueues(FirstList(), BoundsFn(N, N))[t] == [t]
  {
    UnitParts(t);
    UnitParts(t + 1);
    UnitQueue(FirstList(), BoundsFn(N, N), t);
  }

  lemma UnitQueue(m: seq<MergeInstr>, bounds: seq<nat>, t: nat)
    requires Bounds(bounds, |m|) && t + 1 < |bounds| && bounds[t] == t && bounds[t + 1] == t + 1 && t < |m| &&
        m[t].child == t
    ensures PartQueues(m, bounds)[t] == [t]
  {
    QueueOf(m, bounds, t);
    assert Children(m, t, t + 1) == [t];
  }

  lemma {:induction false} ClimbTo(v: nat)
    requires v < N && Ascending(Rising(N), ChainTo(N, 11, GAP))
    ensures Root(Rising(N), ChainTo(N, 11, GAP), v) == if v < 6 then 5 else 11
    decreases N - v
  {
    if v != 5 && v != 11 { ClimbTo(v + 1); }
  }

  lemma FirstRace() returns (l: L.Look)
    ensures Reach(L.LookStart(ChainTo(N, 11, GAP), N), [] + [(0, 0), (2, 2)], l) && AllFree(l) && L.Fine(l)
    ensures |l.slots| == N
    ensures l.parent == ChainTo(N, 11, GAP)[0 := 2][2 := 4] && l.ans == map[2 := 4, 0 := 5]
    ensures l.todo == L.LookStart(ChainTo(N, 11, GAP), N).todo - {0} - {2}
  {
    ChainAscends(11);
    var q := ChainTo(N, 11, GAP);
    var l0 := L.LookStart(q, N);
    L.StartInv(Rising(N), q, N);
    L.FineStep(Rising(N), q, l0);
    ReachSelf(l0);
    RacePair(l0, [], l0, 2, 0, 0, 1, 2, 3, 4, 5);
    l := L.Look(q[0 := 2][2 := 4], l0.slots, l0.todo - {0} - {2}, l0.ans[2 := 4][0 := 5]);
  }

  lemma TwoRaces() returns (l: L.Look)
    ensures Reach(L.LookStart(ChainTo(N, 11, GAP), N), [(0, 0), (2, 2), (6, 6), (8, 8)], l) && AllFree(l)
    ensures |l.slots| == N
    ensures l.ans == map[2 := 4, 0 := 5, 8 := 10, 6 := 11]
    ensures l.todo == Upto(0, N) - {0} - {2} - {6} - {8}
  {
    var l1 := FirstRace();
    var l0 := L.LookStart(ChainTo(N, 11, GAP), N);
    var bs: Begun := [] + [(0, 0), (2, 2)];
    RacePair(l0, bs, l1, 8, 6, 6, 7, 8, 9, 10, 11);
    l := L.Look(l1.parent[6 := 8][8 := 10], l1.slots, l1.todo - {6} - {8}, l1.ans[8 := 10][6 := 11]);
    assert bs + [(6, 6), (8, 8)] == [(0, 0), (2, 2), (6, 6), (8, 8)];
  }

  lemma SinglesDealt()
    ensures Q.Dealt(Singles(), Upto(0, N))
  {
    QueuesAreSingles();
    IdentityList(N, FirstList());
    PartsDeal(FirstList(), BoundsFn(N, N));
  }

  ghost function Rest(): Q.Queues { Q.Tail(Q.Tail(Q.Tail(Q.Tail(Singles(), 0), 2), 6), 8) }

  lemma TwoTaken(qs: Q.Queues, todo: set<nat>, a: nat, b: nat)
    requires Q.Dealt(qs, todo) && a < |qs| && b < |qs| && a != b && qs[a] == [a] && qs[b] == [b]
    ensures Q.Dealt(Q.Tail(Q.Tail(qs, a), b), todo - {a} - {b})
    ensures forall t: nat :: t < |qs| && t != a && t != b ==> Q.Tail(Q.Tail(qs, a), b)[t] == qs[t]
  {
    Q.TailDealt(qs, todo, a);
    Q.TailDealt(Q.Tail(qs, a), todo - {a}, b);
  }

  lemma FourTaken(qs: Q.Queues, todo: set<nat>, a: nat, b: nat, c: nat, d: nat)
    requires Q.Dealt(qs, todo) && a < |qs| && b < |qs| && c < |qs| && d < |qs|
    requires a != b && c != d && c != a && c != b && d != a && d != b
    requires qs[a] == [a] && qs[b] == [b] && qs[c] == [c] && qs[d] == [d]
    ensures var rest := Q.Tail(Q.Tail(Q.Tail(Q.Tail(qs, a), b), c), d);
        |rest| == |qs| && Q.Dealt(rest, todo - {a} - {b} - {c} - {d})
  {
    TwoTaken(qs, todo, a, b);
    TwoTaken(Q.Tail(Q.Tail(qs, a), b), todo - {a} - {b}, c, d);
  }

  lemma RestDealt()
    ensures Q.Dealt(Rest(), Upto(0, N) - {0} - {2} - {6} - {8}) && |Rest()| == N
  {
    SinglesDealt();
    FourTaken(Singles(), Upto(0, N), 0, 2, 6, 8);
  }

  lemma TwoBegun(qs: Q.Queues, a: nat, b: nat, bs: Begun)
    requires a < |qs| && b < |qs| && a != b && qs[a] == [a] && qs[b] == [b] && Q.Follows(Q.Tail(Q.Tail(qs, a), b), bs)
    ensures Q.Follows(qs, [(a, a), (b, b)] + bs)
  {
    Q.FollowsCons(Q.Tail(qs, a), b, bs);
    Q.FollowsCons(qs, a, [(b, b)] + bs);
    assert [(a, a)] + ([(b, b)] + bs) == [(a, a), (b, b)] + bs;
  }

  lemma FourBegun(qs: Q.Queues, a: nat, b: nat, c: nat, d: nat, bs: Begun)
    requires a < |qs| && b < |qs| && c < |qs| && d < |qs| && a != b && c != d && c != a && c != b && d != a && d != b
    requires qs[a] == [a] && qs[b] == [b] && qs[c] == [c] && qs[d] == [d]
    requires Q.Follows(Q.Tail(Q.Tail(Q.Tail(Q.Tail(qs, a), b), c), d), bs)
    ensures Q.Follows(qs, [(a, a), (b, b), (c, c), (d, d)] + bs)
  {
    TwoBegun(Q.Tail(Q.Tail(qs, a), b), c, d, bs);
    TwoBegun(qs, a, b, [(c, c), (d, d)] + bs);
    assert [(a, a), (b, b)] + ([(c, c), (d, d)] + bs) == [(a, a), (b, b), (c, c), (d, d)] + bs;
  }

  lemma FlatFollows(qs: Q.Queues)
    ensures Q.Follows(qs, Q.Flat(qs, |qs|))
  {
    forall t: nat | t < |qs| ensures Q.Project(Q.Flat(qs, |qs|), t) == qs[t] { Q.ProjectFlat(qs, |qs|, t); }
  }

  lemma RestFollows()
    ensures Q.Follows(Singles(), [(0, 0), (2, 2), (6, 6), (8, 8)] + Q.Flat(Rest(), |Rest()|))
  {
    FlatFollows(Rest());
    FourBegun(Singles(), 0, 2, 6, 8, Q.Flat(Rest(), |Rest()|));
  }

  lemma AnswersAreLabels(l: L.Look, arr: seq<nat>)
    requires l.ans == map[2 := 4, 0 := 5, 8 := 10, 6 := 11] && |arr| == N && Ascending(Rising(N), ChainTo(N, 11, GAP))
    requires forall v :: 0 <= v < |arr| ==>
        arr[v] == if v in l.ans then l.ans[v] else Root(Rising(N), ChainTo(N, 11, GAP), v)
    ensures arr == Labels()
  {
    forall v | 0 <= v < N ensures arr[v] == LabelOf(v) {
      ClimbTo(v);
      if v !in l.ans { assert v != 2 && v != 0 && v != 8 && v != 6; }
    }
  }

  /** Twelve threads looking up their one vertex on the chains can return these labels. */
  lemma LabelsArise() returns (after: seq<nat>)
    ensures CanLabel(FirstList(), N, ChainTo(N, 11, GAP), Labels(), after)
  {
    ChainAscends(11);
    var l := TwoRaces();
    RestDealt();
    Q.FlatCovers(Rest(), l.todo);
    var moves, arr;
    moves, arr, after := AnswerFrom(Rising(N), ChainTo(N, 11, GAP), N, [(0, 0), (2, 2), (6, 6), (8, 8)], l,
                                    Q.Flat(Rest(), |Rest()|));
    AnswersAreLabels(l, arr);
    RestFollows();
    QueuesAreSingles();
    assert Q.CanAnswerBy(ChainTo(N, 11, GAP), Singles(), Labels(), after);
  }

  // ---------- round one ----------

  /** The vertices sorted by label: 2, 0, 1, 3, 4, 5, 8, 6, 7, 9, 10, 11. */
  function ChildOf(q: nat): nat {
    if q == 0 then 2 else if q == 6 then 8 else if q <= 2 || (6 < q <= 8) then q - 1 else q
  }

  function PlaceOf(v: nat): nat {
    if v == 2 then 0 else if v == 8 then 6 else if v < 2 || (6 <= v < 8) then v + 1 else v
  }

  function SecondList(): (m: seq<MergeInstr>)
    ensures |m| == N && forall q :: 0 <= q < N ==> m[q] == MergeInstr(LabelOf(ChildOf(q)), ChildOf(q))
  {
    seq(N, q requires 0 <= q => MergeInstr(LabelOf(ChildOf(q)), ChildOf(q)))
  }

  lemma ListOk()
    ensures ListOf(SecondList(), Labels())
  {
    var m := SecondList();
    forall a, b | 0 <= a < b < N
      ensures m[a].child != m[b].child
    {
      assert PlaceOf(ChildOf(a)) == a && PlaceOf(ChildOf(b)) == b;
    }
    forall v | 0 <= v < N ensures ListsChild(m, v) { assert m[PlaceOf(v)].child == v; }
  }

  lemma MembersOfGroup(l: MergeLists.Layout, root: nat)
    requires l.m == SecondList()
    ensures HasRoot(l.m, root) <==> Label(root)
    ensures Supernode(l, root) == Members(root)
  {
    var m := SecondList();
    assert m[0].root == 4 && m[1].root == 5 && m[6].root == 10 && m[7].root == 11;
    forall v | v in Members(root) ensures v in Supernode(l, root) { assert m[PlaceOf(v)].child == v; }
  }

  predicate ShowsInner(en: Entry) {
    en.outcome == Sampled(Good(PathId(1))) || en.outcome == Sampled(Good(PathId(7)))
  }

  lemma EntryShown(c: Ctx, sh: Shared, k: nat)
    requires c.p == P() && c.p.Valid() && c.r == 1 && c.l.m == SecondList() && Ascending(c.prio, c.parent0)
    requires GroupsSampled(c, Bridged(), sh) && k < |sh.log|
    ensures ShowsInner(sh.log[k])
  {
    var root := sh.log[k].root;
    MembersOfGroup(c.l, root);
    GroupShows(root);
  }

  lemma ShownEdge(log: seq<Entry>, e: Edge)
    requires SampledEdge(log, e) && forall k :: 0 <= k < |log| ==> ShowsInner(log[k])
    ensures e in Inner()
  {
    PathOfId(1);
    PathOfId(7);
    EdgesOfChain(11, e);
  }

  /** Whatever the interleaving, round one reports no change. */
  lemma NothingChanges(c: Ctx, sh: Shared)
    requires c.p == P() && c.p.Valid() && c.r == 1 && c.l.m == SecondList() && Ascending(c.prio, c.parent0)
    requires |c.parent0| == N
    requires c.forest0 == Inner() && GroupsSampled(c, Bridged(), sh)
    ensures !sh.modified && !sh.failed && !SomeFail(sh.log)
  {
    forall k | 0 <= k < |sh.log| ensures ShowsInner(sh.log[k]) { EntryShown(c, sh, k); }
    PathOfId(1);
    PathOfId(7);
    forall e | e in sh.forest ensures e in Inner() {
      if e !in Inner() { ShownEdge(sh.log, e); }
    }
    assert sh.forest == Inner();
    assert !SomeThrows(N, sh.log) && !SomeFail(sh.log);
  }

  lemma RoundOneFaithful(c: Ctx)
    requires c.p == P() && c.p.Valid() && c.r == 1 && c.l.m == SecondList()
    ensures GroupsFaithful(c, Bridged())
  {
    forall root | HasRoot(c.l.m, root) ensures FaithfulAt(P(), CutIds(Bridged(), Supernode(c.l, root)), 1) {
      MembersOfGroup(c.l, root);
      GroupShows(root);
    }
  }

  lemma RoundZeroFaithful(c: Ctx)
    requires c.p == P() && c.p.Valid() && c.r == 0 && c.l.m == FirstList()
    ensures GroupsFaithful(c, Bridged())
  {
    forall root | HasRoot(c.l.m, root) ensures FaithfulAt(P(), CutIds(Bridged(), Supernode(c.l, root)), 0) {
      OwnVertex(c.l, root);
      VertexShows(root);
    }
  }

  lemma OwnVertex(l: MergeLists.Layout, v: nat)
    requires l.m == FirstList() && HasRoot(l.m, v)
    ensures v < N && Supernode(l, v) == {v}
  {
    assert l.m[v].root == v && l.m[v].child == v;
  }

  /** Round one, in any interleaving. */
  lemma SecondRound() returns (rd: Round)
    ensures Ask().Valid() && Follows(Ask(), Round0(), rd) && Ran(Ask(), 1, rd)
    ensures rd.l.m == SecondList() && rd.find == Labels() && rd.forest == Inner()
    ensures SameRoots(Rising(N), ChainTo(N, 11, GAP), rd.parent)
    ensures !rd.sh.modified && !rd.sh.failed && !SomeFail(rd.sh.log) && rd.sh.forest == Inner()
    ensures rd.settled == rd.parent
  {
    ZeroRuns();
    var after := LabelsArise();
    ListOk();
    var start := Round(LayoutOf(SecondList(), N), Labels(), after, Inner(), Shared([], {}, false, false, []), after);
    assert Follows(Ask(), Round0(), start);
    SecondContext(start);
    var c := CtxOf(Ask(), 1, start);
    var sh := RoundRuns.SomeRound(c, Bridged());
    RanSamples(c, Bridged(), sh);
    NothingChanges(c, sh);
    rd := start.(sh := sh);
    SecondRan(start, rd);
    AfterSame(after);
  }

  lemma AfterSame(after: seq<nat>)
    requires CanLabel(FirstList(), N, ChainTo(N, 11, GAP), Labels(), after)
    ensures SameRoots(Rising(N), ChainTo(N, 11, GAP), after)
  {
    ChainAscends(11);
    LabelsGood(Rising(N), FirstList(), N, ChainTo(N, 11, GAP), Labels(), after);
  }

  lemma SecondContext(start: Round)
    requires Ask().Valid() && FirstRound(Ask(), Round0()) && Ran(Ask(), 0, Round0()) && Follows(Ask(), Round0(), start)
    ensures |start.l.m| == N && CtxOk(CtxOf(Ask(), 1, start), Bridged())
  {
    Emulation.OneRound(Ask(), Round0());
    Emulation.PendingContext(Ask(), [Round0()], start);
  }

  lemma SecondRan(start: Round, rd: Round)
    requires Ask().Valid() && |start.l.m| == N && rd == start.(sh := rd.sh) && start.settled == start.parent
    requires RoundRuns.RanTo(CtxOf(Ask(), 1, start), rd.sh) && rd.sh.parent == start.parent
    requires Ascending(Rising(N), start.parent)
    ensures Ran(Ask(), 1, rd)
  {
    SameRootsRefl(Rising(N), start.parent);
    assert CtxOf(Ask(), 1, rd) == CtxOf(Ask(), 1, start);
  }

  // ---------- the query ----------

  lemma RootsAfter(after: seq<nat>, v: nat)
    requires SameRoots(Rising(N), ChainTo(N, 11, GAP), after) && v < N
    ensures Root(Rising(N), after, v) == if v < 6 then 5 else 11
  {
    ClimbTo(v);
  }

  lemma SplitBy(after: seq<nat>, a: nat, b: nat)
    requires Ascending(Rising(N), after) && a < N && b < N && Same(Rising(N), after, a, b) && LabelOf(a) != LabelOf(b)
    ensures Split(Rising(N), after, Labels(), b)
  {
    assert Labels()[a] != Labels()[b];
  }

  lemma TornApart(after: seq<nat>)
    requires SameRoots(Rising(N), ChainTo(N, 11, GAP), after)
    ensures Torn(Rising(N), after, Labels(), Bridged())
  {
    RootsAfter(after, 0);
    RootsAfter(after, 2);
    RootsAfter(after, 6);
    RootsAfter(after, 8);
    SplitBy(after, 0, 2);
    SplitBy(after, 6, 8);
    assert Edge(2, 8) in Bridged() && !Same(Rising(N), after, 2, 8);
  }

  lemma TraceIsRun(rd: Round)
    requires Ask().Valid() && FirstRound(Ask(), Round0()) && Ran(Ask(), 0, Round0()) && Follows(Ask(), Round0(), rd)
    requires Ran(Ask(), 1, rd)
    ensures IsRun(Ask(), [Round0(), rd])
  {
    Emulation.OneRound(Ask(), Round0());
    Emulation.TwoRounds(Ask(), Round0(), rd);
  }

  lemma NeverFooled(rd: Round)
    requires Ask().Valid() && |rd.l.m| == N && rd.l.m == SecondList()
    ensures !LuckOf(Ask(), [Round0(), rd]).fooled
  {
    var tr := [Round0(), rd];
    Sizes();
    RoundZeroFaithful(CtxOf(Ask(), 0, Round0()));
    RoundOneFaithful(CtxOf(Ask(), 1, rd));
    forall r: nat | r < |tr| ensures !FooledAt(Ask(), tr, r) { assert r == 0 || r == 1; }
  }

  lemma NeverFailed(rd: Round)
    requires Ask().Valid() && !SomeFail(Round0().sh.log) && !SomeFail(rd.sh.log)
    ensures !LuckOf(Ask(), [Round0(), rd]).unlucky
  {
    var tr := [Round0(), rd];
    forall r: nat | r < |tr| ensures !FailAt(tr, r) { assert r == 0 || r == 1; }
  }

  /** A complete run of the query loop that returns normally, looks only at faithful buckets, sees no failed sample, and
      still leaves the two joined paths apart. Its union-find after round zero is one that lock-free merges build. */
  lemma TornRun() returns (tr: Trace)
    ensures Ask().Valid() && Ended(Ask(), tr) && |tr| == 2 && !Last(tr).sh.failed
    ensures var k := LuckOf(Ask(), tr); !k.fooled && !k.unlucky && k.inexact && k.torn && k.deep
    ensures Last(tr).sh.forest == Inner() && !SpanningForest(Inner(), Bridged())
    ensures tr[0].settled == ChainTo(N, 11, GAP) && SameRoots(Rising(N), tr[0].settled, Last(tr).settled)
  {
    ZeroRuns();
    var rd := SecondRound();
    tr := [Round0(), rd];
    TraceIsRun(rd);
    NeverFooled(rd);
    NeverFailed(rd);
    TornApart(rd.parent);
    assert EndsTorn(Ask(), tr);
    RacesNeedRoom(Ask(), tr);
    RunEndsNormally(Ask(), tr);
  }

  lemma BridgeJoins()
    ensures Connected(Bridged(), 2, 8)
  {
    assert Edge(2, 8) in Bridged();
    ConnectedEdge(Bridged(), Edge(2, 8));
  }

  /** From every invalid cache, a query on this graph can be answered by that run: vertices 2 and 8 are reported apart,
      although an edge joins them. */
  lemma WrongAnswer(c: Cache) returns (mid: Cache)
    requires !c.valid
    ensures var cfg := Config(P(), N, N, Rising(N));
            && cfg.Valid() && Simple(N, Bridged()) && Refreshed(cfg, Bridged(), c, mid) && mid.valid
            && mid.past.graph == Bridged() && !LuckOfPast(cfg, mid.past).fooled && !LuckOfPast(cfg, mid.past).unlucky
            && Ascending(cfg.prio, mid.parent) && |mid.parent| == N && !Same(cfg.prio, mid.parent, 2, 8)
            && Connected(Bridged(), 2, 8)
  {
    var tr := TornRun();
    mid := Cache(true, Last(tr).settled, Inner(), 1, Past(Bridged(), tr));
    RootsAfter(Last(tr).settled, 2);
    RootsAfter(Last(tr).settled, 8);
    BridgeJoins();
  }
}
