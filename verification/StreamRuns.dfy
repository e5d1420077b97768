/** Whole runs: any sequence of edge toggles and queries, failed queries included. */
module StreamRuns {
  import opened Graphs
  import opened XorAlgebra
  import opened Sketches
  import opened Supernodes
  import opened QueryLoop
  import opened Traces
  import opened Caches
  import opened QueryEngine

  datatype Op = Toggle(a: nat, b: nat) | AskComponents | AskPoint(x: nat, y: nat) | AskForest
  datatype Reply = Updated | AboutComponents(c: Answer) | AboutPoint(p: PointAnswer) | AboutForest(f: ForestAnswer)

  predicate WellFormed(n: nat, op: Op) {
    match op
    case Toggle(a, b) => a < n && b < n && a != b
    case AskPoint(x, y) => x < n && y < n
    case _ => true
  }

  /** The graph after the first `k` operations: each toggle flips one edge. */
  function GraphAfter(ops: seq<Op>, k: nat): set<Edge>
    requires k <= |ops|
  {
    if k == 0 then {}
    else
      var E := GraphAfter(ops, k - 1);
      if ops[k - 1].Toggle? then ToggleEdge(E, Normal(ops[k - 1].a, ops[k - 1].b)) else E
  }

  /** One operation on the cache, `E` being the graph afterwards; `mid` is the cache a query answers from. */
  ghost predicate OpStep(cfg: Config, E: set<Edge>, op: Op, c: Cache, mid: Cache, now: Cache, reply: Reply)
    requires cfg.Valid()
  {
    match op
    case Toggle(a, b) => reply == Updated && ToggleStep(cfg, c, Normal(a, b), now)
    case AskComponents =>
      QueryStep(cfg, E, c, mid) && reply.AboutComponents? && ComponentsStep(cfg, E, c, mid, now, reply.c)
    case AskPoint(x, y) =>
      && QueryStep(cfg, E, c, mid) && x < cfg.n && y < cfg.n && reply.AboutPoint?
      && PointStep(cfg, E, c, mid, now, x, y, reply.p)
    case AskForest => QueryStep(cfg, E, c, mid) && reply.AboutForest? && ForestStep(cfg, E, c, mid, now, reply.f)
  }

  /** One operation. */
  method Perform(alg: CCSketchAlg, op: Op) returns (reply: Reply, ghost mid: Cache)
    requires alg.Valid() && alg.Flushed() && WellFormed(alg.cfg.n, op)
    modifies alg
    ensures alg.Valid() && alg.Flushed()
    ensures alg.graph == if op.Toggle? then ToggleEdge(old(alg.graph), Normal(op.a, op.b)) else old(alg.graph)
    ensures OpStep(alg.cfg, alg.graph, op, old(alg.Cached()), mid, alg.Cached(), reply)
  {
    mid := alg.Cached();
    match op
    case Toggle(a, b) =>
      alg.Update(a, b);
      reply := Updated;
    case AskComponents =>
      var c;
      c, mid := alg.ConnectedComponents();
      reply := AboutComponents(c);
    case AskPoint(x, y) =>
      var p;
      p, mid := alg.PointQuery(x, y);
      reply := AboutPoint(p);
    case AskForest =>
      var f;
      f, mid := alg.CalcSpanningForest();
      reply := AboutForest(f);
  }

  // ---------- whole runs ----------

  ghost predicate StepAt(cfg: Config, ops: seq<Op>, caches: seq<Cache>, mids: seq<Cache>, replies: seq<Reply>, i: nat)
    requires cfg.Valid() && i < |ops| && i < |replies| && i < |mids| && i + 1 < |caches|
  {
    OpStep(cfg, GraphAfter(ops, i + 1), ops[i], caches[i], mids[i], caches[i + 1], replies[i])
  }

  /** A run: from the empty cache, each operation takes one step. */
  ghost predicate History(cfg: Config, ops: seq<Op>, caches: seq<Cache>, mids: seq<Cache>, replies: seq<Reply>)
    requires cfg.Valid()
  {
    && |replies| == |mids| <= |ops| && |caches| == |replies| + 1 && caches[0] == EmptyCache(cfg.n)
    && forall i: nat :: i < |replies| ==> StepAt(cfg, ops, caches, mids, replies, i)
  }

  lemma HistoryNext(cfg: Config, ops: seq<Op>, caches: seq<Cache>, mids: seq<Cache>, replies: seq<Reply>, mid: Cache,
                    now: Cache, reply: Reply)
    requires cfg.Valid() && History(cfg, ops, caches, mids, replies) && |replies| < |ops|
    requires OpStep(cfg, GraphAfter(ops, |replies| + 1), ops[|replies|], caches[|replies|], mid, now, reply)
    ensures History(cfg, ops, caches + [now], mids + [mid], replies + [reply])
  {
    var cs, ms, rs := caches + [now], mids + [mid], replies + [reply];
    forall i: nat | i < |rs| ensures StepAt(cfg, ops, cs, ms, rs, i) {
      if i < |replies| {
        assert StepAt(cfg, ops, caches, mids, replies, i);
        assert cs[i] == caches[i] && cs[i + 1] == caches[i + 1] && ms[i] == mids[i] && rs[i] == replies[i];
      }
    }
  }

  /** Every run of updates and queries, failed ones included, is a history: each reply is one that the cache at that
      moment, filled by runs of the query loop on the graph of that moment, can give. */
  method Run(alg: CCSketchAlg, ops: seq<Op>)
    returns (replies: seq<Reply>, ghost caches: seq<Cache>, ghost mids: seq<Cache>)
    requires alg.Valid() && alg.Flushed() && alg.graph == {} && alg.Cached() == EmptyCache(alg.cfg.n)
    requires forall i :: 0 <= i < |ops| ==> WellFormed(alg.cfg.n, ops[i])
    modifies alg
    ensures alg.Valid() && alg.graph == GraphAfter(ops, |ops|)
    ensures History(alg.cfg, ops, caches, mids, replies) && |replies| == |ops| && caches[|ops|] == alg.Cached()
  {
    replies, caches, mids := [], [alg.Cached()], [];
    while |replies| < |ops|
      invariant alg.Valid() && alg.Flushed() && |replies| <= |ops| && alg.graph == GraphAfter(ops, |replies|)
      invariant History(alg.cfg, ops, caches, mids, replies) && caches[|replies|] == alg.Cached()
    {
      ghost var mid;
      var reply;
      reply, mid := Perform(alg, ops[|replies|]);
      HistoryNext(alg.cfg, ops, caches, mids, replies, mid, alg.Cached(), reply);
      replies, caches, mids := replies + [reply], caches + [alg.Cached()], mids + [mid];
    }
  }

  // ---------- what the replies tell ----------

  predicate Answered(reply: Reply) {
    reply != AboutComponents(Exception) && reply != AboutPoint(PointException) && reply != AboutForest(ForestException)
  }

  /** The reply is the truth about the graph `E`, or an exception. Component answers are read by racing look-ups, which
      `Told` describes. */
  ghost predicate Truthful(cfg: Config, E: set<Edge>, op: Op, mid: Cache, reply: Reply) {
    match op
    case Toggle(_, _) => reply == Updated
    case AskComponents =>
      && reply.AboutComponents?
      && (reply.c.Components? ==>
            Told(cfg.n, cfg.prio, cfg.threads, E, mid.parent, reply.c.roots, reply.c.count))
    case AskPoint(x, y) => reply.AboutPoint? && (reply.p.Joint? ==> (reply.p.yes <==> Connected(E, x, y)))
    case AskForest => reply.AboutForest? && (reply.f.Forest? ==> SpanningForest(reply.f.edges, E))
  }

  /** A reply never claims a connection or an edge that is not there. */
  ghost predicate NothingInvented(E: set<Edge>, op: Op, reply: Reply) {
    match op
    case Toggle(_, _) => true
    case AskComponents => reply.AboutComponents? && (reply.c.Components? ==> TruePairs(E, reply.c.roots))
    case AskPoint(x, y) => reply.AboutPoint? && (reply.p.Joint? && reply.p.yes ==> Connected(E, x, y))
    case AskForest => reply.AboutForest? && (reply.f.Forest? ==> reply.f.edges <= E)
  }

  /** Every reply of every run. After a sound run of the query loop it is the truth. Right after a faithful one it
      invents nothing, however the look-ups raced. Without mishaps and with more than log2(n) samples it is no
      exception. */
  lemma RepliesTrue(cfg: Config, E: set<Edge>, op: Op, c: Cache, mid: Cache, now: Cache, reply: Reply)
    requires cfg.Valid() && !op.Toggle? && OpStep(cfg, E, op, c, mid, now, reply)
    ensures CacheOk(cfg, E, mid)
    ensures LuckOfPast(cfg, mid.past).Sound() ==> Truthful(cfg, E, op, mid, reply)
    ensures !c.valid && !LuckOfPast(cfg, mid.past).fooled ==> NothingInvented(E, op, reply)
    ensures LuckOfPast(cfg, mid.past).Calm() && cfg.n < Pow2(cfg.p.samples) ==> Answered(reply)
  {
    assert Unfold(0);
  }

  /** With one thread, or fewer than six vertices, nothing but a bucket that the run inspected and that fools its
      checksum can make a reply wrong. */
  lemma PlainReplies(cfg: Config, E: set<Edge>, op: Op, c: Cache, mid: Cache, now: Cache, reply: Reply)
    requires cfg.Valid() && !op.Toggle? && OpStep(cfg, E, op, c, mid, now, reply) && (cfg.threads == 1 || cfg.n < 6)
    requires CacheOk(cfg, E, mid) && !LuckOfPast(cfg, mid.past).fooled
    ensures Truthful(cfg, E, op, mid, reply)
    ensures op.AskComponents? && reply.c.Components? ==> Exact(cfg.n, E, reply.c.roots)
    ensures !LuckOfPast(cfg, mid.past).unlucky && cfg.n < Pow2(cfg.p.samples) ==> Answered(reply)
  {
    PlainLuck(cfg, E, mid);
    RepliesTrue(cfg, E, op, c, mid, now, reply);
    if op.AskComponents? && reply.c.Components? && cfg.n < 6 {
      ToldFew(cfg.n, cfg.prio, cfg.threads, E, mid.parent, reply.c.roots, reply.c.count);
    }
  }

  lemma PlainLuck(cfg: Config, E: set<Edge>, c: Cache)
    requires cfg.Valid() && CacheOk(cfg, E, c) && (cfg.threads == 1 || cfg.n < 6)
    ensures !LuckOfPast(cfg, c.past).torn && !LuckOfPast(cfg, c.past).inexact
  {
    assert Unfold(0);
    if c.past.trace != [] { RacesNeedRoom(cfg.Ask(c.past.graph), c.past.trace); }
  }
}
