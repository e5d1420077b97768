/** One parallel Boruvka round (`perform_boruvka_round` for rounds above zero) as a transition system:
    each thread scans its part of the merge list, and a supernode that spans several parts is collected in a
    shared slot. Lock-protected sections and one sample-and-merge are single steps; threads interleave freely. */
module RoundProtocol {
  import opened Graphs
  import opened DisjointSets
  import opened XorAlgebra
  import opened Sketches
  import opened Supernodes
  import opened Partitions
  import opened MergeLists

  /** What stays fixed during the round. */
  datatype Ctx = Ctx(p: Params, r: nat, l: Layout, sks: seq<seq<Bucket>>,
                     prio: seq<nat>, parent0: seq<nat>, forest0: set<Edge>)

  /** Initial value of `num_merge_needed`: the largest size_t. */
  const UNSET: nat := 0xFFFF_FFFF_FFFF_FFFF

  datatype Global = Global(sketch: SketchVal, needed: nat, done: nat)

  datatype Entry = Entry(root: nat, sketch: SketchVal, outcome: SampleOutcome)

  /** The union-find and spanning forest, the two flags of the round, and the history of samples taken. */
  datatype Shared = Shared(parent: seq<nat>, forest: set<Edge>, modified: bool, failed: bool, log: seq<Entry>)

  datatype Pc =
    | Scan(i: nat, cur: nat, fromLeft: bool)   // loop head
    | Own(i: nat, ready: bool)                 // merged into the slot this thread owns
    | Announce(gid: nat)                       // first thread of its last root: about to set num_merge_needed
    | Deposit(gid: nat)                        // about to merge into slot gid
    | Collect(gid: nat, ready: bool)           // merged; samples if it was the last to merge
    | Done

  datatype Thr = Thr(pc: Pc, local: SketchVal)

  datatype State = State(thr: seq<Thr>, globals: seq<Global>, sh: Shared)


  // ---------- the steps ----------

  /** `sample_supernode`: sample, and merge the ends of a returned edge. A sample beyond the last column throws;
      an edge with an end outside the graph stops the union-find's own range check. The union-find merge is one
      atomic step, which is what its lock-free implementation provides. */
  function SampleSupernode(p: Params, prio: seq<nat>, sh: Shared, root: nat, skt: SketchVal): Shared
    requires p.Valid() && |skt.buckets| == p.Len() && Ascending(prio, sh.parent)
  {
    var out := SampleFn(p, skt).1;
    var sh := sh.(log := sh.log + [Entry(root, skt, out)]);
    match out
    case OutOfSamples => sh.(failed := true)
    case Sampled(Fail) => sh.(modified := true)
    case Sampled(Zero) => sh
    case Sampled(Good(idx)) =>
      var e := EdgeAt(idx);
      if e.src >= |sh.parent| || e.dst >= |sh.parent| then sh.(failed := true)
      else
        var u, v := Root(prio, sh.parent, e.src), Root(prio, sh.parent, e.dst);
        if u == v then sh
        else
          var (a, b) := OrderEdge(prio, u, v);
          sh.(parent := sh.parent[b := a], forest := sh.forest + {Normal(e.src, e.dst)}, modified := true)
  }

  /** `merge_global`: the merged slot and whether the caller may sample it. */
  function MergeGlobal(p: Params, r: nat, g: Global, local: SketchVal): (Global, bool)
    requires |g.sketch.buckets| == |local.buckets| == p.Len()
  {
    var g' := Global(RangeMergeFn(p, g.sketch, local.buckets, r), g.needed, g.done + 1);
    (g', g'.done >= g'.needed)
  }

  /** What the code needs in order not to index out of range; implied by the invariant below. */
  ghost predicate Runnable(c: Ctx, s: State, t: nat) {
    && c.p.Valid() && c.l.Valid() && |c.sks| == c.l.N()
    && t < c.l.Threads() == |s.thr| == |s.globals|
    && Ascending(c.prio, s.sh.parent)
    && (forall v :: 0 <= v < |c.sks| ==> |c.sks[v]| == c.p.Len())
    && (forall g :: 0 <= g < |s.globals| ==> |s.globals[g].sketch.buckets| == c.p.Len())
    && |s.thr[t].local.buckets| == c.p.Len()
    && (forall q :: 0 <= q < c.l.N() ==> c.l.m[q].child < c.l.N())
    && c.l.bounds[t] < c.l.bounds[t + 1] <= c.l.N()
    && match s.thr[t].pc
       case Scan(i, cur, _) => c.l.bounds[t] <= i <= c.l.bounds[t + 1] && HasRoot(c.l.m, cur) &&
           c.l.part[Hi(c.l.m, cur)] < c.l.Threads()
       case Own(i, _) => i < c.l.N()
       case Announce(gid) => t <= gid < c.l.Threads()
       case Deposit(gid) => gid < c.l.Threads()
       case Collect(gid, _) => gid < c.l.Threads()
       case Done => true
  }

  function Step(c: Ctx, s: State, t: nat): State
    requires Runnable(c, s, t)
  {
    var l := c.l;
    var th := s.thr[t];
    var start, end := l.bounds[t], l.bounds[t + 1];
    match th.pc
    case Scan(i, cur, fromLeft) =>
      if i < end then
        var root := l.m[i].root;
        if root == cur then
          s.(thr := s.thr[t := Thr(Scan(i + 1, cur, fromLeft), RangeMergeFn(c.p, th.local, c.sks[l.m[i].child], c.r))])
        else if fromLeft then
          // this thread owns the slot of the root that came from the left
          var (g, ready) := MergeGlobal(c.p, c.r, s.globals[t], th.local);
          s.(globals := s.globals[t := g], thr := s.thr[t := Thr(Own(i, ready), th.local)])
        else
          // an entirely local supernode
          s.(sh := SampleSupernode(c.p, c.prio, s.sh, cur, th.local),
             thr := s.thr[t := Thr(Scan(i, root, false), SketchVal(ZeroFn(c.p), 0))])
      else if ExitsRight(l, t) || fromLeft then
        var gid := l.part[Hi(l.m, cur)];
        s.(thr := s.thr[t := th.(pc := if fromLeft then Deposit(gid) else Announce(gid))])
      else
        s.(sh := SampleSupernode(c.p, c.prio, s.sh, cur, th.local), thr := s.thr[t := th.(pc := Done)])
    case Own(i, ready) =>
      s.(sh := if ready then SampleSupernode(c.p, c.prio, s.sh, l.m[start].root, s.globals[t].sketch) else s.sh,
         thr := s.thr[t := Thr(Scan(i, l.m[i].root, false), SketchVal(ZeroFn(c.p), 0))])
    case Announce(gid) =>
      s.(globals := s.globals[gid := s.globals[gid].(needed := gid - t + 1)],
          thr := s.thr[t := th.(pc := Deposit(gid))])
    case Deposit(gid) =>
      var (g, ready) := MergeGlobal(c.p, c.r, s.globals[gid], th.local);
      s.(globals := s.globals[gid := g], thr := s.thr[t := th.(pc := Collect(gid, ready))])
    case Collect(gid, ready) =>
      s.(sh := if ready then SampleSupernode(c.p, c.prio, s.sh, l.m[end - 1].root, s.globals[gid].sketch) else s.sh,
         thr := s.thr[t := th.(pc := Done)])
    case Done => s
  }

  function InitialThread(c: Ctx, t: nat): Thr
    requires t < |c.l.bounds| && c.l.bounds[t] < |c.l.m|
  {
    Thr(Scan(c.l.bounds[t], c.l.m[c.l.bounds[t]].root, FromLeft(c.l, t)), SketchVal(ZeroFn(c.p), 0))
  }

  function Initial(c: Ctx): State
    requires forall t :: 0 <= t < c.l.Threads() ==> c.l.bounds[t] < |c.l.m|
  {
    State(seq(c.l.Threads(), t requires 0 <= t < c.l.Threads() => InitialThread(c, t)),
          seq(c.l.Threads(), t => Global(SketchVal(ZeroFn(c.p), 0), UNSET, 0)),
          Shared(c.parent0, c.forest0, false, false, []))
  }
}
