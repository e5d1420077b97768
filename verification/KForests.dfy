/** k edge-disjoint spanning forests: find one, delete it, repeat, then put everything back. */
module KForests {
  import opened Graphs
  import opened DisjointSets
  import opened XorAlgebra
  import opened Sketches
  import opened Supernodes
  import opened QueryLoop
  import opened Traces
  import opened Caches
  import opened QueryEngine

  // ---------- graphs ----------

  /** What is left after the first `k` forests are taken out. */
  function Residual(E: set<Edge>, Fs: seq<set<Edge>>, k: nat): set<Edge>
    requires k <= |Fs|
  {
    if k == 0 then E else Residual(E, Fs, k - 1) - Fs[k - 1]
  }

  function UnionOf(Fs: seq<set<Edge>>, k: nat): set<Edge>
    requires k <= |Fs|
  {
    if k == 0 then {} else UnionOf(Fs, k - 1) + Fs[k - 1]
  }

  /** Each forest spans the graph minus the earlier ones. */
  ghost predicate Peeled(E: set<Edge>, Fs: seq<set<Edge>>) {
    forall i :: 0 <= i < |Fs| ==> SpanningForest(Fs[i], Residual(E, Fs, i))
  }

  lemma {:induction false} ResidualIsRest(E: set<Edge>, Fs: seq<set<Edge>>, k: nat)
    requires k <= |Fs|
    ensures Residual(E, Fs, k) == E - UnionOf(Fs, k)
  {
    if k > 0 { ResidualIsRest(E, Fs, k - 1); }
  }

  lemma {:induction false} InUnion(Fs: seq<set<Edge>>, k: nat, i: nat)
    requires i < k <= |Fs|
    ensures Fs[i] <= UnionOf(Fs, k)
  {
    if i < k - 1 { InUnion(Fs, k - 1, i); }
  }

  /** The forests share no edge. */
  lemma PeeledDisjoint(E: set<Edge>, Fs: seq<set<Edge>>, i: nat, j: nat)
    requires Peeled(E, Fs) && i < j < |Fs|
    ensures Fs[i] !! Fs[j]
  {
    ResidualIsRest(E, Fs, j);
    InUnion(Fs, j, i);
    assert Fs[j] <= Residual(E, Fs, j);
  }

  lemma CutMono(A: set<Edge>, B: set<Edge>, S: set<nat>)
    requires A <= B
    ensures Cut(A, S) <= Cut(B, S) && |Cut(A, S)| <= |Cut(B, S)|
  {
    assert Cut(A, S) <= Cut(B, S);
    SubsetSize(Cut(A, S), Cut(B, S));
  }

  /** The union of the forests keeps min(k, size of the cut) edges of every cut. */
  lemma {:induction false} UnionKeepsCuts(E: set<Edge>, Fs: seq<set<Edge>>, k: nat, S: set<nat>)
    requires Peeled(E, Fs) && k <= |Fs|
    ensures |Cut(UnionOf(Fs, k), S)| >= k || Cut(UnionOf(Fs, k), S) == Cut(E, S)
    ensures UnionOf(Fs, k) <= E
  {
    if k > 0 {
      UnionKeepsCuts(E, Fs, k - 1, S);
      ResidualIsRest(E, Fs, k - 1);
      var U, F, R := UnionOf(Fs, k - 1), Fs[k - 1], Residual(E, Fs, k - 1);
      assert SpanningForest(F, R);
      if Cut(R, S) == {} {
        CutSplit(E, U, S);
        CutMono(U, U + F, S);
        CutMono(U + F, E, S);
      } else {
        ForestMeetsCut(F, R, S);
        OneMoreEdge(E, U, F, S);
      }
    }
  }

  lemma OneMoreEdge(E: set<Edge>, U: set<Edge>, F: set<Edge>, S: set<nat>)
    requires F <= E - U && Cut(F, S) != {}
    ensures |Cut(U + F, S)| >= |Cut(U, S)| + 1 && Cut(U, S) != Cut(E, S)
  {
    var e :| e in Cut(F, S);
    assert e !in Cut(U, S) && e in Cut(E, S);
    SubsetSize(Cut(U, S) + {e}, Cut(U + F, S));
  }

  lemma CutSplit(E: set<Edge>, U: set<Edge>, S: set<nat>)
    requires U <= E && Cut(E - U, S) == {}
    ensures Cut(U, S) == Cut(E, S)
  {
    forall e | e in Cut(E, S) ensures e in Cut(U, S) {
      assert e in Cut(U, S) || e in Cut(E - U, S);
    }
  }

  // ---------- deleting and putting back ----------

  function FlipAll(E: set<Edge>, Fs: seq<set<Edge>>, k: nat): set<Edge>
    requires k <= |Fs|
  {
    if k == 0 then E else SymDiff(FlipAll(E, Fs, k - 1), Fs[k - 1])
  }

  predicate OddlyOften(Fs: seq<set<Edge>>, k: nat, e: Edge)
    requires k <= |Fs|
  {
    k > 0 && ((e in Fs[k - 1]) != OddlyOften(Fs, k - 1, e))
  }

  lemma {:induction false} FlipAllMember(E: set<Edge>, Fs: seq<set<Edge>>, k: nat, e: Edge)
    requires k <= |Fs|
    ensures e in FlipAll(E, Fs, k) <==> ((e in E) != OddlyOften(Fs, k, e))
  {
    if k > 0 { FlipAllMember(E, Fs, k - 1, e); }
  }

  /** Flipping all forests out and in again restores the graph, whatever the forests are. */
  lemma FlipTwice(E: set<Edge>, Fs: seq<set<Edge>>)
    ensures FlipAll(FlipAll(E, Fs, |Fs|), Fs, |Fs|) == E
  {
    var k := |Fs|;
    forall e: Edge ensures e in FlipAll(FlipAll(E, Fs, k), Fs, k) <==> e in E {
      FlipAllMember(E, Fs, k, e);
      FlipAllMember(FlipAll(E, Fs, k), Fs, k, e);
    }
  }

  lemma {:induction false} FlipAllPrefix(E: set<Edge>, Fs: seq<set<Edge>>, F: set<Edge>, k: nat)
    requires k <= |Fs|
    ensures FlipAll(E, Fs + [F], k) == FlipAll(E, Fs, k) && Residual(E, Fs + [F], k) == Residual(E, Fs, k)
  {
    if k > 0 { FlipAllPrefix(E, Fs, F, k - 1); }
  }

  lemma {:induction false} FlipIsResidual(E: set<Edge>, Fs: seq<set<Edge>>, k: nat)
    requires Peeled(E, Fs) && k <= |Fs|
    ensures FlipAll(E, Fs, k) == Residual(E, Fs, k)
  {
    if k > 0 {
      FlipIsResidual(E, Fs, k - 1);
      assert Fs[k - 1] <= Residual(E, Fs, k - 1);
    }
  }

  lemma PeelNext(E: set<Edge>, Fs: seq<set<Edge>>, F: set<Edge>)
    requires Peeled(E, Fs) && SpanningForest(F, FlipAll(E, Fs, |Fs|))
    ensures Peeled(E, Fs + [F])
  {
    var Gs := Fs + [F];
    FlipIsResidual(E, Fs, |Fs|);
    forall i | 0 <= i < |Gs| ensures SpanningForest(Gs[i], Residual(E, Gs, i)) {
      FlipAllPrefix(E, Fs, F, i);
    }
  }

  lemma FlipOneMore(E: set<Edge>, F: set<Edge>, todo: set<Edge>, e: Edge)
    requires e in todo && todo <= F
    ensures ToggleEdge(SymDiff(E, F - todo), e) == SymDiff(E, F - (todo - {e}))
  {
  }

  /** Toggle every edge of a forest, in any order. */
  method ToggleEdges(alg: CCSketchAlg, F: set<Edge>)
    requires alg.Valid() && alg.Flushed() && NormalEdges(alg.cfg.n, F)
    modifies alg
    ensures alg.Valid() && alg.Flushed() && alg.graph == SymDiff(old(alg.graph), F)
    ensures alg.updateLocked == old(alg.updateLocked)
    ensures F != {} && F <= old(alg.forest) ==> !alg.dsuValid
  {
    var todo := F;
    while todo != {}
      invariant todo <= F && alg.Valid() && alg.Flushed()
      invariant alg.graph == SymDiff(old(alg.graph), F - todo) && alg.updateLocked == old(alg.updateLocked)
      invariant F <= old(alg.forest) ==> F <= alg.forest && (todo != F ==> !alg.dsuValid)
    {
      var e :| e in todo;
      FlipOneMore(old(alg.graph), F, todo, e);
      ghost var was := alg.Cached();
      alg.Update(e.src, e.dst);
      ToggleFacts(alg.cfg, was, e, alg.Cached());
      todo := todo - {e};
    }
    assert F - todo == F;
  }

  lemma SketchesRestored(p: Params, E: set<Edge>, a: seq<SketchVal>, ca: seq<set<nat>>, b: seq<SketchVal>,
                         cb: seq<set<nat>>)
    requires p.Valid() && Stands(p, a, ca) && Stands(p, b, cb) && |ca| == |cb| && InStep(E, ca) && InStep(E, cb)
    ensures a == b
  {
  }

  /** One query of the loop: the cache it found and the cache it answered from. */
  datatype Found = Found(before: Cache, mid: Cache)

  ghost function ForestsOf(found: seq<Found>): (Fs: seq<set<Edge>>)
    ensures |Fs| == |found| && forall i :: 0 <= i < |found| ==> Fs[i] == found[i].mid.forest
  {
    seq(|found|, i requires 0 <= i < |found| => found[i].mid.forest)
  }

  ghost function MaxRounds(found: seq<Found>): (r: nat)
    ensures forall i :: 0 <= i < |found| ==> found[i].mid.rounds <= r
    ensures found != [] ==> exists i :: 0 <= i < |found| && found[i].mid.rounds == r
  {
    if found == [] then 0
    else
      var r := MaxRounds(found[..|found| - 1]);
      if found[|found| - 1].mid.rounds > r then found[|found| - 1].mid.rounds else r
  }

  /** What is left of the graph after the forests found so far. */
  ghost function LeftOf(E: set<Edge>, found: seq<Found>, j: nat): set<Edge>
    requires j <= |found|
  {
    FlipAll(E, ForestsOf(found), j)
  }

  /** Forest `j` answers a query on what the earlier ones left; after a forest with an edge the cache is gone, so that
      the next forest comes from its own run of the query loop. */
  ghost predicate FoundAt(cfg: Config, E: set<Edge>, found: seq<Found>, j: nat)
    requires cfg.Valid() && j < |found|
  {
    && QueryStep(cfg, LeftOf(E, found, j), found[j].before, found[j].mid) && found[j].mid.valid
    && (j > 0 && found[j - 1].mid.forest != {} ==> !found[j].before.valid)
  }

  ghost predicate FoundOk(cfg: Config, E: set<Edge>, found: seq<Found>)
    requires cfg.Valid()
  {
    forall j: nat :: j < |found| ==> FoundAt(cfg, E, found, j)
  }

  /** All forests come from sound runs. */
  ghost predicate AllSound(cfg: Config, E: set<Edge>, found: seq<Found>)
    requires cfg.Valid() && FoundOk(cfg, E, found)
  {
    forall j: nat :: j < |found| ==> SoundAt(cfg, found[j])
  }

  ghost predicate SoundAt(cfg: Config, f: Found)
    requires cfg.Valid()
  {
    Simple(cfg.n, f.mid.past.graph) && LuckOfPast(cfg, f.mid.past).Sound()
  }

  lemma FoundPrefix(E: set<Edge>, found: seq<Found>, f: Found, j: nat)
    requires j <= |found|
    ensures ForestsOf(found + [f]) == ForestsOf(found) + [f.mid.forest]
    ensures LeftOf(E, found + [f], j) == LeftOf(E, found, j)
  {
    assert ForestsOf(found + [f]) == ForestsOf(found) + [f.mid.forest];
    FlipAllPrefix(E, ForestsOf(found), f.mid.forest, j);
  }

  lemma MaxNext(found: seq<Found>, f: Found)
    ensures MaxRounds(found + [f]) == if f.mid.rounds > MaxRounds(found) then f.mid.rounds else MaxRounds(found)
  {
    assert (found + [f])[..|found|] == found;
  }

  lemma FlipNext(E: set<Edge>, found: seq<Found>, f: Found)
    ensures LeftOf(E, found + [f], |found| + 1) == SymDiff(LeftOf(E, found, |found|), f.mid.forest)
  {
    FoundPrefix(E, found, f, |found|);
  }

  lemma FoundNext(cfg: Config, E: set<Edge>, found: seq<Found>, f: Found)
    requires cfg.Valid() && FoundOk(cfg, E, found) && QueryStep(cfg, LeftOf(E, found, |found|), f.before, f.mid)
    requires f.mid.valid
    requires |found| > 0 && found[|found| - 1].mid.forest != {} ==> !f.before.valid
    ensures FoundOk(cfg, E, found + [f])
  {
    forall j: nat | j < |found + [f]| ensures FoundAt(cfg, E, found + [f], j) { FoundStill(cfg, E, found, f, j); }
  }

  lemma FoundStill(cfg: Config, E: set<Edge>, found: seq<Found>, f: Found, j: nat)
    requires cfg.Valid() && FoundOk(cfg, E, found) && QueryStep(cfg, LeftOf(E, found, |found|), f.before, f.mid)
    requires f.mid.valid
    requires |found| > 0 && found[|found| - 1].mid.forest != {} ==> !f.before.valid
    requires j <= |found|
    ensures FoundAt(cfg, E, found + [f], j)
  {
    FoundPrefix(E, found, f, j);
    if j < |found| { assert FoundAt(cfg, E, found, j); }
  }

  lemma FoundNormal(cfg: Config, E: set<Edge>, found: seq<Found>)
    requires cfg.Valid() && FoundOk(cfg, E, found)
    ensures forall j :: 0 <= j < |found| ==> NormalEdges(cfg.n, ForestsOf(found)[j])
  {
    forall j | 0 <= j < |found| ensures NormalEdges(cfg.n, ForestsOf(found)[j]) { assert FoundAt(cfg, E, found, j); }
  }

  ghost predicate SpansLeft(E: set<Edge>, Fs: seq<set<Edge>>, j: nat)
    requires j < |Fs|
  {
    SpanningForest(Fs[j], FlipAll(E, Fs, j))
  }

  lemma SoundSpans(cfg: Config, E: set<Edge>, found: seq<Found>, j: nat)
    requires cfg.Valid() && j < |found| && FoundOk(cfg, E, found) && AllSound(cfg, E, found)
    ensures SpansLeft(E, ForestsOf(found), j)
  {
    assert FoundAt(cfg, E, found, j) && SoundAt(cfg, found[j]) && Unfold(0);
  }

  /** Forests that span what the earlier ones left are peeled off one after the other. */
  lemma {:induction false} SpansArePeeled(E: set<Edge>, Fs: seq<set<Edge>>, k: nat)
    requires k <= |Fs| && forall j: nat :: j < |Fs| ==> SpansLeft(E, Fs, j)
    ensures Peeled(E, Fs[..k])
  {
    if k > 0 {
      SpansArePeeled(E, Fs, k - 1);
      assert SpansLeft(E, Fs, k - 1);
      FlipTake(E, Fs, k - 1);
      PeelNext(E, Fs[..k - 1], Fs[k - 1]);
      assert Fs[..k] == Fs[..k - 1] + [Fs[k - 1]];
    }
  }

  lemma {:induction false} FlipOfPrefix(E: set<Edge>, Fs: seq<set<Edge>>, k: nat, j: nat)
    requires j <= k <= |Fs|
    ensures FlipAll(E, Fs[..k], j) == FlipAll(E, Fs, j)
  {
    if j > 0 { FlipOfPrefix(E, Fs, k, j - 1); }
  }

  lemma FlipTake(E: set<Edge>, Fs: seq<set<Edge>>, k: nat)
    requires k <= |Fs|
    ensures FlipAll(E, Fs[..k], |Fs[..k]|) == FlipAll(E, Fs, k)
  {
    FlipOfPrefix(E, Fs, k, k);
  }

  /** The first loop after some turns. */
  ghost predicate Peeling(alg: CCSketchAlg, E: set<Edge>, fs: seq<set<Edge>>, maxRounds: nat, found: seq<Found>)
    reads alg
  {
    && alg.Valid() && alg.Flushed() && fs == ForestsOf(found) && alg.graph == LeftOf(E, found, |found|)
    && maxRounds == MaxRounds(found) && FoundOk(alg.cfg, E, found)
    && (|found| > 0 && found[|found| - 1].mid.forest != {} ==> !alg.dsuValid)
  }

  /** The query of one turn, and the deletion of the forest it returns. */
  method PeelOne(alg: CCSketchAlg, ghost E: set<Edge>, fs: seq<set<Edge>>, maxRounds: nat, ghost found: seq<Found>)
    returns (ok: bool, F: set<Edge>, rounds: nat, ghost f: Found)
    requires Peeling(alg, E, fs, maxRounds, found)
    modifies alg
    ensures alg.Valid() && alg.Flushed() && F == f.mid.forest && f.before == old(alg.Cached()) && ok == f.mid.valid
    ensures QueryStep(alg.cfg, LeftOf(E, found, |found|), f.before, f.mid)
    ensures ok ==>
              alg.graph == LeftOf(E, found + [f], |found| + 1) && FoundOk(alg.cfg, E, found + [f])
              && rounds == f.mid.rounds
    ensures ok && F != {} ==> !alg.dsuValid
    ensures !ok ==> alg.graph == old(alg.graph) && alg.updateLocked
  {
    ghost var before := alg.Cached();
    ghost var mid;
    var sf;
    sf, mid := alg.CalcSpanningForest();
    f, F, rounds := Found(before, mid), alg.forest, alg.lastQueryRounds;
    ok := sf.Forest?;
    AfterForest(alg.cfg, alg.graph, before, mid, alg.Cached(), sf);
    if ok {
      FoundNext(alg.cfg, E, found, f);
      FlipNext(E, found, f);
      ToggleEdges(alg, F);
    }
  }

  lemma AfterForest(cfg: Config, E: set<Edge>, c: Cache, mid: Cache, now: Cache, a: ForestAnswer)
    requires cfg.Valid() && QueryStep(cfg, E, c, mid) && ForestStep(cfg, E, c, mid, now, a)
    ensures now.forest == mid.forest && now.rounds == mid.rounds
  {
    assert Unfold(0);
  }

  /** One turn of the first loop: find a forest and delete it. */
  method PeelTurn(alg: CCSketchAlg, ghost E: set<Edge>, fs0: seq<set<Edge>>, max0: nat, ghost found0: seq<Found>)
    returns (ok: bool, fs: seq<set<Edge>>, maxRounds: nat, ghost found: seq<Found>, ghost last: Found)
    requires Peeling(alg, E, fs0, max0, found0)
    modifies alg
    ensures alg.Valid() && alg.Flushed() && last.before == old(alg.Cached()) && ok == last.mid.valid
    ensures ok ==> Peeling(alg, E, fs, maxRounds, found) && found == found0 + [last]
    ensures !ok ==> fs == fs0 && maxRounds == max0 && found == found0 && alg.graph == old(alg.graph) && alg.updateLocked
    ensures QueryStep(alg.cfg, LeftOf(E, found0, |found0|), last.before, last.mid)
  {
    var F, rounds;
    ok, F, rounds, last := PeelOne(alg, E, fs0, max0, found0);
    fs, maxRounds, found := fs0, max0, found0;
    if ok {
      FoundPrefix(E, found0, last, 0);
      MaxNext(found0, last);
      maxRounds := if rounds > max0 then rounds else max0;
      fs, found := fs0 + [F], found0 + [last];
    }
  }

  /** The first loop. `last` is the last query. */
  method PeelForests(alg: CCSketchAlg, k: nat)
    returns (ok: bool, fs: seq<set<Edge>>, maxRounds: nat, ghost found: seq<Found>, ghost last: Found)
    requires alg.Valid() && alg.Flushed()
    modifies alg
    ensures alg.Valid() && alg.Flushed() && FoundOk(alg.cfg, old(alg.graph), found)
    ensures fs == ForestsOf(found) && maxRounds == MaxRounds(found)
    ensures alg.graph == LeftOf(old(alg.graph), found, |found|)
    ensures ok ==> |found| == k
    ensures !ok ==> |found| < k && alg.updateLocked && StoppedBy(alg.cfg, old(alg.graph), found, last)
    ensures |found| > 0 ==> found[0].before == old(alg.Cached())
    ensures |found| == 0 && !ok ==> last.before == old(alg.Cached())
  {
    ghost var E, cached := alg.graph, alg.Cached();
    ok, fs, maxRounds, found, last := true, [], 0, [], Found(cached, cached);
    while ok && |fs| < k
      invariant alg.Valid() && alg.Flushed() && FoundOk(alg.cfg, E, found) && |found| <= k
      invariant fs == ForestsOf(found) && maxRounds == MaxRounds(found) && alg.graph == LeftOf(E, found, |found|)
      invariant ok ==> Peeling(alg, E, fs, maxRounds, found)
      invariant !ok ==> |found| < k && alg.updateLocked && StoppedBy(alg.cfg, E, found, last)
      invariant found == [] ==> if ok then alg.Cached() == cached else last.before == cached
      invariant found != [] ==> found[0].before == cached
      decreases ok, k - |fs|
    {
      ok, fs, maxRounds, found, last := PeelTurn(alg, E, fs, maxRounds, found);
    }
  }

  /** The query on what is left threw. */
  ghost predicate StoppedBy(cfg: Config, E: set<Edge>, found: seq<Found>, last: Found)
    requires cfg.Valid()
  {
    QueryStep(cfg, LeftOf(E, found, |found|), last.before, last.mid) && !last.mid.valid
  }

  /** An exception has a cause: a mishap in the last run, or too few samples. */
  lemma StopsForAReason(cfg: Config, E: set<Edge>, found: seq<Found>, last: Found)
    requires cfg.Valid() && StoppedBy(cfg, E, found, last)
    ensures !(LuckOfPast(cfg, last.mid.past).Calm() && cfg.n < Pow2(cfg.p.samples))
  {
    assert Unfold(0);
  }

  datatype ForestsAnswer = Forests(fs: seq<set<Edge>>) | ForestsException

  /** `calc_disjoint_spanning_forests`. A normal return restores graph and sketches, and forests from sound runs are
      peeled off one by one; an exception leaves the forests found so far deleted, and comes only from a mishap in the
      last query or from too few samples. */
  method CalcDisjointSpanningForests(alg: CCSketchAlg, k: nat)
    returns (a: ForestsAnswer, ghost found: seq<Found>, ghost last: Found)
    requires alg.Valid() && alg.Flushed()
    modifies alg
    ensures alg.Valid() && alg.Flushed() && FoundOk(alg.cfg, old(alg.graph), found)
    ensures a.Forests? ==>
              |found| == k && a.fs == ForestsOf(found) && alg.graph == old(alg.graph) && alg.sks == old(alg.sks)
    ensures a.Forests? ==> alg.lastQueryRounds == MaxRounds(found)
    ensures a.ForestsException? ==>
              |found| < k && alg.graph == LeftOf(old(alg.graph), found, |found|) && alg.updateLocked
    ensures a.ForestsException? ==> StoppedBy(alg.cfg, old(alg.graph), found, last)
    ensures a.ForestsException? ==> !(LuckOfPast(alg.cfg, last.mid.past).Calm() && alg.cfg.n < Pow2(alg.cfg.p.samples))
    ensures AllSound(alg.cfg, old(alg.graph), found) ==> Peeled(old(alg.graph), ForestsOf(found))
    ensures |found| > 0 ==> found[0].before == old(alg.Cached())
    ensures |found| == 0 && a.ForestsException? ==> last.before == old(alg.Cached())
  {
    ghost var E := alg.graph;
    var ok, fs, maxRounds;
    ok, fs, maxRounds, found, last := PeelForests(alg, k);
    PeeledIfSound(alg.cfg, E, found);
    if !ok {
      StopsForAReason(alg.cfg, E, found, last);
      return ForestsException, found, last;
    }
    FoundNormal(alg.cfg, E, found);
    PutBack(alg, fs, E, old(alg.sks), old(alg.content));
    SetRounds(alg, maxRounds);
    a := Forests(fs);
  }

  method SetRounds(alg: CCSketchAlg, rounds: nat)
    requires alg.Valid() && alg.Flushed()
    modifies alg`lastQueryRounds
    ensures alg.Valid() && alg.Flushed() && alg.lastQueryRounds == rounds
  {
    RoundsFree(alg.cfg, alg.graph, alg.Cached(), rounds);
    alg.lastQueryRounds := rounds;
  }

  lemma RoundsFree(cfg: Config, E: set<Edge>, c: Cache, rounds: nat)
    requires cfg.Valid() && CacheOk(cfg, E, c)
    ensures CacheOk(cfg, E, c.(rounds := rounds))
  {
    assert Unfold(0);
  }

  lemma PeeledIfSound(cfg: Config, E: set<Edge>, found: seq<Found>)
    requires cfg.Valid() && FoundOk(cfg, E, found)
    ensures AllSound(cfg, E, found) ==> Peeled(E, ForestsOf(found))
  {
    if AllSound(cfg, E, found) {
      forall j: nat | j < |found| ensures SpansLeft(E, ForestsOf(found), j) { SoundSpans(cfg, E, found, j); }
      SpansArePeeled(E, ForestsOf(found), |found|);
      assert ForestsOf(found)[..|found|] == ForestsOf(found);
    }
  }

  /** The second loop: every deleted edge is inserted again. */
  method PutBack(alg: CCSketchAlg, fs: seq<set<Edge>>, ghost E: set<Edge>, ghost sks: seq<SketchVal>,
                 ghost content: seq<set<nat>>)
    requires alg.Valid() && alg.Flushed() && alg.graph == FlipAll(E, fs, |fs|)
    requires |content| == alg.cfg.n && Stands(alg.cfg.p, sks, content) && InStep(E, content)
    requires forall j :: 0 <= j < |fs| ==> NormalEdges(alg.cfg.n, fs[j])
    modifies alg
    ensures alg.Valid() && alg.Flushed() && alg.graph == E && alg.updateLocked == old(alg.updateLocked)
    ensures alg.sks == sks
  {
    ghost var D := alg.graph;
    var j := 0;
    while j < |fs|
      invariant j <= |fs| && alg.Valid() && alg.Flushed() && alg.graph == FlipAll(D, fs, j)
      invariant alg.updateLocked == old(alg.updateLocked)
    {
      ToggleEdges(alg, fs[j]);
      j := j + 1;
    }
    FlipTwice(E, fs);
    SketchesRestored(alg.cfg.p, E, sks, content, alg.sks, alg.content);
  }

  /** What the peeled forests guarantee to the caller. */
  lemma ForestsCertifyCuts(E: set<Edge>, Fs: seq<set<Edge>>, S: set<nat>)
    requires Peeled(E, Fs)
    ensures forall i, j :: 0 <= i < j < |Fs| ==> Fs[i] !! Fs[j]
    ensures |Cut(UnionOf(Fs, |Fs|), S)| >= if |Fs| <= |Cut(E, S)| then |Fs| else |Cut(E, S)|
    ensures UnionOf(Fs, |Fs|) <= E
  {
    forall i, j | 0 <= i < j < |Fs| ensures Fs[i] !! Fs[j] { PeeledDisjoint(E, Fs, i, j); }
    UnionKeepsCuts(E, Fs, |Fs|, S);
  }
}
