/** A graph, hashes and labels for which a query goes wrong without any checksum being fooled: two paths 0-...-5 and
    6-...-11 with the bridge 2-8 between them. Here: what the sketches of its cuts show. */
module TornGraph {
  import opened Arithmetic
  import opened Graphs
  import opened XorAlgebra
  import opened Sketches
  import opened Supernodes
  import opened Boruvka
  import opened DeepForests

  const N: nat := 12
  const GAP: nat := 5

  ghost function Inner(): set<Edge> { ChainEdges(11, GAP) }
  ghost function Bridged(): set<Edge> { Inner() + {Edge(2, 8)} }

  lemma {:induction false} EdgesOfChain(k: nat, e: Edge)
    ensures e in ChainEdges(k, GAP) <==> e.dst == e.src + 1 && e.src < k && e.src != GAP
  {
    if k > 0 { EdgesOfChain(k - 1, e); }
  }

  lemma BridgedSimple()
    ensures Simple(N, Bridged())
  {
    forall e | e in Bridged() ensures e.src < e.dst < N { EdgesOfChain(11, e); }
  }

  // ---------- indices and hashes ----------

  /** The index of the path edge i - (i + 1). */
  function PathId(i: nat): nat { i * WIDTH + (i + 1) }

  const BRIDGE: nat := 2 * WIDTH + 8

  /** Which path edge an index belongs to; 100 for none. */
  function PathOf(x: nat): nat { if x == PathId(x / WIDTH) then x / WIDTH else 100 }

  lemma PathOfId(i: nat)
    requires i < 11
    ensures PathId(i) / WIDTH == i && PathOf(PathId(i)) == i && EdgeId(Edge(i, i + 1)) == PathId(i)
    ensures EdgeAt(PathId(i)) == Edge(i, i + 1) && PathId(i) != BRIDGE && PathId(i) != 0
  {
    DivUnique(PathId(i), WIDTH, i, i + 1);
  }

  lemma BridgeId()
    ensures EdgeId(Edge(2, 8)) == BRIDGE && PathOf(BRIDGE) == 100
  {
    DivUnique(BRIDGE, WIDTH, 2, 8);
  }

  /** Neighbouring path edges have checksums 1 and 2. */
  function Checksum(x: nat): nat { if x == BRIDGE then 4 else if PathOf(x) % 2 == 1 then 2 else 1 }

  /** In which row of its column a path edge stands; 2 means in none. */
  function Row(col: nat, i: nat): nat {
    if col == 0 then (if i == 2 || i == 8 then 0 else if i == 1 || i == 3 || i == 7 || i == 9 then 1 else 2)
    else if i == 1 || i == 7 then 0 else 2
  }

  function RowHash(row: nat): nat { if row == 0 then 1 else if row == 1 then 2 else 4 }

  function DepthHash(col: nat, x: nat): nat { RowHash(Row(col, PathOf(x))) }

  /** Two samples of one column with two buckets each. */
  function P(): Params { Params(2, 1, 2, Checksum, DepthHash, false) }

  lemma Sizes()
    ensures P().Valid() && P().Len() == 5 && P().RoundSize() == 2
  {
  }

  lemma ZerosStep(h: nat, max: nat)
    ensures max == 0 || h % 2 == 1 ==> CappedTrailingZeros(h, max) == 0
    ensures max > 0 && h % 2 == 0 ==> CappedTrailingZeros(h, max) == 1 + CappedTrailingZeros(h / 2, max - 1)
  {
  }

  lemma OddZeros(h: nat, max: nat)
    requires max == 0 || h % 2 == 1
    ensures CappedTrailingZeros(h, max) == 0
  {
  }

  lemma TwoZeros()
    ensures CappedTrailingZeros(2, 2) == 1
  {
    ZerosStep(2, 2);
    OddZeros(1, 1);
  }

  lemma FourZeros()
    ensures CappedTrailingZeros(4, 2) == 2
  {
    ZerosStep(4, 2);
    ZerosStep(2, 1);
    OddZeros(1, 0);
  }

  lemma RowZeros(row: nat)
    requires row <= 2
    ensures CappedTrailingZeros(RowHash(row), 2) == row
  {
    if row == 0 {
      OddZeros(1, 2);
    } else if row == 1 {
      TwoZeros();
    } else {
      FourZeros();
    }
  }

  lemma RowIsDepth(col: nat, x: nat)
    ensures Depth(P(), col, x) == Row(col, PathOf(x))
  {
    HashDepth(P(), col, x, Row(col, PathOf(x)));
  }

  lemma HashDepth(p: Params, col: nat, x: nat, row: nat)
    requires p.height == 2 && row <= 2 && p.columnHash(col, x) == RowHash(row)
    ensures Depth(p, col, x) == row
  {
    RowZeros(row);
  }

  lemma HitsRow(k: nat, x: nat)
    requires k < 4
    ensures P().Valid() && (Hit(P(), k, x) <==> Row(k / 2, PathOf(x)) == k % 2)
  {
    Sizes();
    RowIsDepth(k / 2, x);
  }

  // ---------- cuts with one or two path edges ----------

  ghost function Ids(i: nat, j: nat, bridge: bool): set<nat> {
    if bridge then {PathId(i), PathId(j), BRIDGE} else {PathId(i), PathId(j)}
  }

  lemma SlotOfPair(i: nat, j: nat, bridge: bool, k: nat)
    requires i < 11 && j < 11 && i != j && k < 4
    ensures P().Valid()
    ensures Filter(P(), k, Ids(i, j, bridge))
         == (if Row(k / 2, i) == k % 2 then {PathId(i)} else {}) + (if Row(k / 2, j) == k % 2 then {PathId(j)} else {})
  {
    PathOfId(i);
    PathOfId(j);
    BridgeId();
    forall x | x in Ids(i, j, bridge) ensures Hit(P(), k, x) <==> Row(k / 2, PathOf(x)) == k % 2 { HitsRow(k, x); }
  }

  lemma ChecksumOfTwo(a: nat, b: nat)
    requires a != b && ((Checksum(a) == 1 && Checksum(b) == 2) || (Checksum(a) == 2 && Checksum(b) == 1))
    ensures Content({a, b}, Checksum).gamma == 3
  {
    ContentSingleton(a, Checksum);
    ContentToggle({a}, Checksum, b);
    assert Toggle({a}, b) == {a, b};
    assert Xor(1, 2) == 3 && Xor(2, 1) == 3;
  }

  /** The deterministic bucket is neither empty nor good: no index has checksum 3 or 7. */
  lemma LastOfPair(i: nat, j: nat, bridge: bool)
    requires i < 11 && j < 11 && i % 2 != j % 2
    ensures var g := Content(Ids(i, j, bridge), Checksum).gamma; g == 3 || g == 7
  {
    PathOfId(i);
    PathOfId(j);
    ChecksumOfTwo(PathId(i), PathId(j));
    if bridge {
      ContentToggle({PathId(i), PathId(j)}, Checksum, BRIDGE);
      assert Toggle({PathId(i), PathId(j)}, BRIDGE) == Ids(i, j, bridge);
      assert Xor(3, 4) == 7;
    }
  }

  /** Edge `i` stands above edge `j` in column `r`. */
  predicate StandsOut(i: nat, j: nat, r: nat) {
    i < 11 && j < 11 && i % 2 != j % 2 && r < 2 && Row(r, i) < 2 && Row(r, i) < Row(r, j)
  }

  lemma SlotsOfPair(i: nat, j: nat, bridge: bool, r: nat)
    requires StandsOut(i, j, r)
    ensures P().Valid() && Filter(P(), 2 * r + Row(r, i), Ids(i, j, bridge)) == {PathId(i)}
    ensures Row(r, i) == 1 ==> Filter(P(), 2 * r, Ids(i, j, bridge)) == {}
  {
    SlotOfPair(i, j, bridge, 2 * r);
    SlotOfPair(i, j, bridge, 2 * r + 1);
  }

  lemma BucketsOfPair(i: nat, j: nat, bridge: bool, r: nat)
    requires StandsOut(i, j, r)
    ensures P().Valid() && P().Len() == 5
    ensures var b := SketchOf(P(), Ids(i, j, bridge));
            && b[2 * r + Row(r, i)] == Item(PathId(i), Checksum) && (b[4].gamma == 3 || b[4].gamma == 7)
            && (Row(r, i) == 1 ==> b[2 * r] == ZERO)
  {
    Sizes();
    SlotsOfPair(i, j, bridge, r);
    LastOfPair(i, j, bridge);
    ContentSingleton(PathId(i), Checksum);
    SketchSlot(P(), Ids(i, j, bridge), 2 * r + Row(r, i));
    SketchSlot(P(), Ids(i, j, bridge), 2 * r);
    SketchSlot(P(), Ids(i, j, bridge), 4);
    DeterministicBucket(P(), Ids(i, j, bridge));
  }

  lemma SketchSlot(p: Params, X: set<nat>, k: nat)
    requires p.Valid() && k < p.Len()
    ensures SketchOf(p, X)[k] == Content(Filter(p, k, X), p.hash)
  {
  }

  /** Sampling round `r` returns the edge that stands out. */
  lemma PairShows(i: nat, j: nat, bridge: bool, r: nat)
    requires StandsOut(i, j, r)
    ensures P().Valid() && SampleAt(P(), SketchOf(P(), Ids(i, j, bridge)), r) == Good(PathId(i))
  {
    BucketsOfPair(i, j, bridge, r);
    Sizes();
    FirstIs(SketchOf(P(), Ids(i, j, bridge)), r, 2 * r + Row(r, i), PathId(i));
  }

  lemma FirstIs(b: seq<Bucket>, r: nat, k: nat, x: nat)
    requires |b| == 5 && r < 2 && 2 * r <= k < 2 * r + 2 && b[k] == Item(x, Checksum)
    requires (b[4].gamma == 3 || b[4].gamma == 7) && (k == 2 * r + 1 ==> b[2 * r] == ZERO)
    ensures P().Valid() && P().Len() == 5 && SampleAt(P(), b, r) == Good(x)
  {
    Sizes();
    RoundFits(P(), r);
    assert r * P().RoundSize() == 2 * r && (r + 1) * P().RoundSize() == 2 * r + 2;
    var f := FirstGood(P(), b, 2 * r, 2 * r + 2);
    assert IsGood(P(), b[k]) && !IsGood(P(), ZERO) && !IsGood(P(), b[4]);
    assert f == k;
  }

  lemma SlotFaithful(i: nat, j: nat, bridge: bool, r: nat, k: nat)
    requires StandsOut(i, j, r) && (k == 2 * r || k == 2 * r + 1)
    ensures P().Valid() && Faithful(P(), Filter(P(), k, Ids(i, j, bridge)))
  {
    Sizes();
    PathOfId(i);
    PathOfId(j);
    SlotOfPair(i, j, bridge, k);
    var S := Filter(P(), k, Ids(i, j, bridge));
    ContentSingleton(PathId(i), Checksum);
    ContentSingleton(PathId(j), Checksum);
    assert S == {} || S == {PathId(i)} || S == {PathId(j)};
  }

  lemma PairFaithful(i: nat, j: nat, bridge: bool, r: nat)
    requires StandsOut(i, j, r)
    ensures P().Valid() && FaithfulAt(P(), Ids(i, j, bridge), r)
  {
    Sizes();
    var X := Ids(i, j, bridge);
    LastOfPair(i, j, bridge);
    DeterministicBucket(P(), X);
    forall k | 0 <= k < P().Len() && InRound(P(), k, r) ensures Faithful(P(), Filter(P(), k, X)) {
      assert r * P().RoundSize() == 2 * r && (r + 1) * P().RoundSize() == 2 * r + 2;
      if k != 4 { SlotFaithful(i, j, bridge, r, k); }
    }
  }

  /** A single edge is always shown. */
  lemma SingleShows(i: nat, r: nat)
    requires i < 11 && r < 2
    ensures P().Valid() && SampleAt(P(), SketchOf(P(), {PathId(i)}), r) == Good(PathId(i))
    ensures FaithfulAt(P(), {PathId(i)}, r)
  {
    Sizes();
    PathOfId(i);
    SmallVectorsExact(P(), {PathId(i)}, PathId(i), r);
    forall k | 0 <= k < P().Len() && InRound(P(), k, r) ensures Faithful(P(), Filter(P(), k, {PathId(i)})) {
      ContentSingleton(PathId(i), Checksum);
      assert Filter(P(), k, {PathId(i)}) == {} || Filter(P(), k, {PathId(i)}) == {PathId(i)};
    }
  }

  // ---------- the cuts of the two rounds ----------

  /** The path edge that vertex `v` shows in round zero. */
  function ShownBy(v: nat): nat { if v == 3 then 2 else if v == 4 then 3 else if v == 5 then 4 else if v == 9 then 8
                                  else if v == 10 then 9 else if v == 11 then 10 else v }

  /** The other path edge at a vertex inside its path. */
  function HiddenBy(v: nat): nat { if PathEnd(v) then ShownBy(v) else if ShownBy(v) == v then v - 1 else v }

  predicate PathEnd(v: nat) { v == 0 || v == 5 || v == 6 || v == 11 }

  ghost function AtVertex(v: nat): set<nat>
    requires v < N
  {
    if PathEnd(v) then {PathId(ShownBy(v))} else Ids(ShownBy(v), HiddenBy(v), v == 2 || v == 8)
  }

  lemma EdgesAt(v: nat, e: Edge)
    requires v < N
    ensures e in Cut(Bridged(), {v}) <==>
            || e == Edge(ShownBy(v), ShownBy(v) + 1)
            || (!PathEnd(v) && e == Edge(HiddenBy(v), HiddenBy(v) + 1))
            || ((v == 2 || v == 8) && e == Edge(2, 8))
  {
    EdgesOfChain(11, e);
  }

  lemma CutAtVertex(v: nat)
    requires v < N
    ensures CutIds(Bridged(), {v}) == AtVertex(v)
  {
    BridgeId();
    PathOfId(ShownBy(v));
    if !PathEnd(v) { PathOfId(HiddenBy(v)); }
    forall x: nat ensures x in CutIds(Bridged(), {v}) <==> x in AtVertex(v) { IdsAtVertex(v, x); }
  }

  lemma IdsAtVertex(v: nat, x: nat)
    requires v < N
    ensures x in CutIds(Bridged(), {v}) <==> x in AtVertex(v)
  {
    BridgeId();
    PathOfId(ShownBy(v));
    if !PathEnd(v) { PathOfId(HiddenBy(v)); }
    var K := Cut(Bridged(), {v});
    EdgesAt(v, Edge(ShownBy(v), ShownBy(v) + 1));
    EdgesAt(v, Edge(HiddenBy(v), HiddenBy(v) + 1));
    EdgesAt(v, Edge(2, 8));
    if x in CutIds(Bridged(), {v}) {
      var e :| e in K && EdgeId(e) == x;
      EdgesAt(v, e);
    }
    assert EdgeId(Edge(ShownBy(v), ShownBy(v) + 1)) in CutIds(Bridged(), {v});
    if !PathEnd(v) { assert EdgeId(Edge(HiddenBy(v), HiddenBy(v) + 1)) in CutIds(Bridged(), {v}); }
    if v == 2 || v == 8 { assert EdgeId(Edge(2, 8)) in CutIds(Bridged(), {v}); }
  }

  lemma InnerStandsOut(v: nat)
    requires v < N && !PathEnd(v)
    ensures StandsOut(ShownBy(v), HiddenBy(v), 0)
  {
  }

  /** Round zero: every vertex shows a path edge of its own, and no inspected bucket is unfaithful. */
  lemma VertexShows(v: nat)
    requires v < N
    ensures P().Valid() && OutcomeOf(P(), 0, Bridged(), {v}) == Sampled(Good(PathId(ShownBy(v))))
    ensures FaithfulAt(P(), CutIds(Bridged(), {v}), 0)
  {
    Sizes();
    CutAtVertex(v);
    if PathEnd(v) {
      SingleShows(ShownBy(v), 0);
    } else {
      InnerStandsOut(v);
      PairShows(ShownBy(v), HiddenBy(v), v == 2 || v == 8, 0);
      PairFaithful(ShownBy(v), HiddenBy(v), v == 2 || v == 8, 0);
    }
  }

  // ---------- round one: labels that split both paths ----------

  /** Vertices 2 and 8 get the root's child as label, all others their root. */
  function LabelOf(v: nat): nat { if v == 2 then 4 else if v == 8 then 10 else if v < 6 then 5 else 11 }

  predicate Label(root: nat) { root == 4 || root == 5 || root == 10 || root == 11 }

  ghost function Members(root: nat): set<nat> { set v: nat | v < N && LabelOf(v) == root }

  /** The path edges that leave a group: i and i + 1. */
  function LeftEdge(root: nat): nat { if root <= 5 then 1 else 7 }

  lemma EdgesOfGroup(root: nat, e: Edge)
    requires Label(root)
    ensures e in Cut(Bridged(), Members(root)) <==>
            || e == Edge(LeftEdge(root), LeftEdge(root) + 1) || e == Edge(LeftEdge(root) + 1, LeftEdge(root) + 2)
            || ((root == 4 || root == 10) && e == Edge(2, 8))
  {
    BridgedSimple();
    EdgesOfChain(11, e);
  }

  lemma CutOfGroup(root: nat)
    requires Label(root)
    ensures CutIds(Bridged(), Members(root)) == Ids(LeftEdge(root), LeftEdge(root) + 1, root == 4 || root == 10)
  {
    forall x: nat
      ensures x in CutIds(Bridged(), Members(root)) <==>
          x in Ids(LeftEdge(root), LeftEdge(root) + 1, root == 4 || root == 10)
    {
      IdsOfGroup(root, x);
    }
  }

  lemma IdsOfGroup(root: nat, x: nat)
    requires Label(root)
    ensures x in CutIds(Bridged(), Members(root)) <==>
        x in Ids(LeftEdge(root), LeftEdge(root) + 1, root == 4 || root == 10)
  {
    var i := LeftEdge(root);
    BridgeId();
    PathOfId(i);
    PathOfId(i + 1);
    EdgesOfGroup(root, Edge(i, i + 1));
    EdgesOfGroup(root, Edge(i + 1, i + 2));
    EdgesOfGroup(root, Edge(2, 8));
    if x in CutIds(Bridged(), Members(root)) {
      var e :| e in Cut(Bridged(), Members(root)) && EdgeId(e) == x;
      EdgesOfGroup(root, e);
    }
    assert EdgeId(Edge(i, i + 1)) in CutIds(Bridged(), Members(root));
    assert EdgeId(Edge(i + 1, i + 2)) in CutIds(Bridged(), Members(root));
    if root == 4 || root == 10 { assert EdgeId(Edge(2, 8)) in CutIds(Bridged(), Members(root)); }
  }

  /** Round one: every group shows an edge inside its own path, never the bridge. */
  lemma GroupShows(root: nat)
    requires Label(root)
    ensures P().Valid() && OutcomeOf(P(), 1, Bridged(), Members(root)) == Sampled(Good(PathId(LeftEdge(root))))
    ensures FaithfulAt(P(), CutIds(Bridged(), Members(root)), 1)
  {
    Sizes();
    CutOfGroup(root);
    var i := LeftEdge(root);
    assert StandsOut(i, i + 1, 1);
    PairShows(i, i + 1, root == 4 || root == 10, 1);
    PairFaithful(i, i + 1, root == 4 || root == 10, 1);
  }
}
