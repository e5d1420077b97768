/** The root-sorted merge list divided among the threads: which parts a supernode spans. */
module MergeLists {
  import opened Partitions

  // A predicate whose body is guarded by `Look(k)` is unfolded only in proofs that mention `Look(k)`: most proofs
  // just pass these predicates on, and are far quicker when they stay folded.
  const LAYOUT: nat := 0
  const ROOT: nat := 1
  const THREAD: nat := 2
  ghost predicate Look(k: nat) { true }

  /** `part[q]` is the thread whose part holds position `q`. */
  datatype Layout = Layout(m: seq<MergeInstr>, bounds: seq<nat>, part: seq<nat>) {
    function N(): nat { |m| }
    function Threads(): nat { if |bounds| == 0 then 0 else |bounds| - 1 }

    /** The parts tile the root-sorted list. */
    ghost predicate Valid() {
      0 < N() == |part| && 2 <= |bounds| && forall k {:trigger Look(k)} :: Look(k) && k == LAYOUT ==> Tiled()
    }

    ghost predicate Tiled() {
      && Bounds(bounds, N())
      && |part| == N()
      && (forall q :: 0 <= q < N() ==> Owns(bounds, part[q], q))
      && SortedByRoot(m)
    }
  }

  /** The root at the head of part `t` continues from the part to its left. */
  predicate FromLeft(c: Layout, t: nat)
    requires t < |c.bounds| && c.bounds[t] < |c.m|
  {
    c.bounds[t] > 0 && c.m[c.bounds[t] - 1].root == c.m[c.bounds[t]].root
  }

  predicate ExitsRight(c: Layout, t: nat)
    requires t + 1 < |c.bounds| && 0 < c.bounds[t + 1]
  {
    c.bounds[t + 1] < |c.m| && c.m[c.bounds[t + 1] - 1].root == c.m[c.bounds[t + 1]].root
  }

  ghost function First(c: Layout, root: nat): nat
    requires |c.part| == |c.m| && HasRoot(c.m, root)
  {
    c.part[Lo(c.m, root)]
  }

  ghost function Last(c: Layout, root: nat): nat
    requires |c.part| == |c.m| && HasRoot(c.m, root)
  {
    c.part[Hi(c.m, root)]
  }

  /** Does part `t` hold a position of this root? */
  ghost predicate Has(c: Layout, t: nat, root: nat)
    requires |c.part| == |c.m|
  {
    exists q :: 0 <= q < |c.m| && c.m[q].root == root && c.part[q] == t
  }

  lemma PartMonotone(c: Layout, a: nat, b: nat)
    requires c.Valid() && a <= b < c.N()
    ensures c.part[a] <= c.part[b] < c.Threads()
  {
    assert Look(LAYOUT);
    assert Owns(c.bounds, c.part[a], a) && Owns(c.bounds, c.part[b], b);
  }

  lemma InPart(c: Layout, t: nat, q: nat)
    requires c.Valid() && t < c.Threads() && q < c.N()
    ensures c.part[q] == t <==> c.bounds[t] <= q < c.bounds[t + 1]
  {
    assert Look(LAYOUT);
    assert Owns(c.bounds, c.part[q], q);
    if c.bounds[t] <= q < c.bounds[t + 1] { OwnsUnique(c.bounds, c.N(), c.part[q], t, q); }
  }

  /** A root occupies exactly the parts First..Last. */
  lemma PartsOfRoot(c: Layout, root: nat, t: nat)
    requires c.Valid() && HasRoot(c.m, root)
    ensures First(c, root) <= Last(c, root) < c.Threads()
    ensures Has(c, t, root) <==> First(c, root) <= t <= Last(c, root)
  {
    assert Look(LAYOUT);
    var lo, hi := Lo(c.m, root), Hi(c.m, root);
    PartMonotone(c, lo, hi);
    if Has(c, t, root) {
      var q :| 0 <= q < |c.m| && c.m[q].root == root && c.part[q] == t;
      RunIsInterval(c.m, root, q);
      PartMonotone(c, lo, q);
      PartMonotone(c, q, hi);
    }
    if First(c, root) <= t <= Last(c, root) {
      assert Owns(c.bounds, c.part[lo], lo) && Owns(c.bounds, c.part[hi], hi);
      var q := if t == First(c, root) then lo else c.bounds[t];
      if t != First(c, root) {
        assert c.bounds[First(c, root) + 1] <= c.bounds[t];
        assert c.bounds[t] <= hi by { if t < Last(c, root) { assert c.bounds[t] < c.bounds[Last(c, root)]; } }
        assert c.bounds[t] < c.bounds[t + 1];
      }
      InPart(c, t, q);
      RunIsInterval(c.m, root, q);
      assert c.m[q].root == root && c.part[q] == t;
    }
  }

  /** Two roots that both span several parts never end in the same part. */
  lemma SlotsDistinct(c: Layout, a: nat, b: nat)
    requires c.Valid() && HasRoot(c.m, a) && HasRoot(c.m, b)
    requires First(c, a) < Last(c, a) && First(c, b) < Last(c, b) && Last(c, a) == Last(c, b)
    ensures a == b
  {
    HeadRoot(c, a);
    HeadRoot(c, b);
  }

  // A root that comes from an earlier part is the head root of its last part.
  lemma HeadRoot(c: Layout, root: nat)
    requires c.Valid() && HasRoot(c.m, root) && First(c, root) < Last(c, root)
    ensures Last(c, root) < c.Threads()
    ensures c.bounds[Last(c, root)] < c.N() && c.m[c.bounds[Last(c, root)]].root == root && FromLeft(c, Last(c, root))
  {
    PartsOfRoot(c, root, Last(c, root));
    HeadRootOf(c, root, Last(c, root));
  }

  lemma HeadRootOf(c: Layout, root: nat, t: nat)
    requires c.Valid() && HasRoot(c.m, root) && First(c, root) < t <= Last(c, root) && t < c.Threads()
    ensures c.bounds[t] < c.N() && c.m[c.bounds[t]].root == root && FromLeft(c, t)
  {
    assert Look(LAYOUT);
    var lo, hi := Lo(c.m, root), Hi(c.m, root);
    assert Owns(c.bounds, c.part[lo], lo) && Owns(c.bounds, c.part[hi], hi);
    assert c.bounds[First(c, root) + 1] <= c.bounds[t];
    assert c.bounds[t] <= hi by { if t < Last(c, root) { assert c.bounds[t] < c.bounds[Last(c, root)]; } }
    RunIsInterval(c.m, root, c.bounds[t]);
    RunIsInterval(c.m, root, c.bounds[t] - 1);
  }

  lemma PartNonEmpty(c: Layout, t: nat)
    requires c.Valid() && t < c.Threads()
    ensures c.bounds[t] < c.bounds[t + 1] <= c.N()
  {
    assert Look(LAYOUT);
    assert c.bounds[t] < c.bounds[t + 1];
    if t + 1 < c.Threads() { assert c.bounds[t + 1] < c.bounds[c.Threads()]; }
  }

  /** The head root of a part comes from the left exactly when it starts in an earlier part. */
  lemma FromLeftMeans(c: Layout, t: nat)
    requires c.Valid() && t < c.Threads()
    ensures c.bounds[t] < c.N()
    ensures var root := c.m[c.bounds[t]].root;
            HasRoot(c.m, root) && (FromLeft(c, t) <==> First(c, root) < t) && t <= Last(c, root)
  {
    assert Look(LAYOUT);
    PartNonEmpty(c, t);
    var s := c.bounds[t];
    var root := c.m[s].root;
    assert HasRoot(c.m, root);
    InPart(c, t, s);
    PartsOfRoot(c, root, t);
    assert Has(c, t, root);
    if FromLeft(c, t) {
      RunIsInterval(c.m, root, s - 1);
      PartMonotone(c, Lo(c.m, root), s - 1);
      InPart(c, t, s - 1);
      PartMonotone(c, s - 1, s);
    }
    if First(c, root) < t { HeadRootOf(c, root, t); }
  }

  lemma TailRoot(c: Layout, t: nat)
    requires c.Valid() && t < c.Threads()
    ensures 0 < c.bounds[t + 1] <= c.N()
    ensures var root := c.m[c.bounds[t + 1] - 1].root;
            HasRoot(c.m, root) && First(c, root) <= t <= Last(c, root)
  {
    PartNonEmpty(c, t);
    var e := c.bounds[t + 1];
    var root := c.m[e - 1].root;
    assert HasRoot(c.m, root);
    InPart(c, t, e - 1);
    PartsOfRoot(c, root, t);
    assert Has(c, t, root);
  }

  lemma GoesOn(c: Layout, t: nat)
    requires c.Valid() && t < c.Threads() && 0 < c.bounds[t + 1] && ExitsRight(c, t)
    ensures var root := c.m[c.bounds[t + 1] - 1].root; HasRoot(c.m, root) && t < Last(c, root)
  {
    assert Look(LAYOUT);
    var e := c.bounds[t + 1];
    var root := c.m[e].root;
    assert HasRoot(c.m, root);
    RunIsInterval(c.m, root, e);
    InPart(c, t, e);
    PartMonotone(c, e, Hi(c.m, root));
    TailRoot(c, t);
    PartsOfRoot(c, root, c.part[e]);
    InPart(c, t, e - 1);
    PartMonotone(c, e - 1, e);
  }

  /** The tail root of a part leaves to the right exactly when it ends in a later part. */
  lemma ExitsRightMeans(c: Layout, t: nat)
    requires c.Valid() && t < c.Threads()
    ensures 0 < c.bounds[t + 1] <= c.N()
    ensures var root := c.m[c.bounds[t + 1] - 1].root;
            HasRoot(c.m, root) && (ExitsRight(c, t) <==> t < Last(c, root)) && First(c, root) <= t <= Last(c, root)
  {
    TailRoot(c, t);
    var root := c.m[c.bounds[t + 1] - 1].root;
    if ExitsRight(c, t) { GoesOn(c, t); }
    if t < Last(c, root) {
      PartsOfRoot(c, root, t + 1);
      HeadRootOf(c, root, t + 1);
    }
  }
}
