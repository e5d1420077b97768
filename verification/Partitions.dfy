/** Division of [0, n) among T threads (`get_ith_partition`, `get_partition_idx`) with the floating-point
    factor length / divisions taken as an exact rational, and the search for a root's last partition. */
module Partitions {
  import opened Arithmetic

  function CeilDiv(a: nat, b: nat): nat
    requires b > 0
  {
    (a + b - 1) / b
  }

  lemma DivBounds(a: nat, b: nat)
    requires b > 0
    ensures a / b * b <= a < a / b * b + b
  {
  }

  lemma LessByProduct(x: nat, y: nat, b: nat)
    requires b > 0 && x * b < y * b + b
    ensures x <= y
  {
    assert (y + 1) * b == y * b + b;
    if x >= y + 1 { MulMono(y + 1, x, b); assert false; }
  }

  /** ceil(a / b) is the least q with a <= q * b. */
  lemma CeilDivIsLeast(a: nat, b: nat, q: nat)
    requires b > 0
    ensures CeilDiv(a, b) <= q <==> a <= q * b
  {
    var c := CeilDiv(a, b);
    DivBounds(a + b - 1, b);
    if c <= q { MulMono(c, q, b); }
    if a <= q * b { LessByProduct(c, q, b); }
  }

  /** floor(a / b) is the greatest q with q * b <= a. */
  lemma FloorIsGreatest(a: nat, b: nat, q: nat)
    requires b > 0
    ensures q <= a / b <==> q * b <= a
  {
    DivBounds(a, b);
    if q <= a / b { MulMono(q, a / b, b); }
    if q * b <= a { LessByProduct(q, a / b, b); }
  }

  /** First position of part `i`; part `i` is [Start(i), Start(i + 1)). */
  function Start(n: nat, threads: nat, i: nat): nat
    requires threads > 0
  {
    CeilDiv(n * i, threads)
  }

  function PartIdx(n: nat, threads: nat, pos: nat): nat
    requires n > 0
  {
    pos * threads / n
  }

  /** `get_partition_idx` inverts `get_ith_partition`. */
  lemma PartIdxInverts(n: nat, threads: nat, i: nat, pos: nat)
    requires n > 0 && threads > 0
    ensures Start(n, threads, i) <= pos < Start(n, threads, i + 1) <==> PartIdx(n, threads, pos) == i
  {
    CeilDivIsLeast(n * i, threads, pos);
    CeilDivIsLeast(n * (i + 1), threads, pos);
    FloorIsGreatest(pos * threads, n, i);
    FloorIsGreatest(pos * threads, n, i + 1);
    assert n * i == i * n && n * (i + 1) == (i + 1) * n;
  }

  lemma LastStart(n: nat, threads: nat)
    requires n > 0 && threads > 0
    ensures Start(n, threads, threads) == n
  {
    CeilDivIsLeast(n * threads, threads, n);
    var q := Start(n, threads, threads);
    if q < n {
      CeilDivIsLeast(n * threads, threads, q);
      LessByProduct(n, q, threads);
      assert false;
    }
  }

  lemma NextStart(n: nat, threads: nat, i: nat)
    requires 0 < threads <= n && i < threads
    ensures Start(n, threads, i) < Start(n, threads, i + 1)
  {
    var s := Start(n, threads, i + 1);
    CeilDivIsLeast(n * (i + 1), threads, s);
    assert n * (i + 1) == n * i + n;
    assert s * threads >= n * i + threads;
    assert s > 0;
    CeilDivIsLeast(n * i, threads, s - 1);
    assert (s - 1) * threads == s * threads - threads;
  }

  /** The parts tile [0, n), in order. */
  lemma PartsTile(n: nat, threads: nat, i: nat)
    requires n > 0 && threads > 0 && i < threads
    ensures Start(n, threads, 0) == 0 && Start(n, threads, threads) == n
    ensures Start(n, threads, i) <= Start(n, threads, i + 1)
    ensures threads <= n ==> Start(n, threads, i) < Start(n, threads, i + 1)
  {
    CeilDivIsLeast(n * 0, threads, 0);
    LastStart(n, threads);
    var s := Start(n, threads, i + 1);
    CeilDivIsLeast(n * (i + 1), threads, s);
    CeilDivIsLeast(n * i, threads, s);
    assert n * (i + 1) == n * i + n;
    if threads <= n { NextStart(n, threads, i); }
  }

  lemma StartNear(n: nat, threads: nat, i: nat)
    requires threads > 0
    ensures n * i <= Start(n, threads, i) * threads < n * i + threads
  {
    DivBounds(n * i + threads - 1, threads);
  }

  /** The parts are as equal as possible: each has the average size, rounded down or up. */
  lemma PartsBalanced(n: nat, threads: nat, i: nat)
    requires threads > 0 && i < threads
    ensures n / threads <= Start(n, threads, i + 1) - Start(n, threads, i) <= CeilDiv(n, threads)
  {
    var a, b := Start(n, threads, i), Start(n, threads, i + 1);
    StartNear(n, threads, i);
    StartNear(n, threads, i + 1);
    assert n * (i + 1) == n * i + n;
    PartSize(a, b, n * i, n, threads);
  }

  lemma PartSize(a: nat, b: nat, at: nat, n: nat, k: nat)
    requires k > 0 && at <= a * k < at + k && at + n <= b * k < at + n + k
    ensures n / k <= b - a <= CeilDiv(n, k)
  {
    var q, c := n / k, CeilDiv(n, k);
    FloorIsGreatest(n, k, q);
    CeilDivIsLeast(n, k, c);
    assert (a + q) * k == a * k + q * k;
    assert (a + c) * k == a * k + c * k;
    LessByProduct(a + q, b, k);
    LessByProduct(b, a + c, k);
  }

  // ---------- part boundaries as a sequence ----------

  /** bounds[i] is where part i starts; every part is non-empty. */
  ghost predicate Bounds(bounds: seq<nat>, n: nat) {
    && |bounds| >= 2 && bounds[0] == 0 && bounds[|bounds| - 1] == n
    && forall i, j :: 0 <= i < j < |bounds| ==> bounds[i] < bounds[j]
  }

  function BoundsFn(n: nat, threads: nat): (b: seq<nat>)
    requires threads > 0
    ensures |b| == threads + 1
  {
    seq(threads + 1, i requires 0 <= i <= threads => Start(n, threads, i))
  }

  lemma {:induction false} StartStrict(n: nat, threads: nat, i: nat, j: nat)
    requires 0 < threads <= n && i < j <= threads
    ensures Start(n, threads, i) < Start(n, threads, j)
    decreases j
  {
    PartsTile(n, threads, j - 1);
    if i < j - 1 { StartStrict(n, threads, i, j - 1); }
  }

  lemma BoundsCorrect(n: nat, threads: nat)
    requires 0 < threads <= n
    ensures Bounds(BoundsFn(n, threads), n)
  {
    var b := BoundsFn(n, threads);
    PartsTile(n, threads, 0);
    forall i, j | 0 <= i < j < |b| ensures b[i] < b[j] {
      StartStrict(n, threads, i, j);
    }
  }

  /** The part that holds `pos`. */
  ghost predicate Owns(bounds: seq<nat>, t: nat, pos: nat) {
    t + 1 < |bounds| && bounds[t] <= pos < bounds[t + 1]
  }

  lemma PartIdxOwns(n: nat, threads: nat, pos: nat)
    requires 0 < threads <= n && pos < n
    ensures Owns(BoundsFn(n, threads), PartIdx(n, threads, pos), pos)
  {
    var i := PartIdx(n, threads, pos);
    PartIdxInverts(n, threads, i, pos);
    FloorIsGreatest(pos * threads, n, threads);
    MulMono(pos + 1, n, threads);
    assert (pos + 1) * threads == pos * threads + threads;
    assert n * threads == threads * n;
    assert i < threads;
  }

  lemma OwnsUnique(bounds: seq<nat>, n: nat, s: nat, t: nat, pos: nat)
    requires Bounds(bounds, n) && Owns(bounds, s, pos) && Owns(bounds, t, pos)
    ensures s == t
  {
  }

  // ---------- merge instructions ----------

  datatype MergeInstr = MergeInstr(root: nat, child: nat)

  /** `MergeInstr::operator<`. */
  predicate Less(a: MergeInstr, b: MergeInstr) {
    if a.root == b.root then a.child < b.child else a.root < b.root
  }

  ghost predicate SortedByRoot(m: seq<MergeInstr>) {
    forall i, j :: 0 <= i < j < |m| ==> m[i].root <= m[j].root
  }

  /** `pos` is the last position with this root. */
  predicate LastOf(m: seq<MergeInstr>, root: nat, pos: nat) {
    pos < |m| && m[pos].root == root && forall i :: pos < i < |m| ==> m[i].root != root
  }

  ghost predicate HasRoot(m: seq<MergeInstr>, root: nat) {
    exists i :: 0 <= i < |m| && m[i].root == root
  }

  /** First position with this root. */
  ghost function Lo(m: seq<MergeInstr>, root: nat): (i: nat)
    requires HasRoot(m, root)
    ensures i < |m| && m[i].root == root && forall j :: 0 <= j < i ==> m[j].root != root
  {
    LoExists(m, root, |m|);
    var i: nat :| i < |m| && m[i].root == root && forall j :: 0 <= j < i ==> m[j].root != root;
    i
  }

  lemma {:induction false} LoExists(m: seq<MergeInstr>, root: nat, k: nat)
    requires k <= |m| && exists i :: 0 <= i < k && m[i].root == root
    ensures exists i: nat :: i < |m| && m[i].root == root && forall j :: 0 <= j < i ==> m[j].root != root
  {
    var i: nat :| i < k && m[i].root == root;
    if j :| 0 <= j < i && m[j].root == root { LoExists(m, root, i); }
  }

  /** Last position with this root. */
  function Hi(m: seq<MergeInstr>, root: nat): (i: nat)
    requires HasRoot(m, root)
    ensures LastOf(m, root, i)
  {
    HiExists(m, root, 0);
    var i: nat :| i < |m| && LastOf(m, root, i);
    i
  }

  lemma {:induction false} HiExists(m: seq<MergeInstr>, root: nat, k: nat)
    requires exists i :: k <= i < |m| && m[i].root == root
    ensures exists i: nat :: i < |m| && LastOf(m, root, i)
    decreases |m| - k
  {
    var i :| k <= i < |m| && m[i].root == root;
    if j :| i < j < |m| && m[j].root == root { HiExists(m, root, i + 1); } else { assert LastOf(m, root, i); }
  }

  /** In a root-sorted list each root fills exactly the positions Lo..Hi. */
  lemma RunIsInterval(m: seq<MergeInstr>, root: nat, q: nat)
    requires SortedByRoot(m) && HasRoot(m, root) && q < |m|
    ensures m[q].root == root <==> Lo(m, root) <= q <= Hi(m, root)
  {
  }

  const NO_CHILD: nat := 0xFFFF_FFFF

  /** The binary search of `find_last_partition_of_root`. The list is sorted by root only, not by child. */
  method FindLastPosition(m: seq<MergeInstr>, root: nat, hint: nat) returns (pos: nat)
    requires SortedByRoot(m) && hint < |m|
    requires exists i :: hint <= i < |m| && m[i].root == root
    requires forall i :: 0 <= i < |m| ==> m[i].child < NO_CHILD
    ensures LastOf(m, root, pos) && hint <= pos
    ensures HasRoot(m, root) && pos == Hi(m, root)
  {
    var max := |m| - 1;
    var min := hint;
    var target := MergeInstr(root, NO_CHILD);
    ghost var w :| hint <= w < |m| && m[w].root == root;
    while min < max
      invariant hint <= min <= max < |m|
      invariant forall i :: hint <= i < min ==> m[i].root <= root
      invariant max == |m| - 1 || m[max].root > root
      invariant w <= max
    {
      var mid := min + (max - min) / 2;
      if Less(m[mid], target) {
        assert m[mid].root <= root;
        min := mid + 1;
      } else {
        assert m[mid].root > root;
        max := mid;
      }
    }
    if m[min].root != root {
      assert m[min].root > root && w < min;
      min := min - 1;
    }
    pos := min;
    assert m[pos].root == root;
  }

  /** The slot that collects a root: the part of its last position. */
  method FindLastPartition(m: seq<MergeInstr>, root: nat, hint: nat, threads: nat) returns (gid: nat)
    requires SortedByRoot(m) && hint < |m| && 0 < threads <= |m|
    requires exists i :: hint <= i < |m| && m[i].root == root
    requires forall i :: 0 <= i < |m| ==> m[i].child < NO_CHILD
    ensures HasRoot(m, root) && Owns(BoundsFn(|m|, threads), gid, Hi(m, root))
  {
    var pos := FindLastPosition(m, root, hint);
    gid := PartIdx(|m|, threads, pos);
    PartIdxOwns(|m|, threads, pos);
  }
}
