/** The parallel counting sort that rebuilds the merge list after a round (`create_merge_instructions`).
    Threads run each phase between two barriers in any order; the atomic reservations interleave freely. */
module CountingSort {
  import opened Partitions
  import opened DisjointSets

  /** Every vertex appears exactly once as a child. */
  ghost predicate EachOnce(m: seq<MergeInstr>) {
    && (forall q :: 0 <= q < |m| ==> m[q].child < |m|)
    && (forall a, b :: 0 <= a < b < |m| ==> m[a].child != m[b].child)
    && (forall v :: 0 <= v < |m| ==> ListsChild(m, v))
  }

  ghost predicate ListsChild(m: seq<MergeInstr>, v: nat) {
    exists q :: 0 <= q < |m| && m[q].child == v
  }

  /** What the next round relies on: sorted by root, every vertex once, next to its own root. */
  ghost predicate ListOf(m: seq<MergeInstr>, find: seq<nat>) {
    && |m| == |find| && SortedByRoot(m) && EachOnce(m)
    && (forall q :: 0 <= q < |m| ==> m[q].root == find[m[q].child])
  }

  predicate Distinct(s: seq<nat>) { forall a, b :: 0 <= a < b < |s| ==> s[a] != s[b] }

  // ---------- phase 1: every thread groups the vertices of its part by root ----------

  datatype Key = Key(t: nat, root: nat)

  /** The children at positions lo..hi-1 whose root is `root`, in order. */
  function Group(m: seq<MergeInstr>, find: seq<nat>, lo: nat, hi: nat, root: nat): (g: seq<nat>)
    requires hi <= |m| && forall q :: 0 <= q < |m| ==> m[q].child < |find|
    decreases hi
  {
    if hi <= lo then []
    else Group(m, find, lo, hi - 1, root) + (if find[m[hi - 1].child] == root then [m[hi - 1].child] else [])
  }

  ghost predicate ListedIn(m: seq<MergeInstr>, lo: nat, hi: nat, v: nat) {
    exists q :: lo <= q < hi <= |m| && m[q].child == v
  }

  lemma {:induction false} GroupMembers(m: seq<MergeInstr>, find: seq<nat>, lo: nat, hi: nat, root: nat, v: nat)
    requires hi <= |m| && forall q :: 0 <= q < |m| ==> m[q].child < |find|
    ensures v in Group(m, find, lo, hi, root) <==> ListedIn(m, lo, hi, v) && v < |find| && find[v] == root
    decreases hi
  {
    if lo < hi {
      GroupMembers(m, find, lo, hi - 1, root, v);
      if ListedIn(m, lo, hi, v) {
        var q :| lo <= q < hi && m[q].child == v;
        if q < hi - 1 { assert ListedIn(m, lo, hi - 1, v); }
      }
      if ListedIn(m, lo, hi - 1, v) {
        var q :| lo <= q < hi - 1 && m[q].child == v;
        assert ListedIn(m, lo, hi, v);
      }
      if m[hi - 1].child == v { assert ListedIn(m, lo, hi, v); }
    }
  }

  lemma {:induction false} GroupDistinct(m: seq<MergeInstr>, find: seq<nat>, lo: nat, hi: nat, root: nat)
    requires hi <= |m| == |find| && EachOnce(m)
    ensures Distinct(Group(m, find, lo, hi, root))
    decreases hi
  {
    if lo < hi {
      GroupDistinct(m, find, lo, hi - 1, root);
      var g, v := Group(m, find, lo, hi - 1, root), m[hi - 1].child;
      GroupMembers(m, find, lo, hi - 1, root, v);
    }
  }

  /** The map holds exactly the non-empty groups of positions lo..hi-1. Unfolded only in proofs that mention `Open`. */
  ghost predicate PartMap(m: seq<MergeInstr>, find: seq<nat>, lo: nat, hi: nat, g: map<nat, seq<nat>>)
    requires hi <= |m| && forall q :: 0 <= q < |m| ==> m[q].child < |find|
  {
    forall k {:trigger Open(k)} :: Open(k) ==>
      && (forall root :: root in g ==> g[root] == Group(m, find, lo, hi, root) && g[root] != [])
      && (forall root: nat :: root !in g ==> Group(m, find, lo, hi, root) == [])
  }

  ghost predicate Open(k: nat) { true }

  /** A new group for a root not met before, or one more child in its group. */
  function AddChild(g: map<nat, seq<nat>>, root: nat, child: nat): map<nat, seq<nat>> {
    if root !in g then g[root := [child]] else g[root := g[root] + [child]]
  }

  lemma PartMapEmpty(m: seq<MergeInstr>, find: seq<nat>, lo: nat)
    requires lo <= |m| && forall q :: 0 <= q < |m| ==> m[q].child < |find|
    ensures PartMap(m, find, lo, lo, map[])
  {
  }

  lemma GroupNext(m: seq<MergeInstr>, find: seq<nat>, lo: nat, i: nat, root: nat)
    requires lo <= i < |m| && forall q :: 0 <= q < |m| ==> m[q].child < |find|
    ensures Group(m, find, lo, i + 1, root) == Group(m, find, lo, i,
                                                     root) + if find[m[i].child] == root then [m[i].child] else []
  {
  }

  lemma PartMapNext(m: seq<MergeInstr>, find: seq<nat>, lo: nat, i: nat, g: map<nat, seq<nat>>)
    requires lo <= i < |m| && (forall q :: 0 <= q < |m| ==> m[q].child < |find|) && PartMap(m, find, lo, i, g)
    ensures PartMap(m, find, lo, i + 1, AddChild(g, find[m[i].child], m[i].child))
  {
    var g' := AddChild(g, find[m[i].child], m[i].child);
    forall root | root in g' ensures g'[root] == Group(m, find, lo, i + 1, root) && g'[root] != [] {
      PartMapOne(m, find, lo, i, g, root);
    }
    forall root: nat | root !in g' ensures Group(m, find, lo, i + 1, root) == [] {
      PartMapOne(m, find, lo, i, g, root);
    }
  }

  lemma PartMapOne(m: seq<MergeInstr>, find: seq<nat>, lo: nat, i: nat, g: map<nat, seq<nat>>, root: nat)
    requires lo <= i < |m| && (forall q :: 0 <= q < |m| ==> m[q].child < |find|) && PartMap(m, find, lo, i, g)
    ensures var g' := AddChild(g, find[m[i].child], m[i].child);
            Group(m, find, lo, i + 1, root) == (if root in g' then g'[root] else []) && (root in g' ==> g'[root] != [])
  {
    assert Open(0);
    GroupNext(m, find, lo, i, root);
  }

  method GroupPart(m: array<MergeInstr>, find: seq<nat>, lo: nat, hi: nat) returns (g: map<nat, seq<nat>>)
    requires lo <= hi <= m.Length && forall q :: 0 <= q < m.Length ==> m[q].child < |find|
    ensures PartMap(m[..], find, lo, hi, g)
  {
    g := map[];
    var i := lo;
    ghost var s := m[..];
    PartMapEmpty(s, find, lo);
    while i < hi
      invariant lo <= i <= hi && PartMap(s, find, lo, i, g)
    {
      PartMapNext(s, find, lo, i, g);
      var child := m[i].child;
      g := AddChild(g, find[child], child);
      i := i + 1;
    }
  }

  ghost predicate KeyOf(bounds: seq<nat>, k: Key, n: nat) {
    k.t + 1 < |bounds| && bounds[k.t] <= bounds[k.t + 1] <= n && k.root < n
  }

  ghost function KeyGroup(m: seq<MergeInstr>, find: seq<nat>, bounds: seq<nat>, k: Key): seq<nat>
    requires forall q :: 0 <= q < |m| ==> m[q].child < |find|
  {
    if KeyOf(bounds, k, |m|) then Group(m, find, bounds[k.t], bounds[k.t + 1], k.root) else []
  }

  /** All non-empty groups of all threads. */
  ghost predicate Grouped(m: seq<MergeInstr>, find: seq<nat>, bounds: seq<nat>, threads: nat,
                          groups: map<Key, seq<nat>>)
    requires forall q :: 0 <= q < |m| ==> m[q].child < |find|
  {
    forall o {:trigger Open(o)} :: Open(o) ==>
      && (forall k :: k in groups ==> k.t < threads && groups[k] != [] && groups[k] == KeyGroup(m, find, bounds, k))
      && (forall k: Key :: k !in groups && k.t < threads ==> KeyGroup(m, find, bounds, k) == [])
  }

  lemma GroupInRange(m: seq<MergeInstr>, find: seq<nat>, lo: nat, hi: nat, root: nat)
    requires hi <= |m| == |find| && (forall q :: 0 <= q < |m| ==> m[q].child < |find|)
    requires (forall v :: 0 <= v < |find| ==> find[v] < |find|)
    requires Group(m, find, lo, hi, root) != []
    ensures root < |find|
  {
    GroupMembers(m, find, lo, hi, root, Group(m, find, lo, hi, root)[0]);
  }

  /** The groups of threads before `t`, and those of thread `t`. */
  function WithThread(groups: map<Key, seq<nat>>, t: nat, g: map<nat, seq<nat>>): (all: map<Key, seq<nat>>)
    ensures forall k :: k in all <==> (k.t == t && k.root in g) || k in groups
    ensures forall k :: k in all ==> all[k] == if k.t == t && k.root in g then g[k.root] else groups[k]
  {
    groups + map root | root in g :: Key(t, root) := g[root]
  }

  lemma GroupedNext(m: seq<MergeInstr>, find: seq<nat>, bounds: seq<nat>, t: nat, groups: map<Key, seq<nat>>,
                    g: map<nat, seq<nat>>)
    requires |m| == |find| && (forall q :: 0 <= q < |m| ==> m[q].child < |find|)
    requires (forall v :: 0 <= v < |find| ==> find[v] < |find|)
    requires Grouped(m, find, bounds, t, groups) && t + 1 < |bounds| && bounds[t] <= bounds[t + 1] <= |m|
    requires PartMap(m, find, bounds[t], bounds[t + 1], g)
    ensures Grouped(m, find, bounds, t + 1, WithThread(groups, t, g))
  {
    assert Open(0);
    forall k: Key | k.t == t ensures KeyGroup(m, find, bounds, k) == if k.root in g then g[k.root] else [] {
      if k.root in g { GroupInRange(m, find, bounds[t], bounds[t + 1], k.root); }
    }
  }

  method GroupAll(m: array<MergeInstr>, find: seq<nat>, bounds: seq<nat>) returns (groups: map<Key, seq<nat>>)
    requires Bounds(bounds, m.Length) && m.Length == |find|
    requires forall q :: 0 <= q < m.Length ==> m[q].child < |find|
    requires forall v :: 0 <= v < |find| ==> find[v] < |find|
    ensures Grouped(m[..], find, bounds, |bounds| - 1, groups)
  {
    groups := map[];
    var t := 0;
    while t < |bounds| - 1
      invariant t <= |bounds| - 1
      invariant Grouped(m[..], find, bounds, t, groups)
    {
      PartsOrdered(bounds, m.Length, t);
      var g := GroupPart(m, find, bounds[t], bounds[t + 1]);
      GroupedNext(m[..], find, bounds, t, groups, g);
      groups := WithThread(groups, t, g);
      t := t + 1;
    }
  }

  lemma PartsOrdered(bounds: seq<nat>, n: nat, t: nat)
    requires Bounds(bounds, n) && t + 1 < |bounds|
    ensures bounds[t] < bounds[t + 1] <= n
  {
    if t + 1 < |bounds| - 1 { assert bounds[t + 1] < bounds[|bounds| - 1]; }
  }

  // ---------- phase 2: atomic reservations ----------

  /** No vertex is in two groups or twice in one. */
  ghost predicate DisjointGroups(groups: map<Key, seq<nat>>, n: nat) {
    && (forall k :: k in groups ==> k.root < n && Distinct(groups[k]))
    && (forall j, k, v :: j in groups && k in groups && j.root == k.root && v in groups[j] && v in groups[k] ==> j == k)
  }

  ghost predicate FromGroup(groups: map<Key, seq<nat>>, idx: map<Key, nat>, root: nat, v: nat) {
    exists k :: k in idx && k in groups && k.root == root && v in groups[k]
  }

  /** The reserved groups of a root lie one after the other in its slot, each where its thread was told. */
  ghost predicate Reserved(groups: map<Key, seq<nat>>, idx: map<Key, nat>, slots: seq<seq<nat>>) {
    && (forall k :: k in idx ==> k in groups && k.root < |slots| && GroupAt(slots[k.root], idx[k], groups[k]))
    && (forall r, o :: 0 <= r < |slots| && 0 <= o < |slots[r]| ==> FromGroup(groups, idx, r, slots[r][o]))
    && (forall r :: 0 <= r < |slots| ==> Distinct(slots[r]))
  }

  ghost predicate GroupAt(s: seq<nat>, at: nat, g: seq<nat>) {
    at + |g| <= |s| && s[at..at + |g|] == g
  }

  lemma ReserveOne(groups: map<Key, seq<nat>>, idx: map<Key, nat>, slots: seq<seq<nat>>, k: Key)
    requires Reserved(groups, idx, slots) && DisjointGroups(groups, |slots|) && k in groups && k !in idx
    ensures Reserved(groups, idx[k := |slots[k.root]|], slots[k.root := slots[k.root] + groups[k]])
  {
    var s, g := slots[k.root], groups[k];
    var idx', slots' := idx[k := |s|], slots[k.root := s + g];
    forall j | j in idx' ensures j in groups && j.root < |slots'| && GroupAt(slots'[j.root], idx'[j], groups[j]) {
      if j == k {
        assert (s + g)[|s|..|s| + |g|] == g;
      } else if j.root == k.root {
        assert GroupAt(s, idx[j], groups[j]);
        assert (s + g)[idx[j]..idx[j] + |groups[j]|] == s[idx[j]..idx[j] + |groups[j]|];
      }
    }
    forall r, o | 0 <= r < |slots'| && 0 <= o < |slots'[r]| ensures FromGroup(groups, idx', r, slots'[r][o]) {
      if r == k.root && o >= |s| {
        assert slots'[r][o] == g[o - |s|];
      } else {
        assert FromGroup(groups, idx, r, slots[r][o]);
        var j :| j in idx && j in groups && j.root == r && slots[r][o] in groups[j];
        assert j in idx';
      }
    }
    forall r | 0 <= r < |slots'| ensures Distinct(slots'[r]) {
      if r == k.root { AppendDistinct(groups, idx, slots, k); }
    }
  }

  lemma AppendDistinct(groups: map<Key, seq<nat>>, idx: map<Key, nat>, slots: seq<seq<nat>>, k: Key)
    requires Reserved(groups, idx, slots) && DisjointGroups(groups, |slots|) && k in groups && k !in idx
    ensures Distinct(slots[k.root] + groups[k])
  {
    var s, g := slots[k.root], groups[k];
    forall a, b | 0 <= a < b < |s + g| ensures (s + g)[a] != (s + g)[b] {
      if a < |s| <= b {
        assert FromGroup(groups, idx, k.root, s[a]);
        var j :| j in idx && j in groups && j.root == k.root && s[a] in groups[j];
        assert g[b - |s|] in g;
      }
    }
  }

  /** `idx = cc_prefix[root]; cc_prefix[root] += size` for every group of every thread, in any order. */
  method Reserve(cc: array<nat>, groups: map<Key, seq<nat>>) returns (idx: map<Key, nat>, ghost slots: seq<seq<nat>>)
    requires DisjointGroups(groups, cc.Length) && forall r :: 0 <= r < cc.Length ==> cc[r] == 0
    modifies cc
    ensures idx.Keys == groups.Keys && |slots| == cc.Length && Reserved(groups, idx, slots)
    ensures forall r :: 0 <= r < cc.Length ==> cc[r] == |slots[r]|
  {
    idx := map[];
    slots := seq(cc.Length, r => []);
    var todo := groups.Keys;
    while todo != {}
      invariant todo <= groups.Keys && idx.Keys == groups.Keys - todo && |slots| == cc.Length
      invariant Reserved(groups, idx, slots)
      invariant forall r :: 0 <= r < cc.Length ==> cc[r] == |slots[r]|
    {
      var k :| k in todo;
      ReserveOne(groups, idx, slots, k);
      idx := idx[k := cc[k.root]];
      cc[k.root] := cc[k.root] + |groups[k]|;
      slots := slots[k.root := slots[k.root] + groups[k]];
      todo := todo - {k};
    }
  }

  // ---------- phase 3: the chunked prefix sum ----------

  function Sum(s: seq<nat>, k: nat): nat
    requires k <= |s|
  {
    if k == 0 then 0 else Sum(s, k - 1) + s[k - 1]
  }

  /** One thread sums up its own chunk. */
  method SumChunk(cc: array<nat>, lo: nat, hi: nat)
    requires lo < hi <= cc.Length
    modifies cc
    ensures forall i :: 0 <= i < cc.Length && !(lo <= i < hi) ==> cc[i] == old(cc[i])
    ensures forall i :: lo <= i < hi ==> cc[i] + Sum(old(cc[..]), lo) == Sum(old(cc[..]), i + 1)
  {
    ghost var was := cc[..];
    var i := lo + 1;
    while i < hi
      invariant lo < i <= hi
      invariant forall j :: 0 <= j < cc.Length && !(lo <= j < i) ==> cc[j] == was[j]
      invariant forall j :: lo <= j < i ==> cc[j] + Sum(was, lo) == Sum(was, j + 1)
    {
      assert cc[i] == was[i] && cc[i - 1] + Sum(was, lo) == Sum(was, i);
      cc[i] := cc[i] + cc[i - 1];
      i := i + 1;
    }
  }

  /** The result of summing each chunk on its own. */
  ghost predicate ChunkSummed(was: seq<nat>, now: seq<nat>, lo: nat, hi: nat) {
    |was| == |now| && hi <= |was| && forall i :: lo <= i < hi ==> now[i] + Sum(was, lo) == Sum(was, i + 1)
  }

  ghost predicate ChunkSame(was: seq<nat>, now: seq<nat>, lo: nat, hi: nat) {
    |was| == |now| && hi <= |was| && forall i :: lo <= i < hi ==> now[i] == was[i]
  }

  ghost predicate ChunkTotal(was: seq<nat>, now: seq<nat>, lo: nat, hi: nat) {
    |was| == |now| && hi <= |was| && forall i :: lo <= i < hi ==> now[i] == Sum(was, i + 1)
  }

  lemma {:induction false} SumSame(a: seq<nat>, b: seq<nat>, lo: nat, k: nat)
    requires lo <= k <= |a| == |b| && forall i :: lo <= i < k ==> a[i] == b[i]
    ensures Sum(a, k) - Sum(a, lo) == Sum(b, k) - Sum(b, lo)
    decreases k
  {
    if lo < k { SumSame(a, b, lo, k - 1); }
  }

  lemma SummedAlike(was: seq<nat>, mid: seq<nat>, now: seq<nat>, lo: nat, hi: nat)
    requires |was| == |mid| && lo <= hi <= |was| && ChunkSame(was, mid, lo, hi) && ChunkSummed(mid, now, lo, hi)
    ensures ChunkSummed(was, now, lo, hi)
  {
    forall i | lo <= i < hi ensures now[i] + Sum(was, lo) == Sum(was, i + 1) {
      SumSame(was, mid, lo, i + 1);
    }
  }

  /** Threads in `todo` have not touched their chunk yet; the others have summed it. */
  ghost predicate SummedBut(was: seq<nat>, now: seq<nat>, bounds: seq<nat>, todo: set<nat>) {
    forall t :: 0 <= t < |bounds| - 1 ==>
      if t in todo then ChunkSame(was, now, bounds[t], bounds[t + 1])
      else ChunkSummed(was, now, bounds[t], bounds[t + 1])
  }

  lemma SummedNext(was: seq<nat>, mid: seq<nat>, now: seq<nat>, bounds: seq<nat>, todo: set<nat>, t: nat)
    requires Bounds(bounds, |was|) && t + 1 < |bounds| && SummedBut(was, mid, bounds, todo) && t in todo
    requires |now| == |mid|
    requires ChunkSummed(mid, now, bounds[t], bounds[t + 1])
    requires forall i :: 0 <= i < |now| && !(bounds[t] <= i < bounds[t + 1]) ==> now[i] == mid[i]
    ensures SummedBut(was, now, bounds, todo - {t})
  {
    PartsOrdered(bounds, |was|, t);
    assert ChunkSame(was, mid, bounds[t], bounds[t + 1]);
    SummedAlike(was, mid, now, bounds[t], bounds[t + 1]);
    forall u | 0 <= u < |bounds| - 1 && u != t
      ensures if u in todo then ChunkSame(was, now, bounds[u], bounds[u + 1])
              else ChunkSummed(was, now, bounds[u], bounds[u + 1])
    {
      PartsApart(bounds, |was|, t, u);
    }
  }

  /** All threads, in any order. */
  method SumChunks(cc: array<nat>, bounds: seq<nat>)
    requires Bounds(bounds, cc.Length)
    modifies cc
    ensures SummedBut(old(cc[..]), cc[..], bounds, {})
  {
    ghost var was := cc[..];
    var todo := Upto(0, |bounds| - 1);
    assert SummedBut(was, cc[..], bounds, todo) by {
      forall t | 0 <= t < |bounds| - 1 ensures ChunkSame(was, cc[..], bounds[t], bounds[t + 1]) {
        PartsOrdered(bounds, |was|, t);
      }
    }
    while todo != {}
      invariant todo <= Upto(0, |bounds| - 1) && SummedBut(was, cc[..], bounds, todo)
    {
      var t :| t in todo;
      PartsOrdered(bounds, cc.Length, t);
      ghost var mid := cc[..];
      SumChunk(cc, bounds[t], bounds[t + 1]);
      SummedNext(was, mid, cc[..], bounds, todo, t);
      todo := todo - {t};
    }
  }

  lemma PartsApart(bounds: seq<nat>, n: nat, t: nat, u: nat)
    requires Bounds(bounds, n) && t + 1 < |bounds| && u + 1 < |bounds| && t != u
    ensures bounds[t + 1] <= bounds[u] || bounds[u + 1] <= bounds[t]
    ensures bounds[u + 1] <= n && bounds[t + 1] <= n
  {
    PartsOrdered(bounds, n, t);
    PartsOrdered(bounds, n, u);
    if t < u { if t + 1 < u { assert bounds[t + 1] < bounds[u]; } }
    else if u + 1 < t { assert bounds[u + 1] < bounds[t]; }
  }

  /** The single-threaded sums over the chunks before each thread. */
  method RangeSums(cc: array<nat>, bounds: seq<nat>, ghost was: seq<nat>) returns (sums: seq<nat>)
    requires Bounds(bounds, cc.Length) && |was| == cc.Length
    requires SummedBut(was, cc[..], bounds, {})
    ensures |sums| == |bounds| - 1
    ensures forall t :: 0 <= t < |sums| ==> bounds[t] <= |was| && sums[t] == Sum(was, bounds[t])
  {
    sums := [0];
    var t := 1;
    PartsOrdered(bounds, cc.Length, 0);
    while t < |bounds| - 1
      invariant 1 <= t == |sums| <= |bounds| - 1
      invariant forall u :: 0 <= u < t ==> bounds[u] <= |was| && sums[u] == Sum(was, bounds[u])
    {
      PartsOrdered(bounds, cc.Length, t - 1);
      assert ChunkSummed(was, cc[..], bounds[t - 1], bounds[t - 1 + 1]);
      sums := sums + [cc[bounds[t] - 1] + sums[t - 1]];
      t := t + 1;
    }
  }

  method AddToChunk(cc: array<nat>, lo: nat, hi: nat, x: nat)
    requires lo <= hi <= cc.Length
    modifies cc
    ensures forall i :: 0 <= i < cc.Length ==> cc[i] == old(cc[i]) + if lo <= i < hi then x else 0
  {
    var i := lo;
    while i < hi
      invariant lo <= i <= hi
      invariant forall j :: 0 <= j < cc.Length ==> cc[j] == old(cc[j]) + if lo <= j < i then x else 0
    {
      cc[i] := cc[i] + x;
      i := i + 1;
    }
  }

  /** Threads in `todo` still have to add the sum of the chunks before theirs. */
  ghost predicate TotalBut(was: seq<nat>, now: seq<nat>, bounds: seq<nat>, todo: set<nat>) {
    forall t :: 0 <= t < |bounds| - 1 ==>
      if t in todo then ChunkSummed(was, now, bounds[t], bounds[t + 1])
      else ChunkTotal(was, now, bounds[t], bounds[t + 1])
  }

  lemma TotalNext(was: seq<nat>, mid: seq<nat>, now: seq<nat>, bounds: seq<nat>, todo: set<nat>, t: nat, x: nat)
    requires Bounds(bounds, |was|) && t + 1 < |bounds| && TotalBut(was, mid, bounds, todo) && t in todo
    requires |now| == |mid|
    requires bounds[t] <= |was| && x == Sum(was, bounds[t])
    requires forall i :: 0 <= i < |now| ==> now[i] == mid[i] + if bounds[t] <= i < bounds[t + 1] then x else 0
    ensures TotalBut(was, now, bounds, todo - {t})
  {
    PartsOrdered(bounds, |was|, t);
    assert ChunkSummed(was, mid, bounds[t], bounds[t + 1]);
    forall u | 0 <= u < |bounds| - 1 && u != t
      ensures if u in todo then ChunkSummed(was, now, bounds[u], bounds[u + 1])
              else ChunkTotal(was, now, bounds[u], bounds[u + 1])
    {
      PartsApart(bounds, |was|, t, u);
    }
  }

  lemma AllTotal(was: seq<nat>, now: seq<nat>, bounds: seq<nat>)
    requires Bounds(bounds, |was|) && |now| == |was| && TotalBut(was, now, bounds, {})
    ensures forall i :: 0 <= i < |was| ==> now[i] == Sum(was, i + 1)
  {
    forall i | 0 <= i < |was| ensures now[i] == Sum(was, i + 1) {
      var t := OwnerExists(bounds, |was|, i);
      assert ChunkTotal(was, now, bounds[t], bounds[t + 1]);
    }
  }

  /** The chunked prefix sum is the sequential one. */
  method PrefixSums(cc: array<nat>, bounds: seq<nat>)
    requires Bounds(bounds, cc.Length)
    modifies cc
    ensures forall i :: 0 <= i < cc.Length ==> cc[i] == Sum(old(cc[..]), i + 1)
  {
    ghost var was := cc[..];
    SumChunks(cc, bounds);
    var sums := RangeSums(cc, bounds, was);
    var todo := Upto(1, |bounds| - 1);
    while todo != {}
      invariant todo <= Upto(1, |bounds| - 1) && TotalBut(was, cc[..], bounds, todo)
    {
      var t :| t in todo;
      PartsOrdered(bounds, cc.Length, t);
      ghost var mid := cc[..];
      AddToChunk(cc, bounds[t], bounds[t + 1], sums[t]);
      TotalNext(was, mid, cc[..], bounds, todo, t, sums[t]);
      todo := todo - {t};
    }
    AllTotal(was, cc[..], bounds);
  }

  /** Some part holds every position. */
  lemma {:induction false} OwnerBelow(bounds: seq<nat>, n: nat, i: nat, k: nat) returns (t: nat)
    requires Bounds(bounds, n) && 0 < k < |bounds| && i < bounds[k]
    ensures t < k && bounds[t] <= i < bounds[t + 1]
    decreases k
  {
    if bounds[k - 1] <= i { t := k - 1; } else { t := OwnerBelow(bounds, n, i, k - 1); }
  }

  lemma OwnerExists(bounds: seq<nat>, n: nat, i: nat) returns (t: nat)
    requires Bounds(bounds, n) && i < n
    ensures t + 1 < |bounds| && bounds[t] <= i < bounds[t + 1]
  {
    t := OwnerBelow(bounds, n, i, |bounds| - 1);
  }

  // ---------- phase 4: every thread writes its groups to their places ----------

  /** The slots of all roots below `r`, one after the other. */
  ghost function Flat(slots: seq<seq<nat>>, r: nat): seq<MergeInstr>
    requires r <= |slots|
  {
    if r == 0 then [] else Flat(slots, r - 1) + Tagged(r - 1, slots[r - 1])
  }

  function Tagged(root: nat, s: seq<nat>): (t: seq<MergeInstr>)
    ensures |t| == |s| && forall o :: 0 <= o < |s| ==> t[o] == MergeInstr(root, s[o])
  {
    seq(|s|, o requires 0 <= o < |s| => MergeInstr(root, s[o]))
  }

  lemma {:induction false} FlatLength(slots: seq<seq<nat>>, sizes: seq<nat>, r: nat)
    requires r <= |slots| == |sizes| && forall i :: 0 <= i < |slots| ==> sizes[i] == |slots[i]|
    ensures |Flat(slots, r)| == Sum(sizes, r)
  {
    if r > 0 { FlatLength(slots, sizes, r - 1); }
  }

  /** Entry `o` of the slot of `root` is at the place reserved for it. */
  lemma {:induction false} FlatAt(slots: seq<seq<nat>>, r: nat, root: nat, o: nat)
    requires root < r <= |slots| && o < |slots[root]|
    ensures |Flat(slots, root)| + |slots[root]| <= |Flat(slots, r)|
    ensures Flat(slots, r)[|Flat(slots, root)| + o] == MergeInstr(root, slots[root][o])
    decreases r
  {
    if root < r - 1 { FlatAt(slots, r - 1, root, o); }
  }

  lemma {:induction false} FlatWhere(slots: seq<seq<nat>>, r: nat, q: nat) returns (root: nat, o: nat)
    requires r <= |slots| && q < |Flat(slots, r)|
    ensures root < r && o < |slots[root]| && q == |Flat(slots, root)| + o
    ensures Flat(slots, r)[q] == MergeInstr(root, slots[root][o])
  {
    if q < |Flat(slots, r - 1)| {
      root, o := FlatWhere(slots, r - 1, q);
    } else {
      root, o := r - 1, q - |Flat(slots, r - 1)|;
    }
  }

  lemma {:induction false} FlatSorted(slots: seq<seq<nat>>, r: nat)
    requires r <= |slots|
    ensures SortedByRoot(Flat(slots, r)) && forall q :: 0 <= q < |Flat(slots, r)| ==> Flat(slots, r)[q].root < r
  {
    if r > 0 { FlatSorted(slots, r - 1); }
  }

  /** Slot r holds each vertex whose root is r, once. */
  ghost predicate Sorted(find: seq<nat>, slots: seq<seq<nat>>) {
    && |slots| == |find|
    && (forall r :: 0 <= r < |slots| ==> Distinct(slots[r]))
    && (forall r, o :: 0 <= r < |slots| && 0 <= o < |slots[r]| ==> slots[r][o] < |find| && find[slots[r][o]] == r)
    && (forall v :: 0 <= v < |find| ==> find[v] < |find| && v in slots[find[v]])
  }

  lemma FlatDistinct(find: seq<nat>, slots: seq<seq<nat>>, a: nat, b: nat)
    requires Sorted(find, slots) && a < b < |Flat(slots, |slots|)|
    ensures Flat(slots, |slots|)[a].child != Flat(slots, |slots|)[b].child
  {
    var ra, oa := FlatWhere(slots, |slots|, a);
    var rb, ob := FlatWhere(slots, |slots|, b);
  }

  ghost function ChildSet(m: seq<MergeInstr>, k: nat): set<nat>
    requires k <= |m|
  {
    if k == 0 then {} else ChildSet(m, k - 1) + {m[k - 1].child}
  }

  lemma {:induction false} ChildSetSize(m: seq<MergeInstr>, k: nat)
    requires k <= |m| && forall a, b :: 0 <= a < b < |m| ==> m[a].child != m[b].child
    ensures |ChildSet(m, k)| == k
    ensures forall v :: v in ChildSet(m, k) <==> ListedIn(m, 0, k, v)
  {
    if k > 0 {
      ChildSetSize(m, k - 1);
      var S, v := ChildSet(m, k - 1), m[k - 1].child;
      forall x ensures x in S + {v} <==> ListedIn(m, 0, k, x) {
        if ListedIn(m, 0, k, x) {
          var q :| 0 <= q < k && m[q].child == x;
          if q < k - 1 { assert ListedIn(m, 0, k - 1, x); }
        }
        if x in S { var q :| 0 <= q < k - 1 && m[q].child == x; assert ListedIn(m, 0, k, x); }
      }
    }
  }

  lemma FlatListed(find: seq<nat>, slots: seq<seq<nat>>, v: nat)
    requires Sorted(find, slots) && v < |find|
    ensures ListsChild(Flat(slots, |slots|), v)
  {
    var r := find[v];
    assert v in slots[r];
    var o :| 0 <= o < |slots[r]| && slots[r][o] == v;
    FlatAt(slots, |slots|, r, o);
  }

  /** The flattened slots are the list the next round needs. */
  lemma FlatIsList(find: seq<nat>, slots: seq<seq<nat>>)
    requires Sorted(find, slots)
    ensures ListOf(Flat(slots, |slots|), find)
  {
    var m := Flat(slots, |slots|);
    FlatSorted(slots, |slots|);
    forall a, b | 0 <= a < b < |m| ensures m[a].child != m[b].child { FlatDistinct(find, slots, a, b); }
    forall v | 0 <= v < |find| ensures ListsChild(m, v) { FlatListed(find, slots, v); }
    forall q | 0 <= q < |m| ensures m[q].child < |find| && m[q].root == find[m[q].child] {
      var r, o := FlatWhere(slots, |slots|, q);
    }
    ListLength(m, |find|);
  }

  /** Distinct children that are exactly 0..n-1 make a list of length n. */
  lemma ListLength(m: seq<MergeInstr>, n: nat)
    requires forall a, b :: 0 <= a < b < |m| ==> m[a].child != m[b].child
    requires forall q :: 0 <= q < |m| ==> m[q].child < n
    requires forall v :: 0 <= v < n ==> ListsChild(m, v)
    ensures |m| == n
  {
    ChildSetSize(m, |m|);
    var S := ChildSet(m, |m|);
    forall v: nat ensures v in S <==> v < n {
      if v < n { assert ListsChild(m, v); assert ListedIn(m, 0, |m|, v); }
      if ListedIn(m, 0, |m|, v) { var q :| 0 <= q < |m| && m[q].child == v; }
    }
    FullRangeSize(S, n);
  }

  /** Groups of all threads, each reserved, fill the slots completely. */
  lemma ReservedIsSorted(m: seq<MergeInstr>, find: seq<nat>, bounds: seq<nat>, groups: map<Key, seq<nat>>,
                         idx: map<Key, nat>, slots: seq<seq<nat>>)
    requires |m| == |find| == |slots| && EachOnce(m) && Bounds(bounds, |m|)
    requires forall v :: 0 <= v < |find| ==> find[v] < |find|
    requires Grouped(m, find, bounds, |bounds| - 1, groups)
    requires Reserved(groups, idx, slots) && idx.Keys == groups.Keys
    ensures Sorted(find, slots)
  {
    forall r, o | 0 <= r < |slots| && 0 <= o < |slots[r]| ensures slots[r][o] < |find| && find[slots[r][o]] == r {
      assert FromGroup(groups, idx, r, slots[r][o]);
      var k :| k in idx && k in groups && k.root == r && slots[r][o] in groups[k];
      MemberListed(m, find, bounds, groups, k, slots[r][o]);
    }
    forall v | 0 <= v < |find| ensures find[v] < |find| && v in slots[find[v]] {
      var k, j := GroupOf(m, find, bounds, groups, v);
      InSlot(slots[k.root], idx[k], groups[k], j);
    }
  }

  lemma InSlot(s: seq<nat>, at: nat, g: seq<nat>, j: nat)
    requires GroupAt(s, at, g) && j < |g|
    ensures g[j] in s
  {
    assert s[at..at + |g|][j] == s[at + j];
  }

  lemma GroupOf(m: seq<MergeInstr>, find: seq<nat>, bounds: seq<nat>, groups: map<Key, seq<nat>>, v: nat)
    returns (k: Key, j: nat)
    requires |m| == |find| && EachOnce(m) && Bounds(bounds, |m|) && v < |find|
    requires forall v :: 0 <= v < |find| ==> find[v] < |find|
    requires Grouped(m, find, bounds, |bounds| - 1, groups)
    ensures k in groups && k.root == find[v] && j < |groups[k]| && groups[k][j] == v
  {
    assert Open(0);
    assert ListsChild(m, v);
    var q :| 0 <= q < |m| && m[q].child == v;
    var t := OwnerExists(bounds, |m|, q);
    PartsOrdered(bounds, |m|, t);
    k := Key(t, find[v]);
    assert KeyOf(bounds, k, |m|);
    assert ListedIn(m, bounds[t], bounds[t + 1], v);
    GroupMembers(m, find, bounds[t], bounds[t + 1], find[v], v);
    j :| 0 <= j < |groups[k]| && groups[k][j] == v;
  }

  lemma GroupsDisjoint(m: seq<MergeInstr>, find: seq<nat>, bounds: seq<nat>, groups: map<Key, seq<nat>>)
    requires |m| == |find| && EachOnce(m) && Bounds(bounds, |m|)
    requires Grouped(m, find, bounds, |bounds| - 1, groups)
    ensures DisjointGroups(groups, |m|)
  {
    assert Open(0);
    forall k | k in groups ensures k.root < |m| && Distinct(groups[k]) {
      GroupDistinct(m, find, bounds[k.t], bounds[k.t + 1], k.root);
    }
    forall j, k, v | j in groups && k in groups && j.root == k.root && v in groups[j] && v in groups[k] ensures j == k {
      SameGroup(m, find, bounds, groups, j, k, v);
    }
  }

  lemma SameGroup(m: seq<MergeInstr>, find: seq<nat>, bounds: seq<nat>, groups: map<Key, seq<nat>>, j: Key, k: Key,
                  v: nat)
    requires |m| == |find| && EachOnce(m) && Bounds(bounds, |m|)
    requires Grouped(m, find, bounds, |bounds| - 1, groups)
    requires j in groups && k in groups && j.root == k.root && v in groups[j] && v in groups[k]
    ensures j == k
  {
    MemberListed(m, find, bounds, groups, j, v);
    MemberListed(m, find, bounds, groups, k, v);
    SamePart(m, bounds, j.t, k.t, v);
  }

  lemma MemberListed(m: seq<MergeInstr>, find: seq<nat>, bounds: seq<nat>, groups: map<Key, seq<nat>>, k: Key, v: nat)
    requires |m| == |find| && (forall q :: 0 <= q < |m| ==> m[q].child < |find|)
    requires |bounds| > 0 && Grouped(m, find, bounds, |bounds| - 1, groups) && k in groups && v in groups[k]
    ensures k.t + 1 < |bounds| && ListedIn(m, bounds[k.t], bounds[k.t + 1], v) && v < |find| && find[v] == k.root
  {
    assert Open(0);
    assert groups[k] == KeyGroup(m, find, bounds, k);
    GroupMembers(m, find, bounds[k.t], bounds[k.t + 1], k.root, v);
  }

  lemma SamePart(m: seq<MergeInstr>, bounds: seq<nat>, t: nat, u: nat, v: nat)
    requires EachOnce(m) && Bounds(bounds, |m|) && t + 1 < |bounds| && u + 1 < |bounds|
    requires ListedIn(m, bounds[t], bounds[t + 1], v) && ListedIn(m, bounds[u], bounds[u + 1], v)
    ensures t == u
  {
    var a :| bounds[t] <= a < bounds[t + 1] <= |m| && m[a].child == v;
    var b :| bounds[u] <= b < bounds[u + 1] <= |m| && m[b].child == v;
    assert a == b;
  }

  lemma PlaceOk(slots: seq<seq<nat>>, groups: map<Key, seq<nat>>, idx: map<Key, nat>, k: Key, j: nat)
    requires Reserved(groups, idx, slots) && k in idx && j < |groups[k]|
    ensures |Flat(slots, k.root)| + idx[k] + |groups[k]| <= |Flat(slots, |slots|)|
    ensures Flat(slots, |slots|)[|Flat(slots, k.root)| + idx[k] + j] == MergeInstr(k.root, groups[k][j])
  {
    var s, g := slots[k.root], groups[k];
    assert GroupAt(s, idx[k], g);
    assert s[idx[k]..idx[k] + |g|][j] == s[idx[k] + j];
    FlatAt(slots, |slots|, k.root, idx[k] + j);
  }

  /** One thread writes one group. */
  method WriteGroup(m: array<MergeInstr>, root: nat, g: seq<nat>, at: nat)
    requires at + |g| <= m.Length
    modifies m
    ensures forall q :: 0 <= q < m.Length ==>
              m[q] == if at <= q < at + |g| then MergeInstr(root, g[q - at]) else old(m[q])
  {
    var j := 0;
    while j < |g|
      invariant j <= |g|
      invariant forall q :: 0 <= q < m.Length ==>
          m[q] == if at <= q < at + j then MergeInstr(root, g[q - at]) else old(m[q])
    {
      m[at + j] := MergeInstr(root, g[j]);
      j := j + 1;
    }
  }

  /** Position q already holds its final entry whenever its group has been written. */
  ghost predicate WrittenBut(now: seq<MergeInstr>, slots: seq<seq<nat>>, groups: map<Key, seq<nat>>, idx: map<Key, nat>,
                             todo: set<Key>) {
    && |now| == |Flat(slots, |slots|)|
    && forall q :: 0 <= q < |now| ==> now[q] == Flat(slots, |slots|)[q] || PlaceOf(slots, groups, idx, todo, q)
  }

  /** Position q belongs to one of the groups `ks`. */
  ghost predicate PlaceOf(slots: seq<seq<nat>>, groups: map<Key, seq<nat>>, idx: map<Key, nat>, ks: set<Key>, q: nat) {
    exists k :: k in ks && k in groups && k in idx && k.root < |slots|
      && |Flat(slots, k.root)| + idx[k] <= q < |Flat(slots, k.root)| + idx[k] + |groups[k]|
  }

  lemma EveryPlace(slots: seq<seq<nat>>, groups: map<Key, seq<nat>>, idx: map<Key, nat>, q: nat)
    requires Reserved(groups, idx, slots) && q < |Flat(slots, |slots|)|
    ensures PlaceOf(slots, groups, idx, idx.Keys, q)
  {
    var r, o := FlatWhere(slots, |slots|, q);
    assert FromGroup(groups, idx, r, slots[r][o]);
    var k :| k in idx && k in groups && k.root == r && slots[r][o] in groups[k];
    var j :| 0 <= j < |groups[k]| && groups[k][j] == slots[r][o];
    assert GroupAt(slots[r], idx[k], groups[k]);
    assert slots[r][idx[k]..idx[k] + |groups[k]|][j] == slots[r][idx[k] + j];
    assert Distinct(slots[r]);
    assert idx[k] + j == o;
  }

  lemma WriteNext(was: seq<MergeInstr>, now: seq<MergeInstr>, slots: seq<seq<nat>>, groups: map<Key, seq<nat>>,
                  idx: map<Key, nat>,
                  todo: set<Key>, k: Key, at: nat)
    requires Reserved(groups, idx, slots) && k in todo && k in idx && WrittenBut(was, slots, groups, idx, todo)
    requires |now| == |was| && at == |Flat(slots, k.root)| + idx[k]
    requires forall q :: 0 <= q < |now| ==>
        now[q] == if at <= q < at + |groups[k]| then MergeInstr(k.root, groups[k][q - at]) else was[q]
    ensures WrittenBut(now, slots, groups, idx, todo - {k})
  {
    forall q | 0 <= q < |now| ensures now[q] == Flat(slots, |slots|)[q] || PlaceOf(slots, groups, idx, todo - {k}, q) {
      if at <= q < at + |groups[k]| {
        PlaceOk(slots, groups, idx, k, q - at);
      } else if was[q] != Flat(slots, |slots|)[q] {
        var j :| j in todo && j in groups && j in idx && j.root < |slots|
          && |Flat(slots, j.root)| + idx[j] <= q < |Flat(slots, j.root)| + idx[j] + |groups[j]|;
        assert j in todo - {k};
      }
    }
  }

  /** All groups, in any order, to the places their prefix sums and reservations give. */
  method Place(m: array<MergeInstr>, cc: array<nat>, groups: map<Key, seq<nat>>, idx: map<Key, nat>,
               ghost slots: seq<seq<nat>>)
    requires Reserved(groups, idx, slots) && idx.Keys == groups.Keys && |slots| == cc.Length
    requires forall r :: 0 <= r < cc.Length ==> cc[r] == |Flat(slots, r + 1)|
    requires m.Length == |Flat(slots, |slots|)|
    modifies m
    ensures m[..] == Flat(slots, |slots|)
  {
    var todo := groups.Keys;
    forall q | 0 <= q < m.Length ensures PlaceOf(slots, groups, idx, todo, q) { EveryPlace(slots, groups, idx, q); }
    while todo != {}
      invariant todo <= groups.Keys && WrittenBut(m[..], slots, groups, idx, todo)
    {
      var k :| k in todo;
      var at := idx[k];
      if k.root > 0 { at := at + cc[k.root - 1]; }
      assert at == |Flat(slots, k.root)| + idx[k];
      if groups[k] != [] { PlaceOk(slots, groups, idx, k, 0); } else { GroupFits(slots, groups, idx, k); }
      ghost var was := m[..];
      WriteGroup(m, k.root, groups[k], at);
      WriteNext(was, m[..], slots, groups, idx, todo, k, at);
      todo := todo - {k};
    }
  }

  lemma {:induction false} FlatMonotone(slots: seq<seq<nat>>, a: nat, b: nat)
    requires a <= b <= |slots|
    ensures |Flat(slots, a)| <= |Flat(slots, b)|
  {
    if a < b { FlatMonotone(slots, a, b - 1); }
  }

  lemma GroupFits(slots: seq<seq<nat>>, groups: map<Key, seq<nat>>, idx: map<Key, nat>, k: Key)
    requires Reserved(groups, idx, slots) && k in idx
    ensures |Flat(slots, k.root)| + idx[k] + |groups[k]| <= |Flat(slots, |slots|)|
  {
    assert GroupAt(slots[k.root], idx[k], groups[k]);
    FlatMonotone(slots, k.root + 1, |slots|);
  }

  /** `create_merge_instructions`: whatever the order of reservations and writes, the list ends up sorted by root
      with every vertex exactly once beside its own root. `find` are the answers of `find_root`. */
  method SortByLabels(m: array<MergeInstr>, find: seq<nat>, bounds: seq<nat>)
    requires Bounds(bounds, m.Length) && m.Length == |find| && EachOnce(m[..])
    requires forall v :: 0 <= v < |find| ==> find[v] < |find|
    modifies m
    ensures ListOf(m[..], find)
  {
    var cc := new nat[m.Length](_ => 0);
    var groups := GroupAll(m, find, bounds);
    GroupsDisjoint(m[..], find, bounds, groups);
    var idx, slots := Reserve(cc, groups);
    ReservedIsSorted(m[..], find, bounds, groups, idx, slots);
    FlatIsList(find, slots);
    ghost var sizes := cc[..];
    PrefixSums(cc, bounds);
    forall r | 0 <= r < cc.Length ensures cc[r] == |Flat(slots, r + 1)| { FlatLength(slots, sizes, r + 1); }
    Place(m, cc, groups, idx, slots);
  }
}
