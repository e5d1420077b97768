/** Half-edge updates tagged with the deepest subgraph they belong to, and the in-place merge of a sorted batch into
    a vertex buffer (`insert_adj_edges`). What the merge makes of them is proved in `BufferMerges`. */
module TaggedUpdates {

  /** `SubgraphTaggedUpdate`. */
  datatype Upd = Upd(subgraph: nat, dst: nat)

  predicate Before(a: Upd, b: Upd) {
    if a.subgraph == b.subgraph then a.dst < b.dst else a.subgraph < b.subgraph
  }

  /** `u` occurs an odd number of times. */
  ghost predicate Odd(s: seq<Upd>, u: Upd) { multiset(s)[u] % 2 == 1 }

  ghost predicate Sorted(s: seq<Upd>) {
    forall i, j :: 0 <= i < j < |s| ==> !Before(s[j], s[i])
  }

  // ---------- sorting a batch ----------

  function InsertSorted(x: Upd, s: seq<Upd>): seq<Upd> {
    if s == [] || !Before(s[0], x) then [x] + s else [s[0]] + InsertSorted(x, s[1..])
  }

  function SortUpdates(s: seq<Upd>): seq<Upd> {
    if s == [] then [] else InsertSorted(s[0], SortUpdates(s[1..]))
  }

  lemma {:induction false} InsertKeepsSorted(x: Upd, s: seq<Upd>)
    requires Sorted(s)
    ensures Sorted(InsertSorted(x, s)) && multiset(InsertSorted(x, s)) == multiset{x} + multiset(s)
  {
    if s != [] && Before(s[0], x) {
      InsertKeepsSorted(x, s[1..]);
      var t := InsertSorted(x, s[1..]);
      assert s == [s[0]] + s[1..];
      forall i | 0 <= i < |t| ensures !Before(t[i], s[0]) {
        assert t[i] in multiset(t);
        assert t[i] == x || t[i] in s[1..];
      }
    }
  }

  lemma {:induction false} SortIsSorted(s: seq<Upd>)
    ensures Sorted(SortUpdates(s)) && multiset(SortUpdates(s)) == multiset(s) && |SortUpdates(s)| == |s|
  {
    if s != [] {
      SortIsSorted(s[1..]);
      InsertKeepsSorted(s[0], SortUpdates(s[1..]));
      assert s == [s[0]] + s[1..];
    }
    assert |multiset(SortUpdates(s))| == |multiset(s)|;
  }

  // ---------- merging ----------

  /** What the merge makes of a buffer `b` and the updates `d`. The first update is carried along the buffer: the
      smaller of it and the next buffer entry is kept and the larger one carried on; when they are equal both vanish
      and the next update is carried. What is left over of the updates, or of the buffer, comes last. */
  function Merged(b: seq<Upd>, d: seq<Upd>): seq<Upd>
    decreases |b|
  {
    if d == [] then b
    else if b == [] then d
    else if Before(d[0], b[0]) then [d[0]] + Merged(b[1..], [b[0]] + d[1..])
    else if Before(b[0], d[0]) then [b[0]] + Merged(b[1..], d)
    else Merged(b[1..], d[1..])
  }

  /** The updates that vanish, one for each pair. */
  ghost function Gone(b: seq<Upd>, d: seq<Upd>): seq<Upd>
    decreases |b|
  {
    if d == [] || b == [] then []
    else if Before(d[0], b[0]) then Gone(b[1..], [b[0]] + d[1..])
    else if Before(b[0], d[0]) then Gone(b[1..], d)
    else [b[0]] + Gone(b[1..], d[1..])
  }

  lemma Apart(s: seq<Upd>)
    requires s != []
    ensures s == [s[0]] + s[1..] && multiset(s) == multiset{s[0]} + multiset(s[1..])
  {
    assert s == [s[0]] + s[1..];
  }

  lemma ConsCount(x: Upd, s: seq<Upd>, u: Upd)
    ensures multiset([x] + s)[u] == (if x == u then 1 else 0) + multiset(s)[u]
  {
  }

  lemma RestCounts(s: seq<Upd>, u: Upd)
    requires s != []
    ensures multiset(s)[u] == (if s[0] == u then 1 else 0) + multiset(s[1..])[u]
  {
    Apart(s);
  }

  /** Nothing is lost or made up: what vanishes, vanishes in pairs. */
  lemma {:induction false} MergedCount(b: seq<Upd>, d: seq<Upd>, u: Upd)
    ensures multiset(b)[u] + multiset(d)[u] == multiset(Merged(b, d))[u] + 2 * multiset(Gone(b, d))[u]
    ensures |b| + |d| == |Merged(b, d)| + 2 * |Gone(b, d)|
    decreases |b|
  {
    if d != [] && b != [] {
      var b', d' := b[1..], d[1..];
      RestCounts(b, u);
      RestCounts(d, u);
      if Before(d[0], b[0]) {
        MergedCount(b', [b[0]] + d', u);
        ConsCount(b[0], d', u);
        ConsCount(d[0], Merged(b', [b[0]] + d'), u);
      } else if Before(b[0], d[0]) {
        MergedCount(b', d, u);
        ConsCount(b[0], Merged(b', d), u);
      } else {
        MergedCount(b', d', u);
        ConsCount(b[0], Gone(b', d'), u);
      }
    }
  }

  method SkipSmaller(d: seq<Upd>, cur: nat) returns (up: nat)
    requires d != [] && Sorted(d) && d[|d| - 1].subgraph >= cur
    ensures up < |d| && (forall i :: 0 <= i < up ==> d[i].subgraph < cur)
    ensures (forall i :: up <= i < |d| ==> d[i].subgraph >= cur)
  {
    up := 0;
    while d[up].subgraph < cur
      invariant up < |d| && forall i :: 0 <= i < up ==> d[i].subgraph < cur
      decreases |d| - up
    {
      up := up + 1;
    }
  }

  /** The moving parts of the merge loop: buffer and updates, and their three pointers. */
  datatype Merge = Merge(buf: seq<Upd>, d: seq<Upd>, out: nat, bp: nat, up: nat) {
    ghost predicate Valid() { out <= bp <= |buf| && up <= |d| }

    /** What has been written, and what the rest will add to it. */
    ghost function Result(): seq<Upd>
      requires Valid()
    {
      buf[..out] + Merged(buf[bp..], d[up..])
    }
  }

  /** One iteration: swap, keep, or cancel an equal pair. */
  function MergeStep(m: Merge): Merge
    requires m.out <= m.bp < |m.buf| && m.up < |m.d|
  {
    if Before(m.d[m.up], m.buf[m.bp]) then
      Merge(m.buf[m.out := m.d[m.up]], m.d[m.up := m.buf[m.bp]], m.out + 1, m.bp + 1, m.up)
    else if Before(m.buf[m.bp], m.d[m.up]) then
      Merge(m.buf[m.out := m.buf[m.bp]], m.d, m.out + 1, m.bp + 1, m.up)
    else
      Merge(m.buf, m.d, m.out, m.bp + 1, m.up + 1)
  }

  /** Each iteration of the three-pointer loop writes what `Merged` says. */
  lemma StepResult(m: Merge)
    requires m.Valid() && m.bp < |m.buf| && m.up < |m.d|
    ensures MergeStep(m).Valid() && MergeStep(m).Result() == m.Result()
  {
    var m' := MergeStep(m);
    var b, d := m.buf[m.bp..], m.d[m.up..];
    assert b[0] == m.buf[m.bp] && d[0] == m.d[m.up];
    assert b[1..] == m'.buf[m'.bp..];
    if Before(d[0], b[0]) {
      assert m'.d[m'.up..] == [b[0]] + d[1..];
      assert m'.buf[..m'.out] == m.buf[..m.out] + [d[0]];
    } else if Before(b[0], d[0]) {
      assert m'.buf[..m'.out] == m.buf[..m.out] + [b[0]];
    } else {
      assert m'.d[m'.up..] == d[1..];
    }
  }

  /** The three-pointer loop, until buffer or updates are used up. */
  method MergeLoop(buf: seq<Upd>, d: seq<Upd>, up: nat) returns (m: Merge)
    requires up < |d|
    ensures m.Valid() && m.Result() == Merged(buf, d[up..]) && (m.bp == |m.buf| || m.up == |m.d|)
  {
    m := Merge(buf, d, 0, 0, up);
    assert buf[..0] == [] && buf[0..] == buf;
    while m.bp < |m.buf|
      invariant m.Valid() && m.up < |m.d| && m.Result() == Merged(buf, d[up..])
      decreases |m.buf| - m.bp
    {
      StepResult(m);
      m := MergeStep(m);
      if m.up >= |m.d| { break; }
    }
  }

  /** Writes the rest of the updates behind the output. */
  method CopyUpdates(buf0: seq<Upd>, d: seq<Upd>, up: nat) returns (buf: seq<Upd>)
    requires up <= |d|
    ensures buf == buf0 + d[up..]
  {
    buf := buf0;
    var i := up;
    while i < |d|
      invariant up <= i <= |d| && buf == buf0 + d[up..i]
    {
      buf := buf + [d[i]];
      i := i + 1;
    }
  }

  /** Moves the rest of the buffer down behind the output. */
  method MoveDown(buf0: seq<Upd>, out0: nat, bp: nat) returns (buf: seq<Upd>)
    requires out0 <= bp <= |buf0|
    ensures buf == buf0[..out0] + buf0[bp..]
  {
    buf := buf0;
    var out, i := out0, bp;
    while i < |buf0|
      invariant bp <= i <= |buf0| == |buf| && out == out0 + (i - bp) && out <= i
      invariant buf[..out] == buf0[..out0] + buf0[bp..i]
      invariant forall j :: i <= j < |buf0| ==> buf[j] == buf0[j]
    {
      ghost var was := buf;
      buf := buf[out := buf[i]];
      assert buf[..out + 1] == was[..out] + [buf0[i]];
      assert buf0[bp..i + 1] == buf0[bp..i] + [buf0[i]];
      out, i := out + 1, i + 1;
    }
    buf := buf[..out];
  }

  /** Appends what is left; at most one of the two rests is non-empty. */
  method CopyRest(m: Merge) returns (buf: seq<Upd>)
    requires m.Valid() && (m.bp == |m.buf| || m.up == |m.d|)
    ensures buf == m.Result()
  {
    if m.up < |m.d| {
      buf := CopyUpdates(m.buf[..m.out], m.d, m.up);
      assert m.buf[m.bp..] == [];
    } else {
      buf := MoveDown(m.buf, m.out, m.bp);
      assert m.d[m.up..] == [];
    }
  }

  /** Merging a sorted batch into a buffer: of the batch only the updates that belong into the store take part. */
  method MergeUpdates(buf0: seq<Upd>, d: seq<Upd>, cur: nat) returns (buf: seq<Upd>)
    requires d != [] && Sorted(d) && d[|d| - 1].subgraph >= cur
    ensures buf == Merged(buf0, Kept(d, cur))
  {
    var up0 := SkipSmaller(d, cur);
    SkippedIsKept(d, up0, cur);
    var m := MergeLoop(buf0, d, up0);
    buf := CopyRest(m);
  }

  /** Afterwards each update has the parity of buffer and batch together. */
  lemma MergedParity(b: seq<Upd>, d: seq<Upd>, u: Upd)
    ensures Odd(Merged(b, d), u) <==> (Odd(b, u) != Odd(d, u))
    ensures u in Merged(b, d) ==> u in b || u in d
  {
    MergedCount(b, d, u);
    ParityOfSum(Merged(b, d), b, d, multiset(Gone(b, d))[u], u);
  }

  lemma ParityOfSum(m: seq<Upd>, b: seq<Upd>, d: seq<Upd>, g: nat, u: Upd)
    requires multiset(b)[u] + multiset(d)[u] == multiset(m)[u] + 2 * g
    ensures Odd(m, u) <==> (Odd(b, u) != Odd(d, u))
    ensures u in m ==> u in b || u in d
  {
    if u in m { assert u in multiset(m); }
  }

  lemma {:induction false} SkippedIsKept(d: seq<Upd>, up: nat, cur: nat)
    requires up <= |d| && (forall i :: 0 <= i < up ==> d[i].subgraph < cur)
    requires (forall i :: up <= i < |d| ==> d[i].subgraph >= cur)
    ensures Kept(d, cur) == d[up..]
    decreases |d|
  {
    if d != [] {
      var last := |d| - 1;
      if up <= last {
        SkippedIsKept(d[..last], up, cur);
        assert d[up..] == d[..last][up..] + [d[last]];
      } else {
        SkippedIsKept(d[..last], last, cur);
      }
    }
  }

  // ---------- contracting a buffer ----------

  /** The updates that stay in the store when it moves up to `cur`. */
  function Kept(s: seq<Upd>, cur: nat): (r: seq<Upd>)
    ensures |r| <= |s|
  {
    if s == [] then [] else Kept(s[..|s| - 1], cur) + (if s[|s| - 1].subgraph >= cur then [s[|s| - 1]] else [])
  }

  lemma {:induction false} KeptParity(s: seq<Upd>, cur: nat, u: Upd)
    ensures multiset(Kept(s, cur))[u] == if u.subgraph >= cur then multiset(s)[u] else 0
  {
    if s != [] {
      var t := s[..|s| - 1];
      KeptParity(t, cur, u);
      assert s == t + [s[|s| - 1]];
      assert multiset(s)[u] == multiset(t)[u] + multiset([s[|s| - 1]])[u];
    }
  }

  /** Order is kept: what stays of a sequence is what stays of its parts, one after the other. */
  lemma {:induction false} KeptInOrder(a: seq<Upd>, b: seq<Upd>, cur: nat)
    ensures Kept(a + b, cur) == Kept(a, cur) + Kept(b, cur)
    decreases |b|
  {
    if b == [] {
      assert a + b == a;
    } else {
      var last := |b| - 1;
      assert (a + b)[..|a + b| - 1] == a + b[..last];
      KeptInOrder(a, b[..last], cur);
    }
  }

  lemma {:induction false} KeptTwice(s: seq<Upd>, cur: nat)
    ensures Kept(Kept(s, cur), cur) == Kept(s, cur)
  {
    if s != [] {
      var t, x := s[..|s| - 1], s[|s| - 1];
      KeptTwice(t, cur);
      var k := Kept(t, cur) + [x];
      assert k[..|k| - 1] == Kept(t, cur) && k[|k| - 1] == x;
      assert Kept(s, cur) == if x.subgraph >= cur then k else Kept(t, cur);
    }
  }

  lemma {:induction false} KeptWhole(s: seq<Upd>, cur: nat)
    requires forall u :: u in s ==> u.subgraph >= cur
    ensures Kept(s, cur) == s
  {
    if s != [] {
      KeptWhole(s[..|s| - 1], cur);
      assert s == s[..|s| - 1] + [s[|s| - 1]];
    }
  }

  /** The compaction loop of `vertex_contract`. */
  method KeepLoop(buf0: seq<Upd>, cur: nat) returns (buf: seq<Upd>)
    ensures buf == Kept(buf0, cur)
  {
    buf := buf0;
    var keep, i := 0, 0;
    while i < |buf|
      invariant keep <= i <= |buf| == |buf0| && buf[i..] == buf0[i..]
      invariant buf[..keep] == Kept(buf0[..i], cur)
    {
      assert buf[i] == buf0[i] by { assert buf[i..][0] == buf0[i..][0]; }
      assert buf0[..i + 1][..i] == buf0[..i];
      if buf[i].subgraph >= cur {
        ghost var was := buf;
        buf := buf[keep := buf[i]];
        assert buf[..keep + 1] == was[..keep] + [was[i]];
        keep := keep + 1;
      }
      assert buf[i + 1..] == buf0[i + 1..] by { assert buf0[i..][1..] == buf0[i + 1..]; }
      i := i + 1;
    }
    assert buf0[..i] == buf0;
    buf := buf[..keep];
  }
}
