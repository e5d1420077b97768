/** What merging a batch into a vertex buffer does: which pairs cancel, when the buffer stays free of duplicates, and
    when it stays sorted. */
module BufferMerges {
  import opened TaggedUpdates

  predicate NoDup(s: seq<Upd>) { forall i, j :: 0 <= i < j < |s| ==> s[i] != s[j] }

  /** In strictly increasing order. */
  predicate Ordered(s: seq<Upd>) { forall i, j :: 0 <= i < j < |s| ==> Before(s[i], s[j]) }

  /** How many updates of the batch are met in the buffer, one after the other, before a buffer entry is greater than
      the next update. */
  function Matched(b: seq<Upd>, d: seq<Upd>): (c: nat)
    ensures c <= |d| && c <= |b|
    decreases |b|
  {
    if b == [] || d == [] || Before(d[0], b[0]) then 0
    else if Before(b[0], d[0]) then Matched(b[1..], d)
    else 1 + Matched(b[1..], d[1..])
  }

  // ---------- which pairs cancel ----------

  /** A carried update that is not in the buffer never cancels: it, or a buffer entry in its place, is carried to the
      end. */
  lemma {:induction false} NothingCancels(b: seq<Upd>, d: seq<Upd>)
    requires NoDup(b) && d != [] && d[0] !in b
    ensures Gone(b, d) == []
    decreases |b|
  {
    if b != [] {
      if Before(d[0], b[0]) {
        NothingCancels(b[1..], [b[0]] + d[1..]);
      } else {
        NothingCancels(b[1..], d);
      }
    }
  }

  /** From a buffer without duplicates exactly the first `Matched` updates vanish, each with its twin in the buffer. */
  lemma {:induction false} GoneIsPrefix(b: seq<Upd>, d: seq<Upd>)
    requires NoDup(b)
    ensures Gone(b, d) == d[..Matched(b, d)] && NoDup(d[..Matched(b, d)])
    ensures forall i :: 0 <= i < Matched(b, d) ==> d[i] in b
    decreases |b|
  {
    if b != [] && d != [] {
      var b', d' := b[1..], d[1..];
      if Before(d[0], b[0]) {
        NothingCancels(b', [b[0]] + d');
      } else if Before(b[0], d[0]) {
        GoneIsPrefix(b', d);
      } else {
        GoneIsPrefix(b', d');
        var c := Matched(b', d');
        assert d[..c + 1] == [d[0]] + d'[..c];
        forall i | 0 <= i < c + 1 ensures d[i] in b && (i > 0 ==> d[i] != d[0]) {
          if i > 0 { assert d[i] == d'[i - 1] && d'[i - 1] in b'; }
        }
      }
    }
  }

  /** Length and multiplicities after merging into a buffer without duplicates. */
  lemma MergedCounts(b: seq<Upd>, d: seq<Upd>, u: Upd)
    requires NoDup(b)
    ensures var c := Matched(b, d);
            && |Merged(b, d)| + 2 * c == |b| + |d|
            && multiset(Merged(b, d))[u] + multiset(d[..c])[u] == multiset(b)[u] + multiset(d[c..])[u]
            && multiset(d[..c])[u] <= multiset(b)[u] <= 1
  {
    var c := Matched(b, d);
    MergedCount(b, d, u);
    GoneIsPrefix(b, d);
    assert d == d[..c] + d[c..];
    assert multiset(d)[u] == multiset(d[..c])[u] + multiset(d[c..])[u];
    OnceEach(b, u);
    OnceEach(d[..c], u);
  }

  lemma {:induction false} OnceEach(s: seq<Upd>, u: Upd)
    requires NoDup(s)
    ensures multiset(s)[u] == if u in s then 1 else 0
  {
    if s != [] {
      OnceEach(s[1..], u);
      Apart(s);
    }
  }

  lemma {:induction false} OnceIsNoDup(s: seq<Upd>)
    requires forall u :: multiset(s)[u] <= 1
    ensures NoDup(s)
  {
    if s != [] {
      Apart(s);
      forall u ensures multiset(s[1..])[u] <= 1 { assert multiset(s)[u] <= 1; }
      OnceIsNoDup(s[1..]);
      assert multiset(s)[s[0]] <= 1;
      assert s[0] !in multiset(s[1..]);
      assert s[0] !in s[1..];
    }
  }

  // ---------- when no duplicates arise ----------

  /** What is left of the batch has no duplicates and is not in what is left of the buffer. */
  ghost predicate CleanRest(b: seq<Upd>, d: seq<Upd>) {
    var c := Matched(b, d);
    NoDup(d[c..]) && NewTo(b, d, c)
  }

  ghost predicate NewTo(b: seq<Upd>, d: seq<Upd>, c: nat)
    requires c <= |d|
  {
    forall j :: c <= j < |d| && d[j] in b ==> d[j] in d[..c]
  }

  lemma InRest(d: seq<Upd>, c: nat, u: Upd)
    requires c <= |d|
    ensures u in d[c..] <==> exists j :: c <= j < |d| && d[j] == u
  {
    if u in d[c..] {
      var k :| 0 <= k < |d[c..]| && d[c..][k] == u;
      assert d[c + k] == u;
    }
    assert forall j :: c <= j < |d| ==> d[j] == d[c..][j - c];
  }

  /** Exactly when the merged buffer has no duplicates. */
  lemma NoDupIff(b: seq<Upd>, d: seq<Upd>)
    requires NoDup(b)
    ensures NoDup(Merged(b, d)) <==> CleanRest(b, d)
  {
    var c, m := Matched(b, d), Merged(b, d);
    GoneIsPrefix(b, d);
    if CleanRest(b, d) {
      forall u ensures multiset(m)[u] <= 1 { RestCount(b, d, u); }
      OnceIsNoDup(m);
    }
    if NoDup(m) {
      forall u ensures multiset(d[c..])[u] <= 1 && (u in d[c..] && u in b ==> u in d[..c]) {
        OnceEach(m, u);
        MergedCounts(b, d, u);
        OnceEach(b, u);
        OnceEach(d[..c], u);
        assert u in d[c..] <==> u in multiset(d[c..]);
      }
      OnceIsNoDup(d[c..]);
      forall j | c <= j < |d| && d[j] in b ensures d[j] in d[..c] { InRest(d, c, d[j]); }
    }
  }

  lemma RestCount(b: seq<Upd>, d: seq<Upd>, u: Upd)
    requires NoDup(b) && CleanRest(b, d)
    ensures multiset(Merged(b, d))[u] <= 1
  {
    var c := Matched(b, d);
    GoneIsPrefix(b, d);
    MergedCounts(b, d, u);
    InRest(d, c, u);
    OnceEach(b, u);
    OnceEach(d[..c], u);
    OnceEach(d[c..], u);
  }

  /** Into a sorted buffer, the matched updates are the longest part at the front of the batch that the buffer holds. */
  lemma {:induction false} MatchedIsFront(b: seq<Upd>, d: seq<Upd>)
    requires Ordered(b) && Ordered(d)
    ensures var c := Matched(b, d); (forall i :: 0 <= i < c ==> d[i] in b) && (c < |d| ==> d[c] !in b)
    decreases |b|
  {
    if b != [] && d != [] && !Before(d[0], b[0]) {
      Apart(b);
      Apart(d);
      if Before(b[0], d[0]) {
        MatchedIsFront(b[1..], d);
      } else {
        MatchedIsFront(b[1..], d[1..]);
      }
    }
  }

  lemma OrderedIsNoDup(s: seq<Upd>)
    requires Ordered(s)
    ensures NoDup(s)
  {
  }

  /** A sorted batch leaves a sorted buffer without duplicates if and only if no update that the buffer holds comes
      after one that it does not hold. */
  lemma NoDupIffFront(b: seq<Upd>, d: seq<Upd>)
    requires Ordered(b) && Ordered(d)
    ensures NoDup(Merged(b, d)) <==> forall i, j :: 0 <= i < j < |d| && d[j] in b ==> d[i] in b
  {
    OrderedIsNoDup(b);
    MatchedIsFront(b, d);
    NoDupIff(b, d);
    FrontIsNew(b, d, Matched(b, d));
  }

  lemma FrontIsNew(b: seq<Upd>, d: seq<Upd>, c: nat)
    requires Ordered(d) && c <= |d| && (forall i :: 0 <= i < c ==> d[i] in b) && (c < |d| ==> d[c] !in b)
    ensures NoDup(d[c..])
    ensures NewTo(b, d, c) <==> forall i, j :: 0 <= i < j < |d| && d[j] in b ==> d[i] in b
  {
    assert forall j :: c <= j < |d| ==> d[j] !in d[..c];
    if NewTo(b, d, c) {
      forall i, j | 0 <= i < j < |d| && d[j] in b ensures j < c && d[i] in b { }
    }
  }

  // ---------- when the buffer stays sorted ----------

  /** A carried update below a sorted buffer pushes the whole buffer up by one place. */
  lemma {:induction false} CarriedAlong(b: seq<Upd>, h: Upd, rest: seq<Upd>)
    requires Ordered(b) && (b != [] ==> Before(h, b[0]))
    ensures Merged(b, [h] + rest) == [h] + b + rest
    decreases |b|
  {
    if b == [] {
      assert [h] + b + rest == [h] + rest;
    } else {
      var d := [h] + rest;
      assert d[1..] == rest;
      TailOrdered(b);
      CarriedAlong(b[1..], b[0], rest);
      assert [b[0]] + b[1..] == b;
      assert [h] + (b + rest) == [h] + b + rest;
    }
  }

  /** At most one update is left unmatched, or the rest of the batch goes behind the whole buffer. */
  predicate KeepsOrder(b: seq<Upd>, d: seq<Upd>) {
    var c := Matched(b, d);
    |d| <= c + 1 || b == [] || Before(b[|b| - 1], d[c + 1])
  }

  lemma ConsOrdered(x: Upd, s: seq<Upd>)
    requires forall u :: u in s ==> Before(x, u)
    ensures Ordered([x] + s) <==> Ordered(s)
  {
    var t := [x] + s;
    assert t[1..] == s;
    if Ordered(t) { TailOrdered(t); }
  }

  lemma TailOrdered(t: seq<Upd>)
    requires Ordered(t) && t != []
    ensures Ordered(t[1..])
  {
    forall i, j | 0 <= i < j < |t[1..]| ensures Before(t[1..][i], t[1..][j]) {
      assert t[1..][i] == t[i + 1] && t[1..][j] == t[j + 1];
    }
  }

  lemma ConcatOrdered(b: seq<Upd>, d: seq<Upd>)
    requires Ordered(b) && Ordered(d)
    ensures Ordered(b + d) <==> b == [] || d == [] || Before(b[|b| - 1], d[0])
  {
    if b != [] && d != [] {
      if Ordered(b + d) { assert (b + d)[|b| - 1] == b[|b| - 1] && (b + d)[|b|] == d[0]; }
    } else {
      assert if b == [] then b + d == d else b + d == b;
    }
  }

  /** Exactly when a sorted batch leaves a sorted buffer sorted. */
  lemma {:induction false} OrderedIff(b: seq<Upd>, d: seq<Upd>)
    requires Ordered(b) && Ordered(d)
    ensures Ordered(Merged(b, d)) <==> KeepsOrder(b, d)
    decreases |b|
  {
    if b != [] && d != [] {
      TailOrdered(b);
      TailOrdered(d);
      if Before(d[0], b[0]) {
        PushedUp(b, d);
      } else if Before(b[0], d[0]) {
        OrderedIff(b[1..], d);
        KeptInFront(b, d);
      } else {
        OrderedIff(b[1..], d[1..]);
        BothGone(b, d, Matched(b, d));
      }
    }
  }

  lemma KeptInFront(b: seq<Upd>, d: seq<Upd>)
    requires Ordered(b) && Ordered(d) && b != [] && d != [] && Before(b[0], d[0])
    ensures KeepsOrder(b, d) <==> KeepsOrder(b[1..], d)
    ensures Ordered(Merged(b, d)) <==> Ordered(Merged(b[1..], d))
  {
    assert [b[0]] + b[1..] == b;
    FirstBelow(b[0], b[1..], d);
    KeepsFront(b, d, Matched(b, d));
  }

  lemma FirstBelow(x: Upd, b: seq<Upd>, d: seq<Upd>)
    requires Ordered([x] + b) && Ordered(d) && d != [] && Before(x, d[0])
    ensures Ordered([x] + Merged(b, d)) <==> Ordered(Merged(b, d))
  {
    forall u | u in Merged(b, d) ensures Before(x, u) {
      MergedParity(b, d, u);
      if u in b { Follows([x] + b, u); } else if u != d[0] { Follows(d, u); }
    }
    ConsOrdered(x, Merged(b, d));
  }

  lemma Follows(s: seq<Upd>, u: Upd)
    requires Ordered(s) && s != [] && u in s[1..]
    ensures Before(s[0], u)
  {
    var k :| 0 <= k < |s[1..]| && s[1..][k] == u;
    assert s[k + 1] == u;
  }

  // in the last case everything unmatched is above b[0]
  lemma KeepsFront(b: seq<Upd>, d: seq<Upd>, c: nat)
    requires Ordered(d) && b != [] && d != [] && Before(b[0], d[0]) && c == Matched(b, d)
    ensures KeepsOrder(b, d) <==> KeepsOrder(b[1..], d)
  {
    if |b| == 1 && c + 1 < |d| { assert Before(d[0], d[c + 1]); }
  }

  lemma BothGone(b: seq<Upd>, d: seq<Upd>, c: nat)
    requires Ordered(d) && b != [] && d != [] && b[0] == d[0] && c == Matched(b, d)
    ensures KeepsOrder(b, d) <==> KeepsOrder(b[1..], d[1..])
  {
    if |b| == 1 && c + 1 < |d| { assert Before(d[0], d[c + 1]); }
  }

  lemma PushedUp(b: seq<Upd>, d: seq<Upd>)
    requires Ordered(b) && Ordered(d) && b != [] && d != [] && Before(d[0], b[0])
    ensures Merged(b, d) == [d[0]] + b + d[1..]
    ensures Ordered(Merged(b, d)) <==> |d| == 1 || Before(b[|b| - 1], d[1])
  {
    var h := [d[0]] + b;
    BelowAll(d[0], b);
    ConsOrdered(d[0], b);
    TailOrdered(d);
    Pushed(b, d);
    ConcatOrdered(h, d[1..]);
  }

  lemma BelowAll(x: Upd, b: seq<Upd>)
    requires Ordered(b) && b != [] && Before(x, b[0])
    ensures forall u :: u in b ==> Before(x, u)
  {
  }

  lemma Pushed(b: seq<Upd>, d: seq<Upd>)
    requires Ordered(b) && b != [] && d != [] && Before(d[0], b[0])
    ensures Merged(b, d) == [d[0]] + b + d[1..]
  {
    var rest := d[1..];
    assert [b[0]] + b[1..] == b;
    CarriedAlong(b[1..], b[0], rest);
    assert [d[0]] + (b + rest) == [d[0]] + b + rest;
  }

  /** A single update toggles its membership in a sorted buffer, which stays sorted. */
  lemma OneUpdateToggles(b: seq<Upd>, u: Upd)
    requires Ordered(b)
    ensures Ordered(Merged(b, [u])) && forall v :: v in Merged(b, [u]) <==> (v in b) != (v == u)
    ensures |Merged(b, [u])| == if u in b then |b| - 1 else |b| + 1
  {
    var m := Merged(b, [u]);
    OrderedIff(b, [u]);
    OrderedIsNoDup(b);
    MatchedIsFront(b, [u]);
    forall v ensures v in m <==> (v in b) != (v == u) {
      MergedParity(b, [u], v);
      OnceEach(m, v);
      OnceEach(b, v);
      OnceEach([u], v);
    }
    MergedCounts(b, [u], u);
  }

  /** Inserting an edge twice leaves a sorted buffer as it was. */
  lemma TwiceIsNothing(b: seq<Upd>, u: Upd)
    requires Ordered(b)
    ensures Merged(Merged(b, [u]), [u]) == b
  {
    OneUpdateToggles(b, u);
    OneUpdateToggles(Merged(b, [u]), u);
    SameOrdered(Merged(Merged(b, [u]), [u]), b);
  }

  lemma {:induction false} SameOrdered(s: seq<Upd>, t: seq<Upd>)
    requires Ordered(s) && Ordered(t) && forall u :: u in s <==> u in t
    ensures s == t
    decreases |s|
  {
    if s == [] {
      forall u ensures u !in multiset(t) { assert u in t <==> u in s; }
      assert |t| == |multiset(t)|;
    } else {
      assert s[0] in t && t[0] in s;
      Apart(s);
      Apart(t);
      assert s[0] == t[0];
      forall u ensures u in s[1..] <==> u in t[1..] {
        if u in s[1..] { assert u in t && u != t[0]; }
        if u in t[1..] { assert u in s && u != s[0]; }
      }
      SameOrdered(s[1..], t[1..]);
    }
  }

  /** A batch without duplicates is merged in increasing order. */
  lemma SortedBatch(s: seq<Upd>)
    requires NoDup(s)
    ensures Ordered(SortUpdates(s))
  {
    var t := SortUpdates(s);
    SortIsSorted(s);
    forall u ensures multiset(t)[u] <= 1 { OnceEach(s, u); }
    OnceIsNoDup(t);
  }

  /** Two updates are enough to leave a deleted edge in the buffer twice, and out of order: the first one pushes the
      second one's twin past it. */
  lemma DuplicateStays()
    ensures var b, d := [Upd(1, 5), Upd(1, 6)], [Upd(1, 1), Upd(1, 6)];
            Ordered(b) && Ordered(d) && Merged(b, d) == [Upd(1, 1), Upd(1, 5), Upd(1, 6), Upd(1, 6)]
  {
    PushedUp([Upd(1, 5), Upd(1, 6)], [Upd(1, 1), Upd(1, 6)]);
  }
}
