/** The other half: as soon as a vertex is five links below its root, two threads that look up each vertex once can
    answer one of them with a vertex that is no root. */
module LookUpRaces {
  import opened DisjointSets
  import opened LockFreeDsu
  import opened LookUps
  import opened LookUpsExact

  /** Which thread begins which vertex, in order. */
  type Begun = seq<(nat, nat)>

  function BegunBy(t: nat, mv: Move): Begun { if mv.Begin? then [(t, mv.v)] else [] }

  function Begins(moves: Moves): Begun {
    if moves == [] then [] else BegunBy(moves[0].0, moves[0].1) + Begins(moves[1..])
  }

  lemma {:induction false} BeginsConcat(a: Moves, b: Moves)
    ensures Begins(a + b) == Begins(a) + Begins(b)
    decreases |a|
  {
    if a == [] {
      assert a + b == b;
    } else {
      var first := BegunBy(a[0].0, a[0].1);
      BeginsConcat(a[1..], b);
      assert (a + b)[0] == a[0] && (a + b)[1..] == a[1..] + b;
      assert Begins(a + b) == first + Begins((a + b)[1..]);
      assert first + (Begins(a[1..]) + Begins(b)) == (first + Begins(a[1..])) + Begins(b);
    }
  }

  /** Some run leads from `l` to `l'`, beginning the vertices `bs`. */
  ghost predicate Reach(l: Look, bs: Begun, l': Look) {
    exists moves: Moves :: Looked(l, moves) == l' && Begins(moves) == bs
  }

  lemma {:induction false} LookedConcat(l: Look, a: Moves, b: Moves)
    ensures Looked(l, a + b) == Looked(Looked(l, a), b)
    decreases |a|
  {
    if a == [] {
      assert a + b == b;
    } else if Fine(l) {
      LookedConcat(LookStep(l, a[0].0, a[0].1), a[1..], b);
      assert (a + b)[1..] == a[1..] + b;
    } else {
      assert a + b != [];
    }
  }

  lemma ReachSelf(l: Look)
    ensures Reach(l, [], l)
  {
    assert Looked(l, []) == l && Begins([]) == [];
  }

  lemma ReachStep(l0: Look, bs: Begun, l: Look, t: nat, mv: Move)
    requires Reach(l0, bs, l) && Fine(l)
    ensures Reach(l0, bs + BegunBy(t, mv), LookStep(l, t, mv))
  {
    var a: Moves :| Looked(l0, a) == l && Begins(a) == bs;
    var b: Moves := [(t, mv)];
    LookedConcat(l0, a, b);
    BeginsConcat(a, b);
    assert b[1..] == [];
    assert Begins(b) == BegunBy(t, mv) + Begins(b[1..]);
    assert Looked(l, b) == Looked(LookStep(l, t, mv), b[1..]);
    assert Looked(l0, a + b) == LookStep(l, t, mv) && Begins(a + b) == bs + BegunBy(t, mv);
  }

  /** The state in which thread `t` stands at `f`. */
  function Put(l: Look, t: nat, f: Find): Look
    requires t < |l.slots|
  {
    l.(slots := l.slots[t := Busy(f)])
  }

  lemma ReachGo(l0: Look, bs: Begun, l: Look, t: nat, f: Find)
    requires t < |l.slots| && FindInRange(|l.parent|, f) && !f.at.Found? && Fine(Put(l, t, f))
    requires Reach(l0, bs, Put(l, t, f))
    ensures var (q, f') := FindStep(l.parent, f, false); Reach(l0, bs, Put(l.(parent := q), t, f'))
  {
    var (q, f') := FindStep(l.parent, f, false);
    ReachStep(l0, bs, Put(l, t, f), t, Go(false));
    assert bs + [] == bs;
    assert Put(l, t, f).slots[t := Busy(f')] == l.slots[t := Busy(f')];
    assert LookStep(Put(l, t, f), t, Go(false)) == Put(l.(parent := q), t, f');
  }

  ghost predicate Room(l: Look, t: nat, u: nat) {
    Fine(l) && t < |l.slots| && u < |l.parent|
  }

  lemma PutFine(l: Look, t: nat, f: Find)
    requires Fine(l) && t < |l.slots| && FindInRange(|l.parent|, f)
    ensures Fine(Put(l, t, f))
  {
  }

  lemma ReachBegin(l0: Look, bs: Begun, l: Look, t: nat, v: nat)
    requires Room(l, t, v) && Reach(l0, bs, l) && l.slots[t].Free? && v in l.todo
    ensures Reach(l0, bs + [(t, v)], Put(l.(todo := l.todo - {v}), t, StartFind(v)))
  {
    ReachStep(l0, bs, l, t, Begin(v));
  }

  /** The loop test, undisturbed. */
  lemma ReachTest(l0: Look, bs: Begun, l: Look, t: nat, st: nat, u: nat, k: nat)
    requires Room(l, t, u) && st < |l.parent| && Reach(l0, bs, Put(l, t, Find(st, u, Test, k)))
    ensures var p := l.parent[u]; p < |l.parent| && Reach(l0, bs, Put(l, t, Find(st, u, LeftGrand(l.parent[p]), k)))
  {
    var p := l.parent[u];
    PutFine(l, t, Find(st, u, Test, k));
    ReachGo(l0, bs, l, t, Find(st, u, Test, k));
    PutFine(l, t, Find(st, u, LeftParent(p), k));
    ReachGo(l0, bs, l, t, Find(st, u, LeftParent(p), k));
  }

  /** The loop body, undisturbed: halve and climb. */
  lemma ReachBody(l0: Look, bs: Begun, l: Look, t: nat, st: nat, u: nat, k: nat)
    requires Room(l, t, u) && st < |l.parent| && Reach(l0, bs, Put(l, t, Find(st, u, Body, k)))
    ensures l.parent[u] < |l.parent| && l.parent[l.parent[u]] < |l.parent|
    ensures var g := l.parent[l.parent[u]];
        Reach(l0, bs, Put(l.(parent := l.parent[u := g]), t, Find(st, g, Test, k + 1)))
  {
    var p := l.parent[u];
    var g := l.parent[p];
    var l' := l.(parent := l.parent[u := g]);
    PutFine(l, t, Find(st, u, Body, k));
    ReachGo(l0, bs, l, t, Find(st, u, Body, k));
    PutFine(l, t, Find(st, u, BodyParent(p), k));
    ReachGo(l0, bs, l, t, Find(st, u, BodyParent(p), k));
    PutFine(l, t, Find(st, u, BodyGrand(g), k));
    ReachGo(l0, bs, l, t, Find(st, u, BodyGrand(g), k));
    FineWrite(l, u, g);
    PutFine(l', t, Find(st, u, Advance, k));
    ReachGo(l0, bs, l', t, Find(st, u, Advance, k));
  }

  lemma FineWrite(l: Look, u: nat, g: nat)
    requires Fine(l) && u < |l.parent| && g < |l.parent|
    ensures Fine(l.(parent := l.parent[u := g]))
  {
  }

  /** Leaving the loop and handing in the answer. */
  lemma ReachAnswer(l0: Look, bs: Begun, l: Look, t: nat, st: nat, u: nat, k: nat)
    requires Room(l, t, u) && st < |l.parent| && Reach(l0, bs, Put(l, t, Find(st, u, Leave, k)))
    ensures Reach(l0, bs, l.(slots := l.slots[t := Free], ans := l.ans[st := l.parent[u]]))
  {
    var res := l.parent[u];
    PutFine(l, t, Find(st, u, Leave, k));
    ReachGo(l0, bs, l, t, Find(st, u, Leave, k));
    var f := Find(st, u, Found(res), k);
    PutFine(l, t, f);
    ReachStep(l0, bs, Put(l, t, f), t, Go(false));
    assert bs + [] == bs;
    assert Put(l, t, f).slots[t := Free] == l.slots[t := Free];
  }

  lemma ReachCompare(l0: Look, bs: Begun, l: Look, t: nat, st: nat, u: nat, k: nat, q: nat)
    requires Room(l, t, u) && st < |l.parent| && q < |l.parent|
    requires Reach(l0, bs, Put(l, t, Find(st, u, LeftGrand(q), k)))
    ensures Reach(l0, bs, Put(l, t, Find(st, u, if q != l.parent[u] then Body else Leave, k)))
  {
    PutFine(l, t, Find(st, u, LeftGrand(q), k));
    ReachGo(l0, bs, l, t, Find(st, u, LeftGrand(q), k));
  }

  /** One undisturbed turn of the loop. */
  lemma ReachTurn(l0: Look, bs: Begun, l: Look, t: nat, st: nat, u: nat, k: nat)
    requires Room(l, t, u) && st < |l.parent| && Reach(l0, bs, Put(l, t, Find(st, u, Test, k)))
    requires l.parent[u] < |l.parent| && l.parent[l.parent[u]] != l.parent[u]
    ensures l.parent[l.parent[u]] < |l.parent|
    ensures var g := l.parent[l.parent[u]];
        Reach(l0, bs, Put(l.(parent := l.parent[u := g]), t, Find(st, g, Test, k + 1)))
  {
    ReachTest(l0, bs, l, t, st, u, k);
    ReachCompare(l0, bs, l, t, st, u, k, l.parent[l.parent[u]]);
    ReachBody(l0, bs, l, t, st, u, k);
  }

  lemma ReachExit(l0: Look, bs: Begun, l: Look, t: nat, st: nat, u: nat, k: nat)
    requires Room(l, t, u) && st < |l.parent| && Reach(l0, bs, Put(l, t, Find(st, u, Test, k)))
    requires l.parent[u] < |l.parent| && l.parent[l.parent[u]] == l.parent[u]
    ensures Reach(l0, bs, l.(slots := l.slots[t := Free], ans := l.ans[st := l.parent[u]]))
  {
    ReachTest(l0, bs, l, t, st, u, k);
    ReachCompare(l0, bs, l, t, st, u, k, l.parent[l.parent[u]]);
    ReachAnswer(l0, bs, l, t, st, u, k);
  }

  // ---------- the race ----------

  /** w, a, u, p, g, x are consecutive links up to the root x. */
  ghost predicate Chain(parent: seq<nat>, w: nat, a: nat, u: nat, p: nat, g: nat, x: nat) {
    && w < |parent| && a < |parent| && u < |parent| && p < |parent| && g < |parent| && x < |parent|
    && parent[w] == a && parent[a] == u && parent[u] == p && parent[p] == g && parent[g] == x && parent[x] == x
    && w != a && a != u && u != p && p != g && g != x
    && w != u && w != p && w != g && w != x && u != g && u != x && p != x
  }

  /** Thread `tw` comes from `w` and halves `u` between the loads of thread `tu`, which then takes `g` for a root. */
  lemma RacePair(l0: Look, bs: Begun, l: Look, tu: nat, tw: nat, w: nat, a: nat, u: nat, p: nat, g: nat, x: nat)
    requires Fine(l) && Reach(l0, bs, l) && TwoFree(l, tu, tw)
    requires Chain(l.parent, w, a, u, p, g, x) && w in l.todo && u in l.todo
    ensures Reach(l0, bs + [(tw, w), (tu, u)],
                  Look(l.parent[w := u][u := g], l.slots, l.todo - {w} - {u}, l.ans[u := g][w := x]))
  {
    RaceMeets(l0, bs, l, tw, w, a, u);
    var b1 := bs + [(tw, w)];
    var l2 := l.(parent := l.parent[w := u], todo := l.todo - {w});
    FineWrite(l, w, u);
    RaceLoads(l0, b1, l2, tu, tw, w, u, p, g);
    var b2 := b1 + [(tu, u)];
    var l3 := l2.(todo := l2.todo - {u});
    RaceHalves(l0, b2, l3, tu, tw, w, u, p, g);
    var l5 := l3.(parent := l3.parent[u := g]);
    FineWrite(l3, u, g);
    RaceEnds(l0, b2, l5, tu, tw, w, u, g, x);
    assert l.slots[tu := Free][tw := Free] == l.slots;
    assert b2 == bs + [(tw, w), (tu, u)];
  }

  /** Two different threads that are free. */
  ghost predicate TwoFree(l: Look, tu: nat, tw: nat) {
    tu < |l.slots| && tw < |l.slots| && tu != tw && l.slots[tu].Free? && l.slots[tw].Free?
  }

  lemma RaceMeets(l0: Look, bs: Begun, l: Look, tw: nat, w: nat, a: nat, u: nat)
    requires Fine(l) && Reach(l0, bs, l) && tw < |l.slots| && l.slots[tw].Free? && w in l.todo
    requires w < |l.parent| && a < |l.parent| && l.parent[w] == a && l.parent[a] == u && a != u
    ensures u < |l.parent|
    ensures Reach(l0, bs + [(tw, w)], Put(l.(parent := l.parent[w := u], todo := l.todo - {w}), tw,
                                          Find(w, u, Test, 1)))
  {
    ReachBegin(l0, bs, l, tw, w);
    ReachTurn(l0, bs + [(tw, w)], l.(todo := l.todo - {w}), tw, w, w, 0);
  }

  lemma RaceHalves(l0: Look, bs: Begun, l: Look, tu: nat, tw: nat, w: nat, u: nat, p: nat, g: nat)
    requires Fine(l) && tu < |l.slots| && tw < |l.slots| && tu != tw
    requires w < |l.parent| && u < |l.parent| && p < |l.parent| && g < |l.parent|
    requires l.parent[u] == p && l.parent[p] == g && p != g
    requires Reach(l0, bs, Put(Put(l, tu, Find(u, u, LeftGrand(g), 0)), tw, Find(w, u, Test, 1)))
    ensures Reach(l0, bs, Put(Put(l.(parent := l.parent[u := g]), tu, Find(u, u, LeftGrand(g), 0)), tw,
                              Find(w, g, Test, 2)))
  {
    PutFine(l, tu, Find(u, u, LeftGrand(g), 0));
    ReachTurn(l0, bs, Put(l, tu, Find(u, u, LeftGrand(g), 0)), tw, w, u, 1);
  }

  lemma RaceLoads(l0: Look, bs: Begun, l: Look, tu: nat, tw: nat, w: nat, u: nat, p: nat, g: nat)
    requires Fine(l) && TwoFree(l, tu, tw) && u < |l.parent| && w < |l.parent| && p < |l.parent| && u in l.todo
    requires l.parent[u] == p && l.parent[p] == g && Reach(l0, bs, Put(l, tw, Find(w, u, Test, 1)))
    ensures var l3 := l.(todo := l.todo - {u});
            Reach(l0, bs + [(tu, u)], Put(Put(l3, tu, Find(u, u, LeftGrand(g), 0)), tw, Find(w, u, Test, 1)))
  {
    var l1 := Put(l, tw, Find(w, u, Test, 1));
    PutFine(l, tw, Find(w, u, Test, 1));
    ReachBegin(l0, bs, l1, tu, u);
    var l2 := l1.(todo := l.todo - {u});
    ReachTest(l0, bs + [(tu, u)], l2, tu, u, u, 0);
    assert Put(l2, tu, Find(u, u, LeftGrand(g), 0)).slots
        == Put(Put(l.(todo := l.todo - {u}), tu, Find(u, u, LeftGrand(g), 0)), tw, Find(w, u, Test, 1)).slots;
  }

  lemma RaceEnds(l0: Look, bs: Begun, l: Look, tu: nat, tw: nat, w: nat, u: nat, g: nat, x: nat)
    requires Fine(l) && tu < |l.slots| && tw < |l.slots| && tu != tw
    requires w < |l.parent| && u < |l.parent| && g < |l.parent| && x < |l.parent|
    requires l.parent[u] == g && l.parent[g] == x && l.parent[x] == x
    requires Reach(l0, bs, Put(Put(l, tu, Find(u, u, LeftGrand(g), 0)), tw, Find(w, g, Test, 2)))
    ensures Reach(l0, bs, l.(slots := l.slots[tu := Free][tw := Free], ans := l.ans[u := g][w := x]))
  {
    var f, h := Find(u, u, LeftGrand(g), 0), Find(w, g, Test, 2);
    var l1 := Put(l, tw, h);
    PutFine(l, tw, h);
    assert Put(Put(l, tu, f), tw, h) == Put(l1, tu, f) by {
      assert l.slots[tu := Busy(f)][tw := Busy(h)] == l.slots[tw := Busy(h)][tu := Busy(f)];
    }
    ReachCompare(l0, bs, l1, tu, u, u, 0, g);
    ReachAnswer(l0, bs, l1, tu, u, u, 0);
    var l2 := l.(slots := l.slots[tu := Free], ans := l.ans[u := g]);
    assert l1.(slots := l1.slots[tu := Free], ans := l1.ans[u := g]) == Put(l2, tw, h) by {
      assert l.slots[tw := Busy(h)][tu := Free] == l.slots[tu := Free][tw := Busy(h)];
    }
    ReachExit(l0, bs, l2, tw, w, g, 2);
  }

  // ---------- the rest of the vertices, one after the other ----------

  lemma {:induction false} AloneFrom(prio: seq<nat>, l0: Look, bs: Begun, l: Look, t: nat, st: nat, u: nat, k: nat)
    returns (q: seq<nat>)
    requires Ascending(prio, l.parent) && Room(l, t, u) && st < |l.parent|
    requires Reach(l0, bs, Put(l, t, Find(st, u, Test, k)))
    ensures SameRoots(prio, l.parent, q)
    ensures Reach(l0, bs, Look(q, l.slots[t := Free], l.todo, l.ans[st := Root(prio, l.parent, u)]))
    decreases Height(prio, u)
  {
    var p := l.parent[u];
    if l.parent[p] == p {
      ReachExit(l0, bs, l, t, st, u, k);
      SameRootsRefl(prio, l.parent);
      assert Root(prio, l.parent, p) == p && Root(prio, l.parent, u) == Root(prio, l.parent, p);
      q := l.parent;
    } else {
      var g := l.parent[p];
      ReachTurn(l0, bs, l, t, st, u, k);
      HalvedOnce(prio, l.parent, u);
      FineWrite(l, u, g);
      q := AloneFrom(prio, l0, bs, l.(parent := l.parent[u := g]), t, st, g, k + 1);
      SameRootsTrans(prio, l.parent, l.parent[u := g], q);
    }
  }

  lemma HalvedOnce(prio: seq<nat>, parent: seq<nat>, u: nat)
    requires Ascending(prio, parent) && u < |parent| && parent[parent[u]] != parent[u]
    ensures var g := parent[parent[u]];
            SameRoots(prio, parent, parent[u := g]) && Root(prio, parent[u := g], g) == Root(prio, parent, u) &&
            Height(prio, g) < Height(prio, u)
  {
    var p := parent[u];
    var g := parent[p];
    assert Above(prio, p, u) && Above(prio, g, p);
    HeightDecreases(prio, p, u);
    HeightDecreases(prio, g, p);
    assert Same(prio, parent, u, g);
    HalvingKeepsPartition(prio, parent, u, g);
  }

  ghost predicate AllFree(l: Look) { |l.slots| > 0 && forall t :: 0 <= t < |l.slots| ==> l.slots[t].Free? }

  /** `all` adds to `ans` the root of every vertex in `todo`. */
  ghost predicate Completes(prio: seq<nat>, parent: seq<nat>, todo: set<nat>, ans: map<nat, nat>, all: map<nat, nat>)
    requires Ascending(prio, parent)
  {
    && all.Keys == ans.Keys + todo
    && (forall v :: v in ans ==> v in all && all[v] == ans[v])
    && (forall v :: v in todo ==> v in all && v < |parent| && all[v] == Root(prio, parent, v))
  }

  lemma CompletesOne(prio: seq<nat>, parent: seq<nat>, todo: set<nat>, ans: map<nat, nat>, all: map<nat, nat>, v: nat)
    requires Ascending(prio, parent) && v in todo && v !in ans && v < |parent|
    requires Completes(prio, parent, todo - {v}, ans[v := Root(prio, parent, v)], all)
    ensures Completes(prio, parent, todo, ans, all)
  {
  }

  /** `order` names each vertex in `todo` once, with the thread that looks it up. */
  ghost predicate Covers(order: Begun, threads: nat, todo: set<nat>) {
    && (forall i :: 0 <= i < |order| ==> order[i].0 < threads && order[i].1 in todo)
    && (forall i, j :: 0 <= i < j < |order| ==> order[i].1 != order[j].1)
    && (forall v :: v in todo ==> Named(order, v))
  }

  ghost predicate Named(order: Begun, v: nat) { exists i :: 0 <= i < |order| && order[i].1 == v }

  lemma CoversTail(order: Begun, threads: nat, todo: set<nat>)
    requires Covers(order, threads, todo) && order != []
    ensures Covers(order[1..], threads, todo - {order[0].1})
  {
    var rest := order[1..];
    forall v | v in todo - {order[0].1} ensures Named(rest, v) {
      assert Named(order, v);
      var i :| 0 <= i < |order| && order[i].1 == v;
      assert rest[i - 1].1 == v;
    }
  }

  lemma NothingNamed(todo: set<nat>, threads: nat)
    requires Covers([], threads, todo)
    ensures todo == {}
  {
    assert forall v :: v in todo ==> Named([], v);
    assert forall v: nat :: !Named([], v);
  }

  /** No look-up is under way, and the vertices in `todo` are not answered yet. */
  ghost predicate Resting(prio: seq<nat>, parent0: seq<nat>, l: Look) {
    && SameRoots(prio, parent0, l.parent) && AllFree(l)
    && forall v :: v in l.todo ==> v < |parent0| && v !in l.ans
  }

  lemma RestsNow(prio: seq<nat>, parent0: seq<nat>, l: Look)
    requires LookInv(prio, parent0, l) && AllFree(l)
    ensures Resting(prio, parent0, l)
  {
    forall v | v in l.todo ensures v < |parent0| && v !in l.ans { assert Handled(l, v); }
  }

  /** All remaining vertices can be looked up one after the other in any order, with exact answers. */
  lemma {:induction false} CompleteAll(prio: seq<nat>, parent0: seq<nat>, l0: Look, bs: Begun, l: Look, order: Begun)
    returns (l': Look)
    requires Resting(prio, parent0, l) && Reach(l0, bs, l) && Covers(order, |l.slots|, l.todo)
    ensures Reach(l0, bs + order, l') && Finished(l') && Completes(prio, parent0, l.todo, l.ans, l'.ans)
    decreases |order|
  {
    if order == [] {
      NothingNamed(l.todo, |l.slots|);
      l' := l;
      assert bs + order == bs;
    } else {
      var (t, v) := order[0];
      CoversTail(order, |l.slots|, l.todo);
      var l1 := OneAlone(prio, parent0, l0, bs, l, t, v);
      l' := CompleteAll(prio, parent0, l0, bs + [(t, v)], l1, order[1..]);
      assert bs + [(t, v)] + order[1..] == bs + order;
      CompletesOne(prio, parent0, l.todo, l.ans, l'.ans, v);
    }
  }

  lemma OneAlone(prio: seq<nat>, parent0: seq<nat>, l0: Look, bs: Begun, l: Look, t: nat, v: nat) returns (l1: Look)
    requires Resting(prio, parent0, l) && Reach(l0, bs, l) && t < |l.slots| && v in l.todo
    ensures Reach(l0, bs + [(t, v)], l1) && Resting(prio, parent0, l1) && l1.slots == l.slots
    ensures l1.todo == l.todo - {v} && l1.ans == l.ans[v := Root(prio, parent0, v)]
  {
    var q := LookAlone(prio, l0, bs, l, t, v);
    SameRootsTrans(prio, parent0, l.parent, q);
    l1 := Look(q, l.slots, l.todo - {v}, l.ans[v := Root(prio, parent0, v)]);
  }

  lemma LookAlone(prio: seq<nat>, l0: Look, bs: Begun, l: Look, t: nat, v: nat) returns (q: seq<nat>)
    requires Fine(l) && Ascending(prio, l.parent) && Reach(l0, bs, l) && v in l.todo && v < |l.parent|
    requires t < |l.slots| && l.slots[t].Free?
    ensures SameRoots(prio, l.parent, q)
    ensures Reach(l0, bs + [(t, v)], Look(q, l.slots, l.todo - {v}, l.ans[v := Root(prio, l.parent, v)]))
  {
    ReachBegin(l0, bs, l, t, v);
    q := AloneFrom(prio, l0, bs + [(t, v)], l.(todo := l.todo - {v}), t, v, v, 0);
    assert l.slots[t := Free] == l.slots;
  }

  // ---------- the condition ----------

  /** This run of the look-ups is complete, gives these answers and leaves this array. */
  ghost predicate Answers(parent: seq<nat>, threads: nat, moves: Moves, arr: seq<nat>, after: seq<nat>) {
    var l := Looked(LookStart(parent, threads), moves);
    && |arr| == |parent| && Finished(l) && l.parent == after
    && forall v :: 0 <= v < |parent| ==> v in l.ans && l.ans[v] == arr[v]
  }

  /** Some complete run with this many threads, which take the vertices in any order, gives these answers. */
  ghost predicate CanAnswer(parent: seq<nat>, threads: nat, arr: seq<nat>, after: seq<nat>) {
    exists moves: Moves :: Answers(parent, threads, moves, arr, after)
  }

  /** A run with some answers in can be completed, in any order, with exact answers for the rest. */
  lemma AnswerFrom(prio: seq<nat>, parent: seq<nat>, threads: nat, bs: Begun, l: Look, order: Begun)
    returns (moves: Moves, arr: seq<nat>, after: seq<nat>)
    requires Ascending(prio, parent) && Reach(LookStart(parent, threads), bs, l) && AllFree(l)
    requires |l.slots| == threads && Covers(order, threads, l.todo)
    ensures Answers(parent, threads, moves, arr, after) && Begins(moves) == bs + order && |arr| == |parent|
    ensures forall v :: 0 <= v < |arr| ==> arr[v] == if v in l.ans then l.ans[v] else Root(prio, parent, v)
  {
    ReachInv(prio, parent, threads, bs, l);
    RestsNow(prio, parent, l);
    var l' := CompleteAll(prio, parent, LookStart(parent, threads), bs, l, order);
    moves :| Looked(LookStart(parent, threads), moves) == l' && Begins(moves) == bs + order;
    arr := seq(|parent|, v requires 0 <= v < |parent| => if v in l.ans then l.ans[v] else Root(prio, parent, v));
    after := l'.parent;
    AllAnswered(prio, parent, l, l', arr);
  }

  lemma AllAnswered(prio: seq<nat>, parent: seq<nat>, l: Look, l': Look, arr: seq<nat>)
    requires LookInv(prio, parent, l) && AllFree(l) && Completes(prio, parent, l.todo, l.ans, l'.ans)
    requires |arr| == |parent|
    requires forall v :: 0 <= v < |arr| ==> arr[v] == if v in l.ans then l.ans[v] else Root(prio, parent, v)
    ensures forall v :: 0 <= v < |parent| ==> v in l'.ans && l'.ans[v] == arr[v]
  {
    forall v | 0 <= v < |parent| ensures v in l'.ans && l'.ans[v] == arr[v] {
      assert Handled(l, v);
      if v !in l.ans { NobodyWorks(l, v); }
    }
  }

  lemma NobodyWorks(l: Look, v: nat)
    requires AllFree(l) && Handled(l, v) && v !in l.ans
    ensures v in l.todo
  {
  }

  /** Any set of vertices can be looked up by thread 0, one after the other. */
  lemma {:induction false} SomeOrder(todo: set<nat>) returns (order: Begun)
    ensures Covers(order, 1, todo)
    decreases todo
  {
    if todo == {} {
      order := [];
    } else {
      var v :| v in todo;
      var rest := SomeOrder(todo - {v});
      order := [(0, v)] + rest;
      forall w | w in todo ensures Named(order, w) {
        if w == v {
          assert order[0].1 == w;
        } else {
          assert Named(rest, w);
          var i :| 0 <= i < |rest| && rest[i].1 == w;
          assert order[i + 1].1 == w;
        }
      }
    }
  }

  /** Every complete run answers every vertex with its root. */
  ghost predicate AlwaysRoots(prio: seq<nat>, parent: seq<nat>, threads: nat)
    requires Ascending(prio, parent)
  {
    forall moves: Moves :: Finished(Looked(LookStart(parent, threads), moves)) ==>
      RootAnswers(prio, parent, Looked(LookStart(parent, threads), moves).ans)
  }

  lemma {:induction false} FiveLinksUp(prio: seq<nat>, parent: seq<nat>, u: nat) returns (w: nat)
    requires Ascending(prio, parent) && u < |parent| && Links(prio, parent, u) >= 5
    ensures w < |parent| && Links(prio, parent, w) == 5
    decreases Height(prio, u)
  {
    if Links(prio, parent, u) == 5 {
      w := u;
    } else {
      HeightDecreases(prio, parent[u], u);
      w := FiveLinksUp(prio, parent, parent[u]);
    }
  }

  lemma ChainFrom(prio: seq<nat>, parent: seq<nat>, w: nat)
    requires Ascending(prio, parent) && w < |parent| && Links(prio, parent, w) == 5
    ensures var a := parent[w]; var u := parent[a]; var p := parent[u];
            Chain(parent, w, a, u, p, parent[p], parent[parent[p]])
  {
    var a := parent[w];
    var u := parent[a];
    var p := parent[u];
    var g := parent[p];
    var x := parent[g];
    assert Links(prio, parent, a) == 4 && Links(prio, parent, u) == 3;
    assert Links(prio, parent, p) == 2 && Links(prio, parent, g) == 1 && Links(prio, parent, x) == 0;
  }

  lemma ReachInv(prio: seq<nat>, parent: seq<nat>, threads: nat, bs: Begun, l: Look)
    requires Ascending(prio, parent) && Reach(LookStart(parent, threads), bs, l)
    ensures LookInv(prio, parent, l)
  {
    var moves: Moves :| Looked(LookStart(parent, threads), moves) == l && Begins(moves) == bs;
    StartInv(prio, parent, threads);
    LookedInv(prio, parent, LookStart(parent, threads), moves);
  }

  /** Negative half: a vertex five links down, two threads, and some complete run answers with a non-root. */
  lemma DeepIsInexact(prio: seq<nat>, parent: seq<nat>, threads: nat, deep: nat)
    requires Ascending(prio, parent) && threads >= 2 && deep < |parent| && Links(prio, parent, deep) >= 5
    ensures !AlwaysRoots(prio, parent, threads)
  {
    var w := FiveLinksUp(prio, parent, deep);
    ChainFrom(prio, parent, w);
    var a := parent[w];
    var u := parent[a];
    var p := parent[u];
    var g := parent[p];
    var l0 := LookStart(parent, threads);
    StartInv(prio, parent, threads);
    FineStep(prio, parent, l0);
    ReachSelf(l0);
    RacePair(l0, [], l0, 0, 1, w, a, u, p, g, parent[g]);
    var bs: Begun := [] + [(1, w), (0, u)];
    var l := Look(parent[w := u][u := g], l0.slots, l0.todo - {w} - {u}, l0.ans[u := g][w := parent[g]]);
    var order := SomeOrder(l.todo);
    var moves, arr, after := AnswerFrom(prio, parent, threads, bs, l, order);
    assert arr[u] == g && parent[g] != g;
  }

  /** With at least two threads, looking up each vertex once gives the roots under every assignment to threads and
      every interleaving if and only if no vertex is more than four links below its root. */
  lemma OnceExactIff(prio: seq<nat>, parent: seq<nat>, threads: nat)
    requires Ascending(prio, parent) && threads >= 2
    ensures AlwaysRoots(prio, parent, threads) <==> AtMostFour(prio, parent)
  {
    if AtMostFour(prio, parent) {
      forall moves: Moves ensures RootAnswers(prio, parent, Looked(LookStart(parent, threads), moves).ans) {
        ExactWhenShallow(prio, parent, threads, moves);
      }
    } else {
      var u :| 0 <= u < |parent| && Links(prio, parent, u) > 4;
      DeepIsInexact(prio, parent, threads, u);
    }
  }
}
