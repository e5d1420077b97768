/** Look-ups whose vertices are dealt to the threads beforehand: every thread has a queue and works through it in order,
    as when the merge list is rebuilt. */
module LookUpQueues {
  import opened DisjointSets
  import opened LookUps
  import opened LookUpsExact
  import opened LookUpRaces
  import opened LookUpRun

  type Queues = seq<seq<nat>>

  /** The vertices that thread `t` begins, in order. */
  function Project(bs: Begun, t: nat): seq<nat> {
    if bs == [] then [] else (if bs[0].0 == t then [bs[0].1] else []) + Project(bs[1..], t)
  }

  lemma {:induction false} ProjectConcat(a: Begun, b: Begun, t: nat)
    ensures Project(a + b, t) == Project(a, t) + Project(b, t)
    decreases |a|
  {
    if a == [] {
      assert a + b == b;
    } else {
      ProjectConcat(a[1..], b, t);
      assert (a + b)[1..] == a[1..] + b;
    }
  }

  lemma ProjectOne(t: nat, v: nat, s: nat)
    ensures Project([(t, v)], s) == if s == t then [v] else []
  {
    var bs: Begun := [(t, v)];
    assert bs[1..] == [];
    assert Project(bs, s) == (if bs[0].0 == s then [bs[0].1] else []) + Project(bs[1..], s);
  }

  /** Every thread begins exactly its queue, in order. */
  ghost predicate Follows(qs: Queues, bs: Begun) { forall t: nat :: t < |qs| ==> Project(bs, t) == qs[t] }

  /** Some complete run in which every thread works through its queue gives these answers and leaves this array. */
  ghost predicate CanAnswerBy(parent: seq<nat>, qs: Queues, arr: seq<nat>, after: seq<nat>) {
    exists moves: Moves :: Answers(parent, |qs|, moves, arr, after) && Follows(qs, Begins(moves))
  }

  /** Such a run is one of the runs in which vertices are taken freely. */
  lemma ByIsFree(parent: seq<nat>, qs: Queues, arr: seq<nat>, after: seq<nat>)
    requires CanAnswerBy(parent, qs, arr, after)
    ensures CanAnswer(parent, |qs|, arr, after)
  {
    var moves: Moves :| Answers(parent, |qs|, moves, arr, after) && Follows(qs, Begins(moves));
  }

  // ---------- dealing ----------

  ghost predicate Queued(qs: Queues, v: nat) { exists t, i :: 0 <= t < |qs| && 0 <= i < |qs[t]| && qs[t][i] == v }

  /** The queues hold every vertex of `todo` exactly once and nothing else. */
  ghost predicate Dealt(qs: Queues, todo: set<nat>) {
    && (forall t, i :: 0 <= t < |qs| && 0 <= i < |qs[t]| ==> qs[t][i] in todo)
    && (forall t, i, s, j :: 0 <= t < |qs| && 0 <= i < |qs[t]| && 0 <= s < |qs|
                          && 0 <= j < |qs[s]| && (t != s || i != j)
          ==> qs[t][i] != qs[s][j])
    && (forall v :: v in todo ==> Queued(qs, v))
  }

  function Tail(qs: Queues, t: nat): Queues
    requires t < |qs| && qs[t] != []
  {
    qs[t := qs[t][1..]]
  }

  lemma TailIndex(qs: Queues, t: nat, s: nat, j: nat)
    requires t < |qs| && qs[t] != [] && s < |qs| && j < |Tail(qs, t)[s]|
    ensures var i := if s == t then j + 1 else j; i < |qs[s]| && Tail(qs, t)[s][j] == qs[s][i]
  {
  }

  lemma TailDealt(qs: Queues, todo: set<nat>, t: nat)
    requires Dealt(qs, todo) && t < |qs| && qs[t] != []
    ensures Dealt(Tail(qs, t), todo - {qs[t][0]})
  {
    var r := Tail(qs, t);
    forall s, j | 0 <= s < |r| && 0 <= j < |r[s]| ensures r[s][j] in todo - {qs[t][0]} { TailIndex(qs, t, s, j); }
    forall s, i, s', i' | 0 <= s < |r| && 0 <= i < |r[s]| && 0 <= s' < |r| && 0 <= i' < |r[s']| && (s != s' || i != i')
      ensures r[s][i] != r[s'][i']
    {
      TailIndex(qs, t, s, i);
      TailIndex(qs, t, s', i');
    }
    forall v | v in todo - {qs[t][0]} ensures Queued(r, v) {
      assert Queued(qs, v);
      var s, i :| 0 <= s < |qs| && 0 <= i < |qs[s]| && qs[s][i] == v;
      if s == t { assert r[s][i - 1] == v; } else { assert r[s][i] == v; }
    }
  }

  lemma NothingQueued(qs: Queues, todo: set<nat>)
    requires Dealt(qs, todo) && forall t :: 0 <= t < |qs| ==> qs[t] == []
    ensures todo == {}
  {
    assert forall v :: v in todo ==> Queued(qs, v);
  }

  // ---------- running them ----------

  /** A move that the scheduler may pick: a busy thread goes on, a free one takes the head of its queue. */
  predicate PossibleBy(l: Look, rest: Queues, t: nat, mv: Move) {
    t < |l.slots| == |rest| && if l.slots[t].Busy? then mv.Go? else rest[t] != [] && mv == Begin(rest[t][0])
  }

  method PickBy(l: Look, rest: Queues) returns (t: nat, mv: Move)
    requires |rest| == |l.slots| && Dealt(rest, l.todo) && !Finished(l)
    ensures PossibleBy(l, rest, t, mv)
  {
    if forall t :: 0 <= t < |rest| ==> rest[t] == [] { NothingQueued(rest, l.todo); }
    t :| 0 <= t < |l.slots| && (l.slots[t].Busy? || rest[t] != []);
    if l.slots[t].Busy? {
      var choice: bool := *;
      mv := Go(choice);
    } else {
      mv := Begin(rest[t][0]);
    }
  }

  function RestAfter(rest: Queues, t: nat, mv: Move): Queues
    requires mv.Begin? ==> t < |rest| && rest[t] != []
  {
    if mv.Begin? then Tail(rest, t) else rest
  }

  /** What has been begun followed by what is left is the queue. */
  ghost predicate Splits(qs: Queues, bs: Begun, rest: Queues) {
    |rest| == |qs| && forall t: nat :: t < |qs| ==> Project(bs, t) + rest[t] == qs[t]
  }

  lemma SplitOne(q: seq<nat>, bs: Begun, rest: seq<nat>, t: nat, mv: Move, s: nat)
    requires Project(bs, s) + rest == q && (mv.Begin? && s == t ==> rest != [] && mv.v == rest[0])
    ensures Project(bs + BegunBy(t, mv), s) + (if mv.Begin? && s == t then rest[1..] else rest) == q
  {
    var before := Project(bs, s);
    ProjectConcat(bs, BegunBy(t, mv), s);
    if mv.Begin? { ProjectOne(t, mv.v, s); }
    if mv.Begin? && s == t {
      assert (before + [mv.v]) + rest[1..] == before + rest;
    } else {
      assert before + [] == before;
    }
  }

  lemma BeginsSnoc(moves: Moves, t: nat, mv: Move)
    ensures Begins(moves + [(t, mv)]) == Begins(moves) + BegunBy(t, mv)
  {
    var one: Moves := [(t, mv)];
    BeginsConcat(moves, one);
    assert one[1..] == [];
    assert Begins(one) == BegunBy(t, mv) + Begins(one[1..]);
  }

  lemma SplitsNext(qs: Queues, moves: Moves, rest: Queues, t: nat, mv: Move)
    requires Splits(qs, Begins(moves), rest) && (mv.Begin? ==> t < |rest| && rest[t] != [] && mv.v == rest[t][0])
    ensures Splits(qs, Begins(moves + [(t, mv)]), RestAfter(rest, t, mv))
  {
    BeginsSnoc(moves, t, mv);
    forall s: nat | s < |qs| ensures Project(Begins(moves + [(t, mv)]), s) + RestAfter(rest, t, mv)[s] == qs[s] {
      SplitOne(qs[s], Begins(moves), rest[s], t, mv, s);
    }
  }

  lemma RestDealt(prio: seq<nat>, parent: seq<nat>, l: Look, rest: Queues, t: nat, mv: Move)
    requires LookInv(prio, parent, l) && Dealt(rest, l.todo) && PossibleBy(l, rest, t, mv)
    ensures Possible(l, t, mv) && Fine(l)
    ensures mv.Begin? ==> rest[t] != []
    ensures Dealt(RestAfter(rest, t, mv), LookStep(l, t, mv).todo) && |LookStep(l, t, mv).slots| == |l.slots|
  {
    FineStep(prio, parent, l);
    if mv.Begin? {
      assert rest[t][0] in l.todo;
      assert Handled(l, mv.v);
      TailDealt(rest, l.todo, t);
    }
  }

  lemma AllBegun(qs: Queues, bs: Begun, rest: Queues)
    requires Splits(qs, bs, rest) && Dealt(rest, {})
    ensures Follows(qs, bs)
  {
    HeadsDealt(rest, {});
  }

  lemma HeadsDealt(rest: Queues, todo: set<nat>)
    requires Dealt(rest, todo)
    ensures forall t: nat :: t < |rest| ==> rest[t] == [] || rest[t][0] in todo
  {
  }

  /** After some moves: what is left to look up is what is left of the queues. */
  ghost predicate Working(prio: seq<nat>, parent: seq<nat>, qs: Queues, l: Look, rest: Queues, moves: Moves) {
    && LookInv(prio, parent, l) && |l.slots| == |qs| == |rest| && Looked(LookStart(parent, |qs|), moves) == l
    && Dealt(rest, l.todo) && Splits(qs, Begins(moves), rest)
  }

  lemma WorksOn(prio: seq<nat>, parent: seq<nat>, qs: Queues, l: Look, rest: Queues, moves: Moves, t: nat, mv: Move)
    requires Working(prio, parent, qs, l, rest, moves) && PossibleBy(l, rest, t, mv)
    ensures Fine(l) && (mv.Begin? ==> rest[t] != [])
    ensures Working(prio, parent, qs, LookStep(l, t, mv), RestAfter(rest, t, mv), moves + [(t, mv)])
    ensures Work(prio, LookStep(l, t, mv)) < Work(prio, l)
  {
    RestDealt(prio, parent, l, rest, t, mv);
    LookStepInv(prio, parent, l, t, mv);
    MoveLighter(prio, parent, l, t, mv);
    LookedSnoc(LookStart(parent, |qs|), moves, l, t, mv);
    SplitsNext(qs, moves, rest, t, mv);
  }

  lemma WorkDone(prio: seq<nat>, parent: seq<nat>, qs: Queues, l: Look, rest: Queues, moves: Moves, arr: seq<nat>)
    requires Working(prio, parent, qs, l, rest, moves) && Finished(l) && |arr| == |parent|
    requires forall v :: 0 <= v < |parent| ==> v in l.ans && arr[v] == l.ans[v]
    ensures CanAnswerBy(parent, qs, arr, l.parent)
  {
    AllBegun(qs, Begins(moves), rest);
    assert Answers(parent, |qs|, moves, arr, l.parent);
  }

  /** Look up every vertex, each thread working through its queue, under any interleaving: the answers lie in the right
      sets and no root changes; with one thread, or at most four links everywhere, all answers are roots. */
  method LookUpDealt(prio: seq<nat>, parent: seq<nat>, qs: Queues) returns (arr: seq<nat>, after: seq<nat>)
    requires Ascending(prio, parent) && |qs| > 0 && Dealt(qs, Upto(0, |parent|))
    ensures CanAnswerBy(parent, qs, arr, after)
    ensures SameRoots(prio, parent, after) && SetAnswers(prio, parent, arr)
    ensures |qs| == 1 || AtMostFour(prio, parent) ==> AllRoots(prio, parent, arr)
  {
    var l, rest := LookStart(parent, |qs|), qs;
    ghost var moves: Moves := [];
    StartInv(prio, parent, |qs|);
    while !Finished(l)
      invariant Working(prio, parent, qs, l, rest, moves)
      decreases Work(prio, l)
    {
      var t, mv := PickBy(l, rest);
      WorksOn(prio, parent, qs, l, rest, moves, t, mv);
      rest := RestAfter(rest, t, mv);
      moves := moves + [(t, mv)];
      l := LookStep(l, t, mv);
    }
    arr := ReadAnswers(prio, parent, l);
    after := l.parent;
    WorkDone(prio, parent, qs, l, rest, moves, arr);
    ByIsFree(parent, qs, arr, after);
    CanAnswerFacts(prio, parent, |qs|, arr, after);
  }

  // ---------- when the answers are exact ----------

  /** Every complete run in which the threads work through these queues answers every vertex with its root. */
  ghost predicate AlwaysRootsBy(prio: seq<nat>, parent: seq<nat>, qs: Queues)
    requires Ascending(prio, parent)
  {
    forall arr, after :: CanAnswerBy(parent, qs, arr, after) ==> AllRoots(prio, parent, arr)
  }

  /** One queue, or no vertex deeper than four links. */
  lemma DealtExact(prio: seq<nat>, parent: seq<nat>, qs: Queues)
    requires Ascending(prio, parent) && (|qs| == 1 || AtMostFour(prio, parent))
    ensures AlwaysRootsBy(prio, parent, qs)
  {
    forall arr, after | CanAnswerBy(parent, qs, arr, after) ensures AllRoots(prio, parent, arr) {
      var moves: Moves :| Answers(parent, |qs|, moves, arr, after) && Follows(qs, Begins(moves));
      ExactWhenShallow(prio, parent, |qs|, moves);
    }
  }

  /** What is left of each queue, thread after thread. */
  function Flat(qs: Queues, k: nat): Begun
    requires k <= |qs|
  {
    if k == 0 then [] else Flat(qs, k - 1) + OfThread(k - 1, qs[k - 1])
  }

  function OfThread(t: nat, q: seq<nat>): (bs: Begun)
    ensures |bs| == |q| && forall i :: 0 <= i < |q| ==> bs[i] == (t, q[i])
  {
    seq(|q|, i requires 0 <= i < |q| => (t, q[i]))
  }

  lemma {:induction false} ProjectOfThread(t: nat, q: seq<nat>, s: nat)
    ensures Project(OfThread(t, q), s) == if s == t then q else []
  {
    if q != [] {
      ProjectOfThread(t, q[1..], s);
      assert OfThread(t, q)[1..] == OfThread(t, q[1..]);
      assert q == [q[0]] + q[1..];
    }
  }

  lemma FlatSnoc(q: seq<nat>, bs: Begun, t: nat, s: nat)
    ensures Project(bs + OfThread(t, q), s) == if s == t then Project(bs, s) + q else Project(bs, s)
  {
    ProjectConcat(bs, OfThread(t, q), s);
    ProjectOfThread(t, q, s);
    assert Project(bs, s) + [] == Project(bs, s);
  }

  lemma {:induction false} ProjectFlat(qs: Queues, k: nat, s: nat)
    requires k <= |qs|
    ensures Project(Flat(qs, k), s) == if s < k then qs[s] else []
  {
    if k > 0 {
      ProjectFlat(qs, k - 1, s);
      FlatSnoc(qs[k - 1], Flat(qs, k - 1), k - 1, s);
    }
  }

  /** Where an entry of `Flat` comes from. */
  lemma {:induction false} FlatFrom(qs: Queues, k: nat, i: nat) returns (t: nat, j: nat)
    requires k <= |qs| && i < |Flat(qs, k)|
    ensures t < k && j < |qs[t]| && Flat(qs, k)[i] == (t, qs[t][j])
    ensures i == |Flat(qs, t)| + j
  {
    var n := |Flat(qs, k - 1)|;
    if i < n { t, j := FlatFrom(qs, k - 1, i); } else { t, j := k - 1, i - n; }
  }

  lemma {:induction false} FlatHas(qs: Queues, k: nat, t: nat, j: nat)
    requires t < k <= |qs| && j < |qs[t]|
    ensures Named(Flat(qs, k), qs[t][j])
  {
    var n := |Flat(qs, k - 1)|;
    if t == k - 1 {
      assert Flat(qs, k)[n + j].1 == qs[t][j];
    } else {
      FlatHas(qs, k - 1, t, j);
      var i :| 0 <= i < n && Flat(qs, k - 1)[i].1 == qs[t][j];
      assert Flat(qs, k)[i].1 == qs[t][j];
    }
  }

  lemma FlatCovers(qs: Queues, todo: set<nat>)
    requires Dealt(qs, todo)
    ensures Covers(Flat(qs, |qs|), |qs|, todo)
  {
    var f := Flat(qs, |qs|);
    forall i | 0 <= i < |f| ensures f[i].0 < |qs| && f[i].1 in todo { var t, j := FlatFrom(qs, |qs|, i); }
    forall a, b | 0 <= a < b < |f| ensures f[a].1 != f[b].1 {
      var t, j := FlatFrom(qs, |qs|, a);
      var s, k := FlatFrom(qs, |qs|, b);
    }
    forall v | v in todo ensures Named(f, v) {
      assert Queued(qs, v);
      var t, i :| 0 <= t < |qs| && 0 <= i < |qs[t]| && qs[t][i] == v;
      FlatHas(qs, |qs|, t, i);
    }
  }

  /** The state after the race, nobody at work. */
  lemma HeadsMeet(prio: seq<nat>, parent: seq<nat>, qs: Queues, tu: nat, tw: nat, w: nat, u: nat) returns (l: Look)
    requires Ascending(prio, parent) && tu < |qs| && tw < |qs| && tu != tw && w < |parent| && u < |parent|
    requires Links(prio, parent, w) == 5 && u == parent[parent[w]]
    ensures Reach(LookStart(parent, |qs|), [] + [(tw, w), (tu, u)], l) && AllFree(l) && |l.slots| == |qs|
    ensures l.todo == Upto(0, |parent|) - {w} - {u}
    ensures l.ans == map[][u := parent[parent[u]]][w := parent[parent[parent[u]]]]
  {
    ChainFrom(prio, parent, w);
    var p := parent[u];
    var g := parent[p];
    var l0 := LookStart(parent, |qs|);
    StartInv(prio, parent, |qs|);
    FineStep(prio, parent, l0);
    ReachSelf(l0);
    RacePair(l0, [], l0, tu, tw, w, parent[w], u, p, g, parent[g]);
    l := Look(parent[w := u][u := g], l0.slots, l0.todo - {w} - {u}, l0.ans[u := g][w := parent[g]]);
  }

  /** A vertex five links below its root and its grandparent at the heads of two queues: some run, working through the
      queues, answers the grandparent with a vertex that is no root. */
  lemma HeadsRace(prio: seq<nat>, parent: seq<nat>, qs: Queues, tu: nat, tw: nat)
    returns (moves: Moves, arr: seq<nat>, after: seq<nat>)
    requires Ascending(prio, parent) && Dealt(qs, Upto(0, |parent|)) && tu < |qs| && tw < |qs| && tu != tw
    requires qs[tu] != [] && qs[tw] != [] && qs[tw][0] < |parent| && Links(prio, parent, qs[tw][0]) == 5
    requires qs[tu][0] == parent[parent[qs[tw][0]]]
    ensures Answers(parent, |qs|, moves, arr, after) && Follows(qs, Begins(moves)) && |arr| == |parent|
    ensures forall v :: 0 <= v < |arr| && v != qs[tu][0] ==> arr[v] == Root(prio, parent, v)
    ensures qs[tu][0] < |parent| && arr[qs[tu][0]] == parent[parent[qs[tu][0]]] && !AllRoots(prio, parent, arr)
  {
    var w, u := qs[tw][0], qs[tu][0];
    ChainFrom(prio, parent, w);
    var l := HeadsMeet(prio, parent, qs, tu, tw, w, u);
    var rest := RestCovers(qs, Upto(0, |parent|), tu, tw);
    moves, arr, after := AnswerFrom(prio, parent, |qs|, [] + [(tw, w), (tu, u)], l, Flat(rest, |rest|));
    HeadsFollow(qs, tu, tw, w, u);
    RaceRoots(prio, parent, w);
  }

  lemma RestCovers(qs: Queues, todo: set<nat>, tu: nat, tw: nat) returns (rest: Queues)
    requires Dealt(qs, todo) && tu < |qs| && tw < |qs| && tu != tw && qs[tu] != [] && qs[tw] != []
    ensures rest == Tail(Tail(qs, tw), tu) && |rest| == |qs|
    ensures Covers(Flat(rest, |rest|), |qs|, todo - {qs[tw][0]} - {qs[tu][0]})
  {
    TailDealt(qs, todo, tw);
    TailDealt(Tail(qs, tw), todo - {qs[tw][0]}, tu);
    rest := Tail(Tail(qs, tw), tu);
    FlatCovers(rest, todo - {qs[tw][0]} - {qs[tu][0]});
  }

  lemma RaceRoots(prio: seq<nat>, parent: seq<nat>, w: nat)
    requires Ascending(prio, parent) && w < |parent| && Links(prio, parent, w) == 5
    ensures var a := parent[w]; var u := parent[a]; var p := parent[u]; var g := parent[p];
            Root(prio, parent, w) == Root(prio, parent, u) == parent[g] && g != parent[g]
  {
    ChainFrom(prio, parent, w);
    var a := parent[w];
    var u := parent[a];
    var p := parent[u];
    var g := parent[p];
    assert Root(prio, parent, parent[g]) == parent[g] && Root(prio, parent, g) == parent[g];
    assert Root(prio, parent, p) == parent[g] && Root(prio, parent, u) == parent[g] &&
        Root(prio, parent, a) == parent[g];
  }

  lemma FollowsCons(qs: Queues, t: nat, bs: Begun)
    requires t < |qs| && qs[t] != [] && Follows(Tail(qs, t), bs)
    ensures Follows(qs, [(t, qs[t][0])] + bs)
  {
    forall s: nat | s < |qs| ensures Project([(t, qs[t][0])] + bs, s) == qs[s] {
      ProjectConcat([(t, qs[t][0])], bs, s);
      ProjectOne(t, qs[t][0], s);
      assert Project(bs, s) == Tail(qs, t)[s];
      if s == t { assert qs[t] == [qs[t][0]] + qs[t][1..]; }
    }
  }

  lemma HeadsFollow(qs: Queues, tu: nat, tw: nat, w: nat, u: nat)
    requires tu < |qs| && tw < |qs| && tu != tw && qs[tu] != [] && qs[tw] != [] && w == qs[tw][0] && u == qs[tu][0]
    ensures var rest := Tail(Tail(qs, tw), tu); Follows(qs, ([] + [(tw, w), (tu, u)]) + Flat(rest, |rest|))
  {
    var rest := Tail(Tail(qs, tw), tu);
    var f := Flat(rest, |rest|);
    forall t: nat | t < |rest| ensures Project(f, t) == rest[t] { ProjectFlat(rest, |rest|, t); }
    FollowsCons(Tail(qs, tw), tu, f);
    FollowsCons(qs, tw, [(tu, u)] + f);
    assert [(tw, w)] + ([(tu, u)] + f) == ([] + [(tw, w), (tu, u)]) + f;
  }

  lemma OwnQueue(qs: Queues, todo: set<nat>, v: nat) returns (t: nat)
    requires Dealt(qs, todo) && v in todo && forall t :: 0 <= t < |qs| ==> |qs[t]| <= 1
    ensures t < |qs| && qs[t] == [v]
  {
    assert Queued(qs, v);
    var s, i :| 0 <= s < |qs| && 0 <= i < |qs[s]| && qs[s][i] == v;
    t := s;
  }

  /** With one vertex per thread, looking up each vertex gives the roots under every interleaving if and only if no
      vertex is more than four links below its root. */
  lemma OnePerThreadExactIff(prio: seq<nat>, parent: seq<nat>, qs: Queues)
    requires Ascending(prio, parent) && Dealt(qs, Upto(0, |parent|)) && forall t :: 0 <= t < |qs| ==> |qs[t]| <= 1
    ensures AlwaysRootsBy(prio, parent, qs) <==> AtMostFour(prio, parent)
  {
    if AtMostFour(prio, parent) {
      DealtExact(prio, parent, qs);
    } else {
      var deep :| 0 <= deep < |parent| && Links(prio, parent, deep) > 4;
      var w := FiveLinksUp(prio, parent, deep);
      OwnThreadsRace(prio, parent, qs, w);
    }
  }

  lemma OwnThreadsRace(prio: seq<nat>, parent: seq<nat>, qs: Queues, w: nat)
    requires Ascending(prio, parent) && Dealt(qs, Upto(0, |parent|)) && forall t :: 0 <= t < |qs| ==> |qs[t]| <= 1
    requires w < |parent| && Links(prio, parent, w) == 5
    ensures !AlwaysRootsBy(prio, parent, qs)
  {
    ChainFrom(prio, parent, w);
    var tw := OwnQueue(qs, Upto(0, |parent|), w);
    var tu := OwnQueue(qs, Upto(0, |parent|), parent[parent[w]]);
    var moves, arr, after := HeadsRace(prio, parent, qs, tu, tw);
    assert CanAnswerBy(parent, qs, arr, after);
  }
}
