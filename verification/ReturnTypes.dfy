/** The query answers: components as an array of roots, and their component sets. */
module ReturnTypes {
  import opened DisjointSets
  import opened LookUps
  import opened LookUpsExact
  import opened LookUpRaces
  import opened LookUpRun

  lemma CountOne(parent: seq<nat>, todo: set<nat>, i: nat)
    requires i in todo
    ensures |RootSet(parent) - (todo - {i})| == |RootSet(parent) - todo| + if i in RootSet(parent) then 1 else 0
  {
    var R := RootSet(parent);
    if i in R {
      assert R - (todo - {i}) == (R - todo) + {i};
    } else {
      assert R - (todo - {i}) == R - todo;
    }
  }

  lemma SameFixedPoints(prio: seq<nat>, parent: seq<nat>, arr: seq<nat>)
    requires Ascending(prio, parent) && SetAnswers(prio, parent, arr)
    ensures RootSet(arr) == RootSet(parent)
  {
    forall v: nat ensures v in RootSet(arr) <==> v in RootSet(parent) {
      if v < |arr| { assert AnswerOk(prio, parent, v, arr[v]); }
    }
  }

  /** The `ConnectedComponents` constructor: one racing look-up per vertex, and an atomic counter of the vertices that
      answer themselves. The count is exact under every interleaving and every answer lies in the set of its vertex;
      the answers are roots with one thread or when no vertex is more than four links below its root. */
  method ComponentsOf(prio: seq<nat>, parent: seq<nat>, threads: nat)
    returns (arr: seq<nat>, numCc: nat, after: seq<nat>)
    requires Ascending(prio, parent) && threads > 0
    ensures CanAnswer(parent, threads, arr, after) && SameRoots(prio, parent, after)
    ensures SetAnswers(prio, parent, arr) && RootSet(arr) == RootSet(parent) && numCc == |RootSet(parent)|
    ensures threads == 1 || AtMostFour(prio, parent) ==> AllRoots(prio, parent, arr)
  {
    arr, after := LookUpAll(prio, parent, threads);
    SameFixedPoints(prio, parent, arr);
    numCc := 0;
    var todo := Upto(0, |parent|);
    assert RootSet(parent) - todo == {};
    while todo != {}
      invariant todo <= Upto(0, |parent|) && numCc == |RootSet(parent) - todo|
    {
      var i :| i in todo;
      CountOne(parent, todo, i);
      assert AnswerOk(prio, parent, i, arr[i]);
      if arr[i] == i { numCc := numCc + 1; }
      todo := todo - {i};
    }
    assert RootSet(parent) - todo == RootSet(parent);
  }

  /** The positions before `k` that hold `root`. */
  function Members(arr: seq<nat>, root: nat, k: nat): set<nat>
    requires k <= |arr|
  {
    set v: nat | v < k && arr[v] == root
  }

  method GroupByEntry(arr: seq<nat>) returns (temp: map<nat, set<nat>>)
    ensures forall r :: r in temp ==> temp[r] == Members(arr, r, |arr|) && temp[r] != {}
    ensures forall v :: 0 <= v < |arr| ==> arr[v] in temp
  {
    temp := map[];
    var i := 0;
    while i < |arr|
      invariant i <= |arr|
      invariant forall r :: r in temp ==> temp[r] == Members(arr, r, i) && temp[r] != {}
      invariant forall r: nat :: r !in temp ==> Members(arr, r, i) == {}
    {
      forall q: nat ensures Members(arr, q, i + 1) == Members(arr, q, i) + if q == arr[i] then {i} else {} { }
      temp := temp[arr[i] := (if arr[i] in temp then temp[arr[i]] else {}) + {i}];
      i := i + 1;
    }
    forall v | 0 <= v < |arr| ensures arr[v] in temp { assert v in Members(arr, arr[v], |arr|); }
  }

  /** A vertex is in one of the sets. */
  ghost predicate Covered(sets: seq<set<nat>>, v: nat) { exists j :: 0 <= j < |sets| && v in sets[j] }

  /** The set is one class of equal array entries. */
  ghost predicate IsClass(arr: seq<nat>, s: set<nat>) {
    exists v :: 0 <= v < |arr| && s == Members(arr, arr[v], |arr|)
  }

  /** `get_component_sets`: the classes of equal array entries, each once. */
  method GetComponentSets(arr: seq<nat>) returns (sets: seq<set<nat>>)
    ensures forall j :: 0 <= j < |sets| ==> IsClass(arr, sets[j])
    ensures forall v: nat :: v < |arr| ==> Covered(sets, v)
    ensures forall a, b :: 0 <= a < b < |sets| ==> sets[a] !! sets[b]
  {
    var temp := GroupByEntry(arr);
    ghost var roots: seq<nat>;
    sets, roots := ListValues(temp);
    forall j | 0 <= j < |sets| ensures IsClass(arr, sets[j]) {
      var v :| v in sets[j];
      assert arr[v] == roots[j];
    }
    forall v: nat | v < |arr| ensures Covered(sets, v) {
      assert arr[v] in roots;
      var j :| 0 <= j < |roots| && roots[j] == arr[v];
      assert v in sets[j];
    }
  }

  method ListValues(temp: map<nat, set<nat>>) returns (sets: seq<set<nat>>, ghost roots: seq<nat>)
    ensures |sets| == |roots| && forall j :: 0 <= j < |sets| ==> roots[j] in temp && sets[j] == temp[roots[j]]
    ensures forall a, b :: 0 <= a < b < |roots| ==> roots[a] != roots[b]
    ensures forall r :: r in temp ==> r in roots
  {
    sets, roots := [], [];
    var rest := temp.Keys;
    while rest != {}
      invariant rest <= temp.Keys && |roots| == |sets|
      invariant forall j :: 0 <= j < |sets| ==> roots[j] in temp && roots[j] !in rest && sets[j] == temp[roots[j]]
      invariant forall a, b :: 0 <= a < b < |roots| ==> roots[a] != roots[b]
      invariant forall r :: r in temp && r !in rest ==> r in roots
    {
      var r :| r in rest;
      sets := sets + [temp[r]];
      roots := roots + [r];
      rest := rest - {r};
    }
  }
}
