/** Between two rounds: the union-find array as the round's own look-ups leave it, and the merge list of the next round
    from one racing look-up per vertex. */
module Regrouping {
  import opened DisjointSets
  import opened Partitions
  import opened CountingSort
  import opened Boruvka
  import opened MislabelledRounds
  import opened LookUpsExact
  import opened LookUpRun
  import opened LookUpQueues

  /** The stores of the look-ups inside the merges of a round: any number of times some vertex is hung below another
      vertex above it in its set. Which stores happen depends on the interleaving; roots never change. */
  method Settle(prio: seq<nat>, parent: seq<nat>) returns (q: seq<nat>)
    requires Ascending(prio, parent)
    ensures SameRoots(prio, parent, q)
  {
    SameRootsRefl(prio, parent);
    q := parent;
    var steps: nat := *;
    while steps > 0
      invariant SameRoots(prio, parent, q)
    {
      var u: nat, g: nat := *, *;
      if u < |q| && g < |q| && q[u] != u && Above(prio, g, u) && Same(prio, q, u, g) {
        HalvingKeepsPartition(prio, q, u, g);
        q := q[u := g];
      }
      steps := steps - 1;
    }
  }

  // ---------- which thread looks up which vertex ----------

  /** The children at positions lo, ..., hi - 1. */
  function Children(m: seq<MergeInstr>, lo: nat, hi: nat): (q: seq<nat>)
    requires lo <= hi <= |m|
    ensures |q| == hi - lo && forall i :: 0 <= i < |q| ==> q[i] == m[lo + i].child
  {
    if lo == hi then [] else Children(m, lo, hi - 1) + [m[hi - 1].child]
  }

  /** Thread `t` looks up the children of its part of the list, in list order. */
  function PartQueues(m: seq<MergeInstr>, bounds: seq<nat>): (qs: Queues)
    requires Bounds(bounds, |m|)
    ensures |qs| == |bounds| - 1
    ensures forall t: nat :: t < |qs| ==> PartInside(bounds, |m|, t) && qs[t] == Children(m, bounds[t], bounds[t + 1])
  {
    BoundsInside(bounds, |m|);
    seq(|bounds| - 1, t requires 0 <= t && PartInside(bounds, |m|, t) => Children(m, bounds[t], bounds[t + 1]))
  }

  predicate PartInside(bounds: seq<nat>, n: nat, t: nat) { t + 1 < |bounds| && bounds[t] < bounds[t + 1] <= n }

  lemma BoundsInside(bounds: seq<nat>, n: nat)
    requires Bounds(bounds, n)
    ensures forall t: nat :: t + 1 < |bounds| ==> PartInside(bounds, n, t)
  {
    forall t: nat | t + 1 < |bounds| ensures PartInside(bounds, n, t) {
      assert t + 1 == |bounds| - 1 || bounds[t + 1] < bounds[|bounds| - 1];
    }
  }

  /** Where an entry of a queue stands in the list. */
  lemma QueuePlace(m: seq<MergeInstr>, bounds: seq<nat>, t: nat, i: nat)
    requires Bounds(bounds, |m|) && t < |PartQueues(m, bounds)| && i < |PartQueues(m, bounds)[t]|
    ensures Owns(bounds, t, bounds[t] + i) && bounds[t] + i < |m|
    ensures PartQueues(m, bounds)[t][i] == m[bounds[t] + i].child
  {
    BoundsInside(bounds, |m|);
    assert PartInside(bounds, |m|, t);
  }

  lemma QueuesApart(m: seq<MergeInstr>, bounds: seq<nat>, t: nat, i: nat, s: nat, j: nat)
    requires Bounds(bounds, |m|) && EachOnce(m) && t < |PartQueues(m, bounds)| && i < |PartQueues(m, bounds)[t]|
    requires s < |PartQueues(m, bounds)| && j < |PartQueues(m, bounds)[s]| && (t != s || i != j)
    ensures PartQueues(m, bounds)[t][i] != PartQueues(m, bounds)[s][j]
  {
    QueuePlace(m, bounds, t, i);
    QueuePlace(m, bounds, s, j);
  }

  lemma PartsDeal(m: seq<MergeInstr>, bounds: seq<nat>)
    requires Bounds(bounds, |m|) && EachOnce(m)
    ensures Dealt(PartQueues(m, bounds), Upto(0, |m|))
  {
    var qs := PartQueues(m, bounds);
    forall t, i | 0 <= t < |qs| && 0 <= i < |qs[t]| ensures qs[t][i] in Upto(0, |m|) { QueuePlace(m, bounds, t, i); }
    forall t, i, s, j | 0 <= t < |qs| && 0 <= i < |qs[t]| && 0 <= s < |qs| && 0 <= j < |qs[s]| && (t != s || i != j)
      ensures qs[t][i] != qs[s][j]
    {
      QueuesApart(m, bounds, t, i, s, j);
    }
    forall v | v in Upto(0, |m|) ensures Queued(qs, v) { ChildQueued(m, bounds, v); }
  }

  lemma QueueOf(m: seq<MergeInstr>, bounds: seq<nat>, t: nat)
    requires Bounds(bounds, |m|) && t + 1 < |bounds|
    ensures PartInside(bounds, |m|, t) && PartQueues(m, bounds)[t] == Children(m, bounds[t], bounds[t + 1])
  {
    BoundsInside(bounds, |m|);
  }

  lemma ChildQueued(m: seq<MergeInstr>, bounds: seq<nat>, v: nat)
    requires Bounds(bounds, |m|) && EachOnce(m) && v < |m|
    ensures Queued(PartQueues(m, bounds), v)
  {
    assert ListsChild(m, v);
    var q :| 0 <= q < |m| && m[q].child == v;
    var t := OwnerExists(bounds, |m|, q);
    QueueOf(m, bounds, t);
    assert PartQueues(m, bounds)[t][q - bounds[t]] == v;
  }

  /** The labels `find` can come out of `create_merge_instructions` on the list `m`, leaving the array `after`. */
  ghost predicate CanLabel(m: seq<MergeInstr>, threads: nat, parent: seq<nat>, find: seq<nat>, after: seq<nat>) {
    0 < threads <= |m| && Bounds(BoundsFn(|m|, threads), |m|)
    && CanAnswerBy(parent, PartQueues(m, BoundsFn(|m|, threads)), find, after)
  }

  /** `create_merge_instructions`: every thread looks up the vertices of its part of the list, racing with the others,
      and the list is sorted by the answers. The labels are vertices of the right sets; they are roots with one thread
      or when no vertex is more than four links below its root. */
  method CreateMergeInstructions(m: array<MergeInstr>, prio: seq<nat>, parent: seq<nat>, threads: nat)
    returns (after: seq<nat>, find: seq<nat>)
    requires Ascending(prio, parent) && |parent| == m.Length && 0 < threads <= m.Length && EachOnce(m[..])
    modifies m
    ensures CanLabel(old(m[..]), threads, parent, find, after) && SameRoots(prio, parent, after)
    ensures ListOf(m[..], find) && SameSetLabels(prio, after, find)
    ensures threads == 1 || AtMostFour(prio, parent) ==> FindsOf(prio, after, find)
  {
    var bounds := BoundsFn(m.Length, threads);
    BoundsCorrect(m.Length, threads);
    find, after := LookUpParts(m[..], prio, parent, bounds);
    LabelsGood(prio, m[..], threads, parent, find, after);
    SortByLabels(m, find, bounds);
  }

  method LookUpParts(m: seq<MergeInstr>, prio: seq<nat>, parent: seq<nat>, bounds: seq<nat>)
    returns (find: seq<nat>, after: seq<nat>)
    requires Ascending(prio, parent) && |parent| == |m| && Bounds(bounds, |m|) && EachOnce(m)
    ensures CanAnswerBy(parent, PartQueues(m, bounds), find, after)
  {
    PartsDeal(m, bounds);
    find, after := LookUpDealt(prio, parent, PartQueues(m, bounds));
  }

  /** What labels of a run promise. */
  lemma LabelsGood(prio: seq<nat>, m: seq<MergeInstr>, threads: nat, parent: seq<nat>, find: seq<nat>, after: seq<nat>)
    requires Ascending(prio, parent) && |parent| == |m| && CanLabel(m, threads, parent, find, after)
    ensures SameRoots(prio, parent, after) && SameSetLabels(prio, after, find)
    ensures threads == 1 || AtMostFour(prio, parent) ==> FindsOf(prio, after, find)
  {
    ByIsFree(parent, PartQueues(m, BoundsFn(|m|, threads)), find, after);
    CanAnswerFacts(prio, parent, threads, find, after);
  }
}
