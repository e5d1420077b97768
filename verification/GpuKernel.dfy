/** The delta-sketch kernel (`sketchUpdate_default_kernel`): one work item per update and column, in any order, gives
    the same buckets as updating a sketch on the host with one update after the other. */
module GpuKernel {
  import opened Arithmetic
  import opened DisjointSets
  import opened XorAlgebra
  import opened Sketches
  import opened Supernodes

  /** Work item `id` handles update id / columns in column id % columns. */
  function ItemId(columns: nat, j: nat, col: nat): nat { j * columns + col }

  lemma ItemDecodes(columns: nat, size: nat, j: nat, col: nat)
    requires col < columns && j < size
    ensures ItemId(columns, j, col) / columns == j && ItemId(columns, j, col) % columns == col
    ensures ItemId(columns, j, col) < size * columns
  {
    DivUnique(ItemId(columns, j, col), columns, j, col);
    MulMono(j + 1, size, columns);
    assert (j + 1) * columns == j * columns + columns;
  }

  lemma ItemEncodes(columns: nat, size: nat, id: nat)
    requires columns > 0 && id < size * columns
    ensures id / columns < size && ItemId(columns, id / columns, id % columns) == id
  {
    var j := id / columns;
    assert id == j * columns + id % columns;
    if j >= size { MulMono(size, j, columns); assert false; }
  }

  /** What one work item does: the deterministic bucket in column 0, and the bucket of the depth in its own column. */
  function ItemUpdate(p: Params, b: seq<Bucket>, x: nat, col: nat): (r: seq<Bucket>)
    requires p.Valid() && |b| == p.Len() && col < p.Columns()
    ensures |r| == p.Len()
  {
    var last := p.Len() - 1;
    var b1 := if col == 0 then b[last := XorB(b[last], Item(x, p.hash))] else b;
    var d := Depth(p, col, x);
    if d < p.height then
      SlotInRange(p, col, d);
      b1[col * p.height + d := XorB(b1[col * p.height + d], Item(x, p.hash))]
    else b1
  }

  lemma SlotInRange(p: Params, col: nat, d: nat)
    requires p.Valid() && col < p.Columns() && d < p.height
    ensures col * p.height + d < p.Len() - 1
    ensures ColumnOf(p, col * p.height + d) == col && RowOf(p, col * p.height + d) == d
  {
    SlotsIsProduct(p.height, col);
    ColumnLayout(p, col);
    assert ColumnOf(p, Slots(p.height, col) + d) == col;
  }

  /** The column whose items touch slot `k`. */
  function ColumnFor(p: Params, k: nat): nat
    requires p.Valid()
  {
    if k + 1 == p.Len() then 0 else ColumnOf(p, k)
  }

  lemma ColumnForInRange(p: Params, k: nat)
    requires p.Valid() && k < p.Len()
    ensures ColumnFor(p, k) < p.Columns()
  {
    ColumnsPositive(p);
    if k + 1 < p.Len() {
      LenIsSlots(p);
      SlotsIsProduct(p.height, p.Columns());
      var q := k / p.height;
      assert k == q * p.height + k % p.height;
      if q >= p.Columns() { MulMono(p.Columns(), q, p.height); assert false; }
    }
  }

  lemma ItemHits(p: Params, b: seq<Bucket>, x: nat, col: nat, k: nat)
    requires p.Valid() && !p.l0 && |b| == p.Len() && col < p.Columns() && k < p.Len()
    ensures ItemUpdate(p, b, x, col)[k] ==
            if ColumnFor(p, k) == col && Hit(p, k, x) then XorB(b[k], Item(x, p.hash)) else b[k]
  {
    var d := Depth(p, col, x);
    if d < p.height {
      SlotInRange(p, col, d);
      assert k == (k / p.height) * p.height + k % p.height;
    }
  }

  // ---------- which updates have reached a slot ----------

  ghost function Where(ids: seq<nat>, D: set<nat>, x: nat): set<nat> {
    set j | j in D && j < |ids| && ids[j] == x
  }

  ghost function CountIn(ids: seq<nat>, D: set<nat>, x: nat): nat { |Where(ids, D, x)| }

  lemma CountAdd(ids: seq<nat>, D: set<nat>, j: nat, x: nat)
    requires j < |ids| && j !in D
    ensures CountIn(ids, D + {j}, x) == CountIn(ids, D, x) + if ids[j] == x then 1 else 0
  {
    if ids[j] == x {
      assert Where(ids, D + {j}, x) == Where(ids, D, x) + {j};
    } else {
      assert Where(ids, D + {j}, x) == Where(ids, D, x);
    }
  }

  /** The indices that the updates in `D` contribute an odd number of times. */
  ghost function OddSet(ids: seq<nat>, D: set<nat>): set<nat> {
    set x | x in ids && CountIn(ids, D, x) % 2 == 1
  }

  lemma OddSetAdd(ids: seq<nat>, D: set<nat>, j: nat)
    requires j < |ids| && j !in D
    ensures OddSet(ids, D + {j}) == Toggle(OddSet(ids, D), ids[j])
  {
    forall x ensures x in OddSet(ids, D + {j}) <==> x in Toggle(OddSet(ids, D), ids[j]) {
      if x >= 0 { CountAdd(ids, D, j, x); }
    }
  }

  lemma {:induction false} CountAll(ids: seq<nat>, x: nat, D: set<nat>)
    requires forall j :: 0 <= j < |ids| ==> j in D
    ensures CountIn(ids, D, x) == multiset(ids)[x]
  {
    if ids == [] {
      assert Where(ids, D, x) == {};
    } else {
      var last := |ids| - 1;
      var rest: seq<nat> := ids[..last];
      CountAll(rest, x, D);
      assert ids == rest + [ids[last]];
      assert multiset(ids)[x] == multiset(rest)[x] + multiset([ids[last]])[x];
      var a, b := Where(ids, D, x), Where(rest, D, x);
      if ids[last] == x { assert a == b + {last}; } else { assert a == b; }
    }
  }

  /** The updates that have reached slot `k` once the items in `todo` are left. */
  ghost function Reached(p: Params, ids: seq<nat>, todo: set<nat>, k: nat): set<nat>
    requires p.Valid()
  {
    set j: nat | j < |ids| && ItemId(p.Columns(), j, ColumnFor(p, k)) !in todo && Hit(p, k, ids[j])
  }

  lemma ReachedCount(p: Params, ids: seq<nat>, k: nat, x: nat)
    requires p.Valid()
    ensures CountIn(ids, Reached(p, ids, {}, k), x) == if Hit(p, k, x) then multiset(ids)[x] else 0
  {
    var D, all := Reached(p, ids, {}, k), Upto(0, |ids|);
    CountAll(ids, x, all);
    if Hit(p, k, x) {
      assert Where(ids, D, x) == Where(ids, all, x);
    } else {
      assert Where(ids, D, x) == {};
    }
  }

  lemma ReachedAll(p: Params, ids: seq<nat>, k: nat)
    requires p.Valid()
    ensures OddSet(ids, Reached(p, ids, {}, k)) == Filter(p, k, ToggleAll({}, ids))
  {
    var D := Reached(p, ids, {}, k);
    forall x ensures x in OddSet(ids, D) <==> x in Filter(p, k, ToggleAll({}, ids)) {
      if x >= 0 {
        ToggleAllMember({}, ids, x);
        ReachedCount(p, ids, k, x);
        assert x in ids <==> x in multiset(ids);
      }
    }
  }

  /** Every slot holds the updates that have reached it. Unfolded only in proofs that mention `Open`. */
  ghost predicate KernelInv(p: Params, ids: seq<nat>, todo: set<nat>, b: seq<Bucket>)
    requires p.Valid()
  {
    |b| == p.Len() && forall o {:trigger Open(o)} :: Open(o) ==>
      forall k :: 0 <= k < p.Len() ==> b[k] == Content(OddSet(ids, Reached(p, ids, todo, k)), p.hash)
  }

  ghost predicate Open(o: nat) { true }

  lemma ItemKeeps(p: Params, ids: seq<nat>, todo: set<nat>, b: seq<Bucket>, j: nat, col: nat)
    requires p.Valid() && !p.l0 && KernelInv(p, ids, todo, b) && j < |ids| && col < p.Columns()
    requires ItemId(p.Columns(), j, col) in todo
    ensures KernelInv(p, ids, todo - {ItemId(p.Columns(), j, col)}, ItemUpdate(p, b, ids[j], col))
  {
    assert Open(0);
    var rest := todo - {ItemId(p.Columns(), j, col)};
    forall k | 0 <= k < p.Len()
      ensures ItemUpdate(p, b, ids[j], col)[k] == Content(OddSet(ids, Reached(p, ids, rest, k)), p.hash)
    {
      ItemHits(p, b, ids[j], col, k);
      ReachedNext(p, ids, todo, j, col, k);
      var D := Reached(p, ids, todo, k);
      if ColumnFor(p, k) == col && Hit(p, k, ids[j]) {
        OddSetAdd(ids, D, j);
        ContentToggle(OddSet(ids, D), p.hash, ids[j]);
      }
    }
  }

  lemma ReachedNext(p: Params, ids: seq<nat>, todo: set<nat>, j: nat, col: nat, k: nat)
    requires p.Valid() && j < |ids| && col < p.Columns() && k < p.Len() && ItemId(p.Columns(), j, col) in todo
    ensures var D := Reached(p, ids, todo, k); var D' := Reached(p, ids, todo - {ItemId(p.Columns(), j, col)}, k);
            if ColumnFor(p, k) == col && Hit(p, k, ids[j]) then j !in D && D' == D + {j} else D' == D
  {
    ColumnForInRange(p, k);
    forall i: nat | i < |ids|
      ensures ItemId(p.Columns(), i, ColumnFor(p, k)) == ItemId(p.Columns(), j, col) <==>
          i == j && ColumnFor(p, k) == col
    {
      ItemDecodes(p.Columns(), |ids|, i, ColumnFor(p, k));
      ItemDecodes(p.Columns(), |ids|, j, col);
    }
  }

  lemma ColumnsPositive(p: Params)
    requires p.Valid()
    ensures p.Columns() > 0
  {
    MulMono(1, p.cols, p.samples);
  }

  /** The batch position and column that a work item stands for. */
  method Decode(columns: nat, size: nat, id: nat) returns (j: nat, col: nat)
    requires columns > 0 && id < size * columns
    ensures j < size && col < columns && id == ItemId(columns, j, col)
  {
    ItemEncodes(columns, size, id);
    j, col := id / columns, id % columns;
  }

  method DoItem(p: Params, ids: seq<nat>, columns: nat, id: nat, b: seq<Bucket>, ghost todo: set<nat>)
    returns (now: seq<Bucket>)
    requires p.Valid() && !p.l0 && KernelInv(p, ids, todo, b) && columns == p.Columns() > 0 && id < |ids| * columns
    requires id in todo
    ensures KernelInv(p, ids, todo - {id}, now)
  {
    var j, col := Decode(columns, |ids|, id);
    ItemKeeps(p, ids, todo, b, j, col);
    now := ItemUpdate(p, b, ids[j], col);
  }

  /** Every item once, in any order: the buckets are those of the host's updates applied to a zero sketch. */
  method RunKernel(p: Params, ids: seq<nat>) returns (b: seq<Bucket>)
    requires p.Valid() && !p.l0
    ensures b == UpdateAll(p, ZeroFn(p), ids)
  {
    ColumnsPositive(p);
    b := RunItems(p, ids, p.Columns(), |ids| * p.Columns());
    KernelEnd(p, ids, b);
  }

  method RunItems(p: Params, ids: seq<nat>, columns: nat, total: nat) returns (b: seq<Bucket>)
    requires p.Valid() && !p.l0 && columns == p.Columns() > 0 && total == |ids| * columns
    ensures KernelInv(p, ids, {}, b)
  {
    var todo := Upto(0, total);
    KernelStart(p, ids, todo);
    b := ZeroFn(p);
    while todo != {}
      invariant (forall i :: i in todo ==> i < total) && KernelInv(p, ids, todo, b)
    {
      var id :| id in todo;
      b := DoItem(p, ids, columns, id, b, todo);
      todo := todo - {id};
    }
  }

  lemma KernelStart(p: Params, ids: seq<nat>, todo: set<nat>)
    requires p.Valid() && forall id: nat :: id < |ids| * p.Columns() ==> id in todo
    ensures KernelInv(p, ids, todo, ZeroFn(p))
  {
    forall k | 0 <= k < p.Len() ensures OddSet(ids, Reached(p, ids, todo, k)) == {} {
      ColumnForInRange(p, k);
      forall j: nat | j < |ids| ensures ItemId(p.Columns(), j, ColumnFor(p, k)) in todo {
        ItemDecodes(p.Columns(), |ids|, j, ColumnFor(p, k));
      }
      assert Reached(p, ids, todo, k) == {};
      forall x ensures x !in OddSet(ids, {}) {
        if x >= 0 { assert Where(ids, {}, x) == {}; }
      }
    }
  }

  lemma KernelEnd(p: Params, ids: seq<nat>, b: seq<Bucket>)
    requires p.Valid() && KernelInv(p, ids, {}, b)
    ensures b == UpdateAll(p, ZeroFn(p), ids)
  {
    assert Open(0);
    ZeroIsEmpty(p);
    UpdateAllToggles(p, {}, ids);
    forall k | 0 <= k < p.Len() ensures b[k] == SketchOf(p, ToggleAll({}, ids))[k] { ReachedAll(p, ids, k); }
  }
}
