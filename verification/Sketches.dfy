/** The linear sketch of `src/sketch.cpp` as functions on bucket sequences: its layout, the set of indices it stands
    for, sampling, and what a sample means. */
module Sketches {
  import opened Arithmetic
  import opened XorAlgebra

  /** `hash` is the checksum and `columnHash(c, x)` the depth hash of column `c`; both stay uninterpreted.
      `l0` selects the L0_SAMPLING build. */
  datatype Params = Params(samples: nat, cols: nat, height: nat,
                           hash: nat -> nat, columnHash: (nat, nat) -> nat, l0: bool)
  {
    predicate Valid() { samples > 0 && cols > 0 && height > 0 }
    function RoundSize(): nat { cols * height }
    function Columns(): nat { samples * cols }
    function Len(): nat { samples * (cols * height) + 1 }
  }

  /** Trailing zeros of `h | (1 << max)`. */
  function CappedTrailingZeros(h: nat, max: nat): (d: nat)
    ensures d <= max
    ensures d < max ==> h / Pow2(d) % 2 == 1
    ensures h % Pow2(d) == 0
    decreases max
  {
    if max == 0 || h % 2 == 1 then 0
    else
      var d := CappedTrailingZeros(h / 2, max - 1);
      EvenMod(h, Pow2(d));
      assert d + 1 < max ==> h / Pow2(d + 1) % 2 == 1 by { DivTwice(h, Pow2(d)); }
      1 + d
  }

  lemma EvenMod(h: nat, q: nat)
    requires q > 0 && h % 2 == 0 && h / 2 % q == 0
    ensures h % (2 * q) == 0
  {
    DivTwice(h, q);
    var t := h / 2 / q;
    assert h / 2 == t * q;
    assert h == t * (2 * q);
  }

  lemma DivTwice(h: nat, q: nat)
    requires q > 0
    ensures h / (2 * q) == h / 2 / q
  {
    var t := h / 2 / q;
    var r := h / 2 % q;
    assert h / 2 == t * q + r;
    assert h == 2 * (t * q + r) + h % 2;
    assert h == t * (2 * q) + (2 * r + h % 2);
    DivUnique(h, 2 * q, t, 2 * r + h % 2);
  }

  function Depth(p: Params, col: nat, x: nat): (d: nat)
    ensures d <= p.height
  {
    CappedTrailingZeros(p.columnHash(col, x), p.height)
  }

  function ColumnOf(p: Params, k: nat): nat
    requires p.Valid()
  {
    k / p.height
  }

  function RowOf(p: Params, k: nat): nat
    requires p.Valid()
  {
    k % p.height
  }

  /** Does index `x` contribute to slot `k`? The last slot is the deterministic bucket and takes everything. */
  predicate Hit(p: Params, k: nat, x: nat)
    requires p.Valid()
  {
    || k + 1 == p.Len()
    || (var d := Depth(p, ColumnOf(p, k), x);
        if p.l0 then RowOf(p, k) <= d < p.height else d == RowOf(p, k))
  }

  function Filter(p: Params, k: nat, X: set<nat>): set<nat>
    requires p.Valid()
  {
    set x | x in X && Hit(p, k, x)
  }

  /** The bucket array of the vector whose support is `X`. */
  ghost function SketchOf(p: Params, X: set<nat>): (b: seq<Bucket>)
    requires p.Valid()
    ensures |b| == p.Len()
  {
    seq(p.Len(), k requires 0 <= k < p.Len() => Content(Filter(p, k, X), p.hash))
  }

  function UpdateFn(p: Params, b: seq<Bucket>, x: nat): seq<Bucket>
    requires p.Valid() && |b| == p.Len()
  {
    seq(p.Len(), k requires 0 <= k < p.Len() => if Hit(p, k, x) then XorB(b[k], Item(x, p.hash)) else b[k])
  }

  function MergeFn(a: seq<Bucket>, b: seq<Bucket>): seq<Bucket>
    requires |a| == |b|
  {
    seq(|a|, k requires 0 <= k < |a| => XorB(a[k], b[k]))
  }

  function ZeroFn(p: Params): (z: seq<Bucket>)
    ensures |z| == p.Len()
  {
    seq(p.Len(), k => ZERO)
  }

  lemma ZeroIsEmpty(p: Params)
    requires p.Valid()
    ensures ZeroFn(p) == SketchOf(p, {})
  {
    forall k | 0 <= k < p.Len() ensures ZeroFn(p)[k] == SketchOf(p, {})[k] {
      assert Filter(p, k, {}) == {};
    }
  }

  /** `update` toggles one index. */
  lemma UpdateToggles(p: Params, X: set<nat>, x: nat)
    requires p.Valid()
    ensures UpdateFn(p, SketchOf(p, X), x) == SketchOf(p, Toggle(X, x))
  {
    forall k | 0 <= k < p.Len()
      ensures UpdateFn(p, SketchOf(p, X), x)[k] == SketchOf(p, Toggle(X, x))[k]
    {
      if Hit(p, k, x) {
        assert Filter(p, k, Toggle(X, x)) == Toggle(Filter(p, k, X), x);
        ContentToggle(Filter(p, k, X), p.hash, x);
      } else {
        assert Filter(p, k, Toggle(X, x)) == Filter(p, k, X);
      }
    }
  }

  /** `merge` is symmetric difference. */
  lemma MergeIsSymDiff(p: Params, X: set<nat>, Y: set<nat>)
    requires p.Valid()
    ensures MergeFn(SketchOf(p, X), SketchOf(p, Y)) == SketchOf(p, SymDiff(X, Y))
  {
    forall k | 0 <= k < p.Len()
      ensures MergeFn(SketchOf(p, X), SketchOf(p, Y))[k] == SketchOf(p, SymDiff(X, Y))[k]
    {
      assert Filter(p, k, SymDiff(X, Y)) == SymDiff(Filter(p, k, X), Filter(p, k, Y));
      ContentSymDiff(Filter(p, k, X), Filter(p, k, Y), p.hash);
    }
  }

  // ---------- ranges and sampling ----------

  /** Buckets together with the next sample index, as one `Sketch` object. */
  datatype SketchVal = SketchVal(buckets: seq<Bucket>, sampleIdx: nat)

  /** The slots that sample `r` looks at. */
  predicate InRound(p: Params, k: nat, r: nat) {
    k + 1 == p.Len() || r * p.RoundSize() <= k < (r + 1) * p.RoundSize()
  }

  function RangeMergeFn(p: Params, a: SketchVal, b: seq<Bucket>, start: nat): SketchVal
    requires |a.buckets| == |b| == p.Len()
  {
    if start + 1 > p.samples then a.(sampleIdx := p.samples)
    else
      SketchVal(seq(p.Len(), k requires 0 <= k < p.Len() =>
                  if InRound(p, k, start) then XorB(a.buckets[k], b[k]) else a.buckets[k]),
                if a.sampleIdx > start then a.sampleIdx else start)
  }

  /** The slots of the samples start, ..., start + count - 1. */
  predicate InRounds(p: Params, k: nat, start: nat, count: nat) {
    k + 1 == p.Len() || start * p.RoundSize() <= k < (start + count) * p.RoundSize()
  }

  /** `range_merge` over several samples. */
  function RangeMergeMany(p: Params, a: SketchVal, b: seq<Bucket>, start: nat, count: nat): SketchVal
    requires |a.buckets| == |b| == p.Len()
  {
    if start + count > p.samples then a.(sampleIdx := p.samples)
    else
      SketchVal(seq(p.Len(), k requires 0 <= k < p.Len() =>
                  if InRounds(p, k, start, count) then XorB(a.buckets[k], b[k]) else a.buckets[k]),
                if a.sampleIdx > start then a.sampleIdx else start)
  }

  /** The query code merges one sample at a time. */
  lemma ManyOfOne(p: Params, a: SketchVal, b: seq<Bucket>, start: nat)
    requires |a.buckets| == |b| == p.Len()
    ensures RangeMergeMany(p, a, b, start, 1) == RangeMergeFn(p, a, b, start)
  {
    if start + 1 <= p.samples {
      assert RangeMergeMany(p, a, b, start, 1).buckets == RangeMergeFn(p, a, b, start).buckets;
    }
  }

  datatype Sample = Good(idx: nat) | Zero | Fail
  datatype SampleOutcome = Sampled(s: Sample) | OutOfSamples

  predicate IsGood(p: Params, b: Bucket) { b.gamma == p.hash(b.alpha) }

  /** The first good slot in [lo, hi), or `hi`. */
  function FirstGood(p: Params, b: seq<Bucket>, lo: nat, hi: nat): (k: nat)
    requires lo <= hi <= |b|
    ensures lo <= k <= hi
    ensures k < hi ==> IsGood(p, b[k])
    ensures forall j :: lo <= j < k ==> !IsGood(p, b[j])
    decreases hi - lo
  {
    if lo == hi || IsGood(p, b[lo]) then lo else FirstGood(p, b, lo + 1, hi)
  }

  lemma RoundsFit(p: Params, start: nat, count: nat)
    requires p.Valid() && start + count <= p.samples
    ensures start * p.RoundSize() + count * p.RoundSize() == (start + count) * p.RoundSize() <= p.Len() - 1
  {
    MulMono(start + count, p.samples, p.RoundSize());
  }

  lemma RoundFits(p: Params, r: nat)
    requires p.Valid() && r < p.samples
    ensures r * p.RoundSize() <= (r + 1) * p.RoundSize() <= p.Len() - 1
  {
    var c := p.RoundSize();
    assert (r + 1) * c == r * c + c;
    MulMono(r + 1, p.samples, c);
  }

  function SampleAt(p: Params, b: seq<Bucket>, r: nat): Sample
    requires p.Valid() && |b| == p.Len() && r < p.samples
  {
    var d := b[p.Len() - 1];
    if d == ZERO then Zero
    else if IsGood(p, d) then Good(d.alpha)
    else
      RoundFits(p, r);
      var hi := (r + 1) * p.RoundSize();
      var k := FirstGood(p, b, r * p.RoundSize(), hi);
      if k < hi then Good(b[k].alpha) else Fail
  }

  function SampleFn(p: Params, a: SketchVal): (r: (SketchVal, SampleOutcome))
    requires p.Valid() && |a.buckets| == p.Len()
  {
    if a.sampleIdx >= p.samples then (a, OutOfSamples)
    else (a.(sampleIdx := a.sampleIdx + 1), Sampled(SampleAt(p, a.buckets, a.sampleIdx)))
  }

  /** Sampling at `r` only looks at the slots of round `r`. */
  lemma SampleLocal(p: Params, a: seq<Bucket>, b: seq<Bucket>, r: nat)
    requires p.Valid() && |a| == |b| == p.Len() && r < p.samples
    requires forall k :: 0 <= k < p.Len() && InRound(p, k, r) ==> a[k] == b[k]
    ensures SampleAt(p, a, r) == SampleAt(p, b, r)
  {
    RoundFits(p, r);
    assert InRound(p, p.Len() - 1, r);
    var lo, hi := r * p.RoundSize(), (r + 1) * p.RoundSize();
    var k := FirstGood(p, a, lo, hi);
    var l := FirstGood(p, b, lo, hi);
    assert k < l ==> InRound(p, k, r);
    assert l < k ==> InRound(p, l, r);
  }

  /** For every sample of the range, range-merging is as good as merging everything. */
  lemma RangeSamplesAsMerge(p: Params, a: SketchVal, b: seq<Bucket>, start: nat, count: nat, r: nat)
    requires p.Valid() && |a.buckets| == |b| == p.Len() && start <= r < start + count <= p.samples
    ensures SampleAt(p, RangeMergeMany(p, a, b, start, count).buckets, r) == SampleAt(p, MergeFn(a.buckets, b), r)
  {
    var v := RangeMergeMany(p, a, b, start, count).buckets;
    MulMono(start, r, p.RoundSize());
    MulMono(r + 1, start + count, p.RoundSize());
    forall k | 0 <= k < p.Len() && InRound(p, k, r)
      ensures v[k] == MergeFn(a.buckets, b)[k]
    {
      assert InRounds(p, k, start, count);
    }
    SampleLocal(p, v, MergeFn(a.buckets, b), r);
  }

  // ---------- what a sample means ----------

  /** The checksum is not fooled by the bucket holding exactly `S`: it looks empty only if it is,
      and it passes for a singleton only if it is one. */
  ghost predicate Faithful(p: Params, S: set<nat>) {
    var b := Content(S, p.hash);
    (b == ZERO ==> S == {}) && (IsGood(p, b) ==> S == {b.alpha})
  }

  /** Every bucket that sample `r` of the sketch of `X` can inspect is faithful. */
  ghost predicate FaithfulAt(p: Params, X: set<nat>, r: nat)
    requires p.Valid()
  {
    forall k :: 0 <= k < p.Len() && InRound(p, k, r) ==> Faithful(p, Filter(p, k, X))
  }

  lemma DeterministicBucket(p: Params, X: set<nat>)
    requires p.Valid()
    ensures Filter(p, p.Len() - 1, X) == X
  {
  }

  /** With faithful buckets the outcome is exact: `Zero` for the empty vector and for nothing else,
      a returned index is in the support, and `Fail` leaves at least two indices. */
  lemma SampleMeaning(p: Params, X: set<nat>, r: nat)
    requires p.Valid() && r < p.samples && FaithfulAt(p, X, r)
    ensures match SampleAt(p, SketchOf(p, X), r)
            case Zero => X == {}
            case Good(x) => x in X
            case Fail => exists x, y :: x in X && y in X && x != y
  {
    var b := SketchOf(p, X);
    var last := p.Len() - 1;
    RoundFits(p, r);
    DeterministicBucket(p, X);
    assert InRound(p, last, r) && b[last] == Content(X, p.hash);
    assert Faithful(p, Filter(p, last, X));
    var lo, hi := r * p.RoundSize(), (r + 1) * p.RoundSize();
    var k := FirstGood(p, b, lo, hi);
    if b[last] != ZERO && !IsGood(p, b[last]) {
      if k < hi {
        assert InRound(p, k, r) && Faithful(p, Filter(p, k, X));
        assert b[k].alpha in Filter(p, k, X);
      } else {
        TwoElements(p, X);
      }
    }
  }

  lemma TwoElements(p: Params, X: set<nat>)
    requires Content(X, p.hash) != ZERO && !IsGood(p, Content(X, p.hash))
    ensures exists x, y :: x in X && y in X && x != y
  {
    var x :| x in X;
    ContentSingleton(x, p.hash);
    assert X != {x};
    var y :| y in X && y != x;
  }

  /** Whatever the hash: the empty vector is reported empty and a one-element vector is returned. */
  lemma SmallVectorsExact(p: Params, X: set<nat>, x: nat, r: nat)
    requires p.Valid() && r < p.samples
    ensures X == {} ==> SampleAt(p, SketchOf(p, X), r) == Zero
    ensures X == {x} && Item(x, p.hash) != ZERO ==> SampleAt(p, SketchOf(p, X), r) == Good(x)
  {
    DeterministicBucket(p, X);
    if X == {x} { ContentSingleton(x, p.hash); }
  }

  // ---------- the L0 layout ----------

  /** Slots base, ..., base + height - 1 are the rows of column `col`. */
  ghost predicate ColumnAt(p: Params, col: nat, base: nat)
    requires p.Valid()
  {
    && base + p.height <= p.Len() - 1
    && forall k :: base <= k < base + p.height ==> ColumnOf(p, k) == col && RowOf(p, k) == k - base
  }

  /** `cols` columns of `height` slots each, counted without a product. */
  function Slots(height: nat, cols: nat): nat {
    if cols == 0 then 0 else Slots(height, cols - 1) + height
  }

  lemma {:induction false} SlotsIsProduct(height: nat, cols: nat)
    ensures Slots(height, cols) == cols * height
  {
    if cols > 0 { SlotsIsProduct(height, cols - 1); }
  }

  lemma {:induction false} SlotsMono(height: nat, a: nat, b: nat)
    requires a < b
    ensures Slots(height, a) + height <= Slots(height, b)
  {
    if a + 1 < b { SlotsMono(height, a, b - 1); }
  }

  lemma LenIsSlots(p: Params)
    ensures p.Len() == Slots(p.height, p.Columns()) + 1
  {
    SlotsIsProduct(p.height, p.Columns());
    MulAssoc(p.samples, p.cols, p.height);
  }

  lemma ColumnLayout(p: Params, col: nat)
    requires p.Valid() && col < p.Columns()
    ensures ColumnAt(p, col, Slots(p.height, col))
  {
    var base := Slots(p.height, col);
    SlotsIsProduct(p.height, col);
    forall k | base <= k < base + p.height ensures ColumnOf(p, k) == col && RowOf(p, k) == k - base {
      DivUnique(k, p.height, col, k - base);
    }
    SlotsMono(p.height, col, p.Columns());
    LenIsSlots(p);
  }

  lemma MulAssoc(a: nat, b: nat, c: nat)
    ensures a * b * c == a * (b * c)
  {
  }

  /** Exclusive-or of the buckets j, j+1, ... of the column that starts at `base`. */
  function ColumnTail(b: seq<Bucket>, base: nat, height: nat, j: nat): Bucket
    requires base + height <= |b| && j <= height
    decreases height - j
  {
    if j == height then ZERO else XorB(b[base + j], ColumnTail(b, base, height, j + 1))
  }

  function DeepAs(p: Params, X: set<nat>, col: nat, j: nat): set<nat> {
    set x | x in X && j <= Depth(p, col, x) < p.height
  }

  lemma DeepSplit(p: Params, X: set<nat>, col: nat, j: nat, k: nat)
    requires p.Valid() && !p.l0 && j < p.height && k + 1 < p.Len() && ColumnOf(p, k) == col && RowOf(p, k) == j
    ensures DeepAs(p, X, col, j) == SymDiff(Filter(p, k, X), DeepAs(p, X, col, j + 1))
  {
    var U, T := Filter(p, k, X), DeepAs(p, X, col, j + 1);
    assert U * T == {};
    assert SymDiff(U, T) == U + T;
  }

  lemma {:induction false} TailIsDeepSet(p: Params, X: set<nat>, col: nat, base: nat, j: nat)
    requires p.Valid() && !p.l0 && ColumnAt(p, col, base) && j <= p.height
    ensures ColumnTail(SketchOf(p, X), base, p.height, j) == Content(DeepAs(p, X, col, j), p.hash)
    decreases p.height - j
  {
    if j == p.height {
      assert DeepAs(p, X, col, j) == {};
    } else {
      TailIsDeepSet(p, X, col, base, j + 1);
      var k := base + j;
      assert ColumnOf(p, k) == col && RowOf(p, k) == j;
      DeepSplit(p, X, col, j, k);
      ContentSymDiff(Filter(p, k, X), DeepAs(p, X, col, j + 1), p.hash);
    }
  }

  /** Bucket j of an L0 column is the exclusive-or of the buckets j and deeper of the plain column. */
  lemma L0IsSuffixXor(p: Params, X: set<nat>, col: nat, j: nat)
    requires p.Valid() && !p.l0 && col < p.Columns() && j < p.height
    ensures var base := Slots(p.height, col);
            && base + p.height <= p.Len()
            && SketchOf(p.(l0 := true), X)[base + j] == ColumnTail(SketchOf(p, X), base, p.height, j)
  {
    ColumnLayout(p, col);
    var base := Slots(p.height, col);
    TailIsDeepSet(p, X, col, base, j);
    L0Slot(p, X, col, base, j);
  }

  lemma L0Slot(p: Params, X: set<nat>, col: nat, base: nat, j: nat)
    requires p.Valid() && ColumnAt(p, col, base) && j < p.height
    ensures base + p.height <= p.Len() && SketchOf(p.(l0 := true), X)[base + j] == Content(DeepAs(p, X, col, j), p.hash)
  {
    var q := p.(l0 := true);
    assert ColumnOf(p, base + j) == col && RowOf(p, base + j) == j;
    DeepSame(p, q, X, col, j);
    L0Bucket(q, X, col, base, j);
  }

  lemma DeepSame(p: Params, q: Params, X: set<nat>, col: nat, j: nat)
    requires q == p.(l0 := true)
    ensures DeepAs(q, X, col, j) == DeepAs(p, X, col, j)
  {
    forall x: nat ensures Depth(q, col, x) == Depth(p, col, x) { }
  }

  lemma L0Bucket(p: Params, X: set<nat>, col: nat, base: nat, j: nat)
    requires p.Valid() && p.l0 && j < p.height && base + j < p.Len() - 1
    requires ColumnOf(p, base + j) == col && RowOf(p, base + j) == j
    ensures SketchOf(p, X)[base + j] == Content(DeepAs(p, X, col, j), p.hash)
  {
    assert Filter(p, base + j, X) == DeepAs(p, X, col, j);
  }

  /** One column of `UpdateFn`, row by row. */
  lemma ColumnOfUpdate(p: Params, was: seq<Bucket>, x: nat, col: nat, base: nat, k: nat)
    requires p.Valid() && |was| == p.Len() && ColumnAt(p, col, base) && base <= k < base + p.height
    ensures var d := Depth(p, col, x);
            UpdateFn(p, was, x)[k] == if d < p.height && (if p.l0 then k - base <= d else k - base == d)
                                      then XorB(was[k], Item(x, p.hash)) else was[k]
  {
    assert ColumnOf(p, k) == col && RowOf(p, k) == k - base;
  }
}
