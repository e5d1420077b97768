/** What updates and samples do to the buckets, stated from the hashes and the slot numbers alone. */
module SketchLaws {
  import opened Arithmetic
  import opened XorAlgebra
  import opened Sketches

  // ---------- which slots an index is in ----------

  /** 2^j divides the depth hash, and 2^(j+1) does not. */
  predicate DividesExactly(h: nat, j: nat) { h % Pow2(j) == 0 && h / Pow2(j) % 2 == 1 }

  lemma ModTwice(h: nat, q: nat)
    requires q > 0
    ensures h % (2 * q) == 0 <==> h % 2 == 0 && h / 2 % q == 0
  {
    var t, m := h / (2 * q), h % (2 * q);
    assert h == t * (2 * q) + m && t * (2 * q) == 2 * (t * q);
    if m == 0 {
      DivUnique(h / 2, q, t, 0);
    }
    if h % 2 == 0 && h / 2 % q == 0 { EvenMod(h, q); }
  }

  /** The capped position below the cap is the exact power of two in the hash. */
  lemma {:induction false} DepthExact(h: nat, max: nat, j: nat)
    requires j < max
    ensures CappedTrailingZeros(h, max) == j <==> DividesExactly(h, j)
    decreases max
  {
    if h % 2 == 0 {
      if j > 0 {
        DepthExact(h / 2, max - 1, j - 1);
        ModTwice(h, Pow2(j - 1));
        DivTwice(h, Pow2(j - 1));
      }
    } else if j > 0 {
      ModTwice(h, Pow2(j - 1));
    }
  }

  /** It is at least `j` if and only if 2^j divides the hash. */
  lemma {:induction false} DepthAtLeast(h: nat, max: nat, j: nat)
    requires j <= max
    ensures j <= CappedTrailingZeros(h, max) <==> h % Pow2(j) == 0
    decreases max
  {
    if j > 0 {
      ModTwice(h, Pow2(j - 1));
      if h % 2 == 0 { DepthAtLeast(h / 2, max - 1, j - 1); }
    }
  }

  /** Index `x` belongs into row `j` of column `col`. In the L0 build it belongs into every row up to its own, and an
      index whose hash is divisible by 2^height belongs into none. */
  predicate InRow(p: Params, col: nat, j: nat, x: nat) {
    var h := p.columnHash(col, x);
    if p.l0 then h % Pow2(j) == 0 && h % Pow2(p.height) != 0 else DividesExactly(h, j)
  }

  /** Slot `col * height + j` is row `j` of column `col`. */
  lemma SlotOf(p: Params, col: nat, j: nat)
    requires p.Valid() && col < p.Columns() && j < p.height
    ensures col * p.height + j < p.Len() - 1 && ColumnOf(p, col * p.height + j) == col
    ensures RowOf(p, col * p.height + j) == j
  {
    ColumnLayout(p, col);
    SlotsIsProduct(p.height, col);
  }

  lemma HitIffInRow(p: Params, col: nat, j: nat, x: nat)
    requires p.Valid() && col < p.Columns() && j < p.height
    ensures col * p.height + j < p.Len() - 1 && (Hit(p, col * p.height + j, x) <==> InRow(p, col, j, x))
  {
    SlotOf(p, col, j);
    var h := p.columnHash(col, x);
    DepthExact(h, p.height, j);
    DepthAtLeast(h, p.height, j);
    DepthAtLeast(h, p.height, p.height);
  }

  /** An update changes row `j` of a column exactly if the column's hash says so, and always the deterministic
      bucket. */
  lemma UpdateByHash(p: Params, b: seq<Bucket>, x: nat, col: nat, j: nat)
    requires p.Valid() && |b| == p.Len() && col < p.Columns() && j < p.height
    ensures var k := col * p.height + j;
            && k < p.Len() - 1
            && UpdateFn(p, b, x)[k] == (if InRow(p, col, j, x) then XorB(b[k], Item(x, p.hash)) else b[k])
            && UpdateFn(p, b, x)[p.Len() - 1] == XorB(b[p.Len() - 1], Item(x, p.hash))
  {
    HitIffInRow(p, col, j, x);
  }

  lemma RowFilter(p: Params, X: set<nat>, col: nat, j: nat)
    requires p.Valid() && col < p.Columns() && j < p.height
    ensures Filter(p, col * p.height + j, X) == set x | x in X && InRow(p, col, j, x)
  {
    forall x | x in X ensures Hit(p, col * p.height + j, x) <==> InRow(p, col, j, x) { HitIffInRow(p, col, j, x); }
  }

  /** So the bucket in row `j` holds exactly the indices that the hash of its column puts there. */
  lemma SketchByHash(p: Params, X: set<nat>, col: nat, j: nat)
    requires p.Valid() && col < p.Columns() && j < p.height
    ensures var k := col * p.height + j;
            && k < p.Len() - 1
            && SketchOf(p, X)[k] == Content((set x | x in X && InRow(p, col, j, x)), p.hash)
            && SketchOf(p, X)[p.Len() - 1] == Content(X, p.hash)
  {
    SlotOf(p, col, j);
    RowFilter(p, X, col, j);
    DeterministicBucket(p, X);
  }

  // ---------- when a sample succeeds ----------

  /** Slot `k` is the first of the slots of sample `r` whose bucket passes for a single index. */
  ghost predicate FirstPassing(p: Params, b: seq<Bucket>, r: nat, k: nat) {
    && r * (p.cols * p.height) <= k < (r + 1) * (p.cols * p.height) && k < |b| && IsGood(p, b[k])
    && forall j :: r * (p.cols * p.height) <= j < k ==> !IsGood(p, b[j])
  }

  /** The outcome of a sample over the buckets: a failure if and only if the deterministic bucket is neither zero nor
      good and no bucket of the sample's columns is good; an index from the columns is that of their first good
      bucket. */
  lemma SampleExact(p: Params, b: seq<Bucket>, r: nat)
    requires p.Valid() && |b| == p.Len() && r < p.samples
    ensures var d := b[p.Len() - 1];
            var lo, hi := r * (p.cols * p.height), (r + 1) * (p.cols * p.height);
            && hi < p.Len()
            && (SampleAt(p, b, r) == Zero <==> d == ZERO)
            && (SampleAt(p, b, r) == Fail <==>
                  d != ZERO && !IsGood(p, d) && forall k :: lo <= k < hi ==> !IsGood(p, b[k]))
            && (forall x :: SampleAt(p, b, r) == Good(x) <==>
                  d != ZERO && if IsGood(p, d) then x == d.alpha
                               else exists k: nat :: FirstPassing(p, b, r, k) && x == b[k].alpha)
  {
    RoundFits(p, r);
    var lo, hi := r * p.RoundSize(), (r + 1) * p.RoundSize();
    var k := FirstGood(p, b, lo, hi);
    if k < hi { assert FirstPassing(p, b, r, k); }
    forall i: nat | FirstPassing(p, b, r, i) ensures i == k { }
  }

  /** Slot `k` of sample `r` holds nothing but the index `x`. */
  ghost predicate Alone(p: Params, X: set<nat>, r: nat, k: nat, x: nat)
    requires p.Valid()
  {
    r * (p.cols * p.height) <= k < (r + 1) * (p.cols * p.height) && Filter(p, k, X) == {x}
  }

  /** Whatever the hash: an index that is alone in some bucket of the sample keeps it from failing. */
  lemma AloneSuffices(p: Params, X: set<nat>, r: nat, k: nat, x: nat)
    requires p.Valid() && r < p.samples && Alone(p, X, r, k, x)
    ensures SampleAt(p, SketchOf(p, X), r) != Fail
  {
    RoundFits(p, r);
    SampleExact(p, SketchOf(p, X), r);
    ContentSingleton(x, p.hash);
    assert IsGood(p, SketchOf(p, X)[k]);
  }

  /** From the hashes: an index that is alone in a row of one of the sample's columns keeps it from failing. */
  lemma AloneByHash(p: Params, X: set<nat>, r: nat, i: nat, j: nat, x: nat)
    requires p.Valid() && r < p.samples && i < p.cols && j < p.height
    requires forall y :: y in X && InRow(p, r * p.cols + i, j, y) <==> y == x
    ensures SampleAt(p, SketchOf(p, X), r) != Fail
  {
    var col := r * p.cols + i;
    RoundColumn(p, r, i, j);
    RowFilter(p, X, col, j);
    assert (set y | y in X && InRow(p, col, j, y)) == {x};
    AloneSuffices(p, X, r, col * p.height + j, x);
  }

  /** The columns r * cols, ..., r * cols + cols - 1 make up the slots of sample `r`. */
  lemma RoundColumn(p: Params, r: nat, i: nat, j: nat)
    requires p.Valid() && r < p.samples && i < p.cols && j < p.height
    ensures r * p.cols + i < p.Columns()
    ensures r * (p.cols * p.height) <= (r * p.cols + i) * p.height + j < (r + 1) * (p.cols * p.height)
  {
    MulMono(r + 1, p.samples, p.cols);
    assert (r + 1) * p.cols == r * p.cols + p.cols;
    MulAssoc(r, p.cols, p.height);
    Distribute(r * p.cols, i, p.height);
    MulMono(i + 1, p.cols, p.height);
    Distribute(i, 1, p.height);
    Distribute(r, 1, p.cols * p.height);
  }

  lemma Distribute(a: nat, b: nat, c: nat)
    ensures (a + b) * c == a * c + b * c
  {
  }

  /** With faithful buckets a sample fails if and only if there are two indices or more and none of them is alone in a
      bucket of the sample. */
  lemma FailsIffNoneAlone(p: Params, X: set<nat>, r: nat)
    requires p.Valid() && r < p.samples && FaithfulAt(p, X, r)
    ensures SampleAt(p, SketchOf(p, X), r) == Fail <==>
            (exists x, y :: x in X && y in X && x != y) && forall k: nat, x: nat :: !Alone(p, X, r, k, x)
  {
    SampleMeaning(p, X, r);
    var b := SketchOf(p, X);
    forall k: nat, x: nat | Alone(p, X, r, k, x) ensures b != [] && SampleAt(p, b, r) != Fail {
      AloneSuffices(p, X, r, k, x);
    }
    if SampleAt(p, b, r) != Fail && exists x, y :: x in X && y in X && x != y {
      var x, y :| x in X && y in X && x != y;
      var k, z := SomeAlone(p, X, r, x, y);
    }
  }

  lemma SomeAlone(p: Params, X: set<nat>, r: nat, x: nat, y: nat) returns (k: nat, z: nat)
    requires p.Valid() && r < p.samples && FaithfulAt(p, X, r) && SampleAt(p, SketchOf(p, X), r) != Fail
    requires x in X && y in X && x != y
    ensures Alone(p, X, r, k, z)
  {
    var b := SketchOf(p, X);
    TwoNotGood(p, X, r, x, y);
    SampleExact(p, b, r);
    k :| FirstPassing(p, b, r, k);
    z := b[k].alpha;
    PassingIsAlone(p, X, r, k);
  }

  /** A faithful deterministic bucket of two indices or more is neither zero nor good. */
  lemma TwoNotGood(p: Params, X: set<nat>, r: nat, x: nat, y: nat)
    requires p.Valid() && FaithfulAt(p, X, r) && x in X && y in X && x != y
    ensures var d := SketchOf(p, X)[p.Len() - 1]; d != ZERO && !IsGood(p, d)
  {
    var last := p.Len() - 1;
    DeterministicBucket(p, X);
    assert InRound(p, last, r) && Faithful(p, Filter(p, last, X));
    assert X != {SketchOf(p, X)[last].alpha};
  }

  lemma PassingIsAlone(p: Params, X: set<nat>, r: nat, k: nat)
    requires p.Valid() && FaithfulAt(p, X, r) && FirstPassing(p, SketchOf(p, X), r, k)
    ensures Alone(p, X, r, k, SketchOf(p, X)[k].alpha)
  {
    assert InRound(p, k, r) && Faithful(p, Filter(p, k, X));
  }

  /** A range-merge leaves the columns of every sample outside its range alone, and the position never moves back;
      past the last sample no bucket changes and nothing can be sampled any more. */
  lemma RangeMergeTouches(p: Params, a: SketchVal, b: seq<Bucket>, start: nat, count: nat, r: nat, k: nat)
    requires p.Valid() && |a.buckets| == |b| == p.Len() && r < p.samples && !(start <= r < start + count)
    requires r * (p.cols * p.height) <= k < (r + 1) * (p.cols * p.height)
    ensures var c := RangeMergeMany(p, a, b, start, count);
            && k < p.Len() - 1 && c.buckets[k] == a.buckets[k]
            && (a.sampleIdx <= p.samples ==> a.sampleIdx <= c.sampleIdx)
            && (start + count > p.samples ==> c.buckets == a.buckets && SampleFn(p, c).1 == OutOfSamples)
  {
    RoundFits(p, r);
    if r < start { MulMono(r + 1, start, p.RoundSize()); } else { MulMono(start + count, r, p.RoundSize()); }
  }

  // ---------- one sample after the other ----------

  /** The sketch after `i` calls of `sample`. */
  function AfterSamples(p: Params, a: SketchVal, i: nat): (c: SketchVal)
    requires p.Valid() && |a.buckets| == p.Len()
    ensures |c.buckets| == p.Len()
  {
    if i == 0 then a else SampleFn(p, AfterSamples(p, a, i - 1)).0
  }

  /** Call number `i` reads the buckets of sample `i` and no call changes a bucket; from call number `samples` on,
      every call reports that there are no samples left. */
  lemma {:induction false} SamplesInTurn(p: Params, a: SketchVal, i: nat)
    requires p.Valid() && |a.buckets| == p.Len() && a.sampleIdx == 0
    ensures var c := AfterSamples(p, a, i);
            && c == a.(sampleIdx := if i < p.samples then i else p.samples)
            && SampleFn(p, c).1 == (if i < p.samples then Sampled(SampleAt(p, a.buckets, i)) else OutOfSamples)
  {
    if i > 0 { SamplesInTurn(p, a, i - 1); }
  }
}
