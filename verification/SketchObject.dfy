/** The `Sketch` class: buckets in an array, changed in place by its methods. */
module SketchObject {
  import opened XorAlgebra
  import opened Sketches

  class Sketch {
    const params: Params
    const buckets: array<Bucket>
    var sampleIdx: nat

    ghost predicate Valid()
      reads this
    {
      params.Valid() && buckets.Length == params.Len()
    }

    ghost function Value(): SketchVal
      reads this, buckets
    {
      SketchVal(buckets[..], sampleIdx)
    }

    constructor (params: Params)
      requires params.Valid()
      ensures Valid() && fresh(buckets) && this.params == params
      ensures Value() == SketchVal(ZeroFn(params), 0)
    {
      this.params := params;
      sampleIdx := 0;
      buckets := new Bucket[params.Len()](_ => ZERO);
      new;
      assert buckets[..] == ZeroFn(params);
    }

    method UpdateBucket(k: nat, x: nat)
      requires Valid() && k < buckets.Length
      modifies buckets
      ensures buckets[..] == old(buckets[..])[k := XorB(old(buckets[k]), Item(x, params.hash))]
    {
      buckets[k] := XorB(buckets[k], Item(x, params.hash));
    }

    /** Both builds of `update`: with `l0` the rows 0..depth of a column change, otherwise only row `depth`. */
    method Update(x: nat)
      requires Valid()
      modifies buckets
      ensures buckets[..] == UpdateFn(params, old(buckets[..]), x)
    {
      ghost var was := buckets[..];
      ghost var goal := UpdateFn(params, was, x);
      var last := params.Len() - 1;
      UpdateBucket(last, x);
      LenIsSlots(params);
      var i, base := 0, 0;
      while i < params.Columns()
        invariant 0 <= i <= params.Columns()
        invariant base == Slots(params.height, i) <= last
        invariant buckets[last] == goal[last]
        invariant forall k :: 0 <= k < base ==> buckets[k] == goal[k]
        invariant forall k :: base <= k < last ==> buckets[k] == was[k]
      {
        ColumnLayout(params, i);
        UpdateColumn(i, base, x);
        forall k | base <= k < base + params.height ensures buckets[k] == goal[k] {
          ColumnOfUpdate(params, was, x, i, base, k);
        }
        i, base := i + 1, base + params.height;
      }
      assert buckets[..] == goal;
    }

    method UpdateColumn(i: nat, base: nat, x: nat)
      requires Valid() && base + params.height <= params.Len() - 1
      modifies buckets
      ensures var d := Depth(params, i, x);
              forall k :: base <= k < base + params.height ==>
                buckets[k] == if d < params.height && (if params.l0 then k - base <= d else k - base == d)
                              then XorB(old(buckets[k]), Item(x, params.hash)) else old(buckets[k])
      ensures forall k :: 0 <= k < base || base + params.height <= k < params.Len() ==> buckets[k] == old(buckets[k])
    {
      var depth := Depth(params, i, x);
      ghost var was := buckets[..];
      if depth < params.height {
        if params.l0 {
          var j := 0;
          while j <= depth
            invariant 0 <= j <= depth + 1
            invariant forall k :: base <= k < base + j ==> buckets[k] == XorB(was[k], Item(x, params.hash))
            invariant forall k :: base + j <= k < params.Len() ==> buckets[k] == was[k]
            invariant forall k :: 0 <= k < base ==> buckets[k] == was[k]
          {
            UpdateBucket(base + j, x);
            j := j + 1;
          }
        } else {
          UpdateBucket(base + depth, x);
        }
      }
    }

    method ZeroContents()
      requires Valid()
      modifies this, buckets
      ensures Valid() && Value() == SketchVal(ZeroFn(params), 0)
    {
      var i := 0;
      while i < buckets.Length
        invariant 0 <= i <= buckets.Length
        invariant forall k :: 0 <= k < i ==> buckets[k] == ZERO
      {
        buckets[i] := ZERO;
        i := i + 1;
      }
      assert buckets[..] == ZeroFn(params);
      sampleIdx := 0;
    }

    /** `merge`, and equally `merge_raw_bucket_buffer` of the other sketch's buckets. */
    method Merge(other: seq<Bucket>)
      requires Valid() && |other| == params.Len()
      modifies buckets
      ensures buckets[..] == MergeFn(old(buckets[..]), other)
    {
      ghost var was := buckets[..];
      var i := 0;
      while i < buckets.Length
        invariant 0 <= i <= buckets.Length
        invariant forall k :: 0 <= k < i ==> buckets[k] == XorB(was[k], other[k])
        invariant forall k :: i <= k < buckets.Length ==> buckets[k] == was[k]
      {
        buckets[i] := XorB(buckets[i], other[i]);
        i := i + 1;
      }
      assert buckets[..] == MergeFn(was, other);
    }

    // the bucket loop of range_merge
    method XorRange(other: seq<Bucket>, lo: nat, count: nat)
      requires Valid() && |other| == params.Len() && lo + count <= params.Len()
      modifies buckets
      ensures forall k :: lo <= k < lo + count ==> buckets[k] == XorB(old(buckets[k]), other[k])
      ensures forall k :: 0 <= k < lo || lo + count <= k < params.Len() ==> buckets[k] == old(buckets[k])
    {
      ghost var was := buckets[..];
      var i := 0;
      while i < count
        invariant 0 <= i <= count
        invariant forall k :: lo <= k < lo + i ==> buckets[k] == XorB(was[k], other[k])
        invariant forall k :: 0 <= k < lo || lo + i <= k < params.Len() ==> buckets[k] == was[k]
      {
        buckets[lo + i] := XorB(buckets[lo + i], other[lo + i]);
        i := i + 1;
      }
    }

    /** `range_merge`: the buckets of `count` samples and the deterministic one; past the last sample the sketch only
        goes into its failed state. */
    method RangeMerge(other: seq<Bucket>, start: nat, count: nat)
      requires Valid() && |other| == params.Len()
      modifies this, buckets
      ensures Valid() && Value() == RangeMergeMany(params, old(Value()), other, start, count)
    {
      if start + count > params.samples {
        sampleIdx := params.samples;
        return;
      }
      sampleIdx := if sampleIdx > start then sampleIdx else start;
      RoundsFit(params, start, count);
      var last := params.Len() - 1;
      buckets[last] := XorB(buckets[last], other[last]);
      var lo, size := start * params.RoundSize(), count * params.RoundSize();
      XorRange(other, lo, size);
      ghost var goal := RangeMergeMany(params, old(Value()), other, start, count).buckets;
      forall k | 0 <= k < params.Len() ensures buckets[k] == goal[k] {
        assert InRounds(params, k, start, count) <==> (k == last || lo <= k < lo + size);
      }
      assert buckets[..] == goal;
    }

    // one column of the sampling loop
    method ScanColumn(base: nat) returns (k: nat)
      requires Valid() && base + params.height <= params.Len()
      ensures base <= k <= base + params.height
      ensures k < base + params.height ==> IsGood(params, buckets[k])
      ensures forall j :: base <= j < k ==> !IsGood(params, buckets[j])
    {
      k := base;
      while k < base + params.height && !IsGood(params, buckets[k])
        invariant base <= k <= base + params.height
        invariant forall j :: base <= j < k ==> !IsGood(params, buckets[j])
      {
        k := k + 1;
      }
    }

    method TakeSample() returns (r: SampleOutcome)
      requires Valid()
      modifies this
      ensures Valid() && (Value(), r) == SampleFn(params, old(Value()))
    {
      if sampleIdx >= params.samples {
        return OutOfSamples;
      }
      var idx := sampleIdx;
      sampleIdx := sampleIdx + 1;
      var s := SampleSlots(idx);
      r := Sampled(s);
    }

    method SampleSlots(idx: nat) returns (s: Sample)
      requires Valid() && idx < params.samples
      ensures s == SampleAt(params, buckets[..], idx)
    {
      var d := buckets[params.Len() - 1];
      if d == ZERO {
        return Zero;
      }
      if IsGood(params, d) {
        return Good(d.alpha);
      }
      RoundFits(params, idx);
      RoundSpan(params, idx);
      var k, found := ScanColumns(idx * params.cols * params.height);
      FirstGoodUnique(params, buckets[..], idx * params.RoundSize(), (idx + 1) * params.RoundSize(), k);
      s := if found then Good(buckets[k].alpha) else Fail;
    }

    // the two nested loops of the sampling code
    method ScanColumns(base: nat) returns (k: nat, found: bool)
      requires Valid() && base + Slots(params.height, params.cols) <= params.Len()
      ensures base <= k <= base + Slots(params.height, params.cols)
      ensures found <==> k < base + Slots(params.height, params.cols)
      ensures found ==> IsGood(params, buckets[k])
      ensures forall j :: base <= j < k ==> !IsGood(params, buckets[j])
    {
      var i := 0;
      k := base;
      while i < params.cols
        invariant 0 <= i <= params.cols
        invariant k == base + Slots(params.height, i) <= base + Slots(params.height, params.cols)
        invariant forall j :: base <= j < k ==> !IsGood(params, buckets[j])
      {
        SlotsMono(params.height, i, params.cols);
        var stop := k + params.height;
        k := ScanColumn(k);
        if k < stop {
          return k, true;
        }
        i := i + 1;
      }
      found := false;
    }
  }

  lemma RoundSpan(p: Params, idx: nat)
    ensures idx * p.cols * p.height == idx * p.RoundSize()
    ensures (idx + 1) * p.RoundSize() == idx * p.RoundSize() + Slots(p.height, p.cols)
  {
    MulAssoc(idx, p.cols, p.height);
    SlotsIsProduct(p.height, p.cols);
  }

  lemma FirstGoodUnique(p: Params, b: seq<Bucket>, lo: nat, hi: nat, k: nat)
    requires lo <= k <= hi <= |b|
    requires k < hi ==> IsGood(p, b[k])
    requires forall j :: lo <= j < k ==> !IsGood(p, b[j])
    ensures FirstGood(p, b, lo, hi) == k
  {
  }
}
