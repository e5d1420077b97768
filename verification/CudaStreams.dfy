/** The double-buffered CUDA pipeline (`process_batch_default`, `flush_buffers_default`). The device works through its
    queue at its own pace: between any two host actions it may have executed any number of queued operations. */
module CudaStreams {
  import opened XorAlgebra
  import opened Sketches
  import opened Supernodes

  /** The kernel updates one row per column, which is the build without L0 sampling. */
  predicate Plain(p: Params) { p.Valid() && !p.l0 }

  datatype Meta = Meta(src: nat, size: nat, start: nat)

  /** One half of the pinned host arrays: destinations back to back, and per batch its source, size and start. */
  datatype HalfBuffer = HalfBuffer(edges: seq<nat>, meta: seq<Meta>)

  datatype Op = CopyIn(half: nat, edgeCount: nat, count: nat) | Kernel(count: nat) | CopyOut(count: nat)

  datatype Device = Device(input: HalfBuffer, buckets: seq<seq<Bucket>>)

  predicate InBounds(h: HalfBuffer, i: nat) {
    i < |h.meta| && h.meta[i].start + h.meta[i].size <= |h.edges|
  }

  /** The batch that slot `i` describes. */
  function BatchAt(h: HalfBuffer, i: nat): Batch
    requires InBounds(h, i)
  {
    Batch(h.meta[i].src, h.edges[h.meta[i].start..h.meta[i].start + h.meta[i].size])
  }

  /** The first slots hold exactly these batches, using the first `used` edge positions. */
  ghost predicate HoldsBatches(h: HalfBuffer, used: nat, bs: seq<Batch>) {
    used <= |h.edges| && |bs| <= |h.meta| && forall k {:trigger Open(k)} :: Open(k) ==> SlotsHold(h, used, bs)
  }

  // Keeps the slots of `HoldsBatches` folded except in proofs that mention `Open`.
  ghost predicate Open(k: nat) { true }

  ghost predicate SlotsHold(h: HalfBuffer, used: nat, bs: seq<Batch>)
    requires |bs| <= |h.meta|
  {
    forall i :: 0 <= i < |bs| ==> h.meta[i].start + h.meta[i].size <= used && InBounds(h, i) && BatchAt(h, i) == bs[i]
  }

  /** The delta sketch of one batch, as the kernel computes it. */
  function DeltaOf(p: Params, b: Batch): (d: seq<Bucket>)
    requires Plain(p)
    ensures |d| == p.Len()
  {
    UpdateAll(p, ZeroFn(p), HalfIds(b.src, b.dsts))
  }

  function Prefix(h: HalfBuffer, used: nat, count: nat): HalfBuffer {
    HalfBuffer(h.edges[..if used <= |h.edges| then used else |h.edges|],
               h.meta[..if count <= |h.meta| then count else |h.meta|])
  }

  /** The kernel on the device's input: one delta per slot; a slot outside the copied data yields nothing defined. */
  function KernelOut(p: Params, input: HalfBuffer, count: nat): (r: seq<seq<Bucket>>)
    requires Plain(p)
    ensures |r| == count && forall i :: 0 <= i < count ==> |r[i]| == p.Len()
  {
    seq(count, i requires 0 <= i < count => if InBounds(input, i) then DeltaOf(p, BatchAt(input, i)) else ZeroFn(p))
  }

  ghost predicate Deltas(p: Params, r: seq<seq<Bucket>>, bs: seq<Batch>)
    requires Plain(p)
  {
    |bs| <= |r| && forall i :: 0 <= i < |bs| ==> r[i] == DeltaOf(p, bs[i])
  }

  lemma CopiedHolds(h: HalfBuffer, used: nat, bs: seq<Batch>)
    requires HoldsBatches(h, used, bs)
    ensures HoldsBatches(Prefix(h, used, |bs|), used, bs)
  {
    assert Open(0);
    var c := Prefix(h, used, |bs|);
    forall i | 0 <= i < |bs| ensures InBounds(c, i) && BatchAt(c, i) == bs[i] {
      assert c.meta[i] == h.meta[i];
      var m := h.meta[i];
      assert c.edges[m.start..m.start + m.size] == h.edges[m.start..m.start + m.size];
    }
  }

  lemma SlotSource(h: HalfBuffer, used: nat, bs: seq<Batch>, i: nat)
    requires HoldsBatches(h, used, bs) && i < |bs|
    ensures h.meta[i].src == bs[i].src
  {
    assert Open(0);
    assert BatchAt(h, i) == bs[i];
  }

  lemma KernelDeltas(p: Params, h: HalfBuffer, used: nat, bs: seq<Batch>)
    requires Plain(p) && HoldsBatches(h, used, bs)
    ensures Deltas(p, KernelOut(p, h, |bs|), bs)
  {
    assert Open(0);
  }

  /** Writing a batch behind what is used. */
  function Write(h: HalfBuffer, used: nat, count: nat, b: Batch): HalfBuffer
    requires used + |b.dsts| <= |h.edges| && count < |h.meta|
  {
    HalfBuffer(Overwrite(h.edges, used, b.dsts), h.meta[count := Meta(b.src, |b.dsts|, used)])
  }

  function Overwrite(s: seq<nat>, at: nat, t: seq<nat>): (r: seq<nat>)
    requires at + |t| <= |s|
    ensures |r| == |s|
  {
    s[..at] + t + s[at + |t|..]
  }

  lemma WriteHolds(h: HalfBuffer, used: nat, bs: seq<Batch>, b: Batch)
    requires HoldsBatches(h, used, bs) && used + |b.dsts| <= |h.edges| && |bs| < |h.meta|
    ensures HoldsBatches(Write(h, used, |bs|, b), used + |b.dsts|, bs + [b])
  {
    assert Open(0);
    var a := Write(h, used, |bs|, b);
    forall i | 0 <= i < |bs| + 1
      ensures a.meta[i].start + a.meta[i].size <= used + |b.dsts| && InBounds(a, i) && BatchAt(a, i) == (bs + [b])[i]
    {
      if i < |bs| {
        var m := h.meta[i];
        assert a.meta[i] == m;
        assert a.edges[m.start..m.start + m.size] == h.edges[m.start..m.start + m.size];
      } else {
        assert a.edges[used..used + |b.dsts|] == b.dsts;
      }
    }
  }

  /** Edge positions of `count` batches of full size: count * size. */
  function Positions(count: nat, size: nat): nat { if count == 0 then 0 else Positions(count - 1, size) + size }

  lemma {:induction false} PositionsIsProduct(count: nat, size: nat)
    ensures Positions(count, size) == count * size
  {
    if count > 0 {
      PositionsIsProduct(count - 1, size);
      assert (count - 1) * size + size == count * size;
    }
  }

  lemma {:induction false} MorePositions(a: nat, b: nat, size: nat)
    requires a <= b
    ensures Positions(a, size) <= Positions(b, size)
  {
    if a < b { MorePositions(a, b - 1, size); }
  }

  /** The current half holds `filling`, none of its batches longer than `size`. */
  ghost predicate Filled(h: HalfBuffer, used: nat, count: nat, filling: seq<Batch>, limit: nat, size: nat) {
    count == |filling| <= limit && used <= Positions(count, size) && HoldsBatches(h, used, filling)
  }

  lemma FilledNext(h: HalfBuffer, used: nat, count: nat, filling: seq<Batch>, limit: nat, size: nat, b: Batch)
    requires Filled(h, used, count, filling, limit, size) && count < limit && |b.dsts| <= size
    requires |h.edges| == Positions(limit, size) && |h.meta| == limit
    ensures used + |b.dsts| <= Positions(limit, size)
    ensures Filled(Write(h, used, count, b), used + |b.dsts|, count + 1, filling + [b], limit, size)
  {
    MorePositions(count + 1, limit, size);
    WriteHolds(h, used, filling, b);
  }

  /** The two halves of the pinned arrays, which are contiguous. */
  function Halves(edges: seq<nat>, meta: seq<Meta>, cap: nat, limit: nat): seq<HalfBuffer>
    requires |edges| == 2 * cap && |meta| == 2 * limit
  {
    [HalfBuffer(edges[..cap], meta[..limit]), HalfBuffer(edges[cap..], meta[limit..])]
  }

  /** Writes that stay inside one half change that half only. */
  lemma WriteInHalf(edges: seq<nat>, meta: seq<Meta>, cap: nat, limit: nat, half: nat, used: nat, count: nat, b: Batch)
    requires |edges| == 2 * cap && |meta| == 2 * limit && half < 2 && used + |b.dsts| <= cap && count < limit
    ensures var at, slot := if half == 0 then used else cap + used, if half == 0 then count else limit + count;
            var was := Halves(edges, meta, cap, limit);
            Halves(Overwrite(edges, at, b.dsts), meta[slot := Meta(b.src, |b.dsts|, used)], cap, limit)
            == was[half := Write(was[half], used, count, b)]
  {
    var was := Halves(edges, meta, cap, limit);
    var at, slot := if half == 0 then used else cap + used, if half == 0 then count else limit + count;
    var e, m := Overwrite(edges, at, b.dsts), meta[slot := Meta(b.src, |b.dsts|, used)];
    if half == 0 {
      assert e[..cap] == Overwrite(edges[..cap], used, b.dsts) && e[cap..] == edges[cap..];
      assert m[..limit] == meta[..limit][count := m[slot]] && m[limit..] == meta[limit..];
    } else {
      assert e[cap..] == Overwrite(edges[cap..], used, b.dsts) && e[..cap] == edges[..cap];
      assert m[limit..] == meta[limit..][count := m[slot]] && m[..limit] == meta[..limit];
    }
  }

  // ---------- applying deltas ----------

  ghost predicate Fits(p: Params, sks: seq<seq<Bucket>>, bs: seq<Batch>) {
    (forall v :: 0 <= v < |sks| ==> |sks[v]| == p.Len()) && (forall i :: 0 <= i < |bs| ==> bs[i].src < |sks|)
  }

  lemma {:induction false} ApplyOneMore(p: Params, sks: seq<seq<Bucket>>, bs: seq<Batch>, b: Batch)
    requires Plain(p) && Fits(p, sks, bs + [b])
    ensures Fits(p, sks, bs) && b.src < |sks| && Fits(p, ApplyBatches(p, sks, bs), [b])
    ensures ApplyBatches(p, sks, bs + [b]) == ApplyBatch(p, ApplyBatches(p, sks, bs), b)
    decreases |bs|
  {
    var all := bs + [b];
    assert all[|bs|] == b;
    forall i | 0 <= i < |bs| ensures bs[i].src < |sks| { assert all[i] == bs[i]; }
    if bs == [] {
      assert all == [b];
      assert ApplyBatches(p, ApplyBatch(p, sks, b), [b][1..]) == ApplyBatch(p, sks, b);
    } else {
      assert all[0] == bs[0] && all[1..] == bs[1..] + [b];
      ApplyOneMore(p, ApplyBatch(p, sks, bs[0]), bs[1..], b);
    }
  }

  // ---------- the pipeline ----------

  /** What the queue and the memory it works on look like while `bs` are in flight from half `half`. */
  ghost predicate InFlight(p: Params, host: seq<HalfBuffer>, dev: Device, hBuckets: seq<seq<Bucket>>, queue: seq<Op>,
                           half: nat, used: nat, bs: seq<Batch>)
    requires Plain(p)
  {
    && half < |host| && HoldsBatches(host[half], used, bs)
    && (|| queue == [CopyIn(half, used, |bs|), Kernel(|bs|), CopyOut(|bs|)]
        || (queue == [Kernel(|bs|), CopyOut(|bs|)] && HoldsBatches(dev.input, used, bs))
        || (queue == [CopyOut(|bs|)] && Deltas(p, dev.buckets, bs))
        || (queue == [] && Deltas(p, hBuckets, bs)))
  }

  /** The half that was given to the device last, if any. */
  ghost predicate OtherHalf(p: Params, host: seq<HalfBuffer>, dev: Device, hBuckets: seq<seq<Bucket>>, queue: seq<Op>,
                            half: nat, used: nat, bs: seq<Batch>, limit: nat)
    requires Plain(p)
  {
    if bs == [] then queue == [] else |bs| == limit && InFlight(p, host, dev, hBuckets, queue, half, used, bs)
  }

  lemma OtherFrame(p: Params, host: seq<HalfBuffer>, now: seq<HalfBuffer>, dev: Device, hBuckets: seq<seq<Bucket>>,
                   queue: seq<Op>,
                   half: nat, used: nat, bs: seq<Batch>, limit: nat)
    requires Plain(p) && OtherHalf(p, host, dev, hBuckets, queue, half, used, bs, limit) && half < 2
    requires |now| == |host| == 2 && now[half] == host[half]
    ensures OtherHalf(p, now, dev, hBuckets, queue, half, used, bs, limit) && NotRead(queue, 1 - half)
  {
    if bs != [] {
      FlightFrame(p, host, now, dev, hBuckets, queue, half, used, bs);
      FlightReads(p, host, dev, hBuckets, queue, half, used, bs);
    }
  }

  /** Only the half that is read matters to what is in flight. */
  lemma FlightFrame(p: Params, host: seq<HalfBuffer>, now: seq<HalfBuffer>, dev: Device, hBuckets: seq<seq<Bucket>>,
                    queue: seq<Op>,
                    half: nat, used: nat, bs: seq<Batch>)
    requires Plain(p) && InFlight(p, host, dev, hBuckets, queue, half, used, bs) && |now| == |host|
    requires now[half] == host[half]
    ensures InFlight(p, now, dev, hBuckets, queue, half, used, bs)
  {
  }

  lemma FlightReads(p: Params, host: seq<HalfBuffer>, dev: Device, hBuckets: seq<seq<Bucket>>, queue: seq<Op>,
                    half: nat, used: nat, bs: seq<Batch>)
    requires Plain(p) && InFlight(p, host, dev, hBuckets, queue, half, used, bs) && half < 2
    ensures NotRead(queue, 1 - half)
  {
  }

  /** No queued copy reads half `half`. */
  predicate NotRead(queue: seq<Op>, half: nat) {
    forall i :: 0 <= i < |queue| ==> !(queue[i].CopyIn? && queue[i].half == half)
  }

  /** The device executes the operation at the head of its queue, on the memory as it is at that moment. */
  function Execute(p: Params, host: seq<HalfBuffer>, dev: Device, hBuckets: seq<seq<Bucket>>,
                   op: Op): (Device, seq<seq<Bucket>>)
    requires Plain(p)
  {
    match op
    case CopyIn(half, used, count) =>
      (if half < |host| then dev.(input := Prefix(host[half], used, count)) else dev, hBuckets)
    case Kernel(count) => (dev.(buckets := KernelOut(p, dev.input, count)), hBuckets)
    case CopyOut(count) =>
      (dev, dev.buckets[..if count <= |dev.buckets| then count else |dev.buckets|]
            + hBuckets[if count <= |hBuckets| then count else |hBuckets|..])
  }

  lemma ExecuteKeepsFlight(p: Params, host: seq<HalfBuffer>, dev: Device, hBuckets: seq<seq<Bucket>>, queue: seq<Op>,
                           half: nat, used: nat, bs: seq<Batch>)
    requires Plain(p) && InFlight(p, host, dev, hBuckets, queue, half, used, bs) && queue != []
    ensures var (dev', hb') := Execute(p, host, dev, hBuckets, queue[0]);
            InFlight(p, host, dev', hb', queue[1..], half, used, bs)
  {
    CopiedHolds(host[half], used, bs);
    if queue[0].CopyIn? {
      assert queue[1..] == [Kernel(|bs|), CopyOut(|bs|)];
    } else if queue[0].Kernel? {
      assert queue[1..] == [CopyOut(|bs|)];
      KernelDeltas(p, dev.input, used, bs);
    } else {
      assert queue[1..] == [];
    }
  }

  class CudaStream {
    const p: Params
    const batchLimit: nat
    const batchSize: nat
    var edges: seq<nat>                // the pinned destinations, both halves in one array
    var meta: seq<Meta>                // per batch, both halves in one array
    var hBuckets: seq<seq<Bucket>>
    var half: nat
    var used: nat
    var batchCount: nat
    var firstBuffer: bool
    var sks: seq<seq<Bucket>>          // the sketches of this graph, one per vertex
    var dev: Device
    var queue: seq<Op>
    ghost var sks0: seq<seq<Bucket>>   // the sketches at the start
    ghost var applied: seq<Batch>      // batches whose delta has been applied, in order
    ghost var flying: seq<Batch>       // the previous half, given to the device
    ghost var flyingUsed: nat
    ghost var filling: seq<Batch>      // the batches in the current half

    /** Edge positions in one half. */
    function Capacity(): nat { Positions(batchLimit, batchSize) }

    ghost predicate Sized()
      reads this
    {
      |edges| == 2 * Capacity() && |meta| == 2 * batchLimit && half < 2
    }

    function Host(): seq<HalfBuffer>
      requires Sized()
      reads this
    {
      Halves(edges, meta, Capacity(), batchLimit)
    }

    /** Where the next batch goes in the contiguous arrays. */
    function EdgeOffset(): nat
      reads this
    {
      if half == 0 then used else Capacity() + used
    }

    function SlotOffset(): nat
      reads this
    {
      if half == 0 then batchCount else batchLimit + batchCount
    }

    /** The sketches are those of the applied batches, and every batch names a vertex. */
    ghost predicate SketchesOk()
      reads this
    {
      && Plain(p) && batchLimit > 0 && Sized()
      && Fits(p, sks0, applied) && Fits(p, sks0, flying) && Fits(p, sks0, filling)
      && sks == ApplyBatches(p, sks0, applied)
    }

    /** Every batch received is applied, in flight or waiting in the current half. */
    ghost predicate Core()
      reads this
    {
      && SketchesOk()
      && Filled(Host()[half], used, batchCount, filling, batchLimit, batchSize)
      && OtherHalf(p, Host(), dev, hBuckets, queue, 1 - half, flyingUsed, flying, batchLimit)
    }

    ghost predicate Valid()
      reads this
    {
      Core() && batchCount < batchLimit && (firstBuffer <==> flying == []) && (firstBuffer ==> applied == [])
    }

    ghost function Received(): seq<Batch>
      reads this
    {
      applied + flying + filling
    }

    constructor (params: Params, limit: nat, size: nat, sketches: seq<seq<Bucket>>)
      requires Plain(params) && limit > 0 && forall v :: 0 <= v < |sketches| ==> |sketches[v]| == params.Len()
      ensures Valid() && Received() == [] && sks == sketches && sks0 == sketches && p == params && firstBuffer
      ensures batchLimit == limit && batchSize == size
    {
      p, batchLimit, batchSize := params, limit, size;
      edges, meta, hBuckets := seq(2 * Positions(limit, size), _ => 0), seq(2 * limit, _ => Meta(0, 0, 0)), [];
      half, used, batchCount, firstBuffer := 0, 0, 0, true;
      sks, sks0 := sketches, sketches;
      dev, queue := Device(HalfBuffer([], []), []), [];
      applied, flying, flyingUsed, filling := [], [], 0, [];
    }

    method Step(ghost h: nat, ghost u: nat, ghost bs: seq<Batch>)
      requires Plain(p) && Sized() && InFlight(p, Host(), dev, hBuckets, queue, h, u, bs) && queue != []
      modifies this`dev, this`hBuckets, this`queue
      ensures InFlight(p, Host(), dev, hBuckets, queue, h, u, bs) && |queue| == old(|queue|) - 1
    {
      ExecuteKeepsFlight(p, Host(), dev, hBuckets, queue, h, u, bs);
      var r := Execute(p, Host(), dev, hBuckets, queue[0]);
      dev, hBuckets, queue := r.0, r.1, queue[1..];
    }

    /** The device gets some work done: any number of queued operations, at any moment. */
    method DeviceRuns()
      requires Core()
      modifies this`dev, this`hBuckets, this`queue
      ensures Core()
    {
      while *
        invariant Core()
        decreases |queue|
      {
        if queue == [] { break; }
        Step(1 - half, flyingUsed, flying);
      }
    }

    /** `cudaStreamSynchronize`. */
    method Synchronize(ghost h: nat, ghost u: nat, ghost bs: seq<Batch>)
      requires Plain(p) && Sized() && InFlight(p, Host(), dev, hBuckets, queue, h, u, bs)
      modifies this`dev, this`hBuckets, this`queue
      ensures InFlight(p, Host(), dev, hBuckets, queue, h, u, bs) && queue == []
    {
      while queue != []
        invariant InFlight(p, Host(), dev, hBuckets, queue, h, u, bs)
        decreases |queue|
      {
        Step(h, u, bs);
      }
    }

    /** The loop that copies the destinations into the pinned array. */
    method FillEdges(at: nat, dsts: seq<nat>)
      requires at + |dsts| <= |edges|
      modifies this`edges
      ensures edges == Overwrite(old(edges), at, dsts)
    {
      var count := 0;
      while count < |dsts|
        invariant count <= |dsts| && edges == old(edges)[..at] + dsts[..count] + old(edges)[at + count..]
      {
        edges := edges[at + count := dsts[count]];
        count := count + 1;
      }
      assert dsts[..count] == dsts;
    }

    /** The host fills the next slot of the current half: a batch of at most `batchSize` destinations is written inside
        that half, which no copy in flight reads. */
    method WriteSlot(b: Batch)
      requires Core() && batchCount < batchLimit && b.src < |sks0| && |b.dsts| <= batchSize
      modifies this`edges, this`meta, this`used, this`batchCount, this`filling
      ensures Core() && filling == old(filling) + [b] && batchCount == old(batchCount) + 1
      ensures old(used) + |b.dsts| <= Capacity() && edges == Overwrite(old(edges), old(EdgeOffset()), b.dsts)
      ensures meta == old(meta)[old(SlotOffset()) := Meta(b.src, |b.dsts|, old(used))]
      ensures NotRead(queue, half) && Host()[1 - half] == old(Host()[1 - half])
    {
      ghost var h := Host();
      FilledNext(h[half], used, batchCount, filling, batchLimit, batchSize, b);
      FitsOneMore(p, sks0, filling, b);
      FillSlot(b);
      OtherFrame(p, h, Host(), dev, hBuckets, queue, 1 - half, flyingUsed, flying, batchLimit);
      used, batchCount, filling := used + |b.dsts|, batchCount + 1, filling + [b];
    }

    method FillSlot(b: Batch)
      requires Sized() && used + |b.dsts| <= Capacity() && batchCount < batchLimit
      modifies this`edges, this`meta
      ensures edges == Overwrite(old(edges), EdgeOffset(), b.dsts)
      ensures meta == old(meta)[SlotOffset() := Meta(b.src, |b.dsts|, used)]
      ensures Sized() && Host()[half] == Write(old(Host())[half], used, batchCount, b)
      ensures Host()[1 - half] == old(Host())[1 - half]
    {
      WriteInHalf(edges, meta, Capacity(), batchLimit, half, used, batchCount, b);
      FillEdges(EdgeOffset(), b.dsts);
      meta := meta[SlotOffset() := Meta(b.src, |b.dsts|, used)];
    }

    method ApplyOne(src: nat, delta: seq<Bucket>, ghost b: Batch)
      requires Plain(p) && Fits(p, sks0, applied) && sks == ApplyBatches(p, sks0, applied) && b.src < |sks0|
      requires src == b.src && delta == DeltaOf(p, b)
      modifies this`sks, this`applied
      ensures Fits(p, sks0, applied) && sks == ApplyBatches(p, sks0, applied) && applied == old(applied) + [b]
    {
      FitsOneMore(p, sks0, applied, b);
      ApplyOneMore(p, sks0, applied, b);
      sks := sks[src := MergeFn(sks[src], delta)];
      applied := applied + [b];
    }

    /** XOR the returned deltas of half `h` into their source vertices. */
    method ApplyDeltas(h: nat, count: nat, ghost u: nat, ghost bs: seq<Batch>)
      requires Plain(p) && Fits(p, sks0, applied) && sks == ApplyBatches(p, sks0, applied) && Fits(p, sks0, bs)
      requires Sized() && h < 2 && HoldsBatches(Host()[h], u, bs) && Deltas(p, hBuckets, bs) && count == |bs|
      modifies this`sks, this`applied
      ensures Fits(p, sks0, applied) && sks == ApplyBatches(p, sks0, applied) && applied == old(applied) + bs
    {
      var i := 0;
      while i < count
        invariant i <= count && Fits(p, sks0, applied) && sks == ApplyBatches(p, sks0, applied)
        invariant applied == old(applied) + bs[..i]
      {
        SlotSource(Host()[h], u, bs, i);
        ApplyOne(Host()[h].meta[i].src, hBuckets[i], bs[i]);
        assert bs[..i + 1] == bs[..i] + [bs[i]];
        i := i + 1;
      }
      assert bs[..i] == bs;
    }

    /** Wait for the previous half and apply its deltas. */
    method Retire()
      requires Core() && (firstBuffer <==> flying == [])
      modifies this`dev, this`hBuckets, this`queue, this`sks, this`applied, this`flying
      ensures Core() && flying == [] && applied == old(applied + flying)
    {
      if !firstBuffer {
        Synchronize(1 - half, flyingUsed, flying);
        ApplyDeltas(1 - half, batchLimit, flyingUsed, flying);
        flying := [];
      }
    }

    /** Queue the copies and the kernel for the full half, and turn to the other one. */
    method Launch()
      requires Core() && flying == [] && batchCount == batchLimit
      modifies this`queue, this`batchCount, this`half, this`used, this`firstBuffer, this`flying, this`flyingUsed,
               this`filling
      ensures Valid() && flying == old(filling) && filling == [] && !firstBuffer
    {
      Departs(p, Host(), dev, hBuckets, half, used, filling);
      queue := [CopyIn(half, used, batchCount), Kernel(batchCount), CopyOut(batchCount)];
      flying, flyingUsed, filling := filling, used, [];
      batchCount, half, used, firstBuffer := 0, 1 - half, 0, false;
    }

    /** `process_batch_default`, with the device running in between. */
    method ProcessBatch(b: Batch)
      requires Valid() && b.src < |sks0| && |b.dsts| <= batchSize
      modifies this
      ensures Valid() && Received() == old(Received()) + [b] && sks0 == old(sks0)
      ensures !old(firstBuffer) ==> !firstBuffer
    {
      Receive(b);
      if batchCount == batchLimit { TurnOver(); }
      LetRun();
    }

    method Receive(b: Batch)
      requires Valid() && b.src < |sks0| && |b.dsts| <= batchSize
      modifies this`edges, this`meta, this`used, this`batchCount, this`filling, this`dev, this`hBuckets, this`queue
      ensures Core() && Received() == old(Received()) + [b]
    {
      DeviceRuns();
      WriteSlot(b);
      Assoc(applied, flying, old(filling), b);
      DeviceRuns();
    }

    /** The device runs after the call has returned. */
    method LetRun()
      requires Valid()
      modifies this`dev, this`hBuckets, this`queue
      ensures Valid() && Received() == old(Received())
    {
      DeviceRuns();
    }

    /** The half is full: retire the previous one, launch this one. */
    method TurnOver()
      requires Core() && (firstBuffer <==> flying == []) && batchCount == batchLimit
      modifies this
      ensures Valid() && Received() == old(Received()) && sks0 == old(sks0) && !firstBuffer
    {
      Retire();
      Launch();
      assert Received() == old(Received());
    }

    /** `flush_buffers_default`, once, after at least one full buffer: every batch received has been applied. */
    method FlushBuffers()
      requires Valid() && !firstBuffer
      modifies this
      ensures sks0 == old(sks0) && applied == old(Received()) && Plain(p) && Fits(p, sks0, applied)
      ensures sks == ApplyBatches(p, sks0, applied)
    {
      DeviceRuns();
      Retire();
      if batchCount == 0 { return; }
      queue := [CopyIn(half, used, batchCount), Kernel(batchCount), CopyOut(batchCount)];
      Synchronize(half, used, filling);
      ApplyDeltas(half, batchCount, used, filling);
    }
  }

  lemma Assoc(a: seq<Batch>, f: seq<Batch>, w: seq<Batch>, b: Batch)
    ensures a + f + (w + [b]) == (a + f + w) + [b]
  {
  }

  lemma Departs(p: Params, host: seq<HalfBuffer>, dev: Device, hBuckets: seq<seq<Bucket>>, half: nat, used: nat,
                bs: seq<Batch>)
    requires Plain(p) && half < |host| && HoldsBatches(host[half], used, bs)
    ensures InFlight(p, host, dev, hBuckets, [CopyIn(half, used, |bs|), Kernel(|bs|), CopyOut(|bs|)], half, used, bs)
  {
  }

  lemma FitsOneMore(p: Params, sks: seq<seq<Bucket>>, bs: seq<Batch>, b: Batch)
    requires Fits(p, sks, bs) && b.src < |sks|
    ensures Fits(p, sks, bs + [b])
  {
  }

  /** A whole run: any batches, at least one full buffer, one final flush. Each batch's delta has been applied exactly
      once, so the sketches are those of applying the batches one by one on the host. */
  method RunPipeline(params: Params, limit: nat, size: nat, sketches: seq<seq<Bucket>>, bs: seq<Batch>)
    returns (sks: seq<seq<Bucket>>)
    requires Plain(params) && 0 < limit <= |bs| && Fits(params, sketches, bs)
    requires forall i :: 0 <= i < |bs| ==> |bs[i].dsts| <= size
    ensures sks == ApplyBatches(params, sketches, bs)
  {
    var s := new CudaStream(params, limit, size, sketches);
    FeedAll(s, bs);
    s.FlushBuffers();
    sks := s.sks;
  }

  method FeedAll(s: CudaStream, bs: seq<Batch>)
    requires s.Valid() && s.Received() == [] && s.batchLimit <= |bs| && Fits(s.p, s.sks0, bs)
    requires forall i :: 0 <= i < |bs| ==> |bs[i].dsts| <= s.batchSize
    modifies s
    ensures s.Valid() && s.Received() == bs && s.sks0 == old(s.sks0) && !s.firstBuffer
  {
    var i := 0;
    while i < |bs|
      invariant i <= |bs| && s.Valid() && s.Received() == bs[..i] && s.sks0 == old(s.sks0)
    {
      s.ProcessBatch(bs[i]);
      i := i + 1;
    }
    assert |s.Received()| == |s.applied| + |s.flying| + |s.filling|;
    assert bs[..i] == bs;
  }
}
