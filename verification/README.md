# GraphZeppelin: a verified model of the sketching and query core

GraphZeppelin keeps one linear (XOR) sketch per vertex of a dynamic graph and answers connectivity and
k-connectivity queries by running Boruvka's algorithm on merged sketches. This project models the hard parts of that
system in Dafny and proves what they promise: for every input, every thread interleaving, every device schedule and
every run of updates and queries.

`dafny verify dfyconfig.toml` checks everything.

## How the modules fit together

| Layer | Modules |
|---|---|
| graphs, union-find forests, exclusive-or | `Graphs`, `DisjointSets`, `XorAlgebra`, `Arithmetic` |
| concurrent and sequential union-find | `LockFreeDsu`, `DsuProgress`, `FindRaces`, `LookUps`, `LookUpsExact`, `LookUpRaces`, `LookUpRun`, `LookUpQueues`, `LookUpsApart`, `DeepForests`, `SequentialDsu`, `PathHalving` |
| sketches and supernodes | `Sketches`, `SketchLaws`, `SketchObject`, `Supernodes` |
| one parallel Boruvka round | `Partitions`, `MergeLists`, `RoundProtocol`, `RoundSafety`, `RoundSteps`, `RoundOutcome`, `RoundRuns`, `CountingSort`, `Regrouping` |
| runs of the query loop | `Boruvka`, `BoruvkaRounds`, `MislabelledRounds`, `QueryLoop`, `Traces`, `Emulation`, `TornGraph`, `TornQuery` |
| the query engine over whole runs | `ReturnTypes`, `Caches`, `QueryEngine`, `StreamRuns`, `KForests`, `QueryWitnesses` |
| edge store, gutters, CUDA pipeline | `TaggedUpdates`, `BufferMerges`, `EdgeStores`, `Gutters`, `GpuIngest`, `CudaStreams`, `GpuKernel`, `SubgraphSketches`, `WideMultiply` |
| the reference checker of the tests | `GraphVerifiers`, `ForestChecks` |

The main chain of results: a sketch is the image of an edge set under symmetric difference (`UpdateToggles`,
`MergeIsSymDiff`), so merged vertex sketches hold exactly the edges leaving the merged set (`CutOfUnion`, `HeldUnion`).
A parallel round samples every group of its merge list exactly once on its complete sketch, whatever the interleaving
(`EveryScheduleExact`). The groups come from look-ups that race with each other, so a label is some vertex of the right
set and not always its root (`CreateMergeInstructions`). A faithful round that changes nothing has found the components
exactly when no edge joins two sets that its labels split (`UnmodifiedIsExact`). `Traces` puts rounds and look-ups
together: a trace records every round of one emulation, `IsRun` says that each round is the outcome of some interleaving
and each list the outcome of some race, and the theorems there (`RunEndsNormally`, `RunThrows`, `CalmRunEnds`,
`RacesNeedRoom`) hold for every trace that is a run. The query loop always ends and returns the trace of what it did
(`Emulate`); the engine keeps it beside the cache, so that every reply of a whole run is one that such a run can give
(`StreamRuns.Run`, `RepliesTrue`).

Conventions used throughout:

- The checksum and depth hashes are uninterpreted functions. "Faithful" is a condition on the buckets a particular run
  inspects (`FaithfulAt`, `GroupsFaithful`), never on all sets at once. What happened in an emulation is read off its
  trace (`LuckOf`): `fooled` (some round inspected a bucket that fools its checksum), `unlucky` (a FAIL sample),
  `inexact` (a label that is no root), `torn` (the last round changed nothing on labels that split two sets which an edge
  joins) and `deep` (look-ups between rounds started more than four links below a root). `Sound` (not fooled, not torn) is
  what exact answers need, `Calm` (not fooled, not unlucky, not inexact) what answers instead of exceptions need.
- Between rounds every thread looks up the children of its part of the list, in list order (`PartQueues`). For the answer
  object, `omp parallel for` leaves the assignment of vertices to threads to the implementation, so every assignment is
  covered. Either way all interleavings of the loads and stores are, in both operand orders of the loop test. After a
  round the parent array is any array with the same roots (`Settle`), because which halving stores its merges have made
  depends on the interleaving.
- Concurrent code is a transition system. A lock-protected section is one step; in the union-find every load, store
  and compare-and-swap is a step of its own. In the round model one `dsu.merge` is one step, which is what
  `RunsAreExact`, `WinJoinsDistinctSets` and `CallsAnsweredCorrectly` establish of its lock-free implementation.
- The `double` division in the partition arithmetic is taken as an exact rational, and 1 <= threads <= vertices.
- Predicates whose body is guarded by `Look(k)`, `Open(k)`, `Unfold(k)` or `UnfoldStep(k)` stay folded in proofs that do
  not mention that term. They mean exactly their body; the guard only keeps the proofs quick.

## What the proofs turned up

- `find_root` of the concurrent union-find can return a vertex that is not a root while other look-ups halve the path,
  because the loop test loads `parent[u]` twice. The partition itself is never damaged. For look-ups of arbitrary
  vertices, as the class offers them, every answer is a root if and only if no vertex is more than two links below its
  root (`FindsExactIffShallow`). With each vertex looked up once and vertices assigned freely, the exact bound is four
  links (`OnceExactIff`). With vertices dealt to the threads beforehand, four links are still enough (`DealtExact`), and
  so is any depth when no set is shared between two threads (`ApartExact`); a vertex five links down and its grandparent
  at the heads of two queues are too much (`HeadsRace`), and with one vertex per thread four links are again the exact
  bound (`OnePerThreadExactIff`). Deep arrays are reached by merging neighbours with ascending priorities
  (`ChainReachable`).
- A merge of the concurrent union-find is bounded whatever the other threads do: at most n + s laps of 16n + 3 steps each,
  where s counts the spurious failures of its weak compare-and-swap (`MergesAreBounded`). Every compare-and-swap that it
  loses is paid for by a link of another merge (`LossesAreLinks`).
- A component answer reads the union-find by such look-ups. The number of components is always exact, but with two or
  more threads the entries are exact under every interleaving if and only if no vertex is more than four links below
  its root (`CachedQueryExactIff`). Six vertices and five insertions are enough for a wrong answer from a valid cache, no
  checksum involved (`RacedAnswer`): [5, 5, 4, 5, 5, 5] for a connected graph.
- Between rounds the same look-ups may split a set into several groups. The forest still never leaves the graph
  (`AnyLabelsSound`), so right after a faithful emulation every forest edge is real and every "connected" is true,
  whatever the look-ups did (`RepliesTrue`). An unmodified faithful round is exact if and only if no edge joins two
  different split sets (`UnmodifiedIsExact`), so a single split set is harmless (`OneSplitSetTolerated`). Two are not:
  `TornRun` is a complete query, from the first round to the normal return, on a graph of twelve vertices with twelve
  threads, in which every inspected bucket is faithful and no sample fails, and which leaves two joined paths apart.
  Racing look-ups can matter only with two threads and six vertices (`RacesNeedRoom`).
- Too few samples make a query throw, whatever the depth hashes (`ThrowingQuery`); with more than log2(n) samples only a
  mishap does (`CalmRunEnds`).
- A failed query leaves `update_locked` set, so batches are refused until a later query succeeds (`Refresh`,
  `ApplyUpdateBatch`). Direct `update` calls do not look at the flag.
- If a query fails inside `calc_disjoint_spanning_forests`, the forests found so far stay deleted from the sketches
  (`CalcDisjointSpanningForests`; `ThrowingForests` is such a run).
- `verify_spanning_forests` restores the adjacency matrix without invalidating the cached components. After it accepts,
  the cache is right if and only if the last forest has an edge or no forest has one. After it rejects a list, the cache is
  right if and only if an edge of that list was taken out, or the graph left before that list joins as much as the whole
  (`VerifySpanningForests`, `RejectedStale`).
- `insert_adj_edges` does not always cancel an edge that is deleted. Its merge carries only one update along the buffer, so
  an update that the buffer does not hold pushes every later update past its twin: merging 1, 6 into 5, 6 gives 1, 5, 6, 6,
  with the deleted edge in it twice and out of order (`DuplicateStays`). From a sorted buffer and a sorted batch this
  happens exactly when an update that the buffer holds comes after one that it does not hold (`NoDupIffFront`); for any
  buffer without duplicates and any batch the condition is `NoDupIff`. The parity of every update is right all the same.
- The end of a contraction does not look at how full the store still is. After an insertion with no contraction under way
  the store has room or starts to contract, but after a contraction or a flush it can be full with nothing under way
  (`StillFull`), exactly if it keeps `max_edges` updates deep enough to stay (`FinishContraction`); the next insertion that
  reaches it starts the next contraction if it is then still full (`ApplyUpdateBatch`).
- `insert_adj_edges` looks for the first update deep enough for the store without a bound, so it relies on there being
  one. A caller that is one contraction late loses nothing (`InsertAdjEdges`); for one that is two late, a deep half-edge
  keeps its old parity in one subgraph although it was toggled (`TooLateLoses`).

## Model

| member | source | states |
|---|---|---|
| `DisjointSets.OrderEdge` | include/dsu.h:113-117 | the two conditional swaps return the two arguments with the first strictly above the second in (priority, smaller id) |
| `DisjointSets.HalvingKeepsPartition` | include/dsu.h:145-152 | a path-halving write changes no vertex's root and no set of roots |
| `DisjointSets.LinkKeepsRepresents` | include/dsu.h:155-167 | hanging one root below the other adds exactly the merged edge to the represented forest, which stays acyclic |
| `LockFreeDsu.ApplyKeepsInv` | include/dsu.h:145-167 | every single load, store or compare-and-swap of any thread keeps links ascending and the partition equal to the forest of successful merges |
| `LockFreeDsu.WinJoinsDistinctSets` | include/dsu.h:155-167 | a successful compare-and-swap joins two sets that were different at that moment |
| `LockFreeDsu.RunsAreExact` | include/dsu.h:145-167 | under every schedule roots plus successful merges equal n; when no merge is running the partition is that of all edges ever merged and the forest spans them |
| `DsuProgress.MergesAreBounded` | include/dsu.h:155-167 | under every schedule a merge takes at most n + s laps of 16n + 3 steps, s being its spurious failures, whatever the other threads do |
| `DsuProgress.AloneIsAnswered` | include/dsu.h:155-167 | from every reachable state a running merge whose thread moves alone for more steps than that is answered |
| `DsuProgress.LossesAreLinks` | include/dsu.h:155-167 | the compare-and-swaps that a merge loses are no more than the links made by other merges, hence fewer than n |
| `DsuProgress.FlagsAreForest` | include/dsu.h:155-167 | over every run the forest consists of the edges of exactly those merges that answered `merged`, one for each, and every answered merge has its arguments connected in it |
| `DsuProgress.FindsAreBounded` | include/dsu.h:145-152 | under every schedule a look-up has its answer after fewer than 8n steps of its own |
| `LockFreeDsu.CallsAnsweredCorrectly` | include/dsu.h:145-167 | a finished merge has its two vertices in one set, a find returns a vertex of the same set, and every find loop turns fewer than n times |
| `FindRaces.FindsExactIffShallow` | include/dsu.h:145-152 | for look-ups of any vertices, any number of times, with at least two threads and no merges: all answers of all schedules are roots exactly when no vertex is deeper than two links |
| `FindRaces.ShallowFindsReturnRoots` | include/dsu.h:145-152 | in a shallow forest every finished look-up of every merge-free schedule is a root |
| `FindRaces.DeepFindCanMiss` | include/dsu.h:145-152 | from any deeper vertex there is a schedule of two look-ups of it that returns a non-root |
| `LookUps.LookedInv` | src/return_types.cpp:10-12 | under every assignment of vertices to threads and every interleaving, looking up each vertex once changes no root and keeps every answer in the set of its vertex |
| `LookUps.FinishedAnswers` | src/return_types.cpp:10-18 | at the end every vertex is answered, by a vertex of its own set, and by itself exactly if it is a root |
| `LookUpsExact.ExactWhenShallow` | src/return_types.cpp:10-12 | one look-up per vertex gives only roots under every assignment and interleaving with one thread, or when no vertex is more than four links below its root |
| `LookUpRaces.DeepIsInexact` | src/return_types.cpp:10-12 | with a vertex five links below its root and two threads, some assignment and interleaving of one look-up per vertex answers with a non-root |
| `LookUpRaces.OnceExactIff` | src/return_types.cpp:10-12 | with at least two threads, one look-up per vertex is exact under every assignment and interleaving if and only if no vertex is more than four links below its root |
| `LookUpRun.LookUpAll` | src/return_types.cpp:10-12 | any scheduler brings the look-ups to an end, with answers that some run can give, in the right sets, roots where the condition holds, and no root changed |
| `LookUpQueues.LookUpDealt` | src/cc_sketch_alg.cpp:421-433 | the same when every thread works through its own queue of vertices in order |
| `LookUpQueues.DealtExact` | src/cc_sketch_alg.cpp:421-433 | with one queue, or no vertex deeper than four links, all answers of all interleavings are roots |
| `LookUpsApart.ApartExact` | src/cc_sketch_alg.cpp:421-433 | if no set is shared between two queues, all answers of all interleavings are roots, however deep the sets are |
| `LookUpQueues.HeadsRace` | src/cc_sketch_alg.cpp:421-433 | a vertex five links down and its grandparent at the heads of two queues: a run that follows the queues answers the grandparent wrongly and everything else by roots |
| `LookUpQueues.OnePerThreadExactIff` | src/cc_sketch_alg.cpp:421-433 | with one vertex per thread, all answers of all interleavings are roots if and only if no vertex is more than four links below its root |
| `DeepForests.ChainReachable` | include/dsu.h:145-167 | from the fresh union-find, merges of neighbours reach a single chain of any length, or two chains |
| `SequentialDsu.DisjointSetUnion.FindRoot` | include/dsu.h:71-78 | returns the root; the in-place halving is that of the specification and changes no root of any vertex |
| `PathHalving.PathHalved` | include/dsu.h:71-78 | after a look-up the vertex is half as many links below its root, rounded up |
| `SequentialDsu.DisjointSetUnion.Merge` | include/dsu.h:80-90 | succeeds exactly when the vertices were not connected by earlier merges; then the lower of the two old roots is the returned child and the other the returned root, which is the root of both vertices, and there is one root less |
| `SequentialDsu.DisjointSetUnion.Reset` | include/dsu.h:92-96 | every vertex is its own set again |
| `Sketches.CappedTrailingZeros` | include/bucket.h:54-59 | the depth is at most the cap, all bits below it are clear, and below the cap it is the position of a set bit |
| `XorAlgebra.XorFits` | include/bucket.h:69-73 | the exclusive-or of two values of a given bit width has that width |
| `Sketches.UpdateToggles` | src/sketch.cpp:66-100 | updating the sketch of X with x gives the sketch of X with x toggled |
| `Sketches.MergeIsSymDiff` | src/sketch.cpp:165-170 | merging sketches of X and Y gives the sketch of their symmetric difference |
| `Sketches.SampleLocal` | src/sketch.cpp:110-132 | sample r depends only on the columns of round r and the deterministic bucket |
| `Sketches.SampleMeaning` | src/sketch.cpp:110-132 | with faithful buckets ZERO means the empty vector, a returned index is in the support, and FAIL leaves two indices |
| `Sketches.SmallVectorsExact` | src/sketch.cpp:110-132 | whatever the hash, the empty vector is reported empty and a single index is returned |
| `Sketches.L0IsSuffixXor` | src/sketch.cpp:66-99 | bucket j of an L0 column is the exclusive-or of the plain buckets j and deeper |
| `SketchObject.Sketch.constructor` | src/sketch.cpp:102-108 | a new sketch is the sketch of the empty set at sample position 0 |
| `SketchObject.Sketch.Update` | src/sketch.cpp:66-100 | the in-place loops compute, in both builds, the update function whose effect `SketchLaws.UpdateByHash` states |
| `SketchLaws.UpdateByHash` | include/bucket.h:54-59 | for every column and row, from the depth hash h alone: the plain build changes row j exactly if 2^j divides h and 2^(j+1) does not, the L0 build exactly if 2^j divides h and 2^height does not; the deterministic bucket always changes |
| `SketchLaws.SketchByHash` | src/sketch.cpp:66-100 | row j of a column holds exactly the indices whose hash for that column puts them there |
| `SketchObject.Sketch.ZeroContents` | src/sketch.cpp:102-108 | all buckets zero, sample position 0 |
| `SketchObject.Sketch.Merge` | src/sketch.cpp:165-170 | bucket-wise exclusive-or, sample position unchanged |
| `SketchObject.Sketch.RangeMerge` | src/sketch.cpp:172-195 | only the buckets of the given samples and the deterministic bucket change; beyond the last sample the sketch is put in its fail state |
| `Sketches.RangeSamplesAsMerge` | src/sketch.cpp:172-195 | for every sample of the merged range, range-merging samples the same as merging everything |
| `SketchLaws.RangeMergeTouches` | src/sketch.cpp:172-195 | the columns of samples outside the range stay as they were and the position never moves back; past the last sample no bucket changes and nothing can be sampled |
| `SketchObject.Sketch.TakeSample` | src/sketch.cpp:110-132 | the nested loops agree with the sampling function, whose outcome `SketchLaws.SampleExact` states, and advance the position, or report that samples ran out |
| `SketchLaws.SampleExact` | src/sketch.cpp:110-132 | over the buckets: FAIL if and only if the deterministic bucket is neither zero nor good and no slot of the sample's columns is good; an index from the columns is that of their first good slot |
| `SketchLaws.AloneByHash` | src/sketch.cpp:110-132 | whatever the checksum, a sample does not fail if some index is alone in a row of one of its columns, as the depth hashes place it |
| `SketchLaws.FailsIffNoneAlone` | src/sketch.cpp:110-132 | with faithful buckets a sample fails if and only if there are two indices or more and none is alone in a slot of the sample |
| `SketchLaws.SamplesInTurn` | src/sketch.cpp:110-132 | call number i reads sample i and changes no bucket; after the last sample every call reports that there are none left |
| `Supernodes.PairRoundTrip` | src/util.cpp:45-57 | decoding the index of a pair gives the pair in order |
| `Supernodes.CutOfUnion` | src/cc_sketch_alg.cpp:133-160 | the indices leaving a union of disjoint vertex sets are the symmetric difference of those leaving the parts |
| `Supernodes.CutOfToggle` | src/cc_sketch_alg.cpp:154-160 | toggling an edge toggles its index in the cut of S exactly when it crosses S |
| `Supernodes.HeldAddVertex` | src/cc_sketch_alg.cpp:357-357 | range-merging one more vertex turns the held sketch of S into that of S plus the vertex |
| `Supernodes.HeldUnion` | src/cc_sketch_alg.cpp:239-247 | merging two held sketches of disjoint sets holds their union |
| `Supernodes.HeldSample` | src/sketch.cpp:110-132 | sampling the merged sketch of a supernode is sampling the sketch of its cut |
| `Supernodes.RangeMergeThenSample` | src/sketch.cpp:102-195 | zeroing, range-merging any list at r and sampling equals merging everything and sampling at r |
| `Supernodes.BatchesMeaning` | src/cc_sketch_alg.cpp:133-145 | after any batches each vertex holds exactly the indices delivered to it an odd number of times |
| `Supernodes.BatchingIrrelevant` | src/cc_sketch_alg.cpp:133-145 | any two ways of batching and ordering the same half-edges give identical sketches |
| `Supernodes.BatchedEqualsDirect` | src/cc_sketch_alg.cpp:133-160 | any split of a stream's half-edges into per-source batches, in any order, gives the sketches of one-by-one updates, which are those of the resulting graph |
| `Partitions.PartIdxInverts` | src/cc_sketch_alg.cpp:198-211 | position p lies in part i exactly when the index function returns i |
| `Partitions.PartsTile` | src/cc_sketch_alg.cpp:198-202 | parts start at 0, end at n, follow each other, and are non-empty with no more threads than vertices |
| `Partitions.PartsBalanced` | src/cc_sketch_alg.cpp:198-202 | every part has the average size, rounded down or up |
| `Partitions.FindLastPosition` | src/cc_sketch_alg.cpp:213-233 | on a list sorted by root only, the binary search finds the last position of the root |
| `Partitions.FindLastPartition` | src/cc_sketch_alg.cpp:213-236 | returns the part that owns that position |
| `MergeLists.PartsOfRoot` | src/cc_sketch_alg.cpp:297-313 | a root occupies exactly the parts from its first to its last |
| `MergeLists.FromLeftMeans` | src/cc_sketch_alg.cpp:304-307 | the left flag is set exactly when the head root starts in an earlier part |
| `MergeLists.ExitsRightMeans` | src/cc_sketch_alg.cpp:308-311 | the right flag is set exactly when the tail root ends in a later part |
| `MergeLists.SlotsDistinct` | src/cc_sketch_alg.cpp:360-370 | no two supernodes that span several parts use the same global slot |
| `RoundSafety.SampleKeepsShared` | src/cc_sketch_alg.cpp:164-193 | sampling keeps union-find and forest in agreement, grows the forest only by the sampled edge, and flags failure and change truthfully |
| `RoundSafety.ViewDeposit` | src/cc_sketch_alg.cpp:239-247 | a deposit adds exactly one portion, the depositor may sample exactly if it was the last, and the counter stays within num_merge_needed |
| `RoundOutcome.StepKeepsInv` | src/cc_sketch_alg.cpp:295-392 | whichever thread moves next, it is able to move and the round invariant survives |
| `RoundRuns.InitialInv` | src/cc_sketch_alg.cpp:283-316 | the state after resetting the global slots satisfies the invariant |
| `RoundRuns.EveryScheduleExact` | src/cc_sketch_alg.cpp:273-407 | for every interleaving: counters and slots are safe, whoever is sampled was fully merged, schedules are bounded by 4n + 5T steps, and a finished round has sampled every supernode exactly once on the XOR of all its vertices' columns |
| `RoundRuns.RunRound` | src/cc_sketch_alg.cpp:273-407 | a nondeterministically scheduled round ends, with the outcome of some interleaving |
| `RoundRuns.RanResult` | src/cc_sketch_alg.cpp:273-407 | the outcome of any interleaving has sampled every group exactly once on its complete sketch |
| `CountingSort.GroupPart` | src/cc_sketch_alg.cpp:425-433 | a thread's local groups are exactly the children of its part by root, in order |
| `CountingSort.Reserve` | src/cc_sketch_alg.cpp:436-445 | for every order of atomic reservations the groups of a root lie back to back, each where its thread was told |
| `CountingSort.PrefixSums` | src/cc_sketch_alg.cpp:448-470 | the chunked prefix sum equals the sequential one |
| `CountingSort.Place` | src/cc_sketch_alg.cpp:473-487 | writing the groups in any order fills the list completely and exactly |
| `CountingSort.SortByLabels` | src/cc_sketch_alg.cpp:436-489 | whatever the labels, the list ends up sorted by label with every vertex exactly once beside its own label |
| `Regrouping.CreateMergeInstructions` | src/cc_sketch_alg.cpp:409-489 | every thread looks up its part of the old list in order: the labels are ones that some interleaving gives, lie in the right sets, and are roots with one thread or at most four links; the new list is sorted by them and no root changes |
| `Regrouping.PartsDeal` | src/cc_sketch_alg.cpp:421-427 | the parts of the list deal every vertex to exactly one thread |
| `BoruvkaRounds.RunRoundZero` | src/cc_sketch_alg.cpp:250-271 | the vertices are sampled one after the other in some order; only sample positions change |
| `BoruvkaRounds.RanSamples` | src/cc_sketch_alg.cpp:250-407 | whatever the order or interleaving, every group of the list is sampled on the sketch of the edges leaving it |
| `BoruvkaRounds.PerformBoruvkaRound` | src/cc_sketch_alg.cpp:273-407 | any round is the outcome of some order or interleaving, whatever the labels; only round zero moves the sample positions |
| `Boruvka.RoundSamplesAll` | src/cc_sketch_alg.cpp:273-407 | on a list of true roots the sampled groups are exactly the sets of the union-find |
| `Boruvka.RoundHalves` | src/cc_sketch_alg.cpp:517-535 | without FAIL a round at least halves the sets with an outgoing edge |
| `Boruvka.QuietWhenInactive` | src/cc_sketch_alg.cpp:517-535 | once no set has an outgoing edge the next round changes nothing, whatever the hash |
| `MislabelledRounds.AnyLabelsSound` | src/cc_sketch_alg.cpp:164-433 | whatever labels the list was built from, with faithful buckets the forest stays inside the graph and a round throws exactly when samples have run out |
| `MislabelledRounds.UnmodifiedIsExact` | src/cc_sketch_alg.cpp:517-535 | with labels from the right sets, an unmodified faithful round means the forest spans the graph if and only if no edge joins two different sets that the labels split |
| `MislabelledRounds.OneSplitSetTolerated` | src/cc_sketch_alg.cpp:273-433 | with labels from the right sets and at most one set split, an unmodified round means the forest spans the graph |
| `TornGraph.VertexShows` | src/sketch.cpp:110-132 | with the chosen hashes every vertex of the two bridged paths samples a path edge in round zero, from faithful buckets |
| `TornQuery.TornRun` | src/cc_sketch_alg.cpp:491-540 | a complete run of the query loop with twelve threads: round zero builds two chains, the look-ups of one vertex per thread split both, round one changes nothing, and the query returns normally with the two joined paths apart, all inspected buckets faithful and no sample failed |
| `TornQuery.WrongAnswer` | src/cc_sketch_alg.cpp:630-672 | from every invalid cache a query on that graph can end so that two joined vertices are in different sets |
| `QueryLoop.RoundKeepsLoop` | src/cc_sketch_alg.cpp:517-535 | over any same-set labels one round fails only for lack of samples, keeps the forest inside the graph, ends the loop exactly if and only if it tore nothing apart, or keeps the loop invariant with its bound of n / 2^r active sets |
| `Traces.RunKeeps` | src/cc_sketch_alg.cpp:491-540 | before and after every round of every run the loop invariant holds |
| `Traces.RunEndsNormally` | src/cc_sketch_alg.cpp:491-540 | every run that returns takes no more rounds than there are samples; if no inspected bucket was unfaithful, its forest is part of the graph, its sets are connected, and it spans the graph if and only if its last labels tore no two joined sets apart |
| `Traces.RunThrows` | src/cc_sketch_alg.cpp:491-540 | a run that throws without an unfaithful bucket has used all samples |
| `Traces.CalmRunEnds` | src/cc_sketch_alg.cpp:491-540 | without mishaps a run takes at most log2 n rounds, so floor(log2 n) + 1 samples suffice |
| `Traces.RacesNeedRoom` | src/cc_sketch_alg.cpp:409-540 | a torn end needs a label that is no root, and such a label needs two threads, look-ups from five links deep and six vertices |
| `QueryLoop.JoinKeepsCache` | src/cc_sketch_alg.cpp:116-122 | an edge between two sets is new, and with it the forest spans the new graph |
| `QueryLoop.InnerToggleSpans` | src/cc_sketch_alg.cpp:116-129 | toggling an edge inside a set that is not a forest edge leaves the forest spanning |
| `Emulation.Emulate` | src/cc_sketch_alg.cpp:491-540 | always ends, whatever the races, and what it did is a finished run on the graph that the sketches hold; union-find, forest, number of rounds and exception are those of its last round |
| `QueryEngine.CCSketchAlg.constructor` | src/cc_sketch_alg.cpp:11-28 | the empty graph with a valid, exact cache |
| `QueryEngine.CCSketchAlg.PreInsert` | src/cc_sketch_alg.cpp:106-131 | the sequential merge with its path halving and the forest edge as written; a valid exact cache stays valid and exact, or is invalidated exactly when a forest edge is toggled |
| `QueryEngine.CCSketchAlg.Update` | src/cc_sketch_alg.cpp:154-160 | toggles one edge in graph and sketches, keeping them in step |
| `QueryEngine.CCSketchAlg.ApplyUpdateBatch` | src/cc_sketch_alg.cpp:133-145 | refused exactly while locked, otherwise toggles the half-edges of the source |
| `QueryEngine.CCSketchAlg.BoruvkaEmulation` | src/cc_sketch_alg.cpp:491-540 | the cache is filled by a run of the query loop on the current graph; a normal return validates it and unlocks, an exception leaves it invalid and the lock set |
| `QueryEngine.CCSketchAlg.Refresh` | src/cc_sketch_alg.cpp:542-575 | the sketches are as before the query, bucket for bucket and at position 0; a valid cache is used unchanged, otherwise a run on the current graph fills it |
| `Caches.RefreshKeeps` | src/cc_sketch_alg.cpp:542-575 | every refreshed cache: a sound run spans the graph and holds its components; right after a faithful run the forest is part of the graph and sets are connected; without mishaps more than log2 n samples bring an answer |
| `Caches.ToggleKeeps` | src/cc_sketch_alg.cpp:106-131 | an update keeps union-find and forest in step, and a valid cache from a sound run spanning |
| `QueryEngine.CCSketchAlg.ConnectedComponents` | src/cc_sketch_alg.cpp:542-584 | the answer is one that racing look-ups on the refreshed cache can give; after a sound run its count is exact and its entries agree with the graph on all pairs if and only if they are roots, as with one thread or at most four links; right after a faithful run equal entries are connected in any case |
| `Caches.ReadKeeps` | src/return_types.cpp:6-20 | what every answer that can be read from a cache tells about the graph |
| `Caches.ExactIffRoots` | src/return_types.cpp:6-20 | an answer with entries in the right sets and roots naming themselves is exact if and only if every entry is a root |
| `QueryEngine.CCSketchAlg.PointQuery` | src/cc_sketch_alg.cpp:630-672 | tells whether the two vertices share a set of the refreshed cache; after a sound run true exactly for connected vertices, right after a faithful one true only for connected ones |
| `QueryEngine.CCSketchAlg.CalcSpanningForest` | src/cc_sketch_alg.cpp:586-595 | the forest of the refreshed cache; after a sound run it spans the current graph, right after a faithful one it is part of it |
| `StreamRuns.Run` | src/cc_sketch_alg.cpp:106-672 | every run of toggles and queries, failed ones included, is a history of the cache: each reply is one that the cache of that moment, filled by runs of the query loop on the graph of that moment, can give |
| `StreamRuns.RepliesTrue` | src/cc_sketch_alg.cpp:542-672 | each reply of a history is the truth about the graph after a sound run, invents no edge and no connection right after a faithful one, and is no exception without mishaps and with more than log2 n samples |
| `StreamRuns.PlainReplies` | src/cc_sketch_alg.cpp:542-672 | with one thread or fewer than six vertices only a fooled bucket that the run itself inspected can make a reply wrong, and component answers are then exact |
| `QueryWitnesses.CachedQueryExactIff` | src/return_types.cpp:6-20 | with two or more threads, all component answers that can be read from a union-find holding the components are exact if and only if no vertex is more than four links below its root |
| `QueryWitnesses.RacedAnswer` | src/return_types.cpp:6-20 | five insertions leave a valid, exact cache from which racing look-ups can answer [5, 5, 4, 5, 5, 5] for a connected graph |
| `QueryWitnesses.ThrowingQuery` | src/cc_sketch_alg.cpp:542-575 | with one sample, inserting, deleting and inserting an edge makes the next query throw, for all hashes that give index 0 a non-zero checksum |
| `QueryWitnesses.ThrowingForests` | src/cc_sketch_alg.cpp:597-628 | two forests of a triangle with one sample: the second query throws and the first forest stays deleted |
| `KForests.CalcDisjointSpanningForests` | src/cc_sketch_alg.cpp:597-628 | a normal return restores graph and every sketch and reports the largest number of rounds; every forest answers a query on what the earlier ones left, and if all come from sound runs each spans the graph minus the earlier ones; an exception leaves exactly the found forests deleted, and comes only from a mishap in the last query or from too few samples |
| `KForests.ForestsCertifyCuts` | src/cc_sketch_alg.cpp:597-628 | the forests are edge-disjoint and their union keeps at least min(k, cut size) edges of every cut |
| `ReturnTypes.ComponentsOf` | src/return_types.cpp:6-20 | under every interleaving the count is exact, every entry lies in the set of its vertex and the vertices naming themselves are the roots; all entries are roots with one thread or at most four links |
| `ReturnTypes.GetComponentSets` | src/return_types.cpp:24-31 | the sets are classes of equal roots, pairwise disjoint, and cover all vertices |
| `TaggedUpdates.MergeUpdates` | src/edge_store.cpp:84-143 | the three-pointer loop and the copying of the rests compute the merge of the buffer and the deep part of the batch that the laws below are about |
| `TaggedUpdates.MergedCount` | src/edge_store.cpp:101-137 | for every buffer and batch nothing is lost or made up: multiplicities and length add up to those of buffer and batch, less what vanishes in pairs |
| `TaggedUpdates.MergedParity` | src/edge_store.cpp:101-137 | every update has the parity of buffer and batch together |
| `BufferMerges.GoneIsPrefix` | src/edge_store.cpp:101-125 | from a buffer without duplicates exactly the updates at the front of the batch that are met in turn vanish, each with its twin |
| `BufferMerges.MergedCounts` | src/edge_store.cpp:101-143 | the exact length and the exact count of every update afterwards |
| `BufferMerges.NoDupIff` | src/edge_store.cpp:101-137 | for any batch, the buffer stays free of duplicates if and only if what is left of the batch has none and is not in what is left of the buffer |
| `BufferMerges.NoDupIffFront` | src/edge_store.cpp:101-137 | for sorted buffer and batch: if and only if no update that the buffer holds comes after one that it does not hold |
| `BufferMerges.OrderedIff` | src/edge_store.cpp:101-137 | for sorted buffer and batch, the result is sorted if and only if at most one update is left unmatched or the others lie behind the whole buffer |
| `BufferMerges.OneUpdateToggles` | src/edge_store.cpp:101-137 | a single update toggles its membership in a sorted buffer, which stays sorted; the length is exact |
| `BufferMerges.DuplicateStays` | src/edge_store.cpp:101-137 | merging two updates into a buffer of two leaves a deleted edge in it twice |
| `TaggedUpdates.KeepLoop` | src/edge_store.cpp:227-233 | compaction keeps exactly the deep updates, in order |
| `EdgeStores.EdgeStore.InsertAdjEdges` | src/edge_store.cpp:60-179 | also for a caller that is one contraction late, every half-edge stays accounted for: inserted, handed out by the caller's batch and by the returned one; at most one contraction is under way and the edge count is exact. The buffer of the source is merged exactly with the batch; with no contraction under way the store moves on by one if and only if it is then full; during one, either a buffer is handed out or the contraction ends |
| `EdgeStores.StillFull` | src/edge_store.cpp:244-293 | a store that is full after its contraction has ended, with nothing under way |
| `EdgeStores.TooLateLoses` | src/edge_store.cpp:91-95 | for a caller two or more contractions late, a toggled half-edge that is deep enough keeps its old parity in the subgraph before the last, which breaks the accounting |
| `EdgeStores.LateSplit` | src/edge_store.cpp:91-95 | what a late caller hands out itself and its data handed out again make up the whole batch |
| `EdgeStores.EdgeStore.Contract` | src/edge_store.cpp:212-242 | hands out the whole buffer once, keeps its deep part and the accounting |
| `EdgeStores.EdgeStore.Advance` | src/edge_store.cpp:244-270 | hands out the next waiting buffer and keeps its deep part, or ends the contraction, after something was handed out and with only deep updates left; no other buffer changes |
| `EdgeStores.EdgeStore.CheckIfTooBig` | src/edge_store.cpp:273-303 | starts a contraction exactly when the store is full and none is under way; the first subgraph never passes the number of levels |
| `EdgeStores.VertexContract` | src/edge_store.cpp:212-242 | contracting a buffer turns the accounting of a waiting vertex into that of a contracted one |
| `EdgeStores.VertexInsert` | src/edge_store.cpp:60-179 | a new batch keeps the accounting of its vertex, waiting or not |
| `Gutters.SketchSubgraph.BatchInsert` | src/mc_gpu_sketch_alg.cpp:62-80 | flushed batches followed by the gutter are the old ones followed by the new destinations; a batch goes out only full |
| `Gutters.SketchSubgraph.Flush` | include/mc_gpu_sketch_alg.h:59-68 | every gutter ends empty and what was sent is everything routed, in order |
| `Gutters.RouteBatch` | src/mc_gpu_sketch_alg.cpp:106-137 | every subgraph receives exactly the destinations routed to it, in order, through the 16-slot buffers |
| `Gutters.RoutedIsRoute` | src/mc_gpu_sketch_alg.cpp:111-128 | a destination is routed an odd number of times exactly when the batch hands it over |
| `GpuIngest.SplitBatch` | src/mc_gpu_sketch_alg.cpp:155-169 | the store receives exactly the deep part of the tagged batch |
| `GpuIngest.MCGPUSketchAlg.CompleteUpdateBatch` | src/mc_gpu_sketch_alg.cpp:83-137 | routes the batch completely and allocates at most one subgraph, so only allocated ones receive updates |
| `GpuIngest.MCGPUSketchAlg.ApplyUpdateBatch` | src/mc_gpu_sketch_alg.cpp:139-178 | refused without effect exactly while updates are locked; otherwise every half-edge handed out is in its subgraph afterwards, and insertions toggle exactly the batch. A batch that reaches the store with no contraction under way starts one if and only if the store is then full; between calls a store with nothing under way has room, unless a contraction has ended since |
| `GpuIngest.MCGPUSketchAlg.FinishContraction` | src/mc_gpu_sketch_alg.cpp:180-189 | the loop ends with no contraction under way and nothing lost; every buffer holds its deep part, which tells exactly whether the store is still full |
| `GpuIngest.ApplyFlushUpdates` | src/mc_gpu_sketch_alg.cpp:180-205 | afterwards all subgraphs in use have been sent everything routed to them |
| `GpuIngest.Conserved` | src/mc_gpu_sketch_alg.cpp:83-188 | once no contraction is pending, subgraph g holds an edge with its inserted parity exactly for g below the store's first subgraph and at most its depth, and the store holds it exactly for greater depth |
| `SubgraphSketches.SubgraphSketchesExact` | src/mc_gpu_sketch_alg.cpp:83-205 | after a flush, the batches sent to subgraph g, applied in any order to zero sketches, give the sketches of exactly the current edges of depth at least g |
| `CudaStreams.ExecuteKeepsFlight` | include/cuda_stream.h:184-194 | each queued device operation, executed at any time, brings the batches in flight one stage further unchanged |
| `CudaStreams.CudaStream.WriteSlot` | include/cuda_stream.h:146-163 | in the contiguous pinned arrays a batch of at most `batch_size` destinations is written inside the current half and nowhere else, and no queued copy reads that half |
| `CudaStreams.CudaStream.ProcessBatch` | include/cuda_stream.h:146-202 | for every device schedule each batch received is applied, in flight or waiting, exactly once and in order |
| `CudaStreams.CudaStream.FlushBuffers` | include/cuda_stream.h:231-267 | after one flush every batch's delta has been applied exactly once to its own vertex |
| `CudaStreams.RunPipeline` | include/cuda_stream.h:146-267 | any run of batches no longer than `batch_size` with a full buffer and one flush equals applying the batches one by one on the host |
| `GpuKernel.ItemKeeps` | src/cuda_kernel.cu:212-231 | a work item updates exactly the slots its update hits in its column |
| `GpuKernel.RunKernel` | src/cuda_kernel.cu:197-240 | for every order of work items the delta equals the host's updates folded over the batch |
| `WideMultiply.AddUpExact` | include/cuda_xxhash64.cuh:142-145 | no sum exceeds 64 bits and the recombination loses nothing |
| `WideMultiply.Mult64to128Exact` | include/cuda_xxhash64.cuh:92-151 | low plus 2^64 times high is the exact product of any two 64-bit numbers |
| `GraphVerifiers.GraphVerifier.EdgeUpdate` | test/util/graph_verifier.cpp:49-64 | flips one pair and invalidates the cache, or rejects a vertex out of range |
| `GraphVerifiers.GraphVerifier.Kruskal` | test/util/graph_verifier.cpp:66-79 | the cached union-find spans the current graph and counts its components |
| `GraphVerifiers.CountDecides` | test/util/graph_verifier.cpp:94-104 | refinement plus equal counts is equality, and then every entry names a vertex that names itself |
| `GraphVerifiers.GraphVerifier.VerifyConnectedComponents` | test/util/graph_verifier.cpp:90-105 | accepts any answer object if and only if it matches the graph on all pairs and every entry names a vertex that names itself |
| `ForestChecks.CheckForest` | test/util/graph_verifier.cpp:111-146 | a listed forest is accepted if and only if it repeats no edge and is a spanning forest of the current graph; its edges are then removed |
| `ForestChecks.VerifySpanningForests` | test/util/graph_verifier.cpp:107-149 | accepts if and only if each list is a spanning forest of what the earlier ones left; the matrix is always restored; after acceptance the cache is right exactly if the last forest has an edge or none has; after rejection exactly if an edge of the first bad list was taken out or the graph left before it joins as much as the whole |
| `ForestChecks.RejectedStale` | test/util/graph_verifier.cpp:107-149 | one edge listed as two forests is rejected and leaves a wrong cache |
| `ForestChecks.AllGoodPeeled` | test/util/graph_verifier.cpp:107-149 | accepted lists are forests peeled off one after the other, hence edge-disjoint |
| `ForestChecks.StaleCache` | test/util/graph_verifier.cpp:107-149 | with an empty last forest after a non-empty one the cached components are not those of the graph |

## Left out

- Traces.CalmRunEnds: the halving bound is stated for runs whose labels are all roots; with other labels the loop is only shown to end when the samples run out.
- Emulation.Emulate: a merge inside a round is one step there, and the array it leaves is any array with the same roots.
- LookUpQueues.HeadsRace: sufficient for a wrong answer; which deals of deeper sets to threads are exact in general is open between `ApartExact`, `DealtExact` and this, except for one vertex per thread, where `OnePerThreadExactIff` is exact.
- QueryEngine.CCSketchAlg.PreInsert: the build without the eager union-find, which invalidates the cache on every update, is not modelled.
- EdgeStores.EdgeStore.InsertAdjEdges: the caller is at most one contraction late and has an update deep enough for the store; beyond that the source loses updates or reads past its buffer. Calls are atomic, so contraction by several threads, where a lock is dropped between choosing and contracting a vertex, is not modelled. Depths come from one function per edge; the source's two callers pass caps that differ by one.
- CudaStreams.CudaStream.FlushBuffers: for the build without L0 sampling, as the kernel is written; requires one full buffer and no earlier flush, since the source applies the returned deltas unconditionally. The four host-to-device copies of one half are one queued operation, and the sketches are those of one graph id. The unified-memory variants are left out.
- GpuKernel.RunKernel: one work item is one step; its exclusive-ors on the two words of a bucket are not split further.
- Floating-point rounding in the partition arithmetic, graphs with fewer vertices than threads, and the debug assertion in `range_merge` past the last sample (the release behaviour, the fail state, is modelled).
- xxHash itself apart from the wide multiplication, and the probability of sampling success.
- 32-bit wrap-around of vertex and batch counters, and atomics of statistics fields.
- `exhaustive_sample`, serialization, timing, configuration, file input and output, guttering and work queues of other libraries, `mc_sketch_alg.cpp`, the min-cut driver and the k-connectivity post-processing.
