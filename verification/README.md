# Verified model of Mayo

Mayo keeps a pool of workers alive and coordinates them through 16 `Int32` control words per worker
in one shared buffer. The host publishes a numbered descriptor (an epoch) to every slot; workers
pick it up, run a range kernel over the shared data region, possibly stealing chunks from each
other's slots with compare-exchange, and report through done and status words. This project models
that protocol and what is built on it, and proves what the repository promises of it.

## How it is modelled

**The dispatch protocol** (`DispatchModel`) is a step system. Its state holds the control words, the
shared data words, a host position and one position with registers per worker. Every `Atomics` load,
store, wait, notify and compare-exchange is one step, and so is every single load and every single
store of a kernel. A *schedule* is any finite list of actions: a step of any worker, a kernel
exception in any worker, a host step, a cancellation request, a new dispatch with any valid job. The
theorems quantify over all pools (any number of workers, any lookup table, any start words such as a
restart leaves), all initial data and all schedules. Control words are sequentially consistent
(section 25.4 of ECMA-262). Data words are plain; for race-free kernels no step reads a word that
another worker may write in the same dispatch, so interleaving their loads and stores loses nothing.

History fields only record what happened: how often each index was handed to the kernel (`visits`),
the jobs finished so far and what they reported, whether a slot that was not *quiet* was touched
before its publication (`hazard`), whether any slot was (`early`), and how many claims and
cancellation requests there were. A slot is quiet when a thief that meets it before the host has
rewritten it cannot claim anything wrong: its old cursor is not below its new end and its old end is
not beyond it. A dispatch is *harmless* if it is static, or began with quiet slots, or had no hazard.

The invariants are kept apart: `DispatchControl` (epochs, registers, done words), `DispatchCoverage`
(nothing is lost), `DispatchExclusive` (nothing is done twice), `DispatchMemory` (data words),
`DispatchCancel`, `DispatchClaims`. `DispatchRuns` states the promises, `DispatchLiveness` that every
dispatch ends under fair scheduling, `DispatchOutcome` what its caller is told, `DispatchWindow` the exact condition for exactly-once,
`DispatchFailure` a run in which a first dispatch fails early, and `Handshake` the launch and restart
of workers.

**The other synchronisation cores** are step systems of their own: `Mutex` (lock, counter and start
barrier over `Atomics`) and `CondPool` (the mutex and condition-variable pool of the C and Rust
benchmarks, with spurious wake-ups).

**Sequential code that updates things in place** is modelled as classes and methods with loops over
the same state: `PoolHost.Pool`, `Arena.SharedArena`, the kernels, the image kernels, the layout
writer, the partitioner, the string builder and the hash loops. Each is proved against a
specification function, and the lemmas are about that function. `PoolHost.HostAlone` ties the object
`Pool` to the step system.

`Double` arithmetic is exact arithmetic followed by an arbitrary monotone rounding with a small
relative error. `Int32` arithmetic wraps wherever the source can wrap (`Int32.Wrap`).

## Where the code does less than its text suggests

- A dynamic dispatch gives each index to a kernel exactly once **if and only if** every slot but the
  first is quiet when it begins (`DispatchWindow.OnceIffQuiet`): the host publishes slot `id` before
  it writes slot `id + 1`, and a thief does not look at its victim's epoch. In a fresh pool of at
  least two workers the slots are not quiet (`DispatchWindow.FirstDispatchUnsafe`). At-least-once, static
  dispatches and repetitions over the same cuts need no such condition.
- The ready handshake waits for done word -1, so it means something **if and only if** no done word
  was -1 when the launch began (`Handshake.HandshakeExact`). `docs/kernel-abi-v4.md:76-78` says that
  after a restart a later dispatch may proceed; when the *first* dispatch since the last launch
  fails before every worker has reported, a slot still holds -1 and the next epoch can be
  missed (`Handshake.RestartSound`). That happens: every pool of two or more workers has such a
  schedule (`Handshake.RestartCanMislead`).
- The generated overflow checks start from `base + headerWords` unchecked, so they are sound **if and
  only if** that sum fits `Int32` (`Layout.ChecksNeedBase`); a layout without slices is then accepted
  at a base outside the buffer (`Layout.AcceptedOutside`). The arena path never gets there
  (`Layout.ArenaLayout`).

## Model

| member | source | states |
|---|---|---|
| `DispatchRuns.EveryIndexProcessed` | mayo.mbt:40-77 | at-least-once with no hypothesis on the schedule: a dynamic dispatch whose workers all end with OK has given every index of its range to the kernel, also when thieves met half-written or old slots |
| `DispatchRuns.EveryIndexOnce` | mayo.mbt:40-80 | exactly-once: a dispatch that ends with every status OK and was static, or began with quiet slots, or had no hazard, processed each index of its range once and none outside |
| `DispatchRuns.RepeatStartsQuiet` | host_client.mbt:456-484 | repeating an OK dynamic dispatch over the same cuts starts with quiet slots, so exactly-once then needs nothing about the schedule |
| `DispatchWindow.OnceIffQuiet` | mayo.mbt:43-57 | the exact condition, both ways: every continuation of a dynamic dispatch processes each index at most once and none outside, if and only if all slots but the first are quiet when it starts |
| `DispatchWindow.FirstDispatchUnsafe` | host_client.mbt:462-483 | a fresh pool of two or more workers does not meet that condition for a range that ends above 0, so some schedule processes an index twice or out of range |
| `DispatchRuns.ProcessedPrefix` | mayo.mbt:47-75 | at completion of a harmless dynamic dispatch, cancelled or not, the processed part of each shard is exactly the prefix before its cursor, each index once |
| `DispatchRuns.EveryWorkerRan` | host_client.mbt:638-666 | when `wait_run` returns -1, every worker has picked up every epoch so far exactly once, its slot holds the whole descriptor of this one, and status, result and done words are this epoch's, across the wrap of the epoch |
| `DispatchRuns.NoStaleDone` | mayo.mbt:90-94 | a done word equal to the running epoch is always that worker's own report for this dispatch |
| `DispatchRuns.NoLostWakeup` | mayo.mbt:21-23 | a worker asleep on an epoch that its slot no longer holds is about to be notified |
| `DispatchRuns.NoDeadlock` | host_client.mbt:638-666 | while the host waits, every worker whose done word is missing can take a step |
| `DispatchLiveness.WorkFalls` | mayo.mbt:20-95 | every step of a worker that has not reported lowers its rank, failed compare-exchanges included |
| `DispatchLiveness.RankNext` | mayo.mbt:20-95 | no step of anybody else, not even a claim from the same shard, raises that rank while `wait_run` waits |
| `DispatchLiveness.EveryDispatchEnds` | host_client.mbt:638-666 | liveness: on every infinite schedule that never passes over an agent for ever, `wait_run` returns, whatever kernels throw and whatever is cancelled |
| `DispatchLiveness.EveryDispatchCompletes` | host_client.mbt:638-655 | and without exceptions it returns -1 |
| `DispatchLiveness.RoundRobinIsFair` | mayo.mbt:20-95 | such schedules exist for every pool: letting the agents take turns is one, without exceptions |
| `DispatchRuns.StaticResults` | mayo.mbt:78-92 | the result word of an OK static worker is the sequential result of its own range over the memory before the dispatch, although others store meanwhile |
| `DispatchRuns.WordsDuringDispatch` | mayo.mbt:66-68 | at every moment of a harmless dispatch whose kernel is race free on the memory it began with, a word is either its old value or its final one, according to whether its index has been processed; header words stand still |
| `DispatchRuns.DispatchIsOneCall` | mayo.mbt:40-80 | such a dispatch, once it ends with every status OK, has left the memory of one sequential call over its range, however its loads and stores were interleaved |
| `DispatchRuns.RunsRefineSequence` | host_client.mbt:433-485 | refinement of whole runs: if every dispatch so far reported OK and was harmless and the same jobs are race free as a sequential program, the data between dispatches is what that program leaves |
| `DispatchRuns.BaseRefinesSequence` | host_client.mbt:433-485 | the same for the memory that the running dispatch began with |
| `DispatchRuns.OnlyFirstAtRisk` | thread_pool.mbt:584-590 | of a series of OK dynamic dispatches over the same cuts only the first can meet a slot that is not quiet; all later ones are harmless on every schedule |
| `DispatchRuns.CancelIsCooperative` | host_client.mbt:595-606 | Cancelled is reported only if a request was made during this dispatch, and after a request a worker starts at most one more chunk |
| `DispatchOutcome.OutcomeWords` | mayo.mbt:40-93 | at completion every status word is OK, or Cancelled in a dynamic dispatch, when the kernel is found; when it is not, the lookup's reason if static, and that reason, OK or Cancelled if dynamic, with result 0 |
| `DispatchOutcome.LeftOutMeansCancelled` | mayo.mbt:47-75 | a dynamic dispatch of a found kernel that left an index out has a worker that reports Cancelled |
| `DispatchOutcome.NoKernelIsNoticed` | mayo.mbt:134-143 | a dynamic dispatch of a kernel that nobody has, over a range that is not empty, never ends with every status OK, on any schedule |
| `DispatchOutcome.VerdictTells` | host_client.mbt:625-634 | what the caller is told: with a kernel found the dispatch returns or is cancelled, cancelled only on request and always when an index was left out; with none found it fails with the lookup's reason unless cancelled |
| `DispatchOutcome.ElapsedIsMeasured` | mayo.mbt:81-90 | the elapsed word of a finished dispatch is a time the worker measured, at least 1 |
| `DispatchRuns.DynamicResults` | mayo.mbt:69-77 | a dynamic worker's result word is the sequential result of a chunk, or 0 if it claimed none |
| `DispatchRuns.ClaimsPerShard` | atomics_js.mbt:86-101 | without an early touch an OK dispatch claims each shard in exactly ceil(length / grain) chunks |
| `DispatchRuns.FailedCasMeansClaim` | atomics_js.mbt:92-100 | without an early touch, a compare-exchange that would fail has been overtaken by somebody's successful claim since its load |
| `DispatchClaims.CeilDivIsQuotient` | mayo.mbt:61-65 | the chunk count of the recursion is the least number of grains that covers the shard |
| `Kernels.RunPointwise` | examples/mix_worker/main.mbt:5-30 | a sequential call of a race-free kernel equals the pointwise output over the memory it started from |
| `Kernels.RunSplit` | mayo.mbt:66-68 | a call over a range equals the calls over its two halves, for every kernel |
| `Kernels.MixRoundsAdd` | examples/mix_worker/main.mbt:11-15 | r1 rounds and then r2 rounds are r1 + r2 rounds |
| `Kernels.MixPointwise` | examples/mix_worker/main.mbt:5-18 | a sequential mix gives each word of the range its rounds and leaves every other word alone |
| `Kernels.MixCompose` | examples/mix_worker/main.mbt:5-18 | mix dispatched with r1 and then r2 leaves the memory of one mix with r1 + r2 |
| `Kernels.ZipRaceFree` | examples/mix_worker/main.mbt:57-66 | `zip_add` is race free if and only if the two ranges coincide or do not overlap |
| `Kernels.MixRange` | examples/mix_worker/main.mbt:5-18 | the loop leaves the memory of the specification kernel |
| `Kernels.AddRange` | examples/mix_worker/main.mbt:21-30 | the loop leaves the memory of the specification kernel |
| `Kernels.SumRange` | examples/mix_worker/main.mbt:43-54 | the loop returns the wrapping fold that the protocol theorems speak about |
| `Kernels.ZipAddRange` | examples/mix_worker/main.mbt:57-66 | the loop leaves the memory of the specification kernel, aliasing included |
| `Handshake.HandshakeExact` | host_client.mbt:260-290 | on every interleaving a passed handshake means every worker recorded the current epoch, and the next epoch reaches all, if and only if no done word was -1 before the launch |
| `Handshake.RestartSound` | host_client.mbt:559-592 | after a failed or finished dispatch the restart's handshake is sound, and the next epoch reaches every worker, if and only if it was not the first dispatch since the launch or every worker had reported |
| `Handshake.RestartCanMislead` | start.mbt:16-28 | in every pool of two or more workers, for every resolving job with something to do, some schedule makes the first dispatch fail so that the restart can lose an epoch |
| `DispatchFailure.FirstFailure` | start.mbt:16-28 | such a schedule for any worker that has something to do: it throws and reports, the host gives up, and no other done word has ever been written |
| `Handshake.RestartBoots` | host_client.mbt:559-574 | the control words a failed dispatch leaves are a valid start, and when the restart is sound its open handshake is exactly the protocol model's initial state over the data that was left |
| `Handshake.OpenIsInit` | host_client.mbt:278-290 | a launch over slots without -1 ends, at its open handshake, with every done word -1 and every worker waiting on the pool's epoch, which is where the protocol model starts |
| `PoolHost.Pool.StartRun` | host_client.mbt:433-485 | refusals in order and without effect; otherwise the next epoch, with wrap, and in every slot the full descriptor over the weighted cuts, done and request words kept |
| `PoolHost.Pool.PublishAll` | host_client.mbt:461-483 | the publication loop gives every slot its descriptor and does not disturb the slots before |
| `PoolHost.Pool.CancelActive` | host_client.mbt:595-606 | refused when closed, poisoned or idle; otherwise a request number different from the last, stored in the one request word |
| `PoolHost.Pool.Poison` | host_client.mbt:550-556 | the first message is kept, every worker is terminated and nothing is active any more; together with the other methods' `StaysPoisoned`: no later publication |
| `PoolHost.Pool.Recover` | host_client.mbt:559-592 | poisons, or replaces every worker and keeps everything else, or poisons with the longer message when the launch fails |
| `PoolHost.Pool.FinishRun` | host_client.mbt:543-547 | clears the active epoch only if it is the finished one |
| `PoolHost.Pool.FirstFailedStatus` | host_client.mbt:689-700 | the least worker whose status is not OK, with that status, or -1 exactly when all are OK |
| `PoolHost.Pool.Conclude` | host_client.mbt:625-700 | the first status that is not OK decides between cancellation and a failure naming that worker |
| `PoolHost.Pool.ScanRun` | host_client.mbt:641-655 | one scan finds the lowest failed worker, else the lowest without a matching done word, else says finished |
| `PoolHost.Pool.RecordWorkerWeights` | host_client.mbt:529-540 | every weight moves by its own slot's length and time, and all stay positive |
| `PoolHost.HostAlone` | host_client.mbt:456-484 | the step system's host steps leave in every slot exactly what `StartRun` leaves |
| `Partition.CutsTile` | host_client.mbt:206-230 | under any monotone rounding and for any weights the cuts run from start to end without stepping back: consecutive ranges tile |
| `Partition.CutsAreValidJob` | host_client.mbt:456-464 | hence every checked range, whatever the weights, is a valid job of the protocol |
| `Partition.PartitionWeighted` | host_client.mbt:206-230 | the accumulating loops compute worker i's two cuts, so i's end and i + 1's start are one expression |
| `Partition.FairShare` | host_client.mbt:222-228 | in exact arithmetic each length is within 1 of its proportional share |
| `Partition.FairShareRounded` | host_client.mbt:206-230 | under any rounding each length is within 1 + length / 10^9 of the share its weight has in the total the source adds up |
| `Partition.BlendPositive` | host_client.mbt:535-538 | under any rounding a blended weight stays positive, so the fallback to 1.0 is never taken for it |
| `Partition.BlendQuarter` | host_client.mbt:529-540 | in exact arithmetic a blend moves the weight a quarter of the way to the observed throughput; an empty shard or a missing time leaves it alone |
| `Partition.FasterNeverLoses` | host_client.mbt:535-538 | under any rounding more work in less time never earns less weight |
| `Partition.FallbackIsOne` | host_client.mbt:215-221 | a weight that is not positive counts as 1.0 |
| `Partition.BlendBounded` | host_client.mbt:535-538 | under any rounding, however often they are blended, weights stay within fixed bounds just outside the extreme observations |
| `Grain.QuotaIsCeiling` | host_client.mbt:179-193 | both divisions round up exactly: the least grain that covers the length with that many parts |
| `Grain.AutoGrainRange` | host_client.mbt:175-202 | the automatic grain is between 1 and the ceiling of length / workers, and without an observed cost it is the ceiling of length / (8 * workers) |
| `Grain.ObservedGrain` | host_client.mbt:175-202 | with an observed cost a chunk takes about 0.1 ms and one more item would take longer, up to rounding, unless an even share is already shorter or two items already longer |
| `Grain.ObservedGrainExact` | host_client.mbt:175-202 | the same with 0.1 ms exactly, without rounding |
| `Grain.NinePerWorker` | host_client.mbt:184-193 | however the range is cut, the initial automatic grain needs at most 9 chunks per worker |
| `Grain.ClaimsOfDispatch` | atomics_js.mbt:86-101 | a whole dispatch makes exactly the sum over shards of ceil(length / grain) claims, at most 9 per worker for the initial grain |
| `Reduce.CombinedIsFold` | thread_pool.mbt:628-636 | combining the segments in worker order is the sequential fold for every associative operation, empty ranges skipped |
| `Reduce.CombineResults` | thread_pool.mbt:628-636 | the host's loop returns that fold, whatever the cuts |
| `Reduce.ParReduce` | thread_pool.mbt:595-642 | on every schedule the value combined from the slots is the sequential fold of the initial value over the range, independent of workers and weights |
| `Reduce.ParSum` | examples/mix_worker/main.mbt:43-54 | in particular the wrapping sum of the words before the dispatch |
| `RegionOps.ZipRegionsRaceFree` | thread_pool.mbt:927-942 | any two regions of equal length of one arena generation meet the race-freedom condition of `zip_add` |
| `RegionOps.ParZip` | thread_pool.mbt:927-942 | on every schedule, a harmless zip with every status OK leaves the elementwise wrapping sums on the left and every other word, the right region included, as it was |
| `RegionOps.PipelineIsOneMap` | thread_pool.mbt:946-956 | dispatching pointwise kernels one after the other is one map of their composition |
| `RegionOps.ParPipeline` | thread_pool.mbt:946-956 | on every schedule, if every stage reported OK and was harmless, the region holds one map of the composition and every other word is as it was; race freedom is concluded, not assumed |
| `RegionOps.ParPipelineFirst` | thread_pool.mbt:946-956 | with the same cuts throughout, as weights do not move between dynamic stages, only the first stage needs to be harmless |
| `RegionOps.MixDispatch` | examples/mix_worker/main.mbt:5-18 | a dispatch of `mix_range` with every status OK gives each word of its range its rounds and leaves every other word alone: unconditionally if static, if harmless otherwise |
| `RegionOps.AddDispatch` | examples/mix_worker/main.mbt:21-30 | the same for `add_range` |
| `RegionOps.MixDispatchesAdd` | examples/mix_worker/main.mbt:5-18 | any number of mixes over one range leaves what one mix with all their rounds leaves |
| `RegionOps.StageRaceFree` | thread_pool.mbt:897-911 | pointwise in-place kernels are race free on every region |
| `Arena.SharedArena.constructor` | thread_pool.mbt:370-372 | an empty arena over the pool's words |
| `Arena.SharedArena.Reset` | thread_pool.mbt:777-779 | starts a new generation of regions |
| `Arena.SharedArena.Allocate` | thread_pool.mbt:783-797 | succeeds exactly when the words are left, appends the region to the generation, and a refusal changes nothing |
| `Arena.SharedArena.AllocateWorkerScratch` | thread_pool.mbt:801-813 | succeeds exactly when the product fits what is left, without overflow |
| `Arena.PackedInside` | thread_pool.mbt:279-285 | every region allocated since the last reset lies inside the arena |
| `Arena.PackedDisjoint` | thread_pool.mbt:279-285 | and any two of them are disjoint |
| `Arena.ScratchGuard` | thread_pool.mbt:806-808 | the division guard accepts exactly the products that fit `Int32` |
| `Arena.WorkerRegionsDisjoint` | thread_pool.mbt:816-838 | exactly the workers of the scratch area have regions, equally long, in the order of the workers, disjoint and inside the area |
| `Arena.IndicesCoverRegion` | thread_pool.mbt:851-856 | a region's indices are, in order and exactly, the words it covers |
| `Arena.Fill` | thread_pool.mbt:873-877 | the region's words get the value, no other word changes |
| `Arena.StoreFrame` | thread_pool.mbt:851-870 | a store through one region is invisible through a disjoint one |
| `Mutex.MutualExclusion` | worker/mutex.mbt:10-20 | never two threads between exchange and release |
| `Mutex.NoLostWakeup` | worker/mutex.mbt:10-20 | a free lock with sleepers always has somebody awake to take it or about to notify |
| `Mutex.NoDeadlock` | worker/mutex.mbt:3-32 | if nobody can move, every thread has finished, start barrier included |
| `Mutex.FinalCounter` | worker/mutex.mbt:23-32 | the final counter is workers times iterations as `Int32` |
| `CondRanges.TransformRange` | native/c/bench.c:80-88 | the loop mixes exactly its range |
| `CondRanges.SameMix` | native/c/bench.c:73-78 | the unsigned mix and MoonBit's signed one agree on every bit pattern |
| `CondRanges.BoundsEnds` | native/c/bench.c:107-108 | without overflow the worker ranges start at 0 and end at the number of elements |
| `CondRanges.BoundsRise` | native/c/bench.c:107-108 | and never run backwards |
| `CondRanges.BoundIsFloor` | native/c/bench.c:107-108 | a bound is the exact quotient rounded down |
| `CondRanges.RangesEven` | native/c/bench.c:107-108 | the ranges of any two workers differ by at most one element |
| `CondRanges.LastIndexCovered` | native/c/bench.c:107-108 | the hypothesis of BoundsEnds is exact in 64-bit wrapping arithmetic; no array is long enough to violate it in practice |
| `CondPool.RemainingCounts` | native/c/bench.c:114-122 | `remaining` always equals the number of workers not finished with the current epoch |
| `CondPool.EveryEpochOnce` | native/rust/src/main.rs:109-134 | no worker skips or repeats an epoch |
| `CondPool.RunsAreSequential` | native/c/bench.c:192-208 | when a run returns, the data is what the host's writes and runs leave one after the other |
| `CondPool.MutualExclusion` | native/rust/src/main.rs:112-133 | critical sections never overlap |
| `CondPool.NoLostWakeup` | native/c/bench.c:96-122 | a sleeping host has a worker to wait for or is about to be signalled, a waiting worker has nothing to do or is about to be woken |
| `CondPool.NoDeadlock` | native/c/bench.c:90-124 | only an idle host or a finished pool can be stuck |
| `Manifest.BuildProtocolId` | thread_pool.mbt:56-74 | the string builder writes the specified text |
| `Manifest.ParseUndoes` | thread_pool.mbt:56-74 | a parser recovers the manifest from the text, although identifiers may contain the separators |
| `Manifest.Injective` | thread_pool.mbt:56-74 | equal handshake strings mean equal manifests |
| `Manifest.KnownText` | thread_pool.mbt:56-74 | the text of one small manifest, written out |
| `Manifest.Contains` | thread_pool.mbt:132-141 | membership by id, hash and kind |
| `Manifest.CallsFitTheirPool` | thread_pool.mbt:163-201 | a call exists exactly for a spec of the manifest used as its own kind, carries its id, hash and argument, and is accepted exactly by pools of the same manifest |
| `Manifest.ValidateEntries` | start.mbt:59-75 | accepts exactly the entries that repeat the manifest in order |
| `Manifest.FindKernel` | mayo.mbt:134-143 | the worker's loop computes the lookup that `FindTells` pins down and the protocol model uses |
| `Manifest.FindTells` | mayo.mbt:134-143 | UNKNOWN exactly for an id that no entry has; otherwise the first entry with the id decides, with its kernel if its hash is the call's and LAYOUT_MISMATCH if not |
| `Manifest.FindsUnique` | mayo.mbt:134-143 | with distinct ids every entry is found under its own id and hash |
| `Manifest.FindStatuses` | mayo.mbt:134-143 | a lookup fails only with UNKNOWN or LAYOUT_MISMATCH |
| `Manifest.LookupSucceeds` | host_runtime_js.mbt:137-147 | behind the handshake and the call check a lookup never fails and selects an entry of exactly the call's spec, hence of its kind |
| `Manifest.AcceptedCallResolves` | thread_pool.mbt:453-474 | so every accepted call resolves in the sense of the protocol theorems |
| `Layout.HeaderSlots` | tools/mayo_gen.ts:168-179 | each field gets its consecutive slots, in field order |
| `Layout.EndIsWrapped` | tools/mayo_gen.ts:209-219 | the generated sums are the true ends modulo 2^32 |
| `Layout.RejectsExactlyOverflow` | tests/generated_contract/contract.generated.mbt:27-63 | for every field list the wrapping checks reject exactly the negative lengths and the layouts that overflow `Int32` |
| `Layout.SlicesDisjoint` | tools/mayo_gen.ts:209-226 | accepted slices lie behind the header, inside the capacity, and do not overlap |
| `Layout.WriteHeaderInPlace` | tools/mayo_gen.ts:247-255 | the stores leave the specified buffer, or nothing when it is too small |
| `Layout.LoadAfterWrite` | tests/generated_contract/contract.generated.mbt:143-179 | round trip: what `write_header` wrote, `load` reads back as the same layout |
| `Layout.WriteFrame` | tests/generated_contract/contract.generated.mbt:143-156 | no word outside the header changes |
| `Layout.AcceptedHasHeader` | tests/generated_contract/contract.generated.mbt:159-179 | a buffer that `load` accepts already holds the returned layout's header and has room for all of it; writing it again changes nothing |
| `Layout.ChecksNeedBase` | tools/mayo_gen.ts:209-219 | the overflow checks are sound if and only if the end of the header fits `Int32` |
| `Layout.AcceptedOutside` | tests/generated_contract/contract.generated.mbt:159-179 | `load` accepts a base outside the buffer if and only if the header's end wraps and there is no slice |
| `Layout.AcceptedOutsideExample` | tools/mayo_gen.ts:256-268 | a concrete such layout |
| `Layout.ArenaLayout` | tests/generated_contract/contract.generated.mbt:122-140 | the arena path succeeds exactly when the shape fits the rest, meets the base condition, and its header loads back |
| `Layout.NegativeBaseRefused` | tools/mayo_gen.ts:278-290 | negative bases are refused |
| `Layout.ImageLayoutAt` | tests/generated_contract/contract.generated.mbt:27-63 | for the checked-in field list the generic layout is the generated one |
| `Layout.ImageHeader` | tests/generated_contract/contract.generated.mbt:143-156 | and its header stores are the six generated ones, in their words |
| `Canonical.TextDetermines` | tools/mayo_gen.ts:149-166 | the canonical text determines manifest, kernel name, kind, argument and layout shape, although the manifest may contain bars |
| `Canonical.KnownText` | tools/mayo_gen.ts:149-166 | the text of a map kernel with argument and layout, written out |
| `Canonical.KnownReducerText` | tools/mayo_gen.ts:149-166 | the text of a reducer without either, written out |
| `Fingerprint.Fnv1a32` | tools/mayo_gen.ts:76-83 | the unsigned loop returns the specified hash with 0 published as 1 |
| `Fingerprint.GuestFnv1a` | wasm/guest_runtime.js:36-42 | the signed loop returns the specified hash |
| `Fingerprint.HashesAgree` | tools/mayo_gen.ts:76-83 | both loops carry the same 32 bits |
| `Fingerprint.KnownHashes` | tools/mayo_gen.ts:76-83 | the published FNV-1a values of the empty string and of "a" |
| `Fingerprint.XorTwice` | tools/mayo_gen.ts:78-80 | exclusive or done twice is undone |
| `Fingerprint.OneByteDiffers` | wasm/guest_runtime.js:36-42 | byte strings of equal length that differ in one byte have different hashes |
| `Fingerprint.PublishedCollision` | tools/mayo_gen.ts:76-83 | one different byte also changes the published value, except exactly when the two hashes are 0 and 1 |
| `Image.PackChannels` | examples/image_pipeline/pipeline.mbt:92-121 | packing then reading gives each channel clamped to a byte |
| `Image.LumaNeedsNoClamp` | examples/image_pipeline/pipeline.mbt:125-131 | luma is always a byte, so the clamp never acts |
| `Image.LumaIsRec601` | examples/image_pipeline/pipeline.mbt:123-131 | luma differs by less than one level from the weights of Rec. 601 |
| `Image.KnownPixels` | examples/image_pipeline/pipeline.mbt:102-131 | byte order of a packed pixel and the levels of the pure colours |
| `Image.GrayscaleIdempotent` | examples/image_pipeline/pipeline.mbt:125-131 | a gray pixel stays as it is |
| `Image.GradientSymmetry` | examples/image_pipeline/pipeline.mbt:155-166 | the vertical gradient is the horizontal one of the transposed neighbourhood, mirroring negates, flat gives 0 |
| `Image.GradientOfStep` | examples/image_pipeline/pipeline.mbt:155-160 | a vertical step has gradient four times its height |
| `Image.SobelTransposed` | examples/image_pipeline/pipeline.mbt:144-170 | the result does not change when rows and columns are exchanged |
| `Image.SobelOfColumns` | examples/image_pipeline/pipeline.mbt:144-170 | a vertical edge of height h shows as gray min(255, 4 h) when that reaches the threshold, else black |
| `Image.SobelOfRows` | examples/image_pipeline/pipeline.mbt:144-170 | so does a horizontal edge |
| `Image.SobelOfCorner` | examples/image_pipeline/pipeline.mbt:144-170 | a single bright corner of level v shows as min(255, 2 v): both gradients count |
| `Image.SobelFits` | examples/image_pipeline/pipeline.mbt:155-167 | every intermediate value is far inside `Int32` |
| `Image.SobelThreshold` | examples/image_pipeline/pipeline.mbt:167-169 | the result is gray, and 0 or at least the threshold |
| `Image.PixelCountExact` | examples/image_pipeline/pipeline.mbt:19-29 | accepts exactly the sizes whose double buffer fits `Int32` |
| `Image.KnownLayout` | examples/image_pipeline/pipeline.mbt:33-49 | layout and header of one small image, written out |
| `Image.Initialize` | examples/image_pipeline/pipeline.mbt:220-243 | refuses exactly the wrong sizes without a store, otherwise leaves header, source and cleared scratch, other words unchanged |
| `Image.AcceptsExactlyHeaders` | examples/image_pipeline/pipeline.mbt:265-279 | a worker accepts exactly the buffers that begin with the header of a layout that fits |
| `Image.GrayscaleRange` | examples/image_worker/main.mbt:2-13 | for every range, also beyond the image, the loop leaves the memory of the specification kernel |
| `Image.SobelRange` | examples/image_worker/main.mbt:26-56 | for every range, also beyond the image, the loop leaves the memory of the specification kernel |
| `Image.NeighboursInside` | examples/image_worker/main.mbt:36-52 | every neighbour of a pixel that is not on the border lies in its plane |
| `Image.EdgesByCoordinates` | examples/image_worker/main.mbt:33-54 | the reference by coordinates: black border, elsewhere Sobel of the eight words around, addressed row by row |
| `Image.KernelsRaceFree` | examples/image_worker/main.mbt:2-56 | neither kernel reads a word that another index writes |
| `Image.ImageJobsRaceFree` | examples/image_worker/main.mbt:2-56 | so every image dispatch is race free on every memory with the planes |
| `Image.PassesDraw` | examples/image_worker/main.mbt:2-56 | as a sequential program, grayscale and Sobel passes in any order and number are race free and draw the reference pictures |
| `Image.ImageProgram` | examples/image_worker/main.mbt:2-56 | on every schedule such dispatches, OK and harmless, leave the reference pictures |
| `Image.PipelineEqualsReference` | examples/image_worker/main.mbt:2-56 | for every size, image, partition and schedule, OK and harmless dispatches of grayscale and then Sobel leave the reference edges and the reference gray image, header intact; race freedom is concluded, not assumed |
| `Image.HeaderStaysValid` | examples/image_pipeline/pipeline.mbt:265-279 | throughout a run of image passes from a memory with the planes, between dispatches and at every moment of one, a worker accepts the header |

## Left out

- Timeouts of `wait_run` and of the ready handshake: whole-run theorems are about runs without one. A timed-out dispatch leaves workers running on slots that may be reused.
- `close()`, the moment at which `terminate` takes effect, and termination by the runtime: the protocol model stops at `Failed`, `PoolHost.Pool` only records who was terminated, and a launch begins when the old workers are gone.
- `run_dispatch_worker`, `atomic_claim_chunk` and `wait_run` as loops of one method: they share words with other agents at every access, so they are steps of a transition system; `PoolHost.Pool.ScanRun` is one pass over standing words.
- `ThreadScope`, `JoinHandle`, the admission semaphore and the asynchronous library: one dispatch at a time is taken for granted.
- Kernel exceptions are possible at any step inside a kernel and nowhere else.
- Kernels of another shape than `Kernels.Kernel` (`write_worker_id`, kernels that keep state between indices) and user kernels that race.
- PoolHost.Pool.StartRun: takes the number of workers to be positive, and the weights to be those that `RecordWorkerWeights` keeps positive.
- Partition.CutsTile: rounding is monotone with a relative error below 1e-10 and has neither overflow nor underflow.
- Messages of failures: `Conclude` names worker and status, the sentence built from them is not part of this model.
- Grain.AutoGrainRange: takes 8 * workers to fit `Int32`, which every allocatable pool meets: its control block has 16 words a worker and `Int32` word indices (host_client.mbt:463).
- DispatchLiveness.EveryDispatchEnds: says that the wait ends, not after how many steps; the number depends on how many words a kernel loads.
- Grain.ClaimsOfDispatch: asks that no slot is touched before its publication, because an early thief may claim a chunk under the old end.
- DispatchRuns.CancelIsCooperative: the bound of one chunk needs fewer than 2^31 - 1 requests in one dispatch, because the request number then returns to its baseline.
- Layout.LoadAfterWrite: takes bases whose header ends inside `Int32`; `Layout.ChecksNeedBase` says why.
- Fingerprint: the bytes are given; the UTF-8 encoding of text is not part of this model.
- `record_kernel_timing`, elapsed times and clocks: times are arbitrary inputs of the publishing step.
- Regions that are used after their arena was reset: disjointness is proved within one generation.
- The static-only worker loop of wasm/guest_runtime.js: the static branch of the same protocol.
- JSON mailbox, worker start-up, URL resolution, Node and Bun bridges, Wasm instantiation, Rayon, `mmap` and `fork`: plumbing around the core.
- Getters, `validateSchema`, `snakeCase` and the rendering of MoonBit text: no state and no promise beyond their own text.
