# A verified model of the lrmalloc allocator

The repository is a `malloc` written in Rust: thread caches and superblocks as in lrmalloc,
tuned by allocations per fetch (APF).  It also ships a calculator in C as a linking program.
This Dafny project models the parts whose correctness is not visible in any one function, and
proves what they promise on every input, every run or every reachable state.

`dafny verify dfyconfig.toml` checks the whole project.

## What is modelled

**The superblock protocol** (`Protocol`, `ProtocolInvariant`, `ProtocolSafety`,
`ProtocolUnmap`, `ProtocolLoss`, `ProtocolStuck`, `ProtocolBytes`, `ProtocolOrder`, `AnchorWord`, over
`Chains`).  Any number of threads allocate, free, flush their caches, push and pop partial superblocks, reserve, retire
and release them, one atomic access at a time.  The invariant says who holds each block and where each descriptor's single
list token is; ownership maps are existential, so no step reads them.  The main results are
`OneHolder`, `EmptyOnlyWhenWhole`, `OneToken`, `RetiredOnce`, `SwapComparesAnchors`, `PopsNewest`, and four exact
conditions: `SafeIffPatient`, `ConservedIffCareful`, `EmptiedHasToken` and `SwapIffUnflushed`.

**The cache bin** (`CacheBin`) with the compressed links (0 for "next block", all ones for
"end") refines a stack of distinct blocks.

**APF timescale mathematics** (`Sums`, `Trace`, `Reuse`, `Tuner`, `Liveness`).  The linear-time
recurrences for reuse and the closed form for liveness equal sums over all windows.

**Descriptors, size classes, page map, aligned allocation** (`DescriptorPool`, `SizeClasses`,
`PageMap`, `AlignedAlloc`, over `Bits`, which models bit masks as arithmetic).

**Collections** (`HashMap`, `SingleAccess`).

**The calculator** (`ParseTree`, `Grammar`, `TableParser`, `RecursiveParser`,
`ParserAgreement`, `Expressions`, `ExpressionTrees`, `Evaluator`, `Calculator`,
`DescentLanguage`, `Numerals`).  The table parser accepts exactly the texts of the grammar, with the only
tree there is; the recursive parser builds the same tree; and whichever parser is used, the
answer is the value of the one left-associative expression whose text was typed
(`CalculateByTable`, `CalculateByDescent`); a number written in decimal is answered with itself
(`NumeralAnswer`).

## Where the code falls short

- A thread that makes an anchor EMPTY releases the segment of the descriptor afterwards
  (src/thread_cache.rs:286-292).  In between, the popper of that descriptor may retire it
  (src/alloc.rs:148-151) and a third thread may take it for a new superblock.  A late release
  unmaps memory in use (`ProtocolUnmap.LateReleaseHarms`) or, if the new superblock has been
  emptied too, takes the segment that another thread then fails to unwrap
  (`LateReleaseStarves`).  `ReleaseHarmless` and `NoFaults` say that lateness is exactly what
  goes wrong, for one release and for whole runs; `SafeIffPatient` that a run is safe exactly if
  no descriptor is taken again while the release of its last superblock is still due.
- A flush onto a PARTIAL superblock overwrites the count with the length of its own run
  (src/thread_cache.rs:274).  The chain that was there is lost for good: in no continuation is a
  block of it handed out again, or its superblock emptied or released
  (`ProtocolLoss.LossIsPermanent`; `LossHappens` is a run that gets there).  Nothing is lost in a
  run exactly if every flush in it finds a FULL superblock or returns all that is missing
  (`ConservedIffCareful`).  Only the count is wrong: the links lead from the run into the old chain
  (`FlushJoinsChain`).
- A superblock flushed whole while FULL becomes EMPTY without ever being listed, so no thread
  will retire its descriptor; found PARTIAL, the descriptor keeps its list token until it is
  retired (`ProtocolStuck.EmptiedHasToken`, an if-and-only-if over every continuation;
  `StrandingHappens` is a run that gets there).
- `malloc_from_partial` loads the anchor once, outside its loop (src/alloc.rs:139).  Its swap can
  succeed exactly if nobody flushed to the superblock since (`ProtocolStuck.SwapIffUnflushed`);
  otherwise it spins in every continuation (`SwapNowOrNever`, `SpinningHappens`).
- `is_power_of_two` (src/lib.rs:172-175) rejects only 0 (`AlignedAlloc.TestOnlyRejectsZero`).
  The rounding gives multiples exactly for the powers of two (`RoundsIffPower`), so every other
  alignment but 0 is accepted and rounded wrongly (`WronglyAccepted`, for example 3 in
  `ThreeIsAccepted`).  The address guarantee is therefore proved for powers of two.
- `compute_index` subtracts 32-bit halves (src/alloc.rs:504).  The subtraction goes below zero
  exactly when a 4 GiB boundary lies between superblock and block (`PageMap.FindBlock`, for
  example `IndexAcrossBoundary`); with wrap-around the index is still right.
- The linear-time reuse counts an interval starting at time 0 wrongly; `Reuse.Numerators` states
  the exact offset.  The demand of some window length is negative exactly if the first
  allocation of the burst reuses a slot freed in it and some interval starts later
  (`Tuner.DemandExact`; `NegativeDemand` is a burst with demand(2) = -1).
- `liveness(n + 1)` divides by zero (`Liveness.LivenessCounter.Evaluate`).
- The recursive parser accepts an operand that is not there ("+1", "()").
  `ParserAgreement.TableIffNoGap` gives the exact condition on the input, and
  `DescentLanguage.DescentAccepts` the whole language; such inputs have no value, so both modes
  of the calculator still give one answer.
- `HashMap::len` counts insertions of keys that are already there, and `remove` of an absent key
  decrements it (src/independent_collections/hash_map.rs:149, 215).  It is the number of keys
  exactly if such insertions and removals balance (`HashMap.LengthIffBalanced`, and per call in
  `Insert` and `Remove`); `InsertedTwice` and `RemovedAbsent` are maps where it is not.  The
  contents are right for all that.

## Model

| member | source | states |
|---|---|---|
| ProtocolSafety.StepKeepsInv | src/thread_cache.rs:217-303 | every atomic step of any thread keeps the ownership invariant |
| ProtocolSafety.RunKeepsInv | src/thread_cache.rs:205-306 | so does every run, of any length and interleaving |
| ProtocolSafety.OneHolder | src/thread_cache.rs:217-284 | in every run caches, runs in flight and counted chains have the lengths the counters say, repeat no block, stay inside their superblock, and no block is in two places |
| ProtocolSafety.MallocHandsOutOnce | src/thread_cache.rs:103-147 | the block an allocation hands out was not in use and is nowhere else afterwards |
| ProtocolSafety.ChecksHold | src/alloc.rs:170-182 | the run-time checks never fail: a reserved chain starts inside its superblock, is not empty and goes to an empty cache |
| ProtocolSafety.EmptyOnlyWhenWhole | src/thread_cache.rs:269-275 | an anchor becomes EMPTY only when every block of the superblock is in the returned run or on the chain, although the count leaves out dropped blocks |
| ProtocolSafety.UnheldIffEmpty | src/thread_cache.rs:269-292 | nobody holds a block of a superblock exactly when its anchor is EMPTY |
| ProtocolSafety.OneToken | src/thread_cache.rs:265-301 | a descriptor is on the partial list or with a thread at most once in all; FULL means nowhere, PARTIAL somewhere, retired nowhere |
| ProtocolOrder.LastInFirstOut | src/alloc.rs:13-118 | after a push and any steps of any threads that touch the partial list no more, a pop gives the pushed descriptor and leaves the list as before the push |
| ProtocolOrder.ListOrdered | src/alloc.rs:46-118 | after every run the partial list holds only pushed descriptors, those pushed later in front |
| ProtocolOrder.PopsNewest | src/alloc.rs:13-44 | in every run a pop gives, of the descriptors still listed, the one pushed last |
| ProtocolOrder.MallocTakesTop | src/thread_cache.rs:103-147 | an allocation takes the first block of the cache and leaves the others in order |
| ProtocolOrder.FreeGoesOnTop | src/thread_cache.rs:46-86 | a free puts its block in front of the others |
| ProtocolOrder.NewSbInOrder | src/alloc.rs:206-231 | a new superblock fills the cache with all its blocks in address order |
| ProtocolOrder.FlushTakesTop | src/thread_cache.rs:233-243 | the run a flush takes and the rest are together the cache, in its order |
| ProtocolOrder.FlushedIsChain | src/thread_cache.rs:248-284 | a flush that does not empty the superblock makes its run the counted chain, in its order |
| ProtocolOrder.ReservedIsCache | src/alloc.rs:156-182 | a reservation makes the counted chain the cache, in its order |
| ProtocolSafety.RetiredOnce | src/alloc.rs:137-168 | over a run a descriptor is retired once for each time it was taken, except for the service it is still in |
| ProtocolInvariant.FlushCasGood | src/thread_cache.rs:248-301 | the compare-and-swap that ends a flush keeps the invariant in each of its three outcomes |
| ProtocolInvariant.FlushLoadGood | src/thread_cache.rs:250-256 | linking the run in front of the chain seen touches only a block in flight |
| ProtocolInvariant.FlushBeginGood | src/thread_cache.rs:217-243 | taking the leading run of one superblock off a cache keeps the invariant |
| ProtocolInvariant.ReserveGood | src/alloc.rs:156-182 | a successful reservation moves the whole counted chain into the cache |
| ProtocolInvariant.RetireGood | src/alloc.rs:148-151 | retiring an EMPTY descriptor gives up its list token |
| ProtocolInvariant.NewSbGood | src/alloc.rs:187-242 | a new superblock's blocks all go to the cache that asked |
| ProtocolUnmap.RunKeepsSegments | src/thread_cache.rs:286-292 | while releases come on time, superblocks that are not EMPTY stay mapped and each EMPTY one is released by one thread |
| ProtocolUnmap.NoFaults | src/thread_cache.rs:286-292 | no state of a run has a held block unmapped or a due release without its segment, if and only if all its releases are on time |
| ProtocolUnmap.ReleaseHarmless | src/thread_cache.rs:286-292 | after an on-time run a release leaves every held block mapped and every other due release possible if and only if it is on time |
| ProtocolUnmap.ReleaseToCome | src/thread_cache.rs:286-292 | in every run an EMPTY superblock that is still mapped has a thread about to release it |
| ProtocolUnmap.SafeIffPatient | src/alloc.rs:187-203 | every state of a run is safe and every pending release will find the segment it emptied, if and only if no descriptor is taken while its release is due |
| ProtocolUnmap.LateReleaseHarms | src/alloc.rs:148-151 | a run in which a late release unmaps a block in use |
| ProtocolUnmap.LateReleaseStarves | src/thread_cache.rs:286-292 | a run in which a late release meets an EMPTY anchor and leaves the due release without a segment |
| ProtocolBytes.NoSharedBytes | src/alloc.rs:170-182 | after every on-time run, with segments that do not overlap, different blocks in use, cached, in flight or on a chain share no byte |
| ProtocolBytes.MallocIsDisjoint | src/thread_cache.rs:103-147 | so the block an allocation hands out overlaps no live allocation |
| ProtocolLoss.FlushLoses | src/thread_cache.rs:269-275 | a flush that does not empty the superblock loses every block of the chain it found |
| ProtocolLoss.LostForever | src/thread_cache.rs:217-303 | no step of any thread brings a lost block back |
| ProtocolLoss.LossIsPermanent | src/thread_cache.rs:248-284 | after such a flush, in every continuation, the old chain's blocks are nowhere and the superblock is never emptied or retired |
| ProtocolLoss.FlushJoinsChain | src/thread_cache.rs:248-256 | in every run, when a flush swaps the anchor, the links lead from its run on through the whole chain it found, so only the count is lost |
| ProtocolLoss.ConservedIffCareful | src/thread_cache.rs:265-275 | every block of every superblock in service is in use, cached, in flight or on a counted chain at the end of a run, if and only if every flush in it found FULL or returned all that was missing |
| ProtocolLoss.LossHappens | src/thread_cache.rs:269-275 | a run that reaches such a flush |
| ProtocolStuck.EmptiedHasToken | src/thread_cache.rs:286-302 | in every continuation of an emptying flush the descriptor, until retired, has its list token if and only if the flush found it PARTIAL; found FULL it is EMPTY and unretired forever |
| ProtocolStuck.StrandingHappens | src/thread_cache.rs:269-272 | a run that reaches a flush from FULL to EMPTY |
| ProtocolStuck.StaleForever | src/alloc.rs:147-168 | a popper whose superblock was flushed to since it read the anchor can neither reserve nor retire in any continuation |
| ProtocolStuck.SwapIffUnflushed | src/alloc.rs:139-168 | a popper's swap is possible after a run if and only if nobody flushed to the superblock since it read the anchor |
| ProtocolStuck.SwapNowOrNever | src/alloc.rs:139-168 | in every run a popper that read PARTIAL can swap now or spins forever |
| ProtocolStuck.SpinningHappens | src/alloc.rs:139-168 | a run in which a popper is about to be overtaken by a flush |
| AnchorWord.Packed.SetAvail | src/allocation_data.rs:43-49 | setting the 30-bit field leaves state and count alone |
| AnchorWord.Packed.SetCount | src/allocation_data.rs:43-49 | setting the 32-bit field leaves state and first free block alone |
| AnchorWord.Packed.SetState | src/allocation_data.rs:43-49 | setting the 2-bit field leaves the others alone |
| AnchorWord.SwapComparesAnchors | src/allocation_data.rs:60-74 | in every run with superblocks below 2^30 blocks a swap finds the word it expected exactly if it finds the anchor it expected |
| CacheBin.ThreadCacheBin.PushBlock | src/thread_cache.rs:46-86 | pushes onto the decoded stack and writes no other block, whichever link form is chosen |
| CacheBin.ThreadCacheBin.PopBlock | src/thread_cache.rs:103-147 | pops the top of the decoded stack through all four link forms |
| CacheBin.ThreadCacheBin.Fill | src/thread_cache.rs:88-101 | an empty bin takes over a chain laid out for its new block size |
| CacheBin.ThreadCacheBin.FillFromNewSuperBlock | src/alloc.rs:206-231 | a fresh superblock becomes the stack of all its blocks in order, under either link encoding |
| CacheBin.ThreadCacheBin.TakeRun | src/thread_cache.rs:233-245 | takes exactly the longest leading run inside the superblock off the bin |
| CacheBin.ThreadCacheBin.Flush | src/thread_cache.rs:217-306 | the whole bin leaves it in order, cut into the longest runs that stay in one superblock, and the bin ends empty without a block size |
| CacheBin.ThreadCacheBin.Ret | src/thread_cache.rs:425-438 | takes the top blocks off the bin and keeps the rest in order; the popped pointers are dropped, so the blocks go to no reserve |
| CacheBin.FreshDecodes | src/alloc.rs:206-213 | a zeroed superblock whose last word is all ones decodes to its blocks in order |
| CacheBin.LinkedDecodes | src/alloc.rs:214-228 | so does one whose blocks hold raw addresses |
| Trace.FreeIntervals | src/apf/trace.rs:176-200 | one pass with a map of open frees gives the intervals of the trace |
| Trace.IntervalsAreReuses | src/apf/trace.rs:182-197 | every interval runs from the latest free of a slot to an allocation of that slot; other allocations of it may lie between |
| Trace.ReusesAreIntervals | src/apf/trace.rs:182-197 | every such reuse is an interval |
| Trace.IntervalsOrdered | src/apf/trace.rs:182-197 | end times increase strictly and stay below the clock |
| Trace.CheckValid | src/apf/trace.rs:228-259 | answers exactly whether every event finds its slot in the right state |
| Trace.ValidStartsLate | src/apf/trace.rs:228-259 | in a valid trace no interval starts at time 0 |
| Trace.Buffer.Add | src/apf/trace.rs:85-128 | appends the event, across growth of the buffer |
| Reuse.CountIntervals | src/apf/reuse_counter.rs:106-117 | the seven tables hold their sums over the intervals, and every index is in range |
| Reuse.RunningSums | src/apf/reuse_counter.rs:119-131 | the prefix and suffix tables hold the running sums |
| Reuse.Recurrences | src/apf/reuse_counter.rs:132-146 | the three recurrences compute X, Y and Z for all window lengths, and no unsigned subtraction goes below zero |
| Reuse.NumeratorIsWindows | src/apf/reuse_counter.rs:149-154 | X + Z - Y is the number of intervals inside each of the n-k+1 windows, summed, plus an exact offset for intervals that start at 0 |
| Reuse.Numerators | src/apf/reuse_counter.rs:92-158 | the linear-time loops give that numerator for every window length |
| Reuse.NoOffset | src/apf/reuse_counter.rs:149-154 | without intervals that start at 0 the offset is 0 |
| Reuse.WindowBound | src/apf/reuse_counter.rs:149-154 | a window of length k holds at most k intervals |
| Reuse.NumeratorBounded | src/apf/reuse_counter.rs:149-154 | unless the burst is overcounted the numerator is at most k per window |
| Reuse.NumeratorTooHigh | src/apf/reuse_counter.rs:149-154 | if it is, the numerator of the full length exceeds the length |
| Tuner.ComputeReuse | src/apf/reuse_counter.rs:92-158 | the reuse of every k is that numerator over the n-k+1 windows: multiplied by their number it gives the numerator back |
| Tuner.LateReuse | src/apf/reuse_counter.rs:78-87 | for a burst without intervals from time 0, multiplied by the number of windows it is the plain sum over the windows, and it lies between 0 and k |
| Tuner.ReuseCounter.IncTimer | src/apf/reuse_counter.rs:59-76 | bursts and hibernations alternate at the set lengths, and ending a burst publishes its reuse |
| Tuner.DemandMeans | src/apf/mod.rs:155-170 | the demand of k is k less the average number of reuses per window of the burst, and k for windows the burst does not have |
| Tuner.DemandBounds | src/apf/mod.rs:155-170 | the demand of k lies between 0 and k after every burst that is not overcounted, in particular without intervals from time 0 |
| Tuner.DemandSign | src/apf/mod.rs:155-170 | for every burst demand(k) is at most k, and not negative if and only if the fast numerator is at most k per window |
| Tuner.DemandExact | src/apf/reuse_counter.rs:119-146 | no demand of a burst is negative if and only if not both its first allocation ends an interval and some interval starts after time 0 |
| Tuner.NegativeDemand | src/apf/reuse_counter.rs:123-124 | a burst of two frees and two reuses whose demand(2) is -1 |
| Tuner.EnoughToReturn | src/apf/mod.rs:129-132 | whenever blocks are returned, ceil(demand) + 1 of them are cached |
| Tuner.ApfTuner.Note | src/apf/mod.rs:70-79 | an allocation is recorded before the clock ticks, so a burst that ends here includes it and reuse is never computed on an empty trace |
| Tuner.ApfTuner.Malloc | src/apf/mod.rs:69-106 | a dry bin fetches the least number of blocks that is not below the demand of its distance to the next fetch, and never more than that distance, or reports that demand is unknown; the other bins fetch nothing |
| Tuner.ApfTuner.Free | src/apf/mod.rs:112-134 | returns blocks exactly above twice the demand plus one, then the least number not below the demand plus one, and never more than are cached |
| Tuner.ApfTuner.CalculateDapf | src/apf/mod.rs:145-151 | ahead of the target, a fetch at that distance makes the allocations per fetch exactly the target; behind it the distance is a full target |
| Tuner.FetchSchedule | src/apf/mod.rs:145-151 | if every fetch comes at the distance computed at the one before, a tuner ahead of its target is on it from the next fetch on, and one behind it fetches every `target` allocations |
| Tuner.OnTargetFromStart | src/apf/mod.rs:145-151 | so from the start every fetch finds the clock at the target times the number of fetches |
| Liveness.Histogram.Add | src/apf/histogram.rs:51-58 | changes one entry, across growth |
| Liveness.Histogram.Grow | src/apf/histogram.rs:72-102 | the capacity doubles until the key fits and no entry changes |
| Liveness.LivenessCounter.Alloc | src/apf/liveness_counter.rs:31-36 | adds an object born now to all four running sums |
| Liveness.LivenessCounter.Free | src/apf/liveness_counter.rs:38-42 | ends the life of any object still alive |
| Liveness.LivenessCounter.IncTimer | src/apf/liveness_counter.rs:44-53 | carries the running sums to the next tick |
| Liveness.Formula | src/apf/liveness_counter.rs:55-66 | the closed form counts the (object, window) pairs that overlap |
| Liveness.LivenessCounter.Evaluate | src/apf/liveness_counter.rs:55-66 | the code's quotient is that count over the number of windows, without underflow; the values at both edges, and that it divides by zero exactly for k = n + 1 |
| Liveness.SomeAlive | src/apf/liveness_counter.rs:38-42 | while frees are fewer than allocations there is an object for the next free to end |
| DescriptorPool.TagRoundTrip | src/allocation_data/desc.rs:33-59 | the six-bit counter never disturbs the address |
| DescriptorPool.Pool.Retire | src/allocation_data/desc.rs:112-131 | an in-use descriptor becomes the head of a list that stays finite, acyclic and disjoint from those in use, whatever the tags |
| DescriptorPool.Pool.Alloc | src/allocation_data/desc.rs:133-279 | hands out the head, or the first of a new page whose others become the list; no descriptor is lost or given twice |
| DescriptorPool.Pool.PopHead | src/allocation_data/desc.rs:247-278 | the next head is found through a link with any tag, or none |
| DescriptorPool.LayOut | src/allocation_data/desc.rs:146-162 | the loop links all descriptors of a page but the first in order |
| SizeClasses.GrowPastBlock | src/size_classes.rs:34-49 | a superblock ends up larger than its block, a multiple of it and of the page: the table's size, or two blocks where that is only one |
| SizeClasses.GrowToTarget | src/size_classes.rs:51-62 | it ends as the least multiple of that size that holds the APF target in whole pages, and still of whole blocks and pages |
| SizeClasses.InitClasses | src/size_classes.rs:32-72 | every class gets that least size and a whole number of blocks, at least the target and at least two, in whole pages |
| SizeClasses.FittedOnce | src/size_classes.rs:32-72 | this leaves one possible size and number of blocks for each class and target |
| SizeClasses.SmallestClass | src/size_classes.rs:51-62 | 8-byte blocks with target 2500 get 20480 bytes and 2560 blocks |
| SizeClasses.BlockSizeForm | src/size_classes.rs:85-133 | the block sizes are multiples of 8 up to 32, then four equally spaced ones up to each power of two, the last being the maximum |
| SizeClasses.PagesLeast | src/size_classes.rs:85-133 | no smaller number of pages than the table's is filled by blocks without rest |
| SizeClasses.InitLookup | src/size_classes.rs:73-82 | every size up to the maximum finds the least class that holds it |
| SizeClasses.ClassKeepsAlignment | src/size_classes.rs:73-82 | the class of a multiple of a power of two has a block size that is a multiple of it |
| SizeClasses.LookupOwnClass | src/size_classes.rs:73-82 | the lookup of a block size finds its own class |
| AlignedAlloc.AlignValOk | src/mem_info.rs:29-44 | the mask rounds up to the next multiple of a power of two |
| AlignedAlloc.TestOnlyRejectsZero | src/lib.rs:172-175 | the power-of-two test accepts everything but 0 |
| AlignedAlloc.RoundsIffPower | src/mem_info.rs:29-44 | the mask gives a multiple of the alignment for every value without wrap-around if and only if the alignment is a power of two |
| AlignedAlloc.WronglyAccepted | src/lib.rs:172-190 | an alignment passes the test and rounds wrongly if and only if it is neither 0 nor a power of two |
| AlignedAlloc.ThreeIsAccepted | src/lib.rs:172-175 | 3 passes the test although the rounding fails for it |
| AlignedAlloc.FromCache | src/lib.rs:233-236 | a block of the class for the rounded size is aligned and long enough |
| AlignedAlloc.FromSegment | src/lib.rs:191-231 | so is the pointer into a segment of its own, also above a page |
| AlignedAlloc.DoAlignedAlloc | src/lib.rs:182-236 | for every power of two the pointer is aligned and its bytes lie in its block or segment; null exactly for alignment 0 or without a segment |
| PageMap.KeyIsPage | src/page_map.rs:278-291 | below 2^50 the key of an address is its page number |
| PageMap.PageMap.UpdatePages | src/alloc.rs:381-415 | writes every page of the superblock and no other |
| PageMap.PageMap.Register | src/alloc.rs:417-426 | adds a superblock of a size class with its descriptor; those registered before stay so |
| PageMap.PageMap.Unregister | src/alloc.rs:428-430 | removes one superblock and no other |
| PageMap.PageMap.GetDesc | src/page_map.rs:123-141 | an address below 2^50 finds the descriptor of the superblock whose bytes it lies in, and only that |
| PageMap.PagesOfBytes | src/alloc.rs:404-414 | a superblock has exactly the addresses of its pages |
| PageMap.PageMap.Find | src/page_map.rs:142-160 | every address below 2^50 inside a registered superblock finds its own descriptor, size class and block index, and no other address finds any |
| PageMap.FindBlock | src/alloc.rs:499-552 | every address in a superblock finds its class and the index of its block; when the 32-bit subtraction goes below zero |
| PageMap.IndexAcrossBoundary | src/alloc.rs:504 | a superblock across the first 4 GiB boundary where the subtraction goes below zero and the index is right |
| HashMap.ArrayRemove | src/independent_collections/array.rs:275-290 | popping, dropping and pushing back removes one element and keeps the order |
| HashMap.HashMap.Search | src/independent_collections/hash_map.rs:142-147 | finds the key in its bucket exactly if the map has it |
| HashMap.HashMap.Grow | src/independent_collections/hash_map.rs:98-121 | rehashing into 2c+1 buckets keeps the map, each key once in its bucket, and `containers_used` is again the number of buckets that hold something |
| HashMap.HashMap.Insert | src/independent_collections/hash_map.rs:123-162 | updates the finite map and returns the old value, for any hash function; a length that is the number of keys stays so exactly for absent keys; grows exactly when the length is at least half the buckets and over twice those used, or one below the buckets, so a length below the number of buckets stays below it |
| HashMap.HashMap.Replace | src/independent_collections/hash_map.rs:165-183 | updates present keys only |
| HashMap.HashMap.Get | src/independent_collections/hash_map.rs:185-194 | agrees with the finite map |
| HashMap.HashMap.Contains | src/independent_collections/hash_map.rs:225-234 | agrees with the finite map |
| HashMap.HashMap.Remove | src/independent_collections/hash_map.rs:206-223 | removes the key and returns its value; a length that is the number of keys stays so exactly for present keys, and wraps around at 0; `containers_used` then counts one bucket too many exactly if the bucket became empty |
| HashMap.HashMap.OrInsert | src/independent_collections/hash_map.rs:256-294 | inserts only absent keys and always finds the value afterwards |
| HashMap.LengthIffBalanced | src/independent_collections/hash_map.rs:149-215 | after any run the length is the number of keys if and only if insertions of present keys and removals of absent ones balance |
| HashMap.InsertedTwice | src/independent_collections/hash_map.rs:149 | one key inserted twice has length two |
| HashMap.RemovedAbsent | src/independent_collections/hash_map.rs:215 | one key with an absent one removed has length zero |
| SingleAccess.RunsOnce | src/single_access.rs:19-49 | in every interleaving `func` starts at most once, nobody returns before it completed, and `after` runs at most once, in the winner, after the release |
| SingleAccess.ReleasedReturn | src/single_access.rs:26-48 | after the release every call returns within three of its own steps, whatever the others do |
| SingleAccess.NeverStuck | src/single_access.rs:19-49 | while some call has not returned, some call can move on |
| Grammar.ParseSound | C-linking-tests/math_parser/table_parser.c:24-69 | what is accepted is a tree of the grammar that covers exactly the characters read |
| Grammar.ParseComplete | C-linking-tests/math_parser/table_parser.c:190-251 | every tree of the grammar is found with one character of look-ahead |
| Grammar.TableDecides | C-linking-tests/math_parser/table_parser.c:190-251 | where a production can lead on with the character in front, the table picks it; it may also pick the empty one where nothing can follow, which is rejected later |
| TableParser.FindsFirstHole | C-linking-tests/math_parser/parse_tree.c:27-35 | the node found for the popped symbol is the leftmost unexpanded leaf, and it exists |
| TableParser.ExpandStep | C-linking-tests/math_parser/table_parser.c:139-158 | expanding it keeps the stack and the open leaves in step and the outcome unchanged |
| TableParser.MatchStep | C-linking-tests/math_parser/table_parser.c:109-138 | so does reading a character into it |
| TableParser.Expand | C-linking-tests/math_parser/table_parser.c:151-156 | children are appended in order and pushed in reverse |
| TableParser.RunTableParser | C-linking-tests/math_parser/table_parser.c:83-183 | the loop terminates with the trimmed tree exactly if predictive parsing reads the whole input |
| RecursiveParser.Parser.ExpressionF | C-linking-tests/math_parser/recursive_parser.c:58-68 | succeeds exactly if the lenient parse does, stands behind its text and passes the pruned tree on |
| RecursiveParser.Parser.FactorF | C-linking-tests/math_parser/recursive_parser.c:108-135 | the same for a factor, which may be missing |
| RecursiveParser.Parser.ParamlistF | C-linking-tests/math_parser/recursive_parser.c:225-240 | the same for a parameter list |
| RecursiveParser.Parser.PtailF | C-linking-tests/math_parser/recursive_parser.c:241-255 | the same for further parameters |
| RecursiveParser.RunRecursiveParser | C-linking-tests/math_parser/recursive_parser.c:36-55 | gives the pruned tree exactly if the lenient parse reads the whole input |
| ParserAgreement.AcceptsIffDerives | C-linking-tests/math_parser/table_parser.c:24-69 | the table parser's language is the grammar's, and each text has one tree |
| ParserAgreement.TrimRemovesAll | C-linking-tests/math_parser/parse_tree.c:126-139 | although it looks at each right sibling once, trimming removes every empty part |
| ParserAgreement.SameTree | C-linking-tests/math_parser/recursive_parser.c:36-55 | whatever the table parser accepts the recursive parser accepts with the same tree, up to marks |
| ParserAgreement.TableIffFull | C-linking-tests/math_parser/recursive_parser.c:108-135 | the table parser accepts exactly when no factor of the recursive parser's tree is missing |
| ParserAgreement.TableIffNoGap | C-linking-tests/math_parser/recursive_parser.c:108-135 | the parsers accept the same inputs except those with a gap where a factor must start, a condition on the characters alone |
| DescentLanguage.DescentAccepts | C-linking-tests/math_parser/recursive_parser.c:36-135 | the recursive parser accepts an input if and only if it is not empty, does not end where an operand is due, and is the text of an expression in which any operands may be left out |
| Calculator.SignedInput | C-linking-tests/math_parser/recursive_parser.c:127-134 | a plus sign in front of any expression is accepted by the recursive parser only |
| Evaluator.Evaluate | C-linking-tests/math_parser/parse_tree.c:245-404 | the recursive evaluation with its loops computes the value of the linked tree |
| Evaluator.EvaluateParams | C-linking-tests/math_parser/parse_tree.c:432-456 | the parameter loop gives the values in order, or none |
| Calculator.SumValue | C-linking-tests/math_parser/parse_tree.c:261-288 | walking the right-recursive tree from the left gives the left-associative sum |
| Calculator.ProductValue | C-linking-tests/math_parser/parse_tree.c:289-327 | the same for products; division by zero has no value |
| Calculator.DigitsValue | C-linking-tests/math_parser/parse_tree.c:348-365 | every digit gets the weight of its place |
| Calculator.ArgsValue | C-linking-tests/math_parser/parse_tree.c:415-456 | the parameters of a call are counted and evaluated in order |
| Expressions.IncompleteUndefined | C-linking-tests/math_parser/parse_tree.c:252-254 | a missing operand anywhere leaves no value |
| Expressions.CallHasValue | C-linking-tests/math_parser/parse_tree.c:459-528 | when a call has a value: `sqrt` unless its argument is negative, `pow` unless the base is negative and the exponent between 0 and 1, and every other function with its number of parameters |
| ExpressionTrees.ReadExpr | C-linking-tests/math_parser/table_parser.c:24-69 | every tree of the grammar is the tree of an expression |
| ExpressionTrees.ExprTreeText | C-linking-tests/math_parser/table_parser.c:24-69 | and carries its text |
| Calculator.CalculateByTable | C-linking-tests/math_parser/main.c:53-66 | the answer is the value of the one expression whose text was typed, none if there is none, and no null pointer is followed |
| Calculator.CalculateByDescent | C-linking-tests/math_parser/main.c:55-66 | the same with the recursive parser |
| Calculator.OneAnswer | C-linking-tests/math_parser/main.c:53-66 | so both modes give one answer on every input |
| Numerals.NumeralRoundTrip | C-linking-tests/math_parser/parse_tree.c:213-217 | reading the decimal notation of any number gives it back |
| Numerals.NumeralAnswer | C-linking-tests/math_parser/parse_tree.c:348-365 | whatever either mode answers to the decimal notation of a number is that number |
| Numerals.DifferenceAnswer | C-linking-tests/math_parser/parse_tree.c:261-288 | and to a-b-c, for all numbers, the difference taken from the left |

## Left out

- Interleavings of the protocol are a superset of the program's: a flush may start at any time and stop between superblocks, and a thread may take a new superblock although a partial one is listed.
- Blocks of the protocol are named by descriptor and index; that addresses and page map agree with this is proved apart, in `PageMap` and `SizeClasses`, and the two are joined by the assumption that segments are fresh, page-aligned and disjoint.
- One size class at a time: the partial lists of different classes share no state.
- `Unmap` is one step for unregistering, taking and deallocating the segment (src/thread_cache.rs:286-292), and `NewSb` one step for taking a descriptor, setting its segment, storing its anchor and registering it (src/alloc.rs:187-242).
- Pushing to and popping from the partial list is one step each; the inner retry of its compare-and-swap, reuse of its six-bit tag and weak memory ordering are not modelled.
- Flushing is modelled with raw links only, because `flush_cache` reads links raw; with the compressed encoding its walk would not follow the chain.
- `malloc_count_from_partial`, `malloc_count_from_new_sb` and `fetch`: they treat the first free block as the start of a contiguous range and belong to APF mode.
- mmap, munmap, Windows heap calls, thread-local set-up and bootstrap: foreign code; fresh memory is zeroed.
- f32 and f64 rounding: averages, demand and the calculator's numbers are exact; the library functions (`sin`, `pow`, ...) are an unspecified parameter.
- Tuner.ApfTuner.Malloc: only the allocation clock, which is what the program is built with; the mode that adds liveness to the demand is left out.
- Trees are values: `trim_Parse_Tree`, `find_Parent` and the appending of children are modelled as functions of the tree, so update in place, aliasing and the freeing of category strings are not captured.
- RecursiveParser.Parser.FactorF: the position after a failed parse is not stated, since it is never used.
- Large allocations in the page map, which registers only the first page of their segment.
- The growth of `Array` itself, its iterators, `ArrayDeque` and bit access; the hash map's buckets are sequences.
- The hash map with capacity 0, which cannot take an entry.
- `do_realloc`, `info_dump`, `AutoPtr`, `PageInfoHolder`, `PageRangeMapping`, C bindings, benchmarks and printing: easy members or I/O.
