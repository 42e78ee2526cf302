# Chapel runtime memory tracking and array descriptors, in Dafny

This project models two independent pieces of the early Chapel runtime.

**The memory tracker (`runtime/src/chplmem.c`).** Every allocation made through
`_chpl_malloc`, `_chpl_calloc`, `_chpl_realloc` and `_chpl_free` can be
recorded in an allocation table. The table is a fixed array of 1019 hash
buckets, each a chain of `memTableEntry` records. The same records also form
an allocation-order list from `first` to `last`.

- **Counters.** `totalMem` and `maxMem` are running byte counts kept in
  `size_t`. An optional `--memmax` ceiling ends the program when it is
  exceeded.
- **Flags.** The command-line flags `--memstat`, `--memtrack` and
  `--memtrace` are latched into `*Set` variables. They go live in
  `startTrackingMem`.
- **Output.** The runtime can print the statistics, list the table and write
  a trace log.

**The array descriptor (`runtime/include/array.h`).** `_INIT_ARRAY` derives,
for each dimension of a domain `lo..hi by str`, an offset and a block size.
It then derives the element count and asks `malloc` for storage. `_ACC1`,
`_ACC2` and `_ACC3` turn an index tuple into a flat position.

## Module layout

| file | module | contents |
|---|---|---|
| `ctypes.dfy` | `CTypes` | pointers, wrapping `size_t` arithmetic, the `_int64`→`size_t` conversion, C's truncating division |
| `outcomes.dfy` | `Outcomes` | the errors `printError` reports, as a `Status` |
| `lists.dfy` | `Lists` | sequences as linked lists: no duplicates, unlinking, positions, subsequences |
| `records.dfy` | `Records` | `memTableEntry` data, chunk sizes, sums of chunks, the `printMemTable` selection |
| `memhash.dfy` | `MemHash` | `hash` over a pointer's bytes |
| `buckets.dfy` | `Buckets` | `removeBucketEntry` exactly as written, as a function of its chain |
| `memtable.dfy` | `AllocTable` | the table as a value (`Table`), its soundness invariant, and the class `MemTable` holding buckets, order list and records |
| `chplmem.dfy` | `ChplMem` | the trace decision, the facade as functions on values, the drift and peak lemmas, and the class `MemTracker` holding flags, counters and the facade methods |
| `runs.dfy` | `MemRuns` | sequences of facade calls and the accounting theorem |
| `array_layout.dfy` | `ArrayLayout` | `_INIT_ARRAY` and `_ACCk`, with the class `ArrayDescriptor` |

## How the model represents the runtime

- **Records.** A record is an identity (`Id`) mapped to its data
  (`Entry`).
  - A bucket is the sequence of identities reached from its head through
    `nextInBucket`.
  - The order list is the sequence reached from `first` through
    `nextInstalled`. Its `prevInstalled` links are the same adjacency read
    backwards.
  - `first` and `last` are fields of their own, so a stale `last` can be
    seen.
- **Soundness.** `AllocTable.TableOk` is the invariant the table keeps:
  - every record sits in exactly one chain, the one `hash` picks for its
    address;
  - the order list holds the same identities, without duplicates;
  - `first` and `last` are its ends;
  - addresses are distinct and non-NULL.
- **`size_t`.** `size_t` is 64 bits and wraps (`Wrap64`).
  - An `_int64` compared with a `size_t` converts to unsigned, so a
    negative `--memmax` or threshold becomes a huge bound.
  - `(unsigned)` casts are `ToUnsigned`.
- **Errors.** `printError` is not part of this model, and whether it
  returns cannot be seen here. The model reads it two ways.
  - At `setMemthreshold` (runtime/src/chplmem.c:93) and `setMemtrace`
    (line 107) it is a warning that returns. These are configuration
    warnings, so the threshold is still recorded and tracing still
    requested.
  - Everywhere else it ends the program. A call that reaches it returns
    `Fatal(e)`, and the state at that point is the final state.
- **Inputs standing in for other code.** These become parameters:
  - the platform allocator's answer (`raw`, where 0 is NULL);
  - the answer of `isGlomStringsMem` (`glom`);
  - the raw bytes of a pointer value (`bytesOf`);
  - whether `fopen` of the trace log succeeded (`fopenOk`).
- **Facade.** Each facade method is proved equal to a function on values
  (`Allocation`, `Release`, `Reallocation`). The accounting properties are
  proved about those functions.
- **Array rank.** `_INIT_ARRAY` hard-codes `rank = 1` although its loop is
  written for any rank. The model takes the rank from the descriptor's
  `dimInfo.Length` (any `n ≥ 1`) and reads the first `n` dimensions of the
  domain. The macro as instantiated is the case `n = 1`.

## Behaviour the code has, stated as it is

- **Strides in the array layout.**
  - A dimension's extent is `(hi - lo + 1) / str` with truncating division.
  - The offset `Σ (i_d - off_d) * blk_d` never divides by the stride.
  - So `0..8 by 2` gets 4 slots rather than 5, and index 4 lands at
    offset 4.
  - This is modelled as written (`ArrayLayout.StridedOverrun`) and is not
    corrected.
- **The array's storage** comes from the platform's `malloc`, not from
  `_chpl_malloc`. When that fails the runtime only prints a message and
  goes on with `base` NULL.
- **Trace order.** `_chpl_realloc` writes its trace line after tracking and
  counting, so a realloc stopped by `--memmax` is not traced.
  `_chpl_malloc` and `_chpl_calloc` trace before installing, so an
  allocation stopped by the limit still is.
- **Warnings.**
  - `setMemthreshold` without a trace log reports through `printError`. The
    model takes that as a warning that returns.
  - So does `setMemtrace` with a log that cannot be opened.
  - Every other call of `printError` is taken to end the program.

## Model

| member | source | states |
|---|---|---|
| `CTypes.TruncDiv` | runtime/include/array.h:23-24 | C's `/`: the remainder is smaller than the divisor in magnitude and has the dividend's sign (or is 0) |
| `MemHash.HashValue` | runtime/src/chplmem.c:37-45 | the folded hash value is an `unsigned`, below 2^32 |
| `MemHash.Hash` | runtime/src/chplmem.c:37-46 | the loop over the pointer's bytes computes the folded value, and the bucket `hash` returns is that value mod 1019, always below `HASHSIZE` |
| `Records.Above` | runtime/src/chplmem.c:223-236 | a record is listed iff it is in the order list and its `number*size` is strictly above the threshold |
| `Records.AboveKeepsOrder` | runtime/src/chplmem.c:223-226 | the listing is a subsequence of the order list, so it comes out in allocation order |
| `Records.FootprintRemove` | runtime/src/chplmem.c:340-363 | unlinking a record that occurs once removes exactly its chunk from the bytes the list holds |
| `Records.FootprintOverwrite` | runtime/src/chplmem.c:292-293 | overwriting a record's counts replaces its chunk in the sum, once |
| `Lists.RemoveId` | runtime/src/chplmem.c:346-357 | unlinking keeps exactly the other elements, and keeps a duplicate-free list duplicate-free |
| `Lists.RemoveIdAt` | runtime/src/chplmem.c:346-357 | on a duplicate-free list, unlinking the element at `k` splices its neighbours: `s[..k] + s[k+1..]` |
| `Buckets.RemoveAsWritten` | runtime/src/chplmem.c:297-305 | definition: an empty bucket is dereferenced at line 302; a matching head is unlinked; otherwise the loop runs (`ScanFrom`) — its behaviour is stated by `Buckets.AsWrittenDefinedIff`, `AsWrittenMissing` and `NeverVanishes` |
| `Buckets.ScanFrom` | runtime/src/chplmem.c:306-320 | definition: the loop with no `break`; a match splices the successor out and goes on, the last record's NULL successor is dereferenced at line 312, and falling off the end with nothing found is the line-319 error — stated by the same three lemmas |
| `Buckets.NeverVanishes` | runtime/src/chplmem.c:318-320 | the internal error "Hash table entry has disappeared unexpectedly!" is never reached: every run deletes a record or dereferences NULL first |
| `Buckets.AsWrittenDefinedIff` | runtime/src/chplmem.c:297-322 | for a tracked address at chain position `k`, the code as written succeeds iff `k` is the head or the last element; then it unlinks exactly that record; otherwise it dereferences NULL at line 312 |
| `Buckets.AsWrittenMissing` | runtime/src/chplmem.c:300-316 | for an address not in its chain, the code dereferences NULL: at line 302 on an empty bucket, at line 312 otherwise |
| `Buckets.MiddleOfThreeCrashes` | runtime/src/chplmem.c:306-316 | three records in one bucket: removing the middle one dereferences NULL at line 312 |
| `AllocTable.BucketOf` | runtime/src/chplmem.c:37-46 | the bucket of an address is below `HASHSIZE` |
| `AllocTable.Link` | runtime/src/chplmem.c:262-291 | definition of the new-record path: the next identity heads bucket `hash(addr)` and ends the order list, `first` is set only when NULL, `last` always — soundness and held bytes in `AllocTable.LinkOk`, the shape in `AllocTable.InstalledShape` |
| `AllocTable.Overwrite` | runtime/src/chplmem.c:292-293 | definition of the tracked path: only `number` and `size` of that record change — `AllocTable.OverwriteOk` |
| `AllocTable.Installed` | runtime/src/chplmem.c:257-294 | definition of `installMemory` on values: `Overwrite` for a tracked address, `Link` otherwise — `AllocTable.InstalledOk`, `InstalledShape`, `InstallIdempotent` |
| `AllocTable.Relink` | runtime/src/chplmem.c:325-337 | definition of `updateMemory` on values: out of the old bucket, at the head of the new one, new address/number/size, order list untouched — `AllocTable.RelinkOk`, `RelinkShape` |
| `AllocTable.UnlinkedFirst` | runtime/src/chplmem.c:346-350 | definition: `first` moves to the successor exactly when the removed record was `first` — used by `AllocTable.UnlinkOk` and `StaleLastHarmless` |
| `AllocTable.UnlinkedLast` | runtime/src/chplmem.c:351-357 | definition: `last` moves back to the predecessor only when a non-head tail is removed, so removing the sole record leaves it — `AllocTable.StaleLastHarmless` |
| `AllocTable.Unlink` | runtime/src/chplmem.c:344-363 | definition of the tracked path of `removeMemory`: out of its bucket, the order list and the record map — `AllocTable.UnlinkOk`, `RemovedShape` |
| `AllocTable.Removed` | runtime/src/chplmem.c:340-368 | definition of `removeMemory` on values: `Unlink` for a tracked address, "free memory that wasn't allocated" with nothing changed otherwise — `AllocTable.RemovedOk`, `RemovedShape` |
| `AllocTable.LinkOk` | runtime/src/chplmem.c:262-291 | linking a fresh record at the head of its bucket and the end of the order list keeps the table sound and adds its chunk to the held bytes |
| `AllocTable.OverwriteOk` | runtime/src/chplmem.c:292-293 | overwriting a record's `number` and `size` keeps the table sound and replaces its chunk in the held bytes |
| `AllocTable.RelinkOk` | runtime/src/chplmem.c:325-337 | rehashing a record to a new, untracked address keeps the table sound, and the held bytes change by new chunk minus old |
| `AllocTable.UnlinkOk` | runtime/src/chplmem.c:340-363 | unlinking a tracked record from its bucket and the order list keeps the table sound and removes its chunk from the held bytes |
| `AllocTable.InstalledOk` | runtime/src/chplmem.c:257-294 | `installMemory` keeps the table sound; the held bytes grow by the new chunk for a fresh address, and by new minus old chunk for a tracked one |
| `AllocTable.RemovedOk` | runtime/src/chplmem.c:340-368 | `removeMemory` keeps the table sound; a tracked address loses exactly its chunk; an untracked one changes nothing |
| `AllocTable.InstalledShape` | runtime/src/chplmem.c:257-294 | an untracked address gains exactly one record, at the head of bucket `hash(addr)` and the tail of the order list; a tracked one has only `number` and `size` overwritten, with description, buckets and order list unchanged |
| `AllocTable.InstallIdempotent` | runtime/src/chplmem.c:257-294 | installing the same address twice leaves the same record count, order list and buckets as installing it once |
| `AllocTable.RelinkShape` | runtime/src/chplmem.c:325-337 | `updateMemory` moves the record to the head of the new address's bucket; the old address is no longer tracked; the record takes the new address, number and size and keeps its description; the order list, `first`, `last` and all other records are unchanged |
| `AllocTable.RemovedShape` | runtime/src/chplmem.c:340-368 | for a tracked address, exactly that record leaves its bucket, the order list (the others keep their relative order) and the record map; for an untracked one the table is unchanged and the error is "free memory that wasn't allocated" |
| `AllocTable.StaleLastHarmless` | runtime/src/chplmem.c:274-280 | removing the sole record empties the list but leaves `last` pointing at it; the next install still sees an empty list and makes the new record both `first` and `last` |
| `AllocTable.MemTable.constructor` | runtime/src/chplmem.c:31-33 | the static table starts with all buckets empty, no records and an empty order list |
| `AllocTable.MemTable.Lookup` | runtime/src/chplmem.c:241-254 | finds a record iff the address is tracked, and then the record holding that address |
| `AllocTable.MemTable.Install` | runtime/src/chplmem.c:257-294 | the new table is `Installed` of the old one, and stays sound |
| `AllocTable.MemTable.LinkEntry` | runtime/src/chplmem.c:262-291 | the fresh record heads its bucket and is linked after `last` |
| `AllocTable.MemTable.SetCounts` | runtime/src/chplmem.c:292-293 | only the record's `number` and `size` change |
| `AllocTable.MemTable.RemoveBucketEntry` | runtime/src/chplmem.c:297-322 | corrected splice: the record with the address is returned and unlinked from its chain wherever it sits, and nothing else changes |
| `AllocTable.MemTable.RemoveBucketEntryAsWritten` | runtime/src/chplmem.c:297-322 | the loop as written computes `Buckets.RemoveAsWritten` of the chain; on success the chain is the returned one; other buckets are untouched |
| `AllocTable.MemTable.UpdateMemory` | runtime/src/chplmem.c:325-337 | the new table is `Relink` of the old one, and stays sound |
| `AllocTable.MemTable.Rebucket` | runtime/src/chplmem.c:331-336 | the record heads the new address's bucket and takes the new address, number and size |
| `AllocTable.MemTable.RemoveMemory` | runtime/src/chplmem.c:340-368 | the new table and status are `Removed` of the old table, and the table stays sound |
| `AllocTable.MemTable.UnlinkInstalled` | runtime/src/chplmem.c:345-358 | the record leaves the order list; `first` advances when it was the head; `last` moves back only when a non-head tail is removed |
| `AllocTable.MemTable.Discard` | runtime/src/chplmem.c:362-363 | the record is freed and nothing else changes |
| `AllocTable.MemTable.ClearBuckets` | runtime/src/chplmem.c:65-69 | every bucket ends empty |
| `ChplMem.ToUnsigned` | runtime/src/chplmem.c:162-163 | an `(unsigned)` cast is below 2^32 and keeps values that fit |
| `ChplMem.TraceLine` | runtime/src/chplmem.c:380-396 | a line is written iff `number*size` reaches the threshold, as unsigned 64-bit values; it has the two-address form iff the second address is non-NULL and differs; counts and address are printed as `unsigned` |
| `ChplMem.DefaultThresholdTracesAll` | runtime/src/chplmem.c:57 | with the default threshold 0 every call is traced |
| `ChplMem.NegativeThresholdTracesLittle` | runtime/src/chplmem.c:384 | threshold -1 becomes 2^64-1, so any smaller chunk goes untraced |
| `ChplMem.Balanced` | runtime/src/chplmem.c:120-133 | the drift is 0 exactly when `totalMem` equals the held bytes in `size_t` |
| `ChplMem.Peak` | runtime/src/chplmem.c:113-117 | `maxMem` becomes at least `totalMem` and at least its old value, and is one of them |
| `ChplMem.Increase` | runtime/src/chplmem.c:120-127 | definition of `increaseMemStat` on values: add in `size_t`, stop with "Exceeded memory limit" above a non-zero limit before `updateMaxMem` — `ChplMem.IncreaseKeeps`, and `MemTracker.IncreaseMemStat` states the same per field |
| `ChplMem.Decrease` | runtime/src/chplmem.c:130-133 | definition of `decreaseMemStat` on values — `ChplMem.DecreaseKeeps` |
| `ChplMem.Count` | runtime/src/chplmem.c:409-411 | definition: `increaseMemStat` only when `--memstat` is live — `ChplMem.FreshCounted`, `RelocatedKeeps` |
| `ChplMem.Admitted` | runtime/src/chplmem.c:407-412 | definition of the tracked part of malloc/calloc: `installMemory`, then `Count` — `ChplMem.AllocationKeeps` |
| `ChplMem.Allocation` | runtime/src/chplmem.c:399-433 | definition of `_chpl_malloc`/`_chpl_calloc` on values: NULL is "out of memory" (`confirm`), then trace, then `Admitted` — `ChplMem.AllocationKeeps`, `AllocationTraced`, `MemRuns.PerformOk` |
| `ChplMem.Debited` | runtime/src/chplmem.c:438-445 | definition: with stats live a tracked record's chunk is subtracted; an untracked pointer changes nothing here — `ChplMem.ReleaseKeeps` |
| `ChplMem.Release` | runtime/src/chplmem.c:436-449 | definition of `_chpl_free` on values: nothing without tracking, else `Debited` then `Removed` — `ChplMem.ReleaseKeeps`, `MemRuns.PerformOk` |
| `ChplMem.Exempt` | runtime/src/chplmem.c:461-467 | definition: under tracking, a non-NULL untracked pointer for which `isGlomStringsMem` answers true is let through — `ChplMem.ReallocationCases`, `ReallocationKeeps` |
| `ChplMem.Shifted` | runtime/src/chplmem.c:472-483 | definition: NULL installs the new block, a tracked pointer is debited (stats live) and rehashed, an exempt one leaves the books — `ChplMem.RelocatedKeeps`, `ReadmittedKeeps` |
| `ChplMem.Readmitted` | runtime/src/chplmem.c:472-487 | definition of the tracked part of realloc: `Shifted`, then `Count` of the new chunk — `ChplMem.ReadmittedKeeps` |
| `ChplMem.Reallocation` | runtime/src/chplmem.c:452-493 | definition of `_chpl_realloc` on values: zero size frees, an untracked non-exempt pointer is refused, NULL is "out of memory", then `Readmitted` and a trace line only after a successful count — `ChplMem.ReallocationCases`, `ReallocationKeeps`, `MemRuns.PerformOk` |
| `ChplMem.IncreaseKeeps` | runtime/src/chplmem.c:120-127 | `increaseMemStat` adds the chunk in `size_t` and moves the drift by it; when it returns, `maxMem ≥ totalMem`; it never lowers `maxMem` |
| `ChplMem.DecreaseKeeps` | runtime/src/chplmem.c:130-133 | `decreaseMemStat` subtracts in `size_t`, leaves `maxMem ≥ totalMem` and never lowers `maxMem` |
| `ChplMem.FreshCounted` | runtime/src/chplmem.c:409-411 | counting the chunk a new record holds keeps the drift |
| `ChplMem.AllocationKeeps` | runtime/src/chplmem.c:399-433 | with tracking and stats in step and a fresh block, `_chpl_malloc`/`_chpl_calloc` keep the drift; a call that returns keeps `maxMem ≥ totalMem`; none lowers `maxMem` |
| `ChplMem.ReleaseKeeps` | runtime/src/chplmem.c:436-449 | `_chpl_free` keeps the drift and `maxMem ≥ totalMem`, never lowers `maxMem`, and under tracking reports an error for NULL |
| `ChplMem.ReallocationKeeps` | runtime/src/chplmem.c:452-493 | `_chpl_realloc` keeps the drift, except that an exempt untracked block adds its new chunk with no record; a call that returns keeps `maxMem ≥ totalMem`; none lowers `maxMem` |
| `ChplMem.ReallocationCases` | runtime/src/chplmem.c:452-493 | a zero-byte request is `_chpl_free` and returns NULL; under tracking an untracked, non-exempt pointer is refused before the platform's realloc, with nothing booked or traced; an exempt block leaves the table alone; a trace line is written only after a successful count |
| `ChplMem.AllocationTraced` | runtime/src/chplmem.c:399-433 | malloc/calloc write their trace line whenever the block is non-NULL and `--memtrace` is live, before install and count, so a call stopped by `--memmax` is still traced |
| `ChplMem.ReadmittedKeeps` | runtime/src/chplmem.c:468-487 | the tracked part of a realloc keeps the drift, except that an exempt block adds its chunk |
| `ChplMem.RelocatedKeeps` | runtime/src/chplmem.c:473-486 | moving a tracked block (subtract old chunk, rehash, add new chunk) keeps the drift |
| `ChplMem.ListAbove` | runtime/src/chplmem.c:223-236 | the loop over `first`…`nextInstalled` selects exactly `Above` of the order list |
| `ChplMem.MemTracker.constructor` | runtime/src/chplmem.c:49-60 | every flag is off, both counters are 0, the table is empty, and the latch holds |
| `ChplMem.MemTracker.InitMemTable` | runtime/src/chplmem.c:63-70 | with tracking live every bucket is emptied, otherwise nothing changes; records and order list are untouched, so the table stays sound iff tracking is off or no record exists yet (the start-up call) |
| `ChplMem.MemTracker.SetMemmax` | runtime/src/chplmem.c:73-76 | the limit is recorded and `--memstat` and `--memtrack` are requested; the latch holds |
| `ChplMem.MemTracker.SetMemstat` | runtime/src/chplmem.c:79-82 | `--memstat` also requests `--memtrack` |
| `ChplMem.MemTracker.SetMemtrack` | runtime/src/chplmem.c:85-87 | `--memtrack` is requested and the latch holds |
| `ChplMem.MemTracker.SetMemthreshold` | runtime/src/chplmem.c:90-97 | the threshold is recorded, with a warning iff no trace log is open |
| `ChplMem.MemTracker.SetMemtrace` | runtime/src/chplmem.c:100-110 | tracing is requested; the log is open iff a name was given and opened; a warning comes iff opening a named log failed |
| `ChplMem.MemTracker.StartTrackingMem` | runtime/src/chplmem.c:142-146 | the requested flags go live, and `--memstat` live implies `--memtrack` live |
| `ChplMem.MemTracker.UpdateMaxMem` | runtime/src/chplmem.c:113-117 | `maxMem` becomes the larger of itself and `totalMem` |
| `ChplMem.MemTracker.IncreaseMemStat` | runtime/src/chplmem.c:120-127 | adds in `size_t`; above a non-zero limit (unsigned compare) it stops with "Exceeded memory limit" before touching `maxMem`; otherwise `maxMem` is refreshed |
| `ChplMem.MemTracker.DecreaseMemStat` | runtime/src/chplmem.c:130-133 | subtracts in `size_t` and refreshes `maxMem` |
| `ChplMem.MemTracker.ResetMemStat` | runtime/src/chplmem.c:136-139 | both counters become 0 |
| `ChplMem.MemTracker.MemUsed` | runtime/src/chplmem.c:151-158 | the final statistics are suppressed even when the call fails; without `--memstat` it errors; otherwise it returns `totalMem` |
| `ChplMem.MemTracker.PrintMemStat` | runtime/src/chplmem.c:160-169 | without `--memstat` it errors; otherwise it prints both counters as `unsigned` and suppresses the final statistics |
| `ChplMem.MemTracker.PrintFinalMemStat` | runtime/src/chplmem.c:172-177 | the statistics are printed iff stats are live and nothing printed them before |
| `ChplMem.MemTracker.PrintMemTable` | runtime/src/chplmem.c:180-238 | without tracking it errors; otherwise it lists exactly the records above the threshold, in allocation order |
| `ChplMem.MemTracker.Malloc` | runtime/src/chplmem.c:399-414 | the new books, status, result and trace line are `Allocation` of the old books; the table stays sound |
| `ChplMem.MemTracker.Calloc` | runtime/src/chplmem.c:417-433 | as `Malloc`, with the `calloc` tag |
| `ChplMem.MemTracker.Allocate` | runtime/src/chplmem.c:403-413 | NULL is "out of memory"; otherwise trace, install and count as `Allocation` says |
| `ChplMem.MemTracker.Admit` | runtime/src/chplmem.c:407-412 | under tracking, install the block and then count it |
| `ChplMem.MemTracker.CountMemStat` | runtime/src/chplmem.c:409-411 | `increaseMemStat` only when stats are live; the table is unchanged |
| `ChplMem.MemTracker.Free` | runtime/src/chplmem.c:436-449 | the new books and status are `Release` of the old books; the table stays sound |
| `ChplMem.MemTracker.DebitMemStat` | runtime/src/chplmem.c:437-444 | with stats live, a tracked pointer's chunk is subtracted before removal; the table is unchanged |
| `ChplMem.MemTracker.Realloc` | runtime/src/chplmem.c:452-493 | the new books, status, result and trace line are `Reallocation` of the old books; the table stays sound |
| `ChplMem.MemTracker.Readmit` | runtime/src/chplmem.c:468-487 | the tracked part of a realloc is `Readmitted` |
| `ChplMem.MemTracker.Shift` | runtime/src/chplmem.c:470-483 | a NULL pointer installs the new block, a tracked one is moved, an exempt one leaves the table |
| `ChplMem.MemTracker.Move` | runtime/src/chplmem.c:473-480 | with stats live the old chunk is subtracted, then the record is rehashed by `updateMemory` |
| `MemRuns.Perform` | runtime/src/chplmem.c:399-493 | definition: one facade call on the books, dispatching to `Allocation`, `Release` or `Reallocation` — `MemRuns.PerformOk`, `PerformDrift` |
| `MemRuns.PerformOk` | runtime/src/chplmem.c:399-493 | every facade call keeps the table sound, given that the platform hands out blocks no record holds |
| `MemRuns.PerformDrift` | runtime/src/chplmem.c:399-493 | with tracking and stats in step, one call keeps the drift, or adds exactly its exempt chunk, and never lowers `maxMem` |
| `MemRuns.RunDrift` | runtime/src/chplmem.c:399-493 | a run of facade calls without an exempt realloc keeps the table sound, keeps the drift and never lowers `maxMem` |
| `MemRuns.RunBalanced` | runtime/src/chplmem.c:399-493 | with tracking and stats live from a balanced start, after any such run `totalMem` equals the sum of `number*size` over the records, in `size_t` |
| `ArrayLayout.Extent` | runtime/include/array.h:23-24 | definition: `(hi - lo + 1) / str` with C's truncating division (`CTypes.TruncDiv`) |
| `ArrayLayout.Blk` | runtime/include/array.h:19-25 | definition: 1 for the innermost dimension, else the next block times the next extent, as the downward loop computes — `ArrayLayout.BlkIsVolume`, `LayoutShape` |
| `ArrayLayout.Layout` | runtime/include/array.h:18-25 | definition of `dim_info` after the loop: `(lo, Blk)` per dimension — `ArrayLayout.LayoutShape`, `ArrayDescriptor.FillDims` |
| `ArrayLayout.Size` | runtime/include/array.h:26-28 | definition: `blk[0]` times dimension 0's extent, `d+1` being 0 after the loop — `ArrayLayout.SizeIsVolume`, `InBounds` |
| `ArrayLayout.Offset` | runtime/include/array.h:35-45 | definition: `Σ (i_d - off_d) * blk_d`, the stride not taking part — `ArrayLayout.InBounds`, `OffsetStep`, `RowMajor`, `StridedOverrun`, `ArrayDescriptor.Acc1`–`Acc3` |
| `ArrayLayout.BlkIsVolume` | runtime/include/array.h:18-25 | a dimension's block is the product of the extents of the dimensions inside it |
| `ArrayLayout.SizeIsVolume` | runtime/include/array.h:26-28 | the element count is the product of all extents |
| `ArrayLayout.LayoutShape` | runtime/include/array.h:18-25 | every `off` is its domain's `lo`; the innermost `blk` is 1; each outer `blk` is the next `blk` times the next extent, `(hi-lo+1)/str` truncated |
| `ArrayLayout.InBounds` | runtime/include/array.h:18-28 | with all strides 1 and every index in `lo..hi`, the offset lies in `[0, size)` |
| `ArrayLayout.OffsetStep` | runtime/include/array.h:35-45 | raising index `k` by one moves the offset by `blk_k` |
| `ArrayLayout.RowMajor` | runtime/include/array.h:38-45 | raising the last index by one moves the offset by one |
| `ArrayLayout.StridedOverrun` | runtime/include/array.h:23-28 | `0..8 by 2` gets size 4; index 4 maps to offset 4; index 8, in the domain, maps past the end |
| `ArrayLayout.RankTwoExample` | runtime/include/array.h:38-40 | `1..10 × 1..5` gets blocks (5, 1) and size 50, with offsets (1,1)→0, (2,1)→5, (1,2)→1 |
| `ArrayLayout.ArrayDescriptor.Init` | runtime/include/array.h:12-33 | `dim_info` becomes the layout of the first `rank` dimensions and `size` its element count; the request is `size * elemsize` in `size_t`; a NULL answer only sets the out-of-memory report, and the descriptor is set up all the same |
| `ArrayLayout.ArrayDescriptor.FillDims` | runtime/include/array.h:18-25 | the downward loop fills `dim_info` with the layout and leaves `d == -1` |
| `ArrayLayout.ArrayDescriptor.Acc1` | runtime/include/array.h:35-36 | the position is the one-dimensional offset `(i0 - off0) * blk0` |
| `ArrayLayout.ArrayDescriptor.Acc2` | runtime/include/array.h:38-40 | the position is the two-dimensional offset sum |
| `ArrayLayout.ArrayDescriptor.Acc3` | runtime/include/array.h:42-45 | the position is the three-dimensional offset sum |

Here the *drift* is `totalMem` minus the bytes the records hold, in `size_t`.
The *held bytes* are the sum of `number*size` over the order list.

## Left out

- **Output formatting.** The `fprintf` formatting of `printMemTable`,
  `printMemStat` and `printToMemLog` is I/O and is not modelled: banners,
  column widths, `%#x` addresses.
  - The table listing of `printMemTable` is modelled as the identities of
    the selected records, in order. Their printed size, number, chunk,
    address and description are read off those records, not produced as
    text.
  - The statistics line and the trace line are modelled as values: the
    counters, counts and addresses cast to `unsigned`.
- **`fopen`.** Opening the trace log is replaced by the `fopenOk`
  parameter.
- **The platform allocator.** `malloc`, `calloc`, `realloc` and `free` are
  foreign calls. Their answer is the parameter `raw`, and `free` is not
  modelled at all. Zero-filling in `calloc` does not matter to the
  bookkeeping.
- **What the platform promises.** The platform hands out blocks no record
  holds, and `realloc` may return the block it was given. This appears as a
  `requires` of `Realloc` and as the `MemRuns.Platform` predicate.
- **Calls into other runtime files.**
  - `isGlomStringsMem` becomes the `glom` parameter.
  - `printError` and `printInternalError` are not part of this model. They
    appear as a `Fatal` status, except for the two configuration warnings
    named below.
- **`hash` bytes.** The pointer's bytes are a parameter (`bytesOf`), so
  byte order and `char` signedness are left to it.
- **Descriptions.** Copying the description with `strcpy` into a fresh
  buffer is taken as keeping an immutable string.
- **The NULL trace log.** Writing to an unopened `memlog` is not modelled:
  the trace decision is returned, not written.
- **Concurrency.** The code is single-threaded.
- **C `int` overflow in `array.h`.** `off`, `blk` and `size` are unbounded
  integers. Only the final request to `malloc` is reduced to `size_t`.
- **Element access.** Access through `arr.base[...]` is modelled only as
  the computed position, not as memory.
- **Stale declarations.** The `/*** OLD ***/` `_DECL_ARRAY` typedefs and the
  `_init_array*` prototypes (runtime/include/array.h:47-62) have no bodies
  and are not modelled.
- **Hard-coded rank.** `_INIT_ARRAY`'s `rank = 1` is generalised to the
  descriptor's rank. The source instantiates rank 1 only.
- `ChplMem.MemTracker.SetMemthreshold`: the `printError` of
  runtime/src/chplmem.c:93 is taken to return, as a configuration warning.
  The method reports `warned` and still records the threshold. Were
  `printError` to end the program there, the threshold would stay unset.
- `ChplMem.MemTracker.SetMemtrace`: likewise, the `printError` of
  runtime/src/chplmem.c:107 is taken to return. Tracing stays requested
  and the log stays closed.
- `AllocTable.MemTable.Install`: the two fatal "Out of memory allocating
  table entry" paths of `installMemory` are not modelled. One is the
  `calloc` of the record (runtime/src/chplmem.c:263-268). The other is the
  `malloc` of the description (runtime/src/chplmem.c:282-288), reached only
  after the record is already linked. The runtime's own bookkeeping
  allocations are assumed to succeed, so `Install`, `Installed`,
  `Allocation` and `Reallocation` have no outcome for them.
- `AllocTable.MemTable.LinkEntry`: the same two out-of-memory stops are
  not modelled. The fresh record is always obtained and its description
  always copied.
- `ChplMem.MemTracker.InitMemTable`: called after tracked allocations, it
  empties the buckets while the order list keeps its records. The model
  states that the table is then no longer sound. It says nothing more
  about what later calls do with such a table.
- `MemRuns.RunBalanced`: stated only for runs with no exempt realloc.
  - Such a realloc adds its chunk to `totalMem` with no record to hold it.
  - That per-call effect is stated by `ChplMem.ReallocationKeeps` and
    `MemRuns.PerformDrift`.
- `MemRuns.RunDrift`: the same restriction to runs with no exempt realloc.

## Findings

| source | as written | input that shows it | evidently intended | confidence | as-written member | corrected member |
|---|---|---|---|---|---|---|
| runtime/src/chplmem.c:297-322 | `removeBucketEntry` sets `nextBucketEntry` to the successor of a non-matching record, then dereferences it on the next iteration whatever it is. It also dereferences `memTable[hashValue]` without checking it. So it dereferences NULL unless the target heads its chain or ends it. | Three tracked addresses in one bucket, with chain `[7, 8, 9]`; free the middle one, `8` | unlink the matching record from its chain wherever it sits, and leave the rest of the chain in order | not executed | `Buckets.MiddleOfThreeCrashes` (with `Buckets.AsWrittenDefinedIff`, `AllocTable.MemTable.RemoveBucketEntryAsWritten`) | `AllocTable.MemTable.RemoveBucketEntry` |

`removeMemory` and `updateMemory` use the corrected splice. As a consequence
of the defect, the internal error at line 319 can never be reached
(`Buckets.NeverVanishes`).
