/** What a tracked memory operation reports. `printError` in the runtime
    prints a message and ends the program, so a call that reaches it is
    modelled as stopping with `Fatal`; the state at that point is the
    state the operation leaves behind. */
module Outcomes {

  datatype MemError =
    | OutOfMemory(description: string)      // confirm(): the platform allocator returned NULL
    | ExceededLimit                         // increaseMemStat(): above --memmax
    | FreeUntracked                         // removeMemory(): "free memory that wasn't allocated"
    | ReallocUntracked(description: string) // _chpl_realloc(): untracked, non-exempt pointer
    | TableDisabled                         // printMemTable() without --memtrack
    | StatDisabled                          // printMemStat() without --memstat
    | MemUsedDisabled                       // _mem_used() without --memstat

  datatype Status = Ok | Fatal(error: MemError)
}
