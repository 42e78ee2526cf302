/** Sequences of tracked calls to `_chpl_malloc`, `_chpl_calloc`,
    `_chpl_free` and `_chpl_realloc` (runtime/src/chplmem.c:399-493): what
    the books keep from one call to the next. A call that reaches
    `printError` ends the program, so a run stops there. */
module MemRuns {
  import opened CTypes
  import opened Records
  import opened Outcomes
  import opened AllocTable
  import opened ChplMem
  import opened MemHash

  /** One facade call, with what the platform answered (`raw`) and, for a
      realloc, what `isGlomStringsMem` answered (`glom`). */
  datatype Call =
    | MallocCall(number: SizeT, size: SizeT, description: string, raw: Addr)
    | CallocCall(number: SizeT, size: SizeT, description: string, raw: Addr)
    | FreeCall(memAlloc: Addr)
    | ReallocCall(memAlloc: Addr, number: SizeT, size: SizeT, description: string, glom: bool, raw: Addr)

  /** The effect of one call on the books. */
  ghost function Perform(c: Config, b: Books, bytesOf: Addr -> seq<int>, call: Call): Outcome
    requires TableOk(b.table, bytesOf)
  {
    match call
    case MallocCall(number, size, description, raw) =>
      Allocation(c, b, bytesOf, "malloc", number, size, description, raw)
    case CallocCall(number, size, description, raw) =>
      Allocation(c, b, bytesOf, "calloc", number, size, description, raw)
    case FreeCall(memAlloc) =>
      Release(c, b, bytesOf, memAlloc)
    case ReallocCall(memAlloc, number, size, description, glom, raw) =>
      Reallocation(c, b, bytesOf, memAlloc, number, size, description, glom, raw)
  }

  /** The platform hands out blocks that no record holds, except that
      realloc may answer with the block it was given. */
  ghost predicate Platform(b: Books, call: Call)
  {
    match call
    case MallocCall(_, _, _, raw) => !HasAddr(b.table.records, raw)
    case CallocCall(_, _, _, raw) => !HasAddr(b.table.records, raw)
    case FreeCall(_) => true
    case ReallocCall(memAlloc, _, _, _, _, raw) => raw == NULL || raw == memAlloc || !HasAddr(b.table.records, raw)
  }

  /** The bytes a call counts with no record to hold them: a realloc of an
      exempt block. */
  ghost function Unheld(c: Config, b: Books, call: Call): SizeT
  {
    if call.ReallocCall? && SizeMul(call.number, call.size) != 0 && call.raw != NULL
       && Exempt(c, b, call.memAlloc, call.glom)
    then SizeMul(call.number, call.size) else 0
  }

  /** Every call keeps the table sound. */
  lemma PerformOk(c: Config, b: Books, bytesOf: Addr -> seq<int>, call: Call)
    requires TableOk(b.table, bytesOf) && Platform(b, call)
    ensures TableOk(Perform(c, b, bytesOf, call).books.table, bytesOf)
  {
    var t := Perform(c, b, bytesOf, call).books.table;
    match call
    case MallocCall(number, size, description, raw) =>
      AllocationTable(c, b, bytesOf, "malloc", number, size, description, raw);
      if raw != NULL && c.memtrack {
        InstalledOk(b.table, bytesOf, raw, number, size, description);
      }
    case CallocCall(number, size, description, raw) =>
      AllocationTable(c, b, bytesOf, "calloc", number, size, description, raw);
      if raw != NULL && c.memtrack {
        InstalledOk(b.table, bytesOf, raw, number, size, description);
      }
    case FreeCall(memAlloc) =>
      ReleaseTable(c, b, bytesOf, memAlloc);
      RemovedOk(b.table, bytesOf, memAlloc);
    case ReallocCall(memAlloc, number, size, description, glom, raw) =>
      ReallocationTable(c, b, bytesOf, memAlloc, number, size, description, glom, raw);
      if SizeMul(number, size) == 0 {
        ReleaseTable(c, b, bytesOf, memAlloc);
        RemovedOk(b.table, bytesOf, memAlloc);
      } else if raw != NULL && memAlloc == NULL {
        InstalledOk(b.table, bytesOf, raw, number, size, description);
      } else if raw != NULL && HasAddr(b.table.records, memAlloc) {
        RelinkOk(b.table, bytesOf, AddrId(b.table.records, memAlloc), raw, number, size);
      }
  }

  /** The table `_chpl_malloc` and `_chpl_calloc` leave. */
  lemma AllocationTable(c: Config, b: Books, bytesOf: Addr -> seq<int>, memType: string,
                        number: SizeT, size: SizeT, description: string, raw: Addr)
    requires |b.table.buckets| == HASHSIZE
    ensures Allocation(c, b, bytesOf, memType, number, size, description, raw).books.table
         == if raw == NULL || !c.memtrack then b.table else Installed(b.table, bytesOf, raw, number, size, description)
  {
  }

  /** The table `_chpl_free` leaves. */
  lemma ReleaseTable(c: Config, b: Books, bytesOf: Addr -> seq<int>, memAlloc: Addr)
    requires TableOk(b.table, bytesOf)
    ensures Release(c, b, bytesOf, memAlloc).books.table
         == if c.memtrack then Removed(b.table, bytesOf, memAlloc).0 else b.table
  {
  }

  /** The table `_chpl_realloc` leaves. */
  lemma ReallocationTable(c: Config, b: Books, bytesOf: Addr -> seq<int>, memAlloc: Addr, number: SizeT,
                          size: SizeT, description: string, glom: bool, raw: Addr)
    requires TableOk(b.table, bytesOf)
    ensures var t := Reallocation(c, b, bytesOf, memAlloc, number, size, description, glom, raw).books.table;
            if SizeMul(number, size) == 0 then t == Release(c, b, bytesOf, memAlloc).books.table
            else if !c.memtrack || raw == NULL then t == b.table
            else if memAlloc == NULL then t == Installed(b.table, bytesOf, raw, number, size, description)
            else if HasAddr(b.table.records, memAlloc) then
              t == Relink(b.table, bytesOf, AddrId(b.table.records, memAlloc), raw, number, size)
            else t == b.table
  {
  }

  /** With the counters in step, one call keeps the drift unless it has
      unheld bytes, which it adds; and it never lowers `maxMem`. */
  lemma PerformDrift(c: Config, b: Books, bytesOf: Addr -> seq<int>, call: Call)
    requires TableOk(b.table, bytesOf) && Platform(b, call) && Counting(c)
    ensures var o := Perform(c, b, bytesOf, call);
            && AllIn(o.books.table.order, o.books.table.records)
            && (Unheld(c, b, call) == 0 ==> DriftOf(o.books) == DriftOf(b))
            && (Unheld(c, b, call) != 0 ==> DriftOf(o.books) == Wrap64(DriftOf(b) + Unheld(c, b, call)))
            && b.maxMem <= o.books.maxMem
  {
    match call
    case MallocCall(number, size, description, raw) =>
      AllocationKeeps(c, b, bytesOf, "malloc", number, size, description, raw);
    case CallocCall(number, size, description, raw) =>
      AllocationKeeps(c, b, bytesOf, "calloc", number, size, description, raw);
    case FreeCall(memAlloc) =>
      ReleaseKeeps(c, b, bytesOf, memAlloc);
    case ReallocCall(memAlloc, number, size, description, glom, raw) =>
      ReallocationKeeps(c, b, bytesOf, memAlloc, number, size, description, glom, raw);
  }

  /** Every call of the run meets the platform's promise in the state it
      finds. */
  ghost predicate Admissible(c: Config, b: Books, bytesOf: Addr -> seq<int>, calls: seq<Call>)
    requires TableOk(b.table, bytesOf)
    decreases |calls|
  {
    calls == [] ||
    (Platform(b, calls[0]) &&
     var o := Perform(c, b, bytesOf, calls[0]);
     PerformOk(c, b, bytesOf, calls[0]);
     (o.st.Fatal? || Admissible(c, o.books, bytesOf, calls[1..])))
  }

  /** The books after a run, which stops at the first call that fails. */
  ghost function Run(c: Config, b: Books, bytesOf: Addr -> seq<int>, calls: seq<Call>): Books
    requires TableOk(b.table, bytesOf) && Admissible(c, b, bytesOf, calls)
    decreases |calls|
  {
    if calls == [] then b
    else
      var o := Perform(c, b, bytesOf, calls[0]);
      PerformOk(c, b, bytesOf, calls[0]);
      if o.st.Fatal? then o.books else Run(c, o.books, bytesOf, calls[1..])
  }

  /** The unheld bytes of the calls a run performs. */
  ghost function RunUnheld(c: Config, b: Books, bytesOf: Addr -> seq<int>, calls: seq<Call>): nat
    requires TableOk(b.table, bytesOf) && Admissible(c, b, bytesOf, calls)
    decreases |calls|
  {
    if calls == [] then 0
    else
      var o := Perform(c, b, bytesOf, calls[0]);
      PerformOk(c, b, bytesOf, calls[0]);
      Unheld(c, b, calls[0]) + (if o.st.Fatal? then 0 else RunUnheld(c, o.books, bytesOf, calls[1..]))
  }

  /** With the counters in step and no exempt realloc, a run keeps the
      table sound, keeps the difference between `totalMem` and the bytes
      the records hold, and never lowers `maxMem`. */
  lemma {:induction false} RunDrift(c: Config, b: Books, bytesOf: Addr -> seq<int>, calls: seq<Call>)
    requires TableOk(b.table, bytesOf) && Admissible(c, b, bytesOf, calls) && Counting(c)
    requires RunUnheld(c, b, bytesOf, calls) == 0
    ensures var b2 := Run(c, b, bytesOf, calls);
            && TableOk(b2.table, bytesOf)
            && DriftOf(b2) == DriftOf(b)
            && b.maxMem <= b2.maxMem
    decreases |calls|
  {
    if calls != [] {
      var o := Perform(c, b, bytesOf, calls[0]);
      PerformOk(c, b, bytesOf, calls[0]);
      PerformDrift(c, b, bytesOf, calls[0]);
      if !o.st.Fatal? {
        RunDrift(c, o.books, bytesOf, calls[1..]);
      }
    }
  }

  /** Tracking and stats live from a balanced start, with no exempt
      realloc on the way: after the run `totalMem` is the sum of
      `number * size` over the table's records, in `size_t`. */
  lemma RunBalanced(c: Config, b: Books, bytesOf: Addr -> seq<int>, calls: seq<Call>)
    requires TableOk(b.table, bytesOf) && Admissible(c, b, bytesOf, calls) && c.memstat
    requires b.totalMem == Wrap64(Held(b.table)) && RunUnheld(c, b, bytesOf, calls) == 0
    ensures var b2 := Run(c, b, bytesOf, calls);
            TableOk(b2.table, bytesOf) && b2.totalMem == Wrap64(Held(b2.table))
  {
    RunDrift(c, b, bytesOf, calls);
    var b2 := Run(c, b, bytesOf, calls);
    BalanceKept(b.totalMem, Held(b.table), b2.totalMem, Held(b2.table));
  }

  /** Equal drifts: one counter balanced means the other is too. */
  lemma BalanceKept(t1: SizeT, h1: nat, t2: SizeT, h2: nat)
    requires Wrap64(t1 - h1) == Wrap64(t2 - h2) && t1 == Wrap64(h1)
    ensures t2 == Wrap64(h2)
  {
    Balanced(t1, h1);
    Balanced(t2, h2);
  }
}
