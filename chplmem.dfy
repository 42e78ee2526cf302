/** The memory tracker of runtime/src/chplmem.c around the allocation
    table: the command-line flags and their latch, the byte counters, the
    statistics and table listings, the trace-log decision, and the tracked
    `malloc`/`calloc`/`free`/`realloc` (lines 50-177, 380-493). */
module ChplMem {
  import opened CTypes
  import opened Lists
  import opened Records
  import opened Outcomes
  import opened AllocTable
  import opened MemHash

  /** An `(unsigned)` cast of a `size_t` or pointer value. */
  function ToUnsigned(x: nat): (u: nat)
    ensures u < UINT_MOD
    ensures x < UINT_MOD ==> u == x
  {
    x % UINT_MOD
  }

  /** The line `printMemStat` prints: both counters cast to `unsigned`. */
  datatype StatLine = StatLine(totalMem: nat, maxMem: nat)

  /** A line of the trace log: the one-address form, or the two-address
      form of a realloc that moved the block. Counts and addresses are
      printed as `unsigned`. */
  datatype LogLine =
    | At(memType: string, number: nat, size: nat, description: string, memAlloc: nat)
    | Moved(memType: string, number: nat, size: nat, description: string, memAlloc: nat, moreMemAlloc: nat)

  /** `printToMemLog`: a line is written when the chunk reaches the
      threshold, compared as unsigned 64-bit values; it names both
      addresses only when the second is non-NULL and differs. */
  function TraceLine(thresholdValue: Int64, number: SizeT, size: SizeT, description: string,
                     memType: string, memAlloc: Addr, moreMemAlloc: Addr): (r: Option<LogLine>)
    ensures r.Some? <==> SizeMul(number, size) >= Int64ToSize(thresholdValue)
    ensures r.Some? ==> (r.value.Moved? <==> moreMemAlloc != NULL && moreMemAlloc != memAlloc)
    ensures r.Some? ==> r.value.memType == memType && r.value.description == description
                        && r.value.number == ToUnsigned(number) && r.value.size == ToUnsigned(size)
                        && r.value.memAlloc == ToUnsigned(memAlloc)
  {
    if SizeMul(number, size) >= Int64ToSize(thresholdValue) then
      if moreMemAlloc != NULL && moreMemAlloc != memAlloc then
        Some(Moved(memType, ToUnsigned(number), ToUnsigned(size), description, ToUnsigned(memAlloc), ToUnsigned(moreMemAlloc)))
      else
        Some(At(memType, ToUnsigned(number), ToUnsigned(size), description, ToUnsigned(memAlloc)))
    else None
  }

  /** With the default threshold of 0 every call is traced, whatever its
      size: no `size_t` is below 0. */
  lemma DefaultThresholdTracesAll(number: SizeT, size: SizeT, description: string, memType: string,
                                  memAlloc: Addr, moreMemAlloc: Addr)
    ensures TraceLine(0, number, size, description, memType, memAlloc, moreMemAlloc).Some?
  {
  }

  /** A negative threshold converts to a huge unsigned value, so only
      chunks at least that large are traced. */
  lemma NegativeThresholdTracesLittle(number: SizeT, size: SizeT, description: string, memType: string,
                                      memAlloc: Addr, moreMemAlloc: Addr)
    requires SizeMul(number, size) < SIZE_MOD - 1
    ensures TraceLine(-1, number, size, description, memType, memAlloc, moreMemAlloc).None?
  {
    assert Int64ToSize(-1) == SIZE_MOD - 1;
  }

  /** `totalMem` matches the bytes held by the records, counted in
      `size_t`, exactly when the difference wraps to 0. */
  lemma Balanced(total: SizeT, live: nat)
    ensures Wrap64(total - live) == 0 <==> total == Wrap64(live)
  {
    var q := live / SIZE_MOD;
    assert live == q * SIZE_MOD + Wrap64(live);
    WrapMultiple(total - Wrap64(live), -q);
    assert total - live == (total - Wrap64(live)) - q * SIZE_MOD;
    assert -SIZE_MOD < total - Wrap64(live) < SIZE_MOD;
  }

  /** The live flags and limits the tracked calls read. */
  datatype Config = Config(memstat: bool, memtrack: bool, memtrace: bool, memmaxValue: Int64, memthresholdValue: Int64)

  /** What the tracked calls change: the table and the two counters. */
  datatype Books = Books(table: Table, totalMem: SizeT, maxMem: SizeT)

  /** The effect of one tracked call: the books it leaves, how it ends,
      the pointer it returns and the trace line it writes. */
  datatype Outcome = Outcome(books: Books, st: Status, r: Addr, logged: Option<LogLine>)

  /** `updateMaxMem` on values. */
  function Peak(totalMem: SizeT, maxMem: SizeT): (m: SizeT)
    ensures m >= totalMem && m >= maxMem && (m == totalMem || m == maxMem)
  {
    if totalMem > maxMem then totalMem else maxMem
  }

  /** `increaseMemStat` on values. */
  function Increase(c: Config, b: Books, chunk: SizeT): (Books, Status)
  {
    var total := SizeAdd(b.totalMem, chunk);
    if c.memmaxValue != 0 && total > Int64ToSize(c.memmaxValue) then (b.(totalMem := total), Fatal(ExceededLimit))
    else (b.(totalMem := total, maxMem := Peak(total, b.maxMem)), Ok)
  }

  /** `decreaseMemStat` on values. */
  function Decrease(b: Books, chunk: SizeT): Books
  {
    var total := SizeSub(b.totalMem, chunk);
    b.(totalMem := total, maxMem := Peak(total, b.maxMem))
  }

  /** The last step of every tracked allocation: with stats live,
      `increaseMemStat`. */
  function Count(c: Config, b: Books, chunk: SizeT): (Books, Status)
  {
    if c.memstat then Increase(c, b, chunk) else (b, Ok)
  }

  /** `_chpl_malloc` and `_chpl_calloc` after the platform allocator
      returned `raw`: confirm, trace, install, count. */
  ghost function Allocation(c: Config, b: Books, bytesOf: Addr -> seq<int>, memType: string,
                            number: SizeT, size: SizeT, description: string, raw: Addr): Outcome
    requires |b.table.buckets| == HASHSIZE
  {
    if raw == NULL then Outcome(b, Fatal(OutOfMemory(description)), NULL, None)
    else
      var logged := if c.memtrace then TraceLine(c.memthresholdValue, number, size, description, memType, raw, NULL) else None;
      var (b2, st) := Admitted(c, b, bytesOf, number, size, description, raw);
      Outcome(b2, st, raw, logged)
  }

  /** The tracked part of `_chpl_malloc` and `_chpl_calloc`: install the
      block, then count it. */
  ghost function Admitted(c: Config, b: Books, bytesOf: Addr -> seq<int>, number: SizeT, size: SizeT,
                          description: string, raw: Addr): (Books, Status)
    requires |b.table.buckets| == HASHSIZE
  {
    if !c.memtrack then (b, Ok)
    else Count(c, b.(table := Installed(b.table, bytesOf, raw, number, size, description)), SizeMul(number, size))
  }

  /** The first step of a tracked `_chpl_free`: with stats live a tracked
      record's chunk is subtracted. */
  ghost function Debited(c: Config, b: Books, memAlloc: Addr): Books
  {
    if c.memstat && HasAddr(b.table.records, memAlloc)
    then Decrease(b, Chunk(b.table.records[AddrId(b.table.records, memAlloc)])) else b
  }

  /** `_chpl_free`: with stats live a tracked record's chunk is subtracted
      first, then `removeMemory` runs, which rejects an untracked pointer. */
  ghost function Release(c: Config, b: Books, bytesOf: Addr -> seq<int>, memAlloc: Addr): Outcome
    requires TableOk(b.table, bytesOf)
  {
    if !c.memtrack then Outcome(b, Ok, NULL, None)
    else
      var b1 := Debited(c, b, memAlloc);
      var (t, st) := Removed(b1.table, bytesOf, memAlloc);
      Outcome(b1.(table := t), st, NULL, None)
  }

  /** The pointer of a realloc is untracked but exempt: the string
      allocator's memory. */
  ghost predicate Exempt(c: Config, b: Books, memAlloc: Addr, glom: bool)
  {
    c.memtrack && memAlloc != NULL && !HasAddr(b.table.records, memAlloc) && glom
  }

  /** `_chpl_realloc`, with `glom` the answer of `isGlomStringsMem` and
      `raw` what the platform's `realloc` returned. */
  ghost function Reallocation(c: Config, b: Books, bytesOf: Addr -> seq<int>, memAlloc: Addr, number: SizeT,
                              size: SizeT, description: string, glom: bool, raw: Addr): Outcome
    requires TableOk(b.table, bytesOf)
  {
    var newChunk := SizeMul(number, size);
    if newChunk == 0 then Release(c, b, bytesOf, memAlloc)
    else if c.memtrack && !HasAddr(b.table.records, memAlloc) && memAlloc != NULL && !glom then
      Outcome(b, Fatal(ReallocUntracked(description)), NULL, None)
    else if raw == NULL then Outcome(b, Fatal(OutOfMemory(description)), NULL, None)
    else
      var logged := if c.memtrace then TraceLine(c.memthresholdValue, number, size, description, "realloc", memAlloc, raw) else None;
      var (b2, st) := Readmitted(c, b, bytesOf, memAlloc, number, size, description, raw);
      Outcome(b2, st, raw, if st.Ok? then logged else None)
  }

  /** The tracked part of `_chpl_realloc` once the new block is confirmed:
      move the record, then count the new chunk. */
  ghost function Readmitted(c: Config, b: Books, bytesOf: Addr -> seq<int>, memAlloc: Addr, number: SizeT,
                            size: SizeT, description: string, raw: Addr): (Books, Status)
    requires TableOk(b.table, bytesOf)
  {
    if !c.memtrack then (b, Ok)
    else Count(c, Shifted(c, b, bytesOf, memAlloc, number, size, description, raw), SizeMul(number, size))
  }

  /** The tracked part of `_chpl_realloc` before the new chunk is counted:
      a NULL pointer installs the new block; a tracked one has its chunk
      subtracted when stats are live and is rehashed by `updateMemory`; an
      exempt one leaves the table alone. */
  ghost function Shifted(c: Config, b: Books, bytesOf: Addr -> seq<int>, memAlloc: Addr, number: SizeT,
                         size: SizeT, description: string, raw: Addr): Books
    requires TableOk(b.table, bytesOf)
  {
    if memAlloc == NULL then b.(table := Installed(b.table, bytesOf, raw, number, size, description))
    else if HasAddr(b.table.records, memAlloc) then
      var id := AddrId(b.table.records, memAlloc);
      var bd := if c.memstat then Decrease(b, Chunk(b.table.records[id])) else b;
      bd.(table := Relink(bd.table, bytesOf, id, raw, number, size))
    else b
  }

  /** The bytes `totalMem` counts beyond those the records hold. */
  ghost function DriftOf(b: Books): SizeT
    requires AllIn(b.table.order, b.table.records)
  {
    Wrap64(b.totalMem - Held(b.table))
  }

  /** The counters are in step with the table: stats are live whenever
      tracking is, or tracking is off. */
  predicate Counting(c: Config)
  {
    c.memstat || !c.memtrack
  }

  /** Moving both sides of a difference by the same amount, with one side
      wrapped, leaves the wrapped difference alone. */
  lemma WrapShift(x: int, y: int, d: int)
    ensures Wrap64(Wrap64(x + d) - (y + d)) == Wrap64(x - y)
  {
    WrapAdd(x + d, -(y + d));
  }

  /** Taking one chunk off a wrapped counter and adding another moves it
      by their difference. */
  lemma SubThenAdd(x: SizeT, o: SizeT, n: SizeT, d: int)
    requires d == n as int - o as int
    ensures SizeAdd(SizeSub(x, o), n) == Wrap64(x + d)
  {
    WrapAdd(x as int - o as int, n);
  }

  /** Taking one chunk off the counter and adding another, while the held
      bytes move by their difference, leaves the drift alone. */
  lemma DriftMoved(b: Books, b2: Books, oldChunk: SizeT, newChunk: SizeT, d: int)
    requires AllIn(b.table.order, b.table.records) && AllIn(b2.table.order, b2.table.records)
    requires d == newChunk as int - oldChunk as int
    requires b2.totalMem == SizeAdd(SizeSub(b.totalMem, oldChunk), newChunk)
    requires Held(b2.table) == Held(b.table) + d
    ensures DriftOf(b2) == DriftOf(b)
  {
    SubThenAdd(b.totalMem, oldChunk, newChunk, d);
    DriftKept(b, b2, d);
  }

  /** When the counter and the held bytes move by the same amount, the
      drift stays. */
  lemma DriftKept(b: Books, b1: Books, d: int)
    requires AllIn(b.table.order, b.table.records) && AllIn(b1.table.order, b1.table.records)
    requires b1.totalMem == Wrap64(b.totalMem + d) && Held(b1.table) == Held(b.table) + d
    ensures DriftOf(b1) == DriftOf(b)
  {
    WrapShift(b.totalMem, Held(b.table), d);
  }

  /** A counter increase keeps the table and moves the drift by the
      chunk; a successful one keeps `maxMem` at or above `totalMem`, and
      none lowers it. */
  lemma IncreaseKeeps(c: Config, b: Books, chunk: SizeT)
    requires AllIn(b.table.order, b.table.records)
    ensures var (b1, st) := Increase(c, b, chunk);
            && b1.table == b.table && b1.totalMem == SizeAdd(b.totalMem, chunk)
            && DriftOf(b1) == Wrap64(DriftOf(b) + chunk)
            && (st.Ok? ==> b1.totalMem <= b1.maxMem)
            && b.maxMem <= b1.maxMem
  {
    AddThenDrift(b.totalMem, Held(b.table), chunk);
  }

  /** Adding to a wrapped counter moves its wrapped distance from `h` by
      the same amount. */
  lemma AddThenDrift(t: SizeT, h: int, k: SizeT)
    ensures Wrap64(SizeAdd(t, k) - h) == Wrap64(Wrap64(t - h) + k)
  {
    WrapAdd(t + k, -h);
    WrapAdd(t - h, k);
  }

  /** A counter decrease keeps the table, keeps `maxMem` at or above
      `totalMem`, and does not lower it. */
  lemma DecreaseKeeps(b: Books, chunk: SizeT)
    ensures var b1 := Decrease(b, chunk);
            b1.table == b.table && b1.totalMem == SizeSub(b.totalMem, chunk)
            && b1.totalMem <= b1.maxMem && b.maxMem <= b1.maxMem
  {
  }

  /** Counting a chunk that a new record holds keeps the drift; a
      successful count keeps `maxMem` at or above `totalMem`, and none
      lowers it. */
  lemma FreshCounted(c: Config, b: Books, b1: Books, chunk: SizeT)
    requires AllIn(b.table.order, b.table.records) && AllIn(b1.table.order, b1.table.records)
    requires b1.totalMem == b.totalMem && b1.maxMem == b.maxMem && Held(b1.table) == Held(b.table) + chunk
    ensures var (b2, st) := Increase(c, b1, chunk);
            && b2.table == b1.table && DriftOf(b2) == DriftOf(b)
            && (st.Ok? ==> b2.totalMem <= b2.maxMem)
            && b.maxMem <= b2.maxMem
  {
    IncreaseKeeps(c, b1, chunk);
    DriftKept(b, Increase(c, b1, chunk).0, chunk);
  }

  /** `_chpl_malloc`/`_chpl_calloc`: with the counters in step and a
      fresh address they keep the drift; a call that returns
      keeps `maxMem` at or above `totalMem`, and none lowers it. */
  lemma AllocationKeeps(c: Config, b: Books, bytesOf: Addr -> seq<int>, memType: string,
                        number: SizeT, size: SizeT, description: string, raw: Addr)
    requires TableOk(b.table, bytesOf)
    ensures var o := Allocation(c, b, bytesOf, memType, number, size, description, raw);
            && AllIn(o.books.table.order, o.books.table.records)
            && (Counting(c) && !HasAddr(b.table.records, raw) ==> DriftOf(o.books) == DriftOf(b))
            && (b.totalMem <= b.maxMem && o.st.Ok? ==> o.books.totalMem <= o.books.maxMem)
            && b.maxMem <= o.books.maxMem
  {
    var o := Allocation(c, b, bytesOf, memType, number, size, description, raw);
    if raw == NULL || !c.memtrack {
      assert o.books == b;
    } else {
      var t1 := Installed(b.table, bytesOf, raw, number, size, description);
      InstalledOk(b.table, bytesOf, raw, number, size, description);
      var b1 := b.(table := t1);
      if !c.memstat {
        assert o.books == b1;
      } else {
        var chunk := SizeMul(number, size);
        assert o.books == Increase(c, b1, chunk).0 && o.st == Increase(c, b1, chunk).1;
        if !HasAddr(b.table.records, raw) {
          FreshCounted(c, b, b1, chunk);
        } else {
          IncreaseKeeps(c, b1, chunk);
        }
      }
    }
  }

  /** What `_chpl_realloc` does before and around the move: a zero-sized
      request frees the block and answers NULL; under tracking an unknown,
      non-exempt pointer is refused before the platform's realloc, with
      nothing booked and nothing traced; an exempt block keeps the table
      as it was; and a trace line is written only after a count that
      succeeded. */
  lemma ReallocationCases(c: Config, b: Books, bytesOf: Addr -> seq<int>, memAlloc: Addr, number: SizeT,
                          size: SizeT, description: string, glom: bool, raw: Addr)
    requires TableOk(b.table, bytesOf)
    ensures var o := Reallocation(c, b, bytesOf, memAlloc, number, size, description, glom, raw);
            && (SizeMul(number, size) == 0 ==> o == Release(c, b, bytesOf, memAlloc) && o.r == NULL)
            && (SizeMul(number, size) != 0 && c.memtrack && memAlloc != NULL
                && !HasAddr(b.table.records, memAlloc) && !glom ==>
                  o == Outcome(b, Fatal(ReallocUntracked(description)), NULL, None))
            && (SizeMul(number, size) != 0 && Exempt(c, b, memAlloc, glom) ==> o.books.table == b.table)
            && (o.logged.Some? ==> o.st.Ok? && c.memtrace && SizeMul(number, size) != 0 && o.r == raw)
  {
    if !c.memtrack || SizeMul(number, size) == 0 || raw == NULL {
    } else if Exempt(c, b, memAlloc, glom) {
      var b1 := Shifted(c, b, bytesOf, memAlloc, number, size, description, raw);
      assert b1 == b;
      IncreaseKeeps(c, b1, SizeMul(number, size));
    }
  }

  /** `_chpl_malloc` and `_chpl_calloc` write their trace line before the
      count, so a request over the limit is still traced; only a NULL
      block goes untraced. */
  lemma AllocationTraced(c: Config, b: Books, bytesOf: Addr -> seq<int>, memType: string,
                         number: SizeT, size: SizeT, description: string, raw: Addr)
    requires |b.table.buckets| == HASHSIZE
    ensures var o := Allocation(c, b, bytesOf, memType, number, size, description, raw);
            o.logged == if raw == NULL || !c.memtrace then None
                        else TraceLine(c.memthresholdValue, number, size, description, memType, raw, NULL)
  {
  }

  /** `_chpl_free`: with the counters in step it keeps the drift; `maxMem` stays at or above `totalMem` and is never
      lowered; and under tracking, freeing NULL is an error. */
  lemma ReleaseKeeps(c: Config, b: Books, bytesOf: Addr -> seq<int>, memAlloc: Addr)
    requires TableOk(b.table, bytesOf)
    ensures var o := Release(c, b, bytesOf, memAlloc);
            && (Counting(c) ==> DriftOf(o.books) == DriftOf(b))
            && (b.totalMem <= b.maxMem ==> o.books.totalMem <= o.books.maxMem)
            && b.maxMem <= o.books.maxMem
            && (c.memtrack && memAlloc == NULL ==> o.st == Fatal(FreeUntracked))
  {
    var o := Release(c, b, bytesOf, memAlloc);
    if c.memtrack {
      RemovedOk(b.table, bytesOf, memAlloc);
      var t1 := Removed(b.table, bytesOf, memAlloc).0;
      if c.memstat && HasAddr(b.table.records, memAlloc) {
        var ch := Chunk(b.table.records[AddrId(b.table.records, memAlloc)]);
        var b1 := Decrease(b, ch);
        DecreaseKeeps(b, ch);
        assert o.books == b1.(table := t1);
        DriftKept(b, o.books, -(ch as int));
      } else {
        assert o.books == b.(table := t1);
      }
    }
  }

  /** `_chpl_realloc`: with the counters in step the drift stays, except
      that an exempt pointer's new chunk is counted with no record to hold
      it; a call that returns keeps `maxMem` at or above `totalMem`, and
      none lowers it. The platform's `realloc` hands back the same block,
      NULL, or one nothing else holds. */
  lemma ReallocationKeeps(c: Config, b: Books, bytesOf: Addr -> seq<int>, memAlloc: Addr, number: SizeT,
                          size: SizeT, description: string, glom: bool, raw: Addr)
    requires TableOk(b.table, bytesOf)
    requires raw == NULL || raw == memAlloc || !HasAddr(b.table.records, raw)
    ensures var o := Reallocation(c, b, bytesOf, memAlloc, number, size, description, glom, raw);
            && AllIn(o.books.table.order, o.books.table.records)
            && (Counting(c) ==>
                  DriftOf(o.books) == if SizeMul(number, size) != 0 && raw != NULL && Exempt(c, b, memAlloc, glom)
                                      then Wrap64(DriftOf(b) + SizeMul(number, size)) else DriftOf(b))
            && (b.totalMem <= b.maxMem && o.st.Ok? ==> o.books.totalMem <= o.books.maxMem)
            && b.maxMem <= o.books.maxMem
  {
    var o := Reallocation(c, b, bytesOf, memAlloc, number, size, description, glom, raw);
    if SizeMul(number, size) == 0 {
      ReleaseKeeps(c, b, bytesOf, memAlloc);
    } else if (c.memtrack && !HasAddr(b.table.records, memAlloc) && memAlloc != NULL && !glom) || raw == NULL {
      assert o.books == b;
    } else {
      ReadmittedKeeps(c, b, bytesOf, memAlloc, number, size, description, raw);
      var r := Readmitted(c, b, bytesOf, memAlloc, number, size, description, raw);
      assert o.books == r.0 && o.st == r.1;
    }
  }

  /** The tracked part of `_chpl_realloc`: with the counters in step the
      drift stays, except that an exempt block's new chunk is counted with
      no record to hold it; a successful count keeps `maxMem` at or above
      `totalMem`, and none lowers it. */
  lemma ReadmittedKeeps(c: Config, b: Books, bytesOf: Addr -> seq<int>, memAlloc: Addr, number: SizeT,
                        size: SizeT, description: string, raw: Addr)
    requires TableOk(b.table, bytesOf)
    requires raw != NULL && (raw == memAlloc || !HasAddr(b.table.records, raw))
    ensures var (b2, st) := Readmitted(c, b, bytesOf, memAlloc, number, size, description, raw);
            && AllIn(b2.table.order, b2.table.records)
            && (Counting(c) ==>
                  DriftOf(b2) == if c.memtrack && memAlloc != NULL && !HasAddr(b.table.records, memAlloc)
                                 then Wrap64(DriftOf(b) + SizeMul(number, size)) else DriftOf(b))
            && (b.totalMem <= b.maxMem && st.Ok? ==> b2.totalMem <= b2.maxMem)
            && b.maxMem <= b2.maxMem
  {
    var newChunk := SizeMul(number, size);
    if !c.memtrack {
    } else if memAlloc == NULL {
      InstalledOk(b.table, bytesOf, raw, number, size, description);
      var b1 := b.(table := Installed(b.table, bytesOf, raw, number, size, description));
      if c.memstat {
        FreshCounted(c, b, b1, newChunk);
      }
    } else if HasAddr(b.table.records, memAlloc) {
      RelocatedKeeps(c, b, bytesOf, memAlloc, number, size, description, raw);
    } else if c.memstat {
      IncreaseKeeps(c, b, newChunk);
    }
  }

  /** Moving a tracked block with the counters in step keeps the drift;
      the counters keep `maxMem` at or above `totalMem` unless the limit
      stops the call, and never lower it. */
  lemma RelocatedKeeps(c: Config, b: Books, bytesOf: Addr -> seq<int>, memAlloc: Addr, number: SizeT,
                       size: SizeT, description: string, raw: Addr)
    requires TableOk(b.table, bytesOf) && HasAddr(b.table.records, memAlloc)
    requires raw != NULL && (raw == memAlloc || !HasAddr(b.table.records, raw))
    ensures var (b2, st) := Count(c, Shifted(c, b, bytesOf, memAlloc, number, size, description, raw), SizeMul(number, size));
            && AllIn(b2.table.order, b2.table.records)
            && (c.memstat ==> DriftOf(b2) == DriftOf(b))
            && (b.totalMem <= b.maxMem && st.Ok? ==> b2.totalMem <= b2.maxMem)
            && b.maxMem <= b2.maxMem
  {
    var id := AddrId(b.table.records, memAlloc);
    var oldChunk := Chunk(b.table.records[id]);
    var newChunk := SizeMul(number, size);
    RelinkOk(b.table, bytesOf, id, raw, number, size);
    var t1 := Relink(b.table, bytesOf, id, raw, number, size);
    if c.memstat {
      var bd := Decrease(b, oldChunk);
      DecreaseKeeps(b, oldChunk);
      var b1 := bd.(table := t1);
      IncreaseKeeps(c, b1, newChunk);
      var b2 := Increase(c, b1, newChunk).0;
      var d := newChunk as int - oldChunk as int;
      assert b2.table == t1;
      assert Held(b2.table) == Held(b.table) + d;
      assert b2.totalMem == SizeAdd(SizeSub(b.totalMem, oldChunk), newChunk);
      DriftMoved(b, b2, oldChunk, newChunk, d);
    }
  }

  /** The loop of `printMemTable`: walk the records from `first` through
      `nextInstalled` and keep those whose chunk is above `threshold`. */
  method ListAbove(order: seq<Id>, records: map<Id, Entry>, threshold: SizeT) returns (listed: seq<Id>)
    requires AllIn(order, records)
    ensures listed == Above(order, records, threshold)
  {
    listed := [];
    var i := 0;
    while i < |order|
      invariant 0 <= i <= |order|
      invariant listed == Above(order[..i], records, threshold)
    {
      var memEntry := order[i];
      var chunk := Chunk(records[memEntry]);
      assert order[..i + 1] == order[..i] + [memEntry];
      AboveSnoc(order[..i], memEntry, records, threshold);
      if chunk > threshold {
        listed := listed + [memEntry];
      }
      i := i + 1;
    }
    assert order[..i] == order;
  }

  class MemTracker {
    /** The table behind `memTable`, `first` and `last`. */
    const table: MemTable
    var memstat: bool
    var memstatSet: bool
    var memthreshold: bool
    var memtrace: bool
    var memtraceSet: bool
    var memtrack: bool
    var memtrackSet: bool
    var memmaxValue: Int64
    var memthresholdValue: Int64
    /** Whether `memlog` is an open stream. */
    var memlogOpen: bool
    var totalMem: SizeT
    var maxMem: SizeT
    var alreadyPrintingStat: bool

    /** The flag latch: `--memstat` implies `--memtrack`, both as set on the
        command line and as made live by `startTrackingMem`. */
    ghost predicate Latched()
      reads this
    {
      && (memstatSet ==> memtrackSet)
      && (memstat ==> memtrack)
    }

    /** The bytes `totalMem` counts beyond those the records hold, in
        `size_t`: 0 while the counter and the table agree. */
    ghost function Drift(): SizeT
      reads this, table, table.memTable
      requires table.Valid()
    {
      DriftOf(Ledger())
    }

    /** The live flags and limits, as a value. */
    ghost function Cfg(): Config
      reads this
    {
      Config(memstat, memtrack, memtrace, memmaxValue, memthresholdValue)
    }

    /** The table and both counters, as a value. */
    ghost function Ledger(): Books
      reads this, table, table.memTable
    {
      Books(table.Snapshot(), totalMem, maxMem)
    }

    /** The static state at program start: every flag off, both counters
        0, an empty table. */
    constructor (bytesOf: Addr -> seq<int>)
      ensures Latched() && table.Valid() && fresh(table) && fresh(table.memTable) && table.bytesOf == bytesOf
      ensures table.Snapshot() == Table(seq(HASHSIZE, _ => []), map[], [], None, None, 0)
      ensures !memstat && !memstatSet && !memthreshold && !memtrace && !memtraceSet && !memtrack && !memtrackSet
      ensures memmaxValue == 0 && memthresholdValue == 0 && !memlogOpen && !alreadyPrintingStat
      ensures totalMem == 0 && maxMem == 0 && Drift() == 0
    {
      table := new MemTable(bytesOf);
      memstat, memstatSet, memthreshold := false, false, false;
      memtrace, memtraceSet, memtrack, memtrackSet := false, false, false, false;
      memmaxValue, memthresholdValue := 0, 0;
      memlogOpen := false;
      totalMem, maxMem := 0, 0;
      alreadyPrintingStat := false;
    }

    /** `initMemTable`: with tracking live, every bucket is emptied and
        nothing else changes. The table stays sound exactly when that loses
        no record: at start-up, or with tracking off. */
    method InitMemTable()
      requires table.Valid()
      modifies table.memTable
      ensures table.memTable[..] == if memtrack then seq(HASHSIZE, _ => []) else old(table.memTable[..])
      ensures table.Valid() <==> !memtrack || table.records == map[]
    {
      if memtrack {
        table.ClearBuckets();
        if table.records != map[] {
          var id :| id in table.records;
          assert table.memTable[table.Bucket(table.records[id].memAlloc)] == [];
        }
      }
    }

    /** `setMemmax`: record the limit and imply `--memstat`. */
    method SetMemmax(value: Int64)
      requires Latched()
      modifies this`memmaxValue, this`memstatSet, this`memtrackSet
      ensures memmaxValue == value && memstatSet && memtrackSet
      ensures Latched()
    {
      memmaxValue := value;
      SetMemstat();
    }

    /** `setMemstat`: `--memstat` also turns on `--memtrack`. */
    method SetMemstat()
      requires Latched()
      modifies this`memstatSet, this`memtrackSet
      ensures memstatSet && memtrackSet
      ensures Latched()
    {
      memstatSet := true;
      memtrackSet := true;
    }

    /** `setMemtrack`. */
    method SetMemtrack()
      requires Latched()
      modifies this`memtrackSet
      ensures memtrackSet
      ensures Latched()
    {
      memtrackSet := true;
    }

    /** `setMemthreshold`: without an open trace log the runtime warns and
        goes on. */
    method SetMemthreshold(value: Int64) returns (warned: bool)
      modifies this`memthreshold, this`memthresholdValue
      ensures warned == !memlogOpen
      ensures memthreshold && memthresholdValue == value
    {
      warned := !memlogOpen;
      memthreshold := true;
      memthresholdValue := value;
    }

    /** `setMemtrace`: tracing is requested whether or not a log name is
        given; `fopenOk` is whether `fopen` of the named log succeeded, and a
        failure is a warning. */
    method SetMemtrace(memlogname: Option<string>, fopenOk: bool) returns (warned: bool)
      modifies this`memtraceSet, this`memlogOpen
      ensures memtraceSet
      ensures memlogOpen == if memlogname.Some? then fopenOk else old(memlogOpen)
      ensures warned <==> memlogname.Some? && !fopenOk
    {
      memtraceSet := true;
      warned := false;
      if memlogname.Some? {
        memlogOpen := fopenOk;
        warned := !fopenOk;
      }
    }

    /** `startTrackingMem`: the flags set on the command line go live. */
    method StartTrackingMem()
      requires Latched()
      modifies this`memstat, this`memtrack, this`memtrace
      ensures memstat == memstatSet && memtrack == memtrackSet && memtrace == memtraceSet
      ensures Latched()
    {
      memstat := memstatSet;
      memtrack := memtrackSet;
      memtrace := memtraceSet;
    }

    /** `updateMaxMem`: `maxMem` becomes the larger of itself and `totalMem`. */
    method UpdateMaxMem()
      modifies this`maxMem
      ensures maxMem >= totalMem && maxMem >= old(maxMem)
      ensures maxMem == totalMem || maxMem == old(maxMem)
    {
      if totalMem > maxMem {
        maxMem := totalMem;
      }
    }

    /** `increaseMemStat`: add in `size_t`; above a non-zero `--memmax`,
        compared as unsigned 64-bit values, the runtime stops before it
        updates `maxMem`. */
    method IncreaseMemStat(chunk: SizeT) returns (st: Status)
      modifies this`totalMem, this`maxMem
      ensures totalMem == SizeAdd(old(totalMem), chunk)
      ensures st == if memmaxValue != 0 && totalMem > Int64ToSize(memmaxValue) then Fatal(ExceededLimit) else Ok
      ensures st.Ok? ==> maxMem >= totalMem && maxMem >= old(maxMem) && (maxMem == totalMem || maxMem == old(maxMem))
      ensures st.Fatal? ==> maxMem == old(maxMem)
    {
      totalMem := SizeAdd(totalMem, chunk);
      if memmaxValue != 0 && totalMem > Int64ToSize(memmaxValue) {
        return Fatal(ExceededLimit);
      }
      UpdateMaxMem();
      return Ok;
    }

    /** `decreaseMemStat`: subtract in `size_t`, then refresh `maxMem`. */
    method DecreaseMemStat(chunk: SizeT)
      modifies this`totalMem, this`maxMem
      ensures totalMem == SizeSub(old(totalMem), chunk)
      ensures maxMem >= totalMem && maxMem >= old(maxMem) && (maxMem == totalMem || maxMem == old(maxMem))
      ensures table.Snapshot() == old(table.Snapshot())
    {
      totalMem := SizeSub(totalMem, chunk);
      UpdateMaxMem();
    }

    /** `resetMemStat`. */
    method ResetMemStat()
      modifies this`totalMem, this`maxMem
      ensures totalMem == 0 && maxMem == 0
    {
      totalMem := 0;
      maxMem := 0;
    }

    /** `_mem_used`: suppresses the final statistics even when it fails. */
    method MemUsed() returns (u: nat, st: Status)
      modifies this`alreadyPrintingStat
      ensures alreadyPrintingStat
      ensures st == if memstat then Ok else Fatal(MemUsedDisabled)
      ensures st.Ok? ==> u == totalMem
    {
      alreadyPrintingStat := true;
      if !memstat {
        return 0, Fatal(MemUsedDisabled);
      }
      return totalMem, Ok;
    }

    /** `printMemStat`: both counters cast to `unsigned`, after which the
        final statistics are suppressed. */
    method PrintMemStat() returns (line: Option<StatLine>, st: Status)
      modifies this`alreadyPrintingStat
      ensures st == if memstat then Ok else Fatal(StatDisabled)
      ensures line == if memstat then Some(StatLine(ToUnsigned(totalMem), ToUnsigned(maxMem))) else None
      ensures alreadyPrintingStat == (memstat || old(alreadyPrintingStat))
    {
      if memstat {
        line := Some(StatLine(ToUnsigned(totalMem), ToUnsigned(maxMem)));
        alreadyPrintingStat := true;
        st := Ok;
      } else {
        line := None;
        st := Fatal(StatDisabled);
      }
    }

    /** `printFinalMemStat`: the statistics once more at exit, unless some
        earlier call already printed them or asked for `_mem_used`. */
    method PrintFinalMemStat() returns (line: Option<StatLine>)
      modifies this`alreadyPrintingStat
      ensures line.Some? <==> !old(alreadyPrintingStat) && memstat
      ensures line.Some? ==> line.value == StatLine(ToUnsigned(totalMem), ToUnsigned(maxMem))
      ensures alreadyPrintingStat == (old(alreadyPrintingStat) || memstat)
    {
      line := None;
      if !alreadyPrintingStat && memstat {
        var st;
        line, st := PrintMemStat();
      }
    }

    /** `printMemTable`: without tracking the runtime stops; otherwise it
        lists every record above the threshold, compared as unsigned 64-bit
        values, in allocation order. */
    method PrintMemTable(threshold: Int64) returns (listed: seq<Id>, st: Status)
      requires table.Valid()
      ensures st == if memtrack then Ok else Fatal(TableDisabled)
      ensures st.Ok? ==> listed == Above(table.order, table.records, Int64ToSize(threshold))
    {
      if !memtrack {
        return [], Fatal(TableDisabled);
      }
      listed := ListAbove(table.order, table.records, Int64ToSize(threshold));
      return listed, Ok;
    }

    /** `_chpl_malloc`, with `raw` what the platform's `malloc` returned. */
    method Malloc(number: SizeT, size: SizeT, description: string, raw: Addr)
      returns (r: Addr, logged: Option<LogLine>, st: Status)
      requires table.Valid()
      modifies this`totalMem, this`maxMem, table, table.memTable
      ensures Outcome(Ledger(), st, r, logged)
           == Allocation(old(Cfg()), old(Ledger()), table.bytesOf, "malloc", number, size, description, raw)
      ensures table.Valid()
    {
      r, logged, st := Allocate("malloc", number, size, description, raw);
    }

    /** `_chpl_calloc`: as `_chpl_malloc`, with `raw` what the platform's
        `calloc` returned. */
    method Calloc(number: SizeT, size: SizeT, description: string, raw: Addr)
      returns (r: Addr, logged: Option<LogLine>, st: Status)
      requires table.Valid()
      modifies this`totalMem, this`maxMem, table, table.memTable
      ensures Outcome(Ledger(), st, r, logged)
           == Allocation(old(Cfg()), old(Ledger()), table.bytesOf, "calloc", number, size, description, raw)
      ensures table.Valid()
    {
      r, logged, st := Allocate("calloc", number, size, description, raw);
    }

    /** The body `_chpl_malloc` and `_chpl_calloc` share: confirm, trace,
        install, count. */
    method Allocate(memType: string, number: SizeT, size: SizeT, description: string, raw: Addr)
      returns (r: Addr, logged: Option<LogLine>, st: Status)
      requires table.Valid()
      modifies this`totalMem, this`maxMem, table, table.memTable
      ensures Outcome(Ledger(), st, r, logged)
           == Allocation(old(Cfg()), old(Ledger()), table.bytesOf, memType, number, size, description, raw)
      ensures table.Valid()
    {
      if raw == NULL {
        return NULL, None, Fatal(OutOfMemory(description));
      }
      logged := if memtrace then TraceLine(memthresholdValue, number, size, description, memType, raw, NULL) else None;
      st := Admit(number, size, description, raw);
      r := raw;
    }

    /** The tracked part of `_chpl_malloc` and `_chpl_calloc`. */
    method Admit(number: SizeT, size: SizeT, description: string, raw: Addr) returns (st: Status)
      requires table.Valid() && raw != NULL
      modifies this`totalMem, this`maxMem, table, table.memTable
      ensures (Ledger(), st) == Admitted(old(Cfg()), old(Ledger()), table.bytesOf, number, size, description, raw)
      ensures table.Valid()
    {
      st := Ok;
      if memtrack {
        table.Install(raw, number, size, description);
        st := CountMemStat(SizeMul(number, size));
      }
    }

    /** `increaseMemStat` when stats are live. */
    method CountMemStat(chunk: SizeT) returns (st: Status)
      modifies this`totalMem, this`maxMem
      ensures (Ledger(), st) == Count(old(Cfg()), old(Ledger()), chunk)
      ensures table.Snapshot() == old(table.Snapshot())
    {
      st := Ok;
      if memstat {
        st := IncreaseMemStat(chunk);
      }
    }

    /** `_chpl_free`, before the platform's `free`. */
    method Free(memAlloc: Addr) returns (st: Status)
      requires table.Valid()
      modifies this`totalMem, this`maxMem, table, table.memTable
      ensures Outcome(Ledger(), st, NULL, None) == Release(old(Cfg()), old(Ledger()), table.bytesOf, memAlloc)
      ensures table.Valid()
    {
      st := Ok;
      if memtrack {
        DebitMemStat(memAlloc);
        st := table.RemoveMemory(memAlloc);
      }
    }

    /** The first step of a tracked `_chpl_free`: with stats live, look the
        pointer up and subtract its record's chunk. */
    method DebitMemStat(memAlloc: Addr)
      requires table.Valid()
      modifies this`totalMem, this`maxMem
      ensures Ledger() == Debited(old(Cfg()), old(Ledger()), memAlloc)
      ensures table.Snapshot() == old(table.Snapshot())
    {
      if memstat {
        var memEntry := table.Lookup(memAlloc);
        if memEntry.Some? {
          DecreaseMemStat(Chunk(table.records[memEntry.value]));
        }
      }
    }

    /** `_chpl_realloc`, with `glom` the answer of `isGlomStringsMem` and
        `raw` what the platform's `realloc` returned: the same block, NULL,
        or one nothing else holds. */
    method Realloc(memAlloc: Addr, number: SizeT, size: SizeT, description: string, glom: bool, raw: Addr)
      returns (r: Addr, logged: Option<LogLine>, st: Status)
      requires table.Valid()
      requires raw == NULL || raw == memAlloc || !table.Tracked(raw)
      modifies this`totalMem, this`maxMem, table, table.memTable
      ensures Outcome(Ledger(), st, r, logged)
           == Reallocation(old(Cfg()), old(Ledger()), table.bytesOf, memAlloc, number, size, description, glom, raw)
      ensures table.Valid()
    {
      var newChunk := SizeMul(number, size);
      if newChunk == 0 {
        st := Free(memAlloc);
        return NULL, None, st;
      }
      var memEntry: Option<Id> := None;
      if memtrack {
        memEntry := table.Lookup(memAlloc);
        if memEntry.None? && memAlloc != NULL && !glom {
          return NULL, None, Fatal(ReallocUntracked(description));
        }
      }
      if raw == NULL {
        return NULL, None, Fatal(OutOfMemory(description));
      }
      st := Readmit(memEntry, memAlloc, number, size, description, raw);
      logged := None;
      if st.Ok? && memtrace {
        logged := TraceLine(memthresholdValue, number, size, description, "realloc", memAlloc, raw);
      }
      r := raw;
    }

    /** The tracked part of `_chpl_realloc` once the new block is
        confirmed, given what `lookupMemory` found. */
    method Readmit(memEntry: Option<Id>, memAlloc: Addr, number: SizeT, size: SizeT, description: string, raw: Addr)
      returns (st: Status)
      requires table.Valid()
      requires memtrack ==> (memEntry.Some? <==> table.Tracked(memAlloc))
      requires memtrack && memEntry.Some? ==> memEntry.value == table.IdOf(memAlloc)
      requires raw != NULL && (raw == memAlloc || !table.Tracked(raw))
      modifies this`totalMem, this`maxMem, table, table.memTable
      ensures (Ledger(), st) == Readmitted(old(Cfg()), old(Ledger()), table.bytesOf, memAlloc, number, size, description, raw)
      ensures table.Valid()
    {
      st := Ok;
      if memtrack {
        Shift(memEntry, memAlloc, number, size, description, raw);
        st := CountMemStat(SizeMul(number, size));
      }
    }

    /** The tracked part of `_chpl_realloc` before the new chunk is
        counted, given what `lookupMemory` found. */
    method Shift(memEntry: Option<Id>, memAlloc: Addr, number: SizeT, size: SizeT, description: string, raw: Addr)
      requires table.Valid()
      requires memEntry.Some? <==> table.Tracked(memAlloc)
      requires memEntry.Some? ==> memEntry.value == table.IdOf(memAlloc)
      requires raw != NULL && (raw == memAlloc || !table.Tracked(raw))
      modifies this`totalMem, this`maxMem, table, table.memTable
      ensures Ledger() == Shifted(old(Cfg()), old(Ledger()), table.bytesOf, memAlloc, number, size, description, raw)
      ensures table.Valid()
    {
      if memAlloc != NULL {
        if memEntry.Some? {
          Move(memEntry.value, memAlloc, raw, number, size);
        }
      } else {
        table.Install(raw, number, size, description);
      }
    }

    /** The tracked-pointer path of `_chpl_realloc`: with stats live the
        old chunk is subtracted, then `updateMemory` rehashes the record. */
    method Move(id: Id, memAlloc: Addr, raw: Addr, number: SizeT, size: SizeT)
      requires table.Valid() && id in table.records && table.records[id].memAlloc == memAlloc
      requires raw != NULL && (raw == memAlloc || !table.Tracked(raw))
      modifies this`totalMem, this`maxMem, table`records, table.memTable
      ensures var bd := if old(memstat) then Decrease(old(Ledger()), Chunk(old(table.records)[id])) else old(Ledger());
              Ledger() == bd.(table := Relink(bd.table, table.bytesOf, id, raw, number, size))
      ensures table.Valid()
    {
      if memstat {
        DecreaseMemStat(Chunk(table.records[id]));
      }
      table.UpdateMemory(id, memAlloc, raw, number, size);
    }
  }
}
