/** `removeBucketEntry` as written (runtime/src/chplmem.c:297-322), as a
    function of the bucket chain it walks. The chain is the sequence of
    records reached from `memTable[hashValue]` through `nextInBucket`. */
module Buckets {
  import opened CTypes
  import opened Lists
  import opened Records

  /** What the as-written code does: unlink a record and return it, crash on
      a NULL dereference at the given source line, or reach the internal
      error at line 319. */
  datatype BucketResult =
    | Deleted(chain: seq<Id>, id: Id)
    | NullDeref(line: nat)
    | Vanished

  /** The `for` loop of lines 306-316 from the state where
      `thisBucketEntry` is `chain[i]` and `deleted` has been found so far. A
      match splices the successor out and the loop goes on from the record
      after it; the loop has no `break`, and dereferences
      `nextBucketEntry` even when it is NULL. */
  function ScanFrom(chain: seq<Id>, i: nat, deleted: Option<Id>, recs: map<Id, Entry>, address: Addr): BucketResult
    requires AllIn(chain, recs) && i <= |chain|
    decreases |chain| - i
  {
    if i == |chain| then
      (if deleted.Some? then Deleted(chain, deleted.value) else Vanished)
    else if i + 1 == |chain| then
      NullDeref(312)
    else if recs[chain[i + 1]].memAlloc == address then
      ScanFrom(chain[..i + 1] + chain[i + 2..], i + 1, Some(chain[i + 1]), recs, address)
    else
      ScanFrom(chain, i + 1, deleted, recs, address)
  }

  /** The whole of `removeBucketEntry(address)` as written. */
  function RemoveAsWritten(chain: seq<Id>, recs: map<Id, Entry>, address: Addr): BucketResult
    requires AllIn(chain, recs)
  {
    if chain == [] then NullDeref(302)
    else if recs[chain[0]].memAlloc == address then Deleted(chain[1..], chain[0])
    else ScanFrom(chain, 0, None, recs, address)
  }

  /** The record at position `k` is the only one in `chain` at `address`. */
  ghost predicate OnlyAt(chain: seq<Id>, recs: map<Id, Entry>, address: Addr, k: nat)
    requires AllIn(chain, recs)
  {
    k < |chain| &&
    forall j :: 0 <= j < |chain| ==> (recs[chain[j]].memAlloc == address <==> j == k)
  }

  /** The internal error of line 319 is never reached: every run either
      deletes something or dereferences NULL first. */
  lemma {:induction false} NeverVanishes(chain: seq<Id>, recs: map<Id, Entry>, address: Addr)
    requires AllIn(chain, recs)
    ensures !RemoveAsWritten(chain, recs, address).Vanished?
  {
    if chain != [] && recs[chain[0]].memAlloc != address {
      ScanNeverVanishes(chain, 0, None, recs, address);
    }
  }

  lemma {:induction false} ScanNeverVanishes(chain: seq<Id>, i: nat, deleted: Option<Id>, recs: map<Id, Entry>, address: Addr)
    requires AllIn(chain, recs) && i <= |chain|
    requires i < |chain| || deleted.Some?
    ensures !ScanFrom(chain, i, deleted, recs, address).Vanished?
    decreases |chain| - i
  {
    if i < |chain| && i + 1 < |chain| {
      if recs[chain[i + 1]].memAlloc == address {
        ScanNeverVanishes(chain[..i + 1] + chain[i + 2..], i + 1, Some(chain[i + 1]), recs, address);
      } else {
        ScanNeverVanishes(chain, i + 1, deleted, recs, address);
      }
    }
  }

  /** Once nothing beyond `chain[i]` matches, the loop runs to the end of
      the chain and dereferences its NULL successor. */
  lemma {:induction false} ScanToEnd(chain: seq<Id>, i: nat, deleted: Option<Id>, recs: map<Id, Entry>, address: Addr)
    requires AllIn(chain, recs) && i < |chain|
    requires forall j :: i < j < |chain| ==> recs[chain[j]].memAlloc != address
    ensures ScanFrom(chain, i, deleted, recs, address) == NullDeref(312)
    decreases |chain| - i
  {
    if i + 1 < |chain| {
      ScanToEnd(chain, i + 1, deleted, recs, address);
    }
  }

  /** Scanning towards the unique match at `k`. */
  lemma {:induction false} ScanHit(chain: seq<Id>, i: nat, k: nat, recs: map<Id, Entry>, address: Addr)
    requires AllIn(chain, recs) && i < k < |chain|
    requires forall j :: i < j < |chain| ==> (recs[chain[j]].memAlloc == address <==> j == k)
    ensures ScanFrom(chain, i, None, recs, address)
         == if k == |chain| - 1 then Deleted(chain[..k] + chain[k + 1..], chain[k]) else NullDeref(312)
    decreases k - i
  {
    if i + 1 < k {
      ScanHit(chain, i + 1, k, recs, address);
    } else {
      var rest := chain[..k] + chain[k + 1..];
      assert chain[..i + 1] + chain[i + 2..] == rest;
      if k < |chain| - 1 {
        forall j | k < j < |rest| ensures recs[rest[j]].memAlloc != address {
          assert rest[j] == chain[j + 1];
        }
        ScanToEnd(rest, k, Some(chain[k]), recs, address);
      }
    }
  }

  /** The as-written removal of a tracked address is defined exactly when
      its record is the head or the last record of the chain, and then it
      unlinks exactly that record. */
  lemma {:induction false} AsWrittenDefinedIff(chain: seq<Id>, recs: map<Id, Entry>, address: Addr, k: nat)
    requires AllIn(chain, recs) && OnlyAt(chain, recs, address, k)
    ensures RemoveAsWritten(chain, recs, address).Deleted? <==> (k == 0 || k == |chain| - 1)
    ensures RemoveAsWritten(chain, recs, address).Deleted? ==>
              RemoveAsWritten(chain, recs, address) == Deleted(chain[..k] + chain[k + 1..], chain[k])
    ensures !RemoveAsWritten(chain, recs, address).Deleted? ==>
              RemoveAsWritten(chain, recs, address) == NullDeref(312)
  {
    if k == 0 {
      assert chain[..0] + chain[1..] == chain[1..];
    } else {
      ScanHit(chain, 0, k, recs, address);
    }
  }

  /** On an address that is not in the chain the as-written code never
      reports the missing entry: it dereferences NULL (line 302 on an empty
      bucket, line 312 otherwise). */
  lemma AsWrittenMissing(chain: seq<Id>, recs: map<Id, Entry>, address: Addr)
    requires AllIn(chain, recs)
    requires forall j :: 0 <= j < |chain| ==> recs[chain[j]].memAlloc != address
    ensures RemoveAsWritten(chain, recs, address) == NullDeref(if chain == [] then 302 else 312)
  {
    if chain != [] {
      ScanToEnd(chain, 0, None, recs, address);
    }
  }

  /** Three addresses sharing a bucket: removing the middle one crashes. */
  lemma MiddleOfThreeCrashes()
    ensures RemoveAsWritten([7, 8, 9],
                            map[7 := Entry(1, 8, "a", 100), 8 := Entry(1, 8, "b", 200), 9 := Entry(1, 8, "c", 300)],
                            200) == NullDeref(312)
  {
    var recs := map[7 := Entry(1, 8, "a", 100), 8 := Entry(1, 8, "b", 200), 9 := Entry(1, 8, "c", 300)];
    AsWrittenDefinedIff([7, 8, 9], recs, 200, 1);
  }
}
