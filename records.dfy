/** Allocation records (`memTableEntry`, runtime/src/chplmem.c:17-27) and
    the byte counts taken over lists of them. */
module Records {
  import opened CTypes
  import opened Lists

  /** Identity of a `memTableEntry`: the record keeps its identity, and its
      place in the allocation-order list, when realloc changes its address. */
  type Id = nat

  /** The data fields of a record; the three link fields are the positions
      of its identity in the bucket chains and the order list. */
  datatype Entry = Entry(number: SizeT, size: SizeT, description: string, memAlloc: Addr)

  /** `number * size` as the runtime computes it, in `size_t`. */
  function Chunk(e: Entry): SizeT
  {
    SizeMul(e.number, e.size)
  }

  ghost predicate AllIn(ids: seq<Id>, recs: map<Id, Entry>)
  {
    forall id :: id in ids ==> id in recs
  }

  /** Sum of the chunks of the listed records, as a mathematical integer. */
  function Footprint(ids: seq<Id>, recs: map<Id, Entry>): nat
    requires AllIn(ids, recs)
  {
    if ids == [] then 0 else Chunk(recs[ids[0]]) + Footprint(ids[1..], recs)
  }

  /** Appending a record to the list adds its chunk. */
  lemma {:induction false} FootprintAppend(ids: seq<Id>, x: Id, recs: map<Id, Entry>)
    requires AllIn(ids, recs) && x in recs
    ensures AllIn(ids + [x], recs)
    ensures Footprint(ids + [x], recs) == Footprint(ids, recs) + Chunk(recs[x])
  {
    if ids != [] {
      assert (ids + [x])[1..] == ids[1..] + [x];
      FootprintAppend(ids[1..], x, recs);
    } else {
      assert [x][1..] == [];
    }
  }

  /** Unlinking a record that occurs once removes exactly its chunk. */
  lemma {:induction false} FootprintRemove(ids: seq<Id>, x: Id, recs: map<Id, Entry>)
    requires AllIn(ids, recs) && NoDup(ids) && x in ids
    ensures AllIn(RemoveId(ids, x), recs)
    ensures Footprint(RemoveId(ids, x), recs) + Chunk(recs[x]) == Footprint(ids, recs)
  {
    assert NoDup(ids[1..]) by {
      forall i, j | 0 <= i < j < |ids[1..]| ensures ids[1..][i] != ids[1..][j] {
        assert ids[1..][i] == ids[i + 1] && ids[1..][j] == ids[j + 1];
      }
    }
    if ids[0] == x {
      assert x !in ids[1..] by {
        forall j | 0 <= j < |ids[1..]| ensures ids[1..][j] != x {
          assert ids[1..][j] == ids[j + 1];
        }
      }
    } else {
      FootprintRemove(ids[1..], x, recs);
      assert RemoveId(ids, x)[1..] == RemoveId(ids[1..], x);
    }
  }

  /** Only the chunks of the listed records matter. */
  lemma {:induction false} FootprintFrame(ids: seq<Id>, r1: map<Id, Entry>, r2: map<Id, Entry>)
    requires AllIn(ids, r1) && AllIn(ids, r2)
    requires forall id :: id in ids ==> Chunk(r1[id]) == Chunk(r2[id])
    ensures Footprint(ids, r1) == Footprint(ids, r2)
  {
    if ids != [] {
      FootprintFrame(ids[1..], r1, r2);
    }
  }

  /** Overwriting one listed record's data replaces its chunk, once. */
  lemma {:induction false} FootprintOverwrite(ids: seq<Id>, recs: map<Id, Entry>, x: Id, e: Entry)
    requires AllIn(ids, recs) && NoDup(ids) && x in ids
    ensures AllIn(ids, recs[x := e])
    ensures Footprint(ids, recs[x := e]) + Chunk(recs[x]) == Footprint(ids, recs) + Chunk(e)
  {
    var recs' := recs[x := e];
    assert NoDup(ids[1..]) by {
      forall i, j | 0 <= i < j < |ids[1..]| ensures ids[1..][i] != ids[1..][j] {
        assert ids[1..][i] == ids[i + 1] && ids[1..][j] == ids[j + 1];
      }
    }
    if ids[0] == x {
      assert x !in ids[1..] by {
        forall j | 0 <= j < |ids[1..]| ensures ids[1..][j] != x {
          assert ids[1..][j] == ids[j + 1];
        }
      }
      FootprintFrame(ids[1..], recs, recs');
    } else {
      FootprintOverwrite(ids[1..], recs, x, e);
    }
  }

  /** The records `printMemTable(threshold)` lists: those whose chunk is
      strictly above the threshold, taken in list order. */
  function Above(ids: seq<Id>, recs: map<Id, Entry>, threshold: SizeT): (r: seq<Id>)
    requires AllIn(ids, recs)
    ensures forall y :: y in r <==> y in ids && Chunk(recs[y]) > threshold
  {
    if ids == [] then []
    else if Chunk(recs[ids[0]]) > threshold then [ids[0]] + Above(ids[1..], recs, threshold)
    else Above(ids[1..], recs, threshold)
  }

  /** The listing keeps allocation order: it is a subsequence of the list. */
  lemma {:induction false} AboveKeepsOrder(ids: seq<Id>, recs: map<Id, Entry>, threshold: SizeT)
    requires AllIn(ids, recs)
    ensures IsSubseq(Above(ids, recs, threshold), ids)
  {
    if ids != [] {
      AboveKeepsOrder(ids[1..], recs, threshold);
      var r := Above(ids, recs, threshold);
      if Chunk(recs[ids[0]]) > threshold {
        assert r[0] == ids[0] && r[1..] == Above(ids[1..], recs, threshold);
      }
    }
  }

  /** The listing of a list proceeds one record at a time, which is how
      `printMemTable` walks `first` through `nextInstalled`. */
  lemma {:induction false} AboveSnoc(ids: seq<Id>, x: Id, recs: map<Id, Entry>, threshold: SizeT)
    requires AllIn(ids, recs) && x in recs
    ensures AllIn(ids + [x], recs)
    ensures Above(ids + [x], recs, threshold)
         == Above(ids, recs, threshold) + (if Chunk(recs[x]) > threshold then [x] else [])
  {
    if ids == [] {
      assert [x][1..] == [];
    } else {
      assert (ids + [x])[1..] == ids[1..] + [x];
      AboveSnoc(ids[1..], x, recs, threshold);
    }
  }
}
