/** The allocation table of runtime/src/chplmem.c: `memTable[HASHSIZE]`
    bucket chains linked through `nextInBucket`, and the allocation-order
    list `first` ... `last` linked through `prevInstalled` and
    `nextInstalled` (lines 15-33, 241-368). */
module AllocTable {
  import opened CTypes
  import opened Lists
  import opened Records
  import opened Buckets
  import opened MemHash
  import opened Outcomes

  /** The bucket `hash` picks for an address. */
  function BucketOf(bytesOf: Addr -> seq<int>, a: Addr): (b: nat)
    ensures b < HASHSIZE
  {
    HashValue(bytesOf(a)) % HASHSIZE
  }

  /** Every record sits in exactly one bucket, the one its address hashes
      to, each chain lists a record at most once, and no two records share
      an address. */
  ghost predicate ChainsOk(buckets: seq<seq<Id>>, recs: map<Id, Entry>, bytesOf: Addr -> seq<int>)
  {
    && |buckets| == HASHSIZE
    && (forall b, k :: 0 <= b < HASHSIZE && 0 <= k < |buckets[b]| ==>
          buckets[b][k] in recs && BucketOf(bytesOf, recs[buckets[b][k]].memAlloc) == b)
    && (forall b :: 0 <= b < HASHSIZE ==> NoDup(buckets[b]))
    && (forall id :: id in recs ==> id in buckets[BucketOf(bytesOf, recs[id].memAlloc)])
    && (forall i, j :: i in recs && j in recs && recs[i].memAlloc == recs[j].memAlloc ==> i == j)
  }

  /** The chains while record `x` is unlinked from every bucket: sound for
      every other record. */
  ghost predicate ChainsOkWithout(buckets: seq<seq<Id>>, recs: map<Id, Entry>, bytesOf: Addr -> seq<int>, x: Id)
  {
    && |buckets| == HASHSIZE
    && (forall b, k :: 0 <= b < HASHSIZE && 0 <= k < |buckets[b]| ==>
          buckets[b][k] in recs && buckets[b][k] != x && BucketOf(bytesOf, recs[buckets[b][k]].memAlloc) == b)
    && (forall b :: 0 <= b < HASHSIZE ==> NoDup(buckets[b]))
    && (forall id :: id in recs && id != x ==> id in buckets[BucketOf(bytesOf, recs[id].memAlloc)])
    && (forall i, j :: i in recs && j in recs && i != x && j != x && recs[i].memAlloc == recs[j].memAlloc ==> i == j)
  }

  /** No record other than `x` is at address `a`. */
  ghost predicate AddrFreeBut(recs: map<Id, Entry>, x: Id, a: Addr)
  {
    forall id :: id in recs && id != x ==> recs[id].memAlloc != a
  }

  /** Unlinking record `x` from its bucket. */
  lemma {:induction false} ChainsUnlink(buckets: seq<seq<Id>>, recs: map<Id, Entry>, bytesOf: Addr -> seq<int>, x: Id)
    requires ChainsOk(buckets, recs, bytesOf) && x in recs
    ensures var h := BucketOf(bytesOf, recs[x].memAlloc);
            ChainsOkWithout(buckets[h := RemoveId(buckets[h], x)], recs, bytesOf, x)
  {
    var h := BucketOf(bytesOf, recs[x].memAlloc);
    var bs := buckets[h := RemoveId(buckets[h], x)];
    forall b, k | 0 <= b < HASHSIZE && 0 <= k < |bs[b]|
      ensures bs[b][k] in recs && bs[b][k] != x && BucketOf(bytesOf, recs[bs[b][k]].memAlloc) == b
    {
      var y := bs[b][k];
      assert y in buckets[b];
      var j := IndexOf(buckets[b], y);
    }
    forall id | id in recs && id != x ensures id in bs[BucketOf(bytesOf, recs[id].memAlloc)] {
      assert id in buckets[BucketOf(bytesOf, recs[id].memAlloc)];
    }
  }

  /** With `x` unlinked everywhere, dropping its record leaves sound chains. */
  lemma ChainsDrop(buckets: seq<seq<Id>>, recs: map<Id, Entry>, bytesOf: Addr -> seq<int>, x: Id)
    requires ChainsOkWithout(buckets, recs, bytesOf, x)
    ensures ChainsOk(buckets, recs - {x}, bytesOf)
  {
  }

  /** With `x` unlinked everywhere, linking it at the head of the bucket of
      a free address, with new data, leaves sound chains. */
  lemma {:induction false} ChainsLinkHead(buckets: seq<seq<Id>>, recs: map<Id, Entry>, bytesOf: Addr -> seq<int>, x: Id, e: Entry)
    requires ChainsOkWithout(buckets, recs, bytesOf, x) && AddrFreeBut(recs, x, e.memAlloc)
    ensures var h := BucketOf(bytesOf, e.memAlloc);
            ChainsOk(buckets[h := [x] + buckets[h]], recs[x := e], bytesOf)
  {
    var h := BucketOf(bytesOf, e.memAlloc);
    var bs := buckets[h := [x] + buckets[h]];
    var rs := recs[x := e];
    forall b, k | 0 <= b < HASHSIZE && 0 <= k < |bs[b]|
      ensures bs[b][k] in rs && BucketOf(bytesOf, rs[bs[b][k]].memAlloc) == b
    {
      if b == h && k > 0 {
        assert bs[b][k] == buckets[b][k - 1];
      }
    }
    forall b | 0 <= b < HASHSIZE ensures NoDup(bs[b]) {
      if b == h {
        assert forall k :: 0 < k < |bs[b]| ==> bs[b][k] == buckets[b][k - 1];
        assert x !in buckets[b];
      }
    }
    forall id | id in rs ensures id in bs[BucketOf(bytesOf, rs[id].memAlloc)] {
      if id != x {
        assert id in buckets[BucketOf(bytesOf, recs[id].memAlloc)];
      }
    }
  }

  /** The order list holds the same records, each once; `first` is its head
      and `last` its tail, except that `last` may be stale once the list is
      empty. */
  ghost predicate OrderOk(order: seq<Id>, recs: map<Id, Entry>, first: Option<Id>, last: Option<Id>)
  {
    && NoDup(order)
    && (forall id :: id in order <==> id in recs)
    && first == (if order == [] then None else Some(order[0]))
    && (order != [] ==> last == Some(order[|order| - 1]))
  }

  /** Appending a fresh record after `last`; `first` is set only when it was
      NULL, which is what `installMemory` tests. */
  lemma OrderAppend(order: seq<Id>, recs: map<Id, Entry>, first: Option<Id>, last: Option<Id>, x: Id, e: Entry)
    requires OrderOk(order, recs, first, last) && x !in recs
    ensures OrderOk(order + [x], recs[x := e], if first.None? then Some(x) else first, Some(x))
  {
    var o := order + [x];
    forall i, j | 0 <= i < j < |o| ensures o[i] != o[j] {
      if j == |order| {
        assert o[i] == order[i];
      }
    }
  }

  /** Changing the data of a record but not its address leaves the chains
      sound. */
  lemma ChainsOverwrite(buckets: seq<seq<Id>>, recs: map<Id, Entry>, bytesOf: Addr -> seq<int>, x: Id, e: Entry)
    requires ChainsOk(buckets, recs, bytesOf) && x in recs && e.memAlloc == recs[x].memAlloc
    ensures ChainsOk(buckets, recs[x := e], bytesOf)
  {
    var rs := recs[x := e];
    forall b, k | 0 <= b < HASHSIZE && 0 <= k < |buckets[b]|
      ensures buckets[b][k] in rs && BucketOf(bytesOf, rs[buckets[b][k]].memAlloc) == b
    {
    }
  }

  /** Changing the data of a listed record leaves the order list sound. */
  lemma OrderOverwrite(order: seq<Id>, recs: map<Id, Entry>, first: Option<Id>, last: Option<Id>, x: Id, e: Entry)
    requires OrderOk(order, recs, first, last) && x in recs
    ensures OrderOk(order, recs[x := e], first, last)
  {
  }

  /** The ends of a list with the element at position `k` spliced out. */
  lemma SpliceEnds(s: seq<Id>, k: nat)
    requires k < |s|
    ensures |s[..k] + s[k + 1..]| == |s| - 1
    ensures k > 0 ==> (s[..k] + s[k + 1..])[0] == s[0]
    ensures k == 0 && 1 < |s| ==> (s[..k] + s[k + 1..])[0] == s[1]
    ensures k + 1 < |s| ==> (s[..k] + s[k + 1..])[|s| - 2] == s[|s| - 1]
    ensures 0 < k && k + 1 == |s| ==> (s[..k] + s[k + 1..])[|s| - 2] == s[k - 1]
  {
  }

  /** Unlinking record `x` from the order list. */
  lemma OrderUnlink(order: seq<Id>, recs: map<Id, Entry>, first: Option<Id>, last: Option<Id>, x: Id)
    requires OrderOk(order, recs, first, last) && x in order
    ensures OrderOk(RemoveId(order, x), recs - {x}, UnlinkedFirst(order, first, x), UnlinkedLast(order, first, last, x))
  {
    var k := IndexOf(order, x);
    RemoveIdAt(order, k);
    SpliceEnds(order, k);
    var o := RemoveId(order, x);
    assert first == Some(x) <==> k == 0;
  }

  /** The table's state as a value: the bucket chains, the records, the
      first-to-last list with its two ends, and the next fresh identity. */
  datatype Table = Table(buckets: seq<seq<Id>>, records: map<Id, Entry>, order: seq<Id>,
                         first: Option<Id>, last: Option<Id>, nextId: Id)

  /** The whole table is sound: sound chains, a sound order list over the
      same records, and every record named by a handed-out identity and
      holding a non-NULL address. */
  ghost predicate TableOk(t: Table, bytesOf: Addr -> seq<int>)
  {
    && ChainsOk(t.buckets, t.records, bytesOf)
    && OrderOk(t.order, t.records, t.first, t.last)
    && (forall id :: id in t.records ==> id < t.nextId && t.records[id].memAlloc != NULL)
  }

  /** Bytes held by the records of a sound table. */
  ghost function Held(t: Table): nat
    requires AllIn(t.order, t.records)
  {
    Footprint(t.order, t.records)
  }

  /** Some record holds address `a`. */
  ghost predicate HasAddr(recs: map<Id, Entry>, a: Addr)
  {
    exists id :: id in recs && recs[id].memAlloc == a
  }

  /** The record holding address `a`. */
  ghost function AddrId(recs: map<Id, Entry>, a: Addr): (id: Id)
    requires HasAddr(recs, a)
    ensures id in recs && recs[id].memAlloc == a
  {
    var id :| id in recs && recs[id].memAlloc == a; id
  }

  /** Bucket `chain` holds the record of address `a` once, and every
      record it reaches is allocated: what `removeBucketEntry` relies on. */
  ghost predicate ChainFinds(chain: seq<Id>, recs: map<Id, Entry>, a: Addr)
  {
    && AllIn(chain, recs) && NoDup(chain) && HasAddr(recs, a)
    && AddrId(recs, a) in chain
    && (forall y :: y in chain && recs[y].memAlloc == a ==> y == AddrId(recs, a))
  }

  /** In sound chains the bucket of a tracked address finds its record. */
  lemma ChainsFind(buckets: seq<seq<Id>>, recs: map<Id, Entry>, bytesOf: Addr -> seq<int>, a: Addr)
    requires ChainsOk(buckets, recs, bytesOf) && HasAddr(recs, a)
    ensures ChainFinds(buckets[BucketOf(bytesOf, a)], recs, a)
  {
    var chain := buckets[BucketOf(bytesOf, a)];
    forall y | y in chain ensures y in recs {
      var k := IndexOf(chain, y);
    }
  }

  /** The new-record path of `installMemory`: a fresh record, with the
      next identity, heads its address's bucket and ends the order list;
      `first` is set only when it was NULL. */
  function Link(t: Table, bytesOf: Addr -> seq<int>, e: Entry): Table
    requires |t.buckets| == HASHSIZE
  {
    var h := BucketOf(bytesOf, e.memAlloc);
    Table(t.buckets[h := [t.nextId] + t.buckets[h]], t.records[t.nextId := e], t.order + [t.nextId],
          if t.first.None? then Some(t.nextId) else t.first, Some(t.nextId), t.nextId + 1)
  }

  /** The tracked path of `installMemory`: `number` and `size` overwritten. */
  function Overwrite(t: Table, id: Id, number: SizeT, size: SizeT): Table
    requires id in t.records
  {
    t.(records := t.records[id := t.records[id].(number := number, size := size)])
  }

  /** `updateMemory`: the record leaves the old address's bucket, heads the
      new address's bucket, and carries the new address, number and size;
      the order list is untouched. */
  function Relink(t: Table, bytesOf: Addr -> seq<int>, id: Id, newAddress: Addr, number: SizeT, size: SizeT): Table
    requires |t.buckets| == HASHSIZE && id in t.records
  {
    var ho := BucketOf(bytesOf, t.records[id].memAlloc);
    var hn := BucketOf(bytesOf, newAddress);
    var mid := t.buckets[ho := RemoveId(t.buckets[ho], id)];
    t.(buckets := mid[hn := [id] + mid[hn]],
       records := t.records[id := t.records[id].(memAlloc := newAddress, number := number, size := size)])
  }

  /** `first` after `removeMemory` unlinks `x`: it moves on when `x` was the
      head. */
  function UnlinkedFirst(order: seq<Id>, first: Option<Id>, x: Id): Option<Id>
    requires x in order
  {
    var k := IndexOf(order, x);
    if first == Some(x) then (if k + 1 < |order| then Some(order[k + 1]) else None) else first
  }

  /** `last` after `removeMemory` unlinks `x`: it moves back when `x` was
      the tail but not the head, so removing the sole record leaves `last`
      naming it. */
  function UnlinkedLast(order: seq<Id>, first: Option<Id>, last: Option<Id>, x: Id): Option<Id>
    requires x in order
  {
    var k := IndexOf(order, x);
    if first != Some(x) && k + 1 == |order| && k > 0 then Some(order[k - 1]) else last
  }

  /** `removeMemory` on a tracked record: it leaves its bucket and the
      order list, the others keep their order. */
  function Unlink(t: Table, bytesOf: Addr -> seq<int>, x: Id): Table
    requires |t.buckets| == HASHSIZE && x in t.records && x in t.order
  {
    var h := BucketOf(bytesOf, t.records[x].memAlloc);
    t.(buckets := t.buckets[h := RemoveId(t.buckets[h], x)], records := t.records - {x},
       order := RemoveId(t.order, x), first := UnlinkedFirst(t.order, t.first, x),
       last := UnlinkedLast(t.order, t.first, t.last, x))
  }

  /** `installMemory` on the table as a value: overwrite a tracked
      address's counts, link a fresh record for any other. */
  ghost function Installed(t: Table, bytesOf: Addr -> seq<int>, memAlloc: Addr, number: SizeT, size: SizeT,
                           description: string): Table
    requires |t.buckets| == HASHSIZE
  {
    if HasAddr(t.records, memAlloc) then Overwrite(t, AddrId(t.records, memAlloc), number, size)
    else Link(t, bytesOf, Entry(number, size, description, memAlloc))
  }

  /** `removeMemory` on the table as a value: unlink the record of a
      tracked address; any other address is an error and nothing changes. */
  ghost function Removed(t: Table, bytesOf: Addr -> seq<int>, memAlloc: Addr): (Table, Status)
    requires TableOk(t, bytesOf)
  {
    if HasAddr(t.records, memAlloc) then (Unlink(t, bytesOf, AddrId(t.records, memAlloc)), Ok)
    else (t, Fatal(FreeUntracked))
  }

  /** Installing a new address keeps the table sound and adds its chunk. */
  lemma LinkOk(t: Table, bytesOf: Addr -> seq<int>, e: Entry)
    requires TableOk(t, bytesOf) && e.memAlloc != NULL && !HasAddr(t.records, e.memAlloc)
    ensures TableOk(Link(t, bytesOf, e), bytesOf)
    ensures Held(Link(t, bytesOf, e)) == Held(t) + Chunk(e)
  {
    var r := Link(t, bytesOf, e);
    assert t.nextId !in t.records;
    ChainsLinkHead(t.buckets, t.records, bytesOf, t.nextId, e);
    OrderAppend(t.order, t.records, t.first, t.last, t.nextId, e);
    FootprintFrame(t.order, t.records, r.records);
    FootprintAppend(t.order, t.nextId, r.records);
  }

  /** Installing a tracked address again keeps the table sound and trades
      the old chunk for the new one. */
  lemma OverwriteOk(t: Table, bytesOf: Addr -> seq<int>, id: Id, number: SizeT, size: SizeT)
    requires TableOk(t, bytesOf) && id in t.records
    ensures TableOk(Overwrite(t, id, number, size), bytesOf)
    ensures Held(Overwrite(t, id, number, size)) + Chunk(t.records[id]) == Held(t) + SizeMul(number, size)
  {
    var r := Overwrite(t, id, number, size);
    ChainsOverwrite(t.buckets, t.records, bytesOf, id, r.records[id]);
    OrderOverwrite(t.order, t.records, t.first, t.last, id, r.records[id]);
    FootprintOverwrite(t.order, t.records, id, r.records[id]);
  }

  /** Moving a record to a new address that no other record holds keeps
      the table sound and trades the old chunk for the new one. */
  lemma RelinkOk(t: Table, bytesOf: Addr -> seq<int>, id: Id, newAddress: Addr, number: SizeT, size: SizeT)
    requires TableOk(t, bytesOf) && id in t.records
    requires newAddress != NULL && (newAddress == t.records[id].memAlloc || !HasAddr(t.records, newAddress))
    ensures TableOk(Relink(t, bytesOf, id, newAddress, number, size), bytesOf)
    ensures Held(Relink(t, bytesOf, id, newAddress, number, size)) + Chunk(t.records[id])
         == Held(t) + SizeMul(number, size)
  {
    var e := t.records[id].(memAlloc := newAddress, number := number, size := size);
    var ho := BucketOf(bytesOf, t.records[id].memAlloc);
    var r := Relink(t, bytesOf, id, newAddress, number, size);
    assert r.records == t.records[id := e];
    assert ChainsOk(r.buckets, r.records, bytesOf) by {
      ChainsUnlink(t.buckets, t.records, bytesOf, id);
      assert AddrFreeBut(t.records, id, newAddress);
      ChainsLinkHead(t.buckets[ho := RemoveId(t.buckets[ho], id)], t.records, bytesOf, id, e);
    }
    OrderOverwrite(t.order, t.records, t.first, t.last, id, e);
    FootprintOverwrite(t.order, t.records, id, e);
  }

  /** Removing a record keeps the table sound and gives back its chunk. */
  lemma UnlinkOk(t: Table, bytesOf: Addr -> seq<int>, x: Id)
    requires TableOk(t, bytesOf) && x in t.records
    ensures x in t.order
    ensures TableOk(Unlink(t, bytesOf, x), bytesOf)
    ensures Held(Unlink(t, bytesOf, x)) + Chunk(t.records[x]) == Held(t)
  {
    var h := BucketOf(bytesOf, t.records[x].memAlloc);
    OrderUnlink(t.order, t.records, t.first, t.last, x);
    FootprintRemove(t.order, x, t.records);
    FootprintFrame(RemoveId(t.order, x), t.records, t.records - {x});
    ChainsUnlink(t.buckets, t.records, bytesOf, x);
    ChainsDrop(t.buckets[h := RemoveId(t.buckets[h], x)], t.records, bytesOf, x);
  }

  /** `installMemory` keeps the table sound; the held bytes gain the new
      chunk and lose the overwritten one, if any. */
  lemma InstalledOk(t: Table, bytesOf: Addr -> seq<int>, memAlloc: Addr, number: SizeT, size: SizeT, description: string)
    requires TableOk(t, bytesOf) && memAlloc != NULL
    ensures TableOk(Installed(t, bytesOf, memAlloc, number, size, description), bytesOf)
    ensures Held(Installed(t, bytesOf, memAlloc, number, size, description))
            + (if HasAddr(t.records, memAlloc) then Chunk(t.records[AddrId(t.records, memAlloc)]) else 0)
         == Held(t) + SizeMul(number, size)
  {
    if HasAddr(t.records, memAlloc) {
      OverwriteOk(t, bytesOf, AddrId(t.records, memAlloc), number, size);
    } else {
      LinkOk(t, bytesOf, Entry(number, size, description, memAlloc));
    }
  }

  /** `removeMemory` keeps the table sound and gives back the chunk of the
      record it removes; NULL is never tracked, so freeing it is an error. */
  lemma RemovedOk(t: Table, bytesOf: Addr -> seq<int>, memAlloc: Addr)
    requires TableOk(t, bytesOf)
    ensures TableOk(Removed(t, bytesOf, memAlloc).0, bytesOf)
    ensures Held(Removed(t, bytesOf, memAlloc).0)
            + (if HasAddr(t.records, memAlloc) then Chunk(t.records[AddrId(t.records, memAlloc)]) else 0)
         == Held(t)
    ensures memAlloc == NULL ==> Removed(t, bytesOf, memAlloc).1 == Fatal(FreeUntracked)
  {
    if HasAddr(t.records, memAlloc) {
      UnlinkOk(t, bytesOf, AddrId(t.records, memAlloc));
    }
  }

  /** `installMemory` adds a record only for an address it does not
      track: the new record heads that address's bucket and ends the order
      list. For a tracked address only `number` and `size` change; the
      description and both list positions stay. Either way the address is
      tracked afterwards, by a record with the given counts. */
  lemma InstalledShape(t: Table, bytesOf: Addr -> seq<int>, memAlloc: Addr, number: SizeT, size: SizeT,
                       description: string)
    requires TableOk(t, bytesOf) && memAlloc != NULL
    ensures var t2 := Installed(t, bytesOf, memAlloc, number, size, description);
            && HasAddr(t2.records, memAlloc)
            && var id := AddrId(t2.records, memAlloc);
            && t2.records[id].number == number && t2.records[id].size == size
            && (HasAddr(t.records, memAlloc) ==>
                  && id == AddrId(t.records, memAlloc)
                  && t2.records == t.records[id := t.records[id].(number := number, size := size)]
                  && t2.buckets == t.buckets && t2.order == t.order && t2.first == t.first && t2.last == t.last
                  && |t2.records| == |t.records|)
            && (!HasAddr(t.records, memAlloc) ==>
                  && id !in t.records
                  && t2.records == t.records[id := Entry(number, size, description, memAlloc)]
                  && t2.buckets[BucketOf(bytesOf, memAlloc)] == [id] + t.buckets[BucketOf(bytesOf, memAlloc)]
                  && t2.order == t.order + [id] && t2.last == Some(id)
                  && |t2.records| == |t.records| + 1)
  {
    InstalledOk(t, bytesOf, memAlloc, number, size, description);
    var t2 := Installed(t, bytesOf, memAlloc, number, size, description);
    if HasAddr(t.records, memAlloc) {
      var x := AddrId(t.records, memAlloc);
      assert t2.records[x].memAlloc == memAlloc;
    } else {
      assert t2.records[t.nextId].memAlloc == memAlloc;
    }
  }

  /** Installing the same address twice leaves as many records, in the same
      order, as installing it once. */
  lemma InstallIdempotent(t: Table, bytesOf: Addr -> seq<int>, memAlloc: Addr, number: SizeT, size: SizeT,
                          description: string, number2: SizeT, size2: SizeT, description2: string)
    requires TableOk(t, bytesOf) && memAlloc != NULL
    ensures var t1 := Installed(t, bytesOf, memAlloc, number, size, description);
            var t2 := Installed(t1, bytesOf, memAlloc, number2, size2, description2);
            |t2.records| == |t1.records| && t2.order == t1.order && t2.buckets == t1.buckets
  {
    InstalledOk(t, bytesOf, memAlloc, number, size, description);
    InstalledShape(t, bytesOf, memAlloc, number, size, description);
    InstalledShape(Installed(t, bytesOf, memAlloc, number, size, description), bytesOf, memAlloc,
                   number2, size2, description2);
  }

  /** `updateMemory` keeps the record's identity, description and place in
      the order list: afterwards the new address is tracked by it, with the
      new counts, at the head of its bucket; the old address, if different,
      is no longer tracked; every other record is unchanged. */
  lemma RelinkShape(t: Table, bytesOf: Addr -> seq<int>, id: Id, newAddress: Addr, number: SizeT, size: SizeT)
    requires TableOk(t, bytesOf) && id in t.records
    requires newAddress != NULL && (newAddress == t.records[id].memAlloc || !HasAddr(t.records, newAddress))
    ensures var t2 := Relink(t, bytesOf, id, newAddress, number, size);
            && t2.order == t.order && t2.first == t.first && t2.last == t.last
            && t2.records.Keys == t.records.Keys
            && HasAddr(t2.records, newAddress) && AddrId(t2.records, newAddress) == id
            && t2.records[id] == Entry(number, size, t.records[id].description, newAddress)
            && t2.buckets[BucketOf(bytesOf, newAddress)][0] == id
            && (t.records[id].memAlloc != newAddress ==> !HasAddr(t2.records, t.records[id].memAlloc))
            && (forall j :: j in t.records && j != id ==> t2.records[j] == t.records[j])
  {
    RelinkRecords(t.records, id, newAddress, number, size);
  }

  /** Readdressing one record of a map with distinct addresses: the new
      address names that record, and the old one, if different, none. */
  lemma RelinkRecords(recs: map<Id, Entry>, id: Id, newAddress: Addr, number: SizeT, size: SizeT)
    requires id in recs && (newAddress == recs[id].memAlloc || !HasAddr(recs, newAddress))
    requires forall i, j :: i in recs && j in recs && recs[i].memAlloc == recs[j].memAlloc ==> i == j
    ensures var r2 := recs[id := recs[id].(memAlloc := newAddress, number := number, size := size)];
            && HasAddr(r2, newAddress) && AddrId(r2, newAddress) == id
            && (recs[id].memAlloc != newAddress ==> !HasAddr(r2, recs[id].memAlloc))
  {
    var r2 := recs[id := recs[id].(memAlloc := newAddress, number := number, size := size)];
    assert r2[id].memAlloc == newAddress;
  }

  /** `removeMemory` on a tracked address removes exactly its record, from
      the records, its bucket and the order list, where the others keep
      their relative order; afterwards the address is untracked. On any
      other address it is an error and the table is unchanged. */
  lemma RemovedShape(t: Table, bytesOf: Addr -> seq<int>, memAlloc: Addr)
    requires TableOk(t, bytesOf)
    ensures var (t2, st) := Removed(t, bytesOf, memAlloc);
            && (HasAddr(t.records, memAlloc) ==>
                  var x := AddrId(t.records, memAlloc);
                  var k := IndexOf(t.order, x);
                  && st == Ok && t2.records == t.records - {x} && |t2.records| == |t.records| - 1
                  && t2.order == t.order[..k] + t.order[k + 1..]
                  && x !in t2.buckets[BucketOf(bytesOf, memAlloc)]
                  && !HasAddr(t2.records, memAlloc))
            && (!HasAddr(t.records, memAlloc) ==> t2 == t && st == Fatal(FreeUntracked))
  {
    if HasAddr(t.records, memAlloc) {
      var x := AddrId(t.records, memAlloc);
      UnlinkShape(t.buckets, t.records, t.order, bytesOf, x);
    }
  }

  /** The parts of `Unlink` that `RemovedShape` states, over the fields it
      needs. */
  lemma UnlinkShape(buckets: seq<seq<Id>>, recs: map<Id, Entry>, order: seq<Id>, bytesOf: Addr -> seq<int>, x: Id)
    requires |buckets| == HASHSIZE && x in recs && x in order && NoDup(order)
    requires forall i, j :: i in recs && j in recs && recs[i].memAlloc == recs[j].memAlloc ==> i == j
    ensures var h := BucketOf(bytesOf, recs[x].memAlloc);
            var k := IndexOf(order, x);
            && |recs - {x}| == |recs| - 1
            && RemoveId(order, x) == order[..k] + order[k + 1..]
            && x !in buckets[h := RemoveId(buckets[h], x)][h]
            && !HasAddr(recs - {x}, recs[x].memAlloc)
  {
    RemoveIdAt(order, IndexOf(order, x));
  }

  /** Removing the only record empties the list and leaves `last` naming
      it, but the next install tests `first`, which is NULL, and so makes
      the new record both `first` and `last`. */
  lemma StaleLastHarmless(t: Table, bytesOf: Addr -> seq<int>, x: Id, memAlloc: Addr, number: SizeT, size: SizeT,
                          description: string)
    requires TableOk(t, bytesOf) && t.order == [x] && memAlloc != NULL
    ensures var t1 := Removed(t, bytesOf, t.records[x].memAlloc).0;
            var t2 := Installed(t1, bytesOf, memAlloc, number, size, description);
            && t1.order == [] && t1.first == None && t1.last == Some(x)
            && t2.order == [t1.nextId] && t2.first == Some(t1.nextId) && t2.last == Some(t1.nextId)
  {
    assert x in t.records;
    var a := t.records[x].memAlloc;
    assert HasAddr(t.records, a);
    RemovedShape(t, bytesOf, a);
    RemovedOk(t, bytesOf, a);
    var t1 := Removed(t, bytesOf, a).0;
    assert t1.records == map[] by {
      assert t.records.Keys == {x};
    }
  }

  class MemTable {
    /** The raw bytes of a pointer value, as the platform's `char`s. */
    const bytesOf: Addr -> seq<int>
    /** `memTable`: bucket `b` holds the records reached from `memTable[b]`
        through `nextInBucket`, head first. */
    const memTable: array<seq<Id>>
    var first: Option<Id>
    var last: Option<Id>
    /** The records from `first` through `nextInstalled`. */
    var order: seq<Id>
    /** The allocated `memTableEntry` records. */
    var records: map<Id, Entry>
    /** Identities not yet handed out: a fresh `calloc` of a record. */
    var nextId: Id

    /** The bucket `hash` picks for an address. */
    function Bucket(a: Addr): (b: nat)
      ensures b < HASHSIZE
    {
      BucketOf(bytesOf, a)
    }

    /** The whole state as a value. */
    ghost function Snapshot(): Table
      reads this, memTable
    {
      Table(memTable[..], records, order, first, last, nextId)
    }

    ghost predicate Valid()
      reads this, memTable
    {
      memTable.Length == HASHSIZE && TableOk(Snapshot(), bytesOf)
    }

    ghost predicate Tracked(a: Addr)
      reads this
    {
      HasAddr(records, a)
    }

    /** The record of a tracked address. */
    ghost function IdOf(a: Addr): (id: Id)
      reads this
      requires Tracked(a)
      ensures id in records && records[id].memAlloc == a
    {
      AddrId(records, a)
    }

    /** The zero-initialised static table. */
    constructor (bytesOf: Addr -> seq<int>)
      ensures Valid() && this.bytesOf == bytesOf && fresh(memTable)
      ensures Snapshot() == Table(seq(HASHSIZE, _ => []), map[], [], None, None, 0)
    {
      this.bytesOf := bytesOf;
      memTable := new seq<Id>[HASHSIZE](_ => []);
      first, last := None, None;
      order := [];
      records := map[];
      nextId := 0;
    }

    /** `lookupMemory`: walk the address's bucket for its record. */
    method Lookup(memAlloc: Addr) returns (r: Option<Id>)
      requires Valid()
      ensures r.Some? <==> Tracked(memAlloc)
      ensures r.Some? ==> r.value == IdOf(memAlloc)
    {
      var hashValue := Hash(bytesOf(memAlloc));
      var chain := memTable[hashValue];
      var i := 0;
      while i < |chain|
        invariant 0 <= i <= |chain|
        invariant forall j :: 0 <= j < i ==> records[chain[j]].memAlloc != memAlloc
      {
        if records[chain[i]].memAlloc == memAlloc {
          return Some(chain[i]);
        }
        i := i + 1;
      }
      return None;
    }

    /** `installMemory`: a tracked address gets its `number` and `size`
        overwritten, any other gets a fresh record. */
    method Install(memAlloc: Addr, number: SizeT, size: SizeT, description: string)
      requires Valid() && memAlloc != NULL
      modifies this, memTable
      ensures Snapshot() == Installed(old(Snapshot()), bytesOf, memAlloc, number, size, description)
      ensures Valid()
    {
      var memEntry := Lookup(memAlloc);
      if memEntry.None? {
        LinkOk(Snapshot(), bytesOf, Entry(number, size, description, memAlloc));
        LinkEntry(memAlloc, number, size, description);
      } else {
        OverwriteOk(Snapshot(), bytesOf, memEntry.value, number, size);
        SetCounts(memEntry.value, number, size);
      }
    }

    /** The new-record path of `installMemory`: a fresh record heads its
        address's bucket and is linked after `last`. */
    method LinkEntry(memAlloc: Addr, number: SizeT, size: SizeT, description: string)
      requires memTable.Length == HASHSIZE
      modifies this, memTable
      ensures Snapshot() == Link(old(Snapshot()), bytesOf, Entry(number, size, description, memAlloc))
    {
      var id := nextId;
      var hashValue := Hash(bytesOf(memAlloc));
      memTable[hashValue] := [id] + memTable[hashValue];
      nextId := nextId + 1;
      if first.None? {
        first := Some(id);
      }
      last := Some(id);
      order := order + [id];
      records := records[id := Entry(number, size, description, memAlloc)];
    }

    /** The last two assignments of `installMemory`. */
    method SetCounts(id: Id, number: SizeT, size: SizeT)
      requires id in records
      modifies this`records
      ensures Snapshot() == Overwrite(old(Snapshot()), id, number, size)
    {
      records := records[id := records[id].(number := number, size := size)];
    }

    /** `removeBucketEntry` with the splice it intends: the record at
        `address` is unlinked from its bucket wherever it stands, and the
        walk stops once it has been unlinked. */
    method RemoveBucketEntry(address: Addr) returns (deleted: Id)
      requires memTable.Length == HASHSIZE && ChainFinds(memTable[Bucket(address)], records, address)
      modifies memTable
      ensures deleted == AddrId(records, address)
      ensures Snapshot() == old(Snapshot()).(buckets := old(memTable[..])[Bucket(address) :=
                                               RemoveId(old(memTable[Bucket(address)]), deleted)])
    {
      var hashValue := Hash(bytesOf(address));
      var chain := memTable[hashValue];
      ghost var target := AddrId(records, address);
      ghost var k := IndexOf(chain, target);
      if records[chain[0]].memAlloc == address {
        deleted := chain[0];
        memTable[hashValue] := chain[1..];
        RemoveIdAt(chain, 0);
      } else {
        var i := 0;
        while records[chain[i + 1]].memAlloc != address
          invariant 0 <= i < k
          decreases k - i
        {
          i := i + 1;
        }
        deleted := chain[i + 1];
        memTable[hashValue] := chain[..i + 1] + chain[i + 2..];
        RemoveIdAt(chain, i + 1);
      }
    }

    /** `removeBucketEntry` as written. A NULL dereference is undefined
        behaviour, after which nothing is promised about the bucket. */
    method RemoveBucketEntryAsWritten(address: Addr) returns (r: BucketResult)
      requires memTable.Length == HASHSIZE && ChainsOk(memTable[..], records, bytesOf)
      modifies memTable
      ensures r == RemoveAsWritten(old(memTable[Bucket(address)]), records, address)
      ensures r.Deleted? ==> memTable[Bucket(address)] == r.chain
      ensures forall b :: 0 <= b < HASHSIZE && b != Bucket(address) ==> memTable[b] == old(memTable[b])
    {
      var hashValue := Hash(bytesOf(address));
      var thisBucket := memTable[hashValue];
      if thisBucket == [] {
        return NullDeref(302);
      }
      if records[thisBucket[0]].memAlloc == address {
        memTable[hashValue] := thisBucket[1..];
        return Deleted(thisBucket[1..], thisBucket[0]);
      }
      var chain := thisBucket;
      var deleted: Option<Id> := None;
      var i := 0;
      while i < |chain|
        invariant i <= |chain| && AllIn(chain, records)
        invariant ScanFrom(chain, i, deleted, records, address) == RemoveAsWritten(thisBucket, records, address)
        invariant memTable[hashValue] == chain
        invariant forall b :: 0 <= b < HASHSIZE && b != hashValue ==> memTable[b] == old(memTable[b])
        decreases |chain| - i
      {
        if i + 1 == |chain| {
          return NullDeref(312);
        }
        if records[chain[i + 1]].memAlloc == address {
          deleted := Some(chain[i + 1]);
          chain := chain[..i + 1] + chain[i + 2..];
          memTable[hashValue] := chain;
        }
        i := i + 1;
      }
      if deleted.None? {
        return Vanished;
      }
      return Deleted(chain, deleted.value);
    }

    /** `updateMemory`: rehash a record that realloc moved. */
    method UpdateMemory(memEntry: Id, oldAddress: Addr, newAddress: Addr, number: SizeT, size: SizeT)
      requires Valid() && memEntry in records && records[memEntry].memAlloc == oldAddress
      requires newAddress != NULL && (newAddress == oldAddress || !Tracked(newAddress))
      modifies this`records, memTable
      ensures Snapshot() == Relink(old(Snapshot()), bytesOf, memEntry, newAddress, number, size)
      ensures Valid()
    {
      RelinkOk(Snapshot(), bytesOf, memEntry, newAddress, number, size);
      ChainsFind(memTable[..], records, bytesOf, oldAddress);
      var gone := RemoveBucketEntry(oldAddress);
      Rebucket(memEntry, newAddress, number, size);
    }

    /** The rest of `updateMemory`: the record heads the new address's
        bucket and takes the new address, number and size. */
    method Rebucket(memEntry: Id, newAddress: Addr, number: SizeT, size: SizeT)
      requires memTable.Length == HASHSIZE && memEntry in records
      modifies this`records, memTable
      ensures Snapshot() == old(Snapshot()).(buckets := old(memTable[..])[Bucket(newAddress) := [memEntry] + old(memTable[Bucket(newAddress)])],
                                            records := old(records)[memEntry := old(records)[memEntry].(memAlloc := newAddress, number := number, size := size)])
    {
      var newHashValue := Hash(bytesOf(newAddress));
      memTable[newHashValue] := [memEntry] + memTable[newHashValue];
      records := records[memEntry := records[memEntry].(memAlloc := newAddress, number := number, size := size)];
    }

    /** `removeMemory`: a tracked record leaves the order list and its
        bucket and is freed; an untracked address is an error. */
    method RemoveMemory(memAlloc: Addr) returns (st: Status)
      requires Valid()
      modifies this`first, this`last, this`order, this`records, memTable
      ensures (Snapshot(), st) == Removed(old(Snapshot()), bytesOf, memAlloc)
      ensures Valid()
    {
      var memEntry := Lookup(memAlloc);
      if memEntry.None? {
        return Fatal(FreeUntracked);
      }
      var id := memEntry.value;
      UnlinkOk(Snapshot(), bytesOf, id);
      ChainsFind(memTable[..], records, bytesOf, memAlloc);
      UnlinkInstalled(id);
      var deleted := RemoveBucketEntry(memAlloc);
      Discard(deleted);
      return Ok;
    }

    /** The first half of `removeMemory`: unlink record `id` from the
        first-to-last list. */
    method UnlinkInstalled(id: Id)
      requires id in order && NoDup(order)
      modifies this`first, this`last, this`order
      ensures Snapshot() == old(Snapshot()).(order := RemoveId(old(order), id), first := UnlinkedFirst(old(order), old(first), id),
                                            last := UnlinkedLast(old(order), old(first), old(last), id))
    {
      var k := IndexOf(order, id);
      var next := if k + 1 < |order| then Some(order[k + 1]) else None;
      if first == Some(id) {
        first := next;
      } else if next.None? && k > 0 {
        last := Some(order[k - 1]);
      }
      RemoveIdAt(order, k);
      order := order[..k] + order[k + 1..];
    }

    /** The two `free` calls of `removeMemory`: the record is gone. */
    method Discard(id: Id)
      modifies this`records
      ensures Snapshot() == old(Snapshot()).(records := old(records) - {id})
    {
      records := records - {id};
    }

    /** The loop of `initMemTable`: every bucket set to NULL. */
    method ClearBuckets()
      requires memTable.Length == HASHSIZE
      modifies memTable
      ensures memTable[..] == seq(HASHSIZE, _ => [])
    {
      for i := 0 to HASHSIZE
        invariant forall b :: 0 <= b < HASHSIZE && b < i ==> memTable[b] == []
      {
        memTable[i] := [];
      }
    }
  }
}
