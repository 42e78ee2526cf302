/** The array descriptor of the runtime: per-dimension offset and block
    size derived from a domain's `lo..hi by str`, the element count, and
    the flat offsets the access macros compute (`_INIT_ARRAY`, `_ACC1`,
    `_ACC2`, `_ACC3`). C `int` arithmetic is taken as unbounded here. */
module ArrayLayout {
  import opened CTypes

  /** One dimension of a domain: `lo..hi by str`. */
  datatype DomDim = DomDim(lo: int, hi: int, str: int)

  /** One dimension of an array descriptor (`_arr_perdim`). */
  datatype PerDim = PerDim(off: int, blk: int)

  /** Every stride can be divided by (C leaves a zero divisor undefined). */
  predicate Strided(dom: seq<DomDim>)
  {
    forall k :: 0 <= k < |dom| ==> dom[k].str != 0
  }

  /** The number of slots a dimension gets: `(hi - lo + 1) / str`, truncating. */
  function Extent(d: DomDim): int
    requires d.str != 0
  {
    TruncDiv(d.hi - d.lo + 1, d.str)
  }

  /** The product of the extents, the reference for block and total sizes. */
  function Volume(dom: seq<DomDim>): int
    requires Strided(dom)
  {
    if |dom| == 0 then 1 else Extent(dom[0]) * Volume(dom[1..])
  }

  /** The block size the initialisation loop gives dimension `k`: 1 for
      the innermost, and the next dimension's block times its extent for
      each outer one. */
  function Blk(dom: seq<DomDim>, k: nat): int
    requires Strided(dom) && k < |dom|
    decreases |dom| - k
  {
    if k == |dom| - 1 then 1 else Blk(dom, k + 1) * Extent(dom[k + 1])
  }

  /** The descriptor's `dim_info` after initialisation. */
  function Layout(dom: seq<DomDim>): seq<PerDim>
    requires Strided(dom)
  {
    seq(|dom|, k requires 0 <= k < |dom| => PerDim(dom[k].lo, Blk(dom, k)))
  }

  /** The descriptor's `size`: the outermost block times the outermost extent. */
  function Size(dom: seq<DomDim>): int
    requires Strided(dom) && |dom| >= 1
  {
    Blk(dom, 0) * Extent(dom[0])
  }

  /** The flat offset of an index tuple: the sum over dimensions of
      `(i - off) * blk`. The stride does not take part. */
  function Offset(info: seq<PerDim>, idx: seq<int>): int
    requires |idx| == |info|
  {
    if |idx| == 0 then 0 else (idx[0] - info[0].off) * info[0].blk + Offset(info[1..], idx[1..])
  }

  lemma OffsetSingle(p: PerDim, i: int)
    ensures Offset([p], [i]) == (i - p.off) * p.blk
  {
    assert [p][1..] == [] && [i][1..] == [];
  }

  /** Every index lies in its dimension's `lo..hi`. */
  predicate InDomain(dom: seq<DomDim>, idx: seq<int>)
  {
    |idx| == |dom| && forall k :: 0 <= k < |dom| ==> dom[k].lo <= idx[k] <= dom[k].hi
  }

  /** Every stride is 1. */
  predicate UnitStrides(dom: seq<DomDim>)
  {
    forall k :: 0 <= k < |dom| ==> dom[k].str == 1
  }

  /** A dimension's block is the product of the extents inside it. */
  lemma {:induction false} BlkIsVolume(dom: seq<DomDim>, k: nat)
    requires Strided(dom) && k < |dom|
    ensures Blk(dom, k) == Volume(dom[k + 1..])
    decreases |dom| - k
  {
    if k == |dom| - 1 {
      assert dom[k + 1..] == [];
    } else {
      BlkIsVolume(dom, k + 1);
      assert dom[k + 1..][1..] == dom[k + 2..];
    }
  }

  /** The element count is the product of all extents. */
  lemma SizeIsVolume(dom: seq<DomDim>)
    requires Strided(dom) && |dom| >= 1
    ensures Size(dom) == Volume(dom)
  {
    BlkIsVolume(dom, 0);
  }

  /** Every dimension's offset is its domain's `lo`, the innermost block is
      1, and each outer block is the next block times the next extent. */
  lemma LayoutShape(dom: seq<DomDim>)
    requires Strided(dom) && |dom| >= 1
    ensures |Layout(dom)| == |dom|
    ensures forall k :: 0 <= k < |dom| ==> Layout(dom)[k].off == dom[k].lo
    ensures Layout(dom)[|dom| - 1].blk == 1
    ensures forall k :: 0 <= k < |dom| - 1 ==>
              Layout(dom)[k].blk == Layout(dom)[k + 1].blk * Extent(dom[k + 1])
  {
  }

  /** Blocks are computed from the inside out, so dropping the outermost
      dimension leaves the other blocks as they were. */
  lemma {:induction false} BlkTail(dom: seq<DomDim>, k: nat)
    requires Strided(dom) && 1 <= k < |dom|
    ensures Blk(dom, k) == Blk(dom[1..], k - 1)
    decreases |dom| - k
  {
    if k < |dom| - 1 {
      BlkTail(dom, k + 1);
    }
  }

  lemma LayoutTail(dom: seq<DomDim>)
    requires Strided(dom) && |dom| >= 1
    ensures Layout(dom)[1..] == Layout(dom[1..])
  {
    forall k | 0 <= k < |dom| - 1
      ensures Layout(dom)[1..][k] == Layout(dom[1..])[k]
    {
      BlkTail(dom, k + 1);
    }
  }

  lemma MulBelow(a: int, e: int, v: int, r: int)
    requires 0 <= a < e && 0 <= r < v
    ensures 0 <= a * v + r < e * v
  {
    assert a * v <= (e - 1) * v;
  }

  /** With every stride 1, an index tuple inside the domain has an offset
      in `[0, Volume)`. */
  lemma {:induction false} OffsetBelowVolume(dom: seq<DomDim>, idx: seq<int>)
    requires Strided(dom) && UnitStrides(dom) && InDomain(dom, idx)
    ensures 0 <= Offset(Layout(dom), idx) < Volume(dom)
  {
    if |dom| > 0 {
      var e := Extent(dom[0]);
      assert e == dom[0].hi - dom[0].lo + 1;
      OffsetBelowVolume(dom[1..], idx[1..]);
      LayoutTail(dom);
      BlkIsVolume(dom, 0);
      MulBelow(idx[0] - dom[0].lo, e, Volume(dom[1..]), Offset(Layout(dom[1..]), idx[1..]));
    }
  }

  /** With every stride 1, the access macros stay inside the `size`
      elements the descriptor allocates. */
  lemma InBounds(dom: seq<DomDim>, idx: seq<int>)
    requires Strided(dom) && UnitStrides(dom) && |dom| >= 1 && InDomain(dom, idx)
    ensures 0 <= Offset(Layout(dom), idx) < Size(dom)
  {
    OffsetBelowVolume(dom, idx);
    SizeIsVolume(dom);
  }

  /** Raising index `k` by one moves the offset by that dimension's block. */
  lemma {:induction false} OffsetStep(info: seq<PerDim>, idx: seq<int>, k: nat)
    requires |idx| == |info| && k < |idx|
    ensures Offset(info, idx[k := idx[k] + 1]) == Offset(info, idx) + info[k].blk
  {
    if k > 0 {
      OffsetStep(info[1..], idx[1..], k - 1);
      assert idx[k := idx[k] + 1][1..] == idx[1..][k - 1 := idx[k] + 1];
    } else {
      assert idx[0 := idx[0] + 1][1..] == idx[1..];
    }
  }

  /** Row-major order: raising the last index by one moves the offset by one. */
  lemma RowMajor(dom: seq<DomDim>, idx: seq<int>)
    requires Strided(dom) && |dom| >= 1 && |idx| == |dom|
    ensures Offset(Layout(dom), idx[|idx| - 1 := idx[|idx| - 1] + 1]) == Offset(Layout(dom), idx) + 1
  {
    OffsetStep(Layout(dom), idx, |idx| - 1);
  }

  /** `0..8 by 2` gets `9 / 2 == 4` slots although it holds five indices,
      and since the offset ignores the stride, index 4 sits at offset 4 and
      index 8 at offset 8, past the end. */
  lemma StridedOverrun()
    ensures var dom := [DomDim(0, 8, 2)];
            && Size(dom) == 4
            && Offset(Layout(dom), [4]) == 4
            && InDomain(dom, [8]) && Offset(Layout(dom), [8]) >= Size(dom)
  {
    var dom := [DomDim(0, 8, 2)];
    assert Layout(dom) == [PerDim(0, 1)];
  }

  /** `1..10 × 1..5`: blocks 5 and 1, fifty elements, and offsets 0, 5
      and 1 for `(1, 1)`, `(2, 1)` and `(1, 2)`. */
  lemma RankTwoExample()
    ensures var dom := [DomDim(1, 10, 1), DomDim(1, 5, 1)];
            && Layout(dom) == [PerDim(1, 5), PerDim(1, 1)]
            && Size(dom) == 50
            && Offset(Layout(dom), [1, 1]) == 0
            && Offset(Layout(dom), [2, 1]) == 5
            && Offset(Layout(dom), [1, 2]) == 1
  {
    var dom := [DomDim(1, 10, 1), DomDim(1, 5, 1)];
    var lay := [PerDim(1, 5), PerDim(1, 1)];
    assert Blk(dom, 1) == 1;
    assert Layout(dom) == lay;
    assert lay[1..] == [PerDim(1, 1)] && lay[1..][1..] == [];
    assert Offset(lay, [1, 1]) == 0 + Offset(lay[1..], [1]);
    assert Offset(lay, [2, 1]) == 5 + Offset(lay[1..], [1]);
    assert Offset(lay, [1, 2]) == 0 + Offset(lay[1..], [2]);
  }

  /** An array descriptor: element size, element count, storage, the
      domain it was built from, and one `(off, blk)` pair per dimension. */
  class ArrayDescriptor {
    var elemsize: int
    var size: int
    var base: Addr
    var domain: seq<DomDim>
    const dimInfo: array<PerDim>

    constructor (rank: nat)
      requires rank >= 1
      ensures fresh(dimInfo) && dimInfo.Length == rank
      ensures base == NULL
    {
      dimInfo := new PerDim[rank](_ => PerDim(0, 0));
      elemsize, size, base, domain := 0, 0, NULL, [];
    }

    /** `_INIT_ARRAY` for a descriptor of rank `dimInfo.Length`, reading
        the domain's first `rank` dimensions. `raw` is what `malloc`
        answers for the `request` bytes; when it is NULL the macro only
        reports the shortage, and the descriptor is set up all the same. */
    method Init(dom: seq<DomDim>, elemSize: nat, raw: Addr) returns (request: SizeT, outOfMemory: bool)
      requires 1 <= dimInfo.Length <= |dom| && Strided(dom[..dimInfo.Length])
      modifies this, dimInfo
      ensures dimInfo[..] == Layout(dom[..dimInfo.Length])
      ensures size == Size(dom[..dimInfo.Length])
      ensures request == Wrap64(size * elemSize)
      ensures base == raw && outOfMemory == (raw == NULL)
      ensures elemsize == elemSize && domain == dom
    {
      elemsize := elemSize;
      domain := dom;
      var d := FillDims(dom[..dimInfo.Length]);
      var ext := TruncDiv(dom[d + 1].hi - dom[d + 1].lo + 1, dom[d + 1].str);
      size := dimInfo[0].blk * ext;
      request := Wrap64(size * elemSize);
      base := raw;
      outOfMemory := raw == NULL;
    }

    /** The loop of `_INIT_ARRAY`: from the innermost dimension outwards,
        each offset is the domain's `lo` and each block the next block
        times the next extent. It leaves its counter at -1. */
    method FillDims(dom: seq<DomDim>) returns (d: int)
      requires |dom| == dimInfo.Length >= 1 && Strided(dom)
      modifies dimInfo
      ensures dimInfo[..] == Layout(dom) && d == -1
    {
      var rank := dimInfo.Length;
      dimInfo[rank - 1] := PerDim(dom[rank - 1].lo, 1);
      d := rank - 2;
      while d >= 0
        invariant -1 <= d <= rank - 2
        invariant forall k :: d < k < rank ==> dimInfo[k] == PerDim(dom[k].lo, Blk(dom, k))
      {
        dimInfo[d] := PerDim(dom[d].lo,
                             dimInfo[d + 1].blk * TruncDiv(dom[d + 1].hi - dom[d + 1].lo + 1, dom[d + 1].str));
        d := d - 1;
      }
      assert dimInfo[..] == Layout(dom);
    }

    /** `_ACC1`: the flat offset of `base[i0]`. */
    function Acc1(i0: int): (r: int)
      reads dimInfo
      requires dimInfo.Length >= 1
      ensures r == Offset(dimInfo[..1], [i0])
    {
      assert dimInfo[..1] == [dimInfo[0]];
      OffsetSingle(dimInfo[0], i0);
      (i0 - dimInfo[0].off) * dimInfo[0].blk
    }

    /** `_ACC2`: the flat offset of `base[i0, i1]`. */
    function Acc2(i0: int, i1: int): (r: int)
      reads dimInfo
      requires dimInfo.Length >= 2
      ensures r == Offset(dimInfo[..2], [i0, i1])
    {
      assert dimInfo[..2][1..] == [dimInfo[1]] && [i0, i1][1..] == [i1];
      OffsetSingle(dimInfo[1], i1);
      (i0 - dimInfo[0].off) * dimInfo[0].blk + (i1 - dimInfo[1].off) * dimInfo[1].blk
    }

    /** `_ACC3`: the flat offset of `base[i0, i1, i2]`. */
    function Acc3(i0: int, i1: int, i2: int): (r: int)
      reads dimInfo
      requires dimInfo.Length >= 3
      ensures r == Offset(dimInfo[..3], [i0, i1, i2])
    {
      assert dimInfo[..3][1..] == [dimInfo[1], dimInfo[2]] && [i0, i1, i2][1..] == [i1, i2];
      assert [dimInfo[1], dimInfo[2]][1..] == [dimInfo[2]] && [i1, i2][1..] == [i2];
      OffsetSingle(dimInfo[2], i2);
      (i0 - dimInfo[0].off) * dimInfo[0].blk + (i1 - dimInfo[1].off) * dimInfo[1].blk
        + (i2 - dimInfo[2].off) * dimInfo[2].blk
    }
  }
}
