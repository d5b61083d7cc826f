/** The view mapping of a Kokkos view of FAD values (ViewSpecializeSacadoFad
    over LayoutLeft, LayoutRight or LayoutStride) and the mappings that assign
    one view to another or cut a subview out of one.

    A view of rank `rank` holding FAD values is stored as an array of base
    scalars of rank `rank + 1`: the hidden last axis holds the value and the
    derivatives of one FAD element, and its extent is the FAD size plus one.
    Memory is a flat sequence of base scalars; a handle is an index into it. */
module FadMapping {
  import opened Wrappers
  import opened ViewOffset
  import opened FadTraits

  /** A FAD reference: where the element's first base scalar lives, how many
      derivatives it has, and the distance between consecutive scalars. */
  datatype FadRef = FadRef(ptr: nat, size: nat, stride: nat)

  /** The functor that constructs (and later destroys) `count` values at `ptr`. */
  datatype ValueFunctor = ValueFunctor(ptr: nat, count: nat)

  /** The shared allocation record allocate_shared creates: its label (name), its size
      in bytes, its data address, its destroy functor (set only when values
      were constructed) and how many values were constructed. */
  datatype AllocationRecord = AllocationRecord(
    name: string, size: nat, data: nat, destroy: Option<ValueFunctor>, constructed: nat)

  function Zeros(n: nat): (z: seq<nat>)
    ensures |z| == n && forall k :: 0 <= k < n ==> z[k] == 0
  {
    seq(n, _ => 0)
  }

  /** The offset of a FAD mapping built from a layout without padding: the
      logical axes plus the hidden one, whose static extent (when the FAD size
      is static) overrides the layout's value. */
  function FadOffset(layout: ArrayLayout, rank: nat, staticDim: nat): (o: Offset)
    requires WellFormedLayout(layout) && rank < MaxRank
    ensures WellFormed(o) && o.kind == layout.kind && |o.dims| == rank + 1
    ensures forall k :: 0 <= k < rank ==> o.dims[k] == layout.dimension[k]
    ensures o.dims[rank] == if staticDim != 0 then staticDim + 1 else layout.dimension[rank]
  {
    FromLayout(layout, rank + 1, AppendedExtent(staticDim))
  }

  /** Bytes a FAD view with this layout needs (memory_span): the span of its
      unpadded offset times the size of one base scalar. */
  function MemorySpan(layout: ArrayLayout, rank: nat, staticDim: nat, scalarBytes: nat): (n: nat)
    requires WellFormedLayout(layout) && rank < MaxRank
    ensures layout.kind != Stride ==> n == Product(FadOffset(layout, rank, staticDim).dims) * scalarBytes
    ensures scalarBytes >= 1 ==> (n == 0 <==> 0 in FadOffset(layout, rank, staticDim).dims)
  {
    var o := FadOffset(layout, rank, staticDim);
    CompactSpan(layout, rank, staticDim);
    SpanZeroIff(o);
    Span(o) * scalarBytes
  }

  lemma {:induction false} CompactSpan(layout: ArrayLayout, rank: nat, staticDim: nat)
    requires WellFormedLayout(layout) && rank < MaxRank
    ensures layout.kind != Stride ==>
              Span(FadOffset(layout, rank, staticDim)) == Product(FadOffset(layout, rank, staticDim).dims)
  {
    if layout.kind != Stride {
      CompactLayoutOffset(layout, rank + 1, AppendedExtent(staticDim));
    }
  }

  /** The shape of a FAD offset built from a LayoutRight or LayoutLeft
      layout, and when its span is empty. */
  lemma {:induction false} FadOffsetShape(layout: ArrayLayout, rank: nat, staticDim: nat)
    requires WellFormedLayout(layout) && rank < MaxRank
    ensures var o := FadOffset(layout, rank, staticDim);
      && (layout.kind == Right ==> RightShaped(o) && o.strides[rank] == 1)
      && (layout.kind == Left ==> LeftShaped(o))
      && (Span(o) == 0 <==> 0 in o.dims)
  {
    var o := FadOffset(layout, rank, staticDim);
    if layout.kind != Stride {
      CompactLayoutOffset(layout, rank + 1, AppendedExtent(staticDim));
    }
    if layout.kind == Right {
      RightStridesLast(o.dims);
    }
    SpanZeroIff(o);
  }

  /** Every in-range index of an offset lands below its span. */
  lemma {:induction false} AllBelowSpan(o: Offset)
    requires WellFormed(o)
    ensures forall idx :: InBounds(idx, o.dims) ==> At(o, idx) < Span(o)
  {
    forall idx | InBounds(idx, o.dims) ensures At(o, idx) < Span(o) {
      OffsetBelowSpan(o, idx);
    }
  }

  /** A span is 0 exactly when some extent is. */
  lemma {:induction false} SpanZeroIff(o: Offset)
    requires WellFormed(o)
    ensures Span(o) == 0 <==> 0 in o.dims
  {
  }

  /** The last stride of a compact row-major offset is one. */
  lemma {:induction false} RightStridesLast(d: seq<nat>)
    requires |d| >= 1
    ensures RightStrides(d)[|d| - 1] == 1
  {
    assert d[|d|..] == [];
  }

  /** The base scalar j of the element at `idx` lies j strides of the hidden
      axis past scalar 0. */
  lemma {:induction false} ComponentAddress(o: Offset, idx: seq<nat>, j: nat)
    requires WellFormed(o) && |idx| + 1 == |o.dims|
    ensures At(o, idx + [j]) == At(o, idx + [0]) + j * o.strides[|idx|]
  {
    var n := |idx|;
    DotSnoc(idx + [j], o.strides);
    DotSnoc(idx + [0], o.strides);
    assert (idx + [j])[..n] == idx && (idx + [0])[..n] == idx;
  }

  /** The mapping of a view of FAD values. */
  class FadViewMapping {
    /** Public rank, layout, static FAD size (0 when dynamic), constness. */
    const rank: nat
    const kind: LayoutKind
    const staticDim: nat
    const isConst: bool

    var handle: nat
    var offset: Offset
    var fadSize: nat
    var fadStride: nat

    /** The shape facts every mapping keeps; a static FAD size or the static
        unit stride of LayoutRight fix the stored values. */
    ghost predicate Valid()
      reads this
    {
      && rank < MaxRank
      && WellFormed(offset) && |offset.dims| == rank + 1 && offset.kind == kind
      && (staticDim != 0 ==> offset.dims[rank] == staticDim + 1 && fadSize == staticDim)
      && (kind == Right ==> fadStride == 1)
    }

    /** The FAD size and stride describe the hidden axis. */
    ghost predicate Consistent()
      reads this
      requires Valid()
    {
      fadSize + 1 == offset.dims[rank] && fadStride == offset.strides[rank]
    }

    /** The flattened array type of this view (logical extents run-time). */
    function ScalarArrayType(): (t: ArrayType)
      reads this
      ensures t.element == ScalarElement && t.isConst == isConst
      ensures t.dims == Zeros(rank) + [AppendedExtent(staticDim)]
    {
      FadViewDataAnalysis(Zeros(rank), isConst, Plain(kind), staticDim).scalarArrayType
    }

    /** The default mapping: no data, zero extents, FAD size and stride 0
        unless fixed statically. */
    constructor Default(rank: nat, kind: LayoutKind, staticDim: nat, isConst: bool)
      requires rank < MaxRank
      ensures this.rank == rank && this.kind == kind && this.staticDim == staticDim && this.isConst == isConst
      ensures Valid()
      ensures handle == 0 && offset.strides == Zeros(rank + 1)
      ensures offset.dims == Zeros(rank) + [AppendedExtent(staticDim)]
      ensures fadSize == staticDim && fadStride == FadStaticStride(kind)
    {
      this.rank := rank;
      this.kind := kind;
      this.staticDim := staticDim;
      this.isConst := isConst;
      handle := 0;
      offset := Offset(kind, Zeros(rank) + [AppendedExtent(staticDim)], Zeros(rank + 1));
      fadSize := staticDim;
      fadStride := FadStaticStride(kind);
    }

    /** The mapping over existing memory at `ptr` with the given layout.  The
        source aborts when the FAD size is dynamic and the layout's hidden
        extent is 0. */
    constructor FromHandle(rank: nat, kind: LayoutKind, staticDim: nat, isConst: bool,
                           ptr: nat, layout: ArrayLayout)
      requires rank < MaxRank && WellFormedLayout(layout) && layout.kind == kind
      requires staticDim != 0 || layout.dimension[rank] != 0
      ensures this.rank == rank && this.kind == kind && this.staticDim == staticDim && this.isConst == isConst
      ensures Valid() && Consistent()
      ensures handle == ptr && offset == FadOffset(layout, rank, staticDim)
      ensures fadSize == if staticDim != 0 then staticDim else layout.dimension[rank] - 1
      ensures fadStride == offset.strides[rank]
      ensures forall r :: 0 <= r < rank ==> Extent(r) == layout.dimension[r]
      ensures kind == Right ==> RightShaped(offset)
      ensures kind == Left ==> LeftShaped(offset)
    {
      this.rank := rank;
      this.kind := kind;
      this.staticDim := staticDim;
      this.isConst := isConst;
      handle := ptr;
      var o := FadOffset(layout, rank, staticDim);
      FadOffsetShape(layout, rank, staticDim);
      offset := o;
      var fadDim := o.dims[rank];
      fadSize := if staticDim != 0 then staticDim else fadDim - 1;
      if kind == Right {
        fadStride := 1;
      } else {
        fadStride := o.strides[rank];
      }
    }

    /** extent(r) and dimension_r(): the logical extent within the public
        rank, 1 beyond it (the hidden axis is never reported). */
    function Extent(r: nat): (e: nat)
      reads this
      requires Valid()
      ensures r < rank ==> e == offset.dims[r]
      ensures r >= rank ==> e == 1
    {
      if r < rank then offset.dims[r] else 1
    }

    /** layout(): the logical extents, 0 in every slot from the public rank on,
        so the hidden axis is dropped. */
    function Layout(): (l: ArrayLayout)
      reads this
      requires Valid()
      ensures WellFormedLayout(l) && l.kind == kind
      ensures forall k :: 0 <= k < MaxRank ==> l.dimension[k] == if k < rank then Extent(k) else 0
      ensures l.dimension[rank] == 0
    {
      var d, r := offset.dims, rank;
      ArrayLayout(kind, seq(MaxRank, k requires 0 <= k < MaxRank => if k < r then d[k] else 0), Zeros(MaxRank))
    }

    /** stride_k(): never reported for a FAD view. */
    function StrideOf(k: nat): (s: nat)
      ensures s == 0
    {
      0
    }

    /** dimension_scalar(): the FAD size plus one, which is the extent of the
        hidden axis. */
    function DimensionScalar(): (d: nat)
      reads this
      requires Valid()
      ensures d >= 1
      ensures Consistent() ==> d == offset.dims[rank]
      ensures staticDim != 0 ==> d == staticDim + 1
    {
      fadSize + 1
    }

    /** span(): one past the largest offset an in-range index reaches. */
    function Span(): (s: nat)
      reads this
      requires Valid()
      ensures forall idx :: InBounds(idx, offset.dims) ==> At(offset, idx) < s
      ensures s == 0 <==> 0 in offset.dims
    {
      AllBelowSpan(offset);
      ViewOffset.Span(offset)
    }

    /** span_is_contiguous(): never guaranteed. */
    function SpanIsContiguous(): (b: bool)
      ensures !b
    {
      false
    }

    /** reference(i0, ..., ik): the FAD element at those logical indices. */
    function Reference(idx: seq<nat>): (r: FadRef)
      reads this
      requires Valid() && |idx| == rank
      ensures r.size == fadSize && r.stride == fadStride
      ensures r.ptr == handle + At(offset, idx + [0])
    {
      FadRef(handle + At(offset, idx + [0]), fadSize, fadStride)
    }

    /** Base scalar j of a referenced element is the one the hidden axis puts
        at j. */
    lemma {:induction false} ReferenceAddresses(idx: seq<nat>, j: nat)
      requires Valid() && Consistent() && |idx| == rank
      ensures Reference(idx).ptr + j * Reference(idx).stride == handle + At(offset, idx + [j])
    {
      ComponentAddress(offset, idx, j);
    }

    /** Over a row- or column-major offset no two base scalars of in-range
        elements share an address. */
    lemma {:induction false} ReferencesDisjoint(i: seq<nat>, a: nat, j: seq<nat>, b: nat)
      requires Valid() && Consistent() && |i| == rank && |j| == rank
      requires RightShaped(offset) || LeftShaped(offset)
      requires InBounds(i + [a], offset.dims) && InBounds(j + [b], offset.dims)
      requires Reference(i).ptr + a * Reference(i).stride == Reference(j).ptr + b * Reference(j).stride
      ensures i == j && a == b
    {
      ReferenceAddresses(i, a);
      ReferenceAddresses(j, b);
      if RightShaped(offset) {
        RightShapedInjective(offset, i + [a], j + [b]);
      } else {
        LeftShapedInjective(offset, i + [a], j + [b]);
      }
      assert (i + [a])[..rank] == i && (j + [b])[..rank] == j;
      assert (i + [a])[rank] == a && (j + [b])[rank] == b;
    }

    /** allocate_shared: rebuilds the offset from the allocation layout (the
        caller's, or the one a CommonViewAllocProp rewrote), derives the FAD
        size and stride from it, allocates span times scalar bytes at `base`,
        and only when that is non-zero sets the handle and, if asked to
        initialise, constructs the values and installs their destroy functor.
        The source aborts on a dynamic FAD size whose hidden extent is 0. */
    method AllocateShared(props: seq<CtorProp>, localLayout: ArrayLayout, name: string,
                          initialize: bool, scalarBytes: nat, base: nat)
      returns (record: AllocationRecord)
      modifies this
      requires Valid() && WellFormedLayout(localLayout) && localLayout.kind == kind
      requires scalarBytes >= 1
      requires staticDim != 0 || AllocationLayout(props, localLayout, rank).dimension[rank] != 0
      ensures Valid() && Consistent()
      ensures offset == FadOffset(AllocationLayout(props, localLayout, rank), rank, staticDim)
      ensures fadSize == offset.dims[rank] - 1 && fadStride == offset.strides[rank]
      ensures record.name == name && record.data == base
      ensures record.size == ViewOffset.Span(offset) * scalarBytes
      ensures record.size == MemorySpan(AllocationLayout(props, localLayout, rank), rank, staticDim, scalarBytes)
      ensures record.size == 0 <==> 0 in offset.dims
      ensures handle == if record.size != 0 then base else old(handle)
      ensures record.destroy ==
                if record.size != 0 && initialize then Some(ValueFunctor(base, ViewOffset.Span(offset))) else None
      ensures record.constructed == if record.size != 0 && initialize then ViewOffset.Span(offset) else 0
      ensures kind == Right ==> RightShaped(offset)
      ensures kind == Left ==> LeftShaped(offset)
    {
      var layout := AllocationLayout(props, localLayout, rank);
      FadOffsetShape(layout, rank, staticDim);
      var o := FadOffset(layout, rank, staticDim);
      var size := if staticDim == 0 then o.dims[rank] - 1 else fadSize;
      var stride := if kind != Right then o.strides[rank] else fadStride;
      var span := ViewOffset.Span(o);
      var allocSize := MemorySpan(layout, rank, staticDim, scalarBytes);
      var constructs := allocSize != 0 && initialize;
      offset, fadSize, fadStride := o, size, stride;
      record := AllocationRecord(name, allocSize, base,
                                 if constructs then Some(ValueFunctor(base, span)) else None,
                                 if constructs then span else 0);
      if allocSize != 0 {
        handle := base;
      }
    }

    /** Assignment of a FAD view to a FAD view: layouts equal or the
        destination strided, flattened types equal up to added const.  The
        destination aliases the source's memory and takes its FAD size and
        stride. */
    method AssignFrom(src: FadViewMapping)
      modifies this
      requires Valid() && src.Valid()
      requires kind == src.kind || kind == Stride
      requires ScalarArrayAssignable(ScalarArrayType(), src.ScalarArrayType())
      ensures Valid()
      ensures offset == Convert(old(src.offset), kind) && handle == old(src.handle)
      ensures fadSize == old(src.fadSize) && fadStride == old(src.fadStride)
      ensures old(src.Consistent()) ==> Consistent()
      ensures forall idx :: |idx| == rank ==> Reference(idx) == old(src.Reference(idx))
    {
      assert ScalarArrayType().dims == src.ScalarArrayType().dims;
      assert rank == src.rank by {
        assert |ScalarArrayType().dims| == rank + 1;
      }
      assert AppendedExtent(staticDim) == AppendedExtent(src.staticDim) by {
        assert ScalarArrayType().dims[rank] == AppendedExtent(staticDim);
      }
      offset := Convert(src.offset, kind);
      handle := src.handle;
      fadSize := src.fadSize;
      fadStride := src.fadStride;
    }

    /** Subview assignment: the destination (rank = number of range arguments,
        layout chosen by SubviewLayout) views the source's elements selected
        by `args`, the hidden axis taken whole. */
    method AssignSubview(src: FadViewMapping, args: seq<SubArg>)
      modifies this
      requires src != this
      requires Valid() && src.Valid() && |args| == src.rank
      requires ValidArgs(args, src.offset.dims[..src.rank])
      requires rank == SubRank(args) && kind == SubviewLayout(src.kind, args)
      requires staticDim == src.staticDim && isConst == src.isConst
      ensures Valid()
      ensures offset == SubOffset(src.offset, kind, args)
      ensures handle == src.handle + At(src.offset, Starts(args + [All]))
      ensures fadSize == src.fadSize && fadStride == src.fadStride
      ensures src.Consistent() ==> Consistent()
      ensures forall idx :: |idx| == rank ==> Reference(idx) == src.Reference(Expand(args, idx))
    {
      var o, h, size, stride := src.offset, src.handle, src.fadSize, src.fadStride;
      var full := args + [All];
      var sub := SubOffset(o, kind, args);
      assert sub.dims[rank] == o.dims[src.rank] && sub.strides[rank] == o.strides[src.rank];
      assert kind == Right ==> src.kind == Right;
      offset, handle, fadSize, fadStride := sub, h + At(o, Starts(full)), size, stride;
      forall idx | |idx| == rank
        ensures Reference(idx) == src.Reference(Expand(args, idx))
      {
        SubviewAliases(o, kind, args, idx);
      }
    }
  }

  /** The mapping of a view of ordinary base scalars (the destination of
      View<ordinary> = View<FAD>). */
  class PlainViewMapping {
    /** Rank (at least one), layout, static extent of the last axis (0 when
        dynamic), constness. */
    const rank: nat
    const kind: LayoutKind
    const staticLast: nat
    const isConst: bool

    var handle: nat
    var offset: Offset

    ghost predicate Valid()
      reads this
    {
      && 1 <= rank <= MaxRank
      && WellFormed(offset) && |offset.dims| == rank && offset.kind == kind
      && (staticLast != 0 ==> offset.dims[rank - 1] == staticLast)
    }

    /** The array type of this view (all but the last extent run-time). */
    function ScalarArrayType(): (t: ArrayType)
      reads this
      requires rank >= 1
      ensures t == ArrayType(ScalarElement, isConst, Zeros(rank - 1) + [staticLast])
    {
      ArrayType(ScalarElement, isConst, Zeros(rank - 1) + [staticLast])
    }

    constructor Default(rank: nat, kind: LayoutKind, staticLast: nat, isConst: bool)
      requires 1 <= rank <= MaxRank
      ensures this.rank == rank && this.kind == kind && this.staticLast == staticLast && this.isConst == isConst
      ensures Valid() && handle == 0
      ensures offset == Offset(kind, Zeros(rank - 1) + [staticLast], Zeros(rank))
    {
      this.rank := rank;
      this.kind := kind;
      this.staticLast := staticLast;
      this.isConst := isConst;
      handle := 0;
      offset := Offset(kind, Zeros(rank - 1) + [staticLast], Zeros(rank));
    }

    /** Assignment of a FAD view to a view of base scalars of one more rank:
        the destination aliases the source's memory, the hidden axis becoming
        its last axis; there is no FAD size or stride to copy. */
    method AssignFromFad(src: FadViewMapping)
      modifies this
      requires Valid() && src.Valid()
      requires kind == src.kind || kind == Stride
      requires ScalarArrayAssignable(ScalarArrayType(), src.ScalarArrayType())
      ensures Valid()
      ensures offset == Convert(old(src.offset), kind) && handle == old(src.handle)
      ensures old(src.Consistent()) ==> forall idx: seq<nat>, j: nat :: |idx| == src.rank ==>
                handle + At(offset, idx + [j]) == old(src.Reference(idx).ptr + j * src.Reference(idx).stride)
    {
      assert rank == src.rank + 1 by {
        assert |ScalarArrayType().dims| == |src.ScalarArrayType().dims|;
      }
      assert staticLast == AppendedExtent(src.staticDim) by {
        assert ScalarArrayType().dims[rank - 1] == src.ScalarArrayType().dims[rank - 1];
      }
      offset := Convert(src.offset, kind);
      handle := src.handle;
      if old(src.Consistent()) {
        forall idx: seq<nat>, j: nat | |idx| == src.rank
          ensures handle + At(offset, idx + [j]) == old(src.Reference(idx).ptr + j * src.Reference(idx).stride)
        {
          ComponentAddress(src.offset, idx, j);
        }
      }
    }
  }

  // ---------------------------------------------------------------------------
  // Subviews

  /** A subview argument per logical axis: one index, a half-open range, or
      the whole axis. */
  datatype SubArg = Index(i: nat) | Range(lo: nat, hi: nat) | All

  predicate ValidArg(a: SubArg, extent: nat)
  {
    match a
    case Index(i) => i < extent
    case Range(lo, hi) => lo <= hi <= extent
    case All => true
  }

  predicate ValidArgs(args: seq<SubArg>, dims: seq<nat>)
  {
    |args| == |dims| && forall k :: 0 <= k < |args| ==> ValidArg(args[k], dims[k])
  }

  /** Rank of the subview: the arguments that keep an axis. */
  function SubRank(args: seq<SubArg>): (r: nat)
    ensures r <= |args|
  {
    if args == [] then 0 else (if args[0].Index? then 0 else 1) + SubRank(args[1..])
  }

  /** Extents of the kept axes. */
  function SubDims(args: seq<SubArg>, dims: seq<nat>): (d: seq<nat>)
    requires ValidArgs(args, dims)
    ensures |d| == SubRank(args)
  {
    if args == [] then []
    else
      var rest := SubDims(args[1..], dims[1..]);
      match args[0]
      case Index(_) => rest
      case Range(lo, hi) => [hi - lo] + rest
      case All => [dims[0]] + rest
  }

  /** Strides of the kept axes: the parent's. */
  function SubStrides(args: seq<SubArg>, strides: seq<nat>): (s: seq<nat>)
    requires |args| == |strides|
    ensures |s| == SubRank(args)
  {
    if args == [] then []
    else
      var rest := SubStrides(args[1..], strides[1..]);
      if args[0].Index? then rest else [strides[0]] + rest
  }

  /** The parent index where the subview starts (domain_offset). */
  function Starts(args: seq<SubArg>): (s: seq<nat>)
    ensures |s| == |args|
  {
    if args == [] then []
    else
      var first := match args[0] case Index(i) => i case Range(lo, _) => lo case All => 0;
      [first] + Starts(args[1..])
  }

  /** The parent index of a subview index. */
  function Expand(args: seq<SubArg>, idx: seq<nat>): (p: seq<nat>)
    requires |idx| == SubRank(args)
    ensures |p| == |args|
  {
    if args == [] then []
    else
      match args[0]
      case Index(i) => [i] + Expand(args[1..], idx)
      case Range(lo, _) => [lo + idx[0]] + Expand(args[1..], idx[1..])
      case All => [idx[0]] + Expand(args[1..], idx[1..])
  }

  /** The subview's layout: the source's when no axis is kept, when a
      LayoutRight source keeps only its last logical axis as a range, or when
      a rank-one LayoutLeft source keeps its axis as a range; else LayoutStride. */
  function SubviewLayout(srcKind: LayoutKind, args: seq<SubArg>): (k: LayoutKind)
    ensures k == srcKind || k == Stride
    ensures k == srcKind <==>
              || srcKind == Stride
              || SubRank(args) == 0
              || (srcKind == Right && SubRank(args) == 1 && |args| >= 1 && !args[|args| - 1].Index?)
              || (srcKind == Left && SubRank(args) == 1 && |args| == 1 && !args[0].Index?)
  {
    var rank := SubRank(args);
    var lastIsRange := |args| >= 1 && !args[|args| - 1].Index?;
    var firstIsRange := |args| >= 1 && !args[0].Index?;
    if rank == 0 || (srcKind == Right && rank == 1 && lastIsRange)
       || (srcKind == Left && rank == 1 && |args| == 1 && firstIsRange)
    then srcKind
    else Stride
  }

  /** The subview's offset: the kept axes of the parent, the hidden axis
      whole, the parent's strides. */
  function SubOffset(o: Offset, kind: LayoutKind, args: seq<SubArg>): (r: Offset)
    requires WellFormed(o) && |o.dims| == |args| + 1 && ValidArgs(args, o.dims[..|args|])
    ensures WellFormed(r) && r.kind == kind && |r.dims| == SubRank(args) + 1
    ensures r.dims[SubRank(args)] == o.dims[|args|] && r.strides[SubRank(args)] == o.strides[|args|]
    ensures r.dims[..SubRank(args)] == SubDims(args, o.dims[..|args|])
    ensures r.strides[..SubRank(args)] == SubStrides(args, o.strides[..|args|])
  {
    var n := |args|;
    var full := args + [All];
    assert o.dims[..n] + [o.dims[n]] == o.dims;
    ValidArgsSnoc(args, o.dims[..n], o.dims[n]);
    SubviewSnoc(args, All, o.dims, o.strides);
    assert o.dims[n..] == [o.dims[n]] && o.strides[n..] == [o.strides[n]];
    Offset(kind, SubDims(full, o.dims), SubStrides(full, o.strides))
  }

  /** A subview aliases its parent: the subview's offset of an index, shifted
      by the parent's offset of the subview's start, is the parent's offset of
      the expanded index, and an in-range index expands to an in-range one. */
  lemma {:induction false} SubviewAliases(o: Offset, kind: LayoutKind, args: seq<SubArg>, idx: seq<nat>)
    requires WellFormed(o) && |o.dims| == |args| + 1 && ValidArgs(args, o.dims[..|args|])
    requires |idx| == SubRank(args)
    ensures At(SubOffset(o, kind, args), idx + [0]) + At(o, Starts(args + [All])) == At(o, Expand(args, idx) + [0])
    ensures SubRank(args + [All]) == |idx| + 1
    ensures forall j :: InBounds(idx + [j], SubOffset(o, kind, args).dims) ==>
              InBounds(Expand(args + [All], idx + [j]), o.dims)
  {
    var n := |args|;
    var full := args + [All];
    assert o.dims[..n] + [o.dims[n]] == o.dims;
    ValidArgsSnoc(args, o.dims[..n], o.dims[n]);
    SubviewSnoc(args, All, o.dims, o.strides);
    assert o.dims[n..] == [o.dims[n]] && o.strides[n..] == [o.strides[n]];
    ExpandSnoc(args, idx);
    SubviewAddress(full, o.dims, o.strides, idx + [0]);
    forall j | InBounds(idx + [j], SubOffset(o, kind, args).dims)
      ensures InBounds(Expand(full, idx + [j]), o.dims)
    {
      SubviewAddress(full, o.dims, o.strides, idx + [j]);
    }
  }

  lemma {:induction false} ExpandSnoc(args: seq<SubArg>, idx: seq<nat>)
    requires |idx| == SubRank(args)
    ensures SubRank(args + [All]) == |idx| + 1
    ensures Expand(args + [All], idx + [0]) == Expand(args, idx) + [0]
  {
    var full := args + [All];
    if args == [] {
      assert full == [All];
    } else {
      assert full[1..] == args[1..] + [All];
      if args[0].Index? {
        ExpandSnoc(args[1..], idx);
      } else {
        assert (idx + [0])[1..] == idx[1..] + [0];
        ExpandSnoc(args[1..], idx[1..]);
      }
    }
  }

  /** A subview that keeps the LayoutRight or LayoutLeft tag keeps the shape
      that makes such an offset injective. */
  lemma {:induction false} SubviewKeepsShape(o: Offset, args: seq<SubArg>)
    requires WellFormed(o) && |o.dims| == |args| + 1 && ValidArgs(args, o.dims[..|args|])
    ensures RightShaped(o) && SubviewLayout(Right, args) == Right ==> RightShaped(SubOffset(o, Right, args))
    ensures LeftShaped(o) && SubviewLayout(Left, args) == Left ==> LeftShaped(SubOffset(o, Left, args))
  {
    var n, m := |args|, SubRank(args);
    if m == 0 {
      NoAxisKeepsShape(o, args);
    } else if m == 1 && n >= 1 && !args[n - 1].Index? {
      LastRangeOffset(o, args);
      if LeftShaped(o) && n == 1 {
        MulMonotone(SubOffset(o, Left, args).dims[0], o.dims[0], o.strides[0]);
      }
    }
  }

  /** A subview keeping no logical axis is the hidden axis alone. */
  lemma {:induction false} NoAxisKeepsShape(o: Offset, args: seq<SubArg>)
    requires WellFormed(o) && |o.dims| == |args| + 1 && ValidArgs(args, o.dims[..|args|])
    requires SubRank(args) == 0
    ensures RightShaped(o) ==> RightShaped(SubOffset(o, Right, args))
    ensures LeftShaped(o) ==> LeftShaped(SubOffset(o, Left, args))
  {
    var n, d, s := |args|, o.dims, o.strides;
    if LeftShaped(o) {
      AllDropped(args);
      forall k | 0 <= k < n ensures d[k] >= 1 {
        assert ValidArg(args[k], o.dims[..n][k]);
      }
      LeftStridePositive(d, s, n);
    }
  }

  /** A subview keeping only the last logical axis, as a range no longer
      than that axis: its offset has that axis and the hidden one, with the
      parent's strides. */
  lemma {:induction false} LastRangeOffset(o: Offset, args: seq<SubArg>)
    requires WellFormed(o) && |o.dims| == |args| + 1 && ValidArgs(args, o.dims[..|args|])
    requires SubRank(args) == 1 && |args| >= 1 && !args[|args| - 1].Index?
    ensures var n := |args|;
      var r := SubOffset(o, Right, args);
      && SubOffset(o, Left, args).dims == r.dims && SubOffset(o, Left, args).strides == r.strides
      && |r.dims| == 2 && r.dims[0] <= o.dims[n - 1] && r.dims[1] == o.dims[n]
      && r.strides == [o.strides[n - 1], o.strides[n]]
  {
    var n, d, s := |args|, o.dims, o.strides;
    var r := SubOffset(o, Right, args);
    var init := args[..n - 1];
    assert args == init + [args[n - 1]];
    SubviewSnoc(init, args[n - 1], d[..n], s[..n]);
    assert d[..n][..n - 1] == d[..n - 1] && s[..n][..n - 1] == s[..n - 1];
    assert d[..n][n - 1..] == [d[n - 1]] && s[..n][n - 1..] == [s[n - 1]];
    assert SubDims(init, d[..n - 1]) == [] && SubStrides(init, s[..n - 1]) == [];
    assert SubStrides(args, s[..n]) == [s[n - 1]];
    var e := SubDims(args, d[..n])[0];
    assert r.strides[..1] == [s[n - 1]] && r.dims[..1] == [e];
    assert r.dims == [e, d[n]] && r.strides == [s[n - 1], s[n]];
    assert e <= d[n - 1] by {
      assert SubDims(args, d[..n]) == SubDims([args[n - 1]], [d[n - 1]]);
      assert ValidArg(args[n - 1], d[..n][n - 1]);
    }
  }

  /** A subview keeping no axis has only index arguments. */
  lemma {:induction false} AllDropped(args: seq<SubArg>)
    requires SubRank(args) == 0
    ensures forall k :: 0 <= k < |args| ==> args[k].Index?
  {
    if args != [] {
      AllDropped(args[1..]);
      assert forall k :: 1 <= k < |args| ==> args[k] == args[1..][k - 1];
    }
  }

  /** In a left-shaped offset, a stride after axes of non-zero extent is
      non-zero. */
  lemma {:induction false} LeftStridePositive(d: seq<nat>, s: seq<nat>, m: nat)
    requires LeftShaped(Offset(Left, d, s)) && m < |d|
    requires forall k :: 0 <= k < m ==> d[k] >= 1
    ensures s[m] >= 1
  {
    if m > 0 {
      LeftStridePositive(d, s, m - 1);
      MulMonotone(1, d[m - 1], s[m - 1]);
    }
  }

  lemma {:induction false} SubRankSnoc(args: seq<SubArg>, x: SubArg)
    ensures SubRank(args + [x]) == SubRank(args) + (if x.Index? then 0 else 1)
  {
    if args == [] {
      assert [x][1..] == [];
    } else {
      assert (args + [x])[1..] == args[1..] + [x];
      SubRankSnoc(args[1..], x);
    }
  }

  /** The positions of the arguments that keep an axis (ranges and ALL). */
  function KeptPositions(args: seq<SubArg>): (ks: set<nat>)
    ensures forall k: nat :: k in ks <==> k < |args| && !args[k].Index?
  {
    set k: nat | k < |args| && !args[k].Index?
  }

  /** The subview rank counts the arguments that keep an axis. */
  lemma {:induction false} SubRankCountsKept(args: seq<SubArg>)
    ensures SubRank(args) == |KeptPositions(args)|
  {
    if args == [] {
      assert KeptPositions(args) == {};
    } else {
      var n := |args| - 1;
      var init, x := args[..n], args[n];
      assert args == init + [x];
      SubRankCountsKept(init);
      SubRankSnoc(init, x);
      var before := KeptPositions(init);
      assert n !in before;
      if x.Index? {
        assert KeptPositions(args) == before;
      } else {
        assert KeptPositions(args) == before + {n};
      }
    }
  }

  lemma {:induction false} ValidArgsSnoc(args: seq<SubArg>, dims: seq<nat>, extent: nat)
    requires ValidArgs(args, dims)
    ensures ValidArgs(args + [All], dims + [extent])
  {
    var a, d := args + [All], dims + [extent];
    forall k | 0 <= k < |a| ensures ValidArg(a[k], d[k]) {
      if k < |args| {
        assert a[k] == args[k] && d[k] == dims[k];
      }
    }
  }

  lemma {:induction false} ValidArgsInit(args: seq<SubArg>, x: SubArg, dims: seq<nat>)
    requires ValidArgs(args + [x], dims)
    ensures ValidArgs(args, dims[..|args|])
  {
    var full := args + [x];
    forall k | 0 <= k < |args| ensures ValidArg(args[k], dims[..|args|][k]) {
      assert full[k] == args[k];
    }
  }

  /** The first argument of a non-empty argument list and the rest; the
      arguments' validity and the dimensions split alike. */
  lemma {:induction false} ValidArgsTail(args: seq<SubArg>, dims: seq<nat>)
    requires ValidArgs(args, dims) && args != []
    ensures ValidArgs(args[1..], dims[1..]) && ValidArg(args[0], dims[0])
  {
    forall k | 0 <= k < |args| - 1 ensures ValidArg(args[1..][k], dims[1..][k]) {
      assert ValidArg(args[k + 1], dims[k + 1]);
    }
  }

  /** The kept extents of the first argument, then those of the rest. */
  lemma {:induction false} SubDimsCons(args: seq<SubArg>, dims: seq<nat>)
    requires ValidArgs(args, dims) && args != []
    ensures ValidArgs(args[1..], dims[1..]) && ValidArgs(args[..1], dims[..1])
    ensures SubDims(args, dims) == SubDims(args[..1], dims[..1]) + SubDims(args[1..], dims[1..])
  {
    ValidArgsTail(args, dims);
    assert args[..1][1..] == [] && dims[..1][1..] == [];
  }

  lemma {:induction false} SubDimsSnoc(args: seq<SubArg>, x: SubArg, dims: seq<nat>)
    requires ValidArgs(args + [x], dims)
    ensures ValidArgs(args, dims[..|args|]) && ValidArgs([x], dims[|args|..])
    ensures SubDims(args + [x], dims) == SubDims(args, dims[..|args|]) + SubDims([x], dims[|args|..])
  {
    var n := |args|;
    var full := args + [x];
    ValidArgsInit(args, x, dims);
    assert full[n] == x;
    if n == 0 {
      assert full == [x] && dims[0..] == dims;
    } else {
      var head, dhead := args[..1], dims[..1];
      SubDimsCons(full, dims);
      SubDimsCons(args, dims[..n]);
      assert full[..1] == head && full[1..] == args[1..] + [x];
      assert dims[..n][..1] == dhead && dims[1..][..n - 1] == dims[..n][1..];
      assert dims[1..][n - 1..] == dims[n..];
      SubDimsSnoc(args[1..], x, dims[1..]);
      var a, b, c := SubDims(head, dhead), SubDims(args[1..], dims[..n][1..]), SubDims([x], dims[n..]);
      assert SubDims(full, dims) == a + (b + c);
      assert a + (b + c) == (a + b) + c;
    }
  }

  lemma {:induction false} SubStridesSnoc(args: seq<SubArg>, x: SubArg, strides: seq<nat>)
    requires |strides| == |args| + 1
    ensures SubStrides(args + [x], strides) == SubStrides(args, strides[..|args|]) + SubStrides([x], strides[|args|..])
  {
    var n := |args|;
    var full := args + [x];
    if n == 0 {
      assert full == [x] && strides[0..] == strides;
    } else {
      assert full[1..] == args[1..] + [x];
      assert strides[1..][..n - 1] == strides[..n][1..];
      assert strides[1..][n - 1..] == strides[n..];
      SubStridesSnoc(args[1..], x, strides[1..]);
    }
  }

  lemma {:induction false} StartsSnoc(args: seq<SubArg>, x: SubArg)
    ensures Starts(args + [x]) == Starts(args) + Starts([x])
  {
    if args != [] {
      assert (args + [x])[1..] == args[1..] + [x];
      StartsSnoc(args[1..], x);
    }
  }

  /** Appending one argument appends (at most) one kept axis. */
  lemma {:induction false} SubviewSnoc(args: seq<SubArg>, x: SubArg, dims: seq<nat>, strides: seq<nat>)
    requires |dims| == |strides| == |args| + 1
    requires ValidArgs(args + [x], dims)
    ensures ValidArgs(args, dims[..|args|])
    ensures SubRank(args + [x]) == SubRank(args) + (if x.Index? then 0 else 1)
    ensures SubDims(args + [x], dims) == SubDims(args, dims[..|args|]) + SubDims([x], dims[|args|..])
    ensures SubStrides(args + [x], strides) == SubStrides(args, strides[..|args|]) + SubStrides([x], strides[|args|..])
    ensures Starts(args + [x]) == Starts(args) + Starts([x])
  {
    SubRankSnoc(args, x);
    SubDimsSnoc(args, x, dims);
    SubStridesSnoc(args, x, strides);
    StartsSnoc(args, x);
  }

  /** The offset of a subview index, from the subview's start, is the offset
      of its parent index; an in-range subview index has an in-range parent. */
  lemma {:induction false} SubviewAddress(args: seq<SubArg>, dims: seq<nat>, strides: seq<nat>, idx: seq<nat>)
    requires ValidArgs(args, dims) && |strides| == |args| && |idx| == SubRank(args)
    ensures Dot(idx, SubStrides(args, strides)) + Dot(Starts(args), strides) == Dot(Expand(args, idx), strides)
    ensures InBounds(idx, SubDims(args, dims)) ==> InBounds(Expand(args, idx), dims)
  {
    if args != [] {
      var rest := if args[0].Index? then idx else idx[1..];
      assert ValidArgs(args[1..], dims[1..]) by {
        forall k | 0 <= k < |args| - 1 ensures ValidArg(args[1..][k], dims[1..][k]) {
          assert ValidArg(args[k + 1], dims[k + 1]);
        }
      }
      SubviewAddress(args[1..], dims[1..], strides[1..], rest);
      assert args == [args[0]] + args[1..] && strides == [strides[0]] + strides[1..];
      if args[0].Index? {
        AddressDropped(args[0], args[1..], strides[0], strides[1..], idx);
      } else {
        assert idx == [idx[0]] + idx[1..];
        AddressKept(args[0], args[1..], strides[0], strides[1..], idx[0], idx[1..]);
      }
      InBoundsExpandCons(args, dims, idx);
    }
  }

  /** The arithmetic of one kept axis, kept apart from the sequence reasoning. */
  lemma {:induction false} StepArith(x: nat, y: nat, z: nat, i0: nat, st0: nat, e0: nat, s0: nat, a: nat, b: nat, c: nat)
    requires x == i0 * s0 + a && y == st0 * s0 + b && z == e0 * s0 + c
    requires e0 == st0 + i0 && a + b == c
    ensures x + y == z
  {
    assert (st0 + i0) * s0 == st0 * s0 + i0 * s0;
  }

  /** One step of the offset half of SubviewAddress, for a first argument
      that drops its axis. */
  lemma {:induction false} AddressDropped(x: SubArg, tail: seq<SubArg>, s0: nat, stail: seq<nat>, idx: seq<nat>)
    requires x.Index? && |stail| == |tail| && |idx| == SubRank(tail)
    requires Dot(idx, SubStrides(tail, stail)) + Dot(Starts(tail), stail) == Dot(Expand(tail, idx), stail)
    ensures var args := [x] + tail;
            Dot(idx, SubStrides(args, [s0] + stail)) + Dot(Starts(args), [s0] + stail)
            == Dot(Expand(args, idx), [s0] + stail)
  {
    var args, s := [x] + tail, [s0] + stail;
    assert args[1..] == tail && s[1..] == stail;
    assert SubStrides(args, s) == SubStrides(tail, stail);
    assert Starts(args) == [x.i] + Starts(tail);
    assert Expand(args, idx) == [x.i] + Expand(tail, idx);
    DotCons(Starts(args), s);
    DotCons(Expand(args, idx), s);
    assert ([x.i] + Starts(tail))[1..] == Starts(tail);
    assert ([x.i] + Expand(tail, idx))[1..] == Expand(tail, idx);
  }

  /** One step of the offset half of SubviewAddress, for a first argument
      that keeps its axis (starting at `start`). */
  lemma {:induction false} AddressKept(x: SubArg, tail: seq<SubArg>, s0: nat, stail: seq<nat>, i0: nat, itail: seq<nat>)
    requires !x.Index? && |stail| == |tail| && |itail| == SubRank(tail)
    requires Dot(itail, SubStrides(tail, stail)) + Dot(Starts(tail), stail) == Dot(Expand(tail, itail), stail)
    ensures var args, s, idx := [x] + tail, [s0] + stail, [i0] + itail;
            |idx| == SubRank(args) &&
            Dot(idx, SubStrides(args, s)) + Dot(Starts(args), s) == Dot(Expand(args, idx), s)
  {
    var args, s, idx := [x] + tail, [s0] + stail, [i0] + itail;
    assert args[1..] == tail && s[1..] == stail && idx[1..] == itail;
    var start := if x.Range? then x.lo else 0;
    var ss, st, e := SubStrides(args, s), Starts(args), Expand(args, idx);
    assert ss == [s0] + SubStrides(tail, stail);
    assert st == [start] + Starts(tail);
    assert e == [start + i0] + Expand(tail, itail);
    DotCons(idx, ss);
    DotCons(st, s);
    DotCons(e, s);
    assert ss[1..] == SubStrides(tail, stail) && st[1..] == Starts(tail) && e[1..] == Expand(tail, itail);
    StepArith(Dot(idx, ss), Dot(st, s), Dot(e, s), idx[0], st[0], e[0], s0,
              Dot(itail, SubStrides(tail, stail)), Dot(Starts(tail), stail), Dot(Expand(tail, itail), stail));
  }

  /** One step of the bounds half of SubviewAddress. */
  lemma {:induction false} InBoundsExpandCons(args: seq<SubArg>, dims: seq<nat>, idx: seq<nat>)
    requires ValidArgs(args, dims) && args != [] && |idx| == SubRank(args)
    requires var rest := if args[0].Index? then idx else idx[1..];
             InBounds(rest, SubDims(args[1..], dims[1..])) ==> InBounds(Expand(args[1..], rest), dims[1..])
    ensures InBounds(idx, SubDims(args, dims)) ==> InBounds(Expand(args, idx), dims)
  {
    if InBounds(idx, SubDims(args, dims)) {
      var rest := if args[0].Index? then idx else idx[1..];
      var e := Expand(args, idx);
      var sd := SubDims(args, dims);
      assert InBounds(rest, SubDims(args[1..], dims[1..])) by {
        if !args[0].Index? {
          forall k | 0 <= k < |rest| ensures rest[k] < SubDims(args[1..], dims[1..])[k] {
            assert rest[k] == idx[k + 1] && sd[k + 1] == SubDims(args[1..], dims[1..])[k];
          }
        }
      }
      assert e[1..] == Expand(args[1..], rest);
      forall k | 0 <= k < |e| ensures e[k] < dims[k] {
        if k == 0 {
          assert ValidArg(args[0], dims[0]);
          if !args[0].Index? {
            assert idx[0] < sd[0];
          }
        } else {
          assert e[k] == e[1..][k - 1] && dims[k] == dims[1..][k - 1];
        }
      }
    }
  }
}
