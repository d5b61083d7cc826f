/** Type-level rules of the Sacado FAD view specialisation: how many base scalars
    a view's FAD elements carry (dimension_scalar), the allocation property that
    carries that number from sibling views into a new allocation, and how the
    data-type analysis reshapes a view of FAD values into an array of base
    scalars with one extra axis.

    Kokkos records a compile-time extent as a positive number and a run-time
    extent as 0; the extents below follow that convention. */
module FadTraits {
  import opened ViewOffset

  // ---------------------------------------------------------------------------
  // dimension_scalar

  /** An argument handed to dimension_scalar: a view of FAD values (with the FAD
      size its mapping carries), a view of ordinary values, or anything else. */
  datatype Arg = FadView(fadSize: nat) | PlainView | NotAView

  /** dimension_scalar of one argument: the FAD mapping's fad size plus one for
      a FAD view (the extent of its hidden axis), 0 for everything else. */
  function DimensionScalar(a: Arg): (r: nat)
    ensures a.FadView? <==> r != 0
    ensures a.FadView? ==> r == a.fadSize + 1
  {
    match a
    case FadView(n) => n + 1
    case _ => 0
  }

  /** dimension_scalar over several arguments: the first one's value against the
      rest's, the larger wins. */
  function DimensionScalarOf(views: seq<Arg>): (r: nat)
    requires |views| >= 1
    ensures forall k :: 0 <= k < |views| ==> DimensionScalar(views[k]) <= r
    ensures exists k :: 0 <= k < |views| && DimensionScalar(views[k]) == r
    ensures r == 0 <==> forall k :: 0 <= k < |views| ==> !views[k].FadView?
  {
    if |views| == 1 then
      DimensionScalar(views[0])
    else
      var dim0 := DimensionScalar(views[0]);
      var dim1 := DimensionScalarOf(views[1..]);
      assert forall k :: 1 <= k < |views| ==> views[k] == views[1..][k - 1];
      if dim0 >= dim1 then dim0 else dim1
  }

  /** Only FAD views decide the result: removing or adding ordinary views and
      non-views anywhere does not change it. */
  lemma {:induction false} DimensionScalarIgnoresPlain(views: seq<Arg>, extra: Arg)
    requires |views| >= 1 && !extra.FadView?
    ensures DimensionScalarOf(views + [extra]) == DimensionScalarOf(views)
    ensures DimensionScalarOf([extra] + views) == DimensionScalarOf(views)
  {
    var r, r' := DimensionScalarOf(views), DimensionScalarOf(views + [extra]);
    var k :| 0 <= k < |views| && DimensionScalar(views[k]) == r;
    assert (views + [extra])[k] == views[k];
    var k' :| 0 <= k' < |views| + 1 && DimensionScalar((views + [extra])[k']) == r';
    if k' == |views| {
      assert r' == 0;
    } else {
      assert (views + [extra])[k'] == views[k'];
    }
    var p := [extra] + views;
    assert p[1..] == views;
  }

  // ---------------------------------------------------------------------------
  // CommonViewAllocProp and the property pack

  /** The allocation property carrying the FAD dimension of sibling views. */
  datatype CommonViewAllocProp = CommonViewAllocProp(fadDim: nat, isViewType: bool)

  /** A property with no sibling views. */
  function NoSiblings(): (p: CommonViewAllocProp)
    ensures p.fadDim == 0 && !p.isViewType
  {
    CommonViewAllocProp(0, false)
  }

  predicate IsView(a: Arg)
  {
    a.FadView? || a.PlainView?
  }

  /** The property built from sibling views: the FAD dimension is the largest
      over all of them; whether they are views is judged by the first alone. */
  function FromSiblings(views: seq<Arg>): (p: CommonViewAllocProp)
    requires |views| >= 1
    ensures forall k :: 0 <= k < |views| ==> DimensionScalar(views[k]) <= p.fadDim
    ensures exists k :: 0 <= k < |views| && DimensionScalar(views[k]) == p.fadDim
    ensures p.fadDim == 0 <==> forall k :: 0 <= k < |views| ==> !views[k].FadView?
    ensures p.isViewType <==> views[0].FadView? || views[0].PlainView?
  {
    CommonViewAllocProp(DimensionScalarOf(views), IsView(views[0]))
  }

  /** One entry of a view constructor's property pack. */
  datatype CtorProp = CommonAlloc(prop: CommonViewAllocProp) | OtherProp

  /** Whether the pack holds a CommonViewAllocProp, by the same head-then-rest
      recursion as the trait. */
  function HasCommonViewAllocProp(props: seq<CtorProp>): (r: bool)
    ensures r <==> exists k :: 0 <= k < |props| && props[k].CommonAlloc?
  {
    if props == [] then false
    else if props[0].CommonAlloc? then true
    else
      assert forall k :: 1 <= k < |props| ==> props[k] == props[1..][k - 1];
      HasCommonViewAllocProp(props[1..])
  }

  /** The CommonViewAllocProp a pack holds (the first one). */
  function CommonPropOf(props: seq<CtorProp>): (p: CommonViewAllocProp)
    requires HasCommonViewAllocProp(props)
    ensures exists k :: (0 <= k < |props| && props[k] == CommonAlloc(p)
                         && forall m :: 0 <= m < k ==> !props[m].CommonAlloc?)
  {
    if props[0].CommonAlloc? then
      assert props[0] == CommonAlloc(props[0].prop);
      props[0].prop
    else
      var p := CommonPropOf(props[1..]);
      var k :| 0 <= k < |props| - 1 && props[1..][k] == CommonAlloc(p)
               && forall m :: 0 <= m < k ==> !props[1..][m].CommonAlloc?;
      assert props[k + 1] == CommonAlloc(p);
      assert forall m :: 1 <= m < k + 1 ==> props[m] == props[1..][m - 1];
      p
  }

  /** The layout with the FAD dimension written into slot `rank` (the hidden
      axis); a FAD dimension of 0 is written as 1. */
  function ReturnNewLayoutPlusFad(prop: CommonViewAllocProp, layout: ArrayLayout, rank: nat): (r: ArrayLayout)
    requires WellFormedLayout(layout) && rank < MaxRank
    ensures WellFormedLayout(r) && r.kind == layout.kind && r.stride == layout.stride
    ensures r.dimension[rank] == if prop.fadDim != 0 then prop.fadDim else 1
    ensures forall k :: 0 <= k < MaxRank && k != rank ==> r.dimension[k] == layout.dimension[k]
  {
    var appended := if prop.fadDim > 0 then prop.fadDim else 1;
    layout.(dimension := layout.dimension[rank := appended])
  }

  /** The layout allocate_shared builds its offset from: rewritten by the
      pack's CommonViewAllocProp when there is one and it came from views,
      else the caller's layout. */
  function AllocationLayout(props: seq<CtorProp>, layout: ArrayLayout, rank: nat): (r: ArrayLayout)
    requires WellFormedLayout(layout) && rank < MaxRank
    ensures WellFormedLayout(r) && r.kind == layout.kind
    ensures !HasCommonViewAllocProp(props) ==> r == layout
    ensures HasCommonViewAllocProp(props) && !CommonPropOf(props).isViewType ==> r == layout
    ensures HasCommonViewAllocProp(props) && CommonPropOf(props).isViewType ==>
              r == ReturnNewLayoutPlusFad(CommonPropOf(props), layout, rank)
  {
    if HasCommonViewAllocProp(props) && CommonPropOf(props).isViewType then
      ReturnNewLayoutPlusFad(CommonPropOf(props), layout, rank)
    else
      layout
  }

  /** A view allocated with a property built from sibling views gets as many
      base scalars per element as the widest FAD sibling (at least one). */
  lemma {:induction false} AllocationFollowsSiblings(views: seq<Arg>, others: seq<CtorProp>, layout: ArrayLayout, rank: nat)
    requires |views| >= 1 && IsView(views[0])
    requires WellFormedLayout(layout) && rank < MaxRank
    requires forall k :: 0 <= k < |others| ==> others[k] == OtherProp
    ensures var r := AllocationLayout(others + [CommonAlloc(FromSiblings(views))], layout, rank);
            && r.dimension[rank] == (if DimensionScalarOf(views) == 0 then 1 else DimensionScalarOf(views))
            && forall k :: 0 <= k < MaxRank && k != rank ==> r.dimension[k] == layout.dimension[k]
  {
    var props := others + [CommonAlloc(FromSiblings(views))];
    assert props[|others|].CommonAlloc?;
    var k :| 0 <= k < |props| && props[k] == CommonAlloc(CommonPropOf(props))
             && forall m :: 0 <= m < k ==> !props[m].CommonAlloc?;
    assert k == |others|;
  }

  // ---------------------------------------------------------------------------
  // FadViewDataAnalysis

  /** The extent of the hidden FAD axis in the offset's type: the static FAD
      size plus one when the size is static, else a run-time extent. */
  function AppendedExtent(dimFad: nat): (e: nat)
    ensures dimFad == 0 <==> e == 0
    ensures dimFad != 0 ==> e - 1 == dimFad
  {
    if dimFad != 0 then dimFad + 1 else 0
  }

  /** The layout argument of a view: a plain array layout, LayoutContiguous over
      one, or LayoutNatural over one. */
  datatype ViewLayout = Plain(kind: LayoutKind) | Contiguous(base: LayoutKind, stride: nat) | Natural(base: LayoutKind)

  /** Which view mapping the analysis selects. */
  datatype Specialize = SacadoFad | SacadoFadContiguous | DefaultMapping

  /** The element type of a multidimensional array type. */
  datatype Element = FadElement | ScalarElement

  /** A multidimensional array type: element, constness, extents (0 = run time). */
  datatype ArrayType = ArrayType(element: Element, isConst: bool, dims: seq<nat>)

  /** What the analysis of a view of FAD values produces: the mapping to use,
      the view's own array type, and the "flattened" array of base scalars. */
  datatype DataAnalysis = DataAnalysis(specialize: Specialize, valueType: ArrayType, scalarArrayType: ArrayType)

  /** The data-type analysis for a view of FAD values, with extents `dims`,
      constness `isConst`, layout `layout` and static FAD size `dimFad`. */
  function FadViewDataAnalysis(dims: seq<nat>, isConst: bool, layout: ViewLayout, dimFad: nat): (a: DataAnalysis)
    ensures a.valueType == ArrayType(FadElement, isConst, dims)
    ensures layout.Plain? ==>
              && a.specialize == SacadoFad
              && a.scalarArrayType == ArrayType(ScalarElement, isConst, dims + [AppendedExtent(dimFad)])
    ensures layout.Contiguous? ==>
              && a.specialize == SacadoFadContiguous
              && a.scalarArrayType == ArrayType(ScalarElement, isConst,
                   if layout.base == Left then [0] + dims else dims + [0])
    ensures layout.Natural? ==> a.specialize == DefaultMapping && a.scalarArrayType == a.valueType
  {
    var valueType := ArrayType(FadElement, isConst, dims);
    match layout
    case Plain(_) =>
      DataAnalysis(SacadoFad, valueType, ArrayType(ScalarElement, isConst, dims + [AppendedExtent(dimFad)]))
    case Contiguous(base, _) =>
      var scalarDims := if base == Left then [0] + dims else dims + [0];
      DataAnalysis(SacadoFadContiguous, valueType, ArrayType(ScalarElement, isConst, scalarDims))
    case Natural(_) =>
      DataAnalysis(DefaultMapping, valueType, valueType)
  }

  /** The flattened array adds exactly one axis except under LayoutNatural, the
      logical axes keep their extents in order, and the added axis carries the
      static FAD size plus one whenever the mapping is the strided FAD one. */
  lemma {:induction false} AnalysisShape(dims: seq<nat>, isConst: bool, layout: ViewLayout, dimFad: nat)
    ensures var a := FadViewDataAnalysis(dims, isConst, layout, dimFad);
            && |a.scalarArrayType.dims| == |dims| + (if layout.Natural? then 0 else 1)
            && a.scalarArrayType.isConst == isConst
            && (layout.Contiguous? && layout.base == Left ==> a.scalarArrayType.dims[1..] == dims)
            && (!(layout.Contiguous? && layout.base == Left) ==> a.scalarArrayType.dims[..|dims|] == dims)
            && (a.specialize == SacadoFad && dimFad != 0 ==> a.scalarArrayType.dims[|dims|] - 1 == dimFad)
  {
    var a := FadViewDataAnalysis(dims, isConst, layout, dimFad);
    if layout.Contiguous? && layout.base == Left {
      assert ([0] + dims)[1..] == dims;
    } else if !layout.Natural? {
      var extra: nat := if layout.Plain? then AppendedExtent(dimFad) else 0;
      assert a.scalarArrayType.dims == dims + [extra];
      assert (dims + [extra])[..|dims|] == dims;
    }
  }

  /** The static stride of the hidden axis: one for LayoutRight (the FAD values
      of an element are adjacent), otherwise known only at run time (0). */
  function FadStaticStride(kind: LayoutKind): (s: nat)
    ensures s == 1 <==> kind == Right
    ensures s == 0 <==> kind != Right
  {
    if kind == Right then 1 else 0
  }

  /** The assignment rule on flattened array types: the same type, or the
      destination is the const form of the source's. */
  predicate ScalarArrayAssignable(dst: ArrayType, src: ArrayType)
  {
    dst == src || dst == src.(isConst := true)
  }
}
