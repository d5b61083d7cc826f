/** A stand-in for Kokkos's generic offset calculator (ViewOffset), which the FAD
    view mapping builds over its logical dimensions plus one appended axis.

    An offset keeps, for every axis, an extent and a stride.  Built from a
    LayoutRight or LayoutLeft array layout it gets the compact row-major or
    column-major strides; built from a LayoutStride layout it takes the strides
    the layout carries; built as a subview of another offset it inherits the
    parent's strides (Kokkos's left and right offsets keep such a stride too,
    as padding).  The linear offset of an index tuple is the dot product of the
    indices with the strides. */
module ViewOffset {

  /** The three array layouts the FAD view mapping accepts. */
  datatype LayoutKind = Left | Right | Stride

  /** Number of extent slots an array layout object carries. */
  const MaxRank: nat := 8

  /** An array layout object: eight extents and, for LayoutStride, eight strides. */
  datatype ArrayLayout = ArrayLayout(kind: LayoutKind, dimension: seq<nat>, stride: seq<nat>)

  predicate WellFormedLayout(l: ArrayLayout)
  {
    |l.dimension| == MaxRank && |l.stride| == MaxRank
  }

  /** The offset calculator: layout tag, extent of every axis, stride of every axis. */
  datatype Offset = Offset(kind: LayoutKind, dims: seq<nat>, strides: seq<nat>)

  predicate WellFormed(o: Offset)
  {
    |o.dims| == |o.strides| && |o.dims| >= 1
  }

  function Product(d: seq<nat>): nat
  {
    if d == [] then 1 else d[0] * Product(d[1..])
  }

  /** Row-major strides: the stride of axis k is the product of the extents after it. */
  function RightStrides(d: seq<nat>): (s: seq<nat>)
    ensures |s| == |d|
  {
    seq(|d|, k requires 0 <= k < |d| => Product(d[k + 1..]))
  }

  /** Column-major strides: the stride of axis k is the product of the extents before it. */
  function LeftStrides(d: seq<nat>): (s: seq<nat>)
    ensures |s| == |d|
  {
    seq(|d|, k requires 0 <= k < |d| => Product(d[..k]))
  }

  /** Sum of the products of indices and strides. */
  function Dot(idx: seq<nat>, s: seq<nat>): nat
    requires |idx| == |s|
  {
    if idx == [] then 0 else idx[0] * s[0] + Dot(idx[1..], s[1..])
  }

  /** The linear offset of an index tuple (one index per axis, the appended one included). */
  function At(o: Offset, idx: seq<nat>): nat
    requires WellFormed(o) && |idx| == |o.dims|
  {
    Dot(idx, o.strides)
  }

  predicate InBounds(idx: seq<nat>, dims: seq<nat>)
  {
    |idx| == |dims| && forall k :: 0 <= k < |idx| ==> idx[k] < dims[k]
  }

  /** The largest index along every axis. */
  function LastIndex(d: seq<nat>): (r: seq<nat>)
    requires 0 !in d
    ensures |r| == |d|
  {
    seq(|d|, k requires 0 <= k < |d| => d[k] - 1)
  }

  /** One past the largest offset any in-range index tuple reaches (0 when an extent is 0). */
  function Span(o: Offset): nat
    requires WellFormed(o)
  {
    if 0 in o.dims then 0 else 1 + Dot(LastIndex(o.dims), o.strides)
  }

  /** The strides an offset gets when it is built from a layout of the given kind. */
  function LayoutStrides(l: ArrayLayout, dims: seq<nat>): (s: seq<nat>)
    requires WellFormedLayout(l) && |dims| <= MaxRank
    ensures |s| == |dims|
  {
    match l.kind
    case Right => RightStrides(dims)
    case Left => LeftStrides(dims)
    case Stride => l.stride[..|dims|]
  }

  /** The extents an offset of `axes` axes takes from a layout; a non-zero
      `staticLast` is the compile-time extent of the last axis, which overrides
      the layout's value. */
  function LayoutDims(l: ArrayLayout, axes: nat, staticLast: nat): (d: seq<nat>)
    requires WellFormedLayout(l) && 1 <= axes <= MaxRank
    ensures |d| == axes
    ensures forall k :: 0 <= k < axes - 1 ==> d[k] == l.dimension[k]
    ensures d[axes - 1] == if staticLast != 0 then staticLast else l.dimension[axes - 1]
  {
    l.dimension[..axes - 1] + [if staticLast != 0 then staticLast else l.dimension[axes - 1]]
  }

  /** The offset constructed from a layout, without padding. */
  function FromLayout(l: ArrayLayout, axes: nat, staticLast: nat): (o: Offset)
    requires WellFormedLayout(l) && 1 <= axes <= MaxRank
    ensures WellFormed(o) && o.kind == l.kind && |o.dims| == axes
    ensures o.dims == LayoutDims(l, axes, staticLast) && o.strides == LayoutStrides(l, o.dims)
  {
    var d := LayoutDims(l, axes, staticLast);
    Offset(l.kind, d, LayoutStrides(l, d))
  }

  /** Constructing an offset of another layout kind from an existing offset
      (only to the same kind or to LayoutStride): extents and strides are kept. */
  function Convert(o: Offset, kind: LayoutKind): (r: Offset)
    requires WellFormed(o) && (kind == o.kind || kind == Stride)
    ensures WellFormed(r) && r.kind == kind
    ensures r.dims == o.dims
    ensures forall idx :: |idx| == |o.dims| ==> At(r, idx) == At(o, idx)
  {
    Offset(kind, o.dims, o.strides)
  }

  // ---------------------------------------------------------------------------
  // Shapes: a right-shaped offset has unit-or-more innermost stride and every
  // stride covers the whole of the axes after it; a left-shaped one the mirror.

  ghost predicate RightShaped(o: Offset)
  {
    && WellFormed(o)
    && o.strides[|o.strides| - 1] >= 1
    && forall k :: 0 <= k < |o.dims| - 1 ==> o.strides[k] >= o.dims[k + 1] * o.strides[k + 1]
  }

  ghost predicate LeftShaped(o: Offset)
  {
    && WellFormed(o)
    && o.strides[0] >= 1
    && forall k :: 0 <= k < |o.dims| - 1 ==> o.strides[k + 1] >= o.dims[k] * o.strides[k]
  }

  // ---------------------------------------------------------------------------
  // Lemmas about products and dot products.

  lemma {:induction false} ProductSnoc(d: seq<nat>, x: nat)
    ensures Product(d + [x]) == Product(d) * x
  {
    if d == [] {
      assert [x][1..] == [];
    } else {
      assert (d + [x])[1..] == d[1..] + [x];
      ProductSnoc(d[1..], x);
    }
  }

  lemma {:induction false} DotCons(idx: seq<nat>, s: seq<nat>)
    requires |idx| == |s| && |idx| >= 1
    ensures Dot(idx, s) == idx[0] * s[0] + Dot(idx[1..], s[1..])
  {
  }

  lemma {:induction false} DotSnoc(idx: seq<nat>, s: seq<nat>)
    requires |idx| == |s| && |idx| >= 1
    ensures Dot(idx, s) == Dot(idx[..|idx| - 1], s[..|s| - 1]) + idx[|idx| - 1] * s[|s| - 1]
  {
    if |idx| == 1 {
      assert idx[..0] == [] && s[..0] == [];
    } else {
      DotSnoc(idx[1..], s[1..]);
      assert idx[1..][..|idx| - 2] == idx[..|idx| - 1][1..];
      assert s[1..][..|s| - 2] == s[..|s| - 1][1..];
    }
  }

  lemma {:induction false} DotMonotone(i: seq<nat>, j: seq<nat>, s: seq<nat>)
    requires |i| == |j| == |s|
    requires forall k :: 0 <= k < |i| ==> i[k] <= j[k]
    ensures Dot(i, s) <= Dot(j, s)
  {
    if i != [] {
      DotMonotone(i[1..], j[1..], s[1..]);
      assert i[0] * s[0] <= j[0] * s[0];
    }
  }

  /** Every in-range index tuple lands inside the span, whatever the layout. */
  lemma {:induction false} OffsetBelowSpan(o: Offset, idx: seq<nat>)
    requires WellFormed(o) && InBounds(idx, o.dims)
    ensures At(o, idx) < Span(o)
  {
    assert 0 !in o.dims by {
      forall k | 0 <= k < |o.dims| ensures o.dims[k] != 0 {
        assert idx[k] < o.dims[k];
      }
    }
    DotMonotone(idx, LastIndex(o.dims), o.strides);
  }

  lemma {:induction false} MulMonotone(a: nat, b: nat, s: nat)
    requires a <= b
    ensures a * s <= b * s
  {
  }

  /** From a < b follows a * s + s <= b * s. */
  lemma {:induction false} MulStep(a: nat, b: nat, s: nat)
    requires a < b
    ensures a * s + s <= b * s
  {
    MulMonotone(a + 1, b, s);
  }

  lemma {:induction false} InBoundsTail(idx: seq<nat>, d: seq<nat>)
    requires InBounds(idx, d) && |d| >= 1
    ensures InBounds(idx[1..], d[1..]) && idx[0] < d[0]
  {
    forall k | 0 <= k < |idx| - 1 ensures idx[1..][k] < d[1..][k] {
      assert idx[k + 1] < d[k + 1];
    }
  }

  lemma {:induction false} InBoundsInit(idx: seq<nat>, d: seq<nat>)
    requires InBounds(idx, d) && |d| >= 1
    ensures InBounds(idx[..|idx| - 1], d[..|d| - 1]) && idx[|idx| - 1] < d[|d| - 1]
  {
  }

  /** A number written as x * s + a with a < s determines x and a. */
  lemma {:induction false} QuotientUnique(x: nat, y: nat, a: nat, b: nat, s: nat)
    requires a < s && b < s && x * s + a == y * s + b
    ensures x == y && a == b
  {
    if x < y {
      MulStep(x, y, s);
    } else if y < x {
      MulStep(y, x, s);
    }
  }

  lemma {:induction false} RightShapedTail(d: seq<nat>, s: seq<nat>)
    requires RightShaped(Offset(Right, d, s)) && |d| > 1
    ensures RightShaped(Offset(Right, d[1..], s[1..]))
    ensures s[0] >= d[1] * s[1]
  {
    forall k | 0 <= k < |d| - 2 ensures s[1..][k] >= d[1..][k + 1] * s[1..][k + 1] {
      assert s[k + 1] >= d[k + 2] * s[k + 2];
    }
  }

  lemma {:induction false} RightShapedBound(d: seq<nat>, s: seq<nat>, idx: seq<nat>)
    requires RightShaped(Offset(Right, d, s)) && InBounds(idx, d)
    ensures Dot(idx, s) < d[0] * s[0]
  {
    MulStep(idx[0], d[0], s[0]);
    if |idx| == 1 {
      assert Dot(idx, s) == idx[0] * s[0] + Dot([], []);
    } else {
      RightShapedTail(d, s);
      RightShapedBound(d[1..], s[1..], idx[1..]);
      var tail := Dot(idx[1..], s[1..]);
      assert tail < s[0];
      assert Dot(idx, s) == idx[0] * s[0] + tail;
    }
  }

  /** No two distinct in-range index tuples of a right-shaped offset share a linear offset. */
  lemma {:induction false} RightShapedInjective(o: Offset, i: seq<nat>, j: seq<nat>)
    requires RightShaped(o) && InBounds(i, o.dims) && InBounds(j, o.dims)
    requires At(o, i) == At(o, j)
    ensures i == j
    decreases |i|
  {
    var d, s := o.dims, o.strides;
    if |i| == 1 {
      DotCons(i, s);
      DotCons(j, s);
      assert i[1..] == [] && j[1..] == [] && s[1..] == [];
      assert s[0] >= 1;
      QuotientUnique(i[0], j[0], 0, 0, s[0]);
      assert i == [i[0]] && j == [j[0]];
    } else {
      RightShapedTail(d, s);
      InBoundsTail(i, d);
      InBoundsTail(j, d);
      RightShapedBound(d[1..], s[1..], i[1..]);
      RightShapedBound(d[1..], s[1..], j[1..]);
      var ti, tj := Dot(i[1..], s[1..]), Dot(j[1..], s[1..]);
      assert d[1..][0] == d[1] && s[1..][0] == s[1];
      var p := d[1] * s[1];
      assert ti < p && tj < p && p <= s[0];
      DotCons(i, s);
      DotCons(j, s);
      QuotientUnique(i[0], j[0], ti, tj, s[0]);
      var tail := Offset(Right, d[1..], s[1..]);
      assert RightShaped(tail) && InBounds(i[1..], tail.dims) && InBounds(j[1..], tail.dims);
      assert At(tail, i[1..]) == At(tail, j[1..]);
      RightShapedInjective(tail, i[1..], j[1..]);
      forall k | 1 <= k < |i| ensures i[k] == j[k] {
        assert i[k] == i[1..][k - 1] && j[k] == j[1..][k - 1];
      }
    }
  }

  lemma {:induction false} LeftShapedInit(d: seq<nat>, s: seq<nat>)
    requires LeftShaped(Offset(Left, d, s)) && |d| > 1
    ensures LeftShaped(Offset(Left, d[..|d| - 1], s[..|s| - 1]))
    ensures s[|d| - 1] >= d[|d| - 2] * s[|d| - 2]
  {
    var n := |d|;
    var d', s' := d[..n - 1], s[..n - 1];
    forall k | 0 <= k < n - 2 ensures s'[k + 1] >= d'[k] * s'[k] {
      assert s[k + 1] >= d[k] * s[k];
    }
  }

  lemma {:induction false} LeftShapedBound(d: seq<nat>, s: seq<nat>, idx: seq<nat>)
    requires LeftShaped(Offset(Left, d, s)) && InBounds(idx, d)
    ensures Dot(idx, s) < d[|d| - 1] * s[|s| - 1]
  {
    var n := |idx|;
    DotSnoc(idx, s);
    MulStep(idx[n - 1], d[n - 1], s[n - 1]);
    if n == 1 {
      assert idx[..0] == [] && s[..0] == [];
    } else {
      LeftShapedInit(d, s);
      LeftShapedBound(d[..n - 1], s[..n - 1], idx[..n - 1]);
      var init := Dot(idx[..n - 1], s[..n - 1]);
      assert init < s[n - 1];
    }
  }

  /** No two distinct in-range index tuples of a left-shaped offset share a linear offset. */
  lemma {:induction false} LeftShapedInjective(o: Offset, i: seq<nat>, j: seq<nat>)
    requires LeftShaped(o) && InBounds(i, o.dims) && InBounds(j, o.dims)
    requires At(o, i) == At(o, j)
    ensures i == j
    decreases |i|
  {
    var d, s, n := o.dims, o.strides, |i|;
    DotSnoc(i, s);
    DotSnoc(j, s);
    if n == 1 {
      assert i[..0] == [] && j[..0] == [] && s[..0] == [];
      assert s[0] >= 1;
      QuotientUnique(i[0], j[0], 0, 0, s[0]);
      assert i == [i[0]] && j == [j[0]];
    } else {
      LeftShapedInit(d, s);
      InBoundsInit(i, d);
      InBoundsInit(j, d);
      LeftShapedBound(d[..n - 1], s[..n - 1], i[..n - 1]);
      LeftShapedBound(d[..n - 1], s[..n - 1], j[..n - 1]);
      var hi, hj := Dot(i[..n - 1], s[..n - 1]), Dot(j[..n - 1], s[..n - 1]);
      assert d[..n - 1][n - 2] == d[n - 2] && s[..n - 1][n - 2] == s[n - 2];
      var p := d[n - 2] * s[n - 2];
      assert hi < p && hj < p && p <= s[n - 1];
      QuotientUnique(i[n - 1], j[n - 1], hi, hj, s[n - 1]);
      LeftShapedInjective(Offset(Left, d[..n - 1], s[..n - 1]), i[..n - 1], j[..n - 1]);
      assert i == i[..n - 1] + [i[n - 1]] && j == j[..n - 1] + [j[n - 1]];
    }
  }

  // ---------------------------------------------------------------------------
  // Compact layouts.

  lemma {:induction false} CompactRightIsRightShaped(d: seq<nat>)
    requires |d| >= 1
    ensures RightShaped(Offset(Right, d, RightStrides(d)))
  {
    var s := RightStrides(d);
    assert s[|d| - 1] == Product([]) == 1 by { assert d[|d|..] == []; }
    forall k | 0 <= k < |d| - 1 ensures s[k] >= d[k + 1] * s[k + 1] {
      assert d[k + 1..][1..] == d[k + 2..];
    }
  }

  lemma {:induction false} CompactLeftIsLeftShaped(d: seq<nat>)
    requires |d| >= 1
    ensures LeftShaped(Offset(Left, d, LeftStrides(d)))
  {
    var s := LeftStrides(d);
    assert s[0] == Product([]) == 1 by { assert d[..0] == []; }
    forall k | 0 <= k < |d| - 1 ensures s[k + 1] >= d[k] * s[k] {
      assert d[..k + 1] == d[..k] + [d[k]];
      ProductSnoc(d[..k], d[k]);
    }
  }

  lemma {:induction false} ZeroExtentProduct(d: seq<nat>)
    requires 0 in d
    ensures Product(d) == 0
  {
    if d[0] != 0 {
      ZeroExtentProduct(d[1..]);
    }
  }

  lemma {:induction false} RightSpanIsProduct(d: seq<nat>)
    requires |d| >= 1 && 0 !in d
    ensures 1 + Dot(LastIndex(d), RightStrides(d)) == Product(d)
  {
    var s := RightStrides(d);
    if |d| == 1 {
      assert d[1..] == [];
    } else {
      assert LastIndex(d)[1..] == LastIndex(d[1..]);
      assert s[1..] == RightStrides(d[1..]) by {
        forall k | 0 <= k < |d| - 1 ensures s[1..][k] == RightStrides(d[1..])[k] {
          assert d[1..][k + 1..] == d[k + 2..];
        }
      }
      RightSpanIsProduct(d[1..]);
      assert (d[0] - 1) * Product(d[1..]) + Product(d[1..]) == d[0] * Product(d[1..]);
    }
  }

  /** Column-major strides of all but the last axis are those of the
      shorter shape, and the last stride is the product of the others. */
  lemma {:induction false} LeftStridesInit(d: seq<nat>)
    requires |d| >= 1
    ensures var n := |d|;
      LeftStrides(d)[..n - 1] == LeftStrides(d[..n - 1]) && LeftStrides(d)[n - 1] == Product(d[..n - 1])
  {
    var n := |d|;
    var s, d' := LeftStrides(d), d[..n - 1];
    forall k | 0 <= k < n - 1 ensures s[..n - 1][k] == LeftStrides(d')[k] {
      assert d'[..k] == d[..k];
    }
  }

  lemma {:induction false} AddMultiple(p: nat, e: nat)
    requires e >= 1
    ensures p + (e - 1) * p == p * e
  {
  }

  lemma {:induction false} LeftSpanIsProduct(d: seq<nat>)
    requires |d| >= 1 && 0 !in d
    ensures 1 + Dot(LastIndex(d), LeftStrides(d)) == Product(d)
  {
    var n := |d|;
    var s, d' := LeftStrides(d), d[..n - 1];
    DotSnoc(LastIndex(d), s);
    assert d == d' + [d[n - 1]];
    ProductSnoc(d', d[n - 1]);
    LeftStridesInit(d);
    assert LastIndex(d)[..n - 1] == LastIndex(d');
    if n == 1 {
      assert d' == [];
    } else {
      assert 0 !in d';
      LeftSpanIsProduct(d');
      AddMultiple(Product(d'), d[n - 1]);
    }
  }

  /** An offset built from a LayoutLeft or LayoutRight layout spans exactly the
      number of elements, and is left- or right-shaped, hence injective. */
  lemma {:induction false} CompactLayoutOffset(l: ArrayLayout, axes: nat, staticLast: nat)
    requires WellFormedLayout(l) && 1 <= axes <= MaxRank && l.kind != Stride
    ensures Span(FromLayout(l, axes, staticLast)) == Product(FromLayout(l, axes, staticLast).dims)
    ensures l.kind == Right ==> RightShaped(FromLayout(l, axes, staticLast))
    ensures l.kind == Left ==> LeftShaped(FromLayout(l, axes, staticLast))
  {
    var o := FromLayout(l, axes, staticLast);
    if 0 in o.dims {
      ZeroExtentProduct(o.dims);
    } else if l.kind == Right {
      RightSpanIsProduct(o.dims);
    } else {
      LeftSpanIsProduct(o.dims);
    }
    if l.kind == Right {
      CompactRightIsRightShaped(o.dims);
    } else {
      CompactLeftIsLeftShaped(o.dims);
    }
  }
}
