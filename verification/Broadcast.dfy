/**
 NumPy broadcasting, and the lowering of elementwise ops to an indexed loop over affine maps.
 Models `ConvertElementwiseOp` of lib/Conversion/TorchToLinalg/TorchToLinalg.cpp.
 */
module Broadcast {
  import opened Layout

  /** A tensor value; its element type is abstracted to the integers. */
  datatype Tensor = Tensor(shape: Shape, at: Index -> int)

  // ---- Reference: NumPy broadcasting to rank r ----

  /** Shapes are aligned at their last dimension; missing leading dimensions count as 1. */
  function AlignedSize(shape: Shape, r: nat, d: nat): nat
    requires |shape| <= r && d < r
  {
    if d < r - |shape| then 1 else shape[d - (r - |shape|)]
  }

  ghost predicate RanksWithin(shapes: seq<Shape>, r: nat) {
    forall k | 0 <= k < |shapes| :: |shapes[k]| <= r
  }

  ghost predicate NumpyCompatible(shapes: seq<Shape>, r: nat)
    requires RanksWithin(shapes, r)
  {
    forall d: nat, k, k' | d < r && 0 <= k < |shapes| && 0 <= k' < |shapes| ::
      AlignedSize(shapes[k], r, d) == AlignedSize(shapes[k'], r, d) ||
      AlignedSize(shapes[k], r, d) == 1 || AlignedSize(shapes[k'], r, d) == 1
  }

  /** `m` is the broadcast size of dimension `d`: every operand has it or 1, and it occurs. */
  ghost predicate IsNumpySize(shapes: seq<Shape>, r: nat, d: nat, m: nat)
    requires RanksWithin(shapes, r) && d < r
  {
    (forall k | 0 <= k < |shapes| :: AlignedSize(shapes[k], r, d) == 1 || AlignedSize(shapes[k], r, d) == m) &&
    (m != 1 ==> exists k | 0 <= k < |shapes| :: AlignedSize(shapes[k], r, d) == m)
  }

  ghost predicate IsNumpyShape(shapes: seq<Shape>, r: nat, out: Shape)
    requires RanksWithin(shapes, r)
  {
    |out| == r && forall d | 0 <= d < r :: IsNumpySize(shapes, r, d, out[d])
  }

  /** Where an operand is read for a result index: dimensions of size 1 stay at 0. */
  function SourceIndex(index: Index, shape: Shape): (source: Index)
    requires |shape| <= |index|
    ensures |source| == |shape|
  {
    seq(|shape|, j requires 0 <= j < |shape| =>
      if shape[j] == 1 then 0 else index[|index| - |shape| + j])
  }

  function NumpyElement(tensors: seq<Tensor>, payload: seq<int> -> int, index: Index): int
    requires forall k | 0 <= k < |tensors| :: |tensors[k].shape| <= |index|
  {
    payload(seq(|tensors|, k requires 0 <= k < |tensors| => tensors[k].at(SourceIndex(index, tensors[k].shape))))
  }

  /** There is at most one broadcast shape, and none for shapes that are not compatible. */
  lemma NumpyShapeIsUnique(shapes: seq<Shape>, r: nat, a: Shape, b: Shape)
    requires RanksWithin(shapes, r) && IsNumpyShape(shapes, r, a) && IsNumpyShape(shapes, r, b)
    ensures a == b && NumpyCompatible(shapes, r)
  {
    forall d | 0 <= d < r ensures a[d] == b[d] {
      assert IsNumpySize(shapes, r, d, a[d]) && IsNumpySize(shapes, r, d, b[d]);
    }
    forall d: nat, k, k' | d < r && 0 <= k < |shapes| && 0 <= k' < |shapes|
      ensures AlignedSize(shapes[k], r, d) == AlignedSize(shapes[k'], r, d) ||
              AlignedSize(shapes[k], r, d) == 1 || AlignedSize(shapes[k'], r, d) == 1
    {
      assert IsNumpySize(shapes, r, d, a[d]);
    }
  }

  /** The aligned size of any operand that is not 1, if there is one. */
  ghost function BroadcastSize(shapes: seq<Shape>, r: nat, d: nat): (m: nat)
    requires RanksWithin(shapes, r) && NumpyCompatible(shapes, r) && d < r
    ensures IsNumpySize(shapes, r, d, m)
  {
    if k :| 0 <= k < |shapes| && AlignedSize(shapes[k], r, d) != 1 then AlignedSize(shapes[k], r, d) else 1
  }

  /** A broadcast shape exists exactly for compatible shapes, however many there are. */
  lemma NumpyShapeExists(shapes: seq<Shape>, r: nat)
    requires RanksWithin(shapes, r)
    ensures (exists out :: IsNumpyShape(shapes, r, out)) <==> NumpyCompatible(shapes, r)
  {
    if out :| IsNumpyShape(shapes, r, out) { NumpyShapeIsUnique(shapes, r, out, out); }
    if NumpyCompatible(shapes, r) {
      var out := seq(r, d requires 0 <= d < r => BroadcastSize(shapes, r, d));
      assert IsNumpyShape(shapes, r, out);
    }
  }

  // ---- What the lowering emits ----

  datatype StaticSize = Dynamic | Static(size: nat)

  datatype AffineExpr = ConstantZero | DimExpr(dim: nat)

  // An emitted index value: the constant 1, or the size of an operand's dimension.
  datatype SizeValue = C1 | DimOf(operand: nat, dim: nat)

  // "mismatched size for broadcast" unless the two values are equal.
  datatype SizeAssert = SizeAssert(running: SizeValue, current: SizeValue)

  datatype Lowering = Lowering(resultShape: seq<SizeValue>,
                               indexingMaps: seq<seq<AffineExpr>>,
                               asserts: seq<SizeAssert>)

  type StaticShape = seq<StaticSize>

  /** Operand `k` has a dimension aligned with `d` that is not statically 1. */
  predicate Traverses(types: seq<StaticShape>, r: nat, k: nat, d: nat)
    requires k < |types| && |types[k]| <= r
  {
    r - |types[k]| <= d < r && types[k][d - (r - |types[k]|)] != Static(1)
  }

  /** The size recorded for `d` by the first `n` operands: that of the first one to traverse it. */
  function RunningSize(types: seq<StaticShape>, r: nat, d: nat, n: nat): SizeValue
    requires n <= |types| && forall k | 0 <= k < |types| :: |types[k]| <= r
  {
    if n == 0 then C1
    else if RunningSize(types, r, d, n - 1) != C1 then RunningSize(types, r, d, n - 1)
    else if Traverses(types, r, n - 1, d) then DimOf(n - 1, d - (r - |types[n - 1]|))
    else C1
  }

  /** Dimension `j` of operand `k` is compared with what earlier operands recorded. */
  predicate IsGuarded(types: seq<StaticShape>, r: nat, k: nat, j: nat)
    requires k < |types| && forall k | 0 <= k < |types| :: |types[k]| <= r
    requires j < |types[k]|
  {
    var d := r - |types[k]| + j;
    Traverses(types, r, k, d) && RunningSize(types, r, d, k) != C1
  }

  ghost predicate IsAssert(types: seq<StaticShape>, r: nat, k: nat, j: nat, a: SizeAssert)
    requires k < |types| && forall k | 0 <= k < |types| :: |types[k]| <= r
    requires j < |types[k]|
  {
    IsGuarded(types, r, k, j) &&
    a == SizeAssert(RunningSize(types, r, r - |types[k]| + j, k), DimOf(k, j))
  }

  ghost predicate IsLowering(types: seq<StaticShape>, r: nat, l: Lowering)
    requires forall k | 0 <= k < |types| :: |types[k]| <= r
  {
    && |l.resultShape| == r && |l.indexingMaps| == |types|
    && (forall d | 0 <= d < r :: l.resultShape[d] == RunningSize(types, r, d, |types|))
    && (forall k | 0 <= k < |types| :: IsIndexingMap(types[k], r, l.indexingMaps[k]))
    && (forall a :: a in l.asserts <==>
          exists k: nat, j: nat :: k < |types| && j < |types[k]| && IsAssert(types, r, k, j, a))
  }

  ghost predicate IsIndexingMap(ty: StaticShape, r: nat, exprs: seq<AffineExpr>)
    requires |ty| <= r
  {
    |exprs| == |ty| &&
    forall j | 0 <= j < |ty| ::
      exprs[j] == if ty[j] == Static(1) then ConstantZero else DimExpr(j + (r - |ty|))
  }

  /** The two nested loops over operands and their dimensions. */
  method ConvertElementwise(types: seq<StaticShape>, resultRank: nat) returns (l: Lowering)
    requires forall k | 0 <= k < |types| :: |types[k]| <= resultRank
    ensures IsLowering(types, resultRank, l)
  {
    var resultShape := seq(resultRank, _ => C1);
    var indexingMaps: seq<seq<AffineExpr>> := [];
    var asserts: seq<SizeAssert> := [];
    for k := 0 to |types|
      invariant |resultShape| == resultRank && |indexingMaps| == k
      invariant forall d | 0 <= d < resultRank :: resultShape[d] == RunningSize(types, resultRank, d, k)
      invariant forall n | 0 <= n < k :: IsIndexingMap(types[n], resultRank, indexingMaps[n])
      invariant forall a :: a in asserts <==>
          exists n: nat, j: nat :: n < k && j < |types[n]| && IsAssert(types, resultRank, n, j, a)
    {
      var exprs: seq<AffineExpr> := [];
      var ty := types[k];
      ghost var before := asserts;
      for i := 0 to |ty|
        invariant |exprs| == i && |resultShape| == resultRank
        invariant forall j | 0 <= j < i ::
            exprs[j] == if ty[j] == Static(1) then ConstantZero else DimExpr(j + (resultRank - |ty|))
        invariant forall d | 0 <= d < resultRank ::
            resultShape[d] == RunningSize(types, resultRank, d, if d < resultRank - |ty| + i then k + 1 else k)
        invariant forall a :: a in asserts <==>
            a in before || exists j: nat :: j < i && IsAssert(types, resultRank, k, j, a)
      {
        if ty[i] == Static(1) {
          exprs := exprs + [ConstantZero];
          continue;
        }
        var resultDim := i + (resultRank - |ty|);
        exprs := exprs + [DimExpr(resultDim)];
        var currentDimSize := DimOf(k, i);
        if resultShape[resultDim] == C1 {
          resultShape := resultShape[resultDim := currentDimSize];
          continue;
        }
        assert IsAssert(types, resultRank, k, i, SizeAssert(resultShape[resultDim], currentDimSize));
        asserts := asserts + [SizeAssert(resultShape[resultDim], currentDimSize)];
      }
      indexingMaps := indexingMaps + [exprs];
    }
    l := Lowering(resultShape, indexingMaps, asserts);
  }

  // ---- Running the emitted code ----

  /** The runtime shapes are among those the static types describe. */
  ghost predicate Conforms(types: seq<StaticShape>, shapes: seq<Shape>) {
    |types| == |shapes| &&
    forall k | 0 <= k < |types| ::
      |types[k]| == |shapes[k]| &&
      forall j | 0 <= j < |types[k]| :: types[k][j].Static? ==> shapes[k][j] == types[k][j].size
  }

  function SizeOf(v: SizeValue, shapes: seq<Shape>): nat {
    match v
    case C1 => 1
    case DimOf(k, j) => if k < |shapes| && j < |shapes[k]| then shapes[k][j] else 0
  }

  ghost predicate AssertsPass(l: Lowering, shapes: seq<Shape>) {
    forall a <- l.asserts :: SizeOf(a.running, shapes) == SizeOf(a.current, shapes)
  }

  function RuntimeShape(l: Lowering, shapes: seq<Shape>): Shape {
    seq(|l.resultShape|, d requires 0 <= d < |l.resultShape| => SizeOf(l.resultShape[d], shapes))
  }

  function ApplyMap(exprs: seq<AffineExpr>, index: Index): (source: Index)
    requires forall j | 0 <= j < |exprs| :: exprs[j].DimExpr? ==> exprs[j].dim < |index|
  {
    seq(|exprs|, j requires 0 <= j < |exprs| =>
      match exprs[j] case ConstantZero => 0 case DimExpr(dim) => index[dim])
  }

  /** All operands that traverse a dimension agree on its size. */
  ghost predicate Agree(types: seq<StaticShape>, r: nat, shapes: seq<Shape>)
    requires Conforms(types, shapes) && RanksWithin(shapes, r)
  {
    forall d: nat, k, k' {:trigger Traverses(types, r, k, d), Traverses(types, r, k', d)} |
      d < r && 0 <= k < |types| && 0 <= k' < |types| ::
      Traverses(types, r, k, d) && Traverses(types, r, k', d) ==>
        AlignedSize(shapes[k], r, d) == AlignedSize(shapes[k'], r, d)
  }

  /** The size recorded for a dimension is that of an operand traversing it, if there is one. */
  lemma {:induction false} RunningSizeIsTraversed(types: seq<StaticShape>, r: nat, d: nat, n: nat, shapes: seq<Shape>)
    returns (first: nat)
    requires Conforms(types, shapes) && RanksWithin(shapes, r) && n <= |types| && d < r
    ensures RunningSize(types, r, d, n) == C1 <==> forall k | 0 <= k < n :: !Traverses(types, r, k, d)
    ensures RunningSize(types, r, d, n) != C1 ==>
              first < n && Traverses(types, r, first, d) && (forall k | 0 <= k < first :: !Traverses(types, r, k, d)) &&
              RunningSize(types, r, d, n) == DimOf(first, d - (r - |types[first]|)) &&
              SizeOf(RunningSize(types, r, d, n), shapes) == AlignedSize(shapes[first], r, d)
  {
    first := 0;
    if n > 0 {
      first := RunningSizeIsTraversed(types, r, d, n - 1, shapes);
      if RunningSize(types, r, d, n - 1) == C1 { first := n - 1; }
    }
  }

  lemma {:induction false} RunningSizeStable(types: seq<StaticShape>, r: nat, d: nat, m: nat, n: nat)
    requires m <= n <= |types| && forall k | 0 <= k < |types| :: |types[k]| <= r
    requires RunningSize(types, r, d, m) != C1
    ensures RunningSize(types, r, d, n) == RunningSize(types, r, d, m)
    decreases n - m
  {
    if m < n { RunningSizeStable(types, r, d, m, n - 1); }
  }

  /** The emitted asserts pass iff all traversing operands agree. */
  lemma AssertsCheckAgreement(types: seq<StaticShape>, r: nat, l: Lowering, shapes: seq<Shape>)
    requires Conforms(types, shapes) && RanksWithin(shapes, r) && IsLowering(types, r, l)
    ensures AssertsPass(l, shapes) <==> Agree(types, r, shapes)
  {
    if AssertsPass(l, shapes) {
      forall d: nat, k | d < r && 0 <= k < |types| && Traverses(types, r, k, d)
        ensures AlignedSize(shapes[k], r, d) == SizeOf(RunningSize(types, r, d, |types|), shapes)
      {
        AssertForcesRunningSize(types, r, l, shapes, d, k);
      }
    }
    if Agree(types, r, shapes) {
      forall a <- l.asserts ensures SizeOf(a.running, shapes) == SizeOf(a.current, shapes) {
        var k: nat, j: nat :| k < |types| && j < |types[k]| && IsAssert(types, r, k, j, a);
        var first := RunningSizeIsTraversed(types, r, r - |types[k]| + j, k, shapes);
      }
    }
  }

  /** An emitted assert that passes compares equal sizes. */
  lemma AssertHolds(types: seq<StaticShape>, r: nat, l: Lowering, shapes: seq<Shape>, k: nat, j: nat, a: SizeAssert)
    requires (forall k | 0 <= k < |types| :: |types[k]| <= r) && IsLowering(types, r, l) && AssertsPass(l, shapes)
    requires k < |types| && j < |types[k]| && IsAssert(types, r, k, j, a)
    ensures SizeOf(a.running, shapes) == SizeOf(a.current, shapes)
  {
    assert a in l.asserts;
  }

  lemma AssertForcesRunningSize(types: seq<StaticShape>, r: nat, l: Lowering, shapes: seq<Shape>, d: nat, k: nat)
    requires Conforms(types, shapes) && RanksWithin(shapes, r) && IsLowering(types, r, l)
    requires AssertsPass(l, shapes) && d < r && k < |types| && Traverses(types, r, k, d)
    ensures AlignedSize(shapes[k], r, d) == SizeOf(RunningSize(types, r, d, |types|), shapes)
  {
    var j := d - (r - |types[k]|);
    var running := RunningSize(types, r, d, k);
    if running != C1 {
      AssertHolds(types, r, l, shapes, k, j, SizeAssert(running, DimOf(k, j)));
      RunningSizeStable(types, r, d, k, |types|);
    } else {
      RunningSizeStable(types, r, d, k + 1, |types|);
    }
  }

  /**
   When the asserts pass, the result has the NumPy shape, every read is in bounds, and every
   element is the NumPy element.
   */
  lemma ElementwiseRefinesNumpy(types: seq<StaticShape>, r: nat, l: Lowering, tensors: seq<Tensor>,
                                shapes: seq<Shape>, payload: seq<int> -> int)
    requires |tensors| == |shapes| && forall k | 0 <= k < |shapes| :: tensors[k].shape == shapes[k]
    requires Conforms(types, shapes) && RanksWithin(shapes, r) && IsLowering(types, r, l)
    requires AssertsPass(l, shapes)
    ensures IsNumpyShape(shapes, r, RuntimeShape(l, shapes))
    ensures forall index | InBounds(index, RuntimeShape(l, shapes)) ::
              forall k | 0 <= k < |shapes| ::
                InBounds(ApplyMap(l.indexingMaps[k], index), shapes[k]) &&
                ApplyMap(l.indexingMaps[k], index) == SourceIndex(index, shapes[k])
    ensures forall index | InBounds(index, RuntimeShape(l, shapes)) ::
              GenericElement(l, tensors, payload, index) == NumpyElement(tensors, payload, index)
  {
    var out := RuntimeShape(l, shapes);
    forall d | 0 <= d < r ensures IsNumpySize(shapes, r, d, out[d]) {
      DimensionIsNumpySize(types, r, l, shapes, d);
    }
    forall index | InBounds(index, out)
      ensures forall k | 0 <= k < |shapes| ::
                InBounds(ApplyMap(l.indexingMaps[k], index), shapes[k]) &&
                ApplyMap(l.indexingMaps[k], index) == SourceIndex(index, shapes[k])
      ensures GenericElement(l, tensors, payload, index) == NumpyElement(tensors, payload, index)
    {
      forall k | 0 <= k < |shapes|
        ensures InBounds(ApplyMap(l.indexingMaps[k], index), shapes[k]) &&
                ApplyMap(l.indexingMaps[k], index) == SourceIndex(index, shapes[k])
      {
        MapIsSourceIndex(types, r, l, shapes, index, k);
      }
      assert seq(|tensors|, k requires 0 <= k < |tensors| => tensors[k].at(ApplyMap(l.indexingMaps[k], index))) ==
             seq(|tensors|, k requires 0 <= k < |tensors| => tensors[k].at(SourceIndex(index, tensors[k].shape)));
    }
  }

  /** One element of the emitted linalg.generic. */
  function GenericElement(l: Lowering, tensors: seq<Tensor>, payload: seq<int> -> int, index: Index): int
    requires |l.indexingMaps| == |tensors|
    requires forall k, j | 0 <= k < |l.indexingMaps| && 0 <= j < |l.indexingMaps[k]| ::
               l.indexingMaps[k][j].DimExpr? ==> l.indexingMaps[k][j].dim < |index|
  {
    payload(seq(|tensors|, k requires 0 <= k < |tensors| => tensors[k].at(ApplyMap(l.indexingMaps[k], index))))
  }

  lemma DimensionIsNumpySize(types: seq<StaticShape>, r: nat, l: Lowering, shapes: seq<Shape>, d: nat)
    requires Conforms(types, shapes) && RanksWithin(shapes, r) && IsLowering(types, r, l)
    requires AssertsPass(l, shapes) && d < r
    ensures IsNumpySize(shapes, r, d, RuntimeShape(l, shapes)[d])
  {
    var first := RunningSizeIsTraversed(types, r, d, |types|, shapes);
    var m := RuntimeShape(l, shapes)[d];
    forall k | 0 <= k < |shapes| ensures AlignedSize(shapes[k], r, d) == 1 || AlignedSize(shapes[k], r, d) == m {
      if Traverses(types, r, k, d) { AssertForcesRunningSize(types, r, l, shapes, d, k); }
    }
  }

  lemma MapIsSourceIndex(types: seq<StaticShape>, r: nat, l: Lowering, shapes: seq<Shape>, index: Index, k: nat)
    requires Conforms(types, shapes) && RanksWithin(shapes, r) && IsLowering(types, r, l)
    requires AssertsPass(l, shapes) && InBounds(index, RuntimeShape(l, shapes)) && k < |shapes|
    ensures InBounds(ApplyMap(l.indexingMaps[k], index), shapes[k])
    ensures ApplyMap(l.indexingMaps[k], index) == SourceIndex(index, shapes[k])
  {
    var exprs := l.indexingMaps[k];
    forall j | 0 <= j < |exprs|
      ensures ApplyMap(exprs, index)[j] < shapes[k][j] && ApplyMap(exprs, index)[j] == SourceIndex(index, shapes[k])[j]
    {
      var d := j + (r - |shapes[k]|);
      if types[k][j] != Static(1) {
        assert Traverses(types, r, k, d);
        AssertForcesRunningSize(types, r, l, shapes, d, k);
        assert index[d] < RuntimeShape(l, shapes)[d];
      }
    }
  }

  /**
   The asserts are stricter than NumPy in one way only: they pass iff the shapes are compatible
   and no dimension of dynamic size has to be stretched from 1.
   */
  lemma AssertsVersusNumpy(types: seq<StaticShape>, r: nat, l: Lowering, shapes: seq<Shape>)
    requires Conforms(types, shapes) && RanksWithin(shapes, r) && IsLowering(types, r, l)
    ensures AssertsPass(l, shapes) <==>
            NumpyCompatible(shapes, r) &&
            forall d: nat, k | d < r && 0 <= k < |types| && Traverses(types, r, k, d) &&
                   AlignedSize(shapes[k], r, d) == 1 ::
              forall k' | 0 <= k' < |types| :: AlignedSize(shapes[k'], r, d) == 1
  {
    AssertsCheckAgreement(types, r, l, shapes);
    assert forall d: nat, k | d < r && 0 <= k < |types| && !Traverses(types, r, k, d) ::
             AlignedSize(shapes[k], r, d) == 1;
  }

  const DYNAMIC_AND_THREE: seq<StaticShape> := [[Dynamic], [Static(3)]]
  const ONE_AND_THREE: seq<Shape> := [[1], [3]]

  /** Compatible shapes that are rejected: a dynamic dimension turns out to be 1 beside a 3. */
  lemma CompatibleShapesMayBeRejected()
    ensures Conforms(DYNAMIC_AND_THREE, ONE_AND_THREE) && RanksWithin(ONE_AND_THREE, 1)
    ensures NumpyCompatible(ONE_AND_THREE, 1)
    ensures exists l :: IsLowering(DYNAMIC_AND_THREE, 1, l) && !AssertsPass(l, ONE_AND_THREE)
  {
    var l := LoweringOfBoth();
    OneAndThreeAreCompatible();
    assert SizeAssert(DimOf(0, 0), DimOf(1, 0)) in l.asserts;
  }

  lemma OneAndThreeAreCompatible()
    ensures RanksWithin(ONE_AND_THREE, 1) && NumpyCompatible(ONE_AND_THREE, 1)
  {
    forall d: nat, k, k' | d < 1 && 0 <= k < 2 && 0 <= k' < 2
      ensures AlignedSize(ONE_AND_THREE[k], 1, d) == AlignedSize(ONE_AND_THREE[k'], 1, d) ||
              AlignedSize(ONE_AND_THREE[k], 1, d) == 1 || AlignedSize(ONE_AND_THREE[k'], 1, d) == 1
    {
    }
  }

  lemma LoweringOfBoth() returns (l: Lowering)
    ensures l.asserts == [SizeAssert(DimOf(0, 0), DimOf(1, 0))] && IsLowering(DYNAMIC_AND_THREE, 1, l)
  {
    var types := DYNAMIC_AND_THREE;
    l := Lowering([DimOf(0, 0)], [[DimExpr(0)], [DimExpr(0)]], [SizeAssert(DimOf(0, 0), DimOf(1, 0))]);
    assert RunningSize(types, 1, 0, 0) == C1 &&
           RunningSize(types, 1, 0, 1) == DimOf(0, 0) == RunningSize(types, 1, 0, 2);
    assert IsAssert(types, 1, 1, 0, SizeAssert(DimOf(0, 0), DimOf(1, 0)));
    assert IsIndexingMap(types[0], 1, l.indexingMaps[0]) && IsIndexingMap(types[1], 1, l.indexingMaps[1]);
  }
}
