/**
 Broadcasting and padding as loops over flat buffers, and the binary elementwise lowering built on
 it. Models lib/Dialect/TCP/Transforms/Bufferize.cpp and lib/Conversion/TCFToStd/TCFToStd.cpp.
 */
module Bufferize {
  import opened Option
  import opened Layout
  import opened Broadcast

  /** A tensor value held in a dense buffer. */
  datatype Buffer = Buffer(shape: Shape, elements: seq<int>)

  ghost predicate Dense(b: Buffer) {
    |b.elements| == Product(b.shape)
  }

  /** The element at an index, and 0 outside the shape. */
  function ElementAt(b: Buffer, index: Index): int
    requires Dense(b)
  {
    if InBounds(index, b.shape) then OffsetInBuffer(index, b.shape); b.elements[Offset(index, b.shape)] else 0
  }

  /** The tensor a buffer holds. */
  function Contents(b: Buffer): Tensor
    requires Dense(b)
  {
    Tensor(b.shape, index => ElementAt(b, index))
  }

  // ---- broadcast_to ----

  /** Each input dimension equals the output dimension it is aligned with, or is 1. */
  predicate BroadcastableTo(shape: Shape, out: Shape) {
    |shape| <= |out| &&
    forall j | 0 <= j < |shape| :: shape[j] == out[|out| - |shape| + j] || shape[j] == 1
  }

  lemma SourceInBounds(index: Index, shape: Shape, out: Shape)
    requires InBounds(index, out) && BroadcastableTo(shape, out)
    ensures InBounds(SourceIndex(index, shape), shape)
  {
    forall j | 0 <= j < |shape| ensures SourceIndex(index, shape)[j] < shape[j] {
      assert index[|out| - |shape| + j] < out[|out| - |shape| + j];
    }
  }

  /** The input element that belongs at an output offset. */
  ghost function SourceElement(input: Buffer, out: Shape, offset: nat): int
    requires Dense(input) && BroadcastableTo(input.shape, out) && offset < Product(out)
  {
    ElementAt(input, SourceIndex(Unravel(offset, out), input.shape))
  }

  ghost function Range(lo: nat, n: nat): (r: seq<nat>)
    ensures |r| == n
  {
    seq(n, i requires 0 <= i < n => lo + i)
  }

  /** The flags the nest is built with: which input dimensions are stretched. */
  ghost predicate AreBroadcastFlags(flags: seq<bool>, shape: Shape, extents: Shape)
    requires |shape| <= |extents|
  {
    |flags| == |shape| &&
    forall j | 0 <= j < |shape| :: flags[j] == (shape[j] != extents[|extents| - |shape| + j])
  }

  /** Inner body: clamp the indices of broadcast dimensions, load, store. */
  method InnerBody(input: Buffer, requiresBroadcasting: seq<bool>, extents: Shape, output: array<int>, ivs: Index)
    requires Dense(input) && BroadcastableTo(input.shape, extents)
    requires AreBroadcastFlags(requiresBroadcasting, input.shape, extents)
    requires output.Length == Product(extents) && InBounds(ivs, extents)
    modifies output
    ensures Offset(ivs, extents) < output.Length
    ensures output[..] == old(output[..])[Offset(ivs, extents) := SourceElement(input, extents, Offset(ivs, extents))]
  {
    var rankDiff := |extents| - |input.shape|;
    var inputIndices := seq(|input.shape|, i requires 0 <= i < |input.shape| =>
      if requiresBroadcasting[i] then 0 else ivs[rankDiff + i]);
    LoadIsSource(input, extents, ivs, inputIndices);
    output[LinearOffset(ivs, Strides(extents))] := input.elements[LinearOffset(inputIndices, Strides(input.shape))];
  }

  /** Offsets `[lo, hi)` hold the broadcast elements, the rest is as before. */
  ghost predicate Filled(input: Buffer, extents: Shape, lo: nat, hi: nat, before: seq<int>, now: seq<int>)
    requires Dense(input) && BroadcastableTo(input.shape, extents)
  {
    |before| == |now| == Product(extents) &&
    forall o | 0 <= o < |now| ::
      now[o] == if lo <= o < hi then SourceElement(input, extents, o) else before[o]
  }

  lemma FilledAppend(input: Buffer, extents: Shape, lo: nat, mid: nat, n: nat,
                     before: seq<int>, between: seq<int>, now: seq<int>)
    requires Dense(input) && BroadcastableTo(input.shape, extents) && lo <= mid
    requires Filled(input, extents, lo, mid, before, between)
    requires Filled(input, extents, mid, mid + n, between, now)
    ensures Filled(input, extents, lo, mid + n, before, now)
  {
  }

  /** The nest from dimension `|ivs|` inwards; `stores` lists the offsets written, in order. */
  method LoopNest(input: Buffer, requiresBroadcasting: seq<bool>, extents: Shape, output: array<int>, ivs: Index)
    returns (ghost stores: seq<nat>)
    requires Dense(input) && BroadcastableTo(input.shape, extents)
    requires AreBroadcastFlags(requiresBroadcasting, input.shape, extents)
    requires output.Length == Product(extents)
    requires |ivs| <= |extents| && InBounds(ivs, extents[..|ivs|])
    modifies output
    ensures stores == Range(BlockStart(ivs, extents), Product(extents[|ivs|..]))
    ensures Filled(input, extents, BlockStart(ivs, extents), BlockStart(ivs, extents) + Product(extents[|ivs|..]),
                   old(output[..]), output[..])
    decreases |extents| - |ivs|, 1
  {
    var depth := |ivs|;
    if depth == |extents| {
      assert extents[..depth] == extents && extents[depth..] == [];
      BlockStartIsOffset(ivs, extents);
      InnerBody(input, requiresBroadcasting, extents, output, ivs);
      stores := [BlockStart(ivs, extents)];
    } else {
      assert extents[depth..][1..] == extents[depth + 1..];
      stores := OneLoop(input, requiresBroadcasting, extents, output, ivs);
    }
  }

  /** The loop over dimension `|ivs|`. */
  method OneLoop(input: Buffer, requiresBroadcasting: seq<bool>, extents: Shape, output: array<int>, ivs: Index)
    returns (ghost stores: seq<nat>)
    requires Dense(input) && BroadcastableTo(input.shape, extents)
    requires AreBroadcastFlags(requiresBroadcasting, input.shape, extents)
    requires output.Length == Product(extents)
    requires |ivs| < |extents| && InBounds(ivs, extents[..|ivs|])
    modifies output
    ensures stores == Range(BlockStart(ivs, extents), extents[|ivs|] * Product(extents[|ivs| + 1..]))
    ensures Filled(input, extents, BlockStart(ivs, extents),
                   BlockStart(ivs, extents) + extents[|ivs|] * Product(extents[|ivs| + 1..]), old(output[..]),
                   output[..])
    decreases |extents| - |ivs|, 0
  {
    stores := [];
    ghost var start, inner := BlockStart(ivs, extents), Product(extents[|ivs| + 1..]);
    ghost var done: nat := 0;
    for i := 0 to extents[|ivs|]
      invariant done == i * inner && stores == Range(start, done)
      invariant Filled(input, extents, start, start + done, old(output[..]), output[..])
    {
      NextBlock(ivs, i, extents, done);
      ghost var before := output[..];
      ghost var written := LoopNest(input, requiresBroadcasting, extents, output, ivs + [i]);
      RangeAppend(start, done, inner);
      FilledAppend(input, extents, start, start + done, inner, old(output[..]), before, output[..]);
      stores := stores + written;
      done := done + inner;
    }
  }

  /** Where block `i` of a dimension starts, and how far the stores reach after it. */
  lemma NextBlock(ivs: Index, i: nat, extents: Shape, done: nat)
    requires |ivs| < |extents| && InBounds(ivs, extents[..|ivs|]) && i < extents[|ivs|]
    requires done == i * Product(extents[|ivs| + 1..])
    ensures InBounds(ivs + [i], extents[..|ivs + [i]|]) && extents[|ivs + [i]|..] == extents[|ivs| + 1..]
    ensures BlockStart(ivs + [i], extents) == BlockStart(ivs, extents) + done
    ensures done + Product(extents[|ivs| + 1..]) == (i + 1) * Product(extents[|ivs| + 1..])
  {
    BlockStartStep(ivs, i, extents);
    OneMore(i, Product(extents[|ivs| + 1..]));
    PrefixInBounds(ivs, i, extents);
  }

  lemma OneMore(i: nat, inner: nat)
    ensures i * inner + inner == (i + 1) * inner
  {
  }

  lemma PrefixInBounds(ivs: Index, i: nat, extents: Shape)
    requires |ivs| < |extents| && InBounds(ivs, extents[..|ivs|]) && i < extents[|ivs|]
    ensures InBounds(ivs + [i], extents[..|ivs + [i]|])
  {
  }

  lemma RangeAppend(lo: nat, m: nat, n: nat)
    ensures Range(lo, m) + Range(lo + m, n) == Range(lo, m + n)
  {
  }

  /** The offset of the first element of the block that an index prefix selects. */
  ghost function BlockStart(prefix: Index, extents: Shape): nat
    requires |prefix| <= |extents|
  {
    if prefix == [] then 0 else prefix[0] * Product(extents[1..]) + BlockStart(prefix[1..], extents[1..])
  }

  lemma {:induction false} BlockStartStep(prefix: Index, i: nat, extents: Shape)
    requires |prefix| < |extents|
    ensures BlockStart(prefix + [i], extents) == BlockStart(prefix, extents) + i * Product(extents[|prefix| + 1..])
  {
    if prefix == [] {
      assert [i][1..] == [];
    } else {
      BlockStartStep(prefix[1..], i, extents[1..]);
      assert (prefix + [i])[1..] == prefix[1..] + [i];
      assert extents[1..][|prefix|..] == extents[|prefix| + 1..];
    }
  }

  lemma {:induction false} BlockStartIsOffset(index: Index, extents: Shape)
    requires |index| == |extents|
    ensures BlockStart(index, extents) == Offset(index, extents)
  {
    if index != [] {
      OffsetStep(index, extents);
      BlockStartIsOffset(index[1..], extents[1..]);
    }
  }

  /** Clamping by comparing extents reads the NumPy source element, in bounds. */
  lemma LoadIsSource(input: Buffer, extents: Shape, ivs: Index, inputIndices: Index)
    requires Dense(input) && BroadcastableTo(input.shape, extents) && InBounds(ivs, extents)
    requires |inputIndices| == |input.shape|
    requires forall j | 0 <= j < |input.shape| ::
        inputIndices[j] ==
        (if input.shape[j] != extents[|extents| - |input.shape| + j] then 0 else ivs[|extents| - |input.shape| + j])
    ensures Offset(inputIndices, input.shape) < |input.elements|
    ensures Offset(ivs, extents) < Product(extents)
    ensures input.elements[Offset(inputIndices, input.shape)] == SourceElement(input, extents, Offset(ivs, extents))
  {
    ClampIsSource(input.shape, extents, ivs, inputIndices);
    OffsetInBuffer(inputIndices, input.shape);
    UnravelOfOffset(ivs, extents);
  }

  lemma ClampIsSource(shape: Shape, extents: Shape, ivs: Index, inputIndices: Index)
    requires BroadcastableTo(shape, extents) && InBounds(ivs, extents) && |inputIndices| == |shape|
    requires forall j | 0 <= j < |shape| ::
        inputIndices[j] ==
        (if shape[j] != extents[|extents| - |shape| + j] then 0 else ivs[|extents| - |shape| + j])
    ensures inputIndices == SourceIndex(ivs, shape) && InBounds(inputIndices, shape)
  {
    SourceInBounds(ivs, shape, extents);
    forall j | 0 <= j < |shape| ensures inputIndices[j] == SourceIndex(ivs, shape)[j] {
      assert ivs[|extents| - |shape| + j] < extents[|extents| - |shape| + j];
    }
  }

  /**
   The lowered broadcast_to: under the broadcastable witness it writes each output element exactly
   once, and the result is the input read at the clamped index.
   */
  method BroadcastTo(input: Buffer, resultShape: Shape) returns (result: Buffer, ghost stores: seq<nat>)
    requires Dense(input) && BroadcastableTo(input.shape, resultShape)
    ensures Dense(result) && result.shape == resultShape
    ensures stores == Range(0, Product(resultShape))
    ensures forall index | InBounds(index, resultShape) ::
        ElementAt(result, index) == ElementAt(input, SourceIndex(index, input.shape))
  {
    var rankDiff := |resultShape| - |input.shape|;
    var inputDimRequiresBroadcasting: seq<bool> := [];
    for i := 0 to |input.shape|
      invariant |inputDimRequiresBroadcasting| == i
      invariant forall j | 0 <= j < i ::
                  inputDimRequiresBroadcasting[j] == (input.shape[j] != resultShape[rankDiff + j])
    {
      inputDimRequiresBroadcasting := inputDimRequiresBroadcasting + [input.shape[i] != resultShape[rankDiff + i]];
    }
    var total := Product(resultShape);
    var output := new int[total];
    assert resultShape[0..] == resultShape;
    stores := LoopNest(input, inputDimRequiresBroadcasting, resultShape, output, []);
    result := Buffer(resultShape, output[..]);
    forall index | InBounds(index, resultShape)
      ensures ElementAt(result, index) == ElementAt(input, SourceIndex(index, input.shape))
    {
      UnravelOfOffset(index, resultShape);
      var o := Offset(index, resultShape);
      assert stores[o] == o;
    }
  }

  // ---- Binary elementwise ops ----

  /** The sizes `i` places from the right are equal or one of them is 1. */
  predicate DimsMatch(l: Shape, r: Shape, i: nat)
    requires i < |l| && i < |r|
  {
    var a, b := l[|l| - 1 - i], r[|r| - 1 - i];
    a == b || a == 1 || b == 1
  }

  /** The witness: all dimensions that both shapes have match. */
  predicate CstrBroadcastable(l: Shape, r: Shape) {
    forall i: nat | i < |l| && i < |r| :: DimsMatch(l, r, i)
  }

  function ResultRank(l: Shape, r: Shape): nat {
    if |l| < |r| then |r| else |l|
  }

  /** The broadcast shape computed at run time. */
  function BroadcastShape(l: Shape, r: Shape): (out: Shape) {
    var n := ResultRank(l, r);
    seq(n, d requires 0 <= d < n =>
      if AlignedSize(l, n, d) == 1 then AlignedSize(r, n, d) else AlignedSize(l, n, d))
  }

  lemma AlignedMatch(l: Shape, r: Shape, d: nat)
    requires CstrBroadcastable(l, r) && d < ResultRank(l, r)
    ensures var n := ResultRank(l, r);
            AlignedSize(l, n, d) == AlignedSize(r, n, d) || AlignedSize(l, n, d) == 1 || AlignedSize(r, n, d) == 1
  {
    var n := ResultRank(l, r);
    if d >= n - |l| && d >= n - |r| { assert DimsMatch(l, r, n - 1 - d); }
  }

  lemma WitnessedSize(l: Shape, r: Shape, d: nat)
    requires CstrBroadcastable(l, r) && d < ResultRank(l, r)
    ensures var n, m := ResultRank(l, r), BroadcastShape(l, r)[d];
            IsNumpySize([l, r], n, d, m) &&
            (AlignedSize(l, n, d) == 1 || AlignedSize(l, n, d) == m) &&
            (AlignedSize(r, n, d) == 1 || AlignedSize(r, n, d) == m)
  {
    var n, shapes := ResultRank(l, r), [l, r];
    AlignedMatch(l, r, d);
    assert shapes[0] == l && shapes[1] == r;
    assert AlignedSize(shapes[0], n, d) == AlignedSize(l, n, d);
    assert AlignedSize(shapes[1], n, d) == AlignedSize(r, n, d);
  }

  lemma WitnessGivesShape(l: Shape, r: Shape)
    requires CstrBroadcastable(l, r)
    ensures IsNumpyShape([l, r], ResultRank(l, r), BroadcastShape(l, r))
    ensures BroadcastableTo(l, BroadcastShape(l, r)) && BroadcastableTo(r, BroadcastShape(l, r))
  {
    WitnessGivesNumpyShape(l, r);
    WitnessGivesBroadcastable(l, r);
  }

  lemma WitnessGivesNumpyShape(l: Shape, r: Shape)
    requires CstrBroadcastable(l, r)
    ensures IsNumpyShape([l, r], ResultRank(l, r), BroadcastShape(l, r))
  {
    var n, out := ResultRank(l, r), BroadcastShape(l, r);
    forall d | 0 <= d < n ensures IsNumpySize([l, r], n, d, out[d]) { WitnessedSize(l, r, d); }
  }

  lemma WitnessGivesBroadcastable(l: Shape, r: Shape)
    requires CstrBroadcastable(l, r)
    ensures BroadcastableTo(l, BroadcastShape(l, r)) && BroadcastableTo(r, BroadcastShape(l, r))
  {
    var n, out := ResultRank(l, r), BroadcastShape(l, r);
    forall j | 0 <= j < |l| ensures l[j] == out[n - |l| + j] || l[j] == 1 {
      WitnessedSize(l, r, n - |l| + j);
      assert AlignedSize(l, n, n - |l| + j) == l[j];
    }
    forall j | 0 <= j < |r| ensures r[j] == out[n - |r| + j] || r[j] == 1 {
      WitnessedSize(l, r, n - |r| + j);
      assert AlignedSize(r, n, n - |r| + j) == r[j];
    }
  }

  lemma CompatibleGivesWitness(l: Shape, r: Shape)
    requires NumpyCompatible([l, r], ResultRank(l, r))
    ensures CstrBroadcastable(l, r)
  {
    var n, shapes := ResultRank(l, r), [l, r];
    forall i: nat | i < |l| && i < |r| ensures DimsMatch(l, r, i) {
      assert AlignedSize(shapes[0], n, n - 1 - i) == l[|l| - 1 - i];
      assert AlignedSize(shapes[1], n, n - 1 - i) == r[|r| - 1 - i];
    }
  }

  /** The witness holds exactly when a NumPy broadcast shape exists, and then that is the shape. */
  lemma WitnessMeansNumpyShape(l: Shape, r: Shape)
    ensures CstrBroadcastable(l, r) <==> NumpyCompatible([l, r], ResultRank(l, r))
    ensures CstrBroadcastable(l, r) ==>
              IsNumpyShape([l, r], ResultRank(l, r), BroadcastShape(l, r)) &&
              BroadcastableTo(l, BroadcastShape(l, r)) && BroadcastableTo(r, BroadcastShape(l, r))
  {
    if CstrBroadcastable(l, r) {
      WitnessGivesShape(l, r);
      NumpyShapeIsUnique([l, r], ResultRank(l, r), BroadcastShape(l, r), BroadcastShape(l, r));
    }
    if NumpyCompatible([l, r], ResultRank(l, r)) {
      CompatibleGivesWitness(l, r);
    }
  }

  /** The meaning of an elementwise op on two operands, as a payload on the list of both. */
  function Payload2(op: (int, int) -> int): seq<int> -> int {
    (xs: seq<int>) => if |xs| == 2 then op(xs[0], xs[1]) else 0
  }

  lemma NumpyElementOfTwo(lhs: Buffer, rhs: Buffer, op: (int, int) -> int, index: Index)
    requires Dense(lhs) && Dense(rhs) && |lhs.shape| <= |index| && |rhs.shape| <= |index|
    ensures NumpyElement([Contents(lhs), Contents(rhs)], Payload2(op), index) ==
            op(ElementAt(lhs, SourceIndex(index, lhs.shape)), ElementAt(rhs, SourceIndex(index, rhs.shape)))
  {
    var tensors := [Contents(lhs), Contents(rhs)];
    var values := seq(|tensors|, k requires 0 <= k < |tensors| => tensors[k].at(SourceIndex(index, tensors[k].shape)));
    assert values[0] == ElementAt(lhs, SourceIndex(index, lhs.shape));
    assert values[1] == ElementAt(rhs, SourceIndex(index, rhs.shape));
  }

  /**
   The TCF lowering: under the witness, broadcast both sides and combine pointwise. Without it
   the assuming region does not run. The result is NumPy's.
   */
  method BinaryElementwise(lhs: Buffer, rhs: Buffer, op: (int, int) -> int) returns (result: Option<Buffer>)
    requires Dense(lhs) && Dense(rhs)
    ensures result.Some? <==> NumpyCompatible([lhs.shape, rhs.shape], ResultRank(lhs.shape, rhs.shape))
    ensures result.Some? ==>
              Dense(result.value) &&
              IsNumpyShape([lhs.shape, rhs.shape], ResultRank(lhs.shape, rhs.shape), result.value.shape) &&
              forall index | InBounds(index, result.value.shape) ::
                Contents(result.value).at(index) ==
                  NumpyElement([Contents(lhs), Contents(rhs)], Payload2(op), index)
  {
    WitnessMeansNumpyShape(lhs.shape, rhs.shape);
    if !CstrBroadcastable(lhs.shape, rhs.shape) { return None; }
    var broadcastedShape := BroadcastShape(lhs.shape, rhs.shape);
    var lhsBroadcasted, _ := BroadcastTo(lhs, broadcastedShape);
    var rhsBroadcasted, _ := BroadcastTo(rhs, broadcastedShape);
    var n := |lhsBroadcasted.elements|;
    var out := Buffer(broadcastedShape, seq(n, o requires 0 <= o < n =>
      op(lhsBroadcasted.elements[o], rhsBroadcasted.elements[o])));
    PointwiseIsNumpy(lhs, rhs, lhsBroadcasted, rhsBroadcasted, out, op);
    result := Some(out);
  }

  lemma PointwiseIsNumpy(lhs: Buffer, rhs: Buffer, l: Buffer, r: Buffer, out: Buffer, op: (int, int) -> int)
    requires Dense(lhs) && Dense(rhs) && Dense(l) && Dense(r) && Dense(out) && l.shape == r.shape == out.shape
    requires |lhs.shape| <= |out.shape| && |rhs.shape| <= |out.shape|
    requires forall o | 0 <= o < |out.elements| :: out.elements[o] == op(l.elements[o], r.elements[o])
    requires forall index | InBounds(index, out.shape) ::
               ElementAt(l, index) == ElementAt(lhs, SourceIndex(index, lhs.shape))
    requires forall index | InBounds(index, out.shape) ::
               ElementAt(r, index) == ElementAt(rhs, SourceIndex(index, rhs.shape))
    ensures forall index | InBounds(index, out.shape) ::
              ElementAt(out, index) == NumpyElement([Contents(lhs), Contents(rhs)], Payload2(op), index)
  {
    forall index | InBounds(index, out.shape)
      ensures ElementAt(out, index) == NumpyElement([Contents(lhs), Contents(rhs)], Payload2(op), index)
    {
      OffsetInBuffer(index, out.shape);
      NumpyElementOfTwo(lhs, rhs, op, index);
    }
  }

  /**
   The two lowerings agree: wherever the asserts of the affine-map lowering pass, the witness of
   the loop lowering holds and both give the same shape and the same elements.
   */
  lemma LoweringsAgree(types: seq<StaticShape>, l: Lowering, lhs: Buffer, rhs: Buffer,
                       op: (int, int) -> int, result: Buffer)
    requires Dense(lhs) && Dense(rhs) && Dense(result)
    requires Conforms(types, [lhs.shape, rhs.shape])
    requires IsLowering(types, ResultRank(lhs.shape, rhs.shape), l)
    requires AssertsPass(l, [lhs.shape, rhs.shape])
    requires IsNumpyShape([lhs.shape, rhs.shape], ResultRank(lhs.shape, rhs.shape), result.shape)
    requires forall index | InBounds(index, result.shape) ::
               ElementAt(result, index) == NumpyElement([Contents(lhs), Contents(rhs)], Payload2(op), index)
    ensures CstrBroadcastable(lhs.shape, rhs.shape)
    ensures result.shape == RuntimeShape(l, [lhs.shape, rhs.shape])
    ensures forall index | InBounds(index, result.shape) ::
              ElementAt(result, index) ==
                GenericElement(l, [Contents(lhs), Contents(rhs)], Payload2(op), index)
  {
    var shapes, r := [lhs.shape, rhs.shape], ResultRank(lhs.shape, rhs.shape);
    ElementwiseRefinesNumpy(types, r, l, [Contents(lhs), Contents(rhs)], shapes, Payload2(op));
    NumpyShapeIsUnique(shapes, r, result.shape, RuntimeShape(l, shapes));
    WitnessMeansNumpyShape(lhs.shape, rhs.shape);
  }

  // ---- pad ----

  function PaddedShape(shape: Shape, lower: seq<nat>, upper: seq<nat>): (out: Shape)
    requires |lower| == |upper| == |shape|
    ensures |out| == |shape| && forall i | 0 <= i < |shape| :: out[i] == lower[i] + shape[i] + upper[i]
  {
    seq(|shape|, i requires 0 <= i < |shape| => lower[i] + upper[i] + shape[i])
  }

  function Shift(index: Index, lower: seq<nat>): (shifted: Index)
    requires |index| == |lower|
  {
    seq(|index|, i requires 0 <= i < |index| => index[i] + lower[i])
  }

  /** Where the copy puts the operand's element at offset `p`. */
  function PadTarget(p: nat, shape: Shape, lower: seq<nat>, out: Shape): (o: nat)
    requires |lower| == |shape| == |out| && p < Product(shape)
    requires forall i | 0 <= i < |shape| :: lower[i] + shape[i] <= out[i]
    ensures o < Product(out)
  {
    var target := Shift(Unravel(p, shape), lower);
    OffsetInBuffer(target, out);
    LinearOffset(target, Strides(out))
  }

  lemma PadTargetInjective(p: nat, q: nat, shape: Shape, lower: seq<nat>, out: Shape)
    requires |lower| == |shape| == |out| && p < Product(shape) && q < Product(shape)
    requires forall i | 0 <= i < |shape| :: lower[i] + shape[i] <= out[i]
    requires PadTarget(p, shape, lower, out) == PadTarget(q, shape, lower, out)
    ensures p == q
  {
    var a, b := Unravel(p, shape), Unravel(q, shape);
    UnravelOfOffset(Shift(a, lower), out);
    UnravelOfOffset(Shift(b, lower), out);
    ShiftInjective(a, b, lower);
    OffsetOfUnravel(p, shape);
    OffsetOfUnravel(q, shape);
  }

  lemma ShiftInjective(a: Index, b: Index, lower: seq<nat>)
    requires |a| == |b| == |lower| && Shift(a, lower) == Shift(b, lower)
    ensures a == b
  {
    forall i | 0 <= i < |a| ensures a[i] == b[i] {
      assert Shift(a, lower)[i] == Shift(b, lower)[i];
    }
  }

  /** The operand's elements sit at their targets; everything else holds the fill value. */
  ghost predicate IsPadded(elements: seq<int>, input: Buffer, lower: seq<nat>, out: Shape, fillVal: int, done: nat)
    requires Dense(input) && |lower| == |input.shape| == |out| && done <= Product(input.shape)
    requires forall i | 0 <= i < |out| :: lower[i] + input.shape[i] <= out[i]
  {
    |elements| == Product(out) &&
    (forall p | 0 <= p < done :: elements[PadTarget(p, input.shape, lower, out)] == input.elements[p]) &&
    (forall q | 0 <= q < |elements| && elements[q] != fillVal ::
       exists p | 0 <= p < done :: q == PadTarget(p, input.shape, lower, out))
  }

  lemma PadStep(elements: seq<int>, input: Buffer, lower: seq<nat>, out: Shape, fillVal: int, o: nat)
    requires Dense(input) && |lower| == |input.shape| == |out| && o < Product(input.shape)
    requires forall i | 0 <= i < |out| :: lower[i] + input.shape[i] <= out[i]
    requires IsPadded(elements, input, lower, out, fillVal, o)
    ensures IsPadded(elements[PadTarget(o, input.shape, lower, out) := input.elements[o]], input, lower, out, fillVal,
                     o + 1)
  {
    var target := PadTarget(o, input.shape, lower, out);
    var now := elements[target := input.elements[o]];
    forall p | 0 <= p < o + 1 ensures now[PadTarget(p, input.shape, lower, out)] == input.elements[p] {
      if p < o && PadTarget(p, input.shape, lower, out) == target { PadTargetInjective(p, o, input.shape, lower, out); }
    }
    forall q | 0 <= q < |now| && now[q] != fillVal
      ensures exists p | 0 <= p < o + 1 :: q == PadTarget(p, input.shape, lower, out)
    {
      if q == target {
        assert q == PadTarget(o, input.shape, lower, out);
      } else {
        var p :| 0 <= p < o && q == PadTarget(p, input.shape, lower, out);
      }
    }
  }

  /** The element at `source` is moved past `lower[i]` positions in each dimension `i`. */
  predicate IsMoved(source: Index, lower: seq<nat>, index: Index) {
    |index| == |source| == |lower| && forall i | 0 <= i < |lower| :: index[i] == lower[i] + source[i]
  }

  /** Fill the result, then copy the operand into the subview that starts at `lower`. */
  method Pad(input: Buffer, lower: seq<nat>, upper: seq<nat>, fillVal: int) returns (result: Buffer)
    requires Dense(input) && |lower| == |upper| == |input.shape|
    ensures Dense(result) && |result.shape| == |input.shape|
    ensures forall i | 0 <= i < |input.shape| :: result.shape[i] == lower[i] + input.shape[i] + upper[i]
    ensures forall index, source | InBounds(source, input.shape) && IsMoved(source, lower, index) ::
              InBounds(index, result.shape) && ElementAt(result, index) == ElementAt(input, source)
    ensures forall index | InBounds(index, result.shape) && ElementAt(result, index) != fillVal ::
              exists source :: InBounds(source, input.shape) && IsMoved(source, lower, index)
  {
    var out := PaddedShape(input.shape, lower, upper);
    var total, count := Product(out), Product(input.shape);
    var output := new int[total](_ => fillVal);
    for o := 0 to count
      invariant IsPadded(output[..], input, lower, out, fillVal, o)
    {
      var target := PadTarget(o, input.shape, lower, out);
      PadStep(output[..], input, lower, out, fillVal, o);
      ghost var before := output[..];
      output[target] := input.elements[o];
      assert output[..] == before[target := input.elements[o]];
    }
    result := Buffer(out, output[..]);
    PaddedMeans(result, input, lower, fillVal);
  }

  ghost predicate Padded(result: Buffer, input: Buffer, lower: seq<nat>, fillVal: int) {
    Dense(input) && Dense(result) && |lower| == |input.shape| == |result.shape| &&
    (forall i | 0 <= i < |lower| :: lower[i] + input.shape[i] <= result.shape[i]) &&
    IsPadded(result.elements, input, lower, result.shape, fillVal, Product(input.shape))
  }

  lemma PaddedMeans(result: Buffer, input: Buffer, lower: seq<nat>, fillVal: int)
    requires Padded(result, input, lower, fillVal)
    ensures forall index, source | InBounds(source, input.shape) && IsMoved(source, lower, index) ::
              InBounds(index, result.shape) && ElementAt(result, index) == ElementAt(input, source)
    ensures forall index | InBounds(index, result.shape) && ElementAt(result, index) != fillVal ::
              exists source :: InBounds(source, input.shape) && IsMoved(source, lower, index)
  {
    forall index, source | InBounds(source, input.shape) && IsMoved(source, lower, index)
      ensures InBounds(index, result.shape) && ElementAt(result, index) == ElementAt(input, source)
    {
      ElementInside(result, input, lower, fillVal, source, index);
    }
    forall index | InBounds(index, result.shape) && ElementAt(result, index) != fillVal
      ensures exists source :: InBounds(source, input.shape) && IsMoved(source, lower, index)
    {
      var source := ElementOutside(result, input, lower, fillVal, index);
    }
  }

  lemma ElementInside(result: Buffer, input: Buffer, lower: seq<nat>, fillVal: int, source: Index, index: Index)
    requires Padded(result, input, lower, fillVal) && InBounds(source, input.shape) && IsMoved(source, lower, index)
    ensures InBounds(index, result.shape) && ElementAt(result, index) == ElementAt(input, source)
  {
    UnravelOfOffset(source, input.shape);
    assert Shift(source, lower) == index;
    assert PadTarget(Offset(source, input.shape), input.shape, lower, result.shape) == Offset(index, result.shape);
  }

  /** Only an element of the operand differs from the fill value. */
  lemma ElementOutside(result: Buffer, input: Buffer, lower: seq<nat>, fillVal: int, index: Index)
    returns (source: Index)
    requires Padded(result, input, lower, fillVal) && InBounds(index, result.shape) &&
             ElementAt(result, index) != fillVal
    ensures InBounds(source, input.shape) && IsMoved(source, lower, index)
  {
    UnravelOfOffset(index, result.shape);
    var p :| 0 <= p < Product(input.shape) &&
      Offset(index, result.shape) == PadTarget(p, input.shape, lower, result.shape);
    source := Unravel(p, input.shape);
    UnravelOfOffset(Shift(source, lower), result.shape);
  }
}
