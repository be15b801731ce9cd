/**
 Dense row-major layout: the strides a memref descriptor is created with, and the correspondence
 between index tuples and linear offsets. Models `MemrefDescriptor` and the tensor conversions of
 lib/RefBackend/Runtime/Runtime.cpp.
 */
module Layout {
  type Shape = seq<nat>
  type Index = seq<nat>

  function Product(shape: Shape): nat {
    if shape == [] then 1 else shape[0] * Product(shape[1..])
  }

  /** The stride of a dimension is the number of elements of the dimensions after it. */
  function Strides(shape: Shape): (strides: seq<nat>)
    ensures |strides| == |shape|
  {
    seq(|shape|, k requires 0 <= k < |shape| => Product(shape[k + 1..]))
  }

  predicate InBounds(index: Index, shape: Shape) {
    |index| == |shape| && forall k | 0 <= k < |index| :: index[k] < shape[k]
  }

  /** Where codegenerated code finds an element: the dot product of index and strides. */
  function LinearOffset(index: Index, strides: seq<nat>): nat
    requires |index| == |strides|
  {
    if index == [] then 0 else index[0] * strides[0] + LinearOffset(index[1..], strides[1..])
  }

  function Offset(index: Index, shape: Shape): nat
    requires |index| == |shape|
  {
    LinearOffset(index, Strides(shape))
  }

  /** The index tuple stored at a linear offset. */
  function Unravel(offset: nat, shape: Shape): (index: Index)
    requires offset < Product(shape)
    ensures InBounds(index, shape)
  {
    if shape == [] then []
    else
      var inner := Product(shape[1..]);
      DivModBound(offset, shape[0], inner);
      var rest := Unravel(offset % inner, shape[1..]);
      assert forall k | 1 <= k < |shape| :: rest[k - 1] < shape[1..][k - 1] == shape[k];
      [offset / inner] + rest
  }

  lemma {:induction false} MulMonotone(a: nat, b: nat, n: nat)
    requires a <= b
    ensures a * n <= b * n
  {
    if n > 0 { MulMonotone(a, b, n - 1); }
  }

  lemma RowBound(i: nat, rest: nat, outer: nat, inner: nat)
    requires i < outer && rest < inner
    ensures i * inner + rest < outer * inner
  {
    MulMonotone(i + 1, outer, inner);
    assert (i + 1) * inner == i * inner + inner;
  }

  lemma EuclidUnique(q: nat, r: nat, q': nat, r': nat, n: nat)
    requires q * n + r == q' * n + r' && r < n && r' < n
    ensures q == q' && r == r'
  {
    if q < q' {
      MulMonotone(q + 1, q', n);
    } else if q' < q {
      MulMonotone(q' + 1, q, n);
    }
  }

  lemma DivModBound(offset: nat, outer: nat, inner: nat)
    requires offset < outer * inner
    ensures inner > 0 && 0 <= offset / inner < outer && 0 <= offset % inner < inner
  {
    if offset / inner >= outer { MulMonotone(outer, offset / inner, inner); }
  }

  lemma DivMod(offset: nat, inner: nat)
    requires inner > 0
    ensures (offset / inner) * inner + offset % inner == offset
  {
  }

  lemma DivModUnique(q: nat, r: nat, inner: nat)
    requires r < inner
    ensures (q * inner + r) / inner == q && (q * inner + r) % inner == r
  {
    var n := q * inner + r;
    EuclidUnique(q, r, n / inner, n % inner, inner);
  }

  lemma OffsetStep(index: Index, shape: Shape)
    requires |index| == |shape| > 0
    ensures Offset(index, shape) == index[0] * Product(shape[1..]) + Offset(index[1..], shape[1..])
  {
    assert Strides(shape)[1..] == Strides(shape[1..]) by {
      forall k | 0 <= k < |shape| - 1 ensures Strides(shape)[1..][k] == Strides(shape[1..])[k] {
        assert shape[1..][k + 1..] == shape[k + 2..];
      }
    }
  }

  lemma {:induction false} OffsetInBuffer(index: Index, shape: Shape)
    requires InBounds(index, shape)
    ensures Offset(index, shape) < Product(shape)
  {
    if shape != [] {
      OffsetStep(index, shape);
      OffsetInBuffer(index[1..], shape[1..]);
      RowBound(index[0], Offset(index[1..], shape[1..]), shape[0], Product(shape[1..]));
    }
  }

  /** Unravelling the offset of an in-range index gives the index back. */
  lemma {:induction false} UnravelOfOffset(index: Index, shape: Shape)
    requires InBounds(index, shape)
    ensures Offset(index, shape) < Product(shape) && Unravel(Offset(index, shape), shape) == index
  {
    OffsetInBuffer(index, shape);
    if shape != [] {
      var rest := Offset(index[1..], shape[1..]);
      OffsetStep(index, shape);
      UnravelOfOffset(index[1..], shape[1..]);
      UnravelStep(index[0], rest, shape);
      assert index == [index[0]] + index[1..];
    }
  }

  lemma UnravelStep(first: nat, rest: nat, shape: Shape)
    requires shape != [] && rest < Product(shape[1..])
    requires first * Product(shape[1..]) + rest < Product(shape)
    ensures Unravel(first * Product(shape[1..]) + rest, shape) == [first] + Unravel(rest, shape[1..])
  {
    DivModUnique(first, rest, Product(shape[1..]));
    UnravelAt(first * Product(shape[1..]) + rest, first, rest, shape);
  }

  lemma UnravelAt(offset: nat, first: nat, rest: nat, shape: Shape)
    requires shape != [] && offset < Product(shape) && rest < Product(shape[1..])
    requires offset / Product(shape[1..]) == first && offset % Product(shape[1..]) == rest
    ensures Unravel(offset, shape) == [first] + Unravel(rest, shape[1..])
  {
  }

  /** Every offset of the buffer is the offset of the index it unravels to. */
  lemma {:induction false} OffsetOfUnravel(offset: nat, shape: Shape)
    requires offset < Product(shape)
    ensures Offset(Unravel(offset, shape), shape) == offset
  {
    if shape != [] {
      var inner := Product(shape[1..]);
      DivModBound(offset, shape[0], inner);
      OffsetOfUnravel(offset % inner, shape[1..]);
      var rest := Unravel(offset % inner, shape[1..]);
      var index := [offset / inner] + rest;
      assert index[1..] == rest;
      OffsetStep(index, shape);
      DivMod(offset, inner);
    }
  }

  ghost predicate IsOffset(offset: nat, shape: Shape) {
    exists index :: InBounds(index, shape) && Offset(index, shape) == offset
  }

  /** Linear offset is a bijection from in-range indices onto the buffer. */
  lemma OffsetIsBijection(shape: Shape)
    ensures forall i, j :: InBounds(i, shape) && InBounds(j, shape) && Offset(i, shape) == Offset(j, shape) ==> i == j
    ensures forall o: nat :: IsOffset(o, shape) <==> o < Product(shape)
  {
    forall i, j | InBounds(i, shape) && InBounds(j, shape) && Offset(i, shape) == Offset(j, shape)
      ensures i == j
    {
      UnravelOfOffset(i, shape);
      UnravelOfOffset(j, shape);
    }
    forall o: nat ensures IsOffset(o, shape) <==> o < Product(shape) {
      if o < Product(shape) {
        OffsetOfUnravel(o, shape);
        assert InBounds(Unravel(o, shape), shape);
      }
      if i :| InBounds(i, shape) && Offset(i, shape) == o {
        OffsetInBuffer(i, shape);
      }
    }
  }

  /** The last dimension is contiguous, and each other one steps over a whole row of the next. */
  ghost predicate IsRowMajor(sizes: seq<int>, strides: seq<int>) {
    |sizes| == |strides| && (strides != [] ==> strides[|strides| - 1] == 1) &&
    forall k | 1 <= k < |sizes| :: strides[k - 1] == sizes[k] * strides[k]
  }

  lemma StridesAreRowMajor(shape: Shape)
    ensures IsRowMajor(shape, Strides(shape))
  {
    forall k | 1 <= k < |shape| ensures Strides(shape)[k - 1] == shape[k] * Strides(shape)[k] {
      assert shape[k..][1..] == shape[k + 1..];
    }
  }

  lemma StridesFilled(shape: Shape, sizes: seq<int>, strides: seq<int>)
    requires |sizes| == |strides| == |shape|
    requires forall k | 0 <= k < |shape| :: sizes[k] == shape[k] && strides[k] == Product(shape[k + 1..])
    ensures sizes == shape && strides == Strides(shape) && IsRowMajor(sizes, strides)
  {
    StridesAreRowMajor(shape);
  }

  // ---- Memref descriptors ----

  class MemrefDescriptor {
    // The buffer; allocatedPtr and dataPtr are the same pointer.
    const data: array<int>
    const offset: nat := 0
    const sizes: array<int>
    const strides: array<int>

    ghost predicate Valid(extents: Shape)
      reads sizes, strides
    {
      sizes[..] == extents && strides[..] == Strides(extents)
    }

    /** Fills sizes and strides from the last dimension to the first. */
    constructor (extents: Shape, data: array<int>)
      ensures this.data == data && Valid(extents)
      ensures sizes[..] == extents && IsRowMajor(sizes[..], strides[..])
      ensures fresh(sizes) && fresh(strides)
    {
      this.data := data;
      var rank := |extents|;
      var newSizes, newStrides := new int[rank], new int[rank];
      var stride := 1;
      for i := 0 to rank
        invariant stride == Product(extents[rank - i..])
        invariant forall k | rank - i <= k < rank ::
                    newSizes[k] == extents[k] && newStrides[k] == Product(extents[k + 1..])
      {
        var revIdx := rank - i - 1;
        newSizes[revIdx] := extents[revIdx];
        newStrides[revIdx] := stride;
        stride := stride * extents[revIdx];
        assert extents[revIdx..][1..] == extents[rank - i..];
      }
      sizes, strides := newSizes, newStrides;
      StridesFilled(extents, newSizes[..], newStrides[..]);
    }

    /** Outer size times outer stride is the number of elements. */
    method GetNumElements(ghost extents: Shape) returns (n: int)
      requires Valid(extents)
      ensures n == Product(extents)
    {
      if sizes.Length == 0 { return 1; }
      n := sizes[0] * strides[0];
      assert sizes[..][0] == extents[0] && strides[..][0] == Strides(extents)[0];
    }
  }

  // ---- Tensors ----

  datatype ElementType = NONE | F32

  function ElementTypeByteSize(t: ElementType): nat {
    match t case NONE => 0 case F32 => 4
  }

  const INT32_MAX := 0x7FFF_FFFF
  // The conversion back to a tensor copies extents through a buffer of this many entries.
  const MAX_CONVERTED_RANK := 20

  /** Every running product of the extents, and the byte size, is representable as int32. */
  ghost predicate FitsInt32(extents: Shape, t: ElementType) {
    (forall k | 0 <= k <= |extents| :: Product(extents[..k]) <= INT32_MAX) &&
    (forall k | 0 <= k < |extents| :: extents[k] <= INT32_MAX) &&
    ElementTypeByteSize(t) * Product(extents) <= INT32_MAX
  }

  lemma {:induction false} ProductAppend(shape: Shape, n: nat)
    ensures Product(shape + [n]) == Product(shape) * n
  {
    if shape == [] {
      assert shape + [n] == [n];
    } else {
      assert (shape + [n])[1..] == shape[1..] + [n];
      ProductAppend(shape[1..], n);
      var inner := Product(shape[1..]);
      assert shape[0] * (inner * n) == (shape[0] * inner) * n;
    }
  }

  /** The running product, each step of which stays within int32. */
  method TotalElements(extents: Shape) returns (total: int)
    requires forall k | 0 <= k <= |extents| :: Product(extents[..k]) <= INT32_MAX
    ensures total == Product(extents) <= INT32_MAX
  {
    total := 1;
    for i := 0 to |extents|
      invariant total == Product(extents[..i]) <= INT32_MAX
    {
      ProductAppend(extents[..i], extents[i]);
      assert extents[..i + 1] == extents[..i] + [extents[i]];
      total := total * extents[i];
    }
    assert extents[..|extents|] == extents;
  }

  /** A runtime tensor: its extents and a private copy of its bytes. */
  datatype RuntimeTensor = RuntimeTensor(elementType: ElementType, extents: Shape, bytes: seq<int>)

  ghost predicate WellFormed(t: RuntimeTensor) {
    FitsInt32(t.extents, t.elementType) &&
    |t.bytes| == ElementTypeByteSize(t.elementType) * Product(t.extents)
  }

  method CreateRaw(extents: Shape, elementType: ElementType, data: array<int>) returns (t: RuntimeTensor)
    requires FitsInt32(extents, elementType)
    requires ElementTypeByteSize(elementType) * Product(extents) <= data.Length
    ensures WellFormed(t) && t.extents == extents && t.elementType == elementType
    ensures t.bytes == data[..|t.bytes|] && |t.bytes| == if elementType.F32? then 4 * Product(extents) else 0
  {
    var total := TotalElements(extents);
    var byteSize := ElementTypeByteSize(elementType) * total;
    t := RuntimeTensor(elementType, extents, data[..byteSize]);
  }

  method ConvertTensorToUnrankedMemref(t: RuntimeTensor) returns (rank: nat, descriptor: MemrefDescriptor)
    requires WellFormed(t)
    ensures fresh(descriptor) && fresh(descriptor.data) && descriptor.data[..] == t.bytes
    ensures rank == |t.extents| && descriptor.Valid(t.extents)
  {
    var total := TotalElements(t.extents);
    var byteSize := ElementTypeByteSize(t.elementType) * total;
    var data := new int[byteSize](i requires 0 <= i < byteSize => t.bytes[i]);
    descriptor := new MemrefDescriptor(t.extents, data);
    rank := |t.extents|;
  }

  method ConvertUnrankedMemrefToTensor(rank: nat, descriptor: MemrefDescriptor, elementType: ElementType)
    returns (t: RuntimeTensor)
    requires rank == descriptor.sizes.Length <= MAX_CONVERTED_RANK
    requires forall i | 0 <= i < rank :: 0 <= descriptor.sizes[i]
    requires FitsInt32(descriptor.sizes[..], elementType)
    requires ElementTypeByteSize(elementType) * Product(descriptor.sizes[..]) <= descriptor.data.Length
    ensures WellFormed(t) && t.elementType == elementType && t.extents == descriptor.sizes[..]
    ensures t.bytes == descriptor.data[..|t.bytes|]
  {
    var extents32Buf: array<nat> := new nat[MAX_CONVERTED_RANK];
    for i := 0 to rank
      invariant forall k | 0 <= k < i :: extents32Buf[k] == descriptor.sizes[k]
    {
      extents32Buf[i] := descriptor.sizes[i];
    }
    assert extents32Buf[..rank] == descriptor.sizes[..];
    t := CreateRaw(extents32Buf[..rank], elementType, descriptor.data);
  }

  /** Passing a tensor through its memref descriptor gives the tensor back. */
  method TensorRoundTrip(t: RuntimeTensor) returns (t': RuntimeTensor)
    requires WellFormed(t) && |t.extents| <= MAX_CONVERTED_RANK
    ensures t' == t
  {
    var rank, descriptor := ConvertTensorToUnrankedMemref(t);
    assert forall i | 0 <= i < rank :: descriptor.sizes[i] == descriptor.sizes[..][i];
    t' := ConvertUnrankedMemrefToTensor(rank, descriptor, t.elementType);
  }
}
