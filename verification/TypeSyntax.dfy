/**
 Printing and parsing of types, token by token. Models lib/Dialect/Torch/IR/TorchTypes.cpp,
 lib/Dialect/Numpy/IR/NumpyDialect.cpp and lib/Dialect/Basicpy/IR/BasicpyDialect.cpp.
 */
module TypeSyntax {
  import opened Option

  datatype Ty =
    | Builtin(name: string)
    // Torch
    | TorchKeyword(name: string)
    | TorchContained(kind: string, elem: Ty)
    | NnModule(className: string)
    | TorchTuple(elems: seq<Ty>)
    | TorchTensor(valueSemantics: bool, sizes: Option<seq<int>>, dtype: Option<Ty>)
    // Numpy
    | AnyDtype
    | NdArray(shape: Option<seq<int>>, elem: Ty)
    // Basicpy
    | BasicpyKeyword(name: string)
    | SlotObject(className: string, slots: seq<Ty>)

  datatype Token =
    // The mark and name of a dialect, as in `!torch.`
    | Bang(dialect: string)
    | Keyword(text: string)
    | Str(text: string)
    | Integer(n: nat)
    | Less | Greater | LSquare | RSquare | Comma | Colon | Star | Question | Minus

  // ---- Well-formed types ----

  predicate IsTorchIntOrFloat(name: string) {
    name in {"f16", "bf16", "f32", "f64", "i1", "si8", "si16", "si32", "si64", "ui8"}
  }

  predicate IsBuiltin(name: string) {
    IsTorchIntOrFloat(name) || name in {"i8", "i16", "i32", "i64", "index"}
  }

  predicate IsTorchKeyword(name: string) {
    name in {"Device", "bool", "int", "float", "none", "str", "qint8", "LinearParams"}
  }

  predicate IsContainedKind(name: string) {
    name in {"optional", "list"}
  }

  predicate IsBasicpyKeyword(name: string) {
    name in {"BoolType", "BytesType", "DictType", "EllipsisType", "ListType", "NoneType", "StrType", "TupleType",
             "UnknownType"}
  }

  const UNKNOWN: Ty := BasicpyKeyword("UnknownType")

  /** What a torch tensor may hold. */
  predicate IsValidTorchDtype(t: Ty) {
    t == TorchKeyword("qint8") || (t.Builtin? && IsTorchIntOrFloat(t.name))
  }

  const TWO_TO_THE_63: int := 0x8000_0000_0000_0000

  predicate FitsInt64(dims: Option<seq<int>>) {
    dims.Some? ==> forall d <- dims.value :: d < TWO_TO_THE_63
  }

  /** The types that can be built at all. */
  predicate WellFormed(t: Ty) {
    match t
    case Builtin(name) => IsBuiltin(name)
    case TorchKeyword(name) => IsTorchKeyword(name)
    case TorchContained(kind, elem) => IsContainedKind(kind) && WellFormed(elem)
    case NnModule(_) => true
    case TorchTuple(elems) => forall e <- elems :: WellFormed(e)
    case TorchTensor(_, sizes, dtype) => FitsInt64(sizes) && (dtype.Some? ==> IsValidTorchDtype(dtype.value))
    case AnyDtype => true
    case NdArray(shape, elem) => FitsInt64(shape) && WellFormed(elem)
    case BasicpyKeyword(name) => IsBasicpyKeyword(name)
    case SlotObject(_, slots) => forall e <- slots :: WellFormed(e)
  }

  // ---- Printing ----

  function PrintDims(dims: seq<int>, first: bool): seq<Token> {
    if dims == [] then []
    else (if first then [] else [Comma]) + ([DimToken(dims[0])] + PrintDims(dims[1..], false))
  }

  function DimToken(d: int): Token {
    if d < 0 then Question else Integer(d)
  }

  function PrintShape(shape: Option<seq<int>>): seq<Token> {
    match shape
    case Some(dims) => [LSquare] + PrintDims(dims, true) + [RSquare]
    case None => [Star]
  }

  function PrintDtype(dtype: Option<Ty>): seq<Token>
    decreases dtype, 1
  {
    match dtype
    case Some(t) => Print(t)
    case None => [Keyword("unk")]
  }

  function PrintElement(elem: Ty): seq<Token>
    decreases elem, 1
  {
    if elem != UNKNOWN then Print(elem) else [Question]
  }

  /** Types separated by commas. */
  function PrintList(ts: seq<Ty>): seq<Token>
    decreases ts, 1
  {
    if ts == [] then []
    else if |ts| == 1 then Print(ts[0])
    else Print(ts[0]) + [Comma] + PrintList(ts[1..])
  }

  function Print(t: Ty): seq<Token>
    decreases t, 0
  {
    match t
    case Builtin(name) => [Keyword(name)]
    case TorchKeyword(name) => [Bang("torch"), Keyword(name)]
    case TorchContained(kind, elem) => [Bang("torch"), Keyword(kind), Less] + Print(elem) + [Greater]
    case NnModule(className) => [Bang("torch"), Keyword("nn.Module"), Less, Str(className), Greater]
    case TorchTuple(elems) => [Bang("torch"), Keyword("tuple"), Less] + PrintList(elems) + [Greater]
    case TorchTensor(v, sizes, dtype) =>
      [Bang("torch"), Keyword(if v then "vtensor" else "tensor")] +
      (if sizes.None? && dtype.None? then []
       else [Less] + PrintShape(sizes) + [Comma] + PrintDtype(dtype) + [Greater])
    case AnyDtype => [Bang("numpy"), Keyword("any_dtype")]
    case NdArray(shape, elem) =>
      [Bang("numpy"), Keyword("ndarray"), Less] + PrintShape(shape) + [Colon] + PrintElement(elem) + [Greater]
    case BasicpyKeyword(name) => [Bang("basicpy"), Keyword(name)]
    case SlotObject(className, slots) =>
      [Bang("basicpy"), Keyword("SlotObject"), Less, Keyword(className)] +
      (if slots != [] then [Comma] + PrintList(slots) else []) + [Greater]
  }

  // ---- Parsing ----

  datatype Parsed<T> = Parsed(value: T, rest: seq<Token>)

  function Next(tok: Token, ts: seq<Token>): (r: Option<seq<Token>>)
    ensures r.Some? ==> |r.value| < |ts|
  {
    if ts != [] && ts[0] == tok then Some(ts[1..]) else None
  }

  function Negate(n: int): int {
    -n
  }

  /** Dimensions separated by commas; a comma may end the list. */
  function ParseDims(ts: seq<Token>, acc: seq<int>, first: bool): (r: Option<Parsed<seq<int>>>)
    ensures r.Some? ==> |r.value.rest| <= |ts|
    decreases |ts|
  {
    if !first && Next(Comma, ts).None? then Some(Parsed(acc, ts))
    else
      var ts' := if first then ts else ts[1..];
      if ts' == [] then Some(Parsed(acc, ts'))
      else if ts'[0].Question? then ParseDims(ts'[1..], acc + [-1], false)
      else if ts'[0].Integer? then
        if ts'[0].n < TWO_TO_THE_63 then ParseDims(ts'[1..], acc + [ts'[0].n], false) else None
      else if ts'[0].Minus? then
        if |ts'| >= 2 && ts'[1].Integer? && ts'[1].n <= TWO_TO_THE_63 then
          ParseDims(ts'[2..], acc + [Negate(ts'[1].n)], false)
        else None
      else Some(Parsed(acc, ts'))
  }

  /** A star, or dimensions in brackets. */
  function ParseShape(ts: seq<Token>): (r: Option<Parsed<Option<seq<int>>>>)
    ensures r.Some? ==> |r.value.rest| < |ts|
  {
    match Next(Star, ts)
    case Some(rest) => Some(Parsed(None, rest))
    case None =>
      match Next(LSquare, ts)
      case None => None
      case Some(ts1) =>
        match ParseDims(ts1, [], true)
        case None => None
        case Some(dims) =>
          match Next(RSquare, dims.rest)
          case None => None
          case Some(rest) => Some(Parsed(Some(dims.value), rest))
  }

  function ParseType(ts: seq<Token>): (r: Option<Parsed<Ty>>)
    ensures r.Some? ==> |r.value.rest| < |ts|
    decreases |ts|, 1
  {
    if ts == [] then None
    else
      match ts[0]
      case Keyword(name) => if IsBuiltin(name) then Some(Parsed(Builtin(name), ts[1..])) else None
      case Bang(dialect) =>
        if |ts| < 2 || !ts[1].Keyword? then None
        else if dialect == "torch" then ParseTorch(ts[1].text, ts[2..])
        else if dialect == "numpy" then ParseNumpy(ts[1].text, ts[2..])
        else if dialect == "basicpy" then ParseBasicpy(ts[1].text, ts[2..])
        else None
      case _ => None
  }

  function ParseTorch(keyword: string, ts: seq<Token>): (r: Option<Parsed<Ty>>)
    ensures r.Some? ==> |r.value.rest| <= |ts|
    decreases |ts|, 2
  {
    if keyword == "tuple" then ParseTuple(ts)
    else if keyword == "tensor" || keyword == "vtensor" then ParseTensor(keyword == "vtensor", ts)
    else if keyword == "nn.Module" then
      if |ts| >= 3 && ts[0].Less? && ts[1].Str? && ts[2].Greater? then Some(Parsed(NnModule(ts[1].text), ts[3..]))
      else None
    else if IsContainedKind(keyword) then
      match Next(Less, ts)
      case None => None
      case Some(ts1) =>
        match ParseType(ts1)
        case None => None
        case Some(elem) =>
          match Next(Greater, elem.rest)
          case None => None
          case Some(rest) => Some(Parsed(TorchContained(keyword, elem.value), rest))
    else if IsTorchKeyword(keyword) then Some(Parsed(TorchKeyword(keyword), ts))
    else None
  }

  function ParseTuple(ts: seq<Token>): (r: Option<Parsed<Ty>>)
    ensures r.Some? ==> |r.value.rest| <= |ts|
    decreases |ts|, 1
  {
    match Next(Less, ts)
    case None => None
    case Some(ts1) =>
      if Next(Greater, ts1).Some? then Some(Parsed(TorchTuple([]), ts1[1..]))
      else
        match ParseElems(ts1, [])
        case None => None
        case Some(elems) =>
          match Next(Greater, elems.rest)
          case None => None
          case Some(rest) => Some(Parsed(TorchTuple(elems.value), rest))
  }

  /** One or more types separated by commas. */
  function ParseElems(ts: seq<Token>, acc: seq<Ty>): (r: Option<Parsed<seq<Ty>>>)
    ensures r.Some? ==> |r.value.rest| < |ts|
    decreases |ts|, 2
  {
    match ParseType(ts)
    case None => None
    case Some(elem) =>
      match Next(Comma, elem.rest)
      case Some(rest) => ParseElems(rest, acc + [elem.value])
      case None => Some(Parsed(acc + [elem.value], elem.rest))
  }

  /** Arguments are optional: without `<` nothing is known about the tensor. */
  function ParseTensor(v: bool, ts: seq<Token>): (r: Option<Parsed<Ty>>)
    ensures r.Some? ==> |r.value.rest| <= |ts|
    ensures r.Some? && Next(Less, ts).Some? ==> |r.value.rest| < |ts|
    decreases |ts|, 1
  {
    match Next(Less, ts)
    case None => Some(Parsed(TorchTensor(v, None, None), ts))
    case Some(ts1) =>
      match ParseShape(ts1)
      case None => None
      case Some(sizes) =>
        match Next(Comma, sizes.rest)
        case None => None
        case Some(ts2) =>
          match ParseDtype(ts2)
          case None => None
          case Some(dtype) =>
            match Next(Greater, dtype.rest)
            case None => None
            case Some(rest) =>
              if dtype.value.Some? && !IsValidTorchDtype(dtype.value.value) then None
              else Some(Parsed(TorchTensor(v, sizes.value, dtype.value), rest))
  }

  function ParseDtype(ts: seq<Token>): (r: Option<Parsed<Option<Ty>>>)
    ensures r.Some? ==> |r.value.rest| < |ts|
    decreases |ts|, 2
  {
    if Next(Keyword("unk"), ts).Some? then Some(Parsed(None, ts[1..]))
    else
      match ParseType(ts)
      case None => None
      case Some(t) => Some(Parsed(Some(t.value), t.rest))
  }

  function ParseNumpy(keyword: string, ts: seq<Token>): (r: Option<Parsed<Ty>>)
    ensures r.Some? ==> |r.value.rest| <= |ts|
    decreases |ts|, 2
  {
    if keyword == "any_dtype" then Some(Parsed(AnyDtype, ts))
    else if keyword != "ndarray" then None
    else
      match Next(Less, ts)
      case None => None
      case Some(ts1) =>
        match ParseShape(ts1)
        case None => None
        case Some(shape) =>
          match Next(Colon, shape.rest)
          case None => None
          case Some(ts2) =>
            match ParseElement(ts2)
            case None => None
            case Some(elem) =>
              match Next(Greater, elem.rest)
              case None => None
              case Some(rest) => Some(Parsed(NdArray(shape.value, elem.value), rest))
  }

  /** A question mark stands for the unknown type. */
  function ParseElement(ts: seq<Token>): (r: Option<Parsed<Ty>>)
    ensures r.Some? ==> |r.value.rest| < |ts|
    decreases |ts|, 2
  {
    if Next(Question, ts).Some? then Some(Parsed(UNKNOWN, ts[1..])) else ParseType(ts)
  }

  function ParseBasicpy(keyword: string, ts: seq<Token>): (r: Option<Parsed<Ty>>)
    ensures r.Some? ==> |r.value.rest| <= |ts|
    decreases |ts|, 2
  {
    if IsBasicpyKeyword(keyword) then Some(Parsed(BasicpyKeyword(keyword), ts))
    else if keyword != "SlotObject" || |ts| < 2 || !ts[0].Less? || !ts[1].Keyword? then None
    else
      match ParseSlots(ts[2..], [])
      case None => None
      case Some(slots) =>
        match Next(Greater, slots.rest)
        case None => None
        case Some(rest) => Some(Parsed(SlotObject(ts[1].text, slots.value), rest))
  }

  /** Types, each after a comma. */
  function ParseSlots(ts: seq<Token>, acc: seq<Ty>): (r: Option<Parsed<seq<Ty>>>)
    ensures r.Some? ==> |r.value.rest| <= |ts|
    decreases |ts|, 1
  {
    match Next(Comma, ts)
    case None => Some(Parsed(acc, ts))
    case Some(ts1) =>
      match ParseType(ts1)
      case None => None
      case Some(slot) => ParseSlots(slot.rest, acc + [slot.value])
  }

  // ---- Parsing undoes printing ----

  function NormalizeDims(dims: seq<int>): seq<int> {
    if dims == [] then [] else [if dims[0] < 0 then -1 else dims[0]] + NormalizeDims(dims[1..])
  }

  function NormalizeShape(shape: Option<seq<int>>): Option<seq<int>> {
    match shape
    case Some(dims) => Some(NormalizeDims(dims))
    case None => None
  }

  function NormalizeAll(ts: seq<Ty>): seq<Ty> {
    if ts == [] then [] else [Normalize(ts[0])] + NormalizeAll(ts[1..])
  }

  /** The type with every negative dimension made -1. */
  function Normalize(t: Ty): Ty {
    match t
    case TorchContained(kind, elem) => TorchContained(kind, Normalize(elem))
    case TorchTuple(elems) => TorchTuple(NormalizeAll(elems))
    case TorchTensor(v, sizes, dtype) => TorchTensor(v, NormalizeShape(sizes), dtype)
    case NdArray(shape, elem) => NdArray(NormalizeShape(shape), Normalize(elem))
    case SlotObject(className, slots) => SlotObject(className, NormalizeAll(slots))
    case _ => t
  }

  predicate IsBareTensor(t: Ty) {
    t.TorchTensor? && t.sizes.None? && t.dtype.None?
  }

  predicate StartsWith(tok: Token, ts: seq<Token>) {
    ts != [] && ts[0] == tok
  }

  lemma ParseDimsStep(d: int, after: seq<Token>, acc: seq<int>, first: bool)
    requires d < TWO_TO_THE_63
    ensures ParseDims((if first then [] else [Comma]) + ([DimToken(d)] + after), acc, first) ==
            ParseDims(after, acc + [if d < 0 then -1 else d], false)
  {
    var ts := (if first then [] else [Comma]) + ([DimToken(d)] + after);
    var ts' := if first then ts else ts[1..];
    assert ts' == [DimToken(d)] + after;
    assert ts'[1..] == after;
  }

  lemma Associate(a: seq<Token>, b: seq<Token>, c: seq<Token>)
    ensures (a + b) + c == a + (b + c)
  {
  }

  lemma {:induction false} DimsRoundTrip(dims: seq<int>, acc: seq<int>, first: bool, rest: seq<Token>)
    requires FitsInt64(Some(dims)) && StartsWith(RSquare, rest)
    ensures ParseDims(PrintDims(dims, first) + rest, acc, first) == Some(Parsed(acc + NormalizeDims(dims), rest))
    decreases |dims|
  {
    if dims == [] {
      assert PrintDims(dims, first) + rest == rest && acc + NormalizeDims(dims) == acc;
    } else {
      assert dims[0] in dims && forall d <- dims[1..] :: d in dims;
      var dim, more := if dims[0] < 0 then -1 else dims[0], PrintDims(dims[1..], false);
      DimsRoundTrip(dims[1..], acc + [dim], false, rest);
      ParseDimsStep(dims[0], more + rest, acc, first);
      PrintDimsCons(dims, first, rest);
      Accumulate(acc, dim, NormalizeDims(dims[1..]));
    }
  }

  lemma PrintDimsCons(dims: seq<int>, first: bool, rest: seq<Token>)
    requires dims != []
    ensures PrintDims(dims, first) + rest ==
            (if first then [] else [Comma]) + ([DimToken(dims[0])] + (PrintDims(dims[1..], false) + rest))
  {
    var comma, more := if first then [] else [Comma], PrintDims(dims[1..], false);
    Associate(comma, [DimToken(dims[0])] + more, rest);
    Associate([DimToken(dims[0])], more, rest);
  }

  lemma Accumulate<T>(acc: seq<T>, x: T, more: seq<T>)
    ensures (acc + [x]) + more == acc + ([x] + more)
  {
  }

  lemma ShapeRoundTrip(shape: Option<seq<int>>, rest: seq<Token>)
    requires FitsInt64(shape)
    ensures ParseShape(PrintShape(shape) + rest) == Some(Parsed(NormalizeShape(shape), rest))
  {
    match shape
    case None => assert (PrintShape(shape) + rest)[1..] == rest;
    case Some(dims) => SizesRoundTrip(dims, rest);
  }

  lemma SizesRoundTrip(dims: seq<int>, rest: seq<Token>)
    requires FitsInt64(Some(dims))
    ensures ParseShape(PrintShape(Some(dims)) + rest) == Some(Parsed(Some(NormalizeDims(dims)), rest))
  {
    var printed, after := PrintDims(dims, true), [RSquare] + rest;
    DimsRoundTrip(dims, [], true, after);
    assert [] + NormalizeDims(dims) == NormalizeDims(dims);
    Associate([LSquare] + printed, [RSquare], rest);
    Associate([LSquare], printed, after);
    ParseBrackets(printed + after, NormalizeDims(dims), rest);
  }

  lemma ParseBrackets(ts: seq<Token>, dims: seq<int>, rest: seq<Token>)
    requires ParseDims(ts, [], true) == Some(Parsed(dims, [RSquare] + rest))
    ensures ParseShape([LSquare] + ts) == Some(Parsed(Some(dims), rest))
  {
    assert ([LSquare] + ts)[1..] == ts && ([RSquare] + rest)[1..] == rest;
  }

  /** A printed type starts with a dialect or the name of a builtin. */
  lemma PrintHead(t: Ty)
    requires WellFormed(t)
    ensures Print(t) != [] && (Print(t)[0].Bang? || (Print(t)[0].Keyword? && IsBuiltin(Print(t)[0].text)))
  {
  }

  lemma ParseDialectType(dialect: string, keyword: string, ts: seq<Token>)
    ensures dialect == "torch" ==> ParseType([Bang(dialect), Keyword(keyword)] + ts) == ParseTorch(keyword, ts)
    ensures dialect == "numpy" ==> ParseType([Bang(dialect), Keyword(keyword)] + ts) == ParseNumpy(keyword, ts)
    ensures dialect == "basicpy" ==> ParseType([Bang(dialect), Keyword(keyword)] + ts) == ParseBasicpy(keyword, ts)
  {
    assert ([Bang(dialect), Keyword(keyword)] + ts)[2..] == ts;
  }

  /** Parsing a printed type yields it, negative dimensions aside; only a bare tensor is sensitive to what follows. */
  lemma {:induction false} ParsePrinted(t: Ty, rest: seq<Token>)
    requires WellFormed(t) && (IsBareTensor(t) ==> !StartsWith(Less, rest))
    ensures ParseType(Print(t) + rest) == Some(Parsed(Normalize(t), rest))
    decreases t, 1
  {
    match t
    case Builtin(_) => assert (Print(t) + rest)[1..] == rest;
    case TorchKeyword(name) => ParseDialectType("torch", name, rest);
    case TorchContained(kind, elem) => ParsePrintedContained(t, rest);
    case NnModule(className) => ParsePrintedNnModule(className, rest);
    case TorchTuple(elems) => ParsePrintedTuple(t, rest);
    case TorchTensor(_, _, _) => ParsePrintedTensor(t, rest);
    case AnyDtype => ParseDialectType("numpy", "any_dtype", rest);
    case NdArray(_, _) => ParsePrintedNdArray(t, rest);
    case BasicpyKeyword(name) => ParseDialectType("basicpy", name, rest);
    case SlotObject(_, _) => ParsePrintedSlotObject(t, rest);
  }

  lemma ParsePrintedNnModule(className: string, rest: seq<Token>)
    ensures ParseType(Print(NnModule(className)) + rest) == Some(Parsed(NnModule(className), rest))
  {
    var ts := [Less, Str(className), Greater] + rest;
    ParseDialectType("torch", "nn.Module", ts);
    assert Print(NnModule(className)) + rest == [Bang("torch"), Keyword("nn.Module")] + ts && ts[3..] == rest;
  }

  lemma {:induction false} ParsePrintedContained(t: Ty, rest: seq<Token>)
    requires t.TorchContained? && WellFormed(t)
    ensures ParseType(Print(t) + rest) == Some(Parsed(Normalize(t), rest))
    decreases t, 0
  {
    var after := [Greater] + rest;
    ParsePrinted(t.elem, after);
    PrintContained(t, rest);
    ParseContained(t.kind, Print(t.elem) + after, Normalize(t.elem), rest);
  }

  lemma PrintContained(t: Ty, rest: seq<Token>)
    requires t.TorchContained?
    ensures Print(t) + rest ==
            [Bang("torch"), Keyword(t.kind)] + ([Less] + (Print(t.elem) + ([Greater] + rest)))
  {
    var elem := Print(t.elem);
    assert Print(t) == [Bang("torch"), Keyword(t.kind)] + ([Less] + (elem + [Greater]));
  }

  lemma ParseContained(kind: string, ts: seq<Token>, elem: Ty, rest: seq<Token>)
    requires IsContainedKind(kind) && ParseType(ts) == Some(Parsed(elem, [Greater] + rest))
    ensures ParseType([Bang("torch"), Keyword(kind)] + ([Less] + ts)) == Some(Parsed(TorchContained(kind, elem), rest))
  {
    ParseDialectType("torch", kind, [Less] + ts);
    NextHead(Less, ts);
    NextHead(Greater, rest);
  }

  lemma {:induction false} ParsePrintedTuple(t: Ty, rest: seq<Token>)
    requires t.TorchTuple? && WellFormed(t)
    ensures ParseType(Print(t) + rest) == Some(Parsed(Normalize(t), rest))
    decreases t, 0
  {
    var after := [Greater] + rest;
    var ts := [Less] + (PrintList(t.elems) + after);
    ParseDialectType("torch", "tuple", ts);
    assert Print(t) + rest == [Bang("torch"), Keyword("tuple")] + ts;
    assert ts[1..] == PrintList(t.elems) + after && after[1..] == rest;
    if t.elems == [] {
      assert ts[1..] == after;
    } else {
      PrintListHead(t.elems);
      ParsePrintedElems(t.elems, [], after);
      assert [] + NormalizeAll(t.elems) == NormalizeAll(t.elems);
    }
  }

  lemma PrintListHead(elems: seq<Ty>)
    requires elems != [] && forall e <- elems :: WellFormed(e)
    ensures PrintList(elems) != [] && PrintList(elems)[0] != Greater
  {
    PrintHead(elems[0]);
  }

  lemma {:induction false} ParsePrintedElems(elems: seq<Ty>, acc: seq<Ty>, rest: seq<Token>)
    requires elems != [] && (forall e <- elems :: WellFormed(e)) && StartsWith(Greater, rest)
    ensures ParseElems(PrintList(elems) + rest, acc) == Some(Parsed(acc + NormalizeAll(elems), rest))
    decreases elems, 0
  {
    var first := Normalize(elems[0]);
    if |elems| == 1 {
      ParsePrinted(elems[0], rest);
      assert acc + NormalizeAll(elems) == acc + [first];
    } else {
      var more := PrintList(elems[1..]) + rest;
      ParsePrinted(elems[0], [Comma] + more);
      ParsePrintedElems(elems[1..], acc + [first], rest);
      PrintListCons(elems, rest);
      ParseElemsStep(PrintList(elems) + rest, first, more, acc);
      Accumulate(acc, first, NormalizeAll(elems[1..]));
    }
  }

  lemma PrintListCons(elems: seq<Ty>, rest: seq<Token>)
    requires |elems| > 1
    ensures PrintList(elems) + rest == Print(elems[0]) + ([Comma] + (PrintList(elems[1..]) + rest))
  {
    var first, more := Print(elems[0]), PrintList(elems[1..]);
    assert PrintList(elems) == first + [Comma] + more;
    Associate(first + [Comma], more, rest);
    Associate(first, [Comma], more + rest);
  }

  lemma ParseElemsStep(ts: seq<Token>, first: Ty, more: seq<Token>, acc: seq<Ty>)
    requires ParseType(ts) == Some(Parsed(first, [Comma] + more))
    ensures ParseElems(ts, acc) == ParseElems(more, acc + [first])
  {
    assert ([Comma] + more)[1..] == more;
  }

  lemma {:induction false} ParsePrintedTensor(t: Ty, rest: seq<Token>)
    requires t.TorchTensor? && WellFormed(t) && (IsBareTensor(t) ==> !StartsWith(Less, rest))
    ensures ParseType(Print(t) + rest) == Some(Parsed(Normalize(t), rest))
    decreases t, 0
  {
    var keyword := if t.valueSemantics then "vtensor" else "tensor";
    if IsBareTensor(t) {
      ParseDialectType("torch", keyword, rest);
    } else {
      var after := [Greater] + rest;
      var tail := [Comma] + (PrintDtype(t.dtype) + after);
      var ts := [Less] + (PrintShape(t.sizes) + tail);
      ParseDialectType("torch", keyword, ts);
      PrintTensor(t, rest);
      ParseTensorArgs(t, ts, tail, after, rest);
    }
  }

  lemma PrintTensor(t: Ty, rest: seq<Token>)
    requires t.TorchTensor? && !IsBareTensor(t)
    ensures Print(t) + rest == [Bang("torch"), Keyword(if t.valueSemantics then "vtensor" else "tensor")] +
                               ([Less] + (PrintShape(t.sizes) + ([Comma] + (PrintDtype(t.dtype) + ([Greater] + rest)))))
  {
    var head := [Bang("torch"), Keyword(if t.valueSemantics then "vtensor" else "tensor")];
    var shape, dtype := PrintShape(t.sizes), PrintDtype(t.dtype);
    assert Print(t) == head + ([Less] + (shape + ([Comma] + (dtype + [Greater]))));
  }

  lemma ParseTensorArgs(t: Ty, ts: seq<Token>, tail: seq<Token>, after: seq<Token>, rest: seq<Token>)
    requires t.TorchTensor? && WellFormed(t) && after == [Greater] + rest
    requires tail == [Comma] + (PrintDtype(t.dtype) + after) && ts == [Less] + (PrintShape(t.sizes) + tail)
    ensures ParseTensor(t.valueSemantics, ts) == Some(Parsed(Normalize(t), rest))
  {
    NextHead(Less, PrintShape(t.sizes) + tail);
    ShapeRoundTrip(t.sizes, tail);
    NextHead(Comma, PrintDtype(t.dtype) + after);
    ParsePrintedDtype(t.dtype, after);
    NextHead(Greater, rest);
  }

  lemma ParsePrintedDtype(dtype: Option<Ty>, rest: seq<Token>)
    requires dtype.Some? ==> IsValidTorchDtype(dtype.value)
    ensures ParseDtype(PrintDtype(dtype) + rest) == Some(Parsed(dtype, rest))
  {
    var ts := PrintDtype(dtype) + rest;
    match dtype
    case None => assert ts[1..] == rest;
    case Some(t) =>
      if t.Builtin? {
        assert ts[1..] == rest && t.name != "unk";
      } else {
        ParseDialectType("torch", "qint8", rest);
      }
  }

  lemma {:induction false} ParsePrintedNdArray(t: Ty, rest: seq<Token>)
    requires t.NdArray? && WellFormed(t)
    ensures ParseType(Print(t) + rest) == Some(Parsed(Normalize(t), rest))
    decreases t, 0
  {
    var after := [Greater] + rest;
    var tail := [Colon] + (PrintElement(t.elem) + after);
    var ts := [Less] + (PrintShape(t.shape) + tail);
    ParseDialectType("numpy", "ndarray", ts);
    PrintNdArray(t, rest);
    if t.elem != UNKNOWN { ParsePrinted(t.elem, after); }
    ParsePrintedElement(t.elem, after);
    ParseNdArrayArgs(t, ts, tail, after, rest);
  }

  lemma PrintNdArray(t: Ty, rest: seq<Token>)
    requires t.NdArray?
    ensures Print(t) + rest ==
            [Bang("numpy"), Keyword("ndarray")] +
            ([Less] + (PrintShape(t.shape) + ([Colon] + (PrintElement(t.elem) + ([Greater] + rest)))))
  {
    var shape, elem := PrintShape(t.shape), PrintElement(t.elem);
    assert Print(t) == [Bang("numpy"), Keyword("ndarray")] + ([Less] + (shape + ([Colon] + (elem + [Greater]))));
  }

  lemma ParsePrintedElement(elem: Ty, rest: seq<Token>)
    requires WellFormed(elem) &&
             (elem != UNKNOWN ==> ParseType(Print(elem) + rest) == Some(Parsed(Normalize(elem), rest)))
    ensures ParseElement(PrintElement(elem) + rest) == Some(Parsed(Normalize(elem), rest))
  {
    if elem == UNKNOWN {
      assert (PrintElement(elem) + rest)[1..] == rest;
    } else {
      PrintHead(elem);
    }
  }

  lemma ParseNdArrayArgs(t: Ty, ts: seq<Token>, tail: seq<Token>, after: seq<Token>, rest: seq<Token>)
    requires t.NdArray? && WellFormed(t) && after == [Greater] + rest
    requires tail == [Colon] + (PrintElement(t.elem) + after) && ts == [Less] + (PrintShape(t.shape) + tail)
    requires ParseElement(PrintElement(t.elem) + after) == Some(Parsed(Normalize(t.elem), after))
    ensures ParseNumpy("ndarray", ts) == Some(Parsed(Normalize(t), rest))
  {
    NextHead(Less, PrintShape(t.shape) + tail);
    ShapeRoundTrip(t.shape, tail);
    NextHead(Colon, PrintElement(t.elem) + after);
    NextHead(Greater, rest);
  }

  lemma NextHead(tok: Token, rest: seq<Token>)
    ensures Next(tok, [tok] + rest) == Some(rest)
  {
    assert ([tok] + rest)[1..] == rest;
  }

  /** The slots of an object as printed: each after a comma. */
  function PrintSlots(slots: seq<Ty>): seq<Token> {
    if slots != [] then [Comma] + PrintList(slots) else []
  }

  lemma {:induction false} ParsePrintedSlotObject(t: Ty, rest: seq<Token>)
    requires t.SlotObject? && WellFormed(t)
    ensures ParseType(Print(t) + rest) == Some(Parsed(Normalize(t), rest))
    decreases t, 0
  {
    var after := [Greater] + rest;
    var ts := [Less, Keyword(t.className)] + (PrintSlots(t.slots) + after);
    ParseDialectType("basicpy", "SlotObject", ts);
    PrintSlotObject(t, rest);
    ParsePrintedSlots(t.slots, [], after);
    assert [] + NormalizeAll(t.slots) == NormalizeAll(t.slots);
    ParseSlotArgs(t.className, PrintSlots(t.slots) + after, NormalizeAll(t.slots), rest);
  }

  lemma PrintSlotObject(t: Ty, rest: seq<Token>)
    requires t.SlotObject?
    ensures Print(t) + rest == [Bang("basicpy"), Keyword("SlotObject")] +
                               ([Less, Keyword(t.className)] + (PrintSlots(t.slots) + ([Greater] + rest)))
  {
    var slots := PrintSlots(t.slots);
    assert Print(t) == [Bang("basicpy"), Keyword("SlotObject")] + ([Less, Keyword(t.className)] + (slots + [Greater]));
  }

  lemma ParseSlotArgs(className: string, ts: seq<Token>, slots: seq<Ty>, rest: seq<Token>)
    requires ParseSlots(ts, []) == Some(Parsed(slots, [Greater] + rest))
    ensures ParseBasicpy("SlotObject", [Less, Keyword(className)] + ts) ==
            Some(Parsed(SlotObject(className, slots), rest))
  {
    assert ([Less, Keyword(className)] + ts)[2..] == ts;
    NextHead(Greater, rest);
  }

  lemma {:induction false} ParsePrintedSlots(slots: seq<Ty>, acc: seq<Ty>, rest: seq<Token>)
    requires (forall e <- slots :: WellFormed(e)) && StartsWith(Greater, rest)
    ensures ParseSlots(PrintSlots(slots) + rest, acc) == Some(Parsed(acc + NormalizeAll(slots), rest))
    decreases slots, 0
  {
    if slots == [] {
      assert PrintSlots(slots) + rest == rest && acc + NormalizeAll(slots) == acc;
    } else {
      var first := Normalize(slots[0]);
      var after := PrintSlots(slots[1..]) + rest;
      ParsePrinted(slots[0], after);
      ParsePrintedSlots(slots[1..], acc + [first], rest);
      PrintSlotsCons(slots, rest);
      Accumulate(acc, first, NormalizeAll(slots[1..]));
    }
  }

  lemma PrintSlotsCons(slots: seq<Ty>, rest: seq<Token>)
    requires slots != []
    ensures var ts := PrintSlots(slots) + rest;
            ts[0] == Comma && ts[1..] == Print(slots[0]) + (PrintSlots(slots[1..]) + rest)
  {
    Associate([Comma], PrintList(slots), rest);
    assert ([Comma] + (PrintList(slots) + rest))[1..] == PrintList(slots) + rest;
    if |slots| == 1 {
      assert PrintSlots(slots[1..]) + rest == rest;
    } else {
      PrintListCons(slots, rest);
      Associate([Comma], PrintList(slots[1..]), rest);
    }
  }

  // ---- When exactly the type comes back ----

  predicate DimsOk(shape: Option<seq<int>>) {
    shape.Some? ==> forall d <- shape.value :: d >= -1
  }

  /** All dimensions, nested ones included, are at least -1. */
  predicate AllDimsOk(t: Ty) {
    match t
    case TorchContained(_, elem) => AllDimsOk(elem)
    case TorchTuple(elems) => forall e <- elems :: AllDimsOk(e)
    case TorchTensor(_, sizes, _) => DimsOk(sizes)
    case NdArray(shape, elem) => DimsOk(shape) && AllDimsOk(elem)
    case SlotObject(_, slots) => forall e <- slots :: AllDimsOk(e)
    case _ => true
  }

  lemma {:induction false} NormalizeDimsKeeps(dims: seq<int>)
    ensures NormalizeDims(dims) == dims <==> forall d <- dims :: d >= -1
  {
    if dims != [] {
      NormalizeDimsKeeps(dims[1..]);
      assert NormalizeDims(dims)[1..] == NormalizeDims(dims[1..]) &&
             NormalizeDims(dims)[0] == if dims[0] < 0 then -1 else dims[0];
      assert dims == [dims[0]] + dims[1..];
      if NormalizeDims(dims) == dims {
        assert forall d <- dims :: d == dims[0] || d in dims[1..];
      } else {
        assert dims[0] in dims && forall d <- dims[1..] :: d in dims;
      }
    }
  }

  lemma {:induction false} NormalizeKeeps(t: Ty)
    ensures Normalize(t) == t <==> AllDimsOk(t)
    decreases t
  {
    match t
    case TorchContained(_, elem) => NormalizeKeeps(elem);
    case TorchTuple(elems) => NormalizeAllKeeps(elems);
    case TorchTensor(_, sizes, _) => if sizes.Some? { NormalizeDimsKeeps(sizes.value); }
    case NdArray(shape, elem) =>
      NormalizeKeeps(elem);
      if shape.Some? { NormalizeDimsKeeps(shape.value); }
    case SlotObject(_, slots) => NormalizeAllKeeps(slots);
    case _ =>
  }

  lemma {:induction false} NormalizeAllKeeps(ts: seq<Ty>)
    ensures NormalizeAll(ts) == ts <==> forall t <- ts :: AllDimsOk(t)
    decreases ts
  {
    if ts != [] {
      NormalizeKeeps(ts[0]);
      NormalizeAllKeeps(ts[1..]);
      assert ts == [ts[0]] + ts[1..] && NormalizeAll(ts)[1..] == NormalizeAll(ts[1..]);
    }
  }

  // Which texts the lexer keeps whole as a keyword.
  type Lexer = string -> bool

  /** A stream of tokens that the lexer may produce. */
  ghost predicate Lexed(isKeyword: Lexer, ts: seq<Token>) {
    forall tok <- ts :: tok.Keyword? ==> isKeyword(tok.text)
  }

  /** All class names of slot objects, nested ones included, are keywords. */
  predicate NamesOk(isKeyword: Lexer, t: Ty) {
    match t
    case TorchContained(_, elem) => NamesOk(isKeyword, elem)
    case TorchTuple(elems) => forall e <- elems :: NamesOk(isKeyword, e)
    case NdArray(_, elem) => NamesOk(isKeyword, elem)
    case SlotObject(className, slots) => isKeyword(className) && forall e <- slots :: NamesOk(isKeyword, e)
    case _ => true
  }

  ghost predicate NamesParsed(isKeyword: Lexer, r: Option<Parsed<Ty>>) {
    r.Some? ==> NamesOk(isKeyword, r.value.value) && Lexed(isKeyword, r.value.rest)
  }

  ghost predicate ListParsed(isKeyword: Lexer, r: Option<Parsed<seq<Ty>>>) {
    r.Some? ==> (forall t <- r.value.value :: NamesOk(isKeyword, t)) && Lexed(isKeyword, r.value.rest)
  }

  /** Whatever the tokens are, the class names in a parsed type are keywords. */
  lemma {:induction false} ParsedNamesAreKeywords(isKeyword: Lexer, ts: seq<Token>)
    requires Lexed(isKeyword, ts)
    ensures NamesParsed(isKeyword, ParseType(ts))
    decreases |ts|, 1
  {
    if |ts| >= 2 && ts[0].Bang? && ts[1].Keyword? {
      ParseTorchNames(isKeyword, ts[1].text, ts[2..]);
      ParseNumpyNames(isKeyword, ts[1].text, ts[2..]);
      ParseBasicpyNames(isKeyword, ts[1].text, ts[2..]);
    }
  }

  lemma {:induction false} ParseTorchNames(isKeyword: Lexer, keyword: string, ts: seq<Token>)
    requires Lexed(isKeyword, ts)
    ensures NamesParsed(isKeyword, ParseTorch(keyword, ts))
    decreases |ts|, 2
  {
    if keyword == "tuple" {
      ParseTupleNames(isKeyword, ts);
    } else if keyword == "tensor" || keyword == "vtensor" {
      ParseTensorNames(isKeyword, keyword == "vtensor", ts);
    } else if Next(Less, ts).Some? {
      ParsedNamesAreKeywords(isKeyword, ts[1..]);
    }
  }

  lemma {:induction false} ParseTupleNames(isKeyword: Lexer, ts: seq<Token>)
    requires Lexed(isKeyword, ts)
    ensures NamesParsed(isKeyword, ParseTuple(ts))
    decreases |ts|, 1
  {
    if Next(Less, ts).Some? { ParseElemsNames(isKeyword, ts[1..], []); }
  }

  lemma {:induction false} ParseElemsNames(isKeyword: Lexer, ts: seq<Token>, acc: seq<Ty>)
    requires Lexed(isKeyword, ts) && forall t <- acc :: NamesOk(isKeyword, t)
    ensures ListParsed(isKeyword, ParseElems(ts, acc))
    decreases |ts|, 2
  {
    ParsedNamesAreKeywords(isKeyword, ts);
    var elem := ParseType(ts);
    if elem.Some? && Next(Comma, elem.value.rest).Some? {
      ParseElemsNames(isKeyword, elem.value.rest[1..], acc + [elem.value.value]);
    }
  }

  lemma {:induction false} ParseDimsLexed(isKeyword: Lexer, ts: seq<Token>, acc: seq<int>, first: bool)
    requires Lexed(isKeyword, ts)
    ensures var r := ParseDims(ts, acc, first); r.Some? ==> Lexed(isKeyword, r.value.rest)
    decreases |ts|
  {
    if first || Next(Comma, ts).Some? {
      var ts' := if first then ts else ts[1..];
      if ts' != [] {
        if ts'[0].Question? {
          ParseDimsLexed(isKeyword, ts'[1..], acc + [-1], false);
        } else if ts'[0].Integer? {
          ParseDimsLexed(isKeyword, ts'[1..], acc + [ts'[0].n], false);
        } else if ts'[0].Minus? && |ts'| >= 2 && ts'[1].Integer? {
          ParseDimsLexed(isKeyword, ts'[2..], acc + [Negate(ts'[1].n)], false);
        }
      }
    }
  }

  lemma ParseShapeLexed(isKeyword: Lexer, ts: seq<Token>)
    requires Lexed(isKeyword, ts)
    ensures ParseShape(ts).Some? ==> Lexed(isKeyword, ParseShape(ts).value.rest)
  {
    if ts != [] { ParseDimsLexed(isKeyword, ts[1..], [], true); }
  }

  lemma {:induction false} ParseTensorNames(isKeyword: Lexer, v: bool, ts: seq<Token>)
    requires Lexed(isKeyword, ts)
    ensures NamesParsed(isKeyword, ParseTensor(v, ts))
    decreases |ts|, 1
  {
    if Next(Less, ts).Some? {
      var sizes := ParseShape(ts[1..]);
      ParseShapeLexed(isKeyword, ts[1..]);
      if sizes.Some? && Next(Comma, sizes.value.rest).Some? {
        ParsedNamesAreKeywords(isKeyword, sizes.value.rest[1..]);
      }
    }
  }

  lemma {:induction false} ParseNumpyNames(isKeyword: Lexer, keyword: string, ts: seq<Token>)
    requires Lexed(isKeyword, ts)
    ensures NamesParsed(isKeyword, ParseNumpy(keyword, ts))
    decreases |ts|, 2
  {
    if Next(Less, ts).Some? {
      var shape := ParseShape(ts[1..]);
      ParseShapeLexed(isKeyword, ts[1..]);
      if shape.Some? && Next(Colon, shape.value.rest).Some? {
        ParsedNamesAreKeywords(isKeyword, shape.value.rest[1..]);
      }
    }
  }

  lemma {:induction false} ParseBasicpyNames(isKeyword: Lexer, keyword: string, ts: seq<Token>)
    requires Lexed(isKeyword, ts)
    ensures NamesParsed(isKeyword, ParseBasicpy(keyword, ts))
    decreases |ts|, 2
  {
    if |ts| >= 2 { ParseSlotsNames(isKeyword, ts[2..], []); }
  }

  lemma {:induction false} ParseSlotsNames(isKeyword: Lexer, ts: seq<Token>, acc: seq<Ty>)
    requires Lexed(isKeyword, ts) && forall t <- acc :: NamesOk(isKeyword, t)
    ensures ListParsed(isKeyword, ParseSlots(ts, acc))
    decreases |ts|, 1
  {
    if Next(Comma, ts).Some? {
      ParsedNamesAreKeywords(isKeyword, ts[1..]);
      var slot := ParseType(ts[1..]);
      if slot.Some? { ParseSlotsNames(isKeyword, slot.value.rest, acc + [slot.value.value]); }
    }
  }

  /**
   Let a type be printed, followed by anything, and the text be lexed. The tokens are those of the
   printer if all class names are keywords, and may be any otherwise. The type comes back exactly
   when its class names are keywords, its dimensions are at least -1 and no `<` follows a bare tensor.
   */
  lemma RoundTrip(isKeyword: Lexer, t: Ty, rest: seq<Token>, ts: seq<Token>)
    requires WellFormed(t) && Lexed(isKeyword, ts) && (NamesOk(isKeyword, t) ==> ts == Print(t) + rest)
    ensures ParseType(ts) == Some(Parsed(t, rest)) <==>
            NamesOk(isKeyword, t) && AllDimsOk(t) && (IsBareTensor(t) ==> !StartsWith(Less, rest))
  {
    if !NamesOk(isKeyword, t) {
      ParsedNamesAreKeywords(isKeyword, ts);
    } else if IsBareTensor(t) && StartsWith(Less, rest) {
      assert (Print(t) + rest)[2..] == rest;
    } else {
      ParsePrinted(t, rest);
      NormalizeKeeps(t);
    }
  }

  /** The same for a type that is the whole text: nothing follows, so a bare tensor is not misread. */
  lemma WholeTypeRoundTrip(isKeyword: Lexer, t: Ty, ts: seq<Token>)
    requires WellFormed(t) && Lexed(isKeyword, ts) && (NamesOk(isKeyword, t) ==> ts == Print(t))
    ensures ParseType(ts) == Some(Parsed(t, [])) <==> NamesOk(isKeyword, t) && AllDimsOk(t)
  {
    assert Print(t) + [] == Print(t);
    RoundTrip(isKeyword, t, [], ts);
  }

  /** What is accepted between the comma and the end of a torch tensor type. */
  lemma AcceptedDtypes(t: Ty)
    requires WellFormed(t)
    ensures var args := [Less] + ([Star] + ([Comma] + (Print(t) + [Greater])));
            ParseType([Bang("torch"), Keyword("tensor")] + args).Some? <==>
            t == TorchKeyword("qint8") ||
            (t.Builtin? && t.name in {"f16", "bf16", "f32", "f64", "i1", "si8", "si16", "si32", "si64", "ui8"})
  {
    var ts := Print(t) + [Greater];
    ParseDialectType("torch", "tensor", [Less] + ([Star] + ([Comma] + ts)));
    PrintedDtype(t);
    DtypeDecides(ts);
  }

  lemma PrintedDtype(t: Ty)
    requires WellFormed(t)
    ensures ParseDtype(Print(t) + [Greater]) == Some(Parsed(Some(Normalize(t)), [Greater]))
    ensures IsValidTorchDtype(Normalize(t)) <==> IsValidTorchDtype(t)
  {
    PrintHead(t);
    assert (Print(t) + [Greater])[0] == Print(t)[0];
    ParsePrinted(t, [Greater]);
  }

  /** What is accepted there of all keywords. */
  lemma AcceptedKeywords(name: string)
    ensures var args := [Less] + ([Star] + ([Comma] + [Keyword(name), Greater]));
            ParseType([Bang("torch"), Keyword("tensor")] + args).Some? <==>
            name in {"unk", "f16", "bf16", "f32", "f64", "i1", "si8", "si16", "si32", "si64", "ui8"}
  {
    var ts := [Keyword(name), Greater];
    assert ts[1..] == [Greater];
    ParseDialectType("torch", "tensor", [Less] + ([Star] + ([Comma] + ts)));
    DtypeDecides(ts);
    assert ParseDtype(ts).Some? <==> name == "unk" || IsBuiltin(name);
  }

  lemma DtypeDecides(ts: seq<Token>)
    ensures var dtype := ParseDtype(ts);
            ParseTensor(false, [Less] + ([Star] + ([Comma] + ts))).Some? <==>
            dtype.Some? && Next(Greater, dtype.value.rest).Some? &&
            (dtype.value.value.Some? ==> IsValidTorchDtype(dtype.value.value.value))
  {
    NextHead(Less, [Star] + ([Comma] + ts));
    NextHead(Star, [Comma] + ts);
    NextHead(Comma, ts);
  }

  // ---- Types as they are written ----

  /** `[d,?]` */
  lemma WrittenShape(d: int)
    requires d >= 0
    ensures PrintShape(Some([d, -1])) == [LSquare, Integer(d), Comma, Question, RSquare]
  {
    assert [d, -1][1..] == [-1] && PrintDims([-1], false) == [Comma, Question];
    assert PrintDims([d, -1], true) == [Integer(d), Comma, Question];
  }

  /** `!torch.vtensor<[d,?],name>`, and without sizes `!torch.tensor<*,name>` */
  lemma WrittenTensor(d: int, name: string)
    requires d >= 0
    ensures Print(TorchTensor(true, Some([d, -1]), Some(Builtin(name)))) ==
            [Bang("torch"), Keyword("vtensor"), Less, LSquare, Integer(d), Comma, Question, RSquare, Comma,
             Keyword(name), Greater]
    ensures Print(TorchTensor(false, None, Some(Builtin(name)))) ==
            [Bang("torch"), Keyword("tensor"), Less, Star, Comma, Keyword(name), Greater]
    ensures Print(TorchTensor(false, None, None)) == [Bang("torch"), Keyword("tensor")]
  {
    WrittenShape(d);
    assert Print(Builtin(name)) == [Keyword(name)];
  }

  /** `!torch.tensor<[d,?],unk>` */
  lemma WrittenUnknown(d: int)
    requires d >= 0
    ensures Print(TorchTensor(false, Some([d, -1]), None)) ==
            [Bang("torch"), Keyword("tensor"), Less, LSquare, Integer(d), Comma, Question, RSquare, Comma,
             Keyword("unk"), Greater]
  {
    WrittenShape(d);
  }

  /** `!numpy.ndarray<[d,?]:?>` and `!numpy.ndarray<*:name>` */
  lemma WrittenArray(d: int, name: string)
    requires d >= 0
    ensures Print(NdArray(Some([d, -1]), UNKNOWN)) ==
            [Bang("numpy"), Keyword("ndarray"), Less, LSquare, Integer(d), Comma, Question, RSquare, Colon, Question,
             Greater]
    ensures Print(NdArray(None, Builtin(name))) ==
            [Bang("numpy"), Keyword("ndarray"), Less, Star, Colon, Keyword(name), Greater]
  {
    WrittenShape(d);
    assert Print(Builtin(name)) == [Keyword(name)];
  }

  /** `!torch.tuple<a, b>` */
  lemma WrittenTuple(a: Ty, b: Ty)
    ensures Print(TorchTuple([a, b])) ==
            [Bang("torch"), Keyword("tuple"), Less] + (Print(a) + [Comma] + Print(b)) + [Greater]
    ensures Print(TorchTuple([])) == [Bang("torch"), Keyword("tuple"), Less, Greater]
  {
    WrittenList(a, b);
  }

  lemma WrittenList(a: Ty, b: Ty)
    ensures PrintList([a, b]) == Print(a) + [Comma] + Print(b)
  {
    assert [a, b][1..] == [b];
  }

  /** `!basicpy.SlotObject<c, a, b>` */
  lemma WrittenSlotObject(c: string, a: Ty, b: Ty)
    ensures Print(SlotObject(c, [a, b])) ==
            [Bang("basicpy"), Keyword("SlotObject"), Less, Keyword(c)] + ([Comma] + (Print(a) + [Comma] + Print(b))) +
            [Greater]
    ensures Print(SlotObject(c, [])) == [Bang("basicpy"), Keyword("SlotObject"), Less, Keyword(c), Greater]
  {
    WrittenList(a, b);
  }

  // ---- Types that do not come back ----

  /** A negative size other than -1 is printed like -1. */
  lemma NegativeSizesAreLost()
    ensures var t := TorchTensor(true, Some([-2]), None);
            WellFormed(t) && ParseType(Print(t)) == Some(Parsed(TorchTensor(true, Some([-1]), None), []))
  {
    var t := TorchTensor(true, Some([-2]), None);
    assert Print(t) + [] == Print(t);
    ParsePrinted(t, []);
    assert NormalizeDims([-2]) == [-1];
  }

  /** After a bare tensor a `<` is taken for the start of its arguments. */
  lemma BareTensorBeforeLess()
    ensures var t := TorchTensor(true, None, None); WellFormed(t) && ParseType(Print(t) + [Less, Star, Greater]) == None
  {
    var ts := [Less, Star, Greater];
    ParseDialectType("torch", "vtensor", ts);
    assert ts[1..] == [Star, Greater] && [Star, Greater][1..] == [Greater];
  }

  /** A class name of two words does not come back from the tokens of both words. */
  lemma TwoWordClassName()
    ensures var t := SlotObject("a b", []);
            WellFormed(t) && ParseType([Bang("basicpy"), Keyword("SlotObject"), Less, Keyword("a"), Keyword("b"),
                                        Greater]) == None
  {
    var ts := [Less, Keyword("a"), Keyword("b"), Greater];
    ParseDialectType("basicpy", "SlotObject", ts);
    assert ts[2..] == [Keyword("b"), Greater];
  }

  // ---- The parser: a cursor over the tokens ----

  class Parser {
    var rest: seq<Token>

    constructor (tokens: seq<Token>)
      ensures rest == tokens
    {
      rest := tokens;
    }

    /** The outcome and the cursor are those of the specification. */
    ghost predicate Agrees<T>(spec: Option<Parsed<T>>, r: Option<T>)
      reads this
    {
      (r.Some? <==> spec.Some?) && (spec.Some? ==> r.value == spec.value.value && rest == spec.value.rest)
    }

    method Optional(tok: Token) returns (found: bool)
      modifies this
      ensures found <==> Next(tok, old(rest)).Some?
      ensures rest == if found then old(rest)[1..] else old(rest)
    {
      found := rest != [] && rest[0] == tok;
      if found { rest := rest[1..]; }
    }

    /** An integer with an optional sign; `present` says whether there is one at all. */
    method OptionalInteger() returns (present: bool, dim: Option<int>)
      modifies this
      ensures present <==> old(rest) != [] && (old(rest)[0].Integer? || old(rest)[0].Minus?)
      ensures !present ==> rest == old(rest)
      ensures present ==>
                forall acc :: ParseDims(old(rest), acc, true) ==
                              if dim.Some? then ParseDims(rest, acc + [dim.value], false) else None
      ensures dim.Some? ==> |rest| < |old(rest)|
    {
      present, dim := false, None;
      if rest == [] { return; }
      if rest[0].Integer? {
        present := true;
        if rest[0].n < TWO_TO_THE_63 { dim := Some(rest[0].n); }
        rest := rest[1..];
      } else if rest[0].Minus? {
        present := true;
        if |rest| >= 2 && rest[1].Integer? && rest[1].n <= TWO_TO_THE_63 {
          dim := Some(Negate(rest[1].n));
          rest := rest[2..];
        }
      }
    }

    method Dims() returns (r: Option<seq<int>>)
      modifies this
      ensures Agrees(ParseDims(old(rest), [], true), r)
    {
      var sizes: seq<int>, first := [], true;
      ghost var start := rest;
      while true
        invariant ParseDims(rest, sizes, first) == ParseDims(start, [], true)
        decreases |rest|, first
      {
        if !first {
          var comma := Optional(Comma);
          if !comma { return Some(sizes); }
        }
        assert ParseDims(rest, sizes, true) == ParseDims(start, [], true);
        first := false;
        var unknown := Optional(Question);
        if unknown {
          sizes := sizes + [-1];
          continue;
        }
        var present, dim := OptionalInteger();
        if !present { return Some(sizes); }
        if dim.None? { return None; }
        sizes := sizes + [dim.value];
      }
    }

    method Shape() returns (r: Option<Option<seq<int>>>)
      modifies this
      ensures Agrees(ParseShape(old(rest)), r)
    {
      var star := Optional(Star);
      if star { return Some(None); }
      var open := Optional(LSquare);
      if !open { return None; }
      var dims := Dims();
      if dims.None? { return None; }
      var close := Optional(RSquare);
      r := if close then Some(Some(dims.value)) else None;
    }

    method AnyType() returns (r: Option<Ty>)
      modifies this
      ensures Agrees(ParseType(old(rest)), r)
      decreases |rest|, 1
    {
      if rest == [] { return None; }
      match rest[0] {
        case Keyword(name) =>
          if !IsBuiltin(name) { return None; }
          rest := rest[1..];
          r := Some(Builtin(name));
        case Bang(dialect) =>
          if |rest| < 2 || !rest[1].Keyword? { return None; }
          var keyword := rest[1].text;
          rest := rest[2..];
          if dialect == "torch" { r := TorchType(keyword); }
          else if dialect == "numpy" { r := NumpyType(keyword); }
          else if dialect == "basicpy" { r := BasicpyType(keyword); }
          else { r := None; }
        case _ =>
          r := None;
      }
    }

    method TorchType(keyword: string) returns (r: Option<Ty>)
      modifies this
      ensures Agrees(ParseTorch(keyword, old(rest)), r)
      decreases |rest|, 3
    {
      if keyword == "tuple" { r := TupleType(); }
      else if keyword == "tensor" || keyword == "vtensor" { r := TensorType(keyword == "vtensor"); }
      else if keyword == "nn.Module" {
        if |rest| >= 3 && rest[0].Less? && rest[1].Str? && rest[2].Greater? {
          r := Some(NnModule(rest[1].text));
          rest := rest[3..];
        } else {
          r := None;
        }
      }
      else if IsContainedKind(keyword) { r := ContainedType(keyword); }
      else { r := if IsTorchKeyword(keyword) then Some(TorchKeyword(keyword)) else None; }
    }

    method ContainedType(kind: string) returns (r: Option<Ty>)
      requires IsContainedKind(kind)
      modifies this
      ensures Agrees(ParseTorch(kind, old(rest)), r)
      decreases |rest|, 2
    {
      var open := Optional(Less);
      if !open { return None; }
      var elem := AnyType();
      if elem.None? { return None; }
      var close := Optional(Greater);
      r := if close then Some(TorchContained(kind, elem.value)) else None;
    }

    method TupleType() returns (r: Option<Ty>)
      modifies this
      ensures Agrees(ParseTuple(old(rest)), r)
      decreases |rest|, 2
    {
      var open := Optional(Less);
      if !open { return None; }
      var empty := Optional(Greater);
      if empty { return Some(TorchTuple([])); }
      var containedTypes, comma := [], true;
      ghost var start := rest;
      while comma
        invariant |rest| <= |start|
        invariant if comma then ParseElems(rest, containedTypes) == ParseElems(start, [])
                  else ParseElems(start, []) == Some(Parsed(containedTypes, rest))
        decreases comma, |rest|
      {
        var containedType := AnyType();
        if containedType.None? { return None; }
        containedTypes := containedTypes + [containedType.value];
        comma := Optional(Comma);
      }
      var close := Optional(Greater);
      r := if close then Some(TorchTuple(containedTypes)) else None;
    }

    method TensorType(v: bool) returns (r: Option<Ty>)
      modifies this
      ensures Agrees(ParseTensor(v, old(rest)), r)
      decreases |rest|, 2
    {
      var open := Optional(Less);
      if !open { return Some(TorchTensor(v, None, None)); }
      var sizes := Shape();
      if sizes.None? { return None; }
      var comma := Optional(Comma);
      if !comma { return None; }
      var dtype: Option<Ty> := None;
      var unknown := Optional(Keyword("unk"));
      if !unknown {
        dtype := AnyType();
        if dtype.None? { return None; }
      }
      var close := Optional(Greater);
      if !close { return None; }
      r := if dtype.Some? && !IsValidTorchDtype(dtype.value) then None else Some(TorchTensor(v, sizes.value, dtype));
    }

    method NumpyType(keyword: string) returns (r: Option<Ty>)
      modifies this
      ensures Agrees(ParseNumpy(keyword, old(rest)), r)
      decreases |rest|, 3
    {
      if keyword == "any_dtype" { return Some(AnyDtype); }
      if keyword != "ndarray" { return None; }
      var open := Optional(Less);
      if !open { return None; }
      var shape := Shape();
      if shape.None? { return None; }
      var colon := Optional(Colon);
      if !colon { return None; }
      var dtype := Some(UNKNOWN);
      var unknown := Optional(Question);
      if !unknown {
        dtype := AnyType();
        if dtype.None? { return None; }
      }
      var close := Optional(Greater);
      r := if close then Some(NdArray(shape.value, dtype.value)) else None;
    }

    method BasicpyType(keyword: string) returns (r: Option<Ty>)
      modifies this
      ensures Agrees(ParseBasicpy(keyword, old(rest)), r)
      decreases |rest|, 3
    {
      if IsBasicpyKeyword(keyword) { return Some(BasicpyKeyword(keyword)); }
      if keyword != "SlotObject" || |rest| < 2 || !rest[0].Less? || !rest[1].Keyword? { return None; }
      var className := rest[1].text;
      rest := rest[2..];
      var slotTypes := SlotTypes();
      if slotTypes.None? { return None; }
      var close := Optional(Greater);
      r := if close then Some(SlotObject(className, slotTypes.value)) else None;
    }

    method SlotTypes() returns (r: Option<seq<Ty>>)
      modifies this
      ensures Agrees(ParseSlots(old(rest), []), r)
      decreases |rest|, 2
    {
      var slotTypes := [];
      ghost var start := rest;
      while true
        invariant |rest| <= |start| && ParseSlots(rest, slotTypes) == ParseSlots(start, [])
        decreases |rest|
      {
        var comma := Optional(Comma);
        if !comma { return Some(slotTypes); }
        var slotType := AnyType();
        if slotType.None? { return None; }
        slotTypes := slotTypes + [slotType.value];
      }
    }
  }
}
