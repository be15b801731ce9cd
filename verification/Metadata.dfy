/**
 The signature metadata the compiler embeds in a module and the runtime decodes. Models
 lib/RefBackend/LowerToRefbackrtABI.cpp (encoding), lib/RefBackend/LowerToLLVM.cpp (descriptors) and
 lib/RefBackend/Runtime/Runtime.cpp (decoding).
 */
module Metadata {
  import opened Option

  const MAX_RANK: nat := 6
  const MAX_ARITY: nat := 20

  // An extent known at compile time, or not.
  datatype Dim = Static(extent: nat) | Dynamic

  // What a memref holds: floats of some width, or anything else.
  datatype Element = FloatElement(width: nat) | OtherElement

  datatype AbiType =
    | Memref(shape: seq<Dim>, element: Element)
    | UnrankedMemref(element: Element)
    | Float(width: nat)
    // Anything the ABI cannot express.
    | Inexpressible

  // A function: its signature, and the messages of the assertions in its body.
  datatype Func = Func(name: string, isPublic: bool, inputs: seq<AbiType>, outputs: seq<AbiType>, messages: seq<string>)

  // ---- 32-bit integers ----

  const TWO_TO_THE_31: int := 0x8000_0000
  const TWO_TO_THE_32: int := 0x1_0000_0000

  predicate IsI32(n: int) {
    -TWO_TO_THE_31 <= n < TWO_TO_THE_31
  }

  /** The bits of a signed integer, read as unsigned. */
  function ToU32(n: int): (u: int)
    requires IsI32(n)
    ensures 0 <= u < TWO_TO_THE_32 && (u == n || u == n + TWO_TO_THE_32)
  {
    if n < 0 then n + TWO_TO_THE_32 else n
  }

  /** The bits of an unsigned integer, read as signed. */
  function ToI32(u: int): (n: int)
    requires 0 <= u < TWO_TO_THE_32
    ensures IsI32(n) && ToU32(n) == u
  {
    if u >= TWO_TO_THE_31 then u - TWO_TO_THE_32 else u
  }

  /** A 64-bit extent put into a signed 32-bit slot. */
  function Truncate(n: int): (r: int)
    ensures IsI32(r) && (r == n <==> IsI32(n)) && (r - n) % TWO_TO_THE_32 == 0
  {
    ToI32(n % TWO_TO_THE_32)
  }

  // ---- What the compiler asserts ----

  /** The rank is supported, and so is the width of floats. */
  predicate Supported(t: AbiType) {
    match t
    case Memref(shape, element) => |shape| <= MAX_RANK && SupportedElement(element)
    case UnrankedMemref(element) => SupportedElement(element)
    case Float(width) => width == 32 || width == 64
    case Inexpressible => true
  }

  predicate SupportedElement(e: Element) {
    e.FloatElement? ==> e.width == 32
  }

  predicate SupportedFunc(f: Func) {
    (forall t <- f.inputs :: Supported(t)) && (forall t <- f.outputs :: Supported(t)) &&
    |f.inputs| <= MAX_ARITY && |f.outputs| <= MAX_ARITY
  }

  predicate Expressible(f: Func) {
    (forall t <- f.inputs :: !t.Inexpressible?) && forall t <- f.outputs :: !t.Inexpressible?
  }

  // ---- Encoding ----

  function AbiCode(t: AbiType): int {
    match t
    case Memref(_, _) => 1
    case UnrankedMemref(_) => 1
    case Float(width) => if width == 32 then 2 else if width == 64 then 3 else TWO_TO_THE_32 - 1
    case Inexpressible => TWO_TO_THE_32 - 1
  }

  function ElementCode(t: AbiType): int {
    if (t.Memref? || t.UnrankedMemref?) && t.element == FloatElement(32) then 1 else 0
  }

  function RankOf(t: AbiType): int {
    match t
    case Memref(shape, _) => |shape|
    case UnrankedMemref(_) => -1
    case _ => 0
  }

  function Extent(d: Dim): int {
    match d
    case Static(n) => Truncate(n)
    case Dynamic => -1
  }

  const PADDING: int := ToI32(0xDEAD_BEEF)

  /** One shape, padded to the maximum rank. */
  function Extents(t: AbiType): (r: seq<int>)
    requires Supported(t)
    ensures |r| == MAX_RANK
  {
    match t
    case Memref(shape, _) =>
      seq(MAX_RANK, i requires 0 <= i < MAX_RANK => if i < |shape| then Extent(shape[i]) else PADDING)
    case _ => seq(MAX_RANK, i => MAX_RANK)
  }

  /** What is written for a shape: its extents, then 0xDEADBEEF; six sixes for anything else. */
  ghost predicate AreExtents(t: AbiType, r: seq<int>) {
    |r| == 6 && forall i | 0 <= i < 6 ::
      if !t.Memref? then r[i] == 6
      else if i >= |t.shape| then IsI32(r[i]) && ToU32(r[i]) == 0xDEAD_BEEF
      else ExtentWritten(t.shape[i], r[i])
  }

  /** -1 for a dynamic extent; a static one is cut to 32 bits. */
  predicate ExtentWritten(d: Dim, n: int) {
    if d.Dynamic? then n == -1 else IsI32(n) && (n - d.extent) % 0x1_0000_0000 == 0
  }

  method GetExtentsForType(t: AbiType) returns (r: seq<int>)
    requires Supported(t)
    ensures r == Extents(t) && AreExtents(t, r)
  {
    if !t.Memref? { return [MAX_RANK, MAX_RANK, MAX_RANK, MAX_RANK, MAX_RANK, MAX_RANK]; }
    r := [];
    for i := 0 to |t.shape|
      invariant |r| == i && forall j | 0 <= j < i :: r[j] == Extent(t.shape[j])
    {
      r := r + [if t.shape[i].Dynamic? then -1 else Truncate(t.shape[i].extent)];
    }
    var padRank := MAX_RANK - |t.shape|;
    for i := 0 to padRank
      invariant |r| == |t.shape| + i
      invariant forall j | 0 <= j < |r| :: r[j] == if j < |t.shape| then Extent(t.shape[j]) else PADDING
    {
      r := r + [PADDING];
    }
  }

  // The attributes for one side of a signature; absent when there are no arguments.
  datatype ArgsMetadata = ArgsMetadata(argTypes: seq<int>, elementTypes: seq<int>, ranks: seq<int>, shapes: seq<int>)

  type ArgsAttributes = a: ArgsMetadata | |a.argTypes| == |a.elementTypes| == |a.ranks|
    witness ArgsMetadata([], [], [], [])

  datatype FuncMetadata =
    FuncMetadata(funcName: string, numInputs: nat, numOutputs: nat, inputs: Option<ArgsAttributes>,
                 outputs: Option<ArgsAttributes>)

  /** Codes, ranks and flattened shapes of the arguments, position by position. */
  ghost predicate Encodes(ts: seq<AbiType>, a: ArgsMetadata) {
    |a.argTypes| == |a.elementTypes| == |a.ranks| == |ts| && |a.shapes| == MAX_RANK * |ts| &&
    forall i | 0 <= i < |ts| :: Supported(ts[i]) && EncodesAt(ts[i], a, i)
  }

  ghost predicate EncodesAt(t: AbiType, a: ArgsMetadata, i: nat)
    requires Supported(t)
  {
    i < |a.argTypes| && i < |a.elementTypes| && i < |a.ranks| && MAX_RANK * i + MAX_RANK <= |a.shapes| &&
    a.argTypes[i] == AbiCode(t) && a.elementTypes[i] == ElementCode(t) && a.ranks[i] == ToU32(RankOf(t)) &&
    a.shapes[MAX_RANK * i..MAX_RANK * i + MAX_RANK] == Extents(t)
  }

  ghost predicate EncodesFunc(f: Func, d: FuncMetadata) {
    d.funcName == f.name && d.numInputs == |f.inputs| && d.numOutputs == |f.outputs| &&
    (d.inputs.Some? <==> f.inputs != []) && (d.outputs.Some? <==> f.outputs != []) &&
    (d.inputs.Some? ==> Encodes(f.inputs, d.inputs.value)) && (d.outputs.Some? ==> Encodes(f.outputs, d.outputs.value))
  }

  /** The numbers that stand for an argument in the metadata. */
  ghost predicate ArgWritten(t: AbiType, argType: int, elementType: int, rank: int, shape: seq<int>) {
    argType == (if t.Memref? || t.UnrankedMemref? then 1 else if t == Float(32) then 2
                else if t == Float(64) then 3 else 0xFFFF_FFFF) &&
    elementType == (if (t.Memref? || t.UnrankedMemref?) && t.element == FloatElement(32) then 1 else 0) &&
    rank == (if t.Memref? then |t.shape| else if t.UnrankedMemref? then 0xFFFF_FFFF else 0) && AreExtents(t, shape)
  }

  lemma EncodedIsWritten(ts: seq<AbiType>, a: ArgsMetadata, i: nat)
    requires Encodes(ts, a) && i < |ts|
    ensures |a.argTypes| == |a.elementTypes| == |a.ranks| == |ts| && |a.shapes| == 6 * |ts|
    ensures ArgWritten(ts[i], a.argTypes[i], a.elementTypes[i], a.ranks[i], a.shapes[6 * i..6 * i + 6])
  {
    assert EncodesAt(ts[i], a, i);
    ExtentsAreWritten(ts[i]);
  }

  lemma ExtentsAreWritten(t: AbiType)
    requires Supported(t)
    ensures AreExtents(t, Extents(t))
  {
  }

  /** Collects the codes of each argument, and the shapes flattened one after another. */
  method EncodeArgs(ts: seq<AbiType>) returns (r: Option<ArgsAttributes>)
    requires forall t <- ts :: Supported(t)
    ensures r.Some? <==> ts != []
    ensures r.Some? ==> Encodes(ts, r.value)
    ensures r.Some? ==> |r.value.argTypes| == |ts| && |r.value.shapes| == 6 * |ts| &&
                        forall i | 0 <= i < |ts| ::
                          ArgWritten(ts[i], r.value.argTypes[i], r.value.elementTypes[i], r.value.ranks[i],
                                     r.value.shapes[6 * i..6 * i + 6])
  {
    var a := ArgsMetadata([], [], [], []);
    for i := 0 to |ts|
      invariant |a.argTypes| == |a.elementTypes| == |a.ranks| == i && |a.shapes| == MAX_RANK * i
      invariant forall j | 0 <= j < i :: Supported(ts[j]) && EncodesAt(ts[j], a, j)
    {
      var t := ts[i];
      var extents := GetExtentsForType(t);
      var next := ArgsMetadata(a.argTypes + [AbiCode(t)], a.elementTypes + [ElementCode(t)],
                               a.ranks + [ToU32(RankOf(t))], a.shapes + extents);
      EncodeNext(a, next, ts, i);
      a := next;
    }
    assert Encodes(ts, a);
    forall i | 0 <= i < |ts|
      ensures ArgWritten(ts[i], a.argTypes[i], a.elementTypes[i], a.ranks[i], a.shapes[6 * i..6 * i + 6])
    {
      EncodedIsWritten(ts, a, i);
    }
    r := if ts == [] then None else Some(a);
  }

  lemma EncodeNext(a: ArgsMetadata, next: ArgsMetadata, ts: seq<AbiType>, i: nat)
    requires i < |ts| && Supported(ts[i]) && |a.argTypes| == |a.elementTypes| == |a.ranks| == i &&
             |a.shapes| == MAX_RANK * i
    requires forall j | 0 <= j < i :: Supported(ts[j]) && EncodesAt(ts[j], a, j)
    requires next == ArgsMetadata(a.argTypes + [AbiCode(ts[i])], a.elementTypes + [ElementCode(ts[i])],
                                  a.ranks + [ToU32(RankOf(ts[i]))], a.shapes + Extents(ts[i]))
    ensures forall j | 0 <= j <= i :: Supported(ts[j]) && EncodesAt(ts[j], next, j)
  {
    forall j | 0 <= j <= i ensures Supported(ts[j]) && EncodesAt(ts[j], next, j) {
      if j < i {
        assert EncodesAt(ts[j], a, j);
        assert next.shapes[MAX_RANK * j..MAX_RANK * j + MAX_RANK] == a.shapes[MAX_RANK * j..MAX_RANK * j + MAX_RANK];
      } else {
        assert next.shapes[MAX_RANK * i..MAX_RANK * i + MAX_RANK] == Extents(ts[i]);
      }
    }
  }

  function Publics(program: seq<Func>): seq<Func> {
    if program == [] then []
    else Publics(program[..|program| - 1]) + (if program[|program| - 1].isPublic then [program[|program| - 1]] else [])
  }

  /** The public functions are kept in order. */
  lemma {:induction false} PublicsAppend(a: seq<Func>, b: seq<Func>)
    ensures Publics(a + b) == Publics(a) + Publics(b)
    decreases |b|
  {
    if b == [] {
      assert a + b == a;
    } else {
      var front, last := b[..|b| - 1], b[|b| - 1];
      assert (a + b)[..|a + b| - 1] == a + front;
      PublicsAppend(a, front);
    }
  }

  lemma PublicsOfOne(f: Func)
    ensures Publics([f]) == if f.isPublic then [f] else []
  {
    assert [f][..0] == [];
  }

  ghost predicate EncodesAll(fs: seq<Func>, ds: seq<FuncMetadata>) {
    |ds| == |fs| && forall i | 0 <= i < |fs| :: EncodesFunc(fs[i], ds[i])
  }

  /** Metadata for the public functions; an error when one of them cannot be expressed. */
  method CreateModuleMetadata(program: seq<Func>) returns (r: Option<seq<FuncMetadata>>)
    requires forall f <- program :: SupportedFunc(f)
    ensures r.None? <==> exists f <- program :: f.isPublic && (Inexpressible in f.inputs + f.outputs)
    ensures r.Some? ==> EncodesAll(Publics(program), r.value) && forall f <- Publics(program) :: Expressible(f)
  {
    PublicsAreThePublic(program);
    var metadatas := [];
    for n := 0 to |program|
      invariant EncodesAll(Publics(program[..n]), metadatas)
      invariant forall f <- Publics(program[..n]) :: Expressible(f)
    {
      assert program[..n + 1][..n] == program[..n];
      var f := program[n];
      if f.isPublic {
        assert SupportedFunc(f);
        var inputs := EncodeArgs(f.inputs);
        var outputs := EncodeArgs(f.outputs);
        metadatas := metadatas + [FuncMetadata(f.name, |f.inputs|, |f.outputs|, inputs, outputs)];
        if !Expressible(f) {
          PublicsGrow(program, n + 1);
          assert f in Publics(program[..n + 1]);
          return None;
        }
      }
    }
    assert program[..|program|] == program;
    r := Some(metadatas);
  }

  lemma {:induction false} PublicsGrow(program: seq<Func>, n: nat)
    requires n <= |program|
    ensures forall f <- Publics(program[..n]) :: f in Publics(program)
    decreases |program| - n
  {
    if n == |program| {
      assert program[..n] == program;
    } else {
      assert program[..n + 1][..n] == program[..n];
      PublicsGrow(program, n + 1);
    }
  }

  // ---- The emitted module ----

  datatype Pointer = Pointer(symbol: string, offset: nat)

  datatype ArgDescriptor = ArgDescriptor(abiType: int, elementType: int, rank: int, extents: Pointer)

  datatype FuncDescriptor =
    FuncDescriptor(nameLen: nat, name: Pointer, entry: string, numInputs: nat, numOutputs: nat,
                   inputDescriptors: string, outputDescriptors: string)

  datatype Content =
    // A compiled function, an external declaration, or a wrapper calling a function.
    | Code
    | Declaration
    | Calls(callee: string)
    // Global data.
    | Chars(chars: string)
    | Ints(ints: seq<int>)
    | Args(args: seq<ArgDescriptor>)
    | Funcs(funcs: seq<FuncDescriptor>)
    | Info(numFuncDescriptors: nat, functionDescriptors: string)

  predicate IsGlobal(c: Content) {
    !c.Code? && !c.Declaration? && !c.Calls?
  }

  // What the symbols of a module stand for.
  datatype Symbol =
    | Function(name: string)
    | AbortIf
    | NameOf(name: string)
    | InputShapesOf(name: string)
    | OutputShapesOf(name: string)
    | InputDescriptorsOf(name: string)
    | OutputDescriptorsOf(name: string)
    | FuncDescriptors
    | ModuleDescriptor
    | Message(number: nat)
    | WrapperOf(name: string)

  const ABORT_IF: string := "__npcomp_compiler_rt_abort_if"
  const CONSTANT: string := "__npcomp_internal_constant_"
  const INPUT_SHAPES: string := "input_shapes_"
  const OUTPUT_SHAPES: string := "output_shapes_"
  const INPUT_DESCRIPTORS: string := "__npcomp_input_descriptors_"
  const OUTPUT_DESCRIPTORS: string := "__npcomp_output_descriptors_"
  const FUNC_DESCRIPTORS: string := "__npcomp_func_descriptors"
  const MODULE_DESCRIPTOR: string := "_mlir___npcomp_module_descriptor"
  const MESSAGE: string := "__npcomp_string_"
  const WRAPPER: string := "__refbackrt_wrapper_"

  const DIGITS: string := "0123456789"

  function Decimal(n: nat): (r: string)
    ensures r != []
  {
    if n < 10 then [DIGITS[n]] else Decimal(n / 10) + [DIGITS[n % 10]]
  }

  /** The number a string of digits stands for. */
  function NumberIn(s: string): int {
    if s == [] then 0 else 10 * NumberIn(s[..|s| - 1]) + (s[|s| - 1] as int - '0' as int)
  }

  predicate IsDigit(c: char) {
    '0' <= c <= '9'
  }

  /** The decimal digits of the number, without leading zeros. */
  lemma {:induction false} DecimalStandsFor(n: nat)
    ensures NumberIn(Decimal(n)) == n && forall c <- Decimal(n) :: IsDigit(c)
    ensures n > 0 ==> Decimal(n)[0] != '0'
  {
    if n < 10 {
      assert [DIGITS[n]][..0] == [];
    } else {
      DecimalStandsFor(n / 10);
      assert Decimal(n)[..|Decimal(n)| - 1] == Decimal(n / 10);
    }
  }

  function Spelling(s: Symbol): string {
    match s
    case Function(name) => name
    case AbortIf => ABORT_IF
    case NameOf(name) => CONSTANT + name
    case InputShapesOf(name) => CONSTANT + (INPUT_SHAPES + name)
    case OutputShapesOf(name) => CONSTANT + (OUTPUT_SHAPES + name)
    case InputDescriptorsOf(name) => INPUT_DESCRIPTORS + name
    case OutputDescriptorsOf(name) => OUTPUT_DESCRIPTORS + name
    case FuncDescriptors => FUNC_DESCRIPTORS
    case ModuleDescriptor => MODULE_DESCRIPTOR
    case Message(number) => MESSAGE + Decimal(number)
    case WrapperOf(name) => WRAPPER + name
  }

  // ---- When two symbols are spelled alike ----

  lemma PrefixCancels(p: string, a: string, b: string)
    ensures p + a == p + b <==> a == b
  {
    if p + a == p + b { assert a == (p + a)[|p|..] == (p + b)[|p|..] == b; }
  }

  lemma {:induction false} DecimalInjective(m: nat, n: nat)
    requires Decimal(m) == Decimal(n)
    ensures m == n
  {
    var dm, dn := Decimal(m), Decimal(n);
    assert dm[|dm| - 1] == DIGITS[m % 10] && dn[|dn| - 1] == DIGITS[n % 10];
    if m >= 10 && n >= 10 {
      assert dm[..|dm| - 1] == Decimal(m / 10) && dn[..|dn| - 1] == Decimal(n / 10);
      DecimalInjective(m / 10, n / 10);
    }
  }

  /** Two characters that tell the families of generated symbols apart. */
  function Mark(s: Symbol): (char, char) {
    match s
    case Function(_) => (' ', ' ')
    case AbortIf => ('c', 'm')
    case NameOf(_) => ('i', 't')
    case InputShapesOf(_) => ('i', 't')
    case OutputShapesOf(_) => ('i', 't')
    case InputDescriptorsOf(_) => ('i', 'p')
    case OutputDescriptorsOf(_) => ('o', 't')
    case FuncDescriptors => ('f', 'n')
    case ModuleDescriptor => ('p', 'o')
    case Message(_) => ('s', 'r')
    case WrapperOf(_) => ('r', '_')
  }

  ghost predicate Marked(s: string, mark: (char, char)) {
    |s| > 11 && s[9] == mark.0 && s[11] == mark.1
  }

  lemma SpellingIsMarked(s: Symbol)
    requires !s.Function?
    ensures Marked(Spelling(s), Mark(s))
  {
    assert Marked(CONSTANT, ('i', 't')) && Marked(INPUT_DESCRIPTORS, ('i', 'p')) &&
           Marked(OUTPUT_DESCRIPTORS, ('o', 't'));
    assert Marked(MESSAGE, ('s', 'r')) && Marked(WRAPPER, ('r', '_'));
  }

  /** A name that is spelled like the symbol `b` after what comes before it in `a`. */
  predicate Imitates(a: Symbol, b: Symbol) {
    (a.Function? && !b.Function? && a.name == Spelling(b)) ||
    (a.NameOf? && b.InputShapesOf? && a.name == INPUT_SHAPES + b.name) ||
    (a.NameOf? && b.OutputShapesOf? && a.name == OUTPUT_SHAPES + b.name)
  }

  /** Different symbols are spelled alike exactly when the name in one imitates the other. */
  lemma SpelledAlike(a: Symbol, b: Symbol)
    ensures Spelling(a) == Spelling(b) <==> a == b || Imitates(a, b) || Imitates(b, a)
  {
    if !a.Function? && !b.Function? {
      SpellingIsMarked(a);
      SpellingIsMarked(b);
      if Mark(a) == Mark(b) {
        if Mark(a) == ('i', 't') { ConstantsAlike(a, b); } else { FamilyAlike(a, b); }
      }
    }
  }

  lemma ConstantsAlike(a: Symbol, b: Symbol)
    requires !a.Function? && !b.Function? && Mark(a) == Mark(b) == ('i', 't')
    ensures Spelling(a) == Spelling(b) <==> a == b || Imitates(a, b) || Imitates(b, a)
  {
    PrefixCancels(CONSTANT, AfterConstant(a), AfterConstant(b));
    PrefixCancels(INPUT_SHAPES, a.name, b.name);
    PrefixCancels(OUTPUT_SHAPES, a.name, b.name);
    assert (INPUT_SHAPES + a.name)[0] == 'i' && (OUTPUT_SHAPES + b.name)[0] == 'o';
    assert (INPUT_SHAPES + b.name)[0] == 'i' && (OUTPUT_SHAPES + a.name)[0] == 'o';
  }

  function AfterConstant(s: Symbol): string {
    match s
    case NameOf(name) => name
    case InputShapesOf(name) => INPUT_SHAPES + name
    case OutputShapesOf(name) => OUTPUT_SHAPES + name
    case _ => []
  }

  lemma FamilyAlike(a: Symbol, b: Symbol)
    requires !a.Function? && !b.Function? && Mark(a) == Mark(b) != ('i', 't')
    ensures Spelling(a) == Spelling(b) <==> a == b
  {
    match a {
      case InputDescriptorsOf(name) => PrefixCancels(INPUT_DESCRIPTORS, name, b.name);
      case OutputDescriptorsOf(name) => PrefixCancels(OUTPUT_DESCRIPTORS, name, b.name);
      case WrapperOf(name) => PrefixCancels(WRAPPER, name, b.name);
      case Message(number) =>
        PrefixCancels(MESSAGE, Decimal(number), Decimal(b.number));
        if Decimal(number) == Decimal(b.number) { DecimalInjective(number, b.number); }
      case _ =>
    }
  }

  // ---- The module under construction ----

  /** Two of the symbols are spelled alike. */
  ghost predicate Coincide(defs: map<Symbol, Content>) {
    exists a, b :: a in defs && b in defs && a != b && Spelling(a) == Spelling(b)
  }

  ghost predicate Agrees(symbols: map<string, Content>, redefined: bool, defs: map<Symbol, Content>) {
    (forall s <- defs :: Spelling(s) in symbols) &&
    (forall n <- symbols :: exists s :: s in defs && Spelling(s) == n) &&
    (redefined <==> Coincide(defs)) && (!redefined ==> forall s <- defs :: symbols[Spelling(s)] == defs[s])
  }

  lemma AgreesNext(symbols: map<string, Content>, redefined: bool, defs: map<Symbol, Content>, s: Symbol, c: Content)
    requires Agrees(symbols, redefined, defs) && s !in defs
    ensures Agrees(symbols[Spelling(s) := c], redefined || Spelling(s) in symbols, defs[s := c])
  {
    var next, after := defs[s := c], symbols[Spelling(s) := c];
    forall n <- after ensures exists t :: t in next && Spelling(t) == n {
      if n == Spelling(s) {
        assert s in next;
      } else {
        var t :| t in defs && Spelling(t) == n;
        assert t in next;
      }
    }
    if Coincide(defs) {
      var a, b :| a in defs && b in defs && a != b && Spelling(a) == Spelling(b);
      assert a in next && b in next;
    }
    if Spelling(s) in symbols {
      var t :| t in defs && Spelling(t) == Spelling(s);
      assert t in next && s in next && t != s;
    }
  }

  lemma AgreesReplaced(symbols: map<string, Content>, redefined: bool, defs: map<Symbol, Content>, s: Symbol,
                       c: Content)
    requires Agrees(symbols, redefined, defs) && s in defs
    ensures Agrees(symbols[Spelling(s) := c], redefined, defs[s := c])
  {
    var next, after := defs[s := c], symbols[Spelling(s) := c];
    assert forall t :: t in next <==> t in defs;
    forall n <- after ensures exists t :: t in next && Spelling(t) == n {
      assert n in symbols;
      var t :| t in defs && Spelling(t) == n;
      assert t in next;
    }
    if Coincide(defs) {
      var a, b :| a in defs && b in defs && a != b && Spelling(a) == Spelling(b);
      assert a in next && b in next;
    }
  }

  datatype Table = Table(symbols: map<string, Content>, redefined: bool, defs: map<Symbol, Content>)

  /** What creating and replacing symbols one after another comes to. */
  ghost function Replay(history: seq<(Symbol, Content)>): Table {
    if history == [] then Table(map[], false, map[])
    else
      var t, s, c := Replay(history[..|history| - 1]), history[|history| - 1].0, history[|history| - 1].1;
      Table(t.symbols[Spelling(s) := c], t.redefined || (s !in t.defs && Spelling(s) in t.symbols), t.defs[s := c])
  }

  lemma {:induction false} ReplayAgrees(history: seq<(Symbol, Content)>)
    ensures var t := Replay(history); Agrees(t.symbols, t.redefined, t.defs)
  {
    if history != [] {
      var t, s, c := Replay(history[..|history| - 1]), history[|history| - 1].0, history[|history| - 1].1;
      ReplayAgrees(history[..|history| - 1]);
      if s in t.defs {
        AgreesReplaced(t.symbols, t.redefined, t.defs, s, c);
      } else {
        AgreesNext(t.symbols, t.redefined, t.defs, s, c);
      }
    }
  }

  /** The module the ops are created in. A symbol defined twice is kept in mind until the module is verified. */
  class Module {
    var symbols: map<string, Content>
    var redefined: bool
    var numGlobals: nat
    ghost var defs: map<Symbol, Content>
    ghost var history: seq<(Symbol, Content)>

    ghost predicate Valid()
      reads this
    {
      Replay(history) == Table(symbols, redefined, defs)
    }

    constructor ()
      ensures Valid() && defs == map[] && numGlobals == 0
    {
      symbols, redefined, numGlobals, defs, history := map[], false, 0, map[], [];
    }

    method Create(s: Symbol, c: Content)
      requires Valid() && s !in defs
      modifies this
      ensures Valid() && defs == old(defs)[s := c]
      ensures numGlobals == old(numGlobals) + if IsGlobal(c) then 1 else 0
    {
      redefined := redefined || Spelling(s) in symbols;
      symbols := symbols[Spelling(s) := c];
      numGlobals := numGlobals + if IsGlobal(c) then 1 else 0;
      defs := defs[s := c];
      history := history + [(s, c)];
      assert history[..|history| - 1] == old(history);
    }

    method Replace(s: Symbol, c: Content)
      requires Valid() && s in defs
      modifies this
      ensures Valid() && defs == old(defs)[s := c] && numGlobals == old(numGlobals)
    {
      symbols := symbols[Spelling(s) := c];
      defs := defs[s := c];
      history := history + [(s, c)];
      assert history[..|history| - 1] == old(history);
    }
  }

  // ---- What is emitted for each public function ----

  /** A descriptor per argument, pointing into the flattened shapes at a multiple of the maximum rank. */
  function Descriptors(a: Option<ArgsAttributes>, symbol: string): seq<ArgDescriptor> {
    seq(NumArgs(a), i requires 0 <= i < NumArgs(a) =>
      ArgDescriptor(a.value.argTypes[i], a.value.elementTypes[i], a.value.ranks[i], Pointer(symbol, i * MAX_RANK)))
  }

  function NumArgs(a: Option<ArgsAttributes>): nat {
    if a.None? then 0 else |a.value.argTypes|
  }

  method DescribeArgs(numArgs: nat, args: Option<ArgsAttributes>, symbol: string) returns (r: seq<ArgDescriptor>)
    requires numArgs == NumArgs(args)
    ensures r == Descriptors(args, symbol)
  {
    r := [];
    for i := 0 to numArgs
      invariant r == Descriptors(args, symbol)[..i]
    {
      r := r + [ArgDescriptor(args.value.argTypes[i], args.value.elementTypes[i], args.value.ranks[i],
                              Pointer(symbol, i * MAX_RANK))];
    }
  }

  /** What the metadata of one function puts under a symbol. */
  function Emission(d: FuncMetadata, s: Symbol): Option<Content> {
    match s
    case NameOf(name) => if name == d.funcName then Some(Chars(name)) else None
    case InputShapesOf(name) => if name == d.funcName && d.inputs.Some? then Some(Ints(d.inputs.value.shapes)) else None
    case OutputShapesOf(name) =>
      if name == d.funcName && d.outputs.Some? then Some(Ints(d.outputs.value.shapes)) else None
    case InputDescriptorsOf(name) =>
      if name == d.funcName then Some(Args(Descriptors(d.inputs, Spelling(InputShapesOf(name))))) else None
    case OutputDescriptorsOf(name) =>
      if name == d.funcName then Some(Args(Descriptors(d.outputs, Spelling(OutputShapesOf(name))))) else None
    case WrapperOf(name) => if name == d.funcName then Some(Calls(name)) else None
    case _ => None
  }

  // The order in which symbols are created.
  function Stage(s: Symbol): nat {
    match s
    case Function(_) => 0
    case AbortIf => 1
    case NameOf(_) => 2
    case InputShapesOf(_) => 2
    case OutputShapesOf(_) => 2
    case InputDescriptorsOf(_) => 3
    case OutputDescriptorsOf(_) => 4
    case FuncDescriptors => 5
    case ModuleDescriptor => 6
    case Message(_) => 7
    case WrapperOf(_) => 8
  }

  ghost predicate Below(defs: map<Symbol, Content>, stage: nat) {
    forall s <- defs :: Stage(s) < stage
  }

  /** Exactly the symbols of one stage of one function are new. */
  ghost predicate Adds(before: map<Symbol, Content>, after: map<Symbol, Content>, d: FuncMetadata, stage: nat) {
    (forall s :: s in after <==> s in before || (Stage(s) == stage && Emission(d, s).Some?)) &&
    (forall s <- after :: after[s] == if s in before then before[s] else Emission(d, s).value)
  }

  ghost predicate EmittedBy(ds: seq<FuncMetadata>, s: Symbol) {
    exists d :: d in ds && Emission(d, s).Some?
  }

  /** The same for a list of functions. */
  ghost predicate AddsAll(before: map<Symbol, Content>, after: map<Symbol, Content>, ds: seq<FuncMetadata>, stage: nat)
  {
    (forall s :: s in after <==> s in before || (Stage(s) == stage && EmittedBy(ds, s))) &&
    (forall s <- before :: s in after && after[s] == before[s]) &&
    (forall d, s | d in ds && Stage(s) == stage && Emission(d, s).Some? ::
     s in after && after[s] == Emission(d, s).value)
  }

  ghost predicate UniqueNames(ds: seq<FuncMetadata>) {
    forall i, j | 0 <= i < j < |ds| :: ds[i].funcName != ds[j].funcName
  }

  /** What one function emits is not there yet. */
  lemma NotYetThere(before: map<Symbol, Content>, defs: map<Symbol, Content>, ds: seq<FuncMetadata>, n: nat, stage: nat)
    requires UniqueNames(ds) && n < |ds| && Below(before, stage) && AddsAll(before, defs, ds[..n], stage)
    ensures forall s | Stage(s) == stage && Emission(ds[n], s).Some? :: s !in defs
  {
  }

  lemma EmittedByNext(ds: seq<FuncMetadata>, n: nat, s: Symbol)
    requires n < |ds|
    ensures EmittedBy(ds[..n + 1], s) <==> EmittedBy(ds[..n], s) || Emission(ds[n], s).Some?
  {
    assert ds[..n + 1] == ds[..n] + [ds[n]];
    if Emission(ds[n], s).Some? { assert ds[n] in ds[..n + 1]; }
  }

  lemma AddsNext(before: map<Symbol, Content>, defs: map<Symbol, Content>, after: map<Symbol, Content>,
                 ds: seq<FuncMetadata>, n: nat, stage: nat)
    requires UniqueNames(ds) && n < |ds| && Below(before, stage) && AddsAll(before, defs, ds[..n], stage) &&
             Adds(defs, after, ds[n], stage)
    ensures AddsAll(before, after, ds[..n + 1], stage)
  {
    NotYetThere(before, defs, ds, n, stage);
    AddsNextTo(before, defs, after, ds, n, stage);
  }

  lemma AddsNextTo(before: map<Symbol, Content>, defs: map<Symbol, Content>, after: map<Symbol, Content>,
                   ds: seq<FuncMetadata>, n: nat, stage: nat)
    requires n < |ds| && AddsAll(before, defs, ds[..n], stage) && Adds(defs, after, ds[n], stage)
    requires forall s | Stage(s) == stage && Emission(ds[n], s).Some? :: s !in defs
    ensures AddsAll(before, after, ds[..n + 1], stage)
  {
    forall s
      ensures EmittedBy(ds[..n + 1], s) <==> EmittedBy(ds[..n], s) || Emission(ds[n], s).Some?
    {
      EmittedByNext(ds, n, s);
    }
    forall d, s | d in ds[..n + 1] && Stage(s) == stage && Emission(d, s).Some?
      ensures s in after && after[s] == Emission(d, s).value
    {
      if d != ds[n] { assert d in ds[..n]; }
    }
  }

  lemma AddsBelow(before: map<Symbol, Content>, after: map<Symbol, Content>, ds: seq<FuncMetadata>, stage: nat)
    requires Below(before, stage) && AddsAll(before, after, ds, stage)
    ensures Below(after, stage + 1)
  {
  }

  /** The constants of one function. */
  method EmitConstants(m: Module, d: FuncMetadata)
    requires m.Valid() && forall s | Stage(s) == 2 && Emission(d, s).Some? :: s !in m.defs
    modifies m
    ensures m.Valid() && Adds(old(m.defs), m.defs, d, 2)
    ensures m.numGlobals == old(m.numGlobals) + 1 + (if d.inputs.Some? then 1 else 0) +
            (if d.outputs.Some? then 1 else 0)
  {
    ConstantsAreEmitted(m.defs, d);
    m.Create(NameOf(d.funcName), Chars(d.funcName));
    if d.inputs.Some? { m.Create(InputShapesOf(d.funcName), Ints(d.inputs.value.shapes)); }
    if d.outputs.Some? { m.Create(OutputShapesOf(d.funcName), Ints(d.outputs.value.shapes)); }
  }

  ghost function WithConstants(defs: map<Symbol, Content>, d: FuncMetadata): map<Symbol, Content> {
    var named := defs[NameOf(d.funcName) := Chars(d.funcName)];
    var shaped := if d.inputs.Some? then named[InputShapesOf(d.funcName) := Ints(d.inputs.value.shapes)] else named;
    if d.outputs.Some? then shaped[OutputShapesOf(d.funcName) := Ints(d.outputs.value.shapes)] else shaped
  }

  lemma ConstantsAreEmitted(defs: map<Symbol, Content>, d: FuncMetadata)
    requires forall s | Stage(s) == 2 && Emission(d, s).Some? :: s !in defs
    ensures NameOf(d.funcName) !in defs && (d.inputs.Some? ==> InputShapesOf(d.funcName) !in defs)
    ensures d.outputs.Some? ==> OutputShapesOf(d.funcName) !in defs
    ensures Adds(defs, WithConstants(defs, d), d, 2)
  {
    assert Emission(d, NameOf(d.funcName)).Some?;
    if d.inputs.Some? { assert Emission(d, InputShapesOf(d.funcName)).Some?; }
    if d.outputs.Some? { assert Emission(d, OutputShapesOf(d.funcName)).Some?; }
  }

  ghost predicate ArgCounts(ds: seq<FuncMetadata>) {
    forall d <- ds :: d.numInputs == NumArgs(d.inputs) && d.numOutputs == NumArgs(d.outputs)
  }

  /** The globals of the constants of some functions. */
  function NumConstants(ds: seq<FuncMetadata>): nat {
    if ds == [] then 0
    else
      var d := ds[|ds| - 1];
      NumConstants(ds[..|ds| - 1]) + 1 + (if d.inputs.Some? then 1 else 0) + (if d.outputs.Some? then 1 else 0)
  }

  /** The constants of all functions. */
  method EmitAllConstants(m: Module, ds: seq<FuncMetadata>)
    requires m.Valid() && UniqueNames(ds) && Below(m.defs, 2)
    modifies m
    ensures m.Valid() && AddsAll(old(m.defs), m.defs, ds, 2) && Below(m.defs, 3) &&
            m.numGlobals == old(m.numGlobals) + NumConstants(ds)
  {
    for n := 0 to |ds|
      invariant m.Valid() && AddsAll(old(m.defs), m.defs, ds[..n], 2) &&
                m.numGlobals == old(m.numGlobals) + NumConstants(ds[..n])
    {
      NotYetThere(old(m.defs), m.defs, ds, n, 2);
      ghost var defs := m.defs;
      EmitConstants(m, ds[n]);
      AddsNext(old(m.defs), defs, m.defs, ds, n, 2);
      assert ds[..n + 1][..n] == ds[..n];
    }
    assert ds[..|ds|] == ds;
    AddsBelow(old(m.defs), m.defs, ds, 2);
  }

  lemma InputDescriptorsAreEmitted(before: map<Symbol, Content>, defs: map<Symbol, Content>, ds: seq<FuncMetadata>,
                                   n: nat, c: Content)
    requires UniqueNames(ds) && n < |ds| && Below(before, 3) && AddsAll(before, defs, ds[..n], 3)
    requires c == Args(Descriptors(ds[n].inputs, Spelling(InputShapesOf(ds[n].funcName))))
    ensures InputDescriptorsOf(ds[n].funcName) !in defs &&
            AddsAll(before, defs[InputDescriptorsOf(ds[n].funcName) := c], ds[..n + 1], 3)
  {
    NotYetThere(before, defs, ds, n, 3);
    assert Emission(ds[n], InputDescriptorsOf(ds[n].funcName)).Some?;
    AddsNext(before, defs, defs[InputDescriptorsOf(ds[n].funcName) := c], ds, n, 3);
  }

  lemma OutputDescriptorsAreEmitted(before: map<Symbol, Content>, defs: map<Symbol, Content>, ds: seq<FuncMetadata>,
                                    n: nat, c: Content)
    requires UniqueNames(ds) && n < |ds| && Below(before, 4) && AddsAll(before, defs, ds[..n], 4)
    requires c == Args(Descriptors(ds[n].outputs, Spelling(OutputShapesOf(ds[n].funcName))))
    ensures OutputDescriptorsOf(ds[n].funcName) !in defs &&
            AddsAll(before, defs[OutputDescriptorsOf(ds[n].funcName) := c], ds[..n + 1], 4)
  {
    NotYetThere(before, defs, ds, n, 4);
    assert Emission(ds[n], OutputDescriptorsOf(ds[n].funcName)).Some?;
    AddsNext(before, defs, defs[OutputDescriptorsOf(ds[n].funcName) := c], ds, n, 4);
  }

  method EmitInputDescriptors(m: Module, ds: seq<FuncMetadata>)
    requires m.Valid() && UniqueNames(ds) && ArgCounts(ds) && Below(m.defs, 3)
    modifies m
    ensures m.Valid() && AddsAll(old(m.defs), m.defs, ds, 3) && Below(m.defs, 4) &&
            m.numGlobals == old(m.numGlobals) + |ds|
  {
    for n := 0 to |ds|
      invariant m.Valid() && AddsAll(old(m.defs), m.defs, ds[..n], 3) && m.numGlobals == old(m.numGlobals) + n
    {
      var d := ds[n];
      var args := DescribeArgs(d.numInputs, d.inputs, Spelling(InputShapesOf(d.funcName)));
      InputDescriptorsAreEmitted(old(m.defs), m.defs, ds, n, Args(args));
      m.Create(InputDescriptorsOf(d.funcName), Args(args));
    }
    assert ds[..|ds|] == ds;
    AddsBelow(old(m.defs), m.defs, ds, 3);
  }

  method EmitOutputDescriptors(m: Module, ds: seq<FuncMetadata>)
    requires m.Valid() && UniqueNames(ds) && ArgCounts(ds) && Below(m.defs, 4)
    modifies m
    ensures m.Valid() && AddsAll(old(m.defs), m.defs, ds, 4) && Below(m.defs, 5) &&
            m.numGlobals == old(m.numGlobals) + |ds|
  {
    for n := 0 to |ds|
      invariant m.Valid() && AddsAll(old(m.defs), m.defs, ds[..n], 4) && m.numGlobals == old(m.numGlobals) + n
    {
      var d := ds[n];
      var args := DescribeArgs(d.numOutputs, d.outputs, Spelling(OutputShapesOf(d.funcName)));
      OutputDescriptorsAreEmitted(old(m.defs), m.defs, ds, n, Args(args));
      m.Create(OutputDescriptorsOf(d.funcName), Args(args));
    }
    assert ds[..|ds|] == ds;
    AddsBelow(old(m.defs), m.defs, ds, 4);
  }

  /** The descriptor of a function, which is entered at `entry`. */
  function FuncDescriptorOf(d: FuncMetadata, entry: string): FuncDescriptor {
    FuncDescriptor(|d.funcName|, Pointer(Spelling(NameOf(d.funcName)), 0), entry, d.numInputs, d.numOutputs,
                   Spelling(InputDescriptorsOf(d.funcName)), Spelling(OutputDescriptorsOf(d.funcName)))
  }

  /** The constants, descriptors and function descriptors of all functions are there besides what was there before. */
  ghost predicate Described(before: map<Symbol, Content>, after: map<Symbol, Content>, ds: seq<FuncMetadata>) {
    (forall s :: s in after <==> s in before || s == FuncDescriptors || (Stage(s) < 8 && EmittedBy(ds, s))) &&
    (forall s <- before :: s in after && after[s] == before[s]) &&
    (forall d, s | d in ds && Stage(s) < 8 && Emission(d, s).Some? :: s in after && after[s] == Emission(d, s).value)
  }

  lemma DescribedByStages(before: map<Symbol, Content>, constants: map<Symbol, Content>, inputs: map<Symbol, Content>,
                          outputs: map<Symbol, Content>, ds: seq<FuncMetadata>, c: Content)
    requires Below(before, 2) && AddsAll(before, constants, ds, 2) && AddsAll(constants, inputs, ds, 3) &&
             AddsAll(inputs, outputs, ds, 4)
    ensures Described(before, outputs[FuncDescriptors := c], ds) && FuncDescriptors !in outputs &&
            Below(outputs[FuncDescriptors := c], 6)
  {
    forall d, s | d in ds && Stage(s) < 8 && Emission(d, s).Some?
      ensures 2 <= Stage(s) <= 4 && s in outputs && outputs[s] == Emission(d, s).value
    {
    }
    forall s ensures s in outputs <==> s in before || (Stage(s) < 8 && EmittedBy(ds, s)) {
      if EmittedBy(ds, s) && Stage(s) < 8 {
        var d :| d in ds && Emission(d, s).Some?;
        assert 2 <= Stage(s) <= 4;
      }
    }
  }

  method DescribeFuncs(ds: seq<FuncMetadata>) returns (descriptors: seq<FuncDescriptor>)
    ensures |descriptors| == |ds| &&
            forall n | 0 <= n < |ds| :: descriptors[n] == FuncDescriptorOf(ds[n], ds[n].funcName)
  {
    descriptors := [];
    for n := 0 to |ds|
      invariant |descriptors| == n && forall i | 0 <= i < n :: descriptors[i] == FuncDescriptorOf(ds[i], ds[i].funcName)
    {
      descriptors := descriptors + [FuncDescriptorOf(ds[n], ds[n].funcName)];
    }
  }

  /** The array of function descriptors, which hold the addresses of the functions themselves at first. */
  method CreateFuncDescriptorArray(m: Module, ds: seq<FuncMetadata>) returns (descriptors: seq<FuncDescriptor>)
    requires m.Valid() && UniqueNames(ds) && ArgCounts(ds) && Below(m.defs, 2)
    modifies m
    ensures m.Valid() && Below(m.defs, 6) && m.numGlobals == old(m.numGlobals) + NumConstants(ds) + 2 * |ds| + 1
    ensures Described(old(m.defs), m.defs, ds)
    ensures FuncDescriptors in m.defs && m.defs[FuncDescriptors] == Funcs(descriptors)
    ensures |descriptors| == |ds| &&
            forall n | 0 <= n < |ds| :: descriptors[n] == FuncDescriptorOf(ds[n], ds[n].funcName)
  {
    EmitAllConstants(m, ds);
    ghost var constants := m.defs;
    EmitInputDescriptors(m, ds);
    ghost var inputs := m.defs;
    EmitOutputDescriptors(m, ds);
    ghost var outputs := m.defs;
    descriptors := DescribeFuncs(ds);
    DescribedByStages(old(m.defs), constants, inputs, outputs, ds, Funcs(descriptors));
    m.Create(FuncDescriptors, Funcs(descriptors));
  }

  /** The module descriptor is there, too. */
  ghost predicate Lowered(before: map<Symbol, Content>, after: map<Symbol, Content>, ds: seq<FuncMetadata>) {
    (forall s :: s in after <==>
                   s in before || s == FuncDescriptors || s == ModuleDescriptor ||
                   (Stage(s) < 8 && EmittedBy(ds, s))) &&
    (forall s <- before :: s in after && after[s] == before[s]) &&
    (forall d, s | d in ds && Stage(s) < 8 && Emission(d, s).Some? :: s in after && after[s] == Emission(d, s).value) &&
    after[ModuleDescriptor] == Info(|ds|, FUNC_DESCRIPTORS)
  }

  lemma ModuleDescriptorAdded(before: map<Symbol, Content>, described: map<Symbol, Content>, ds: seq<FuncMetadata>)
    requires Below(before, 2) && Described(before, described, ds) && Below(described, 6)
    ensures ModuleDescriptor !in described
    ensures Lowered(before, described[ModuleDescriptor := Info(|ds|, FUNC_DESCRIPTORS)], ds)
    ensures Below(described[ModuleDescriptor := Info(|ds|, FUNC_DESCRIPTORS)], 7)
  {
  }

  /** The metadata becomes the module descriptor and all it leads to. */
  method LowerModuleMetadata(m: Module, ds: seq<FuncMetadata>) returns (descriptors: seq<FuncDescriptor>)
    requires m.Valid() && UniqueNames(ds) && ArgCounts(ds) && Below(m.defs, 2)
    modifies m
    ensures m.Valid() && Below(m.defs, 7) && m.numGlobals == old(m.numGlobals) + NumConstants(ds) + 2 * |ds| + 2
    ensures Lowered(old(m.defs), m.defs, ds)
    ensures FuncDescriptors in m.defs && m.defs[FuncDescriptors] == Funcs(descriptors)
    ensures |descriptors| == |ds| &&
            forall n | 0 <= n < |ds| :: descriptors[n] == FuncDescriptorOf(ds[n], ds[n].funcName)
  {
    descriptors := CreateFuncDescriptorArray(m, ds);
    ModuleDescriptorAdded(old(m.defs), m.defs, ds);
    m.Create(ModuleDescriptor, Info(|ds|, FUNC_DESCRIPTORS));
  }

  /** The wrappers are there besides what was there before, and the function descriptors lead to them. */
  ghost predicate Wrapped(before: map<Symbol, Content>, after: map<Symbol, Content>, ds: seq<FuncMetadata>) {
    (forall s :: s in after <==> s in before || s == FuncDescriptors || (Stage(s) == 8 && EmittedBy(ds, s))) &&
    (forall s <- before :: s in after && (s != FuncDescriptors ==> after[s] == before[s])) &&
    (forall d, s | d in ds && Stage(s) == 8 && Emission(d, s).Some? ::
     s in after && after[s] == Emission(d, s).value) &&
    after[FuncDescriptors].Funcs? && |after[FuncDescriptors].funcs| == |ds| &&
    forall n | 0 <= n < |ds| ::
      after[FuncDescriptors].funcs[n] == FuncDescriptorOf(ds[n], Spelling(WrapperOf(ds[n].funcName)))
  }

  /** The public functions get wrappers, and the descriptors their addresses. */
  method CreateWrappers(m: Module, ds: seq<FuncMetadata>, descriptors: seq<FuncDescriptor>)
    requires m.Valid() && UniqueNames(ds) && Below(m.defs, 8) && FuncDescriptors in m.defs
    requires |descriptors| == |ds| &&
             forall n | 0 <= n < |ds| :: descriptors[n] == FuncDescriptorOf(ds[n], ds[n].funcName)
    modifies m
    ensures m.Valid() && Wrapped(old(m.defs), m.defs, ds)
  {
    var redirected := descriptors;
    for n := 0 to |ds|
      invariant m.Valid() && |redirected| == |ds|
      invariant forall i | 0 <= i < |ds| ::
        redirected[i] == FuncDescriptorOf(ds[i], if i < n then Spelling(WrapperOf(ds[i].funcName)) else ds[i].funcName)
      invariant AddsAll(old(m.defs), m.defs, ds[..n], 8)
    {
      ghost var defs := m.defs;
      var name := redirected[n].entry;
      WrapperIsEmitted(old(m.defs), defs, ds, n);
      m.Create(WrapperOf(name), Calls(name));
      redirected := redirected[n := redirected[n].(entry := Spelling(WrapperOf(name)))];
      AddsNext(old(m.defs), defs, m.defs, ds, n, 8);
    }
    assert ds[..|ds|] == ds;
    m.Replace(FuncDescriptors, Funcs(redirected));
  }

  lemma WrapperIsEmitted(before: map<Symbol, Content>, defs: map<Symbol, Content>, ds: seq<FuncMetadata>, n: nat)
    requires UniqueNames(ds) && n < |ds| && Below(before, 8) && AddsAll(before, defs, ds[..n], 8)
    ensures WrapperOf(ds[n].funcName) !in defs
    ensures Adds(defs, defs[WrapperOf(ds[n].funcName) := Calls(ds[n].funcName)], ds[n], 8)
  {
    NotYetThere(before, defs, ds, n, 8);
    assert Emission(ds[n], WrapperOf(ds[n].funcName)).Some?;
  }

  ghost predicate AreFunctions(program: seq<Func>, defs: map<Symbol, Content>) {
    (forall s :: s in defs <==> s.Function? && exists f :: f in program && f.name == s.name) &&
    forall s <- defs :: defs[s] == Code
  }

  /** The functions of the program. */
  method DefineFunctions(m: Module, program: seq<Func>)
    requires m.Valid() && m.defs == map[] && forall i, j | 0 <= i < j < |program| :: program[i].name != program[j].name
    modifies m
    ensures m.Valid() && m.numGlobals == old(m.numGlobals)
    ensures AreFunctions(program, m.defs)
  {
    for n := 0 to |program|
      invariant m.Valid() && m.numGlobals == old(m.numGlobals) && forall s <- m.defs :: m.defs[s] == Code
      invariant forall s :: s in m.defs <==> s.Function? && exists i :: 0 <= i < n && program[i].name == s.name
    {
      m.Create(Function(program[n].name), Code);
    }
  }

  /** The failure messages of all functions, in order. */
  function Messages(program: seq<Func>): seq<string> {
    if program == [] then [] else Messages(program[..|program| - 1]) + program[|program| - 1].messages
  }

  /** All messages of the functions, in order. */
  lemma {:induction false} MessagesAppend(a: seq<Func>, b: seq<Func>)
    ensures Messages(a + b) == Messages(a) + Messages(b)
    decreases |b|
  {
    if b == [] {
      assert a + b == a;
    } else {
      var front, last := b[..|b| - 1], b[|b| - 1];
      assert (a + b)[..|a + b| - 1] == a + front;
      MessagesAppend(a, front);
    }
  }

  lemma MessagesOfOne(f: Func)
    ensures Messages([f]) == f.messages
  {
    assert [f][..0] == [];
  }

  /** The messages, each with a terminating zero, are there from number `first` on. */
  ghost predicate Numbered(before: map<Symbol, Content>, after: map<Symbol, Content>, first: nat,
                           messages: seq<string>)
  {
    (forall s :: s in after <==> s in before || (s.Message? && first <= s.number < first + |messages|)) &&
    (forall s <- before :: s in after && after[s] == before[s]) &&
    (forall n | 0 <= n < |messages| ::
       Message(first + n) in after && after[Message(first + n)] == Chars(messages[n] + ['\0']))
  }

  lemma NumberedNext(before: map<Symbol, Content>, defs: map<Symbol, Content>, first: nat, messages: seq<string>,
                     n: nat)
    requires n < |messages| && Below(before, 7) && Numbered(before, defs, first, messages[..n])
    ensures Message(first + n) !in defs
    ensures Numbered(before, defs[Message(first + n) := Chars(messages[n] + ['\0'])], first, messages[..n + 1])
  {
  }

  /** Each message gets a global, numbered by the globals there are before. */
  method CreateMessages(m: Module, messages: seq<string>)
    requires m.Valid() && Below(m.defs, 7)
    modifies m
    ensures m.Valid() && Numbered(old(m.defs), m.defs, old(m.numGlobals), messages) && Below(m.defs, 8)
  {
    for n := 0 to |messages|
      invariant m.Valid() && m.numGlobals == old(m.numGlobals) + n &&
                Numbered(old(m.defs), m.defs, old(m.numGlobals), messages[..n])
    {
      NumberedNext(old(m.defs), m.defs, old(m.numGlobals), messages, n);
      m.Create(Message(m.numGlobals), Chars(messages[n] + ['\0']));
    }
    assert messages[..|messages|] == messages;
  }

  // ---- Which names clash ----

  /** The globals of the metadata of some functions. */
  function NumGlobals(fs: seq<Func>): nat {
    if fs == [] then 0
    else
      var f := fs[|fs| - 1];
      NumGlobals(fs[..|fs| - 1]) + 3 + (if f.inputs != [] then 1 else 0) + (if f.outputs != [] then 1 else 0)
  }

  function FirstMessage(program: seq<Func>): nat {
    NumGlobals(Publics(program)) + 2
  }

  /** A name kept for the module as a whole. */
  ghost predicate Reserved(program: seq<Func>, name: string) {
    name == ABORT_IF || name == FUNC_DESCRIPTORS || name == MODULE_DESCRIPTOR ||
    exists k: nat ::
      FirstMessage(program) <= k < FirstMessage(program) + |Messages(program)| && name == MESSAGE + Decimal(k)
  }

  /** A name kept for what is emitted for `g`. */
  predicate ReservedFor(name: string, g: Func) {
    name == CONSTANT + g.name || (g.inputs != [] && name == CONSTANT + (INPUT_SHAPES + g.name)) ||
    (g.outputs != [] && name == CONSTANT + (OUTPUT_SHAPES + g.name)) || name == INPUT_DESCRIPTORS + g.name ||
    name == OUTPUT_DESCRIPTORS + g.name || name == WRAPPER + g.name
  }

  /** The name constant of `f` is spelled like a shapes constant of `g`. */
  predicate ShapesClash(f: Func, g: Func) {
    f.isPublic && ((g.inputs != [] && f.name == INPUT_SHAPES + g.name) ||
                   (g.outputs != [] && f.name == OUTPUT_SHAPES + g.name))
  }

  predicate NameClash(f: Func, g: Func) {
    g.isPublic && (ReservedFor(f.name, g) || ShapesClash(f, g))
  }

  /**
   Some function, public or not, has a name that is kept for the module or for what is emitted for a
   public function, or two public functions have clashing constants.
   */
  ghost predicate NamesClash(program: seq<Func>) {
    (exists f :: f in program && Reserved(program, f.name)) ||
    exists f, g :: f in program && g in program && NameClash(f, g)
  }

  predicate Owns(f: Func, s: Symbol) {
    match s
    case NameOf(name) => name == f.name
    case InputShapesOf(name) => name == f.name && f.inputs != []
    case OutputShapesOf(name) => name == f.name && f.outputs != []
    case InputDescriptorsOf(name) => name == f.name
    case OutputDescriptorsOf(name) => name == f.name
    case WrapperOf(name) => name == f.name
    case _ => false
  }

  /** The symbols of the finished module. */
  ghost predicate IsDefined(program: seq<Func>, s: Symbol) {
    match s
    case Function(name) => exists f :: f in program && f.name == name
    case Message(k) => FirstMessage(program) <= k < FirstMessage(program) + |Messages(program)|
    case AbortIf => true
    case FuncDescriptors => true
    case ModuleDescriptor => true
    case _ => exists f :: f in program && f.isPublic && Owns(f, s)
  }

  /** A symbol is defined twice exactly when names clash. */
  lemma CoincidingSymbols(program: seq<Func>, defs: map<Symbol, Content>)
    requires forall s :: s in defs <==> IsDefined(program, s)
    ensures Coincide(defs) <==> NamesClash(program)
  {
    if Coincide(defs) {
      var a, b :| a in defs && b in defs && a != b && Spelling(a) == Spelling(b);
      SpelledAlike(a, b);
      if Imitates(a, b) { ImitationClashes(program, a, b); } else { ImitationClashes(program, b, a); }
    }
    if f :| f in program && Reserved(program, f.name) { ReservedCoincides(program, defs, f); }
    if f, g :| f in program && g in program && NameClash(f, g) { ClashCoincides(program, defs, f, g); }
  }

  lemma ImitationClashes(program: seq<Func>, a: Symbol, b: Symbol)
    requires IsDefined(program, a) && IsDefined(program, b) && Imitates(a, b)
    ensures NamesClash(program)
  {
    if a.Function? {
      var f :| f in program && f.name == a.name;
      if !b.AbortIf? && !b.FuncDescriptors? && !b.ModuleDescriptor? && !b.Message? {
        var g :| g in program && g.isPublic && Owns(g, b);
        assert NameClash(f, g);
      } else {
        assert Reserved(program, f.name);
      }
    } else {
      var f :| f in program && f.isPublic && Owns(f, a);
      var g :| g in program && g.isPublic && Owns(g, b);
      assert NameClash(f, g);
    }
  }

  lemma ReservedCoincides(program: seq<Func>, defs: map<Symbol, Content>, f: Func)
    requires forall s :: s in defs <==> IsDefined(program, s)
    requires f in program && Reserved(program, f.name)
    ensures Coincide(defs)
  {
    var a := Function(f.name);
    var b := if f.name == ABORT_IF then AbortIf else if f.name == FUNC_DESCRIPTORS then FuncDescriptors
      else if f.name == MODULE_DESCRIPTOR then ModuleDescriptor else
        var k: nat :| FirstMessage(program) <= k < FirstMessage(program) + |Messages(program)| &&
            f.name == MESSAGE + Decimal(k);
        Message(k);
    assert IsDefined(program, a) && IsDefined(program, b) && Spelling(a) == Spelling(b);
  }

  lemma ClashCoincides(program: seq<Func>, defs: map<Symbol, Content>, f: Func, g: Func)
    requires forall s :: s in defs <==> IsDefined(program, s)
    requires f in program && g in program && NameClash(f, g)
    ensures Coincide(defs)
  {
    var a := if ReservedFor(f.name, g) then Function(f.name) else NameOf(f.name);
    var b :=
      if !ReservedFor(f.name, g) then
        if g.inputs != [] && f.name == INPUT_SHAPES + g.name then InputShapesOf(g.name) else OutputShapesOf(g.name)
      else if f.name == CONSTANT + g.name then NameOf(g.name)
      else if g.inputs != [] && f.name == CONSTANT + (INPUT_SHAPES + g.name) then InputShapesOf(g.name)
      else if g.outputs != [] && f.name == CONSTANT + (OUTPUT_SHAPES + g.name) then OutputShapesOf(g.name)
      else if f.name == INPUT_DESCRIPTORS + g.name then InputDescriptorsOf(g.name)
      else if f.name == OUTPUT_DESCRIPTORS + g.name then OutputDescriptorsOf(g.name)
      else WrapperOf(g.name);
    assert g.isPublic && Owns(g, b) && (a.NameOf? ==> f.isPublic && Owns(f, a));
    assert IsDefined(program, a) && IsDefined(program, b) && Spelling(a) == Spelling(b) && a != b;
  }

  lemma EmittedMeansOwned(program: seq<Func>, ds: seq<FuncMetadata>, s: Symbol)
    requires EncodesAll(Publics(program), ds)
    ensures EmittedBy(ds, s) <==> exists f :: f in program && f.isPublic && Owns(f, s)
  {
    var fs := Publics(program);
    PublicsAreThePublic(program);
    if EmittedBy(ds, s) {
      var d :| d in ds && Emission(d, s).Some?;
      var i :| 0 <= i < |ds| && ds[i] == d;
      assert EncodesFunc(fs[i], ds[i]) && fs[i] in fs && Owns(fs[i], s);
    }
    if f :| f in program && f.isPublic && Owns(f, s) {
      assert f in fs;
      var i :| 0 <= i < |fs| && fs[i] == f;
      assert EncodesFunc(fs[i], ds[i]) && ds[i] in ds && Emission(ds[i], s).Some?;
    }
  }

  lemma {:induction false} PublicsAreThePublic(program: seq<Func>)
    ensures forall f :: f in Publics(program) <==> f in program && f.isPublic
  {
    if program != [] {
      var front, last := program[..|program| - 1], program[|program| - 1];
      PublicsAreThePublic(front);
      assert program == front + [last];
    }
  }

  lemma {:induction false} GlobalsAreCounted(fs: seq<Func>, ds: seq<FuncMetadata>)
    requires EncodesAll(fs, ds)
    ensures NumConstants(ds) + 2 * |ds| == NumGlobals(fs)
  {
    if fs != [] {
      var n := |fs| - 1;
      assert EncodesFunc(fs[n], ds[n]);
      assert forall i | 0 <= i < n :: fs[..n][i] == fs[i] && ds[..n][i] == ds[i];
      GlobalsAreCounted(fs[..n], ds[..n]);
    }
  }

  // ---- The image the runtime sees ----

  /** The shape behind the pointer of a descriptor is that of its argument. */
  ghost predicate ArgFits(image: map<string, Content>, t: AbiType, d: ArgDescriptor) {
    Supported(t) && d.abiType == AbiCode(t) && d.elementType == ElementCode(t) && d.rank == ToU32(RankOf(t)) &&
    d.extents.symbol in image && image[d.extents.symbol].Ints? &&
    d.extents.offset + MAX_RANK <= |image[d.extents.symbol].ints| &&
    image[d.extents.symbol].ints[d.extents.offset..d.extents.offset + MAX_RANK] == Extents(t)
  }

  ghost predicate ArgsFit(image: map<string, Content>, ts: seq<AbiType>, symbol: string) {
    symbol in image && image[symbol].Args? && |image[symbol].args| == |ts| &&
    forall i | 0 <= i < |ts| :: ArgFits(image, ts[i], image[symbol].args[i])
  }

  ghost predicate FuncFits(image: map<string, Content>, f: Func, d: FuncDescriptor) {
    d.name.symbol in image && image[d.name.symbol] == Chars(f.name) && d.name.offset == 0 && d.nameLen == |f.name| &&
    d.entry in image && image[d.entry] == Calls(f.name) &&
    d.numInputs == |f.inputs| && d.numOutputs == |f.outputs| &&
    ArgsFit(image, f.inputs, d.inputDescriptors) && ArgsFit(image, f.outputs, d.outputDescriptors)
  }

  /** From the module descriptor every function and argument is reached. */
  ghost predicate ImageOf(fs: seq<Func>, image: map<string, Content>) {
    MODULE_DESCRIPTOR in image && image[MODULE_DESCRIPTOR] == Info(|fs|, FUNC_DESCRIPTORS) &&
    FUNC_DESCRIPTORS in image && image[FUNC_DESCRIPTORS].Funcs? && |image[FUNC_DESCRIPTORS].funcs| == |fs| &&
    forall i | 0 <= i < |fs| :: FuncFits(image, fs[i], image[FUNC_DESCRIPTORS].funcs[i])
  }

  lemma ArgsAreFound(image: map<string, Content>, ts: seq<AbiType>, a: Option<ArgsAttributes>, shapes: string,
                     symbol: string)
    requires (a.Some? <==> ts != []) &&
             (a.Some? ==> Encodes(ts, a.value) && shapes in image && image[shapes] == Ints(a.value.shapes))
    requires symbol in image && image[symbol] == Args(Descriptors(a, shapes))
    ensures ArgsFit(image, ts, symbol)
  {
    forall i | 0 <= i < |ts| ensures ArgFits(image, ts[i], image[symbol].args[i]) {
      assert EncodesAt(ts[i], a.value, i);
      assert i * MAX_RANK == MAX_RANK * i;
    }
  }

  /** What the definitions of one function amount to once no symbol is defined twice. */
  lemma FuncIsFound(image: map<string, Content>, defs: map<Symbol, Content>, f: Func, d: FuncMetadata)
    requires EncodesFunc(f, d) && forall s <- defs :: Spelling(s) in image && image[Spelling(s)] == defs[s]
    requires forall s | Emission(d, s).Some? :: s in defs && defs[s] == Emission(d, s).value
    ensures FuncFits(image, f, FuncDescriptorOf(d, Spelling(WrapperOf(f.name))))
  {
    var n := f.name;
    assert Emission(d, NameOf(n)).Some? && Emission(d, WrapperOf(n)).Some?;
    assert Emission(d, InputDescriptorsOf(n)).Some? && Emission(d, OutputDescriptorsOf(n)).Some?;
    if d.inputs.Some? { assert Emission(d, InputShapesOf(n)).Some?; }
    if d.outputs.Some? { assert Emission(d, OutputShapesOf(n)).Some?; }
    ArgsAreFound(image, f.inputs, d.inputs, Spelling(InputShapesOf(n)), Spelling(InputDescriptorsOf(n)));
    ArgsAreFound(image, f.outputs, d.outputs, Spelling(OutputShapesOf(n)), Spelling(OutputDescriptorsOf(n)));
  }

  /** The definitions after each step of the lowering. */
  ghost predicate Steps(program: seq<Func>, ds: seq<FuncMetadata>, functions: map<Symbol, Content>,
                        lowered: map<Symbol, Content>, numbered: map<Symbol, Content>, finished: map<Symbol, Content>)
  {
    AreFunctions(program, functions) && Lowered(functions[AbortIf := Declaration], lowered, ds) &&
    Numbered(lowered, numbered, FirstMessage(program), Messages(program)) &&
    Wrapped(numbered, finished, ds)
  }

  /** What is in the table, by the metadata. */
  ghost predicate InTable(program: seq<Func>, ds: seq<FuncMetadata>, s: Symbol) {
    match s
    case Function(name) => exists f :: f in program && f.name == name
    case Message(k) => FirstMessage(program) <= k < FirstMessage(program) + |Messages(program)|
    case AbortIf => true
    case FuncDescriptors => true
    case ModuleDescriptor => true
    case _ => EmittedBy(ds, s)
  }

  lemma StepsFill(program: seq<Func>, ds: seq<FuncMetadata>, functions: map<Symbol, Content>,
                  lowered: map<Symbol, Content>, numbered: map<Symbol, Content>, finished: map<Symbol, Content>,
                  s: Symbol)
    requires Steps(program, ds, functions, lowered, numbered, finished)
    ensures s in finished <==> InTable(program, ds, s)
  {
  }

  /** All that has to be there, under the symbol it belongs to. */
  ghost predicate Complete(ds: seq<FuncMetadata>, defs: map<Symbol, Content>) {
    (forall d, s | d in ds && Emission(d, s).Some? :: s in defs && defs[s] == Emission(d, s).value) &&
    ModuleDescriptor in defs && defs[ModuleDescriptor] == Info(|ds|, FUNC_DESCRIPTORS) &&
    FuncDescriptors in defs && defs[FuncDescriptors].Funcs? && |defs[FuncDescriptors].funcs| == |ds| &&
    forall n | 0 <= n < |ds| ::
      defs[FuncDescriptors].funcs[n] == FuncDescriptorOf(ds[n], Spelling(WrapperOf(ds[n].funcName)))
  }

  lemma StepsComplete(program: seq<Func>, ds: seq<FuncMetadata>, functions: map<Symbol, Content>,
                      lowered: map<Symbol, Content>, numbered: map<Symbol, Content>, finished: map<Symbol, Content>)
    requires Steps(program, ds, functions, lowered, numbered, finished)
    ensures Complete(ds, finished)
  {
    assert ModuleDescriptor in lowered && ModuleDescriptor in numbered;
    forall d, s | d in ds && Emission(d, s).Some? ensures s in finished && finished[s] == Emission(d, s).value {
      StepsEmit(program, ds, functions, lowered, numbered, finished, d, s);
    }
  }

  lemma TableClash(program: seq<Func>, ds: seq<FuncMetadata>, defs: map<Symbol, Content>)
    requires EncodesAll(Publics(program), ds) && forall s :: s in defs <==> InTable(program, ds, s)
    ensures Coincide(defs) <==> NamesClash(program)
  {
    forall s ensures InTable(program, ds, s) <==> IsDefined(program, s) { TableIsDefined(program, ds, s); }
    CoincidingSymbols(program, defs);
  }

  lemma TableIsDefined(program: seq<Func>, ds: seq<FuncMetadata>, s: Symbol)
    requires EncodesAll(Publics(program), ds)
    ensures InTable(program, ds, s) <==> IsDefined(program, s)
  {
    EmittedMeansOwned(program, ds, s);
  }

  lemma StepsEmit(program: seq<Func>, ds: seq<FuncMetadata>, functions: map<Symbol, Content>,
                  lowered: map<Symbol, Content>, numbered: map<Symbol, Content>, finished: map<Symbol, Content>,
                  d: FuncMetadata, s: Symbol)
    requires Steps(program, ds, functions, lowered, numbered, finished) && d in ds && Emission(d, s).Some?
    ensures s in finished && finished[s] == Emission(d, s).value
  {
  }

  /**
   Lowers the module. Verification fails exactly when names clash; otherwise everything is reached
   from the module descriptor.
   */
  method LowerToLLVM(program: seq<Func>, ds: seq<FuncMetadata>) returns (r: Option<map<string, Content>>)
    requires forall i, j | 0 <= i < j < |program| :: program[i].name != program[j].name
    requires EncodesAll(Publics(program), ds)
    ensures r.None? <==> NamesClash(program)
    ensures r.Some? ==> ImageOf(Publics(program), r.value) && HoldsCode(program, r.value)
    ensures r.Some? ==> Holds(r.value, "_mlir___npcomp_module_descriptor",
                              Info(|Publics(program)|, "__npcomp_func_descriptors"))
    ensures r.Some? ==> forall f <- Publics(program) :: HoldsSymbols(r.value, f)
  {
    var m := new Module();
    ghost var functions, lowered, numbered := EmitModule(m, program, ds);
    ReplayAgrees(m.history);
    StepsGiveImage(program, ds, functions, lowered, numbered, m.defs, m.symbols, m.redefined);
    r := if m.redefined then None else Some(m.symbols);
  }

  /** The passes one after another, on a module without symbols. */
  method EmitModule(m: Module, program: seq<Func>, ds: seq<FuncMetadata>)
    returns (ghost functions: map<Symbol, Content>, ghost lowered: map<Symbol, Content>,
             ghost numbered: map<Symbol, Content>)
    requires forall i, j | 0 <= i < j < |program| :: program[i].name != program[j].name
    requires EncodesAll(Publics(program), ds) && m.Valid() && m.defs == map[] && m.numGlobals == 0
    modifies m
    ensures m.Valid() && Steps(program, ds, functions, lowered, numbered, m.defs)
  {
    MetadataIsRegular(program, ds);
    DefineFunctions(m, program);
    functions := m.defs;
    m.Create(AbortIf, Declaration);
    var descriptors := LowerModuleMetadata(m, ds);
    lowered := m.defs;
    ghost var first := m.numGlobals;
    CreateMessages(m, Messages(program));
    numbered := m.defs;
    CreateWrappers(m, ds, descriptors);
    StepsTaken(program, ds, functions, lowered, first, numbered, m.defs);
  }

  lemma StepsTaken(program: seq<Func>, ds: seq<FuncMetadata>, functions: map<Symbol, Content>,
                   lowered: map<Symbol, Content>, first: nat, numbered: map<Symbol, Content>,
                   finished: map<Symbol, Content>)
    requires AreFunctions(program, functions) && Lowered(functions[AbortIf := Declaration], lowered, ds)
    requires first == FirstMessage(program) && Numbered(lowered, numbered, first, Messages(program))
    requires Wrapped(numbered, finished, ds)
    ensures Steps(program, ds, functions, lowered, numbered, finished)
  {
  }

  lemma StepsGiveImage(program: seq<Func>, ds: seq<FuncMetadata>, functions: map<Symbol, Content>,
                       lowered: map<Symbol, Content>, numbered: map<Symbol, Content>, finished: map<Symbol, Content>,
                       symbols: map<string, Content>, redefined: bool)
    requires EncodesAll(Publics(program), ds) && Agrees(symbols, redefined, finished)
    requires Steps(program, ds, functions, lowered, numbered, finished)
    ensures redefined <==> NamesClash(program)
    ensures !redefined ==> ImageOf(Publics(program), symbols) && HoldsCode(program, symbols)
    ensures !redefined ==> forall f <- Publics(program) :: HoldsSymbols(symbols, f)
  {
    forall s ensures s in finished <==> InTable(program, ds, s) {
      StepsFill(program, ds, functions, lowered, numbered, finished, s);
    }
    StepsComplete(program, ds, functions, lowered, numbered, finished);
    TableMeansImage(program, ds, finished, symbols, redefined);
    StepsDefineCode(program, ds, functions, lowered, numbered, finished);
    if !redefined {
      DefinedIsHeld(program, finished, symbols);
      SymbolsAreHeld(Publics(program), ds, symbols, finished);
    }
  }

  /** What is emitted for a public function, under the names in the object file. */
  ghost predicate HoldsSymbols(image: map<string, Content>, f: Func) {
    Holds(image, "__npcomp_internal_constant_" + f.name, Chars(f.name)) &&
    Holds(image, "__refbackrt_wrapper_" + f.name, Calls(f.name)) &&
    HoldsArgs(image, "__npcomp_input_descriptors_" + f.name, "__npcomp_internal_constant_input_shapes_" + f.name,
              f.inputs) &&
    HoldsArgs(image, "__npcomp_output_descriptors_" + f.name, "__npcomp_internal_constant_output_shapes_" + f.name,
              f.outputs)
  }

  ghost predicate Holds(image: map<string, Content>, symbol: string, c: Content) {
    symbol in image && image[symbol] == c
  }

  /** A descriptor for each argument; their shapes are one constant, if there are any. */
  ghost predicate HoldsArgs(image: map<string, Content>, descriptors: string, shapes: string, ts: seq<AbiType>) {
    descriptors in image && image[descriptors].Args? && |image[descriptors].args| == |ts| &&
    (ts != [] ==> shapes in image && image[shapes].Ints? && |image[shapes].ints| == 6 * |ts|)
  }

  lemma SymbolsAreHeld(fs: seq<Func>, ds: seq<FuncMetadata>, image: map<string, Content>, defs: map<Symbol, Content>)
    requires EncodesAll(fs, ds) && forall d, s | d in ds && Emission(d, s).Some? ::
               s in defs && defs[s] == Emission(d, s).value
    requires forall s <- defs :: Spelling(s) in image && image[Spelling(s)] == defs[s]
    ensures forall f <- fs :: HoldsSymbols(image, f)
  {
    forall f <- fs ensures HoldsSymbols(image, f) {
      var i :| 0 <= i < |fs| && fs[i] == f;
      assert EncodesFunc(f, ds[i]) && ds[i] in ds;
      OwnSymbolsAreHeld(f, ds[i], image, defs);
    }
  }

  lemma OwnSymbolsAreHeld(f: Func, d: FuncMetadata, image: map<string, Content>, defs: map<Symbol, Content>)
    requires EncodesFunc(f, d) && forall s | Emission(d, s).Some? :: s in defs && defs[s] == Emission(d, s).value
    requires forall s <- defs :: Spelling(s) in image && image[Spelling(s)] == defs[s]
    ensures HoldsSymbols(image, f)
  {
    var n := f.name;
    assert Emission(d, NameOf(n)).Some? && Emission(d, WrapperOf(n)).Some?;
    ShapesSpelled(n);
    SymbolsOfArgs(image, defs, d, InputShapesOf(n), InputDescriptorsOf(n), f.inputs, d.inputs);
    SymbolsOfArgs(image, defs, d, OutputShapesOf(n), OutputDescriptorsOf(n), f.outputs, d.outputs);
  }

  lemma SymbolsOfArgs(image: map<string, Content>, defs: map<Symbol, Content>, d: FuncMetadata, shapes: Symbol,
                      descriptors: Symbol, ts: seq<AbiType>, a: Option<ArgsAttributes>)
    requires forall s | Emission(d, s).Some? :: s in defs && defs[s] == Emission(d, s).value
    requires forall s <- defs :: Spelling(s) in image && image[Spelling(s)] == defs[s]
    requires (a.Some? <==> ts != []) && (a.Some? ==> Encodes(ts, a.value))
    requires Emission(d, descriptors) == Some(Args(Descriptors(a, Spelling(shapes))))
    requires a.Some? ==> Emission(d, shapes) == Some(Ints(a.value.shapes))
    ensures HoldsArgs(image, Spelling(descriptors), Spelling(shapes), ts)
  {
  }

  lemma ShapesSpelled(n: string)
    ensures Spelling(InputShapesOf(n)) == "__npcomp_internal_constant_input_shapes_" + n
    ensures Spelling(OutputShapesOf(n)) == "__npcomp_internal_constant_output_shapes_" + n
  {
    assert CONSTANT + INPUT_SHAPES == "__npcomp_internal_constant_input_shapes_";
    assert CONSTANT + OUTPUT_SHAPES == "__npcomp_internal_constant_output_shapes_";
    assert CONSTANT + (INPUT_SHAPES + n) == (CONSTANT + INPUT_SHAPES) + n;
    assert CONSTANT + (OUTPUT_SHAPES + n) == (CONSTANT + OUTPUT_SHAPES) + n;
  }

  /** The functions themselves, the abort function, and the failure messages by number. */
  ghost predicate HoldsCode(program: seq<Func>, image: map<string, Content>) {
    (forall f <- program :: f.name in image && image[f.name] == Code) &&
    Holds(image, "__npcomp_compiler_rt_abort_if", Declaration) &&
    forall n | 0 <= n < |Messages(program)| :: HoldsMessage(program, image, n)
  }

  ghost predicate HoldsMessage(program: seq<Func>, image: map<string, Content>, n: nat)
    requires n < |Messages(program)|
  {
    Holds(image, "__npcomp_string_" + Decimal(FirstMessage(program) + n), Chars(Messages(program)[n] + ['\0']))
  }

  ghost predicate DefinesCode(program: seq<Func>, defs: map<Symbol, Content>) {
    (forall f <- program :: Function(f.name) in defs && defs[Function(f.name)] == Code) &&
    AbortIf in defs && defs[AbortIf] == Declaration &&
    forall n | 0 <= n < |Messages(program)| :: DefinesMessage(program, defs, n)
  }

  ghost predicate DefinesMessage(program: seq<Func>, defs: map<Symbol, Content>, n: nat)
    requires n < |Messages(program)|
  {
    var s := Message(FirstMessage(program) + n);
    s in defs && defs[s] == Chars(Messages(program)[n] + ['\0'])
  }

  lemma StepsDefineCode(program: seq<Func>, ds: seq<FuncMetadata>, functions: map<Symbol, Content>,
                        lowered: map<Symbol, Content>, numbered: map<Symbol, Content>, finished: map<Symbol, Content>)
    requires Steps(program, ds, functions, lowered, numbered, finished)
    ensures DefinesCode(program, finished)
  {
    forall f <- program ensures Function(f.name) in finished && finished[Function(f.name)] == Code {
      StepsKeep(program, ds, functions, lowered, numbered, finished, Function(f.name));
    }
    StepsKeep(program, ds, functions, lowered, numbered, finished, AbortIf);
    forall n | 0 <= n < |Messages(program)| ensures DefinesMessage(program, finished, n) {
      StepsNumber(program, ds, functions, lowered, numbered, finished, n);
    }
  }

  lemma DefinedIsHeld(program: seq<Func>, defs: map<Symbol, Content>, image: map<string, Content>)
    requires DefinesCode(program, defs)
    requires forall s <- defs :: Spelling(s) in image && image[Spelling(s)] == defs[s]
    ensures HoldsCode(program, image)
  {
    forall f <- program ensures f.name in image && image[f.name] == Code {
      assert Spelling(Function(f.name)) == f.name;
    }
    assert Spelling(AbortIf) == ABORT_IF;
    forall n | 0 <= n < |Messages(program)| ensures HoldsMessage(program, image, n) {
      assert DefinesMessage(program, defs, n);
      assert Spelling(Message(FirstMessage(program) + n)) == MESSAGE + Decimal(FirstMessage(program) + n);
    }
  }

  lemma StepsKeep(program: seq<Func>, ds: seq<FuncMetadata>, functions: map<Symbol, Content>,
                  lowered: map<Symbol, Content>, numbered: map<Symbol, Content>, finished: map<Symbol, Content>,
                  s: Symbol)
    requires Steps(program, ds, functions, lowered, numbered, finished)
    requires s.AbortIf? || (s.Function? && exists f <- program :: f.name == s.name)
    ensures s in finished && finished[s] == if s.AbortIf? then Declaration else Code
  {
    var before := functions[AbortIf := Declaration];
    assert s in before && s in lowered && s in numbered;
  }

  lemma StepsNumber(program: seq<Func>, ds: seq<FuncMetadata>, functions: map<Symbol, Content>,
                    lowered: map<Symbol, Content>, numbered: map<Symbol, Content>, finished: map<Symbol, Content>,
                    n: nat)
    requires Steps(program, ds, functions, lowered, numbered, finished) && n < |Messages(program)|
    ensures var s := Message(FirstMessage(program) + n);
            s in finished && finished[s] == Chars(Messages(program)[n] + ['\0'])
  {
    assert Message(FirstMessage(program) + n) in numbered;
  }

  lemma TableMeansImage(program: seq<Func>, ds: seq<FuncMetadata>, defs: map<Symbol, Content>,
                        symbols: map<string, Content>, redefined: bool)
    requires EncodesAll(Publics(program), ds) && (forall s :: s in defs <==> InTable(program, ds, s)) &&
             Complete(ds, defs)
    requires Agrees(symbols, redefined, defs)
    ensures redefined <==> NamesClash(program)
    ensures !redefined ==> ImageOf(Publics(program), symbols)
  {
    TableClash(program, ds, defs);
    if !redefined { ImageIsComplete(Publics(program), ds, symbols, defs); }
  }

  lemma ImageIsComplete(fs: seq<Func>, ds: seq<FuncMetadata>, image: map<string, Content>, defs: map<Symbol, Content>)
    requires EncodesAll(fs, ds) && Complete(ds, defs) &&
             forall s <- defs :: Spelling(s) in image && image[Spelling(s)] == defs[s]
    ensures ImageOf(fs, image)
  {
    assert Spelling(ModuleDescriptor) == MODULE_DESCRIPTOR && Spelling(FuncDescriptors) == FUNC_DESCRIPTORS;
    forall i | 0 <= i < |fs| ensures FuncFits(image, fs[i], image[FUNC_DESCRIPTORS].funcs[i]) {
      assert EncodesFunc(fs[i], ds[i]) && ds[i] in ds;
      FuncIsFound(image, defs, fs[i], ds[i]);
    }
  }

  lemma MetadataIsRegular(program: seq<Func>, ds: seq<FuncMetadata>)
    requires forall i, j | 0 <= i < j < |program| :: program[i].name != program[j].name
    requires EncodesAll(Publics(program), ds)
    ensures UniqueNames(ds) && ArgCounts(ds)
    ensures NumConstants(ds) + 2 * |ds| + 2 == FirstMessage(program)
  {
    PublicsAreMembers(program);
    GlobalsAreCounted(Publics(program), ds);
    forall i | 0 <= i < |ds| ensures EncodesFunc(Publics(program)[i], ds[i]) {}
  }

  // ---- Decoding ----

  datatype ArgType = NoneArg | TensorArg | F32Arg | F64Arg

  datatype ElementType = NoneElement | F32Element

  // Only the first `rank` extents are written.
  datatype ArgInfo = ArgInfo(argType: ArgType, elementType: ElementType, rank: int, extents: seq<int>)

  class FunctionMetadata {
    var numInputs: nat
    var numOutputs: nat
    const inputArgInfos: array<ArgInfo>
    const outputArgInfos: array<ArgInfo>

    constructor ()
      ensures fresh(inputArgInfos) && fresh(outputArgInfos) && Valid()
    {
      numInputs, numOutputs := 0, 0;
      inputArgInfos := new ArgInfo[MAX_ARITY](_ => ArgInfo(NoneArg, NoneElement, 0, []));
      outputArgInfos := new ArgInfo[MAX_ARITY](_ => ArgInfo(NoneArg, NoneElement, 0, []));
    }

    ghost predicate Valid()
      reads this
    {
      inputArgInfos.Length == outputArgInfos.Length == MAX_ARITY && inputArgInfos != outputArgInfos
    }
  }

  /** What a caller of the runtime should learn about an argument. */
  function InfoOf(t: AbiType): ArgInfo {
    match t
    case Memref(shape, _) =>
      ArgInfo(TensorArg, F32Element, |shape|, seq(|shape|, i requires 0 <= i < |shape| => Extent(shape[i])))
    case UnrankedMemref(_) => ArgInfo(TensorArg, F32Element, -1, [])
    case Float(width) => ArgInfo(if width == 32 then F32Arg else F64Arg, NoneElement, 0, [])
    case Inexpressible => ArgInfo(NoneArg, NoneElement, 0, [])
  }

  /** What a caller is told: the kind of the argument, its rank, and its extents as far as there are any. */
  ghost predicate Tells(info: ArgInfo, t: AbiType) {
    (info.argType == F32Arg <==> t == Float(32)) && (info.argType == F64Arg <==> t == Float(64)) &&
    (info.argType == TensorArg <==> t.Memref? || t.UnrankedMemref?) &&
    (info.elementType == F32Element <==> t.Memref? || t.UnrankedMemref?) &&
    info.rank == (if t.Memref? then |t.shape| else if t.UnrankedMemref? then -1 else 0) &&
    |info.extents| == (if t.Memref? then |t.shape| else 0) &&
    forall i | 0 <= i < |info.extents| :: ExtentWritten(t.shape[i], info.extents[i])
  }

  lemma TruncateIsUnique(n: int, r: int)
    requires IsI32(r) && (r - n) % 0x1_0000_0000 == 0
    ensures r == Truncate(n)
  {
  }

  /** That is all there is to know. */
  lemma InfoIsTold(info: ArgInfo, t: AbiType)
    requires Supported(t) && !t.Inexpressible?
    ensures Tells(info, t) <==> info == InfoOf(t)
  {
    if Tells(info, t) {
      forall i | 0 <= i < |info.extents| ensures info.extents[i] == InfoOf(t).extents[i] {
        if t.shape[i].Static? { TruncateIsUnique(t.shape[i].extent, info.extents[i]); }
      }
      assert info.extents == InfoOf(t).extents;
    }
  }

  /** Static extents are small enough for their 32-bit slots. */
  predicate FitsSlots(t: AbiType) {
    t.Memref? ==> forall d <- t.shape :: d.Static? ==> d.extent < TWO_TO_THE_31
  }

  /** Then, and only then, a caller learns the extents as they are. */
  lemma ExtentsSurvive(t: AbiType)
    requires t.Memref?
    ensures InfoOf(t).extents ==
            seq(|t.shape|, i requires 0 <= i < |t.shape| => if t.shape[i].Static? then t.shape[i].extent else -1)
      <==> FitsSlots(t)
  {
    var right := seq(|t.shape|, i requires 0 <= i < |t.shape| => if t.shape[i].Static? then t.shape[i].extent else -1);
    forall i | 0 <= i < |t.shape| && t.shape[i].Static?
      ensures InfoOf(t).extents[i] == right[i] <==> t.shape[i].extent < TWO_TO_THE_31
    {
      assert t.shape[i] in t.shape;
    }
    if InfoOf(t).extents == right {
      forall d | d in t.shape && d.Static? ensures d.extent < TWO_TO_THE_31 {
        var i :| 0 <= i < |t.shape| && t.shape[i] == d;
        assert InfoOf(t).extents[i] == right[i];
      }
    }
  }

  /** An extent that does not fit may read as a dynamic one. */
  lemma LargeExtentReadsAsDynamic()
    ensures InfoOf(Memref([Static(0xFFFF_FFFF)], FloatElement(32))) == InfoOf(Memref([Dynamic], FloatElement(32)))
  {
    var large, dynamic := Memref([Static(0xFFFF_FFFF)], FloatElement(32)), Memref([Dynamic], FloatElement(32));
    assert InfoOf(large).extents == [-1] == InfoOf(dynamic).extents;
  }

  /** A memref with elements that are no floats. */
  predicate HasOtherElements(t: AbiType) {
    (t.Memref? || t.UnrankedMemref?) && t.element.OtherElement?
  }

  /** The element type that goes with a code. */
  function ElementOf(code: int): ElementType {
    if code == 1 then F32Element else NoneElement
  }

  /** A caller learns the element type the compiler wrote exactly if it is not that of such a memref. */
  lemma ElementsSurvive(t: AbiType)
    requires Supported(t) && !t.Inexpressible?
    ensures InfoOf(t).elementType == ElementOf(ElementCode(t)) <==> !HasOtherElements(t)
  {
  }

  /** Otherwise what is learned determines the argument: kind, rank, and every extent, dynamic ones included. */
  lemma InfoDeterminesType(a: AbiType, b: AbiType)
    requires InfoOf(a) == InfoOf(b) && FitsSlots(a) && FitsSlots(b) && Supported(a) && Supported(b)
    requires !HasOtherElements(a) && !HasOtherElements(b)
    ensures a == b
  {
    if a.Memref? {
      assert |a.shape| == |b.shape|;
      forall i | 0 <= i < |a.shape| ensures a.shape[i] == b.shape[i] {
        assert InfoOf(a).extents[i] == InfoOf(b).extents[i];
      }
      assert a.shape == b.shape;
    }
  }

  /** Decodes one descriptor. */
  method GetExternalArgInfo(image: map<string, Content>, d: ArgDescriptor, ghost t: AbiType) returns (r: ArgInfo)
    requires ArgFits(image, t, d) && !t.Inexpressible?
    ensures r == InfoOf(t) && Tells(r, t)
  {
    var argType, elementType;
    match d.abiType {
      case 1 => argType, elementType := TensorArg, F32Element;
      case 2 => argType, elementType := F32Arg, NoneElement;
      case 3 => argType, elementType := F64Arg, NoneElement;
      case _ => argType, elementType := NoneArg, NoneElement;
    }
    var rank := ToI32(d.rank);
    var extents, i := [], 0;
    while i < rank
      invariant 0 <= i && |extents| == i && (i <= rank || (i == 0 && rank < 0))
      invariant forall j | 0 <= j < i :: extents[j] == Extents(t)[j]
      decreases rank - i
    {
      assert image[d.extents.symbol].ints[d.extents.offset..d.extents.offset + MAX_RANK][i] == Extents(t)[i];
      extents := extents + [image[d.extents.symbol].ints[d.extents.offset + i]];
      i := i + 1;
    }
    r := ArgInfo(argType, elementType, rank, extents);
    InfoIsTold(r, t);
  }

  /** The first function of that name. */
  method GetFuncDescriptor(image: map<string, Content>, name: string, ghost fs: seq<Func>) returns (r: Option<nat>)
    requires ImageOf(fs, image)
    ensures r.Some? ==> r.value < |fs| && fs[r.value].name == name
    ensures r.None? ==> forall f <- fs :: f.name != name
  {
    var descriptor := image[MODULE_DESCRIPTOR];
    var funcs := image[descriptor.functionDescriptors].funcs;
    for i := 0 to descriptor.numFuncDescriptors
      invariant forall j | 0 <= j < i :: fs[j].name != name
    {
      var d := funcs[i];
      assert FuncFits(image, fs[i], d);
      if image[d.name.symbol].chars[..d.nameLen] == name { return Some(i); }
    }
    r := None;
  }

  ghost predicate Decoded(ts: seq<AbiType>, infos: seq<ArgInfo>, n: nat) {
    n == |ts| <= |infos| && forall i | 0 <= i < n :: Tells(infos[i], ts[i])
  }

  /** Fails iff no function has that name; otherwise every argument of the function is recovered. */
  method GetMetadata(image: map<string, Content>, name: string, out: FunctionMetadata, ghost fs: seq<Func>)
    returns (ok: bool, ghost k: nat)
    requires ImageOf(fs, image) && out.Valid() && forall f <- fs :: SupportedFunc(f) && Expressible(f)
    modifies out, out.inputArgInfos, out.outputArgInfos
    ensures !ok <==> forall f <- fs :: f.name != name
    ensures ok ==> k < |fs| && fs[k].name == name
    ensures ok ==> Decoded(fs[k].inputs, out.inputArgInfos[..], out.numInputs) &&
                   Decoded(fs[k].outputs, out.outputArgInfos[..], out.numOutputs)
  {
    k := 0;
    var found := GetFuncDescriptor(image, name, fs);
    if found.None? { return false, k; }
    k := found.value;
    var d := image[image[MODULE_DESCRIPTOR].functionDescriptors].funcs[found.value];
    assert FuncFits(image, fs[k], d) && fs[k] in fs && SupportedFunc(fs[k]) && Expressible(fs[k]);
    out.numInputs := d.numInputs;
    out.numOutputs := d.numOutputs;
    DecodeArgs(image, image[d.inputDescriptors].args, out.inputArgInfos, fs[k].inputs, d.inputDescriptors);
    DecodeArgs(image, image[d.outputDescriptors].args, out.outputArgInfos, fs[k].outputs, d.outputDescriptors);
    ok := true;
  }

  method DecodeArgs(image: map<string, Content>, ds: seq<ArgDescriptor>, infos: array<ArgInfo>, ghost ts: seq<AbiType>,
                    ghost symbol: string)
    requires ArgsFit(image, ts, symbol) && ds == image[symbol].args && |ts| <= infos.Length &&
             forall t <- ts :: !t.Inexpressible?
    modifies infos
    ensures Decoded(ts, infos[..], |ts|)
  {
    for i := 0 to |ds|
      invariant forall j | 0 <= j < i :: Tells(infos[j], ts[j])
    {
      assert ArgFits(image, ts[i], ds[i]) && ts[i] in ts;
      infos[i] := GetExternalArgInfo(image, ds[i], ts[i]);
    }
  }

  // ---- End to end ----

  datatype Answer = NotExpressible | SymbolClash | NoSuchFunction | Found

  /**
   Compiles a module and asks the runtime for a signature. Every failure has its cause, and a
   success recovers every argument of the function.
   */
  method CompileAndQuery(program: seq<Func>, name: string, out: FunctionMetadata) returns (r: Answer, ghost f: Func)
    requires (forall f <- program :: SupportedFunc(f)) &&
             (forall i, j | 0 <= i < j < |program| :: program[i].name != program[j].name)
    requires out.Valid()
    modifies out, out.inputArgInfos, out.outputArgInfos
    ensures r.NotExpressible? <==> exists g <- program :: g.isPublic && (Inexpressible in g.inputs + g.outputs)
    ensures r.SymbolClash? <==> !r.NotExpressible? && NamesClash(program)
    ensures r.NoSuchFunction? <==>
            !r.NotExpressible? && !r.SymbolClash? && forall g <- program :: g.isPublic ==> g.name != name
    ensures r.Found? ==> f in program && f.isPublic && f.name == name
    ensures r.Found? ==> Decoded(f.inputs, out.inputArgInfos[..], out.numInputs)
    ensures r.Found? ==> Decoded(f.outputs, out.outputArgInfos[..], out.numOutputs)
  {
    f := Func(name, false, [], [], []);
    PublicsAreMembers(program);
    PublicsAreThePublic(program);
    ghost var fs := Publics(program);
    var metadatas := CreateModuleMetadata(program);
    if metadatas.None? { return NotExpressible, f; }
    var image := LowerToLLVM(program, metadatas.value);
    if image.None? { return SymbolClash, f; }
    var ok;
    ghost var k;
    ok, k := GetMetadata(image.value, name, out, fs);
    r := if ok then Found else NoSuchFunction;
    if ok { f := fs[k]; }
  }

  lemma {:induction false} PublicsAreMembers(program: seq<Func>)
    requires forall i, j | 0 <= i < j < |program| :: program[i].name != program[j].name
    ensures forall f <- Publics(program) :: f in program
    ensures forall i, j | 0 <= i < j < |Publics(program)| :: Publics(program)[i].name != Publics(program)[j].name
  {
    if program != [] {
      var front, last := program[..|program| - 1], program[|program| - 1];
      PublicsAreMembers(front);
      forall f <- Publics(front) ensures f in program && f.name != last.name {
        var i :| 0 <= i < |front| && front[i] == f;
        assert program[i] == f;
      }
    }
  }

  /** Uniquely named public functions that clash: the second is spelled like a constant of the first. */
  lemma UniqueNamesMayClash()
    ensures NamesClash([Func("f", true, [Float(32)], [], []), Func("input_shapes_f", true, [], [], [])])
  {
    var f, g := Func("f", true, [Float(32)], [], []), Func("input_shapes_f", true, [], [], []);
    assert INPUT_SHAPES + "f" == "input_shapes_f";
    assert NameClash(g, f) && f in [f, g] && g in [f, g];
  }

  /** So does a private function named like the symbol of a name constant. */
  lemma PrivateNamesMayClash()
    ensures NamesClash([Func("f", true, [], [], []), Func("__npcomp_internal_constant_f", false, [], [], [])])
  {
    var f, g := Func("f", true, [], [], []), Func("__npcomp_internal_constant_f", false, [], [], []);
    assert CONSTANT + "f" == "__npcomp_internal_constant_f";
    assert NameClash(g, f) && f in [f, g] && g in [f, g];
  }
}
