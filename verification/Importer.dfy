/**
 Importing a graph of interpreter values by object identity. Models
 frontends/pytorch/csrc/builder/ivalue_importer.cpp.
 */
module Importer {
  import opened Option

  datatype Quantization = Plain | PerTensorAffine(scale: nat, zeroPoint: nat) | OtherScheme

  // A value; other values are referred to by identity, which is their number.
  datatype IValue =
    // Bool, int, float, string or none; `text` spells its kind and value.
    | Constant(text: string)
    | Tensor(storage: nat, data: string, quantization: Quantization)
    | List(elems: seq<nat>)
    | Tuple(elems: seq<nat>)
    | Module(className: string, unit: nat, slots: seq<nat>)
    | LinearParams(weight: nat, bias: Option<nat>)
    | OtherKind

  type Graph = seq<IValue>

  function Children(o: IValue): seq<nat> {
    match o
    case Tensor(_, _, PerTensorAffine(scale, zeroPoint)) => [scale, zeroPoint]
    case List(elems) => elems
    case Tuple(elems) => elems
    case Module(_, _, slots) => slots
    case LinearParams(weight, Some(bias)) => [weight, bias]
    case LinearParams(weight, None) => [weight]
    case _ => []
  }

  predicate BelowAll(ids: seq<nat>, bound: nat) {
    forall c <- ids :: c < bound
  }

  /** Values only refer to earlier ones, so there are no cycles. */
  predicate Acyclic(g: Graph) {
    forall i | 0 <= i < |g| :: BelowAll(Children(g[i]), i)
  }

  // ---- What can be imported ----

  /** Everything an import of `i` meets. */
  ghost function Reach(g: Graph, i: nat): (s: set<nat>)
    requires Acyclic(g) && i < |g|
    ensures i in s && forall j <- s :: j <= i
    decreases i, 1, 0
  {
    {i} + ReachAll(g, Children(g[i]), i)
  }

  ghost function ReachAll(g: Graph, ids: seq<nat>, bound: nat): (s: set<nat>)
    requires Acyclic(g) && bound <= |g| && BelowAll(ids, bound)
    ensures forall j <- s :: j < bound
    decreases bound, 0, |ids|
  {
    if ids == [] then {}
    else
      var front, last := ids[..|ids| - 1], ids[|ids| - 1];
      assert last in ids && forall c <- front :: c in ids;
      ReachAll(g, front, bound) + Reach(g, last)
  }

  predicate IsSupported(o: IValue) {
    !o.OtherKind? && (o.Tensor? ==> !o.quantization.OtherScheme?)
  }

  predicate SharesStorage(g: Graph, i: nat, j: nat) {
    i < |g| && j < |g| && i != j && g[i].Tensor? && g[j].Tensor? && g[i].storage == g[j].storage
  }

  predicate UnitsDiffer(g: Graph, i: nat, j: nat) {
    i < |g| && j < |g| && g[i].Module? && g[j].Module? && g[i].unit != g[j].unit
  }

  ghost predicate HasUnsupported(g: Graph, s: set<nat>) {
    exists i <- s :: i < |g| && !IsSupported(g[i])
  }

  ghost predicate HasAliases(g: Graph, s: set<nat>) {
    exists i, j :: i in s && j in s && SharesStorage(g, i, j)
  }

  ghost predicate HasTwoUnits(g: Graph, s: set<nat>) {
    exists i, j :: i in s && j in s && UnitsDiffer(g, i, j)
  }

  datatype Error = Unsupported | PotentiallyAliased | TwoCompilationUnits

  ghost predicate Cause(g: Graph, s: set<nat>, e: Error) {
    match e
    case Unsupported => HasUnsupported(g, s)
    case PotentiallyAliased => HasAliases(g, s)
    case TwoCompilationUnits => HasTwoUnits(g, s)
  }

  ghost predicate Importable(g: Graph, s: set<nat>) {
    !HasUnsupported(g, s) && !HasAliases(g, s) && !HasTwoUnits(g, s)
  }

  lemma ImportableShrinks(g: Graph, small: set<nat>, big: set<nat>)
    requires small <= big
    ensures Importable(g, big) ==> Importable(g, small)
    ensures forall e :: Cause(g, small, e) ==> Cause(g, big, e)
  {
  }

  // ---- What is emitted ----

  // Operands are positions in the block.
  datatype Op =
    | ConstantOp(text: string)
    | TensorLiteral(data: string)
    | PerTensorAffineCreate(repr: nat, scale: nat, zeroPoint: nat)
    | ListConstruct(elems: seq<nat>)
    | TupleConstruct(elems: seq<nat>)
    | NnModule(className: string, slots: seq<nat>)
    | LinearParamsCreate(weight: nat, bias: Option<nat>)
    | ClassTypeOp(className: string)
    | Funcs(unit: nat)

  function Operands(op: Op): seq<nat> {
    match op
    case PerTensorAffineCreate(r, s, z) => [r, s, z]
    case ListConstruct(elems) => elems
    case TupleConstruct(elems) => elems
    case NnModule(_, slots) => slots
    case LinearParamsCreate(w, Some(b)) => [w, b]
    case LinearParamsCreate(w, None) => [w]
    case _ => []
  }

  type Values = map<nat, nat>

  predicate AllMapped(values: Values, ids: seq<nat>) {
    forall c <- ids :: c in values
  }

  function Mapped(values: Values, ids: seq<nat>): (r: seq<nat>)
    requires AllMapped(values, ids)
  {
    seq(|ids|, k requires 0 <= k < |ids| => values[ids[k]])
  }

  /** Position `v` defines the value `o`: same kind and contents, and its parts are the definitions of its parts. */
  ghost predicate Defines(values: Values, block: seq<Op>, o: IValue, v: nat) {
    v < |block| && AllMapped(values, Children(o)) && (forall u <- Operands(block[v]) :: u < v) &&
    match o
    case Constant(text) => block[v] == ConstantOp(text)
    case Tensor(_, data, Plain) => block[v] == TensorLiteral(data)
    case Tensor(_, data, PerTensorAffine(scale, zeroPoint)) =>
      block[v].PerTensorAffineCreate? && block[v].repr < v && block[block[v].repr] == TensorLiteral(data) &&
      block[v].scale == values[scale] && block[v].zeroPoint == values[zeroPoint]
    case List(elems) => block[v] == ListConstruct(Mapped(values, elems))
    case Tuple(elems) => block[v] == TupleConstruct(Mapped(values, elems))
    case Module(className, _, slots) => block[v] == NnModule(className, Mapped(values, slots))
    case LinearParams(weight, Some(bias)) => block[v] == LinearParamsCreate(values[weight], Some(values[bias]))
    case LinearParams(weight, None) => block[v] == LinearParamsCreate(values[weight], None)
    case _ => false
  }

  // Why an op is in the block.
  datatype Owner = Main(id: nat) | Literal(of: nat) | Class(name: string) | Unit

  /** Every op is there for a reason of its own, and values are defined where the map says. */
  ghost predicate Emitted(g: Graph, values: Values, block: seq<Op>, owners: seq<Owner>) {
    |owners| == |block| && (forall i, j | 0 <= i < j < |owners| :: owners[i] != owners[j]) &&
    (forall id <- values :: id < |g| && Defines(values, block, g[id], values[id]) && owners[values[id]] == Main(id)) &&
    (forall j | 0 <= j < |owners| :: IsFor(g, values, block, owners[j], j))
  }

  /** Op `j` is what its owner stands for. */
  ghost predicate IsFor(g: Graph, values: Values, block: seq<Op>, owner: Owner, j: nat) {
    j < |block| &&
    match owner
    case Main(id) => id in values && values[id] == j
    case Literal(id) =>
      id < |g| && g[id].Tensor? && g[id].quantization.PerTensorAffine? && block[j] == TensorLiteral(g[id].data)
    case Class(name) => block[j] == ClassTypeOp(name)
    case Unit => block[j].Funcs?
  }

  /** The literals, classes and functions in the block are those that were imported. */
  ghost predicate Booked(entered: set<nat>, unit: Option<nat>, classTypes: set<string>, block: seq<Op>,
                         owners: seq<Owner>)
  {
    |owners| == |block| && (forall i :: Literal(i) in owners ==> i in entered) &&
    (forall n :: Class(n) in owners <==> n in classTypes) && (Unit in owners <==> unit.Some?) &&
    forall j | 0 <= j < |owners| && owners[j] == Unit :: unit.Some? && block[j] == Funcs(unit.value)
  }

  lemma BookNext(entered: set<nat>, unit: Option<nat>, classTypes: set<string>, block: seq<Op>, owners: seq<Owner>,
                 op: Op, owner: Owner)
    requires Booked(entered, unit, classTypes, block, owners) && owner !in owners
    requires (owner.Literal? ==> owner.of in entered) && (owner.Unit? ==> op.Funcs?)
    ensures Booked(entered, if owner.Unit? then Some(op.unit) else unit,
                   if owner.Class? then classTypes + {owner.name} else classTypes, block + [op], owners + [owner])
  {
    var owners' := owners + [owner];
    assert forall o :: o in owners' <==> o in owners || o == owner;
  }

  lemma DefinesStays(values: Values, block: seq<Op>, o: IValue, v: nat, values': Values, block': seq<Op>)
    requires Defines(values, block, o, v) && block <= block' &&
             (forall i <- values :: i in values' && values'[i] == values[i])
    ensures Defines(values', block', o, v)
  {
    assert block'[v] == block[v];
    forall c <- Children(o) ensures c in values' && values'[c] == values[c] {}
    match o {
      case List(elems) => assert Mapped(values', elems) == Mapped(values, elems);
      case Tuple(elems) => assert Mapped(values', elems) == Mapped(values, elems);
      case Module(_, _, slots) => assert Mapped(values', slots) == Mapped(values, slots);
      case _ =>
    }
  }

  /** An op with an owner of its own may be added. */
  lemma AddOp(g: Graph, values: Values, block: seq<Op>, owners: seq<Owner>, op: Op, owner: Owner)
    requires Emitted(g, values, block, owners) && owner !in owners && !owner.Main?
    requires IsFor(g, values, block + [op], owner, |block|)
    ensures Emitted(g, values, block + [op], owners + [owner])
  {
    forall id <- values ensures id < |g| && Defines(values, block + [op], g[id], values[id]) {
      DefinesStays(values, block, g[id], values[id], values, block + [op]);
    }
    forall j | 0 <= j < |owners| ensures IsFor(g, values, block + [op], owners[j], j) {
      assert IsFor(g, values, block, owners[j], j);
    }
  }

  /** A value that has no definition yet gets one. */
  lemma AddValue(g: Graph, values: Values, block: seq<Op>, owners: seq<Owner>, op: Op, id: nat)
    requires Emitted(g, values, block, owners) && id < |g| && id !in values &&
             Defines(values, block + [op], g[id], |block|)
    ensures Main(id) !in owners && Emitted(g, values[id := |block|], block + [op], owners + [Main(id)])
  {
    DefinitionsStay(g, values, block, op, id);
    OwnersStay(g, values, block, owners, op, id);
  }

  lemma DefinitionsStay(g: Graph, values: Values, block: seq<Op>, op: Op, id: nat)
    requires id < |g| && id !in values && Defines(values, block + [op], g[id], |block|)
    requires forall i <- values :: i < |g| && Defines(values, block, g[i], values[i])
    ensures var values' := values[id := |block|];
            forall i <- values' :: i < |g| && Defines(values', block + [op], g[i], values'[i])
  {
    var values' := values[id := |block|];
    forall i <- values' ensures i < |g| && Defines(values', block + [op], g[i], values'[i]) {
      if i == id {
        DefinesStays(values, block + [op], g[id], |block|, values', block + [op]);
      } else {
        DefinesStays(values, block, g[i], values[i], values', block + [op]);
      }
    }
  }

  lemma OwnersStay(g: Graph, values: Values, block: seq<Op>, owners: seq<Owner>, op: Op, id: nat)
    requires |owners| == |block| && (forall j | 0 <= j < |owners| :: IsFor(g, values, block, owners[j], j)) &&
             id !in values
    ensures Main(id) !in owners && forall j | 0 <= j < |owners| ::
              IsFor(g, values[id := |block|], block + [op], owners[j], j)
  {
    forall j | 0 <= j < |owners| ensures owners[j] != Main(id) { assert IsFor(g, values, block, owners[j], j); }
  }

  // ---- The importer ----

  class IValueImporter {
    const g: Graph
    var importBlock: seq<Op>
    var valueMap: Values
    var seenStorageImpls: set<nat>
    var classTypes: set<string>
    var compilationUnit: Option<nat>
    // Values whose import has begun.
    ghost var entered: set<nat>
    ghost var owners: seq<Owner>

    constructor (g: Graph)
      requires Acyclic(g)
      ensures this.g == g && Valid() && entered == {} && valueMap == map[]
    {
      this.g := g;
      importBlock, valueMap, seenStorageImpls, classTypes, compilationUnit := [], map[], {}, {}, None;
      entered, owners := {}, [];
    }

    ghost predicate Valid()
      reads this
    {
      Partial() && forall i <- entered :: i < |g| && (g[i].Module? ==> g[i].className in classTypes)
    }

    /** What also holds before the class of the module entered last has been imported. */
    ghost predicate Partial()
      reads this
    {
      Acyclic(g) && Emitted(g, valueMap, importBlock, owners) && valueMap.Keys <= entered && Importable(g, entered) &&
      Tracked()
    }

    /** The sets describe the values entered so far. */
    ghost predicate Tracked()
      reads this
    {
      (forall i <- entered :: i < |g|) &&
      (forall s :: s in seenStorageImpls <==>
                     exists i :: i in entered && i < |g| && g[i].Tensor? && g[i].storage == s) &&
      (forall u :: compilationUnit == Some(u) ==>
                     exists i :: i in entered && i < |g| && g[i].Module? && g[i].unit == u) &&
      (compilationUnit == None ==> forall i <- entered :: !g[i].Module?) &&
      Booked(entered, compilationUnit, classTypes, importBlock, owners)
    }

    /** Values being imported come after `bound`. */
    ghost predicate Pending(bound: nat)
      reads this
    {
      forall i <- entered :: i !in valueMap ==> i >= bound
    }

    /** Definitions made before are kept. */
    ghost predicate Grown(values: Values, block: seq<Op>)
      reads this
    {
      block <= importBlock && forall i <- values :: i in valueMap && valueMap[i] == values[i]
    }

    /**
     Imports a value unless it was before. It succeeds iff nothing it reaches is unsupported or
     conflicts with what was met before; each error has its cause; and then everything it reaches
     has exactly one definition.
     */
    method ImportIValue(id: nat) returns (value: Option<nat>, ghost error: Error)
      requires Valid() && id < |g| && Pending(id + 1)
      modifies this
      ensures value.Some? <==> Importable(g, old(entered) + Reach(g, id))
      ensures value.None? ==> Cause(g, old(entered) + Reach(g, id), error)
      ensures value.Some? ==> Valid() && id in valueMap && valueMap[id] == value.value &&
                              entered == old(entered) + Reach(g, id)
      ensures value.Some? ==> valueMap.Keys == old(valueMap.Keys) + Reach(g, id) &&
                              Grown(old(valueMap), old(importBlock))
      decreases id, 2
    {
      error := Unsupported;
      if id in valueMap {
        NothingNew(id);
        return Some(valueMap[id]), error;
      }
      ReachParts(g, entered, valueMap.Keys, id);
      var ok;
      ok, error := Enter(id);
      if !ok { return None, error; }
      value, error := RawImportIValue(id);
    }

    /** What a defined value reaches has been met. */
    lemma NothingNew(id: nat)
      requires Valid() && id in valueMap
      ensures id < |g| && entered + Reach(g, id) == entered && valueMap.Keys + Reach(g, id) == valueMap.Keys
    {
      ReachIsMapped(g, valueMap, importBlock, owners, id);
    }

    /** The checks made before anything `id` refers to is imported, and the class and functions of a module. */
    method Enter(id: nat) returns (ok: bool, ghost error: Error)
      requires Valid() && id < |g| && id !in entered
      modifies this
      ensures ok <==> Importable(g, old(entered) + {id})
      ensures !ok ==> Cause(g, old(entered) + {id}, error)
      ensures ok ==> Valid() && entered == old(entered) + {id} && valueMap == old(valueMap) &&
                     old(importBlock) <= importBlock
      ensures ok ==> Literal(id) !in owners
    {
      error := Unsupported;
      match g[id] {
        case Tensor(_, _, _) =>
          ok, error := EnterTensorValue(id);
        case Module(_, _, _) =>
          ok := EnterModuleValue(id);
          error := TwoCompilationUnits;
        case OtherKind =>
          assert id in entered + {id} && !IsSupported(g[id]);
          ok := false;
        case _ =>
          EnterOther(g, entered, id);
          entered := entered + {id};
          ok := true;
      }
    }

    method EnterTensorValue(id: nat) returns (ok: bool, ghost error: Error)
      requires Valid() && id < |g| && id !in entered && g[id].Tensor?
      modifies this`entered, this`seenStorageImpls
      ensures ok <==> Importable(g, old(entered) + {id})
      ensures !ok ==> Cause(g, old(entered) + {id}, error)
      ensures ok ==> Valid() && entered == old(entered) + {id}
    {
      EnterTensor(g, entered, id);
      var o := g[id];
      if o.storage in seenStorageImpls { return false, PotentiallyAliased; }
      if o.quantization.OtherScheme? { return false, Unsupported; }
      seenStorageImpls := seenStorageImpls + {o.storage};
      entered := entered + {id};
      return true, Unsupported;
    }

    method EnterModuleValue(id: nat) returns (ok: bool)
      requires Valid() && id < |g| && id !in entered && g[id].Module?
      modifies this
      ensures ok <==> Importable(g, old(entered) + {id})
      ensures !ok ==> HasTwoUnits(g, old(entered) + {id})
      ensures ok ==> Valid() && entered == old(entered) + {id} && valueMap == old(valueMap) &&
                     old(importBlock) <= importBlock
      ensures ok ==> Literal(id) !in owners
    {
      var o := g[id];
      UnitFits(id);
      if compilationUnit.Some? && compilationUnit.value != o.unit { return false; }
      ImportCompilationUnit(o.unit, id);
      ImportClassType(o.className);
      ok := true;
    }

    /** A module fits iff no other unit has been met. */
    lemma UnitFits(id: nat)
      requires Valid() && id < |g| && id !in entered && g[id].Module?
      ensures Importable(g, entered + {id}) <==> compilationUnit.None? || compilationUnit.value == g[id].unit
      ensures !Importable(g, entered + {id}) ==> HasTwoUnits(g, entered + {id})
    {
      EnterModule(g, entered, id);
    }

    /** Imports the functions of a compilation unit, the first time. */
    method ImportCompilationUnit(unit: nat, ghost id: nat)
      requires Valid() && id < |g| && g[id].Module? && g[id].unit == unit && Importable(g, entered + {id}) &&
               id !in entered
      requires compilationUnit.Some? ==> compilationUnit.value == unit
      modifies this`entered, this`compilationUnit, this`importBlock, this`owners
      ensures Partial() && entered == old(entered) + {id}
      ensures importBlock == old(importBlock) + (if old(compilationUnit) == None then [Funcs(unit)] else [])
      ensures compilationUnit == Some(unit) && forall i :: Literal(i) in owners <==> Literal(i) in old(owners)
    {
      entered := entered + {id};
      if compilationUnit == None {
        compilationUnit := Some(unit);
        AddOp(g, valueMap, importBlock, owners, Funcs(unit), Unit);
        BookNext(entered, None, classTypes, importBlock, owners, Funcs(unit), Unit);
        importBlock := importBlock + [Funcs(unit)];
        owners := owners + [Unit];
      }
    }

    /** Imports a class, the first time. */
    method ImportClassType(className: string)
      requires Partial()
      modifies this`classTypes, this`importBlock, this`owners
      ensures Partial() && classTypes == old(classTypes) + {className}
      ensures importBlock == old(importBlock) + (if className in old(classTypes) then [] else [ClassTypeOp(className)])
      ensures forall i :: Literal(i) in owners <==> Literal(i) in old(owners)
    {
      if className in classTypes { return; }
      AddOp(g, valueMap, importBlock, owners, ClassTypeOp(className), Class(className));
      BookNext(entered, compilationUnit, classTypes, importBlock, owners, ClassTypeOp(className), Class(className));
      classTypes := classTypes + {className};
      importBlock := importBlock + [ClassTypeOp(className)];
      owners := owners + [Class(className)];
    }

    /** Imports what `id` refers to, then defines `id`. */
    method RawImportIValue(id: nat) returns (value: Option<nat>, ghost error: Error)
      requires Valid() && id < |g| && id in entered && id !in valueMap && Pending(id) && IsSupported(g[id]) &&
               Literal(id) !in owners
      modifies this
      ensures value.Some? <==> Importable(g, old(entered) + ReachAll(g, Children(g[id]), id))
      ensures value.None? ==> Cause(g, old(entered) + ReachAll(g, Children(g[id]), id), error)
      ensures value.Some? ==> Valid() && id in valueMap && valueMap[id] == value.value
      ensures value.Some? ==> entered == old(entered) + ReachAll(g, Children(g[id]), id)
      ensures value.Some? ==> valueMap.Keys == old(valueMap.Keys) + ReachAll(g, Children(g[id]), id) + {id}
      ensures value.Some? ==> Grown(old(valueMap), old(importBlock))
      decreases id, 1
    {
      var o := g[id];
      var repr := |importBlock|;
      EmitLiteral(id);
      ghost var before := importBlock;
      var parts;
      parts, error := ImportAll(Children(o), id);
      if parts.None? { return None, error; }
      assert o.Tensor? && o.quantization.PerTensorAffine? ==> importBlock[repr] == before[repr];
      value := Some(|importBlock|);
      Define(id, repr, parts.value);
    }

    /** The bulk representation of a quantized tensor. */
    method EmitLiteral(id: nat)
      requires Valid() && id < |g| && id in entered && Literal(id) !in owners
      modifies this`importBlock, this`owners
      ensures Valid() && old(importBlock) <= importBlock
      ensures g[id].Tensor? && g[id].quantization.PerTensorAffine? ==>
              importBlock == old(importBlock) + [TensorLiteral(g[id].data)]
    {
      var o := g[id];
      if o.Tensor? && o.quantization.PerTensorAffine? {
        AddOp(g, valueMap, importBlock, owners, TensorLiteral(o.data), Literal(id));
        BookNext(entered, compilationUnit, classTypes, importBlock, owners, TensorLiteral(o.data), Literal(id));
        importBlock := importBlock + [TensorLiteral(o.data)];
        owners := owners + [Literal(id)];
      }
    }

    /** The op that defines `id`, and its entry in the map. */
    method Define(id: nat, repr: nat, parts: seq<nat>)
      requires Valid() && id < |g| && id in entered && id !in valueMap && IsSupported(g[id])
      requires AllMapped(valueMap, Children(g[id])) && parts == Mapped(valueMap, Children(g[id]))
      requires g[id].Tensor? && g[id].quantization.PerTensorAffine? ==>
               repr < |importBlock| && importBlock[repr] == TensorLiteral(g[id].data)
      modifies this`importBlock, this`owners, this`valueMap
      ensures Valid() && valueMap == old(valueMap)[id := |old(importBlock)|]
      ensures |importBlock| == |old(importBlock)| + 1 && old(importBlock) <= importBlock
    {
      var op := Build(g[id], repr, parts);
      BuildDefines(valueMap, importBlock, g[id], repr, parts);
      AddValue(g, valueMap, importBlock, owners, op, id);
      BookNext(entered, compilationUnit, classTypes, importBlock, owners, op, Main(id));
      valueMap := valueMap[id := |importBlock|];
      importBlock := importBlock + [op];
      owners := owners + [Main(id)];
    }

    /** Imports values one after another. */
    method ImportAll(ids: seq<nat>, bound: nat) returns (values: Option<seq<nat>>, ghost error: Error)
      requires Valid() && bound <= |g| && BelowAll(ids, bound) && Pending(bound)
      modifies this
      ensures values.Some? <==> Importable(g, old(entered) + ReachAll(g, ids, bound))
      ensures values.None? ==> Cause(g, old(entered) + ReachAll(g, ids, bound), error)
      ensures values.Some? ==> Valid() && entered == old(entered) + ReachAll(g, ids, bound) && AllMapped(valueMap, ids)
      ensures values.Some? ==> values.value == Mapped(valueMap, ids)
      ensures values.Some? ==> valueMap.Keys == old(valueMap.Keys) + ReachAll(g, ids, bound) &&
                               Grown(old(valueMap), old(importBlock))
      decreases bound, 0
    {
      error := Unsupported;
      var result := [];
      for n := 0 to |ids|
        invariant Valid() && Pending(bound) && Grown(old(valueMap), old(importBlock))
        invariant BelowAll(ids[..n], bound) && entered == old(entered) + ReachAll(g, ids[..n], bound)
        invariant valueMap.Keys == old(valueMap.Keys) + ReachAll(g, ids[..n], bound)
        invariant AllMapped(valueMap, ids[..n]) && result == Mapped(valueMap, ids[..n])
      {
        var id := ids[n];
        NextPart(g, old(entered), old(valueMap.Keys), ids, n, bound);
        ghost var before := valueMap;
        var value;
        value, error := ImportIValue(id);
        if value.None? { return None, error; }
        MappedAppend(before, valueMap, ids, n);
        result := result + [value.value];
      }
      assert ids[..|ids|] == ids;
      values := Some(result);
    }
  }

  /** The value itself and what its parts reach. */
  lemma ReachParts(g: Graph, entered: set<nat>, keys: set<nat>, id: nat)
    requires Acyclic(g) && id < |g|
    ensures entered + {id} + ReachAll(g, Children(g[id]), id) == entered + Reach(g, id)
    ensures keys + ReachAll(g, Children(g[id]), id) + {id} == keys + Reach(g, id)
    ensures Importable(g, entered + Reach(g, id)) ==> Importable(g, entered + {id})
    ensures forall e :: Cause(g, entered + {id}, e) ==> Cause(g, entered + Reach(g, id), e)
  {
    ImportableShrinks(g, entered + {id}, entered + Reach(g, id));
  }

  function Build(o: IValue, repr: nat, parts: seq<nat>): Op
    requires IsSupported(o) && |parts| == |Children(o)|
  {
    match o
    case Constant(text) => ConstantOp(text)
    case Tensor(_, data, PerTensorAffine(_, _)) => PerTensorAffineCreate(repr, parts[0], parts[1])
    case Tensor(_, data, _) => TensorLiteral(data)
    case List(_) => ListConstruct(parts)
    case Tuple(_) => TupleConstruct(parts)
    case Module(className, _, _) => NnModule(className, parts)
    case LinearParams(_, Some(_)) => LinearParamsCreate(parts[0], Some(parts[1]))
    case LinearParams(_, None) => LinearParamsCreate(parts[0], None)
    case _ => ConstantOp("")
  }

  lemma BuildDefines(values: Values, block: seq<Op>, o: IValue, repr: nat, parts: seq<nat>)
    requires IsSupported(o) && AllMapped(values, Children(o)) && parts == Mapped(values, Children(o))
    requires forall c <- Children(o) :: c in values && values[c] < |block|
    requires o.Tensor? && o.quantization.PerTensorAffine? ==> repr < |block| && block[repr] == TensorLiteral(o.data)
    ensures Defines(values, block + [Build(o, repr, parts)], o, |block|)
  {
    forall k | 0 <= k < |parts| ensures parts[k] < |block| { assert Children(o)[k] in Children(o); }
  }

  lemma MappedAppend(before: Values, after: Values, ids: seq<nat>, n: nat)
    requires n < |ids| && AllMapped(before, ids[..n]) && ids[n] in after
    requires forall i <- before :: i in after && after[i] == before[i]
    ensures AllMapped(after, ids[..n + 1]) && Mapped(after, ids[..n + 1]) == Mapped(before, ids[..n]) + [after[ids[n]]]
  {
    assert ids[..n + 1] == ids[..n] + [ids[n]];
    forall k | 0 <= k < n ensures ids[..n][k] in before { assert ids[..n][k] in ids[..n]; }
  }

  lemma ReachAllStep(g: Graph, ids: seq<nat>, n: nat, bound: nat)
    requires Acyclic(g) && bound <= |g| && n < |ids| && BelowAll(ids, bound)
    ensures BelowAll(ids[..n + 1], bound) && BelowAll(ids[..n], bound) && ids[n] < bound
    ensures ReachAll(g, ids[..n + 1], bound) == ReachAll(g, ids[..n], bound) + Reach(g, ids[n])
  {
    var part := ids[..n + 1];
    assert ids[n] in ids;
    assert forall c <- part :: c in ids;
    assert forall c <- ids[..n] :: c in ids;
    assert part[..|part| - 1] == ids[..n] && part[|part| - 1] == ids[n];
  }

  /** How importing the next of several values adds up. */
  lemma NextPart(g: Graph, entered: set<nat>, keys: set<nat>, ids: seq<nat>, n: nat, bound: nat)
    requires Acyclic(g) && bound <= |g| && n < |ids| && BelowAll(ids, bound)
    ensures BelowAll(ids[..n + 1], bound) && BelowAll(ids[..n], bound) && ids[n] < bound
    ensures entered + ReachAll(g, ids[..n], bound) + Reach(g, ids[n]) == entered + ReachAll(g, ids[..n + 1], bound)
    ensures keys + ReachAll(g, ids[..n], bound) + Reach(g, ids[n]) == keys + ReachAll(g, ids[..n + 1], bound)
    ensures Importable(g, entered + ReachAll(g, ids, bound)) ==>
            Importable(g, entered + ReachAll(g, ids[..n + 1], bound))
    ensures forall e :: Cause(g, entered + ReachAll(g, ids[..n + 1], bound), e) ==>
            Cause(g, entered + ReachAll(g, ids, bound), e)
  {
    ReachAllStep(g, ids, n, bound);
    ReachAllGrows(g, ids, n + 1, bound);
    ImportableShrinks(g, entered + ReachAll(g, ids[..n + 1], bound), entered + ReachAll(g, ids, bound));
  }

  lemma {:induction false} ReachAllGrows(g: Graph, ids: seq<nat>, n: nat, bound: nat)
    requires Acyclic(g) && bound <= |g| && n <= |ids| && BelowAll(ids, bound)
    ensures BelowAll(ids[..n], bound)
    ensures ReachAll(g, ids[..n], bound) <= ReachAll(g, ids, bound)
    decreases |ids| - n
  {
    assert forall c <- ids[..n] :: c in ids;
    if n == |ids| {
      assert ids[..n] == ids;
    } else {
      ReachAllStep(g, ids, n, bound);
      ReachAllGrows(g, ids, n + 1, bound);
    }
  }

  /** What a defined value reaches is defined. */
  lemma {:induction false} ReachIsMapped(g: Graph, values: Values, block: seq<Op>, owners: seq<Owner>, id: nat)
    requires Acyclic(g) && Emitted(g, values, block, owners) && id in values
    ensures id < |g| && Reach(g, id) <= values.Keys
    decreases id, 1, 0
  {
    assert Defines(values, block, g[id], values[id]);
    ReachAllIsMapped(g, values, block, owners, Children(g[id]), id);
  }

  lemma {:induction false} ReachAllIsMapped(g: Graph, values: Values, block: seq<Op>, owners: seq<Owner>, ids: seq<nat>,
                                            bound: nat)
    requires Acyclic(g) && Emitted(g, values, block, owners) && bound <= |g| && BelowAll(ids, bound) &&
             AllMapped(values, ids)
    ensures ReachAll(g, ids, bound) <= values.Keys
    decreases bound, 0, |ids|
  {
    if ids != [] {
      var front, last := ids[..|ids| - 1], ids[|ids| - 1];
      assert last in ids && forall c <- front :: c in ids;
      ReachIsMapped(g, values, block, owners, last);
      ReachAllIsMapped(g, values, block, owners, front, bound);
    }
  }

  // ---- The checks on entry ----

  lemma EnterOther(g: Graph, s: set<nat>, id: nat)
    requires id < |g| && IsSupported(g[id]) && !g[id].Tensor? && !g[id].Module? && Importable(g, s)
    ensures Importable(g, s + {id})
  {
  }

  /** A supported tensor fits iff its storage was not met. */
  lemma EnterTensor(g: Graph, s: set<nat>, id: nat)
    requires id < |g| && g[id].Tensor? && id !in s && Importable(g, s)
    ensures HasAliases(g, s + {id}) <==> exists i :: i in s && i < |g| && g[i].Tensor? && g[i].storage == g[id].storage
    ensures HasUnsupported(g, s + {id}) <==> g[id].quantization.OtherScheme?
    ensures !HasTwoUnits(g, s + {id})
  {
    if i :| i in s && i < |g| && g[i].Tensor? && g[i].storage == g[id].storage {
      assert SharesStorage(g, i, id) && i in s + {id} && id in s + {id};
    }
    if g[id].quantization.OtherScheme? { assert id in s + {id} && !IsSupported(g[id]); }
  }

  /** A module fits iff it is of the compilation unit of the modules met. */
  lemma EnterModule(g: Graph, s: set<nat>, id: nat)
    requires id < |g| && g[id].Module? && id !in s && Importable(g, s)
    ensures HasTwoUnits(g, s + {id}) <==> exists i :: i in s && i < |g| && g[i].Module? && g[i].unit != g[id].unit
    ensures !HasUnsupported(g, s + {id}) && !HasAliases(g, s + {id})
  {
    if i :| i in s && i < |g| && g[i].Module? && g[i].unit != g[id].unit {
      assert UnitsDiffer(g, i, id) && i in s + {id} && id in s + {id};
    }
  }

  /** Distinct values have distinct definitions. */
  lemma SharingIsExact(g: Graph, values: Values, block: seq<Op>, owners: seq<Owner>, a: nat, b: nat)
    requires Emitted(g, values, block, owners) && a in values && b in values
    ensures values[a] == values[b] <==> a == b
  {
  }
}
