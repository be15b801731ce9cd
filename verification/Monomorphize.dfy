/**
 Specialising functions to the module instances they are called with. Models `analyzeInstances`,
 `createMonomorphizationForCall`, `MonomorphizationTracker` and `verifyFuncConformsToSubset` of
 lib/Dialect/Torch/Transforms/GlobalizeObjectGraph.cpp.
 */
module Monomorphize {
  import opened Option
  import opened TorchIR
  import opened ObjectGraph

  // ---- Well-typed code: what the op verifiers guarantee ----

  function Types(vs: seq<Var>): seq<Ty> {
    seq(|vs|, i requires 0 <= i < |vs| => vs[i].ty)
  }

  predicate AllData(vs: seq<Var>) {
    forall v <- vs :: v.ty.Data?
  }

  predicate HasAttr(m: Module, v: Var, name: string, ty: Ty) {
    v.ty.NnModule? && v.ty.className in m.classes &&
    exists a <- m.classes[v.ty.className].attrs :: a.name == name && a.ty == ty
  }

  /** Every operand is in scope with the type its op wants; modules come only from arguments and attributes. */
  predicate WellTyped(m: Module, ops: seq<Op>, scope: set<Var>)
    decreases ops, 0
  {
    ops == [] || (WellTypedOp(m, ops[0], scope) && WellTyped(m, ops[1..], scope + ResultSet(ops[0])))
  }

  function ResultSet(op: Op): set<Var> {
    set v | v in OpResults(op)
  }

  predicate WellTypedOp(m: Module, op: Op, scope: set<Var>)
    decreases op
  {
    match op
    case GetAttr(r, x, name) => x in scope && HasAttr(m, x, name, r.ty)
    case SetAttr(x, name, v) => x in scope && v in scope && HasAttr(m, x, name, v.ty)
    case SlotGet(_, _) => false
    case SlotSet(_, _) => false
    case Call(rs, callee, xs) =>
      callee.Original? && callee.name in m.funcs && (forall x <- xs :: x in scope) &&
      Types(xs) == Types(m.funcs[callee.name].params) && Types(rs) == Types(m.funcs[callee.name].results)
    case Pure(r, _, xs) => r.ty.Data? && forall x <- xs :: x in scope
    case Effect(rs, _, xs) => AllData(rs) && forall x <- xs :: x in scope
    case If(rs, cond, thn, els) =>
      cond in scope && thn.args == els.args == [] && WellTypedBlock(m, thn, scope) && WellTypedBlock(m, els, scope) &&
      Types(thn.outs) == Types(els.outs) == Types(rs)
    case Loop(rs, trip, cond, inits, body) =>
      trip in scope && cond in scope && (forall x <- inits :: x in scope) && WellTypedBlock(m, body, scope) &&
      Types(body.args) == [Data] + Types(inits) && Types(body.outs) == [Data] + Types(inits) &&
      Types(rs) == Types(inits)
  }

  predicate WellTypedBlock(m: Module, b: Block, scope: set<Var>)
    decreases b
  {
    var inner := scope + set v | v in b.args;
    WellTyped(m, b.ops, inner) && forall v <- b.outs :: v in ScopeAfter(b.ops, inner)
  }

  /** The values the code after `ops` may use. */
  function ScopeAfter(ops: seq<Op>, scope: set<Var>): set<Var> {
    if ops == [] then scope else ScopeAfter(ops[1..], scope + ResultSet(ops[0]))
  }

  ghost predicate NoDup(vs: seq<Var>) {
    forall v :: multiset(vs)[v] <= 1
  }

  ghost predicate WellTypedFunc(m: Module, f: Func) {
    var scope := set v | v in f.params;
    NoDup(f.params + Defs(f.ops)) && WellTyped(m, f.ops, scope) &&
    forall v <- f.results :: v in ScopeAfter(f.ops, scope)
  }

  // ---- The subset of uses of modules that can be globalized ----

  /** A module value is only called with, read from, or the receiver of a write. */
  predicate Conforms(ops: seq<Op>) {
    forall op <- ops :: ConformsOp(op)
  }

  predicate ConformsOp(op: Op) {
    match op
    case SetAttr(_, _, v) => v.ty.Data?
    case Pure(_, _, xs) => AllData(xs)
    case Effect(_, _, xs) => AllData(xs)
    case SlotSet(_, v) => v.ty.Data?
    case If(_, cond, thn, els) => cond.ty.Data? && ConformsBlock(thn) && ConformsBlock(els)
    case Loop(_, trip, cond, inits, body) => trip.ty.Data? && cond.ty.Data? && AllData(inits) && ConformsBlock(body)
    case _ => true
  }

  predicate ConformsBlock(b: Block) {
    Conforms(b.ops) && AllData(b.outs)
  }

  predicate ConformsFunc(f: Func) {
    Conforms(f.ops) && AllData(f.results)
  }

  /** The operands of an op, and what its blocks yield. */
  function UsedBy(op: Op): seq<Var> {
    match op
    case GetAttr(_, x, _) => [x]
    case SetAttr(x, _, v) => [x, v]
    case SlotGet(_, _) => []
    case SlotSet(_, v) => [v]
    case Call(_, _, xs) => xs
    case Pure(_, _, xs) => xs
    case Effect(_, _, xs) => xs
    case If(_, cond, thn, els) => [cond] + thn.outs + els.outs
    case Loop(_, trip, cond, inits, body) => [trip, cond] + inits + body.outs
  }

  /** Every module among the operands is called with, read from, or the receiver of a write. */
  ghost predicate UsesModulesRight(op: Op) {
    forall v <- UsedBy(op) | v.ty.NnModule? :: op.Call? || op.GetAttr? || (op.SetAttr? && v != op.value)
  }

  ghost predicate AllRight(walk: seq<Op>) {
    forall op <- walk :: UsesModulesRight(op)
  }

  /** The check of all nested blocks, as a check of the users of each module value. */
  lemma {:induction false} ConformsMeans(ops: seq<Op>)
    ensures Conforms(ops) <==> AllRight(Walk(ops))
    decreases ops, 0
  {
    if ops != [] {
      OpConformsMeans(ops[0]);
      ConformsMeans(ops[1..]);
      RightParts(WalkOp(ops[0]), Walk(ops[1..]));
      assert Conforms(ops) <==> ConformsOp(ops[0]) && Conforms(ops[1..]) by { assert ops == [ops[0]] + ops[1..]; }
    }
  }

  lemma {:induction false} OpConformsMeans(op: Op)
    ensures ConformsOp(op) <==> AllRight(WalkOp(op))
    decreases op
  {
    match op
    case If(_, cond, thn, els) =>
      ConformsMeans(thn.ops);
      ConformsMeans(els.ops);
      DataParts([cond] + thn.outs, els.outs);
      DataParts([cond], thn.outs);
      RightParts(Walk(thn.ops) + Walk(els.ops), [op]);
      RightParts(Walk(thn.ops), Walk(els.ops));
      RightAlone(op);
    case Loop(_, trip, cond, inits, body) =>
      ConformsMeans(body.ops);
      DataParts([trip, cond] + inits, body.outs);
      DataParts([trip, cond], inits);
      RightParts(Walk(body.ops), [op]);
      RightAlone(op);
    case _ =>
      RightAlone(op);
  }

  lemma RightAlone(op: Op)
    ensures AllRight([op]) <==> UsesModulesRight(op)
    ensures op.If? || op.Loop? ==> (UsesModulesRight(op) <==> AllData(UsedBy(op)))
    ensures !op.If? && !op.Loop? ==> (UsesModulesRight(op) <==> ConformsOp(op))
  {
    if UsesModulesRight(op) && op.SetAttr? { assert op.value in UsedBy(op); }
    if UsesModulesRight(op) && op.SlotSet? { assert op.value in UsedBy(op); }
  }

  lemma RightParts(a: seq<Op>, b: seq<Op>)
    ensures AllRight(a + b) <==> AllRight(a) && AllRight(b)
  {
    if AllRight(a + b) {
      forall op <- a ensures UsesModulesRight(op) { assert op in a + b; }
      forall op <- b ensures UsesModulesRight(op) { assert op in a + b; }
    }
  }

  lemma DataParts(a: seq<Var>, b: seq<Var>)
    ensures AllData(a + b) <==> AllData(a) && AllData(b)
  {
    if AllData(a + b) {
      forall v <- a ensures v.ty.Data? { assert v in a + b; }
      forall v <- b ensures v.ty.Data? { assert v in a + b; }
    }
  }

  /** No function yields a module. */
  ghost predicate ResultsAreData(m: Module) {
    forall f <- m.funcs :: AllData(m.funcs[f].results)
  }

  /** A program that passes the verifiers and the conformance check. */
  ghost predicate WellFormedProgram(m: Module) {
    WellFormedGraph(m) && forall f <- m.funcs :: WellTypedFunc(m, m.funcs[f]) && ConformsFunc(m.funcs[f])
  }

  // ---- Walks ----

  predicate IsModuleGet(op: Op) {
    op.GetAttr? && op.result.ty.NnModule?
  }

  function ModuleResults(walk: seq<Op>): seq<Var> {
    if walk == [] then [] else (if IsModuleGet(walk[0]) then [walk[0].result] else []) + ModuleResults(walk[1..])
  }

  /** The module values whose instance the pass looks up at `op`. */
  function ModuleUses(op: Op): seq<Var> {
    match op
    case GetAttr(_, x, _) => [x]
    case SetAttr(x, _, _) => [x]
    case Call(_, _, xs) => Modules(xs)
    case _ => []
  }

  function Modules(vs: seq<Var>): seq<Var> {
    if vs == [] then [] else (if vs[0].ty.NnModule? then [vs[0]] else []) + Modules(vs[1..])
  }

  lemma {:induction false} ModulesMembers(vs: seq<Var>, v: Var)
    ensures v in Modules(vs) <==> v in vs && v.ty.NnModule?
  {
    if vs != [] { ModulesMembers(vs[1..], v); }
  }

  lemma {:induction false} ModuleResultsConcat(a: seq<Op>, b: seq<Op>)
    ensures ModuleResults(a + b) == ModuleResults(a) + ModuleResults(b)
  {
    if a == [] {
      assert a + b == b;
    } else {
      var all, head := a + b, if IsModuleGet(a[0]) then [a[0].result] else [];
      assert all[0] == a[0] && all[1..] == a[1..] + b;
      ModuleResultsConcat(a[1..], b);
      assert ModuleResults(all) == head + ModuleResults(all[1..]) && ModuleResults(a) == head + ModuleResults(a[1..]);
    }
  }

  /** The module values the walk meets are among the definitions. */
  lemma {:induction false} ModuleResultsAreDefs(ops: seq<Op>)
    ensures multiset(ModuleResults(Walk(ops))) <= multiset(Defs(ops))
  {
    if ops != [] {
      ModuleResultsConcat(WalkOp(ops[0]), Walk(ops[1..]));
      ModuleResultsAreOpDefs(ops[0]);
      ModuleResultsAreDefs(ops[1..]);
    }
  }

  lemma {:induction false} ModuleResultsAreOpDefs(op: Op)
    ensures multiset(ModuleResults(WalkOp(op))) <= multiset(OpDefs(op))
  {
    match op
    case If(_, _, thn, els) =>
      ModuleResultsAreDefs(thn.ops);
      ModuleResultsAreDefs(els.ops);
      ModuleResultsConcat(Walk(thn.ops), Walk(els.ops));
      ModuleResultsConcat(Walk(thn.ops) + Walk(els.ops), [op]);
      assert ModuleResults([op]) == [];
    case Loop(_, _, _, _, body) =>
      ModuleResultsAreDefs(body.ops);
      ModuleResultsConcat(Walk(body.ops), [op]);
      assert ModuleResults([op]) == [];
    case _ =>
  }

  /** The module values known once `walk` has been walked. */
  function KnownAfter(known: set<Var>, walk: seq<Op>): set<Var> {
    known + set v | v in ModuleResults(walk)
  }

  lemma KnownConcat(known: set<Var>, a: seq<Op>, b: seq<Op>)
    ensures KnownAfter(known, a + b) == KnownAfter(KnownAfter(known, a), b)
  {
    ModuleResultsConcat(a, b);
  }

  /** Every module the walk looks up was an argument or met earlier in the walk. */
  predicate Scoped(walk: seq<Op>, known: set<Var>)
    decreases |walk|
  {
    walk == [] ||
    ((forall v <- ModuleUses(walk[0]) :: v in known) &&
     Scoped(walk[1..], if IsModuleGet(walk[0]) then known + {walk[0].result} else known))
  }

  lemma {:induction false} ScopedGrows(walk: seq<Op>, known: set<Var>, more: set<Var>)
    requires Scoped(walk, known) && known <= more
    ensures Scoped(walk, more)
    decreases |walk|
  {
    if walk != [] {
      var op := walk[0];
      ScopedGrows(walk[1..], if IsModuleGet(op) then known + {op.result} else known,
                  if IsModuleGet(op) then more + {op.result} else more);
    }
  }

  lemma {:induction false} ScopedConcat(a: seq<Op>, b: seq<Op>, known: set<Var>)
    requires Scoped(a, known) && Scoped(b, KnownAfter(known, a))
    ensures Scoped(a + b, known)
    decreases |a|
  {
    if a == [] {
      assert a + b == b;
      assert KnownAfter(known, a) == known;
    } else {
      var next := if IsModuleGet(a[0]) then known + {a[0].result} else known;
      assert KnownAfter(next, a[1..]) == KnownAfter(known, a);
      ScopedConcat(a[1..], b, next);
      assert (a + b)[1..] == a[1..] + b;
    }
  }

  ghost predicate KnowsModules(known: set<Var>, scope: set<Var>) {
    forall v: Var <- scope :: v.ty.NnModule? ==> v in known
  }

  /** Why the instance lookups of the pass cannot fail. */
  lemma {:induction false} WalkIsScoped(m: Module, ops: seq<Op>, scope: set<Var>, known: set<Var>)
    requires ResultsAreData(m) && WellTyped(m, ops, scope) && Conforms(ops) && KnowsModules(known, scope)
    ensures Scoped(Walk(ops), known)
    ensures KnowsModules(KnownAfter(known, Walk(ops)), ScopeAfter(ops, scope))
    decreases ops, 0
  {
    if ops != [] {
      var op := ops[0];
      WalkOpIsScoped(m, op, scope, known);
      WalkIsScoped(m, ops[1..], scope + ResultSet(op), KnownAfter(known, WalkOp(op)));
      ScopedConcat(WalkOp(op), Walk(ops[1..]), known);
      KnownConcat(known, WalkOp(op), Walk(ops[1..]));
    }
  }

  lemma {:induction false} WalkOpIsScoped(m: Module, op: Op, scope: set<Var>, known: set<Var>)
    requires ResultsAreData(m) && WellTypedOp(m, op, scope) && ConformsOp(op) && KnowsModules(known, scope)
    ensures Scoped(WalkOp(op), known)
    ensures KnowsModules(KnownAfter(known, WalkOp(op)), scope + ResultSet(op))
    decreases op
  {
    ModulesInResults(m, op, scope);
    match op
    case If(rs, _, thn, els) =>
      WalkBlockIsScoped(m, thn, scope, known);
      WalkBlockIsScoped(m, els, scope, known);
      ScopedGrows(Walk(els.ops), known, KnownAfter(known, Walk(thn.ops)));
      ScopedConcat(Walk(thn.ops), Walk(els.ops), known);
      ScopedLast(Walk(thn.ops) + Walk(els.ops), op, known);
    case Loop(rs, _, _, _, body) =>
      WalkBlockIsScoped(m, body, scope, known);
      ScopedLast(Walk(body.ops), op, known);
    case Call(_, _, xs) =>
      forall v | v in Modules(xs) ensures v in known { ModulesMembers(xs, v); }
      assert WalkOp(op)[1..] == [];
    case _ =>
      assert WalkOp(op)[1..] == [];
  }

  lemma ScopedLast(walk: seq<Op>, op: Op, known: set<Var>)
    requires Scoped(walk, known) && ModuleUses(op) == [] && !IsModuleGet(op)
    ensures Scoped(walk + [op], known) && KnownAfter(known, walk + [op]) == KnownAfter(known, walk)
  {
    assert [op][1..] == [];
    ScopedConcat(walk, [op], known);
    ModuleResultsConcat(walk, [op]);
  }

  lemma {:induction false} WalkBlockIsScoped(m: Module, b: Block, scope: set<Var>, known: set<Var>)
    requires ResultsAreData(m) && WellTypedBlock(m, b, scope) && ConformsBlock(b) && KnowsModules(known, scope) &&
             AllData(b.args)
    ensures Scoped(Walk(b.ops), known)
    decreases b
  {
    WalkIsScoped(m, b.ops, scope + (set v | v in b.args), known);
  }

  /** The only op whose result can be a module is an attribute read. */
  lemma ModulesInResults(m: Module, op: Op, scope: set<Var>)
    requires ResultsAreData(m) && WellTypedOp(m, op, scope) && ConformsOp(op)
    ensures forall v <- OpResults(op) :: v.ty.NnModule? ==> IsModuleGet(op) && v == op.result
    ensures op.Loop? ==> AllData(op.body.args)
  {
    match op
    case Call(rs, callee, xs) =>
      var results := m.funcs[callee.name].results;
      DataTypes(rs, results);
    case If(rs, cond, thn, els) =>
      DataTypes(rs, thn.outs);
    case Loop(rs, trip, cond, inits, body) =>
      DataTypes(rs, inits);
      forall v <- body.args ensures v.ty.Data? {
        var k :| 0 <= k < |body.args| && body.args[k] == v;
        assert Types(body.args)[k] == ([Data] + Types(inits))[k];
        if k > 0 { assert inits[k - 1] in inits; }
      }
    case _ =>
  }

  lemma DataTypes(a: seq<Var>, b: seq<Var>)
    requires Types(a) == Types(b) && AllData(b)
    ensures |a| == |b| && AllData(a)
  {
    assert |Types(a)| == |Types(b)|;
    forall v <- a ensures v.ty.Data? {
      var k :| 0 <= k < |a| && a[k] == v;
      assert Types(a)[k] == Types(b)[k] && b[k] in b;
    }
  }

  // ---- Which instance every module value is ----

  function FindSlot(slots: seq<Slot>, name: string): (r: Option<nat>)
    ensures r.Some? ==> r.value < |slots| && slots[r.value].name == name
    ensures r.None? ==> forall s <- slots :: s.name != name
  {
    if slots == [] then None
    else if slots[0].name == name then Some(0)
    else
      match FindSlot(slots[1..], name)
      case Some(k) => Some(k + 1)
      case None => None
  }

  /** What slot `name` of instance `i` holds. */
  function SlotValue(m: Module, i: nat, name: string): Option<nat> {
    if IsInstance(m, i) && FindSlot(SlotsOf(m, i), name).Some? then
      Some(SlotsOf(m, i)[FindSlot(SlotsOf(m, i), name).value].value)
    else None
  }

  predicate IsInstanceOf(m: Module, i: nat, ty: Ty) {
    IsInstance(m, i) && ty.NnModule? && m.objects[i].className == ty.className
  }

  /** An attribute of the class is a slot of every instance, holding a value of its type. */
  lemma AttrHasSlot(m: Module, i: nat, x: Var, name: string, ty: Ty) returns (k: nat)
    requires WellFormedGraph(m) && IsInstanceOf(m, i, x.ty) && HasAttr(m, x, name, ty)
    ensures FindSlot(SlotsOf(m, i), name) == Some(k) && k < |AttrsOf(m, i)| == |SlotsOf(m, i)|
    ensures AttrsOf(m, i)[k].name == name && AttrsOf(m, i)[k].ty == ty
    ensures ty.NnModule? ==> IsInstanceOf(m, SlotsOf(m, i)[k].value, ty)
    ensures ty.Data? ==> IsData(m, SlotsOf(m, i)[k].value)
  {
    var a :| a in AttrsOf(m, i) && a.name == name && a.ty == ty;
    var j :| 0 <= j < |AttrsOf(m, i)| && AttrsOf(m, i)[j] == a;
    SlotFitsAll(m, i);
    assert SlotsOf(m, i)[j] in SlotsOf(m, i);
    k := FindSlot(SlotsOf(m, i), name).value;
    MembersAreNamedApart(m, i);
  }

  lemma SlotFitsAll(m: Module, i: nat)
    requires WellFormedGraph(m) && IsInstance(m, i)
    ensures |AttrsOf(m, i)| == |SlotsOf(m, i)|
    ensures forall k | 0 <= k < |SlotsOf(m, i)| :: WellFormedSlot(m, i, AttrsOf(m, i)[k], SlotsOf(m, i)[k])
  {
    assert WellFormedObject(m, i);
  }

  type Mapping = map<Var, nat>

  function AnalyzeOp(m: Module, op: Op, mapping: Mapping): Mapping {
    if IsModuleGet(op) && op.receiver in mapping && SlotValue(m, mapping[op.receiver], op.name).Some? then
      mapping[op.result := SlotValue(m, mapping[op.receiver], op.name).value]
    else mapping
  }

  function Analyze(m: Module, walk: seq<Op>, mapping: Mapping): Mapping {
    if walk == [] then mapping else Analyze(m, walk[1..], AnalyzeOp(m, walk[0], mapping))
  }

  function ArgMapping(params: seq<Var>, args: seq<ArgInstance>): Mapping
    requires forall a <- args :: a.argIndex < |params|
  {
    if args == [] then map[]
    else ArgMapping(params, args[..|args| - 1])[params[args[|args| - 1].argIndex] := args[|args| - 1].instance]
  }

  /** One instance of the right class for each module parameter from `i` on, in order. */
  predicate ArgsFit(m: Module, params: seq<Var>, i: nat, args: seq<ArgInstance>)
    requires i <= |params|
    decreases |params| - i
  {
    if i == |params| then args == []
    else if params[i].ty.Data? then ArgsFit(m, params, i + 1, args)
    else
      args != [] && args[0].argIndex == i && IsInstanceOf(m, args[0].instance, params[i].ty) &&
      ArgsFit(m, params, i + 1, args[1..])
  }

  predicate IsMonomorphization(m: Module, k: Monomorphization) {
    k.func in m.funcs && ArgsFit(m, m.funcs[k.func].params, 0, k.argInstances)
  }

  /** What `ArgsFit` says position by position. */
  ghost predicate ArgsMatch(m: Module, params: seq<Var>, i: nat, args: seq<ArgInstance>) {
    (forall a <- args :: ArgMatches(m, params, i, a)) && Increasing(args) &&
    (forall j | i <= j < |params| && params[j].ty.NnModule? :: exists k :: 0 <= k < |args| && args[k].argIndex == j)
  }

  predicate ArgMatches(m: Module, params: seq<Var>, i: nat, a: ArgInstance) {
    i <= a.argIndex < |params| && IsInstanceOf(m, a.instance, params[a.argIndex].ty)
  }

  ghost predicate Increasing(args: seq<ArgInstance>) {
    forall j, k | 0 <= j < k < |args| :: args[j].argIndex < args[k].argIndex
  }

  lemma {:induction false} FittingArgsMatch(m: Module, params: seq<Var>, i: nat, args: seq<ArgInstance>)
    requires i <= |params| && ArgsFit(m, params, i, args)
    ensures ArgsMatch(m, params, i, args)
    decreases |params| - i
  {
    if i < |params| {
      if params[i].ty.Data? {
        FittingArgsMatch(m, params, i + 1, args);
      } else {
        FittingArgsMatch(m, params, i + 1, args[1..]);
        ArgsMatchCons(m, params, i, args[0], args[1..]);
        assert args == [args[0]] + args[1..];
      }
    }
  }

  lemma ArgsMatchCons(m: Module, params: seq<Var>, i: nat, a: ArgInstance, rest: seq<ArgInstance>)
    requires ArgMatches(m, params, i, a) && a.argIndex == i && ArgsMatch(m, params, i + 1, rest)
    ensures ArgsMatch(m, params, i, [a] + rest)
  {
    var args := [a] + rest;
    forall j, k | 0 <= j < k < |args| ensures args[j].argIndex < args[k].argIndex {
      assert rest[k - 1] in rest && ArgMatches(m, params, i + 1, rest[k - 1]);
    }
    forall j | i <= j < |params| && params[j].ty.NnModule?
      ensures exists k :: 0 <= k < |args| && args[k].argIndex == j
    {
      if j > i {
        var k :| 0 <= k < |rest| && rest[k].argIndex == j;
        assert args[k + 1].argIndex == j;
      } else {
        assert args[0].argIndex == j;
      }
    }
  }

  ghost predicate MappingOk(m: Module, mapping: Mapping) {
    forall v: Var <- mapping :: IsInstanceOf(m, mapping[v], v.ty)
  }

  ghost predicate Distinct(vs: seq<Var>) {
    forall i, j | 0 <= i < j < |vs| :: vs[i] != vs[j]
  }

  lemma {:induction false} ArgMappingIsRight(m: Module, params: seq<Var>, args: seq<ArgInstance>)
    requires Distinct(params)
    requires Increasing(args) && forall a <- args :: ArgMatches(m, params, 0, a)
    ensures forall a <- args :: a.argIndex < |params|
    ensures MappingOk(m, ArgMapping(params, args))
    ensures forall a <- args ::
              params[a.argIndex] in ArgMapping(params, args) &&
              ArgMapping(params, args)[params[a.argIndex]] == a.instance
    ensures forall v <- ArgMapping(params, args) :: v in params
  {
    if args != [] {
      var front, last := args[..|args| - 1], |args| - 1;
      ArgMappingIsRight(m, params, front);
      assert args[last] in args && ArgMatches(m, params, 0, args[last]);
      forall a <- args
        ensures params[a.argIndex] in ArgMapping(params, args) &&
                ArgMapping(params, args)[params[a.argIndex]] == a.instance
      {
        var k :| 0 <= k < |args| && args[k] == a;
        if k < last {
          assert front[k] == a && a in front;
          assert a.argIndex < args[last].argIndex;
          assert params[a.argIndex] != params[args[last].argIndex];
        }
      }
    }
  }

  /** The module reads met by the walk agree with the slots of the instances. */
  ghost predicate Consistent(m: Module, walk: seq<Op>, mapping: Mapping) {
    forall op <- walk :: IsModuleGet(op) ==>
      op.receiver in mapping && op.result in mapping &&
      SlotValue(m, mapping[op.receiver], op.name) == Some(mapping[op.result])
  }

  /** Attributes read and written exist with the right type; only data is written. */
  ghost predicate AttrsExist(m: Module, walk: seq<Op>) {
    forall op <- walk ::
      (op.GetAttr? ==> HasAttr(m, op.receiver, op.name, op.result.ty)) &&
      (op.SetAttr? ==> op.value.ty.Data? && HasAttr(m, op.receiver, op.name, op.value.ty))
  }

  ghost predicate Extends(small: Mapping, big: Mapping) {
    forall v <- small :: v in big && big[v] == small[v]
  }

  lemma AnalyzeOpIsRight(m: Module, op: Op, mapping: Mapping)
    requires WellFormedGraph(m) && MappingOk(m, mapping) && AttrsExist(m, [op]) && Scoped([op], mapping.Keys)
    ensures MappingOk(m, AnalyzeOp(m, op, mapping))
    ensures AnalyzeOp(m, op, mapping).Keys == if IsModuleGet(op) then mapping.Keys + {op.result} else mapping.Keys
    ensures IsModuleGet(op) && op.result !in mapping ==> Consistent(m, [op], AnalyzeOp(m, op, mapping))
    ensures IsModuleGet(op) ==> op.receiver in mapping && SlotValue(m, mapping[op.receiver], op.name).Some?
  {
    if IsModuleGet(op) {
      assert op in [op];
      var k := AttrHasSlot(m, mapping[op.receiver], op.receiver, op.name, op.result.ty);
    }
  }

  /** With single definitions the analysis ends consistent with every read. */
  lemma {:induction false} AnalyzeIsConsistent(m: Module, walk: seq<Op>, mapping: Mapping)
    requires WellFormedGraph(m) && MappingOk(m, mapping) && AttrsExist(m, walk) && Scoped(walk, mapping.Keys)
    requires NoDup(ModuleResults(walk)) && forall v <- ModuleResults(walk) :: v !in mapping
    ensures MappingOk(m, Analyze(m, walk, mapping)) && Extends(mapping, Analyze(m, walk, mapping))
    ensures Analyze(m, walk, mapping).Keys == KnownAfter(mapping.Keys, walk)
    ensures Consistent(m, walk, Analyze(m, walk, mapping))
    decreases |walk|
  {
    if walk != [] {
      var op, rest := walk[0], walk[1..];
      assert walk == [op] + rest;
      assert Scoped([op], mapping.Keys) by { assert [op][1..] == []; }
      AnalyzeOpIsRight(m, op, mapping);
      NoDupTail(ModuleResults(walk), ModuleResults(rest));
      AnalyzeIsConsistent(m, rest, AnalyzeOp(m, op, mapping));
      KnownConcat(mapping.Keys, [op], rest);
      if IsModuleGet(op) { assert op in [op]; }
    }
  }

  lemma NoDupTail(all: seq<Var>, rest: seq<Var>)
    requires NoDup(all) && (all == rest || (all != [] && all == [all[0]] + rest))
    ensures NoDup(rest) && (all != rest ==> all[0] !in rest)
  {
    if all != rest {
      assert multiset(all) == multiset{all[0]} + multiset(rest);
      forall v ensures multiset(rest)[v] <= 1 { assert multiset(all)[v] <= 1; }
      assert multiset(all)[all[0]] == 1 + multiset(rest)[all[0]] <= 1;
    }
  }

  lemma {:induction false} WalkAttrsExist(m: Module, ops: seq<Op>, scope: set<Var>)
    requires WellTyped(m, ops, scope) && Conforms(ops)
    ensures AttrsExist(m, Walk(ops))
    decreases ops, 0
  {
    if ops != [] {
      WalkOpAttrsExist(m, ops[0], scope);
      WalkAttrsExist(m, ops[1..], scope + ResultSet(ops[0]));
    }
  }

  lemma {:induction false} WalkOpAttrsExist(m: Module, op: Op, scope: set<Var>)
    requires WellTypedOp(m, op, scope) && ConformsOp(op)
    ensures AttrsExist(m, WalkOp(op))
    decreases op
  {
    match op
    case If(_, _, thn, els) =>
      WalkAttrsExist(m, thn.ops, scope + set v | v in thn.args);
      WalkAttrsExist(m, els.ops, scope + set v | v in els.args);
    case Loop(_, _, _, _, body) =>
      WalkAttrsExist(m, body.ops, scope + set v | v in body.args);
    case _ =>
  }

  function InstancesFor(m: Module, f: Func, args: seq<ArgInstance>): Mapping
    requires forall a <- args :: a.argIndex < |f.params|
  {
    Analyze(m, Walk(f.ops), ArgMapping(f.params, args))
  }

  /** The analysis of a monomorphization of a well-formed program: all module values get the right instance. */
  lemma InstancesAreRight(m: Module, k: Monomorphization)
    requires WellFormedProgram(m) && IsMonomorphization(m, k)
    ensures forall a <- k.argInstances :: a.argIndex < |m.funcs[k.func].params|
    ensures var f := m.funcs[k.func];
            var mapping := InstancesFor(m, f, k.argInstances);
            MappingOk(m, mapping) && Consistent(m, Walk(f.ops), mapping) &&
            KnowsModules(mapping.Keys, set v | v in f.params) &&
            forall a <- k.argInstances :: f.params[a.argIndex] in mapping && mapping[f.params[a.argIndex]] == a.instance
  {
    var f := m.funcs[k.func];
    ArgsAreRight(m, k);
    assert WellTypedFunc(m, f) && ConformsFunc(f);
    WalkAttrsExist(m, f.ops, set v | v in f.params);
    AnalyzeIsConsistent(m, Walk(f.ops), ArgMapping(f.params, k.argInstances));
  }

  /** The arguments alone: every module parameter is mapped, and the walk can start. */
  lemma ArgsAreRight(m: Module, k: Monomorphization)
    requires WellFormedProgram(m) && IsMonomorphization(m, k)
    ensures forall a <- k.argInstances :: a.argIndex < |m.funcs[k.func].params|
    ensures var f := m.funcs[k.func];
            var mapping := ArgMapping(f.params, k.argInstances);
            MappingOk(m, mapping) && KnowsModules(mapping.Keys, set v | v in f.params) &&
            Scoped(Walk(f.ops), mapping.Keys) &&
            NoDup(ModuleResults(Walk(f.ops))) && (forall v <- ModuleResults(Walk(f.ops)) :: v !in mapping) &&
            forall a <- k.argInstances :: f.params[a.argIndex] in mapping && mapping[f.params[a.argIndex]] == a.instance
  {
    var f, args := m.funcs[k.func], k.argInstances;
    assert WellTypedFunc(m, f) && ConformsFunc(f);
    FittingArgsMatch(m, f.params, 0, args);
    DefinedOnce(f);
    ArgMappingIsRight(m, f.params, args);
    var mapping := ArgMapping(f.params, args);
    ModuleParamsMapped(m, f.params, args);
    WalkIsScoped(m, f.ops, (set v | v in f.params), mapping.Keys);
  }

  lemma ModuleParamsMapped(m: Module, params: seq<Var>, args: seq<ArgInstance>)
    requires ArgsMatch(m, params, 0, args) && (forall a <- args :: a.argIndex < |params|)
    requires forall a <- args :: params[a.argIndex] in ArgMapping(params, args)
    ensures KnowsModules(ArgMapping(params, args).Keys, set v | v in params)
  {
    forall v | v in params && v.ty.NnModule? ensures v in ArgMapping(params, args) {
      var j :| 0 <= j < |params| && params[j] == v;
      var k :| 0 <= k < |args| && args[k].argIndex == j;
      assert args[k] in args;
    }
  }

  lemma DefinedOnce(f: Func)
    requires NoDup(f.params + Defs(f.ops))
    ensures Distinct(f.params) && NoDup(ModuleResults(Walk(f.ops))) &&
            forall v <- ModuleResults(Walk(f.ops)) :: v !in f.params
  {
    var all, results := f.params + Defs(f.ops), ModuleResults(Walk(f.ops));
    ModuleResultsAreDefs(f.ops);
    assert multiset(all) == multiset(f.params) + multiset(Defs(f.ops));
    forall v ensures multiset(results)[v] <= 1 && multiset(f.params)[v] + multiset(results)[v] <= 1 {
      assert multiset(all)[v] <= 1;
    }
    forall v <- results ensures v !in f.params { assert multiset(results)[v] >= 1; assert multiset(f.params)[v] == 0; }
    NoDupIsDistinct(f.params);
  }

  lemma NoDupIsDistinct(vs: seq<Var>)
    requires NoDup(vs)
    ensures Distinct(vs)
  {
    forall i, j | 0 <= i < j < |vs| ensures vs[i] != vs[j] {
      assert vs == vs[..j] + [vs[j]] + vs[j + 1..];
      assert multiset(vs) == multiset(vs[..j]) + multiset{vs[j]} + multiset(vs[j + 1..]);
      assert vs[i] == vs[..j][i] && vs[i] in multiset(vs[..j]);
      assert multiset(vs)[vs[i]] <= 1;
    }
  }

  lemma FuncAttrsExist(m: Module, name: string)
    requires WellFormedProgram(m) && name in m.funcs
    ensures AttrsExist(m, Walk(m.funcs[name].ops))
  {
    var f := m.funcs[name];
    assert WellTypedFunc(m, f) && ConformsFunc(f);
    WalkAttrsExist(m, f.ops, set v | v in f.params);
  }

  method MapArguments(params: seq<Var>, args: seq<ArgInstance>) returns (mapping: Mapping)
    requires forall a <- args :: a.argIndex < |params|
    ensures mapping == ArgMapping(params, args)
  {
    mapping := map[];
    for n := 0 to |args|
      invariant mapping == ArgMapping(params, args[..n])
    {
      assert args[..n + 1][..n] == args[..n];
      mapping := mapping[params[args[n].argIndex] := args[n].instance];
    }
    assert args[..|args|] == args;
  }

  /** Populates the mapping; `op.receiver in mapping` is the lookup the pass asserts. */
  method AnalyzeInstances(m: Module, k: Monomorphization) returns (mapping: Mapping)
    requires WellFormedProgram(m) && IsMonomorphization(m, k)
    ensures forall a <- k.argInstances :: a.argIndex < |m.funcs[k.func].params|
    ensures mapping == InstancesFor(m, m.funcs[k.func], k.argInstances)
  {
    ArgsAreRight(m, k);
    var f := m.funcs[k.func];
    FuncAttrsExist(m, k.func);
    mapping := MapArguments(f.params, k.argInstances);
    var walk := Walk(f.ops);
    for n := 0 to |walk|
      invariant MappingOk(m, mapping) && Scoped(walk[n..], mapping.Keys)
      invariant Analyze(m, walk[n..], mapping) == InstancesFor(m, f, k.argInstances)
    {
      var op := walk[n];
      AnalyzeOpApplies(m, walk, n, mapping);
      if IsModuleGet(op) {
        assert op.receiver in mapping;
        var slots := SlotsOf(m, mapping[op.receiver]);
        var slot := FindSlot(slots, op.name);
        mapping := mapping[op.result := slots[slot.value].value];
      }
    }
  }

  lemma AnalyzeOpApplies(m: Module, walk: seq<Op>, n: nat, mapping: Mapping)
    requires WellFormedGraph(m) && n < |walk| && MappingOk(m, mapping) && AttrsExist(m, walk) &&
             Scoped(walk[n..], mapping.Keys)
    ensures IsModuleGet(walk[n]) ==>
            walk[n].receiver in mapping && SlotValue(m, mapping[walk[n].receiver], walk[n].name).Some?
    ensures MappingOk(m, AnalyzeOp(m, walk[n], mapping)) && Scoped(walk[n + 1..], AnalyzeOp(m, walk[n], mapping).Keys)
    ensures Analyze(m, walk[n..], mapping) == Analyze(m, walk[n + 1..], AnalyzeOp(m, walk[n], mapping))
  {
    assert walk[n..][0] == walk[n] && walk[n..][1..] == walk[n + 1..] && walk[n] in walk;
    assert Scoped([walk[n]], mapping.Keys) by { assert [walk[n]][1..] == []; }
    AnalyzeOpIsRight(m, walk[n], mapping);
  }
}
