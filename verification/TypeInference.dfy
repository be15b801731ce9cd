/**
 The function type inference pass: values of unknown type become type variables, ops become
 equations, and the unifier's answer is written back. Models `TypeEquations`,
 `TypeEquationPopulator` and the pass of lib/Dialect/Basicpy/Transforms/TypeInference.cpp.
 */
module TypeInference {
  import opened Option
  import opened Unifier

  // The declared type of an SSA value.
  datatype DeclaredType = Unknown | Known(ty: Ty)

  datatype Value = Value(id: nat, declared: DeclaredType)

  /**
   The ops that take part in inference, in walk order. `Yield` carries the results of its parent
   op; `Return` is a return from the function itself, `InnerReturn` from a nested region.
   */
  datatype Op =
    | Select(trueValue: Value, falseValue: Value)
    | AsI1(operand: Value)
    | If(results: seq<Value>)
    | Yield(parentResults: seq<Value>, operands: seq<Value>)
    | UnknownCast(operand: Value, result: Value)
    | BinaryExpr(left: Value, right: Value, result: Value)
    | BinaryCompare(left: Value, right: Value)
    | ConstantLike(result: Value)
    | Return(operands: seq<Value>)
    | InnerReturn
    | Unhandled

  // ---- Typing rules: the reference the pass is measured against ----

  type Typing = Value -> Ty

  ghost predicate RespectsDeclared(t: Typing) {
    forall v: Value :: v.declared.Known? ==> t(v) == v.declared.ty
  }

  ghost predicate Agree(t: Typing, xs: seq<Value>, ys: seq<Value>)
    requires |xs| == |ys|
  {
    forall i | 0 <= i < |xs| :: t(xs[i]) == t(ys[i])
  }

  /**
   `t` types the ops from some point of the walk on, `last` being the operands of the last
   function return seen. A function return of another arity stops the walk.
   */
  ghost predicate WellTyped(t: Typing, ops: seq<Op>, last: Option<seq<Value>>) {
    ops == [] ||
    match ops[0]
    case Select(x, y) => t(x) == t(y) && WellTyped(t, ops[1..], last)
    case Yield(rs, xs) => (|rs| == |xs| ==> Agree(t, xs, rs)) && WellTyped(t, ops[1..], last)
    case UnknownCast(x, y) => t(x) == t(y) && WellTyped(t, ops[1..], last)
    case BinaryExpr(x, y, r) => t(x) == t(y) == t(r) && WellTyped(t, ops[1..], last)
    case BinaryCompare(x, y) => t(x) == t(y) && WellTyped(t, ops[1..], last)
    case Return(xs) =>
      (last.Some? && |last.value| != |xs|) ||
      ((last.Some? ==> Agree(t, last.value, xs)) && WellTyped(t, ops[1..], Some(xs)))
    case _ => WellTyped(t, ops[1..], last)
  }

  /** A function return whose arity differs from the last one stops the walk. */
  predicate Stops(op: Op, last: Option<seq<Value>>) {
    op.Return? && last.Some? && |last.value| != |op.operands|
  }

  function NextReturn(op: Op, last: Option<seq<Value>>): Option<seq<Value>> {
    if op.Return? then Some(op.operands) else last
  }

  /** The values one op asks a type node for, in order. */
  function OpMentioned(op: Op, last: Option<seq<Value>>): seq<Value>
    requires !Stops(op, last)
  {
    match op
    case Select(x, y) => [x, y]
    case AsI1(x) => [x]
    case If(rs) => rs
    case Yield(rs, xs) => if |rs| == |xs| then Interleave(xs, rs) else []
    case UnknownCast(x, y) => [x, y]
    case BinaryExpr(x, y, r) => [x, y, x, r]
    case BinaryCompare(x, y) => [x, y]
    case ConstantLike(r) => [r]
    case Return(xs) => if last.Some? then Interleave(last.value, xs) else []
    case _ => []
  }

  function Mentioned(ops: seq<Op>, last: Option<seq<Value>>): seq<Value> {
    if ops == [] || Stops(ops[0], last) then []
    else OpMentioned(ops[0], last) + Mentioned(ops[1..], NextReturn(ops[0], last))
  }

  function Interleave(xs: seq<Value>, ys: seq<Value>): (zs: seq<Value>)
    requires |xs| == |ys|
  {
    if xs == [] then [] else [xs[0], ys[0]] + Interleave(xs[1..], ys[1..])
  }

  // ---- Equations ----

  /** Each value asked for has its node; each equation holds the nodes of its two values. */
  ghost predicate NodesFit(defToNode: map<Value, Node>, ordinalToDef: seq<Value>,
                           equations: seq<Equation>, sides: seq<(Value, Value)>) {
    && (forall v <- defToNode ::
          match v.declared
          case Known(ty) => defToNode[v] == ConstType(ty)
          case Unknown =>
            defToNode[v].TypeVar? && defToNode[v].ordinal < |ordinalToDef| &&
            ordinalToDef[defToNode[v].ordinal] == v)
    && (forall n | 0 <= n < |ordinalToDef| ::
          ordinalToDef[n] in defToNode && defToNode[ordinalToDef[n]] == TypeVar(n))
    && |equations| == |sides|
    && (forall i | 0 <= i < |sides| ::
          sides[i].0 in defToNode && sides[i].1 in defToNode &&
          equations[i] == Equation(defToNode[sides[i].0], defToNode[sides[i].1]))
  }

  /** Nodes are created once for each value; variables are numbered in creation order. */
  class TypeEquations {
    var defToNode: map<Value, Node>
    var equations: seq<Equation>
    var ordinalToDef: seq<Value>
    // The values behind each equation, left and right.
    ghost var sides: seq<(Value, Value)>
    // Every value asked for so far, in order.
    ghost var asked: seq<Value>

    ghost predicate Valid()
      reads this
    {
      && NodesFit(defToNode, ordinalToDef, equations, sides)
      && (forall v :: v in defToNode <==> v in asked)
    }

    constructor ()
      ensures Valid() && sides == [] && asked == []
    {
      defToNode, equations, ordinalToDef := map[], [], [];
      sides, asked := [], [];
    }

    method GetTypeNode(def: Value) returns (node: Node)
      requires Valid()
      modifies this
      ensures Valid() && def in defToNode && node == defToNode[def]
      ensures forall v <- old(defToNode) :: v in defToNode && defToNode[v] == old(defToNode)[v]
      ensures sides == old(sides) && asked == old(asked) + [def]
    {
      if def !in defToNode {
        if def.declared.Unknown? {
          defToNode := defToNode[def := TypeVar(|ordinalToDef|)];
          ordinalToDef := ordinalToDef + [def];
        } else {
          defToNode := defToNode[def := ConstType(def.declared.ty)];
        }
      }
      asked := asked + [def];
      node := defToNode[def];
    }

    method AddTypeEqualityEquation(def1: Value, def2: Value)
      requires Valid()
      modifies this
      ensures Valid()
      ensures sides == old(sides) + [(def1, def2)] && asked == old(asked) + [def1, def2]
    {
      var left := GetTypeNode(def1);
      var right := GetTypeNode(def2);
      equations := equations + [Equation(left, right)];
      sides := sides + [(def1, def2)];
      assert forall v :: v in asked <==> v in old(asked) || v == def1 || v == def2;
    }

    /** One equation for each pair of a zip. */
    method AddPairwise(xs: seq<Value>, ys: seq<Value>)
      requires Valid() && |xs| == |ys|
      modifies this
      ensures Valid()
      ensures sides == old(sides) + Zip(xs, ys) && asked == old(asked) + Interleave(xs, ys)
    {
      var i := 0;
      while i < |xs|
        invariant 0 <= i <= |xs| && Valid()
        invariant old(sides) + Zip(xs, ys) == sides + Zip(xs[i..], ys[i..])
        invariant old(asked) + Interleave(xs, ys) == asked + Interleave(xs[i..], ys[i..])
      {
        AddTypeEqualityEquation(xs[i], ys[i]);
        assert xs[i..][1..] == xs[i + 1..] && ys[i..][1..] == ys[i + 1..];
        i := i + 1;
      }
    }

    method GetTypeNodes(xs: seq<Value>)
      requires Valid()
      modifies this
      ensures Valid() && sides == old(sides) && asked == old(asked) + xs
    {
      var i := 0;
      while i < |xs|
        invariant 0 <= i <= |xs| && Valid()
        invariant sides == old(sides) && asked == old(asked) + xs[..i]
      {
        var _ := GetTypeNode(xs[i]);
        i := i + 1;
      }
    }

    /** The equations of one op; `stop` when the walk is interrupted at it. */
    method Populate(op: Op, funcReturn: Option<seq<Value>>) returns (next: Option<seq<Value>>, stop: bool)
      requires Valid()
      modifies this
      ensures Valid()
      ensures stop == Stops(op, funcReturn)
      ensures stop ==> sides == old(sides) && asked == old(asked)
      ensures !stop ==>
                next == NextReturn(op, funcReturn) &&
                sides == old(sides) + OpSides(op, funcReturn) && asked == old(asked) + OpMentioned(op, funcReturn)
    {
      next, stop := funcReturn, false;
      match op {
        case Select(x, y) => AddTypeEqualityEquation(x, y);
        case AsI1(x) => var _ := GetTypeNode(x);
        case If(results) => GetTypeNodes(results);
        case Yield(results, operands) =>
          if |results| == |operands| { AddPairwise(operands, results); }
        case UnknownCast(x, y) => AddTypeEqualityEquation(x, y);
        case BinaryExpr(x, y, r) =>
          AddTypeEqualityEquation(x, y);
          AddTypeEqualityEquation(x, r);
        case BinaryCompare(x, y) => AddTypeEqualityEquation(x, y);
        case ConstantLike(r) => var _ := GetTypeNode(r);
        case Return(operands) =>
          if funcReturn.Some? {
            if |funcReturn.value| != |operands| {
              stop := true;
              return;
            }
            AddPairwise(funcReturn.value, operands);
          }
          next := Some(operands);
        case _ =>
      }
    }

    /** The populator: nodes for the arguments, then one pass over the ops. */
    method RunOnFunction(arguments: seq<Value>, ops: seq<Op>)
      requires Valid() && sides == [] && asked == []
      modifies this
      ensures Valid()
      ensures sides == Sides(ops, None) && asked == arguments + Mentioned(ops, None)
    {
      GetTypeNodes(arguments);
      var funcReturn: Option<seq<Value>> := None;
      var i := 0;
      while i < |ops|
        invariant 0 <= i <= |ops| && Valid()
        invariant Sides(ops, None) == sides + Sides(ops[i..], funcReturn)
        invariant arguments + Mentioned(ops, None) == asked + Mentioned(ops[i..], funcReturn)
      {
        PopulateStep(ops, i, funcReturn, sides, asked);
        var stop;
        funcReturn, stop := Populate(ops[i], funcReturn);
        if stop { break; }
        i := i + 1;
      }
    }
  }

  function Zip(xs: seq<Value>, ys: seq<Value>): (zs: seq<(Value, Value)>)
    requires |xs| == |ys|
  {
    if xs == [] then [] else [(xs[0], ys[0])] + Zip(xs[1..], ys[1..])
  }

  /** The pairs of values one op equates, in order. */
  function OpSides(op: Op, last: Option<seq<Value>>): seq<(Value, Value)>
    requires !Stops(op, last)
  {
    match op
    case Select(x, y) => [(x, y)]
    case Yield(rs, xs) => if |rs| == |xs| then Zip(xs, rs) else []
    case UnknownCast(x, y) => [(x, y)]
    case BinaryExpr(x, y, r) => [(x, y), (x, r)]
    case BinaryCompare(x, y) => [(x, y)]
    case Return(xs) => if last.Some? then Zip(last.value, xs) else []
    case _ => []
  }

  function Sides(ops: seq<Op>, last: Option<seq<Value>>): seq<(Value, Value)> {
    if ops == [] || Stops(ops[0], last) then []
    else OpSides(ops[0], last) + Sides(ops[1..], NextReturn(ops[0], last))
  }

  /** Moving one op from what is to come to what is done. */
  lemma PopulateStep(ops: seq<Op>, i: nat, last: Option<seq<Value>>,
                     sides: seq<(Value, Value)>, asked: seq<Value>)
    requires i < |ops|
    ensures Stops(ops[i], last) ==> Sides(ops[i..], last) == [] && Mentioned(ops[i..], last) == []
    ensures !Stops(ops[i], last) ==>
              sides + Sides(ops[i..], last) ==
                sides + OpSides(ops[i], last) + Sides(ops[i + 1..], NextReturn(ops[i], last)) &&
              asked + Mentioned(ops[i..], last) ==
                asked + OpMentioned(ops[i], last) + Mentioned(ops[i + 1..], NextReturn(ops[i], last))
  {
    assert ops[i..][0] == ops[i] && ops[i..][1..] == ops[i + 1..];
  }

  ghost predicate Equal(t: Typing, pairs: seq<(Value, Value)>) {
    forall i | 0 <= i < |pairs| :: t(pairs[i].0) == t(pairs[i].1)
  }

  lemma EqualAppend(t: Typing, a: seq<(Value, Value)>, b: seq<(Value, Value)>)
    ensures Equal(t, a + b) <==> Equal(t, a) && Equal(t, b)
  {
    if Equal(t, a + b) {
      assert forall i | 0 <= i < |a| :: (a + b)[i] == a[i];
      assert forall i | 0 <= i < |b| :: (a + b)[|a| + i] == b[i];
    }
  }

  lemma EqualCons(t: Typing, x: Value, y: Value, rest: seq<(Value, Value)>)
    ensures Equal(t, [(x, y)] + rest) <==> t(x) == t(y) && Equal(t, rest)
  {
    EqualAppend(t, [(x, y)], rest);
    assert [(x, y)][0] == (x, y);
  }

  lemma {:induction false} EqualZip(t: Typing, xs: seq<Value>, ys: seq<Value>)
    requires |xs| == |ys|
    ensures Equal(t, Zip(xs, ys)) <==> Agree(t, xs, ys)
  {
    if xs != [] {
      EqualZip(t, xs[1..], ys[1..]);
      EqualCons(t, xs[0], ys[0], Zip(xs[1..], ys[1..]));
      assert xs == [xs[0]] + xs[1..] && ys == [ys[0]] + ys[1..];
      if Agree(t, xs, ys) {
        forall i | 0 <= i < |xs[1..]| ensures t(xs[1..][i]) == t(ys[1..][i]) {
          assert t(xs[i + 1]) == t(ys[i + 1]);
        }
      }
    }
  }

  /** The equations say exactly what the typing rules say. */
  lemma {:induction false} SidesAreTypingRules(t: Typing, ops: seq<Op>, last: Option<seq<Value>>)
    ensures Equal(t, Sides(ops, last)) <==> WellTyped(t, ops, last)
  {
    if ops == [] || Stops(ops[0], last) {
    } else {
      var rest := Sides(ops[1..], NextReturn(ops[0], last));
      SidesAreTypingRules(t, ops[1..], NextReturn(ops[0], last));
      EqualAppend(t, OpSides(ops[0], last), rest);
      match ops[0] {
        case Select(x, y) => EqualCons(t, x, y, []);
        case Yield(rs, xs) => if |rs| == |xs| { EqualZip(t, xs, rs); }
        case UnknownCast(x, y) => EqualCons(t, x, y, []);
        case BinaryExpr(x, y, r) =>
          EqualCons(t, x, y, [(x, r)]);
          EqualCons(t, x, r, []);
          assert [(x, y)] + [(x, r)] == OpSides(ops[0], last);
        case BinaryCompare(x, y) => EqualCons(t, x, y, []);
        case Return(xs) => if last.Some? { EqualZip(t, last.value, xs); }
        case _ =>
      }
    }
  }

  // ---- The pass ----

  /** The typings that the function's declared types and its ops allow. */
  ghost predicate Admissible(t: Typing, ops: seq<Op>) {
    RespectsDeclared(t) && WellTyped(t, ops, None)
  }

  /** Some admissible typing exists, and every one of them gives `v` the type `ty`. */
  ghost predicate Forced(v: Value, ty: Ty, ops: seq<Op>) {
    (exists t: Typing :: Admissible(t, ops)) &&
    forall t: Typing :: Admissible(t, ops) ==> t(v) == ty
  }

  /** The assignment a typing gives to the type variables. */
  ghost function ToAssignment(t: Typing, ordinalToDef: seq<Value>): Assignment {
    (n: nat) => if n < |ordinalToDef| then t(ordinalToDef[n]) else ""
  }

  /** The typing an assignment stands for; a value with no node gets the type `free`. */
  ghost function ToTyping(a: Assignment, defToNode: map<Value, Node>, free: Ty): Typing {
    (v: Value) =>
      if v.declared.Known? then v.declared.ty
      else if v in defToNode then Eval(defToNode[v], a)
      else free
  }

  lemma TypingSolves(t: Typing, defToNode: map<Value, Node>, ordinalToDef: seq<Value>,
                     equations: seq<Equation>, ops: seq<Op>)
    requires NodesFit(defToNode, ordinalToDef, equations, Sides(ops, None))
    requires Admissible(t, ops)
    ensures Satisfies(ToAssignment(t, ordinalToDef), equations)
  {
    SidesAreTypingRules(t, ops, None);
    var a := ToAssignment(t, ordinalToDef);
    assert forall v <- defToNode :: Eval(defToNode[v], a) == t(v);
  }

  lemma SolutionTypes(a: Assignment, free: Ty, defToNode: map<Value, Node>, ordinalToDef: seq<Value>,
                      equations: seq<Equation>, ops: seq<Op>)
    requires NodesFit(defToNode, ordinalToDef, equations, Sides(ops, None))
    requires Satisfies(a, equations)
    ensures Admissible(ToTyping(a, defToNode, free), ops)
  {
    var t := ToTyping(a, defToNode, free);
    var sides := Sides(ops, None);
    assert forall v <- defToNode :: Eval(defToNode[v], a) == t(v);
    assert Equal(t, sides) by {
      forall i | 0 <= i < |sides| ensures t(sides[i].0) == t(sides[i].1) {
        assert Eval(equations[i].left, a) == Eval(equations[i].right, a);
      }
    }
    SidesAreTypingRules(t, ops, None);
  }

  /** The equations are solvable iff the function has an admissible typing. */
  lemma TypingsSolveEquations(defToNode: map<Value, Node>, ordinalToDef: seq<Value>,
                              equations: seq<Equation>, ops: seq<Op>)
    requires NodesFit(defToNode, ordinalToDef, equations, Sides(ops, None))
    ensures (exists a: Assignment :: Satisfies(a, equations)) <==> (exists t: Typing :: Admissible(t, ops))
  {
    if a: Assignment :| Satisfies(a, equations) {
      SolutionTypes(a, "", defToNode, ordinalToDef, equations, ops);
    }
    if t: Typing :| Admissible(t, ops) {
      TypingSolves(t, defToNode, ordinalToDef, equations, ops);
    }
  }

  ghost predicate ResolvesTo(defToNode: map<Value, Node>, s: Subst, v: Value, ty: Ty)
    requires Acyclic(s)
  {
    v in defToNode && ResolveSubst(defToNode[v], s) == Some(ty)
  }

  /** A value's type is forced by the function iff its node resolves to that type. */
  lemma ForcedIsResolved(defToNode: map<Value, Node>, ordinalToDef: seq<Value>, equations: seq<Equation>,
                         ops: seq<Op>, s: Subst, v: Value, ty: Ty)
    requires NodesFit(defToNode, ordinalToDef, equations, Sides(ops, None))
    requires UnifyAll(equations, NoBindings()) == Some(s) && v.declared.Unknown?
    ensures Acyclic(s)
    ensures Forced(v, ty, ops) <==> ResolvesTo(defToNode, s, v, ty)
  {
    UnificationIsPrincipal(equations);
    TypingsSolveEquations(defToNode, ordinalToDef, equations, ops);
    var c := Canonical(s, "");
    CanonicalSolves(s, "");
    if v in defToNode {
      ResolveIsForced(defToNode[v], s);
      if Forced(v, ty, ops) {
        forall a: Assignment | Solves(a, s) ensures Eval(defToNode[v], a) == ty {
          SolutionTypes(a, "", defToNode, ordinalToDef, equations, ops);
          assert ToTyping(a, defToNode, "")(v) == ty;
        }
      }
      if ResolveSubst(defToNode[v], s) == Some(ty) {
        assert Satisfies(c, equations);
        forall t: Typing | Admissible(t, ops) ensures t(v) == ty {
          TypingSolves(t, defToNode, ordinalToDef, equations, ops);
          assert Eval(defToNode[v], ToAssignment(t, ordinalToDef)) == t(v);
        }
      }
    } else {
      SolutionTypes(c, ty + "'", defToNode, ordinalToDef, equations, ops);
      assert ToTyping(c, defToNode, ty + "'")(v) != ty;
    }
  }

  lemma UnifiesIffTypable(defToNode: map<Value, Node>, ordinalToDef: seq<Value>, equations: seq<Equation>, ops: seq<Op>)
    requires NodesFit(defToNode, ordinalToDef, equations, Sides(ops, None))
    ensures UnifyAll(equations, NoBindings()).Some? <==> exists t: Typing :: Admissible(t, ops)
  {
    UnificationIsPrincipal(equations);
    TypingsSolveEquations(defToNode, ordinalToDef, equations, ops);
  }

  /**
   Runs inference. It fails iff no admissible typing exists; otherwise a value of unknown type is
   given type `ty` iff every admissible typing gives it `ty`, and no other value is touched.
   */
  method InferFunctionTypes(arguments: seq<Value>, ops: seq<Op>) returns (types: Option<map<Value, Ty>>)
    ensures types.Some? <==> exists t: Typing :: Admissible(t, ops)
    ensures types.Some? ==> forall v <- types.value :: v.declared.Unknown?
    ensures types.Some? ==>
              forall v: Value, ty: Ty | v.declared.Unknown? ::
                v in types.value && types.value[v] == ty <==> Forced(v, ty, ops)
  {
    var eqs := new TypeEquations();
    eqs.RunOnFunction(arguments, ops);
    var subst := UnifyEquations(eqs.equations);
    UnifiesIffTypable(eqs.defToNode, eqs.ordinalToDef, eqs.equations, ops);
    if subst.None? { return None; }
    var resolved := ResolveAll(eqs.defToNode, eqs.ordinalToDef, eqs.equations, ops, subst.value);
    types := Some(resolved);
    ResolvedIsForced(eqs.defToNode, eqs.ordinalToDef, eqs.equations, ops, subst.value, resolved);
  }

  lemma ResolvedIsForced(defToNode: map<Value, Node>, ordinalToDef: seq<Value>, equations: seq<Equation>, ops: seq<Op>,
                         s: Subst, resolved: map<Value, Ty>)
    requires NodesFit(defToNode, ordinalToDef, equations, Sides(ops, None)) &&
             UnifyAll(equations, NoBindings()) == Some(s) && Acyclic(s)
    requires forall v: Value, ty: Ty | v.declared.Unknown? ::
               v in resolved && resolved[v] == ty <==> ResolvesTo(defToNode, s, v, ty)
    ensures forall v: Value, ty: Ty | v.declared.Unknown? :: v in resolved && resolved[v] == ty <==> Forced(v, ty, ops)
  {
    forall v: Value, ty: Ty | v.declared.Unknown? ensures v in resolved && resolved[v] == ty <==> Forced(v, ty, ops) {
      ForcedIsResolved(defToNode, ordinalToDef, equations, ops, s, v, ty);
    }
  }

  /** Sets the type of each bound value whose binding resolves. */
  method ResolveAll(defToNode: map<Value, Node>, ordinalToDef: seq<Value>, ghost equations: seq<Equation>,
                    ghost ops: seq<Op>, s: Subst)
    returns (resolved: map<Value, Ty>)
    requires NodesFit(defToNode, ordinalToDef, equations, Sides(ops, None)) &&
             UnifyAll(equations, NoBindings()) == Some(s)
    ensures Acyclic(s) && forall v <- resolved :: v.declared.Unknown?
    ensures forall v: Value, ty: Ty | v.declared.Unknown? ::
              v in resolved && resolved[v] == ty <==> ResolvesTo(defToNode, s, v, ty)
  {
    UnificationIsPrincipal(equations);
    UnifyAllBelow(equations, NoBindings(), |ordinalToDef|);
    resolved := map[];
    var remaining := s.Keys;
    while remaining != {}
      invariant remaining <= s.Keys
      invariant forall v <- resolved ::
          v in defToNode && v.declared.Unknown? && defToNode[v].ordinal in s.Keys - remaining &&
          ResolveSubst(defToNode[v], s) == Some(resolved[v])
      invariant forall n <- s.Keys - remaining :: ResolveSubst(TypeVar(n), s).Some? ==> ordinalToDef[n] in resolved
    {
      var n :| n in remaining;
      var resolvedType := ResolveSubst(s[n], s);
      if resolvedType.Some? {
        resolved := resolved[ordinalToDef[n] := resolvedType.value];
      }
      remaining := remaining - {n};
    }
  }
}
