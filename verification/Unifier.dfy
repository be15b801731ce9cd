/**
 Type unification by a triangular substitution: every variable is bound to a node, which may be
 a variable that is itself bound. Models `TypeUnifier` of
 lib/Dialect/Basicpy/Transforms/TypeInference.cpp.
 */
module Unifier {
  import opened Option

  // An IR type; the unifier only ever compares types for equality.
  type Ty = string

  datatype Node = ConstType(ty: Ty) | TypeVar(ordinal: nat)

  type Subst = map<nat, Node>

  datatype Equation = Equation(left: Node, right: Node)

  // ---- Acyclic substitutions ----

  /** `rank` strictly falls along every link of the substitution. */
  ghost predicate Ranked(s: Subst, rank: map<nat, nat>) {
    forall v <- s ::
      v in rank &&
      (s[v].TypeVar? && s[v].ordinal in s ==> s[v].ordinal in rank && rank[s[v].ordinal] < rank[v])
  }

  ghost predicate Acyclic(s: Subst) {
    exists rank :: Ranked(s, rank)
  }

  /** Remaining chain depth of a node: the termination measure of everything below. */
  ghost function Depth(n: Node, s: Subst): nat
    requires Acyclic(s)
  {
    if n.TypeVar? && n.ordinal in s then
      var rank :| Ranked(s, rank);
      rank[n.ordinal] + 1
    else 0
  }

  // ---- The unifier ----

  function Unify(x: Node, y: Node, s: Subst): (r: Option<Subst>)
    requires Acyclic(s)
    decreases Depth(x, s) + Depth(y, s), 1
  {
    if x == y then Some(s)
    else if x.TypeVar? then UnifyVariable(x, y, s)
    else if y.TypeVar? then UnifyVariable(y, x, s)
    else None
  }

  function UnifyVariable(v: Node, t: Node, s: Subst): (r: Option<Subst>)
    requires v.TypeVar? && Acyclic(s)
    decreases Depth(v, s) + Depth(t, s), 0
  {
    if v.ordinal in s then Unify(s[v.ordinal], t, s)
    else if t.TypeVar? && t.ordinal in s then Unify(v, s[t.ordinal], s)
    else if OccursCheck(v, t, s) then None
    else Some(s[v.ordinal := t])
  }

  predicate OccursCheck(v: Node, t: Node, s: Subst)
    requires Acyclic(s)
    decreases Depth(t, s)
  {
    v == t || (t.TypeVar? && t.ordinal in s && OccursCheck(v, s[t.ordinal], s))
  }

  function ResolveSubst(n: Node, s: Subst): (r: Option<Ty>)
    requires Acyclic(s)
    decreases Depth(n, s)
  {
    match n
    case ConstType(ty) => Some(ty)
    case TypeVar(ordinal) => if ordinal in s then ResolveSubst(s[ordinal], s) else None
  }

  /** The node at the end of a chain: a constant, or a variable that is not bound. */
  ghost function Walk(n: Node, s: Subst): (end: Node)
    requires Acyclic(s)
    ensures end.TypeVar? ==> end.ordinal !in s
    decreases Depth(n, s)
  {
    if n.TypeVar? && n.ordinal in s then Walk(s[n.ordinal], s) else n
  }

  // ---- Meaning: assignments of types to variables ----

  type Assignment = nat -> Ty

  function Eval(n: Node, a: Assignment): Ty {
    match n
    case ConstType(ty) => ty
    case TypeVar(ordinal) => a(ordinal)
  }

  /** `a` makes every binding of `s` an equality of types. */
  ghost predicate Solves(a: Assignment, s: Subst) {
    forall v <- s :: a(v) == Eval(s[v], a)
  }

  ghost predicate Satisfies(a: Assignment, eqs: seq<Equation>) {
    forall i | 0 <= i < |eqs| :: Eval(eqs[i].left, a) == Eval(eqs[i].right, a)
  }

  // ---- Acyclicity is kept ----

  lemma {:induction false} WalkEval(n: Node, s: Subst, a: Assignment)
    requires Acyclic(s) && Solves(a, s)
    ensures Eval(n, a) == Eval(Walk(n, s), a)
    decreases Depth(n, s)
  {
    if n.TypeVar? && n.ordinal in s {
      WalkEval(s[n.ordinal], s, a);
    }
  }

  lemma {:induction false} OccursMeansWalk(v: Node, t: Node, s: Subst)
    requires v.TypeVar? && v.ordinal !in s && Acyclic(s)
    ensures OccursCheck(v, t, s) <==> Walk(t, s) == v
    decreases Depth(t, s)
  {
    if t.TypeVar? && t.ordinal in s {
      OccursMeansWalk(v, s[t.ordinal], s);
    }
  }

  lemma ExtendAcyclic(v: nat, t: Node, s: Subst)
    requires Acyclic(s) && v !in s && Walk(t, s) != TypeVar(v)
    ensures Acyclic(s[v := t])
  {
    var rank :| Ranked(s, rank);
    var base := if t.TypeVar? && t.ordinal in s then rank[t.ordinal] + 1 else 0;
    // A variable whose chain now runs on through v is ranked above v.
    var rank' := map u | u in s[v := t] ::
      if u == v then base
      else if Walk(TypeVar(u), s) == TypeVar(v) then rank[u] + base + 1
      else rank[u];
    forall u <- s[v := t]
      ensures s[v := t][u].TypeVar? && s[v := t][u].ordinal in s[v := t] ==>
                rank'[s[v := t][u].ordinal] < rank'[u]
    {
      if u != v { assert Walk(TypeVar(u), s) == Walk(s[u], s); }
    }
    assert Ranked(s[v := t], rank');
  }

  // ---- One equation ----

  /** What a successful or failed unification of `x` with `y` under `s` means. */
  ghost predicate UnifyPost(x: Node, y: Node, s: Subst, r: Option<Subst>) {
    match r
    case Some(s') =>
      Acyclic(s') && s.Keys <= s'.Keys && (forall v <- s :: s'[v] == s[v]) &&
      (forall a: Assignment :: Solves(a, s') <==> Solves(a, s) && Eval(x, a) == Eval(y, a))
    case None =>
      forall a: Assignment :: Solves(a, s) ==> Eval(x, a) != Eval(y, a)
  }

  /**
   One call of unify: a result extends the substitution, stays acyclic, and has exactly the old
   solutions that equate the two nodes; no result means no old solution equates them.
   */
  lemma {:induction false} UnifyCorrect(x: Node, y: Node, s: Subst)
    requires Acyclic(s)
    ensures UnifyPost(x, y, s, Unify(x, y, s))
    decreases Depth(x, s) + Depth(y, s), 1
  {
    if x == y {
    } else if x.TypeVar? {
      UnifyVariableCorrect(x, y, s);
    } else if y.TypeVar? {
      UnifyVariableCorrect(y, x, s);
    }
  }

  lemma {:induction false} UnifyVariableCorrect(v: Node, t: Node, s: Subst)
    requires v.TypeVar? && v != t && Acyclic(s)
    ensures UnifyPost(v, t, s, UnifyVariable(v, t, s))
    decreases Depth(v, s) + Depth(t, s), 0
  {
    if v.ordinal in s {
      UnifyCorrect(s[v.ordinal], t, s);
    } else if t.TypeVar? && t.ordinal in s {
      UnifyCorrect(v, s[t.ordinal], s);
    } else {
      OccursCheckNeverFires(v, t, s);
      ExtendAcyclic(v.ordinal, t, s);
      var s' := s[v.ordinal := t];
      forall a: Assignment
        ensures Solves(a, s') <==> Solves(a, s) && Eval(v, a) == Eval(t, a)
      {
        assert Solves(a, s') ==> a(v.ordinal) == Eval(s'[v.ordinal], a);
        assert forall u <- s :: s'[u] == s[u];
      }
    }
  }

  /** When unify reaches the occurs check, neither end of the chain is bound: it cannot fire. */
  lemma OccursCheckNeverFires(v: Node, t: Node, s: Subst)
    requires v.TypeVar? && v != t && Acyclic(s)
    requires v.ordinal !in s && !(t.TypeVar? && t.ordinal in s)
    ensures !OccursCheck(v, t, s) && Walk(t, s) != v
  {
  }

  // ---- All equations ----

  method UnifyEquations(eqs: seq<Equation>) returns (subst: Option<Subst>)
    ensures subst == UnifyAll(eqs, NoBindings())
  {
    subst := Some(NoBindings());
    var i := 0;
    while i < |eqs|
      invariant 0 <= i <= |eqs|
      invariant subst.Some? && Acyclic(subst.value)
      invariant UnifyAll(eqs, NoBindings()) == UnifyAll(eqs[i..], subst.value)
    {
      UnifyCorrect(eqs[i].left, eqs[i].right, subst.value);
      var previous := subst.value;
      subst := Unify(eqs[i].left, eqs[i].right, previous);
      assert eqs[i..][0] == eqs[i] && eqs[i..][1..] == eqs[i + 1..];
      if subst.None? { break; }
      i := i + 1;
    }
  }

  /** The empty substitution that unification starts from. */
  function NoBindings(): (s: Subst)
    ensures s.Keys == {} && Acyclic(s)
  {
    assert Ranked(map[], map[]);
    map[]
  }

  ghost function UnifyAll(eqs: seq<Equation>, s: Subst): Option<Subst>
    requires Acyclic(s)
  {
    if eqs == [] then Some(s)
    else
      var r := Unify(eqs[0].left, eqs[0].right, s);
      if r.None? then None
      else UnifyCorrect(eqs[0].left, eqs[0].right, s); UnifyAll(eqs[1..], r.value)
  }

  lemma SatisfiesSplit(a: Assignment, eqs: seq<Equation>)
    requires eqs != []
    ensures Satisfies(a, eqs) <==>
            Eval(eqs[0].left, a) == Eval(eqs[0].right, a) && Satisfies(a, eqs[1..])
  {
    assert eqs == [eqs[0]] + eqs[1..];
    if Satisfies(a, eqs) {
      forall i | 0 <= i < |eqs[1..]| ensures Eval(eqs[1..][i].left, a) == Eval(eqs[1..][i].right, a) {
        assert eqs[1..][i] == eqs[i + 1];
      }
    }
  }

  lemma {:induction false} UnifyAllCorrect(eqs: seq<Equation>, s: Subst)
    requires Acyclic(s)
    ensures match UnifyAll(eqs, s)
            case Some(s') =>
              Acyclic(s') && s.Keys <= s'.Keys && (forall v <- s :: s'[v] == s[v]) &&
              forall a: Assignment :: Solves(a, s') <==> Solves(a, s) && Satisfies(a, eqs)
            case None =>
              forall a: Assignment :: !(Solves(a, s) && Satisfies(a, eqs))
    decreases |eqs|
  {
    if eqs != [] {
      UnifyCorrect(eqs[0].left, eqs[0].right, s);
      forall a: Assignment { SatisfiesSplit(a, eqs); }
      var r := Unify(eqs[0].left, eqs[0].right, s);
      if r.Some? {
        UnifyAllCorrect(eqs[1..], r.value);
      }
    }
  }

  /** The assignment a substitution stands for, with every free variable sent to `free`. */
  ghost function Canonical(s: Subst, free: Ty): Assignment
    requires Acyclic(s)
  {
    (v: nat) => if Walk(TypeVar(v), s).ConstType? then Walk(TypeVar(v), s).ty else free
  }

  lemma CanonicalSolves(s: Subst, free: Ty)
    requires Acyclic(s)
    ensures Solves(Canonical(s, free), s)
  {
    var a := Canonical(s, free);
    forall v <- s ensures a(v) == Eval(s[v], a) {
      assert Walk(TypeVar(v), s) == Walk(s[v], s);
    }
  }

  // ---- Main results ----

  /**
   Soundness, completeness and principality. Inference succeeds iff the equations have a
   solution; its substitution then has exactly the solutions of the equations.
   */
  lemma UnificationIsPrincipal(eqs: seq<Equation>)
    ensures UnifyAll(eqs, NoBindings()).Some? <==> exists a: Assignment :: Satisfies(a, eqs)
    ensures UnifyAll(eqs, NoBindings()).Some? ==>
              Acyclic(UnifyAll(eqs, NoBindings()).value) &&
              forall a: Assignment :: Satisfies(a, eqs) <==> Solves(a, UnifyAll(eqs, NoBindings()).value)
  {
    UnifyAllCorrect(eqs, NoBindings());
    var r := UnifyAll(eqs, NoBindings());
    if r.Some? {
      CanonicalSolves(r.value, "");
      assert Satisfies(Canonical(r.value, ""), eqs);
    } else {
      assert forall a: Assignment :: Solves(a, NoBindings());
    }
  }

  /** Under the result, the two sides of every equation walk to the same node. */
  lemma EquationsWalkTogether(eqs: seq<Equation>, i: nat)
    requires i < |eqs| && UnifyAll(eqs, NoBindings()).Some?
    ensures Acyclic(UnifyAll(eqs, NoBindings()).value)
    ensures Walk(eqs[i].left, UnifyAll(eqs, NoBindings()).value) ==
            Walk(eqs[i].right, UnifyAll(eqs, NoBindings()).value)
  {
    UnificationIsPrincipal(eqs);
    var s := UnifyAll(eqs, NoBindings()).value;
    var x, y := Walk(eqs[i].left, s), Walk(eqs[i].right, s);
    if x != y {
      // Some solution tells the two ends apart.
      var a := Separate(x, y, s);
      assert Satisfies(a, eqs);
      WalkEval(eqs[i].left, s, a);
      WalkEval(eqs[i].right, s, a);
    }
  }

  /** A solution of `s` that gives two different chain ends different types. */
  ghost function Separate(x: Node, y: Node, s: Subst): (a: Assignment)
    requires Acyclic(s) && x != y && Terminal(x, s) && Terminal(y, s)
    ensures Solves(a, s) && Eval(x, a) != Eval(y, a)
  {
    var other := if x.ConstType? then x.ty + "'" else if y.ConstType? then y.ty + "'" else "";
    var chosen := if x.TypeVar? then x else y;
    var a := (v: nat) =>
      var end := Walk(TypeVar(v), s);
      if end.ConstType? then end.ty else if end == chosen then other else other + "'";
    assert Solves(a, s) by {
      forall v <- s ensures a(v) == Eval(s[v], a) {
        assert Walk(TypeVar(v), s) == Walk(s[v], s);
      }
    }
    a
  }

  ghost predicate Terminal(n: Node, s: Subst) {
    n.TypeVar? ==> n.ordinal !in s
  }

  /**
   resolveSubst yields a type iff every solution forces that type, and yields nothing iff two
   solutions disagree.
   */
  lemma ResolveIsForced(n: Node, s: Subst)
    requires Acyclic(s)
    ensures forall ty: Ty :: ResolveSubst(n, s) == Some(ty) <==>
              forall a: Assignment :: Solves(a, s) ==> Eval(n, a) == ty
    ensures ResolveSubst(n, s).None? <==>
              exists a: Assignment, b: Assignment :: Solves(a, s) && Solves(b, s) && Eval(n, a) != Eval(n, b)
  {
    ResolveWalks(n, s);
    forall a: Assignment | Solves(a, s) ensures Eval(n, a) == Eval(Walk(n, s), a) { WalkEval(n, s, a); }
    var a, b := Canonical(s, ""), Canonical(s, "'");
    CanonicalSolves(s, "");
    CanonicalSolves(s, "'");
    var end := Walk(n, s);
    if end.TypeVar? {
      assert Walk(TypeVar(end.ordinal), s) == end;
      assert Eval(n, a) == "" && Eval(n, b) == "'";
    } else {
      assert forall c: Assignment :: Solves(c, s) ==> Eval(n, c) == end.ty;
      assert Eval(n, a) == end.ty;
    }
  }

  lemma {:induction false} ResolveWalks(n: Node, s: Subst)
    requires Acyclic(s)
    ensures ResolveSubst(n, s) == (if Walk(n, s).ConstType? then Some(Walk(n, s).ty) else None)
    decreases Depth(n, s)
  {
    if n.TypeVar? && n.ordinal in s {
      ResolveWalks(s[n.ordinal], s);
    }
  }

  // ---- Only variables of the equations are bound ----

  predicate NodeBelow(n: Node, bound: nat) {
    n.TypeVar? ==> n.ordinal < bound
  }

  ghost predicate SubstBelow(s: Subst, bound: nat) {
    forall v <- s :: v < bound && NodeBelow(s[v], bound)
  }

  lemma {:induction false} UnifyBelow(x: Node, y: Node, s: Subst, bound: nat)
    requires Acyclic(s) && SubstBelow(s, bound) && NodeBelow(x, bound) && NodeBelow(y, bound)
    ensures Unify(x, y, s).Some? ==> SubstBelow(Unify(x, y, s).value, bound)
    decreases Depth(x, s) + Depth(y, s), 1
  {
    if x != y && x.TypeVar? {
      UnifyVariableBelow(x, y, s, bound);
    } else if x != y && y.TypeVar? {
      UnifyVariableBelow(y, x, s, bound);
    }
  }

  lemma {:induction false} UnifyVariableBelow(v: Node, t: Node, s: Subst, bound: nat)
    requires v.TypeVar? && Acyclic(s) && SubstBelow(s, bound) && NodeBelow(v, bound) && NodeBelow(t, bound)
    ensures UnifyVariable(v, t, s).Some? ==> SubstBelow(UnifyVariable(v, t, s).value, bound)
    decreases Depth(v, s) + Depth(t, s), 0
  {
    if v.ordinal in s {
      UnifyBelow(s[v.ordinal], t, s, bound);
    } else if t.TypeVar? && t.ordinal in s {
      UnifyBelow(v, s[t.ordinal], s, bound);
    }
  }

  /** Every variable bound by unification occurs in the equations, so it has a defining value. */
  lemma {:induction false} UnifyAllBelow(eqs: seq<Equation>, s: Subst, bound: nat)
    requires Acyclic(s) && SubstBelow(s, bound)
    requires forall i | 0 <= i < |eqs| :: NodeBelow(eqs[i].left, bound) && NodeBelow(eqs[i].right, bound)
    ensures UnifyAll(eqs, s).Some? ==> SubstBelow(UnifyAll(eqs, s).value, bound)
    decreases |eqs|
  {
    if eqs != [] {
      UnifyCorrect(eqs[0].left, eqs[0].right, s);
      UnifyBelow(eqs[0].left, eqs[0].right, s, bound);
      var r := Unify(eqs[0].left, eqs[0].right, s);
      if r.Some? {
        UnifyAllBelow(eqs[1..], r.value, bound);
      }
    }
  }
}
