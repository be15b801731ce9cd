/**
 Constraint propagation type inference. Models lib/Typing/Analysis/CPA/Algorithm.cpp and the
 propagate/commit loop of lib/Typing/Transforms/CPATypeInference.cpp.
 */
module CPA {
  import opened Option

  // Node identity is equality: the context uniques nodes, except variables and object value types,
  // which are new each time and so bear a number. Casts, reads and writes are neither variables nor
  // value types.
  datatype TypeNode =
    | TypeVar(ordinal: nat)
    | IRValueType(irType: string)
    | ObjectValueType(number: nat, identifier: string, fieldTypes: seq<TypeNode>)
    | UseType(kind: string, operand: TypeNode)
  {
    predicate IsValueType() { IRValueType? || ObjectValueType? }
  }

  datatype Constraint = Constraint(from: TypeNode, to: TypeNode)

  // ---- Specification ----

  /** The constraints one round derives: a value type, through a variable, to anything. */
  ghost function Join(c: set<Constraint>): (j: set<Constraint>) {
    set a, b {:trigger Joins(a, b)} | a in c && b in c && Joins(a, b) :: Constraint(a.from, b.to)
  }

  predicate Joins(a: Constraint, b: Constraint) {
    a.from.IsValueType() && a.to.TypeVar? && a.to == b.from
  }

  ghost predicate Closed(c: set<Constraint>) {
    forall a, b {:trigger Joins(a, b)} | a in c && b in c && Joins(a, b) :: Constraint(a.from, b.to) in c
  }

  ghost function Rounds(c: set<Constraint>, k: nat): (r: set<Constraint>)
    ensures c <= r
  {
    if k == 0 then c else Rounds(c, k - 1) + Join(Rounds(c, k - 1))
  }

  /** A path of constraints whose inner nodes are all type variables. */
  ghost predicate VarPath(p: seq<TypeNode>, c: set<Constraint>) {
    |p| >= 2 &&
    (forall i | 0 <= i < |p| - 1 :: Constraint(p[i], p[i + 1]) in c) &&
    (forall i | 0 < i < |p| - 1 :: p[i].TypeVar?)
  }

  /** Present initially, or a value type that reaches the node through variables only. */
  ghost predicate Derivable(x: Constraint, c: set<Constraint>) {
    x in c || ((x.from.IRValueType? || x.from.ObjectValueType?) &&
               exists p :: VarPath(p, c) && p[0] == x.from && p[|p| - 1] == x.to)
  }

  ghost function Variables(c: set<Constraint>): set<TypeNode> {
    (set x | x in c && x.from.TypeVar? :: x.from) + (set x | x in c && x.to.TypeVar? :: x.to)
  }

  // ---- The propagation worklist ----

  class PropagationWorklist {
    // The constraints of the environment being propagated.
    var environment: set<Constraint>
    var currentConstraints: set<Constraint>
    var newConstraintCount: int

    constructor (environment: set<Constraint>)
      ensures currentConstraints == this.environment == environment && newConstraintCount == 0
    {
      this.environment := environment;
      currentConstraints, newConstraintCount := environment, 0;
    }

    method Commit() returns (hadNew: bool)
      modifies this
      ensures hadNew == (old(newConstraintCount) > 0) && newConstraintCount == 0
      ensures currentConstraints == old(currentConstraints) && environment == old(environment)
    {
      hadNew := newConstraintCount > 0;
      newConstraintCount := 0;
    }

    /** The two sides of the join, indexed by the variable in the middle. */
    method PrepareForJoin()
      returns (varToValueType: map<TypeNode, seq<TypeNode>>, varToAny: map<TypeNode, seq<TypeNode>>)
      ensures Indexed(varToValueType, varToAny, currentConstraints)
    {
      varToValueType, varToAny := map[], map[];
      var remaining := currentConstraints;
      while remaining != {}
        invariant remaining <= currentConstraints
        invariant Indexed(varToValueType, varToAny, currentConstraints - remaining)
      {
        var c :| c in remaining;
        if c.from.TypeVar? {
          varToAny := Push(varToAny, c.from, c.to);
        }
        if c.to.TypeVar? && c.from.IsValueType() {
          varToValueType := Push(varToValueType, c.to, c.from);
        }
        remaining := remaining - {c};
      }
      assert currentConstraints - remaining == currentConstraints;
    }

    method PropagateTransitivity()
      requires newConstraintCount >= 0 && environment == currentConstraints
      modifies this
      ensures currentConstraints == old(currentConstraints) + Join(old(currentConstraints))
      ensures environment == currentConstraints
      ensures newConstraintCount ==
                old(newConstraintCount) + |currentConstraints| - |old(currentConstraints)|
    {
      var varToValueType, varToAny := PrepareForJoin();
      ghost var before := currentConstraints;
      // Expand join.
      var vars := varToValueType.Keys;
      while vars != {}
        invariant vars <= varToValueType.Keys
        invariant environment == currentConstraints
        invariant before <= currentConstraints <= before + Join(before)
        invariant forall a, b {:trigger Joins(a, b)} | a in before && b in before && Joins(a, b) && a.to !in vars ::
            Constraint(a.from, b.to) in currentConstraints
        invariant newConstraintCount ==
            old(newConstraintCount) + |currentConstraints| - |before|
      {
        var v :| v in vars;
        if v in varToAny {
          Expand(varToValueType[v], varToAny[v]);
          forall x: Constraint | x.from in varToValueType[v] && x.to in varToAny[v] ensures x in Join(before) {
            assert Joins(Constraint(x.from, v), Constraint(v, x.to));
          }
        }
        vars := vars - {v};
        forall a, b {:trigger Joins(a, b)} | a in before && b in before && Joins(a, b) && a.to !in vars
          ensures Constraint(a.from, b.to) in currentConstraints
        {
          assert a == Constraint(a.from, a.to) && b == Constraint(a.to, b.to);
          if a.to == v { assert a.from in varToValueType[v] && b.to in varToAny[v]; }
        }
      }
    }

    /** All pairs of one variable's value types and bounds. */
    method Expand(lhsSet: seq<TypeNode>, rhsSet: seq<TypeNode>)
      requires environment == currentConstraints
      modifies this
      ensures forall x :: x in currentConstraints <==>
                            x in old(currentConstraints) || (x.from in lhsSet && x.to in rhsSet)
      ensures environment == currentConstraints
      ensures newConstraintCount - old(newConstraintCount) == |currentConstraints| - |old(currentConstraints)|
    {
      for i := 0 to |lhsSet|
        invariant forall x :: x in currentConstraints <==>
                                x in old(currentConstraints) || (x.from in lhsSet[..i] && x.to in rhsSet)
        invariant environment == currentConstraints
        invariant newConstraintCount - old(newConstraintCount) == |currentConstraints| - |old(currentConstraints)|
      {
        ExpandOne(lhsSet[i], rhsSet);
        assert lhsSet[..i + 1] == lhsSet[..i] + [lhsSet[i]];
      }
    }

    method ExpandOne(lhsItem: TypeNode, rhsSet: seq<TypeNode>)
      requires environment == currentConstraints
      modifies this
      ensures forall x :: x in currentConstraints <==>
                            x in old(currentConstraints) || (x.from == lhsItem && x.to in rhsSet)
      ensures environment == currentConstraints
      ensures newConstraintCount - old(newConstraintCount) == |currentConstraints| - |old(currentConstraints)|
    {
      for j := 0 to |rhsSet|
        invariant forall x :: x in currentConstraints <==>
                                x in old(currentConstraints) || (x.from == lhsItem && x.to in rhsSet[..j])
        invariant environment == currentConstraints
        invariant newConstraintCount - old(newConstraintCount) == |currentConstraints| - |old(currentConstraints)|
      {
        var newC := Constraint(lhsItem, rhsSet[j]);
        if newC !in currentConstraints {
          environment := environment + {newC};
          currentConstraints := currentConstraints + {newC};
          newConstraintCount := newConstraintCount + 1;
        }
        assert rhsSet[..j + 1] == rhsSet[..j] + [rhsSet[j]];
      }
    }

    /** One turn of the loop; it reports whether anything was added. */
    method RunRound() returns (hadNew: bool)
      requires newConstraintCount == 0 && environment == currentConstraints
      modifies this
      ensures environment == currentConstraints && newConstraintCount == 0
      ensures currentConstraints == old(currentConstraints) + Join(old(currentConstraints))
      ensures hadNew <==> currentConstraints != old(currentConstraints)
    {
      PropagateTransitivity();
      hadNew := Commit();
      if !hadNew { SubsetOfSameSize(old(currentConstraints), currentConstraints); }
    }

    /**
     The loop of the pass: rounds until one adds nothing. The result holds exactly the derivable
     constraints and is reached within one round more than there are type variables.
     */
    method Propagate() returns (rounds: nat)
      requires newConstraintCount == 0 && environment == currentConstraints
      modifies this
      ensures environment == currentConstraints && newConstraintCount == 0
      ensures HoldsDerivable(currentConstraints, old(currentConstraints)) && Closed(currentConstraints)
      ensures rounds <= |Variables(old(currentConstraints))| + 1
    {
      ghost var c := currentConstraints;
      rounds := RunToFixpoint();
      FixpointHolds(c, rounds - 1, currentConstraints);
    }

    /** Rounds until one adds nothing. */
    method RunToFixpoint() returns (rounds: nat)
      requires newConstraintCount == 0 && environment == currentConstraints
      modifies this
      ensures environment == currentConstraints && newConstraintCount == 0
      ensures 0 < rounds <= |Variables(old(currentConstraints))| + 1
      ensures IsFixpoint(old(currentConstraints), rounds - 1, currentConstraints)
    {
      ghost var c := currentConstraints;
      rounds := 0;
      while true
        invariant environment == currentConstraints == Rounds(c, rounds) && newConstraintCount == 0
        invariant rounds > 0 ==> Rounds(c, rounds) != Rounds(c, rounds - 1)
        decreases |Variables(c)| + 1 - rounds
      {
        if rounds > 0 { ProductiveRounds(c, rounds); }
        var hadNew := RunRound();
        rounds := rounds + 1;
        if !hadNew { return; }
      }
    }
  }

  // ---- The two indexes ----

  function Push(m: map<TypeNode, seq<TypeNode>>, key: TypeNode, item: TypeNode): (m': map<TypeNode, seq<TypeNode>>)
    ensures forall k, x :: k in m' && x in m'[k] <==> (k in m && x in m[k]) || (k == key && x == item)
  {
    m[key := (if key in m then m[key] else []) + [item]]
  }

  ghost predicate Indexed(varToValueType: map<TypeNode, seq<TypeNode>>, varToAny: map<TypeNode, seq<TypeNode>>,
                          c: set<Constraint>) {
    && (forall v, t :: v in varToValueType && t in varToValueType[v] <==>
                         v.TypeVar? && t.IsValueType() && Constraint(t, v) in c)
    && (forall v, n :: v in varToAny && n in varToAny[v] <==> v.TypeVar? && Constraint(v, n) in c)
  }

  lemma SubsetOfSameSize<T>(a: set<T>, b: set<T>)
    requires a <= b && |b| <= |a|
    ensures a == b
  {
    assert |b - a| == |b| - |a|;
  }

  // ---- The closure ----

  /** Derived constraints never start at a variable. */
  lemma {:induction false} NewStartAtValueTypes(c: set<Constraint>, k: nat, x: Constraint)
    requires x in Rounds(c, k)
    ensures x in c || x.from.IsValueType()
  {
    if k > 0 && x in Rounds(c, k - 1) {
      NewStartAtValueTypes(c, k - 1, x);
    }
  }

  lemma PathOf(x: Constraint, c: set<Constraint>) returns (p: seq<TypeNode>)
    requires Derivable(x, c)
    ensures VarPath(p, c) && p[0] == x.from && p[|p| - 1] == x.to
  {
    if x in c {
      p := [x.from, x.to];
    } else {
      p :| VarPath(p, c) && p[0] == x.from && p[|p| - 1] == x.to;
    }
  }

  lemma JoinIsDerivable(a: Constraint, b: Constraint, c: set<Constraint>)
    requires Derivable(a, c) && b in c && Joins(a, b)
    ensures Derivable(Constraint(a.from, b.to), c)
  {
    var p := PathOf(a, c);
    var q := p + [b.to];
    assert VarPath(q, c) by {
      forall i | 0 <= i < |q| - 1 ensures Constraint(q[i], q[i + 1]) in c {
        if i < |p| - 1 { assert Constraint(p[i], p[i + 1]) in c; }
      }
    }
  }

  lemma JoinParts(r: set<Constraint>, x: Constraint) returns (a: Constraint, b: Constraint)
    requires x in Join(r)
    ensures a in r && b in r && Joins(a, b) && x == Constraint(a.from, b.to)
  {
    a, b :| a in r && b in r && Joins(a, b) && x == Constraint(a.from, b.to);
  }

  lemma {:induction false} RoundsAreDerivable(c: set<Constraint>, k: nat, x: Constraint)
    requires x in Rounds(c, k)
    ensures Derivable(x, c)
  {
    if k > 0 {
      var r := Rounds(c, k - 1);
      if x in r {
        RoundsAreDerivable(c, k - 1, x);
      } else {
        var a, b := JoinParts(r, x);
        RoundsAreDerivable(c, k - 1, a);
        NewStartAtValueTypes(c, k - 1, b);
        JoinIsDerivable(a, b, c);
      }
    }
  }

  /** A closed superset holds every derivable constraint. */
  lemma {:induction false} ClosedHoldsPaths(c: set<Constraint>, s: set<Constraint>, p: seq<TypeNode>)
    requires c <= s && Closed(s) && VarPath(p, c) && p[0].IsValueType()
    ensures Constraint(p[0], p[|p| - 1]) in s
  {
    if |p| == 2 {
      assert Constraint(p[0], p[1]) in c;
    } else {
      var q := p[..|p| - 1];
      assert VarPath(q, c) by {
        forall i | 0 <= i < |q| - 1 ensures Constraint(q[i], q[i + 1]) in c {
          assert Constraint(p[i], p[i + 1]) in c;
        }
      }
      ClosedHoldsPaths(c, s, q);
      var n := |p| - 2;
      assert Constraint(p[n], p[n + 1]) in c;
      assert Joins(Constraint(p[0], p[n]), Constraint(p[n], p[n + 1]));
    }
  }

  /** Exactly the constraints derivable from `c`. */
  ghost predicate HoldsDerivable(r: set<Constraint>, c: set<Constraint>) {
    forall x :: x in r <==> Derivable(x, c)
  }

  /** A round that adds nothing has reached the least closed set holding the initial constraints. */
  lemma FixpointIsClosure(c: set<Constraint>, k: nat)
    requires Rounds(c, k + 1) == Rounds(c, k)
    ensures Closed(Rounds(c, k)) && HoldsDerivable(Rounds(c, k), c)
    ensures forall s | c <= s && Closed(s) :: Rounds(c, k) <= s
  {
    var r := Rounds(c, k);
    assert Join(r) <= r;
    assert Closed(r) by {
      forall a <- r, b <- r | Joins(a, b) ensures Constraint(a.from, b.to) in r {
        assert Constraint(a.from, b.to) in Join(r);
      }
    }
    forall x ensures x in r <==> Derivable(x, c) {
      if x in r { RoundsAreDerivable(c, k, x); }
      if Derivable(x, c) { DerivableIsHeld(x, c, r); }
    }
    forall s | c <= s && Closed(s) ensures r <= s {
      forall x <- r ensures x in s { DerivableIsHeld(x, c, s); }
    }
  }

  /** `r` is what `k` rounds give, and one more adds nothing. */
  ghost predicate IsFixpoint(c: set<Constraint>, k: nat, r: set<Constraint>) {
    r == Rounds(c, k) == Rounds(c, k + 1)
  }

  lemma FixpointHolds(c: set<Constraint>, k: nat, r: set<Constraint>)
    requires IsFixpoint(c, k, r)
    ensures Closed(r) && HoldsDerivable(r, c)
  {
    FixpointIsClosure(c, k);
  }

  lemma DerivableIsHeld(x: Constraint, c: set<Constraint>, s: set<Constraint>)
    requires Derivable(x, c) && c <= s && Closed(s)
    ensures x in s
  {
    if x !in c {
      var p :| VarPath(p, c) && p[0] == x.from && p[|p| - 1] == x.to;
      ClosedHoldsPaths(c, s, p);
    }
  }

  // ---- The number of rounds ----

  ghost function ReachedVars(t: TypeNode, c: set<Constraint>): set<TypeNode> {
    set x | x in c && x.from == t && x.to.TypeVar? :: x.to
  }

  lemma {:induction false} ReachedAreVariables(t: TypeNode, c: set<Constraint>, k: nat)
    ensures ReachedVars(t, Rounds(c, k)) <= Variables(c)
    decreases k
  {
    if k > 0 {
      var r := Rounds(c, k - 1);
      forall v <- ReachedVars(t, Rounds(c, k)) ensures v in Variables(c) {
        var x :| x in Rounds(c, k) && x.from == t && x.to == v;
        if x in r {
          ReachedAreVariables(t, c, k - 1);
        } else {
          var a, b :| a in r && b in r && Joins(a, b) && x == Constraint(a.from, b.to);
          ReachedAreVariables(b.from, c, k - 1);
          assert v in ReachedVars(b.from, r);
        }
      }
    }
  }

  /** A constraint first added in round `k` starts at a type that had reached `k` variables. */
  lemma {:induction false} LateConstraintsReachVariables(c: set<Constraint>, k: nat, x: Constraint)
    requires k > 0 && x in Rounds(c, k) && x !in Rounds(c, k - 1)
    ensures |ReachedVars(x.from, Rounds(c, k - 1))| >= k
  {
    var a := LastStep(c, k, x);
    if k > 1 {
      LateConstraintsReachVariables(c, k - 1, a);
      OneMoreVariable(Rounds(c, k - 2), Rounds(c, k - 1), a, k);
    } else {
      MoreMembers({a.to}, ReachedVars(x.from, Rounds(c, k - 1)));
    }
  }

  /** The constraint to a variable that a new one continues was itself new in the round before. */
  lemma LastStep(c: set<Constraint>, k: nat, x: Constraint) returns (a: Constraint)
    requires k > 0 && x in Rounds(c, k) && x !in Rounds(c, k - 1)
    ensures a in Rounds(c, k - 1) && a.from == x.from && a.to in ReachedVars(x.from, Rounds(c, k - 1))
    ensures k > 1 ==> a !in Rounds(c, k - 2) && Rounds(c, k - 2) <= Rounds(c, k - 1)
  {
    var r := Rounds(c, k - 1);
    var b;
    a, b :| a in r && b in r && Joins(a, b) && x == Constraint(a.from, b.to);
    if k > 1 {
      NewStartAtValueTypes(c, k - 1, b);
      assert b in Rounds(c, k - 2) && Joins(a, b);
    }
  }

  lemma OneMoreVariable(before: set<Constraint>, after: set<Constraint>, a: Constraint, k: nat)
    requires before <= after && a in after && a !in before && a.to in ReachedVars(a.from, after)
    requires |ReachedVars(a.from, before)| >= k - 1
    ensures |ReachedVars(a.from, after)| >= k
  {
    var earlier := ReachedVars(a.from, before);
    assert a.to !in earlier;
    MoreMembers(earlier + {a.to}, ReachedVars(a.from, after));
  }

  lemma MoreMembers<T>(a: set<T>, b: set<T>)
    requires a <= b
    ensures |a| <= |b|
  {
    assert |b - a| == |b| - |a|;
  }

  lemma NewInRound(c: set<Constraint>, k: nat) returns (x: Constraint)
    requires k > 0 && Rounds(c, k) != Rounds(c, k - 1)
    ensures x in Rounds(c, k) && x !in Rounds(c, k - 1)
  {
    assert Rounds(c, k) == Rounds(c, k - 1) + Join(Rounds(c, k - 1));
    x :| x in Rounds(c, k) && x !in Rounds(c, k - 1);
  }

  lemma ProductiveRounds(c: set<Constraint>, k: nat)
    requires k > 0 && Rounds(c, k) != Rounds(c, k - 1)
    ensures k <= |Variables(c)|
  {
    var x := NewInRound(c, k);
    LateConstraintsReachVariables(c, k, x);
    ReachedAreFew(x.from, c, k - 1);
  }

  lemma ReachedAreFew(t: TypeNode, c: set<Constraint>, k: nat)
    ensures |ReachedVars(t, Rounds(c, k))| <= |Variables(c)|
  {
    ReachedAreVariables(t, c, k);
    MoreMembers(ReachedVars(t, Rounds(c, k)), Variables(c));
  }

  // ---- Greedy resolution of variables ----

  /** The variables a node depends on directly. */
  function DependentVars(n: TypeNode): set<TypeNode> {
    match n
    case TypeVar(_) => {n}
    case ObjectValueType(_, _, fields) => set f, v | f in fields && v in DependentVars(f) :: v
    case _ => {}
  }

  /** From `n`, the fields at the positions of the path lead to the variable `v`. */
  ghost predicate LeadsTo(n: TypeNode, path: seq<nat>, v: TypeNode)
    decreases |path|
  {
    if path == [] then n == v && v.TypeVar?
    else n.ObjectValueType? && path[0] < |n.fieldTypes| && LeadsTo(n.fieldTypes[path[0]], path[1..], v)
  }

  ghost predicate Occurs(v: TypeNode, n: TypeNode) {
    exists path :: LeadsTo(n, path, v)
  }

  /** Exactly the variables that occur in a node, at any depth, are its dependent variables. */
  lemma {:induction false} DependentVarsOccur(n: TypeNode, v: TypeNode)
    ensures v in DependentVars(n) <==> Occurs(v, n)
    decreases n
  {
    if v in DependentVars(n) {
      if n.TypeVar? {
        assert LeadsTo(n, [], v);
      } else {
        var f :| f in n.fieldTypes && v in DependentVars(f);
        var i :| 0 <= i < |n.fieldTypes| && n.fieldTypes[i] == f;
        DependentVarsOccur(f, v);
        var path :| LeadsTo(f, path, v);
        assert ([i] + path)[1..] == path;
        assert LeadsTo(n, [i] + path, v);
      }
    }
    if path :| LeadsTo(n, path, v) {
      if path != [] {
        var f := n.fieldTypes[path[0]];
        assert f in n.fieldTypes && LeadsTo(f, path[1..], v);
        DependentVarsOccur(f, v);
      }
    }
  }

  /** Every variable that occurs in the node is one of `vars`. */
  ghost predicate HoldsOccurring(vars: set<TypeNode>, n: TypeNode) {
    forall v | Occurs(v, n) :: v in vars
  }

  lemma HoldsDependent(vars: set<TypeNode>, n: TypeNode)
    ensures HoldsOccurring(vars, n) <==> DependentVars(n) <= vars
  {
    forall v ensures v in DependentVars(n) <==> Occurs(v, n) { DependentVarsOccur(n, v); }
  }

  /** Each of the variables has one candidate type, and every variable occurring in that is again one of them. */
  ghost predicate Unambiguous(vars: set<TypeNode>, members: map<TypeNode, set<TypeNode>>) {
    forall v <- vars :: v in members && exists t :: members[v] == {t} && HoldsOccurring(vars, t)
  }

  lemma ResolvesIsUnambiguous(vars: set<TypeNode>, members: map<TypeNode, set<TypeNode>>)
    ensures Resolves(vars, members) <==> Unambiguous(vars, members)
  {
    forall t { HoldsDependent(vars, t); }
    if Resolves(vars, members) {
      forall v <- vars ensures v in members && exists t :: members[v] == {t} && HoldsOccurring(vars, t) {
        var t :| MembersOf(v, members) == {t} && DependentVars(t) <= vars;
        assert t in MembersOf(v, members);
      }
    }
  }

  function MembersOf(v: TypeNode, members: map<TypeNode, set<TypeNode>>): set<TypeNode> {
    if v in members then members[v] else {}
  }

  /**
   Every variable of `vars` has exactly one candidate type, and the variables that candidate
   depends on are again in `vars`.
   */
  ghost predicate Resolves(vars: set<TypeNode>, members: map<TypeNode, set<TypeNode>>) {
    forall v <- vars ::
      exists t :: MembersOf(v, members) == {t} && DependentVars(t) <= vars
  }

  /** Every unambiguous closed set that holds `deps` also holds `more`. */
  ghost predicate Needs(deps: set<TypeNode>, more: set<TypeNode>, members: map<TypeNode, set<TypeNode>>) {
    forall vars | Resolves(vars, members) && deps <= vars :: more <= vars
  }

  lemma NeedsCandidate(deps: set<TypeNode>, v: TypeNode, t: TypeNode, members: map<TypeNode, set<TypeNode>>)
    requires Needs(deps, {v}, members) && MembersOf(v, members) == {t}
    ensures Needs(deps, DependentVars(t), members)
  {
    forall vars | Resolves(vars, members) && deps <= vars ensures DependentVars(t) <= vars {
      assert {v} <= vars;
      var t' :| MembersOf(v, members) == {t'} && DependentVars(t') <= vars;
      assert t' in {t};
    }
  }

  ghost predicate Unresolvable(deps: set<TypeNode>, members: map<TypeNode, set<TypeNode>>) {
    forall vars: set<TypeNode> | deps <= vars :: !Resolves(vars, members)
  }

  lemma NeedsUnresolvable(a: set<TypeNode>, b: set<TypeNode>, members: map<TypeNode, set<TypeNode>>)
    requires Needs(a, b, members) && Unresolvable(b, members)
    ensures Unresolvable(a, members)
  {
  }

  lemma NeedsTransitive(a: set<TypeNode>, b: set<TypeNode>, c: set<TypeNode>, members: map<TypeNode, set<TypeNode>>)
    requires Needs(a, b, members) && Needs(b, c, members)
    ensures Needs(a, c, members)
  {
  }

  /** A mapping newer than `earlier` has its type pending, or the variables of its type mapped. */
  ghost predicate PendingOrClosed(earlier: set<TypeNode>, mappings: map<TypeNode, TypeNode>, pending: set<TypeNode>) {
    forall v <- mappings.Keys - earlier :: mappings[v] in pending || DependentVars(mappings[v]) <= mappings.Keys
  }

  lemma PendingShrinks(earlier: set<TypeNode>, before: map<TypeNode, TypeNode>, after: map<TypeNode, TypeNode>,
                       pending: set<TypeNode>, next: TypeNode)
    requires PendingOrClosed(earlier, before, pending) && earlier <= before.Keys && DependentVars(next) <= after.Keys
    requires Extends(before, after)
    requires forall v <- after.Keys - before.Keys :: DependentVars(after[v]) <= after.Keys
    ensures PendingOrClosed(earlier, after, pending - {next})
  {
    forall v <- after.Keys - earlier ensures after[v] in pending - {next} || DependentVars(after[v]) <= after.Keys {
      if v in before {
        assert before.Keys <= after.Keys;
        if before[v] !in pending { assert DependentVars(before[v]) <= before.Keys; }
      }
    }
  }

  lemma NeedsMore(deps: set<TypeNode>, next: set<TypeNode>, start: set<TypeNode>, before: set<TypeNode>,
                  after: set<TypeNode>, members: map<TypeNode, set<TypeNode>>)
    requires Needs(deps, next, members) && Needs(deps, before - start, members) && Needs(next, after - before, members)
    ensures Needs(deps, after - start, members)
  {
    NeedsTransitive(deps, next, after - before, members);
    assert after - start <= (after - before) + (before - start);
  }

  ghost predicate Extends(before: map<TypeNode, TypeNode>, after: map<TypeNode, TypeNode>) {
    forall v <- before :: v in after && after[v] == before[v]
  }

  /** Each pending type was chosen for a new variable. */
  ghost predicate Chosen(earlier: set<TypeNode>, directly: map<TypeNode, TypeNode>, pending: set<TypeNode>) {
    forall t <- pending :: exists v <- directly.Keys - earlier :: directly[v] == t
  }

  lemma ChooseNext(earlier: set<TypeNode>, mappings: map<TypeNode, TypeNode>, pending: set<TypeNode>, v: TypeNode,
                   t: TypeNode)
    requires Chosen(earlier, mappings, pending) && v !in mappings && v !in earlier
    ensures Chosen(earlier, mappings[v := t], pending + {t})
  {
    var after := mappings[v := t];
    forall u <- pending + {t} ensures exists w <- after.Keys - earlier :: after[w] == u {
      if u == t {
        assert v in after.Keys - earlier;
      } else {
        var w :| w in mappings.Keys - earlier && mappings[w] == u;
        assert w in after.Keys - earlier && after[w] == u;
      }
    }
  }

  ghost predicate OnlyCandidates(mappings: map<TypeNode, TypeNode>, members: map<TypeNode, set<TypeNode>>) {
    mappings.Keys <= members.Keys && forall v <- mappings :: members[v] == {mappings[v]}
  }

  /** Some of the variables `deps` are mapped to their only candidate, the others are in `newVars`. */
  ghost predicate Choosing(start: map<TypeNode, TypeNode>, mappings: map<TypeNode, TypeNode>, pending: set<TypeNode>,
                           deps: set<TypeNode>, newVars: set<TypeNode>, members: map<TypeNode, set<TypeNode>>)
  {
    newVars <= deps <= newVars + mappings.Keys && start.Keys <= mappings.Keys <= start.Keys + deps &&
    OnlyCandidates(mappings, members) && Extends(start, mappings) && Chosen(start.Keys, mappings, pending) &&
    forall v <- mappings.Keys - start.Keys :: mappings[v] in pending
  }

  lemma ChoosingSkip(start: map<TypeNode, TypeNode>, mappings: map<TypeNode, TypeNode>, pending: set<TypeNode>,
                     deps: set<TypeNode>, newVars: set<TypeNode>, members: map<TypeNode, set<TypeNode>>, v: TypeNode)
    requires Choosing(start, mappings, pending, deps, newVars, members) && v in newVars && v in mappings
    ensures Choosing(start, mappings, pending, deps, newVars - {v}, members)
  {
  }

  /** All variables `deps` are mapped. */
  ghost predicate Resolved(start: map<TypeNode, TypeNode>, mappings: map<TypeNode, TypeNode>, pending: set<TypeNode>,
                           deps: set<TypeNode>)
  {
    mappings.Keys == start.Keys + deps && Chosen(start.Keys, mappings, pending) &&
    forall v <- mappings.Keys - start.Keys :: mappings[v] in pending
  }

  lemma ChoosingEnds(start: map<TypeNode, TypeNode>, mappings: map<TypeNode, TypeNode>, pending: set<TypeNode>,
                     deps: set<TypeNode>, members: map<TypeNode, set<TypeNode>>)
    requires Choosing(start, mappings, pending, deps, {}, members)
    ensures Resolved(start, mappings, pending, deps)
  {
  }

  lemma ChoosingNext(start: map<TypeNode, TypeNode>, mappings: map<TypeNode, TypeNode>, pending: set<TypeNode>,
                     deps: set<TypeNode>, newVars: set<TypeNode>, members: map<TypeNode, set<TypeNode>>, v: TypeNode,
                     t: TypeNode)
    requires Choosing(start, mappings, pending, deps, newVars, members) && v in newVars && v !in mappings
    requires MembersOf(v, members) == {t}
    ensures Choosing(start, mappings[v := t], pending + {t}, deps, newVars - {v}, members)
  {
    ChooseNext(start.Keys, mappings, pending, v, t);
    assert t in MembersOf(v, members);
  }

  /** The next pending type: it is needed, and analysing it leaves fewer variables. */
  lemma NextPending(deps: set<TypeNode>, start: map<TypeNode, TypeNode>, directly: map<TypeNode, TypeNode>,
                    mappings: map<TypeNode, TypeNode>, members: map<TypeNode, set<TypeNode>>, pending: set<TypeNode>,
                    next: TypeNode)
    requires next in pending && Chosen(start.Keys, directly, pending) && Extends(start, mappings) &&
             Extends(directly, mappings)
    requires OnlyCandidates(mappings, members) && Needs(deps, mappings.Keys - start.Keys, members)
    ensures |members.Keys - mappings.Keys| < |members.Keys - start.Keys|
    ensures Needs(deps, DependentVars(next), members)
  {
    var v :| v in directly.Keys - start.Keys && directly[v] == next;
    MoreMembers(members.Keys - mappings.Keys, members.Keys - start.Keys - {v});
    NeedsCandidate(deps, v, next, members);
  }

  class GreedyTypeNodeVarResolver {
    // The candidate types the constraint graph holds for each variable.
    const members: map<TypeNode, set<TypeNode>>
    var allVars: set<TypeNode>
    var mappings: map<TypeNode, TypeNode>

    constructor (members: map<TypeNode, set<TypeNode>>)
      ensures this.members == members && allVars == {} && mappings == map[]
    {
      this.members := members;
      allVars, mappings := {}, map[];
    }

    ghost predicate Valid()
      reads this
    {
      mappings.Keys <= allVars && OnlyCandidates(mappings, members)
    }

    /** No candidate, or more than one, is an error. */
    static function UnionCandidateTypes(candidates: set<TypeNode>): (r: Option<TypeNode>)
      ensures forall t :: r == Some(t) <==> candidates == {t}
    {
      if |candidates| != 1 then None
      else
        SingletonHasMember(candidates);
        var t :| t in candidates;
        Some(t)
    }

    static lemma SingletonHasMember(s: set<TypeNode>)
      requires |s| == 1
      ensures exists t :: t in s && s == {t}
    {
      var t :| t in s;
      assert |s - {t}| == 0;
      assert s == {t};
    }

    /** Maps the variables the node depends on directly, and collects the types chosen for them. */
    method ResolveDependentVars(tn: TypeNode) returns (ok: bool, pendingValueTypes: set<TypeNode>)
      requires Valid() && allVars == mappings.Keys
      modifies this
      ensures Extends(old(mappings), mappings)
      ensures ok ==> Valid() && allVars == mappings.Keys
      ensures ok ==> Resolved(old(mappings), mappings, pendingValueTypes, DependentVars(tn))
      ensures !ok ==> exists v <- DependentVars(tn) :: |MembersOf(v, members)| != 1
    {
      var newVars := DependentVars(tn);
      ghost var start := mappings;
      pendingValueTypes := {};
      while newVars != {}
        invariant allVars == mappings.Keys
        invariant Choosing(start, mappings, pendingValueTypes, DependentVars(tn), newVars, members)
        decreases newVars
      {
        var newTv :| newTv in newVars;
        if newTv in allVars {
          ChoosingSkip(start, mappings, pendingValueTypes, DependentVars(tn), newVars, members, newTv);
          newVars := newVars - {newTv};
          continue;
        }
        allVars := allVars + {newTv};
        if newTv !in mappings {
          var concreteVt := UnionCandidateTypes(MembersOf(newTv, members));
          if concreteVt.None? {
            ok := false;
            return;
          }
          ChoosingNext(start, mappings, pendingValueTypes, DependentVars(tn), newVars, members, newTv,
                       concreteVt.value);
          mappings := mappings[newTv := concreteVt.value];
          pendingValueTypes := pendingValueTypes + {concreteVt.value};
        }
        newVars := newVars - {newTv};
      }
      ChoosingEnds(start, mappings, pendingValueTypes, DependentVars(tn), members);
      ok := true;
    }

    /**
     Succeeds iff the variables the node depends on, directly or through the types chosen for
     them, all have exactly one candidate; the new mappings are then closed.
     */
    method AnalyzeTypeNode(tn: TypeNode) returns (ok: bool)
      requires Valid() && allVars == mappings.Keys
      modifies this
      ensures ok ==> Valid() && allVars == mappings.Keys
      ensures ok ==> old(mappings.Keys) + DependentVars(tn) <= mappings.Keys
      ensures Extends(old(mappings), mappings)
      ensures ok ==> forall v <- mappings.Keys - old(mappings.Keys) :: DependentVars(mappings[v]) <= mappings.Keys
      ensures ok ==> Needs(DependentVars(tn), mappings.Keys - old(mappings.Keys), members)
      ensures !ok ==> Unresolvable(DependentVars(tn), members)
      ensures ok ==> HoldsOccurring(mappings.Keys, tn) &&
                     forall v <- mappings.Keys - old(mappings.Keys) :: HoldsOccurring(mappings.Keys, mappings[v])
      ensures !ok ==> forall vars | HoldsOccurring(vars, tn) :: !Unambiguous(vars, members)
      decreases |members.Keys - mappings.Keys|
    {
      ghost var start := mappings;
      var pendingValueTypes;
      ok, pendingValueTypes := ResolveDependentVars(tn);
      if !ok {
        AmbiguousIsUnresolvable(tn);
        UnresolvableOccurring(tn);
        return;
      }
      ghost var directly := mappings;
      while pendingValueTypes != {}
        invariant Valid() && allVars == mappings.Keys
        invariant Extends(start, mappings) && Extends(directly, mappings) &&
                  Chosen(start.Keys, directly, pendingValueTypes)
        invariant PendingOrClosed(start.Keys, mappings, pendingValueTypes)
        invariant Needs(DependentVars(tn), mappings.Keys - start.Keys, members)
        decreases pendingValueTypes
      {
        var next :| next in pendingValueTypes;
        NextPending(DependentVars(tn), start, directly, mappings, members, pendingValueTypes, next);
        ghost var before := mappings;
        ok := AnalyzeTypeNode(next);
        if !ok {
          NeedsUnresolvable(DependentVars(tn), DependentVars(next), members);
          UnresolvableOccurring(tn);
          return;
        }
        NeedsMore(DependentVars(tn), DependentVars(next), start.Keys, before.Keys, mappings.Keys, members);
        PendingShrinks(start.Keys, before, mappings, pendingValueTypes, next);
        pendingValueTypes := pendingValueTypes - {next};
      }
      forall t { HoldsDependent(mappings.Keys, t); }
      ok := true;
    }

    lemma UnresolvableOccurring(tn: TypeNode)
      requires Unresolvable(DependentVars(tn), members)
      ensures forall vars | HoldsOccurring(vars, tn) :: !Unambiguous(vars, members)
    {
      forall vars | HoldsOccurring(vars, tn) ensures !Unambiguous(vars, members) {
        HoldsDependent(vars, tn);
        ResolvesIsUnambiguous(vars, members);
      }
    }

    lemma AmbiguousIsUnresolvable(tn: TypeNode)
      requires exists v <- DependentVars(tn) :: |MembersOf(v, members)| != 1
      ensures Unresolvable(DependentVars(tn), members)
    {
      var v :| v in DependentVars(tn) && |MembersOf(v, members)| != 1;
      forall vars: set<TypeNode> | DependentVars(tn) <= vars ensures !Resolves(vars, members) {
        assert v in vars;
      }
    }
  }

  /** Starting from nothing, resolution succeeds iff some closed, unambiguous set of variables exists. */
  method ResolveTypeNode(tn: TypeNode, members: map<TypeNode, set<TypeNode>>)
    returns (mappings: Option<map<TypeNode, TypeNode>>)
    ensures mappings.Some? <==> exists vars :: Unambiguous(vars, members) && HoldsOccurring(vars, tn)
    ensures mappings.Some? ==>
              HoldsOccurring(mappings.value.Keys, tn) && Unambiguous(mappings.value.Keys, members) &&
              forall vars | Unambiguous(vars, members) && HoldsOccurring(vars, tn) :: mappings.value.Keys <= vars
    ensures mappings.Some? ==>
              forall v <- mappings.value ::
                v in members && members[v] == {mappings.value[v]} &&
                HoldsOccurring(mappings.value.Keys, mappings.value[v])
  {
    var resolver := new GreedyTypeNodeVarResolver(members);
    var ok := resolver.AnalyzeTypeNode(tn);
    mappings := if ok then Some(resolver.mappings) else None;
    if ok {
      assert Unambiguous(resolver.mappings.Keys, members);
      forall vars | Unambiguous(vars, members) && HoldsOccurring(vars, tn) ensures resolver.mappings.Keys <= vars {
        ResolvesIsUnambiguous(vars, members);
        HoldsDependent(vars, tn);
      }
    }
  }

  /** Object value types that look alike but were created apart are two candidates, and so ambiguous. */
  lemma LookalikesAreAmbiguous(v: TypeNode, a: TypeNode, b: TypeNode, members: map<TypeNode, set<TypeNode>>,
                               vars: set<TypeNode>)
    requires v.TypeVar? && a.ObjectValueType? && b.ObjectValueType? && b == a.(number := b.number) &&
             a.number != b.number
    requires v in members && members[v] >= {a, b} && v in vars
    ensures !Unambiguous(vars, members)
  {
    assert a != b && a in members[v] && b in members[v];
  }
}
