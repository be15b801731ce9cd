/**
 The fixed point that finds every specialisation a program needs. Models
 `createMonomorphizationForCall`, `MonomorphizationTracker` and `verifyPublicMonomorphizations` of
 lib/Dialect/Torch/Transforms/GlobalizeObjectGraph.cpp.
 */
module MonomorphizationTracker {
  import opened Option
  import opened TorchIR
  import opened ObjectGraph
  import opened Monomorphize

  // ---- Calls ----

  /** The instances of the module operands, by position. */
  function ArgInstances(xs: seq<Var>, mapping: Mapping, i: nat): seq<ArgInstance>
    requires i <= |xs|
    decreases |xs| - i
  {
    if i == |xs| then []
    else if xs[i].ty.NnModule? && xs[i] in mapping then
      [ArgInstance(i, mapping[xs[i]])] + ArgInstances(xs, mapping, i + 1)
    else ArgInstances(xs, mapping, i + 1)
  }

  function CallKey(callee: string, xs: seq<Var>, mapping: Mapping): Monomorphization {
    Monomorphization(callee, ArgInstances(xs, mapping, 0))
  }

  predicate IsCall(op: Op) {
    op.Call? && op.callee.Original?
  }

  function CallKeys(walk: seq<Op>, mapping: Mapping): seq<Monomorphization> {
    if walk == [] then []
    else
      (if IsCall(walk[0]) then [CallKey(walk[0].callee.name, walk[0].operands, mapping)] else []) +
      CallKeys(walk[1..], mapping)
  }

  /** The specialisations called from a specialisation, in walk order. */
  function CallsOf(m: Module, k: Monomorphization): seq<Monomorphization> {
    if k.func in m.funcs && forall a <- k.argInstances :: a.argIndex < |m.funcs[k.func].params| then
      CallKeys(Walk(m.funcs[k.func].ops), InstancesFor(m, m.funcs[k.func], k.argInstances))
    else []
  }

  lemma {:induction false} ArgInstancesFit(m: Module, xs: seq<Var>, params: seq<Var>, mapping: Mapping, i: nat)
    requires MappingOk(m, mapping) && Types(xs) == Types(params) && i <= |xs|
    requires forall v <- Modules(xs) :: v in mapping
    ensures |xs| == |params| && ArgsFit(m, params, i, ArgInstances(xs, mapping, i))
    decreases |xs| - i
  {
    assert |Types(xs)| == |Types(params)|;
    if i < |xs| {
      assert Types(xs)[i] == Types(params)[i];
      ModulesMembers(xs, xs[i]);
      ArgInstancesFit(m, xs, params, mapping, i + 1);
    }
  }

  ghost predicate CallsTyped(m: Module, walk: seq<Op>) {
    forall op <- walk :: IsCall(op) ==>
      op.callee.name in m.funcs && Types(op.operands) == Types(m.funcs[op.callee.name].params)
  }

  lemma {:induction false} WalkCallsTyped(m: Module, ops: seq<Op>, scope: set<Var>)
    requires WellTyped(m, ops, scope)
    ensures CallsTyped(m, Walk(ops))
    decreases ops, 0
  {
    if ops != [] {
      WalkOpCallsTyped(m, ops[0], scope);
      WalkCallsTyped(m, ops[1..], scope + ResultSet(ops[0]));
    }
  }

  lemma {:induction false} WalkOpCallsTyped(m: Module, op: Op, scope: set<Var>)
    requires WellTypedOp(m, op, scope)
    ensures CallsTyped(m, WalkOp(op))
    decreases op
  {
    match op
    case If(_, _, thn, els) =>
      WalkCallsTyped(m, thn.ops, scope + set v | v in thn.args);
      WalkCallsTyped(m, els.ops, scope + set v | v in els.args);
    case Loop(_, _, _, _, body) =>
      WalkCallsTyped(m, body.ops, scope + set v | v in body.args);
    case _ =>
  }

  /** Lookups succeed with the final mapping: uses are known after the whole walk. */
  lemma {:induction false} UsesAreKnown(walk: seq<Op>, known: set<Var>, op: Op, v: Var)
    requires Scoped(walk, known) && op in walk && v in ModuleUses(op)
    ensures v in KnownAfter(known, walk)
    decreases |walk|
  {
    if op != walk[0] {
      UsesAreKnown(walk[1..], if IsModuleGet(walk[0]) then known + {walk[0].result} else known, op, v);
    }
  }

  /** The final mapping of a monomorphization covers every module use in the function. */
  lemma UsesAreMapped(m: Module, k: Monomorphization, op: Op, v: Var)
    requires WellFormedProgram(m) && IsMonomorphization(m, k)
    requires op in Walk(m.funcs[k.func].ops) && v in ModuleUses(op)
    ensures forall a <- k.argInstances :: a.argIndex < |m.funcs[k.func].params|
    ensures v in InstancesFor(m, m.funcs[k.func], k.argInstances)
  {
    var f := m.funcs[k.func];
    ArgsAreRight(m, k);
    assert WellTypedFunc(m, f) && ConformsFunc(f);
    WalkAttrsExist(m, f.ops, set v | v in f.params);
    AnalyzeIsConsistent(m, Walk(f.ops), ArgMapping(f.params, k.argInstances));
    UsesAreKnown(Walk(f.ops), ArgMapping(f.params, k.argInstances).Keys, op, v);
  }

  lemma {:induction false} CallKeysAt(walk: seq<Op>, mapping: Mapping, c: Monomorphization)
    ensures c in CallKeys(walk, mapping) <==>
            exists op :: op in walk && IsCall(op) && c == CallKey(op.callee.name, op.operands, mapping)
  {
    if walk != [] { CallKeysAt(walk[1..], mapping, c); }
  }

  /** A call in a monomorphization names a monomorphization. */
  lemma CallsAreMonomorphizations(m: Module, k: Monomorphization, op: Op)
    requires WellFormedProgram(m) && IsMonomorphization(m, k)
    requires op in Walk(m.funcs[k.func].ops) && IsCall(op)
    ensures forall a <- k.argInstances :: a.argIndex < |m.funcs[k.func].params|
    ensures var mapping := InstancesFor(m, m.funcs[k.func], k.argInstances);
            IsMonomorphization(m, CallKey(op.callee.name, op.operands, mapping)) &&
            forall v <- Modules(op.operands) :: v in mapping
  {
    var f := m.funcs[k.func];
    InstancesAreRight(m, k);
    assert WellTypedFunc(m, f);
    WalkCallsTyped(m, f.ops, set v | v in f.params);
    var mapping := InstancesFor(m, f, k.argInstances);
    forall v <- Modules(op.operands) ensures v in mapping { UsesAreMapped(m, k, op, v); }
    ArgInstancesFit(m, op.operands, m.funcs[op.callee.name].params, mapping, 0);
  }

  // ---- The universe of monomorphizations ----

  /** All instances of a class, in program order. */
  function InstancesOf(m: Module, className: string, n: nat): (r: seq<nat>)
    requires n <= |m.objects|
    ensures forall i: nat :: i in r <==> i < n && IsInstance(m, i) && m.objects[i].className == className
    ensures forall a, b | 0 <= a < b < |r| :: r[a] < r[b]
  {
    if n == 0 then []
    else
      var rest := InstancesOf(m, className, n - 1);
      assert forall a | 0 <= a < |rest| :: rest[a] in rest;
      if IsInstance(m, n - 1) && m.objects[n - 1].className == className then rest + [n - 1] else rest
  }

  ghost function Assignments(m: Module, params: seq<Var>, i: nat): set<seq<ArgInstance>>
    requires i <= |params|
    decreases |params| - i
  {
    if i == |params| then {[]}
    else if params[i].ty.Data? then Assignments(m, params, i + 1)
    else
      set inst, rest |
        inst in InstancesOf(m, params[i].ty.className, |m.objects|) && rest in Assignments(m, params, i + 1) ::
        [ArgInstance(i, inst)] + rest
  }

  lemma {:induction false} AssignmentsFit(m: Module, params: seq<Var>, i: nat, args: seq<ArgInstance>)
    requires i <= |params| && ArgsFit(m, params, i, args)
    ensures args in Assignments(m, params, i)
    decreases |params| - i
  {
    if i < |params| {
      if params[i].ty.Data? {
        AssignmentsFit(m, params, i + 1, args);
      } else {
        AssignmentsFit(m, params, i + 1, args[1..]);
        assert args == [ArgInstance(i, args[0].instance)] + args[1..];
      }
    }
  }

  /** Every function at every choice of instances: a finite set. */
  ghost function Universe(m: Module): set<Monomorphization> {
    set f, args | f in m.funcs.Keys && args in Assignments(m, m.funcs[f].params, 0) :: Monomorphization(f, args)
  }

  lemma MonomorphizationsAreFinite(m: Module, k: Monomorphization)
    requires IsMonomorphization(m, k)
    ensures k in Universe(m)
  {
    AssignmentsFit(m, m.funcs[k.func].params, 0, k.argInstances);
    assert k == Monomorphization(k.func, k.argInstances);
  }

  // ---- Seeds ----

  /** The instances of the module parameters when each class has a single instance. */
  function SeedArgs(m: Module, params: seq<Var>, i: nat): Option<seq<ArgInstance>>
    requires i <= |params|
    decreases |params| - i
  {
    if i == |params| then Some([])
    else if params[i].ty.Data? then SeedArgs(m, params, i + 1)
    else
      var instances := InstancesOf(m, params[i].ty.className, |m.objects|);
      if |instances| != 1 then None
      else
        match SeedArgs(m, params, i + 1)
        case Some(rest) => Some([ArgInstance(i, instances[0])] + rest)
        case None => None
  }

  predicate IsSeed(m: Module, k: Monomorphization) {
    k.func in m.funcs && SeedArgs(m, m.funcs[k.func].params, 0) == Some(k.argInstances)
  }

  lemma {:induction false} SeedArgsFit(m: Module, params: seq<Var>, i: nat)
    requires i <= |params| && SeedArgs(m, params, i).Some?
    ensures ArgsFit(m, params, i, SeedArgs(m, params, i).value)
    ensures OnlyFit(m, params, i, SeedArgs(m, params, i).value)
    decreases |params| - i
  {
    if i < |params| {
      SeedArgsFit(m, params, i + 1);
      if params[i].ty.NnModule? {
        var instances, rest := InstancesOf(m, params[i].ty.className, |m.objects|), SeedArgs(m, params, i + 1).value;
        assert ([ArgInstance(i, instances[0])] + rest)[1..] == rest;
        forall args: seq<ArgInstance> | ArgsFit(m, params, i, args) ensures args == SeedArgs(m, params, i).value {
          assert ArgsFit(m, params, i + 1, args[1..]);
          assert args == [ArgInstance(i, args[0].instance)] + args[1..];
          assert args[0].instance in instances;
        }
      }
    }
  }

  ghost predicate OnlyFit(m: Module, params: seq<Var>, i: nat, args: seq<ArgInstance>)
    requires i <= |params|
  {
    forall other | ArgsFit(m, params, i, other) :: other == args
  }

  lemma {:induction false} OnlyArgsSeed(m: Module, params: seq<Var>, i: nat, args: seq<ArgInstance>)
    requires i <= |params| && ArgsFit(m, params, i, args) && OnlyFit(m, params, i, args)
    ensures SeedArgs(m, params, i) == Some(args)
    decreases |params| - i
  {
    if i < |params| {
      var next := i + 1;
      if params[i].ty.Data? {
        forall other | ArgsFit(m, params, next, other) ensures other == args { assert ArgsFit(m, params, i, other); }
        OnlyArgsSeed(m, params, next, args);
      } else {
        var instances, rest := InstancesOf(m, params[i].ty.className, |m.objects|), args[1..];
        forall other | ArgsFit(m, params, next, other) ensures other == rest {
          assert ([args[0]] + other)[1..] == other;
          assert ArgsFit(m, params, i, [args[0]] + other);
        }
        assert |instances| > 1 ==> instances[0] < instances[1];
        forall k | 0 <= k < |instances| ensures instances[k] == args[0].instance {
          assert instances[k] in instances;
          var other := [ArgInstance(i, instances[k])] + rest;
          assert other[1..] == rest;
          assert ArgsFit(m, params, i, other);
        }
        assert args[0].instance in instances;
        assert |instances| == 1;
        OnlyArgsSeed(m, params, next, rest);
        assert args == [ArgInstance(i, instances[0])] + rest;
      }
    }
  }

  /** A seed is the one and only way to specialise its function. */
  lemma SeedIsOnlyChoice(m: Module, k: Monomorphization)
    ensures IsSeed(m, k) <==>
            IsMonomorphization(m, k) &&
            forall other | IsMonomorphization(m, other) && other.func == k.func :: other == k
  {
    if k.func in m.funcs {
      var params := m.funcs[k.func].params;
      if IsSeed(m, k) { SeedArgsFit(m, params, 0); }
      if IsMonomorphization(m, k) && forall other | IsMonomorphization(m, other) && other.func == k.func :: other == k {
        forall args | ArgsFit(m, params, 0, args) ensures args == k.argInstances {
          assert IsMonomorphization(m, Monomorphization(k.func, args));
        }
        OnlyArgsSeed(m, params, 0, k.argInstances);
      }
    }
  }

  // ---- The least closed set ----

  ghost predicate Closed(m: Module, s: set<Monomorphization>) {
    (forall k | IsSeed(m, k) :: k in s) && (forall k <- s :: ClosedAt(m, k, s))
  }

  ghost predicate ClosedAt(m: Module, k: Monomorphization, s: set<Monomorphization>) {
    forall c <- CallsOf(m, k) :: c in s
  }

  /** Every closed set contains `k`. */
  ghost predicate Needed(m: Module, k: Monomorphization) {
    forall s: set<Monomorphization> | Closed(m, s) :: k in s
  }

  class MonomorphizationTracker {
    const m: Module
    var dirtyMonomorphizations: seq<Monomorphization>
    // A set that remembers insertion order.
    var monomorphizations: seq<Monomorphization>
    ghost var expanded: seq<Monomorphization>

    constructor (m: Module)
      ensures this.m == m && dirtyMonomorphizations == monomorphizations == expanded == []
    {
      this.m := m;
      dirtyMonomorphizations, monomorphizations := [], [];
      expanded := [];
    }

    /** `pending` are the members not expanded yet. */
    ghost predicate Valid(pending: multiset<Monomorphization>)
      reads this
    {
      WellFormedProgram(m) && Once(monomorphizations) && AllNeeded(m, monomorphizations) &&
      multiset(monomorphizations) == multiset(expanded) + pending && forall k <- expanded :: Covered(k)
    }

    ghost predicate Covered(k: Monomorphization)
      reads this
    {
      forall c <- CallsOf(m, k) :: c in monomorphizations
    }

    /**
     The monomorphizations end up being the least set that contains the seeds and is closed under
     calls, in which each was expanded exactly once.
     */
    method Initialize()
      requires WellFormedProgram(m) && dirtyMonomorphizations == monomorphizations == expanded == []
      modifies this
      ensures Closed(m, SetOf(monomorphizations))
      ensures forall s: set<Monomorphization> | Closed(m, s) :: SetOf(monomorphizations) <= s
      ensures forall k <- monomorphizations :: IsMonomorphization(m, k)
      ensures Once(monomorphizations) && multiset(expanded) == multiset(monomorphizations)
    {
      AddSeeds();
      while dirtyMonomorphizations != []
        invariant Valid(multiset(dirtyMonomorphizations)) && SeedsIn(m, monomorphizations)
        decreases Universe(m) - SetOf(monomorphizations), |dirtyMonomorphizations|
      {
        ExpandOne();
      }
      FixpointIsClosed(m, monomorphizations, expanded);
    }

    method ExpandOne()
      requires Valid(multiset(dirtyMonomorphizations)) && dirtyMonomorphizations != []
      modifies this
      ensures Valid(multiset(dirtyMonomorphizations)) && old(monomorphizations) <= monomorphizations
      ensures Universe(m) - SetOf(monomorphizations) < Universe(m) - SetOf(old(monomorphizations)) ||
              (monomorphizations == old(monomorphizations) && |dirtyMonomorphizations| < |old(dirtyMonomorphizations)|)
    {
      var dirty := dirtyMonomorphizations[|dirtyMonomorphizations| - 1];
      assert dirtyMonomorphizations == dirtyMonomorphizations[..|dirtyMonomorphizations| - 1] + [dirty];
      assert dirty in multiset(monomorphizations);
      dirtyMonomorphizations := dirtyMonomorphizations[..|dirtyMonomorphizations| - 1];
      ghost var added := GenerateNewMonomorphizations(dirty);
      GrowthIsBounded(m, old(monomorphizations), monomorphizations);
    }

    method AddSeeds()
      requires WellFormedProgram(m) && dirtyMonomorphizations == monomorphizations == expanded == []
      modifies this
      ensures Valid(multiset(dirtyMonomorphizations)) && SeedsIn(m, monomorphizations)
    {
      var names := m.funcs.Keys;
      while names != {}
        invariant names <= m.funcs.Keys && expanded == [] && Valid(multiset(dirtyMonomorphizations))
        invariant forall k <- monomorphizations :: k.func !in names
        invariant forall k | IsSeed(m, k) && k.func !in names :: k in monomorphizations
        decreases |names|
      {
        var name :| name in names;
        var args := SeedArgs(m, m.funcs[name].params, 0);
        if args.Some? {
          var monomorphization := Monomorphization(name, args.value);
          SeedIsNeeded(m, monomorphization);
          var inserted := Insert(monomorphization);
        }
        names := names - {name};
      }
    }

    /** Adds a member unless present, and marks a new one dirty. */
    method Insert(k: Monomorphization) returns (inserted: bool)
      requires Once(monomorphizations) && AllNeeded(m, monomorphizations) && IsMonomorphization(m, k) && Needed(m, k)
      modifies this`monomorphizations, this`dirtyMonomorphizations
      ensures Once(monomorphizations) && AllNeeded(m, monomorphizations)
      ensures inserted <==> k !in old(monomorphizations)
      ensures monomorphizations == old(monomorphizations) + (if inserted then [k] else [])
      ensures dirtyMonomorphizations == old(dirtyMonomorphizations) + (if inserted then [k] else [])
    {
      inserted := k !in monomorphizations;
      if inserted {
        OnceAppend(monomorphizations, k);
        monomorphizations := monomorphizations + [k];
        dirtyMonomorphizations := dirtyMonomorphizations + [k];
      }
    }

    /**
     Expands `dirty`, which is no longer among the dirty ones: what it calls and was no member
     becomes one, and dirty.
     */
    method GenerateNewMonomorphizations(dirty: Monomorphization) returns (ghost added: seq<Monomorphization>)
      requires Valid(multiset(dirtyMonomorphizations) + multiset{dirty}) && dirty in monomorphizations
      modifies this
      ensures Valid(multiset(dirtyMonomorphizations)) && expanded == old(expanded) + [dirty]
      ensures monomorphizations == old(monomorphizations) + added &&
              dirtyMonomorphizations == old(dirtyMonomorphizations) + added
      ensures forall k :: k in added <==> k in CallsOf(m, dirty) && k !in old(monomorphizations)
    {
      var mapping := AnalyzeInstances(m, dirty);
      added := InsertCalls(dirty, mapping);
      expanded := expanded + [dirty];
    }

    /** Walks the calls of `dirty`, adding what each needs. */
    method InsertCalls(dirty: Monomorphization, mapping: Mapping) returns (ghost added: seq<Monomorphization>)
      requires WellFormedProgram(m) && IsMonomorphization(m, dirty) && Needed(m, dirty)
      requires forall a <- dirty.argInstances :: a.argIndex < |m.funcs[dirty.func].params|
      requires mapping == InstancesFor(m, m.funcs[dirty.func], dirty.argInstances)
      requires Once(monomorphizations) && AllNeeded(m, monomorphizations)
      modifies this`monomorphizations, this`dirtyMonomorphizations
      ensures Once(monomorphizations) && AllNeeded(m, monomorphizations)
      ensures monomorphizations == old(monomorphizations) + added
      ensures dirtyMonomorphizations == old(dirtyMonomorphizations) + added
      ensures Covered(dirty) && forall k :: k in added <==> k in CallsOf(m, dirty) && k !in old(monomorphizations)
    {
      var walk := Walk(m.funcs[dirty.func].ops);
      forall op <- walk | IsCall(op) ensures CallFits(m, op, mapping) { CallIsNeeded(m, dirty, op); }
      added := InsertAll(walk, mapping);
    }

    method InsertAll(walk: seq<Op>, mapping: Mapping) returns (ghost added: seq<Monomorphization>)
      requires forall op <- walk :: IsCall(op) ==> CallFits(m, op, mapping)
      requires Once(monomorphizations) && AllNeeded(m, monomorphizations)
      modifies this`monomorphizations, this`dirtyMonomorphizations
      ensures Once(monomorphizations) && AllNeeded(m, monomorphizations)
      ensures monomorphizations == old(monomorphizations) + added
      ensures dirtyMonomorphizations == old(dirtyMonomorphizations) + added
      ensures forall c <- CallKeys(walk, mapping) :: c in monomorphizations
      ensures forall k :: k in added <==> k in CallKeys(walk, mapping) && k !in old(monomorphizations)
    {
      added := [];
      for n := 0 to |walk|
        invariant Once(monomorphizations) && AllNeeded(m, monomorphizations)
        invariant monomorphizations == old(monomorphizations) + added
        invariant dirtyMonomorphizations == old(dirtyMonomorphizations) + added
        invariant forall c <- CallKeys(walk[..n], mapping) :: c in monomorphizations
        invariant forall k <- added :: k in CallKeys(walk[..n], mapping) && k !in old(monomorphizations)
      {
        var op := walk[n];
        CallKeysSnoc(walk, n, mapping);
        if IsCall(op) {
          assert CallFits(m, op, mapping);
          var maybeMonomorphization := CallKey(op.callee.name, op.operands, mapping);
          var inserted := Insert(maybeMonomorphization);
          added := added + (if inserted then [maybeMonomorphization] else []);
        }
      }
      assert walk[..|walk|] == walk;
    }
  }

  ghost predicate CallFits(m: Module, op: Op, mapping: Mapping)
    requires IsCall(op)
  {
    var k := CallKey(op.callee.name, op.operands, mapping);
    IsMonomorphization(m, k) && Needed(m, k)
  }

  lemma FixpointIsClosed(m: Module, members: seq<Monomorphization>, expanded: seq<Monomorphization>)
    requires multiset(members) == multiset(expanded) && SeedsIn(m, members)
    requires forall k <- expanded :: forall c <- CallsOf(m, k) :: c in members
    ensures Closed(m, SetOf(members))
  {
    forall k <- SetOf(members) ensures ClosedAt(m, k, SetOf(members)) {
      assert k in multiset(members);
    }
  }

  ghost predicate AllNeeded(m: Module, s: seq<Monomorphization>) {
    forall k <- s :: IsMonomorphization(m, k) && Needed(m, k)
  }

  ghost predicate SeedsIn(m: Module, s: seq<Monomorphization>) {
    forall k | IsSeed(m, k) :: k in s
  }

  lemma SeedIsNeeded(m: Module, k: Monomorphization)
    requires IsSeed(m, k)
    ensures IsMonomorphization(m, k) && Needed(m, k)
  {
    SeedIsOnlyChoice(m, k);
  }

  /** Why the fixed point ends: a new member comes out of a finite universe. */
  lemma GrowthIsBounded(m: Module, before: seq<Monomorphization>, after: seq<Monomorphization>)
    requires before <= after && Once(after) && AllNeeded(m, after)
    ensures before != after ==> Universe(m) - SetOf(after) < Universe(m) - SetOf(before)
  {
    if before != after {
      var k := after[|before|];
      MonomorphizationsAreFinite(m, k);
      assert after == before + [k] + after[|before| + 1..];
      assert multiset(after) == multiset(before) + multiset{k} + multiset(after[|before| + 1..]);
      assert multiset(after)[k] <= 1;
      assert k !in multiset(before);
      assert k in Universe(m) - SetOf(before);
    }
  }

  ghost function SetOf(s: seq<Monomorphization>): set<Monomorphization> {
    set k | k in s
  }

  ghost predicate Once(s: seq<Monomorphization>) {
    forall k :: multiset(s)[k] <= 1
  }

  lemma OnceAppend(s: seq<Monomorphization>, k: Monomorphization)
    requires Once(s) && k !in s
    ensures Once(s + [k]) && multiset(s + [k]) == multiset(s) + multiset{k}
  {
    assert k !in multiset(s);
    forall x ensures multiset(s + [k])[x] <= 1 { assert multiset(s)[x] <= 1; }
  }

  lemma {:induction false} CallKeysConcat(a: seq<Op>, b: seq<Op>, mapping: Mapping)
    ensures CallKeys(a + b, mapping) == CallKeys(a, mapping) + CallKeys(b, mapping)
  {
    if a == [] {
      assert a + b == b;
    } else {
      var all, head := a + b, if IsCall(a[0]) then [CallKey(a[0].callee.name, a[0].operands, mapping)] else [];
      assert all[0] == a[0] && all[1..] == a[1..] + b;
      CallKeysConcat(a[1..], b, mapping);
      assert CallKeys(all, mapping) == head + CallKeys(all[1..], mapping);
      assert CallKeys(a, mapping) == head + CallKeys(a[1..], mapping);
    }
  }

  lemma CallKeysSnoc(walk: seq<Op>, n: nat, mapping: Mapping)
    requires n < |walk|
    ensures CallKeys(walk[..n + 1], mapping) == CallKeys(walk[..n], mapping) +
            (if IsCall(walk[n]) then [CallKey(walk[n].callee.name, walk[n].operands, mapping)] else [])
  {
    assert walk[..n + 1] == walk[..n] + [walk[n]];
    CallKeysConcat(walk[..n], [walk[n]], mapping);
    assert [walk[n]][1..] == [];
  }

  /** A call from a needed monomorphization is needed too. */
  lemma CallIsNeeded(m: Module, k: Monomorphization, op: Op)
    requires WellFormedProgram(m) && IsMonomorphization(m, k) && Needed(m, k)
    requires op in Walk(m.funcs[k.func].ops) && IsCall(op)
    ensures forall a <- k.argInstances :: a.argIndex < |m.funcs[k.func].params|
    ensures var c := CallKey(op.callee.name, op.operands, InstancesFor(m, m.funcs[k.func], k.argInstances));
            IsMonomorphization(m, c) && Needed(m, c) && c in CallsOf(m, k)
  {
    CallsAreMonomorphizations(m, k, op);
    var mapping := InstancesFor(m, m.funcs[k.func], k.argInstances);
    var c := CallKey(op.callee.name, op.operands, mapping);
    CallKeysAt(Walk(m.funcs[k.func].ops), mapping, c);
    forall s: set<Monomorphization> | Closed(m, s) ensures c in s { assert ClosedAt(m, k, s); }
  }
}
