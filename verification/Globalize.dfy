/**
 Rewriting specialised functions to global slots, and why that preserves meaning. Models
 `rewriteMonomorphizedFuncClone` and `globalizeObjectGraph` of
 lib/Dialect/Torch/Transforms/GlobalizeObjectGraph.cpp.
 */
module Globalize {
  import opened Option
  import opened TorchIR
  import opened ObjectGraph
  import opened LinkageNames
  import opened Monomorphize
  import opened MonomorphizationTracker

  type Linkage = map<(nat, string), LinkageInfo>

  // ---- The rewrite ----

  function DataVars(vs: seq<Var>): (r: seq<Var>)
    ensures AllData(r)
  {
    if vs == [] then [] else (if vs[0].ty.Data? then [vs[0]] else []) + DataVars(vs[1..])
  }

  lemma {:induction false} DataVarsAppend(a: seq<Var>, b: seq<Var>)
    ensures DataVars(a + b) == DataVars(a) + DataVars(b)
  {
    if a == [] {
      assert a + b == b;
    } else {
      assert (a + b)[1..] == a[1..] + b;
      DataVarsAppend(a[1..], b);
    }
  }

  lemma DataVarsOfOne(v: Var)
    ensures DataVars([v]) == if v.ty.Data? then [v] else []
  {
    assert [v][1..] == [];
  }

  /** The global slot that stands for slot `name` of the instance of `x`. */
  function SlotSymbol(link: Linkage, mapping: Mapping, x: Var, name: string): string {
    if x in mapping && (mapping[x], name) in link then link[(mapping[x], name)].linkageName else ""
  }

  function Rewrite(link: Linkage, mapping: Mapping, ops: seq<Op>): seq<Op> {
    if ops == [] then [] else RewriteOp(link, mapping, ops[0]) + Rewrite(link, mapping, ops[1..])
  }

  /** The op's replacement; reads of modules are erased. */
  function RewriteOp(link: Linkage, mapping: Mapping, op: Op): (r: seq<Op>)
    ensures |r| <= 1
  {
    match op
    case GetAttr(r, x, name) => if r.ty.NnModule? then [] else [SlotGet(r, SlotSymbol(link, mapping, x, name))]
    case SetAttr(x, name, v) => [SlotSet(SlotSymbol(link, mapping, x, name), v)]
    case Call(rs, callee, xs) =>
      if callee.Original? then [Call(rs, Clone(CallKey(callee.name, xs, mapping)), DataVars(xs))] else [op]
    case If(rs, cond, thn, els) => [If(rs, cond, RewriteBlock(link, mapping, thn), RewriteBlock(link, mapping, els))]
    case Loop(rs, trip, cond, inits, body) => [Loop(rs, trip, cond, inits, RewriteBlock(link, mapping, body))]
    case _ => [op]
  }

  function RewriteBlock(link: Linkage, mapping: Mapping, b: Block): Block {
    Block(b.args, Rewrite(link, mapping, b.ops), b.outs)
  }

  function RewriteFunc(link: Linkage, mapping: Mapping, f: Func): Func {
    Func(DataVars(f.params), Rewrite(link, mapping, f.ops), f.results)
  }

  // ---- What relates the program over instances to the program over global slots ----

  // `before` runs on instances; `after` holds the rewritten clones of the monomorphizations `keys`.
  datatype Setup = Setup(m: Module, link: Linkage, keys: set<Monomorphization>, before: Program, after: Program)

  /** Every data slot has a linkage name of its own. */
  ghost predicate GoodLinkage(m: Module, link: Linkage)
    requires WellFormedGraph(m)
  {
    (forall i: nat, k: nat | IsInstance(m, i) && k < |AttrsOf(m, i)| ::
     AttrsOf(m, i)[k].ty.Data? ==> (i, AttrsOf(m, i)[k].name) in link) &&
    (forall a, b | a in link && b in link :: link[a].linkageName == link[b].linkageName ==> a == b)
  }

  ghost predicate IsClone(c: Setup, k: Monomorphization)
    requires WellFormedProgram(c.m)
  {
    IsMonomorphization(c.m, k) && ClosedAt(c.m, k, c.keys) && Clone(k) in c.after.funcs &&
    (forall a <- k.argInstances :: a.argIndex < |c.m.funcs[k.func].params|) &&
    c.after.funcs[Clone(k)] ==
      RewriteFunc(c.link, InstancesFor(c.m, c.m.funcs[k.func], k.argInstances), c.m.funcs[k.func])
  }

  ghost predicate Globalized(c: Setup) {
    WellFormedProgram(c.m) && GoodLinkage(c.m, c.link) && c.before.prims == c.after.prims &&
    (forall f <- c.m.funcs :: Original(f) in c.before.funcs && c.before.funcs[Original(f)] == c.m.funcs[f]) &&
    (forall k <- c.keys :: IsClone(c, k))
  }

  /** Module slots never change; a data slot equals the global bearing its linkage name. */
  ghost predicate SlotRel(c: Setup, i: nat, k: nat, s: State, t: State)
    requires WellFormedGraph(c.m) && IsInstance(c.m, i) && k < |AttrsOf(c.m, i)|
  {
    var attr := AttrsOf(c.m, i)[k];
    (i, attr.name) in s.heap &&
    if attr.ty.Data? then
      !s.heap[(i, attr.name)].Obj? && (i, attr.name) in c.link && c.link[(i, attr.name)].linkageName in t.globals &&
      t.globals[c.link[(i, attr.name)].linkageName] == s.heap[(i, attr.name)]
    else
      k < |SlotsOf(c.m, i)| && s.heap[(i, attr.name)] == Obj(SlotsOf(c.m, i)[k].value)
  }

  ghost predicate StoreRel(c: Setup, s: State, t: State)
    requires WellFormedGraph(c.m)
  {
    s.world == t.world && forall i: nat, k: nat | IsInstance(c.m, i) && k < |AttrsOf(c.m, i)| :: SlotRel(c, i, k, s, t)
  }

  /** Data values agree; a module value is the instance the analysis found. */
  ghost predicate VarRel(mapping: Mapping, v: Var, env: Env, env': Env) {
    v in env &&
    if v.ty.Data? then !env[v].Obj? && v in env' && env'[v] == env[v]
    else v in mapping && env[v] == Obj(mapping[v])
  }

  ghost predicate EnvRel(mapping: Mapping, scope: set<Var>, env: Env, env': Env) {
    forall v <- scope :: VarRel(mapping, v, env, env')
  }

  /** Both run out of fuel, or both finish with related environments and stores; neither gets stuck. */
  ghost predicate EnvOutcomes(c: Setup, mapping: Mapping, scope: set<Var>, o: Outcome<Env>, o': Outcome<Env>)
    requires WellFormedGraph(c.m)
  {
    match (o, o')
    case (Done(env, s), Done(env', t)) => EnvRel(mapping, scope, env, env') && StoreRel(c, s, t)
    case (OutOfFuel, OutOfFuel) => true
    case _ => false
  }

  /** Both run out of fuel, or both finish with the same data and related stores; neither gets stuck. */
  ghost predicate SameOutcome(c: Setup, n: nat, o: Outcome<seq<Val>>, o': Outcome<seq<Val>>)
    requires WellFormedGraph(c.m)
  {
    match (o, o')
    case (Done(vals, s), Done(vals', t)) => vals == vals' && AllValues(vals) && |vals| == n && StoreRel(c, s, t)
    case (OutOfFuel, OutOfFuel) => true
    case _ => false
  }

  ghost predicate AllValues(vals: seq<Val>) {
    forall v <- vals :: !v.Obj?
  }

  // The facts about the ops a walk meets that the rewrite relies on.
  ghost predicate WalkOk(c: Setup, mapping: Mapping, walk: seq<Op>) {
    Consistent(c.m, walk, mapping) &&
    forall op <- walk | IsCall(op) :: CallKey(op.callee.name, op.operands, mapping) in c.keys
  }

  // ---- Environments ----

  /** The values of the data variables among `vs`. */
  function DataVals(vs: seq<Var>, vals: seq<Val>): seq<Val>
    requires |vs| == |vals|
  {
    if vs == [] then [] else (if vs[0].ty.Data? then [vals[0]] else []) + DataVals(vs[1..], vals[1..])
  }

  lemma {:induction false} DataValsLength(vs: seq<Var>, vals: seq<Val>)
    requires |vs| == |vals|
    ensures |DataVals(vs, vals)| == |DataVars(vs)|
    decreases |vs|
  {
    if vs != [] { DataValsLength(vs[1..], vals[1..]); }
  }

  /** Arguments fit parameters: data for data, the mapped instance for a module. */
  ghost predicate ArgsRel(mapping: Mapping, vs: seq<Var>, vals: seq<Val>) {
    |vs| == |vals| &&
    forall j | 0 <= j < |vs| ::
      if vs[j].ty.Data? then !vals[j].Obj? else vs[j] in mapping && vals[j] == Obj(mapping[vs[j]])
  }

  lemma {:induction false} BindRel(mapping: Mapping, scope: set<Var>, vs: seq<Var>, vals: seq<Val>, env: Env, env': Env)
    requires ArgsRel(mapping, vs, vals) && EnvRel(mapping, scope, env, env')
    ensures |DataVars(vs)| == |DataVals(vs, vals)|
    ensures EnvRel(mapping, scope + (set v | v in vs), Bind(env, vs, vals),
                   Bind(env', DataVars(vs), DataVals(vs, vals)))
    decreases |vs|
  {
    DataValsLength(vs, vals);
    if vs == [] {
      assert scope + (set v | v in vs) == scope;
    } else {
      var x, val := vs[0], vals[0];
      var next := if x.ty.Data? then env'[x := val] else env';
      assert EnvRel(mapping, scope + {x}, env[x := val], next);
      BindRel(mapping, scope + {x}, vs[1..], vals[1..], env[x := val], next);
      assert scope + {x} + (set v | v in vs[1..]) == scope + set v | v in vs;
      if x.ty.Data? {
        assert DataVars(vs) == [x] + DataVars(vs[1..]) && DataVals(vs, vals) == [val] + DataVals(vs[1..], vals[1..]);
        assert DataVars(vs)[1..] == DataVars(vs[1..]) && DataVals(vs, vals)[1..] == DataVals(vs[1..], vals[1..]);
      } else {
        assert DataVars(vs) == DataVars(vs[1..]) && DataVals(vs, vals) == DataVals(vs[1..], vals[1..]);
      }
    }
  }

  lemma {:induction false} AllDataKept(vs: seq<Var>, vals: seq<Val>)
    requires AllData(vs) && |vs| == |vals|
    ensures DataVars(vs) == vs && DataVals(vs, vals) == vals
    decreases |vs|
  {
    if vs != [] {
      assert vs[0] in vs;
      AllDataKept(vs[1..], vals[1..]);
    }
  }

  /** Binding results, which are data, on both sides. */
  lemma BindResults(mapping: Mapping, scope: set<Var>, rs: seq<Var>, vals: seq<Val>, env: Env, env': Env)
    requires AllData(rs) && |rs| == |vals| && AllValues(vals) && EnvRel(mapping, scope, env, env')
    ensures EnvRel(mapping, scope + (set v | v in rs), Bind(env, rs, vals), Bind(env', rs, vals))
  {
    forall j | 0 <= j < |rs| ensures rs[j].ty.Data? && !vals[j].Obj? { assert rs[j] in rs && vals[j] in vals; }
    AllDataKept(rs, vals);
    BindRel(mapping, scope, rs, vals, env, env');
  }

  /** Data operands read the same values on both sides. */
  lemma DataReadsAgree(mapping: Mapping, scope: set<Var>, vs: seq<Var>, env: Env, env': Env)
    requires EnvRel(mapping, scope, env, env') && AllData(vs) && forall v <- vs :: v in scope
    ensures Operands(env, vs).Some? && Operands(env', vs) == Operands(env, vs)
    ensures Vals(env, vs).Some? && Vals(env', vs) == Vals(env, vs) && AllValues(Vals(env, vs).value)
  {
    forall v <- vs
      ensures v in env && v in env' && !env[v].Obj? && env[v] == env'[v]
    {
      assert VarRel(mapping, v, env, env');
    }
    forall i | 0 <= i < |vs| ensures !env[vs[i]].Obj? && env[vs[i]] == env'[vs[i]] { assert vs[i] in vs; }
    assert Operands(env', vs).value == Operands(env, vs).value;
    assert Vals(env', vs).value == Vals(env, vs).value;
  }

  /** Call operands: all read on one side, the data ones on the other. */
  lemma {:induction false} OperandsAgree(mapping: Mapping, scope: set<Var>, vs: seq<Var>, env: Env, env': Env)
    requires EnvRel(mapping, scope, env, env') && forall v <- vs :: v in scope
    ensures Vals(env, vs).Some? && ArgsRel(mapping, vs, Vals(env, vs).value)
    ensures Vals(env', DataVars(vs)) == Some(DataVals(vs, Vals(env, vs).value))
    decreases |vs|
  {
    forall v <- vs ensures v in env { assert VarRel(mapping, v, env, env'); }
    var vals := Vals(env, vs).value;
    if vs == [] {
      assert Vals(env', DataVars(vs)).value == [];
    } else {
      OperandsAgree(mapping, scope, vs[1..], env, env');
      assert VarRel(mapping, vs[0], env, env');
      assert vals[1..] == Vals(env, vs[1..]).value;
      forall j | 0 <= j < |vs|
        ensures if vs[j].ty.Data? then !vals[j].Obj? else vs[j] in mapping && vals[j] == Obj(mapping[vs[j]])
      {
        assert VarRel(mapping, vs[j], env, env');
      }
      ValsOfParts(env', vs, vals);
    }
  }

  lemma ValsOfParts(env': Env, vs: seq<Var>, vals: seq<Val>)
    requires vs != [] && |vs| == |vals| && Vals(env', DataVars(vs[1..])) == Some(DataVals(vs[1..], vals[1..]))
    requires vs[0].ty.Data? ==> vs[0] in env' && env'[vs[0]] == vals[0]
    ensures Vals(env', DataVars(vs)) == Some(DataVals(vs, vals))
  {
    if vs[0].ty.Data? {
      ValsCons(env', vs[0], DataVars(vs[1..]));
    } else {
      assert DataVars(vs) == DataVars(vs[1..]) && DataVals(vs, vals) == DataVals(vs[1..], vals[1..]);
    }
  }

  lemma ValsCons(env: Env, v: Var, vs: seq<Var>)
    requires v in env && Vals(env, vs).Some?
    ensures Vals(env, [v] + vs) == Some([env[v]] + Vals(env, vs).value)
  {
    assert forall w <- [v] + vs :: w in env;
    assert Vals(env, [v] + vs).value == [env[v]] + Vals(env, vs).value;
  }

  // ---- Simulation ----

  ghost predicate Ready(c: Setup, mapping: Mapping, walk: seq<Op>, scope: set<Var>, env: Env, env': Env, s: State,
                        t: State)
  {
    Globalized(c) && MappingOk(c.m, mapping) && WalkOk(c, mapping, walk) && EnvRel(mapping, scope, env, env') &&
    StoreRel(c, s, t)
  }

  lemma ReadyPart(c: Setup, mapping: Mapping, walk: seq<Op>, part: seq<Op>, scope: set<Var>, env: Env, env': Env,
                  s: State, t: State)
    requires Ready(c, mapping, walk, scope, env, env', s, t) && forall op <- part :: op in walk
    ensures Ready(c, mapping, part, scope, env, env', s, t)
  {
  }

  lemma {:induction false} SimulateOps(c: Setup, mapping: Mapping, fuel: nat, ops: seq<Op>, scope: set<Var>,
                                       env: Env, env': Env, s: State, t: State)
    requires Ready(c, mapping, Walk(ops), scope, env, env', s, t) && WellTyped(c.m, ops, scope) && Conforms(ops)
    ensures EnvOutcomes(c, mapping, ScopeAfter(ops, scope),
                        Exec(c.before, fuel, ops, env, s), Exec(c.after, fuel, Rewrite(c.link, mapping, ops), env', t))
    decreases fuel, ops, 0
  {
    if ops != [] {
      var op, rest := ops[0], ops[1..];
      ReadyPart(c, mapping, Walk(ops), WalkOp(op), scope, env, env', s, t);
      SimulateOp(c, mapping, fuel, op, scope, env, env', s, t);
      var o := ExecOp(c.before, fuel, op, env, s);
      var o' := Exec(c.after, fuel, RewriteOp(c.link, mapping, op), env', t);
      if o.Done? {
        assert Ready(c, mapping, Walk(rest), scope + ResultSet(op), o.value, o'.value, o.state, o'.state);
        SimulateOps(c, mapping, fuel, rest, scope + ResultSet(op), o.value, o'.value, o.state, o'.state);
      }
      ExecAppend(c.after, fuel, RewriteOp(c.link, mapping, op), Rewrite(c.link, mapping, rest), env', t);
    }
  }

  lemma {:induction false} SimulateOp(c: Setup, mapping: Mapping, fuel: nat, op: Op, scope: set<Var>,
                                      env: Env, env': Env, s: State, t: State)
    requires Ready(c, mapping, WalkOp(op), scope, env, env', s, t) && WellTypedOp(c.m, op, scope) && ConformsOp(op)
    ensures EnvOutcomes(c, mapping, scope + ResultSet(op),
                        ExecOp(c.before, fuel, op, env, s),
                        Exec(c.after, fuel, RewriteOp(c.link, mapping, op), env', t))
    decreases fuel, op
  {
    match op
    case GetAttr(_, _, _) => SimulateGetAttr(c, mapping, fuel, op, scope, env, env', s, t);
    case SetAttr(_, _, _) => SimulateSetAttr(c, mapping, fuel, op, scope, env, env', s, t);
    case Pure(_, _, _) => SimulatePrimitive(c, mapping, fuel, op, scope, env, env', s, t);
    case Effect(_, _, _) => SimulatePrimitive(c, mapping, fuel, op, scope, env, env', s, t);
    case Call(_, _, _) => SimulateCall(c, mapping, fuel, op, scope, env, env', s, t);
    case If(_, _, _, _) => SimulateIf(c, mapping, fuel, op, scope, env, env', s, t);
    case Loop(_, _, _, _, _) => SimulateLoopOp(c, mapping, fuel, op, scope, env, env', s, t);
    case _ =>
  }

  lemma SimulateGetAttr(c: Setup, mapping: Mapping, fuel: nat, op: Op, scope: set<Var>, env: Env, env': Env, s: State,
                        t: State)
    requires Ready(c, mapping, [op], scope, env, env', s, t) && WellTypedOp(c.m, op, scope) && op.GetAttr?
    ensures EnvOutcomes(c, mapping, scope + ResultSet(op),
                        ExecOp(c.before, fuel, op, env, s),
                        Exec(c.after, fuel, RewriteOp(c.link, mapping, op), env', t))
  {
    var r, x := op.result, op.receiver;
    assert VarRel(mapping, x, env, env');
    var i := mapping[x];
    var k := AttrHasSlot(c.m, i, x, op.name, r.ty);
    assert SlotRel(c, i, k, s, t);
    assert op in [op];
    var val := s.heap[(i, op.name)];
    assert ExecOp(c.before, fuel, op, env, s) == Done(env[r := val], s);
    if r.ty.Data? {
      ExecSingle(c.after, fuel, RewriteOp(c.link, mapping, op)[0], env', t);
      assert EnvRel(mapping, scope + ResultSet(op), env[r := val], env'[r := val]);
    } else {
      assert EnvRel(mapping, scope + ResultSet(op), env[r := val], env');
    }
  }

  lemma SimulateSetAttr(c: Setup, mapping: Mapping, fuel: nat, op: Op, scope: set<Var>, env: Env, env': Env, s: State,
                        t: State)
    requires Ready(c, mapping, [op], scope, env, env', s, t) && WellTypedOp(c.m, op, scope) && ConformsOp(op) &&
             op.SetAttr?
    ensures EnvOutcomes(c, mapping, scope + ResultSet(op),
                        ExecOp(c.before, fuel, op, env, s),
                        Exec(c.after, fuel, RewriteOp(c.link, mapping, op), env', t))
  {
    var x, v := op.receiver, op.value;
    assert VarRel(mapping, x, env, env') && VarRel(mapping, v, env, env');
    var k := AttrHasSlot(c.m, mapping[x], x, op.name, v.ty);
    assert SlotRel(c, mapping[x], k, s, t);
    ExecSingle(c.after, fuel, RewriteOp(c.link, mapping, op)[0], env', t);
    WriteSlot(c, mapping[x], k, env[v], s, t);
    assert scope + ResultSet(op) == scope;
  }

  /** Writing a slot and its global keeps the stores related: no other slot shares the global. */
  lemma WriteSlot(c: Setup, i: nat, k: nat, val: Val, s: State, t: State)
    requires WellFormedGraph(c.m) && GoodLinkage(c.m, c.link) && StoreRel(c, s, t) && !val.Obj?
    requires IsInstance(c.m, i) && k < |AttrsOf(c.m, i)| && AttrsOf(c.m, i)[k].ty.Data?
    ensures (i, AttrsOf(c.m, i)[k].name) in c.link
    ensures StoreRel(c, s.(heap := s.heap[(i, AttrsOf(c.m, i)[k].name) := val]),
                     t.(globals := t.globals[c.link[(i, AttrsOf(c.m, i)[k].name)].linkageName := val]))
  {
    var key := (i, AttrsOf(c.m, i)[k].name);
    assert SlotRel(c, i, k, s, t);
    var s', t' := s.(heap := s.heap[key := val]), t.(globals := t.globals[c.link[key].linkageName := val]);
    forall j: nat, l: nat | IsInstance(c.m, j) && l < |AttrsOf(c.m, j)| ensures SlotRel(c, j, l, s', t') {
      assert SlotRel(c, j, l, s, t);
      MembersAreNamedApart(c.m, j);
    }
  }

  lemma SimulatePrimitive(c: Setup, mapping: Mapping, fuel: nat, op: Op, scope: set<Var>, env: Env, env': Env, s: State,
                          t: State)
    requires Ready(c, mapping, [op], scope, env, env', s, t) && WellTypedOp(c.m, op, scope) && ConformsOp(op) &&
             (op.Pure? || op.Effect?)
    ensures EnvOutcomes(c, mapping, scope + ResultSet(op),
                        ExecOp(c.before, fuel, op, env, s),
                        Exec(c.after, fuel, RewriteOp(c.link, mapping, op), env', t))
  {
    ExecSingle(c.after, fuel, op, env', t);
    DataReadsAgree(mapping, scope, op.operands, env, env');
    var args := Operands(env, op.operands).value;
    if op.Pure? {
      var val := Num(c.before.prims.pure(op.opcode, Numbers(args)));
      assert EnvRel(mapping, scope + ResultSet(op), env[op.result := val], env'[op.result := val]);
    } else {
      assert AllValues(args);
      var r := RunEffect(c.before.prims, op.opcode, args, |op.results|, s.world);
      BindResults(mapping, scope, op.results, r.vals, env, env');
      assert scope + ResultSet(op) == scope + set v | v in op.results;
      var s', t' := s.(world := r.world), t.(world := r.world);
      forall i: nat, k: nat | IsInstance(c.m, i) && k < |AttrsOf(c.m, i)| ensures SlotRel(c, i, k, s', t') {
        assert SlotRel(c, i, k, s, t);
      }
    }
  }

  /** Binds the values a nested computation yields, on both sides. */
  lemma BindOutcomes(c: Setup, mapping: Mapping, scope: set<Var>, rs: seq<Var>, env: Env, env': Env,
                     o: Outcome<seq<Val>>, o': Outcome<seq<Val>>)
    requires WellFormedGraph(c.m) && SameOutcome(c, |rs|, o, o') && AllData(rs) && EnvRel(mapping, scope, env, env')
    ensures EnvOutcomes(c, mapping, scope + (set v | v in rs), BindOutcome(env, rs, o), BindOutcome(env', rs, o'))
  {
    if o.Done? { BindResults(mapping, scope, rs, o.value, env, env'); }
  }

  /** Reads yielded data on both sides. */
  lemma YieldOutcomes(c: Setup, mapping: Mapping, scope: set<Var>, vs: seq<Var>, o: Outcome<Env>, o': Outcome<Env>)
    requires WellFormedGraph(c.m) && EnvOutcomes(c, mapping, scope, o, o') && AllData(vs) &&
             forall v <- vs :: v in scope
    ensures SameOutcome(c, |vs|, Yield(vs, o), Yield(vs, o'))
  {
    if o.Done? { DataReadsAgree(mapping, scope, vs, o.value, o'.value); }
  }

  lemma {:induction false} SimulateBlock(c: Setup, mapping: Mapping, fuel: nat, b: Block, args: seq<Val>,
                                         scope: set<Var>, env: Env, env': Env, s: State, t: State)
    requires Ready(c, mapping, Walk(b.ops), scope, env, env', s, t) && WellTypedBlock(c.m, b, scope) && ConformsBlock(b)
    requires AllData(b.args) && |args| == |b.args| && AllValues(args)
    ensures SameOutcome(c, |b.outs|, ExecBlock(c.before, fuel, b, args, env, s),
                        ExecBlock(c.after, fuel, RewriteBlock(c.link, mapping, b), args, env', t))
    decreases fuel, b
  {
    var inner := scope + set v | v in b.args;
    BindResults(mapping, scope, b.args, args, env, env');
    SimulateOps(c, mapping, fuel, b.ops, inner, Bind(env, b.args, args), Bind(env', b.args, args), s, t);
    YieldOutcomes(c, mapping, ScopeAfter(b.ops, inner), b.outs, Exec(c.before, fuel, b.ops, Bind(env, b.args, args), s),
                  Exec(c.after, fuel, Rewrite(c.link, mapping, b.ops), Bind(env', b.args, args), t));
  }

  lemma {:induction false} SimulateIf(c: Setup, mapping: Mapping, fuel: nat, op: Op, scope: set<Var>,
                                      env: Env, env': Env, s: State, t: State)
    requires Ready(c, mapping, WalkOp(op), scope, env, env', s, t) && WellTypedOp(c.m, op, scope) && ConformsOp(op) &&
             op.If?
    ensures EnvOutcomes(c, mapping, scope + ResultSet(op),
                        ExecOp(c.before, fuel, op, env, s),
                        Exec(c.after, fuel, RewriteOp(c.link, mapping, op), env', t))
    decreases fuel, op, 0
  {
    var rewritten := RewriteOp(c.link, mapping, op)[0];
    ExecSingle(c.after, fuel, rewritten, env', t);
    assert VarRel(mapping, op.cond, env, env');
    var b := if Number(env[op.cond]) != 0 then op.thn else op.els;
    ReadyPart(c, mapping, WalkOp(op), Walk(b.ops), scope, env, env', s, t);
    SimulateBlock(c, mapping, fuel, b, [], scope, env, env', s, t);
    var o := ExecBlock(c.before, fuel, b, [], env, s);
    var o' := ExecBlock(c.after, fuel, RewriteBlock(c.link, mapping, b), [], env', t);
    DataTypes(op.results, b.outs);
    BindOutcomes(c, mapping, scope, op.results, env, env', o, o');
    assert ResultSet(op) == set v | v in op.results;
  }

  lemma {:induction false} SimulateLoopOp(c: Setup, mapping: Mapping, fuel: nat, op: Op, scope: set<Var>,
                                          env: Env, env': Env, s: State, t: State)
    requires Ready(c, mapping, WalkOp(op), scope, env, env', s, t) && WellTypedOp(c.m, op, scope) && ConformsOp(op) &&
             op.Loop?
    ensures EnvOutcomes(c, mapping, scope + ResultSet(op),
                        ExecOp(c.before, fuel, op, env, s),
                        Exec(c.after, fuel, RewriteOp(c.link, mapping, op), env', t))
    decreases fuel, op, 0
  {
    var rewritten := RewriteOp(c.link, mapping, op)[0];
    ExecSingle(c.after, fuel, rewritten, env', t);
    DataReadsAgree(mapping, scope, [op.maxTripCount, op.cond], env, env');
    assert op.maxTripCount in [op.maxTripCount, op.cond] && op.cond in [op.maxTripCount, op.cond];
    DataReadsAgree(mapping, scope, op.inits, env, env');
    ReadyPart(c, mapping, WalkOp(op), Walk(op.body.ops), scope, env, env', s, t);
    LoopTypes(op);
    var trip, cond, vals := Number(env[op.maxTripCount]), Number(env[op.cond]), Vals(env, op.inits).value;
    SimulateLoop(c, mapping, fuel, op.body, 0, trip, cond, vals, scope, env, env', s, t);
    var o := ExecLoop(c.before, fuel, op.body, 0, trip, cond, vals, env, s);
    var o' := ExecLoop(c.after, fuel, RewriteBlock(c.link, mapping, op.body), 0, trip, cond, vals, env', t);
    BindOutcomes(c, mapping, scope, op.results, env, env', o, o');
    assert ResultSet(op) == set v | v in op.results;
  }

  lemma LoopTypes(op: Op)
    requires op.Loop? && AllData(op.inits) && Types(op.body.args) == [Data] + Types(op.inits)
    requires Types(op.body.outs) == [Data] + Types(op.inits) && Types(op.results) == Types(op.inits)
    ensures AllData(op.results) && AllData(op.body.args)
    ensures |op.results| == |op.inits| && |op.body.args| == |op.body.outs| == |op.inits| + 1
  {
    DataTypes(op.results, op.inits);
    assert |Types(op.body.args)| == |Types(op.body.outs)| == |op.inits| + 1;
    forall v <- op.body.args ensures v.ty.Data? {
      var k :| 0 <= k < |op.body.args| && op.body.args[k] == v;
      assert Types(op.body.args)[k] == ([Data] + Types(op.inits))[k];
      if k > 0 { assert op.inits[k - 1] in op.inits; }
    }
  }

  lemma {:induction false} SimulateLoop(c: Setup, mapping: Mapping, fuel: nat, body: Block, i: int, trip: int,
                                        cond: int, vals: seq<Val>, scope: set<Var>, env: Env, env': Env, s: State,
                                        t: State)
    requires Ready(c, mapping, Walk(body.ops), scope, env, env', s, t) && WellTypedBlock(c.m, body, scope) &&
             ConformsBlock(body)
    requires AllData(body.args) && |body.args| == |body.outs| == |vals| + 1 && AllValues(vals)
    ensures SameOutcome(c, |vals|, ExecLoop(c.before, fuel, body, i, trip, cond, vals, env, s),
                        ExecLoop(c.after, fuel, RewriteBlock(c.link, mapping, body), i, trip, cond, vals, env', t))
    decreases fuel, body
  {
    if cond != 0 && i < trip && fuel != 0 {
      var args := [Num(i)] + vals;
      SimulateBlock(c, mapping, fuel - 1, body, args, scope, env, env', s, t);
      var o := ExecBlock(c.before, fuel - 1, body, args, env, s);
      var o' := ExecBlock(c.after, fuel - 1, RewriteBlock(c.link, mapping, body), args, env', t);
      if o.Done? {
        assert o.value[0] in o.value;
        SimulateLoop(c, mapping, fuel - 1, body, i + 1, trip, Number(o.value[0]), o.value[1..], scope, env, env',
                     o.state, o'.state);
      }
    }
  }

  lemma {:induction false} SimulateCall(c: Setup, mapping: Mapping, fuel: nat, op: Op, scope: set<Var>,
                                        env: Env, env': Env, s: State, t: State)
    requires Ready(c, mapping, WalkOp(op), scope, env, env', s, t) && WellTypedOp(c.m, op, scope) && op.Call?
    ensures EnvOutcomes(c, mapping, scope + ResultSet(op),
                        ExecOp(c.before, fuel, op, env, s),
                        Exec(c.after, fuel, RewriteOp(c.link, mapping, op), env', t))
    decreases fuel, op, 0
  {
    var f, key := c.m.funcs[op.callee.name], CallKey(op.callee.name, op.operands, mapping);
    CalleeIsCloned(c, mapping, op);
    OperandsAgree(mapping, scope, op.operands, env, env');
    var vals := Vals(env, op.operands).value;
    if fuel > 0 {
      ArgumentsFit(c, mapping, key, op.operands, vals);
      SimulateInvoke(c, fuel - 1, key, vals, s, t);
      BindOutcomes(c, mapping, scope, op.results, env, env', Invoke(c.before, fuel - 1, f, vals, s),
                   Invoke(c.after, fuel - 1, c.after.funcs[Clone(key)], DataVals(f.params, vals), t));
    }
    CallSides(c, mapping, fuel, op, key, env, env', vals, s, t);
    assert ResultSet(op) == set v | v in op.results;
  }

  /** The clone a rewritten call refers to exists, and its results are data. */
  lemma CalleeIsCloned(c: Setup, mapping: Mapping, op: Op)
    requires Globalized(c) && WalkOk(c, mapping, [op]) && op.Call? && op.callee.Original? && op.callee.name in c.m.funcs
    requires Types(op.results) == Types(c.m.funcs[op.callee.name].results)
    ensures CallKey(op.callee.name, op.operands, mapping) in c.keys &&
            IsClone(c, CallKey(op.callee.name, op.operands, mapping))
    ensures AllData(op.results) && |op.results| == |c.m.funcs[op.callee.name].results|
    ensures Original(op.callee.name) in c.before.funcs &&
            c.before.funcs[Original(op.callee.name)] == c.m.funcs[op.callee.name]
  {
    assert op in [op];
    assert ConformsFunc(c.m.funcs[op.callee.name]);
    DataTypes(op.results, c.m.funcs[op.callee.name].results);
  }

  /** The call and its replacement, in terms of the two invocations. */
  lemma CallSides(c: Setup, mapping: Mapping, fuel: nat, op: Op, key: Monomorphization, env: Env, env': Env,
                  vals: seq<Val>, s: State, t: State)
    requires op.Call? && op.callee.Original? && op.callee in c.before.funcs && Clone(key) in c.after.funcs
    requires key == CallKey(op.callee.name, op.operands, mapping)
    requires Vals(env, op.operands) == Some(vals) && |vals| == |op.operands|
    requires Vals(env', DataVars(op.operands)) == Some(DataVals(op.operands, vals))
    requires Types(op.operands) == Types(c.before.funcs[op.callee].params)
    ensures |vals| == |c.before.funcs[op.callee].params|
    ensures ExecOp(c.before, fuel, op, env, s) ==
            if fuel == 0 then OutOfFuel
            else BindOutcome(env, op.results, Invoke(c.before, fuel - 1, c.before.funcs[op.callee], vals, s))
    ensures Exec(c.after, fuel, RewriteOp(c.link, mapping, op), env', t) ==
            if fuel == 0 then OutOfFuel
            else BindOutcome(env', op.results,
                             Invoke(c.after, fuel - 1, c.after.funcs[Clone(key)],
                                    DataVals(c.before.funcs[op.callee].params, vals), t))
  {
    ExecSingle(c.after, fuel, RewriteOp(c.link, mapping, op)[0], env', t);
    SameTypesSameData(op.operands, c.before.funcs[op.callee].params, vals);
  }

  lemma {:induction false} SameTypesSameData(xs: seq<Var>, params: seq<Var>, vals: seq<Val>)
    requires Types(xs) == Types(params) && |xs| == |vals|
    ensures |xs| == |params| && DataVals(xs, vals) == DataVals(params, vals)
    decreases |xs|
  {
    assert |Types(xs)| == |Types(params)|;
    if xs != [] {
      assert Types(xs)[0] == Types(params)[0];
      assert Types(xs[1..]) == Types(xs)[1..] && Types(params[1..]) == Types(params)[1..];
      SameTypesSameData(xs[1..], params[1..], vals[1..]);
    }
  }

  lemma {:induction false} ArgInstancesAt(xs: seq<Var>, mapping: Mapping, i: nat, j: nat)
    requires i <= j < |xs| && xs[j].ty.NnModule? && xs[j] in mapping
    ensures ArgInstance(j, mapping[xs[j]]) in ArgInstances(xs, mapping, i)
    decreases |xs| - i
  {
    if i < j { ArgInstancesAt(xs, mapping, i + 1, j); }
  }

  /** The callee's analysis starts from the instances the caller passes. */
  lemma ArgumentsFit(c: Setup, mapping: Mapping, key: Monomorphization, xs: seq<Var>, vals: seq<Val>)
    requires WellFormedProgram(c.m) && IsMonomorphization(c.m, key) && key.argInstances == ArgInstances(xs, mapping, 0)
    requires ArgsRel(mapping, xs, vals) && Types(xs) == Types(c.m.funcs[key.func].params)
    ensures forall a <- key.argInstances :: a.argIndex < |c.m.funcs[key.func].params|
    ensures ArgsRel(InstancesFor(c.m, c.m.funcs[key.func], key.argInstances), c.m.funcs[key.func].params, vals)
  {
    var f := c.m.funcs[key.func];
    InstancesAreRight(c.m, key);
    var mapping' := InstancesFor(c.m, f, key.argInstances);
    assert |Types(xs)| == |Types(f.params)|;
    forall j | 0 <= j < |f.params|
      ensures if f.params[j].ty.Data? then !vals[j].Obj?
              else f.params[j] in mapping' && vals[j] == Obj(mapping'[f.params[j]])
    {
      assert Types(xs)[j] == Types(f.params)[j];
      if f.params[j].ty.NnModule? { ArgInstancesAt(xs, mapping, 0, j); }
    }
  }

  lemma {:induction false} SimulateInvoke(c: Setup, fuel: nat, k: Monomorphization, vals: seq<Val>, s: State, t: State)
    requires Globalized(c) && k in c.keys && IsClone(c, k) && StoreRel(c, s, t)
    requires ArgsRel(InstancesFor(c.m, c.m.funcs[k.func], k.argInstances), c.m.funcs[k.func].params, vals)
    ensures SameOutcome(c, |c.m.funcs[k.func].results|, Invoke(c.before, fuel, c.m.funcs[k.func], vals, s),
                        Invoke(c.after, fuel, c.after.funcs[Clone(k)], DataVals(c.m.funcs[k.func].params, vals), t))
    decreases fuel, c.m.funcs[k.func].ops, 1
  {
    var f := c.m.funcs[k.func];
    var mapping := InstancesFor(c.m, f, k.argInstances);
    var scope := set v | v in f.params;
    assert WellTypedFunc(c.m, f) && ConformsFunc(f);
    CloneWalkOk(c, k);
    BindRel(mapping, {}, f.params, vals, map[], map[]);
    assert {} + scope == scope;
    var env, env' := Bind(map[], f.params, vals), Bind(map[], DataVars(f.params), DataVals(f.params, vals));
    SimulateOps(c, mapping, fuel, f.ops, scope, env, env', s, t);
    var o := Exec(c.before, fuel, f.ops, env, s);
    var o' := Exec(c.after, fuel, Rewrite(c.link, mapping, f.ops), env', t);
    YieldOutcomes(c, mapping, ScopeAfter(f.ops, scope), f.results, o, o');
  }

  /** In a clone every call has its specialisation, so the lookup of the rewriter succeeds. */
  lemma CloneWalkOk(c: Setup, k: Monomorphization)
    requires Globalized(c) && k in c.keys && IsClone(c, k)
    ensures var mapping := InstancesFor(c.m, c.m.funcs[k.func], k.argInstances);
            MappingOk(c.m, mapping) && WalkOk(c, mapping, Walk(c.m.funcs[k.func].ops))
  {
    var f := c.m.funcs[k.func];
    var mapping := InstancesFor(c.m, f, k.argInstances);
    InstancesAreRight(c.m, k);
    forall op <- Walk(f.ops) | IsCall(op) ensures CallKey(op.callee.name, op.operands, mapping) in c.keys {
      CallKeysAt(Walk(f.ops), mapping, CallKey(op.callee.name, op.operands, mapping));
      assert ClosedAt(c.m, k, c.keys);
    }
  }

  // ---- The rewriter ----

  /** The lookups the rewriter asserts: the global slot of each access, the clone of each call. */
  ghost predicate LookupsSucceed(link: Linkage, mapping: Mapping, keys: set<Monomorphization>, walk: seq<Op>) {
    forall op <- walk :: LookupSucceeds(link, mapping, keys, op)
  }

  ghost predicate LookupSucceeds(link: Linkage, mapping: Mapping, keys: set<Monomorphization>, op: Op) {
    match op
    case GetAttr(r, x, name) => r.ty.Data? ==> x in mapping && (mapping[x], name) in link
    case SetAttr(x, name, _) => x in mapping && (mapping[x], name) in link
    case Call(_, callee, xs) => callee.Original? ==> CallKey(callee.name, xs, mapping) in keys
    case _ => true
  }

  /** In a monomorphization of a well-formed program every lookup of the rewriter succeeds. */
  lemma LookupsAlwaysSucceed(m: Module, link: Linkage, keys: set<Monomorphization>, k: Monomorphization)
    requires WellFormedProgram(m) && GoodLinkage(m, link) && IsMonomorphization(m, k) && ClosedAt(m, k, keys)
    ensures forall a <- k.argInstances :: a.argIndex < |m.funcs[k.func].params|
    ensures LookupsSucceed(link, InstancesFor(m, m.funcs[k.func], k.argInstances), keys, Walk(m.funcs[k.func].ops))
  {
    var f := m.funcs[k.func];
    InstancesAreRight(m, k);
    var walk, mapping := Walk(f.ops), InstancesFor(m, f, k.argInstances);
    assert WellTypedFunc(m, f) && ConformsFunc(f);
    WalkAttrsExist(m, f.ops, set v | v in f.params);
    forall op <- walk ensures LookupSucceeds(link, mapping, keys, op) {
      if op.GetAttr? {
        UsesAreMapped(m, k, op, op.receiver);
        var j := AttrHasSlot(m, mapping[op.receiver], op.receiver, op.name, op.result.ty);
      } else if op.SetAttr? {
        UsesAreMapped(m, k, op, op.receiver);
        var j := AttrHasSlot(m, mapping[op.receiver], op.receiver, op.name, op.value.ty);
      } else if IsCall(op) {
        CallKeysAt(walk, mapping, CallKey(op.callee.name, op.operands, mapping));
      }
    }
  }

  /** Rewrites the ops of a clone, nested blocks included, with every lookup checked. */
  method RewriteOps(link: Linkage, mapping: Mapping, ghost keys: set<Monomorphization>, ops: seq<Op>)
    returns (r: seq<Op>)
    requires LookupsSucceed(link, mapping, keys, Walk(ops))
    ensures r == Rewrite(link, mapping, ops)
    decreases ops
  {
    r := [];
    for i := 0 to |ops|
      invariant r + Rewrite(link, mapping, ops[i..]) == Rewrite(link, mapping, ops)
      invariant LookupsSucceed(link, mapping, keys, Walk(ops[i..]))
    {
      RewriteNext(link, mapping, keys, ops[i..]);
      assert ops[i..][1..] == ops[i + 1..];
      var rewritten := RewriteNested(link, mapping, keys, ops[i]);
      r := r + rewritten;
    }
  }

  method RewriteNested(link: Linkage, mapping: Mapping, ghost keys: set<Monomorphization>, op: Op) returns (r: seq<Op>)
    requires LookupsSucceed(link, mapping, keys, WalkOp(op))
    ensures r == RewriteOp(link, mapping, op)
    decreases op
  {
    match op {
      case If(rs, cond, thn, els) =>
        assert forall o <- Walk(thn.ops) :: o in WalkOp(op);
        assert forall o <- Walk(els.ops) :: o in WalkOp(op);
        var thn' := RewriteOps(link, mapping, keys, thn.ops);
        var els' := RewriteOps(link, mapping, keys, els.ops);
        r := [If(rs, cond, Block(thn.args, thn', thn.outs), Block(els.args, els', els.outs))];
      case Loop(rs, trip, cond, inits, body) =>
        assert forall o <- Walk(body.ops) :: o in WalkOp(op);
        var body' := RewriteOps(link, mapping, keys, body.ops);
        r := [Loop(rs, trip, cond, inits, Block(body.args, body', body.outs))];
      case _ =>
        assert op in WalkOp(op);
        r := RewriteLeaf(link, mapping, keys, op);
    }
  }

  method RewriteLeaf(link: Linkage, mapping: Mapping, ghost keys: set<Monomorphization>, op: Op) returns (r: seq<Op>)
    requires !op.If? && !op.Loop? && LookupSucceeds(link, mapping, keys, op)
    ensures r == RewriteOp(link, mapping, op)
  {
    match op {
      case SetAttr(x, name, v) =>
        assert x in mapping && (mapping[x], name) in link;
        r := [SlotSet(link[(mapping[x], name)].linkageName, v)];
      case GetAttr(result, x, name) =>
        if result.ty.NnModule? { return []; }
        assert x in mapping && (mapping[x], name) in link;
        r := [SlotGet(result, link[(mapping[x], name)].linkageName)];
      case Call(rs, callee, xs) =>
        if !callee.Original? { return [op]; }
        var monomorphization := CallKey(callee.name, xs, mapping);
        assert monomorphization in keys;
        r := [Call(rs, Clone(monomorphization), DataVars(xs))];
      case _ =>
        r := [op];
    }
  }

  lemma RewriteNext(link: Linkage, mapping: Mapping, keys: set<Monomorphization>, ops: seq<Op>)
    requires ops != [] && LookupsSucceed(link, mapping, keys, Walk(ops))
    ensures LookupsSucceed(link, mapping, keys, WalkOp(ops[0])) && LookupsSucceed(link, mapping, keys, Walk(ops[1..]))
    ensures Rewrite(link, mapping, ops) == RewriteOp(link, mapping, ops[0]) + Rewrite(link, mapping, ops[1..])
  {
    assert forall op <- WalkOp(ops[0]) :: op in Walk(ops);
    assert forall op <- Walk(ops[1..]) :: op in Walk(ops);
  }

  // ---- The pass ----

  predicate IsPublicFunc(m: Module, f: string) {
    exists c <- m.classes :: HasPublicMethod(m.classes[c], f)
  }

  predicate HasPublicMethod(c: ClassType, f: string) {
    exists x <- c.methods :: !x.isPrivate && x.func == f
  }

  /** No function of a public method is specialised twice. */
  ghost predicate PublicOnce(m: Module, keys: set<Monomorphization>) {
    forall c, x | c in m.classes && x in m.classes[c].methods && !x.isPrivate :: SpecialisedOnce(keys, x.func)
  }

  ghost predicate SpecialisedOnce(keys: set<Monomorphization>, f: string) {
    forall a, b | a in keys && b in keys && a.func == f && b.func == f :: a == b
  }

  /** How many of the monomorphizations are of `f`. */
  function NumOf(monomorphizations: seq<Monomorphization>, f: string): nat {
    if monomorphizations == [] then 0
    else
      NumOf(monomorphizations[..|monomorphizations| - 1], f) +
      if monomorphizations[|monomorphizations| - 1].func == f then 1 else 0
  }

  lemma {:induction false} NumOfMeans(s: seq<Monomorphization>, f: string)
    ensures NumOf(s, f) == 0 <==> forall k <- s :: k.func != f
    ensures NumOf(s, f) > 1 <==> exists i, j :: 0 <= i < j < |s| && s[i].func == s[j].func == f
  {
    if s != [] {
      var front, last := s[..|s| - 1], |s| - 1;
      NumOfMeans(front, f);
      if i, j :| 0 <= i < j < |front| && front[i].func == front[j].func == f { assert s[i].func == s[j].func == f; }
      if i, j :| 0 <= i < j < |s| && s[i].func == s[j].func == f {
        assert front[i] in front;
        if j < last { assert front[i].func == front[j].func == f; }
      }
      if s[last].func == f && NumOf(front, f) > 0 {
        var k :| k in front && k.func == f;
        var i :| 0 <= i < |front| && front[i] == k;
        assert s[i].func == s[last].func == f;
      }
    }
  }

  method VerifyPublicMonomorphizations(m: Module, monomorphizations: seq<Monomorphization>) returns (ok: bool)
    requires Once(monomorphizations)
    ensures ok <==> PublicOnce(m, SetOf(monomorphizations))
  {
    var numMonomorphizations: map<string, nat> := map[];
    for n := 0 to |monomorphizations|
      invariant forall f ::
                  NumOf(monomorphizations[..n], f) ==
                  if f in numMonomorphizations then numMonomorphizations[f] else 0
    {
      assert monomorphizations[..n + 1][..n] == monomorphizations[..n];
      var f := monomorphizations[n].func;
      numMonomorphizations :=
        numMonomorphizations[f := if f in numMonomorphizations then numMonomorphizations[f] + 1 else 1];
    }
    assert monomorphizations[..|monomorphizations|] == monomorphizations;
    ok := forall f <- numMonomorphizations :: numMonomorphizations[f] > 1 ==> !IsPublicFunc(m, f);
    CountedPublicOnce(m, monomorphizations);
  }

  lemma CountedPublicOnce(m: Module, s: seq<Monomorphization>)
    requires Once(s)
    ensures PublicOnce(m, SetOf(s)) <==> forall f | NumOf(s, f) > 1 :: !IsPublicFunc(m, f)
  {
    if PublicOnce(m, SetOf(s)) {
      forall f | NumOf(s, f) > 1 ensures !IsPublicFunc(m, f) { CountedOnce(s, f); }
    }
    if forall f | NumOf(s, f) > 1 :: !IsPublicFunc(m, f) {
      forall c, x | c in m.classes && x in m.classes[c].methods && !x.isPrivate
        ensures SpecialisedOnce(SetOf(s), x.func)
      {
        assert HasPublicMethod(m.classes[c], x.func);
        assert IsPublicFunc(m, x.func);
        CountedOnce(s, x.func);
      }
    }
  }

  lemma CountedOnce(s: seq<Monomorphization>, f: string)
    requires Once(s)
    ensures SpecialisedOnce(SetOf(s), f) <==> NumOf(s, f) <= 1
  {
    OnceIsDistinct(s);
    NumOfMeans(s, f);
    if i, j :| 0 <= i < j < |s| && s[i].func == s[j].func == f { assert s[i] in SetOf(s) && s[j] in SetOf(s); }
    if a, b :| a in SetOf(s) && b in SetOf(s) && a.func == b.func == f && a != b {
      var i :| 0 <= i < |s| && s[i] == a;
      var j :| 0 <= j < |s| && s[j] == b;
      assert s[if i < j then i else j].func == s[if i < j then j else i].func == f;
    }
  }

  lemma OnceIsDistinct(s: seq<Monomorphization>)
    requires Once(s)
    ensures forall i, j | 0 <= i < j < |s| :: s[i] != s[j]
  {
    forall i, j | 0 <= i < j < |s| ensures s[i] != s[j] {
      assert s == s[..j] + [s[j]] + s[j + 1..];
      assert multiset(s) == multiset(s[..j]) + multiset{s[j]} + multiset(s[j + 1..]);
      assert s[i] == s[..j][i] && s[i] in multiset(s[..j]);
      assert multiset(s)[s[i]] <= 1;
    }
  }

  ghost predicate IsLeastClosed(m: Module, keys: set<Monomorphization>) {
    Closed(m, keys) && forall s: set<Monomorphization> | Closed(m, s) :: keys <= s
  }

  /** Modules are only called with, read from, or written to; no function yields one. */
  ghost predicate AllConform(m: Module) {
    forall f <- m.funcs :: AllRight(Walk(m.funcs[f].ops)) && AllData(m.funcs[f].results)
  }

  lemma ChecksConform(m: Module)
    ensures AllConform(m) <==> forall f <- m.funcs :: ConformsFunc(m.funcs[f])
  {
    forall f <- m.funcs ensures ConformsFunc(m.funcs[f]) <==>
                                AllRight(Walk(m.funcs[f].ops)) && AllData(m.funcs[f].results)
    {
      ConformsMeans(m.funcs[f].ops);
    }
  }

  /**
   What it takes for a program to be globalized: one root, from which a single path leads to every
   module; no identity-bearing value that two slots need; conforming functions; and no public method
   that is specialised twice.
   */
  ghost predicate CanGlobalize(m: Module, root: nat, keys: set<Monomorphization>)
    requires WellFormedGraph(m)
  {
    IsRoot(m, root) && OnePathEach(m, root) && SlotsShareNothing(m) && AllConform(m) && IsLeastClosed(m, keys) &&
    PublicOnce(m, keys)
  }

  ghost predicate IsProgramOf(m: Module, before: Program) {
    forall f <- m.funcs :: Original(f) in before.funcs && before.funcs[Original(f)] == m.funcs[f]
  }

  // Global slots and clones.
  datatype Result = Result(globalSlots: seq<GlobalSlot>, program: Program)

  /** Succeeds iff the program can be globalized, with the global slots of the traversal and all clones. */
  method GlobalizeObjectGraph(m: Module, before: Program)
    returns (r: Option<Result>, ghost root: nat, ghost keys: set<Monomorphization>)
    requires WellFormedGraph(m) && (forall f <- m.funcs :: WellTypedFunc(m, m.funcs[f])) && IsProgramOf(m, before)
    ensures r.Some? ==> Traversed(m, root) && CanGlobalize(m, root, keys)
    ensures r.Some? ==> r.value.globalSlots == Globals(m, Events(m, root, []))
    ensures r.Some? ==> forall g <- r.value.globalSlots :: IsSlotName(m, root, g)
    ensures r.Some? ==> Globalized(Setup(m, SlotLinkage(Events(m, root, [])), keys, before, r.value.program))
    ensures r.None? ==> forall i, s :: !CanGlobalize(m, i, s)
  {
    r, keys := None, {};
    var link, globalSlots, ok;
    ChecksConform(m);
    ok, link, globalSlots, root := CollectObjectGraph(m);
    forall i { TraversedMeans(m, i); }
    if !ok || !(forall f <- m.funcs :: ConformsFunc(m.funcs[f])) { return; }
    var monomorphizations := CollectMonomorphizations(m);
    keys := SetOf(monomorphizations);
    var unique := VerifyPublicMonomorphizations(m, monomorphizations);
    if !unique {
      LeastIsUnique(m, keys);
      return;
    }
    TraversalLinks(m, root);
    GlobalSlotsAreNamed(m, root);
    var funcs := CloneAll(m, link, monomorphizations);
    var after := Program(funcs, before.prims);
    ClonesGlobalize(Setup(m, link, keys, before, after), monomorphizations);
    r := Some(Result(globalSlots, after));
  }

  /** Finds the root and traverses the graph from it. */
  method CollectObjectGraph(m: Module) returns (ok: bool, link: Linkage, globalSlots: seq<GlobalSlot>, ghost root: nat)
    requires WellFormedGraph(m)
    ensures ok ==> Traversed(m, root) && link == SlotLinkage(Events(m, root, [])) &&
                   globalSlots == Globals(m, Events(m, root, []))
    ensures !ok ==> forall i :: !Traversed(m, i)
  {
    ok, link, globalSlots, root := false, map[], [], 0;
    var maybeRootNnModule := FindRootNnModule(m);
    if maybeRootNnModule.None? { return; }
    root := maybeRootNnModule.value;
    var objectGraphInfo := new ObjectGraphInfo(m);
    ok := objectGraphInfo.RecursivelyTraverse(maybeRootNnModule.value);
    assert [] + Events(m, root, []) == Events(m, root, []);
    link, globalSlots := objectGraphInfo.slotLinkageInfo, objectGraphInfo.globalSlots;
  }

  method CollectMonomorphizations(m: Module) returns (monomorphizations: seq<Monomorphization>)
    requires WellFormedProgram(m)
    ensures Once(monomorphizations) && IsLeastClosed(m, SetOf(monomorphizations))
    ensures forall k <- monomorphizations :: IsMonomorphization(m, k)
  {
    var tracker := new MonomorphizationTracker(m);
    tracker.Initialize();
    monomorphizations := tracker.monomorphizations;
  }

  lemma ClonesGlobalize(c: Setup, monomorphizations: seq<Monomorphization>)
    requires WellFormedProgram(c.m) && GoodLinkage(c.m, c.link) && c.before.prims == c.after.prims &&
             IsProgramOf(c.m, c.before)
    requires Closed(c.m, c.keys) && c.keys == SetOf(monomorphizations)
    requires forall k <- monomorphizations :: IsCloneIn(c.m, c.link, c.after.funcs, k)
    ensures Globalized(c)
  {
    forall k <- c.keys ensures IsClone(c, k) {
      assert k in monomorphizations && IsCloneIn(c.m, c.link, c.after.funcs, k);
      assert ClosedAt(c.m, k, c.keys);
    }
  }

  lemma LeastIsUnique(m: Module, keys: set<Monomorphization>)
    requires IsLeastClosed(m, keys)
    ensures forall s | IsLeastClosed(m, s) :: s == keys
  {
  }

  /** The linkage a successful traversal collects is total and injective on data slots. */
  lemma TraversalLinks(m: Module, root: nat)
    requires Traversed(m, root)
    ensures GoodLinkage(m, SlotLinkage(Events(m, root, [])))
  {
    var link := SlotLinkage(Events(m, root, []));
    forall i: nat, k: nat | IsInstance(m, i) && k < |AttrsOf(m, i)| && AttrsOf(m, i)[k].ty.Data?
      ensures (i, AttrsOf(m, i)[k].name) in link
    {
      SlotLinkageIsTotal(m, root, i, k);
    }
    forall a, b | a in link && b in link ensures link[a].linkageName == link[b].linkageName ==> a == b {
      SlotLinkageIsInjective(m, root, a, b);
    }
  }

  /** One rewritten clone for each monomorphization. */
  method CloneAll(m: Module, link: Linkage, monomorphizations: seq<Monomorphization>) returns (funcs: map<Callee, Func>)
    requires WellFormedProgram(m) && GoodLinkage(m, link) && Closed(m, SetOf(monomorphizations))
    requires forall k <- monomorphizations :: IsMonomorphization(m, k)
    ensures forall k <- monomorphizations :: IsCloneIn(m, link, funcs, k)
  {
    funcs := map[];
    for n := 0 to |monomorphizations|
      invariant forall k <- monomorphizations[..n] :: IsCloneIn(m, link, funcs, k)
    {
      var k := monomorphizations[n];
      assert k in SetOf(monomorphizations);
      var newFunc := CloneOne(m, link, SetOf(monomorphizations), k);
      funcs := funcs[Clone(k) := newFunc];
      assert monomorphizations[..n + 1] == monomorphizations[..n] + [k];
    }
    assert monomorphizations[..|monomorphizations|] == monomorphizations;
  }

  method CloneOne(m: Module, link: Linkage, ghost keys: set<Monomorphization>, k: Monomorphization)
    returns (newFunc: Func)
    requires WellFormedProgram(m) && GoodLinkage(m, link) && IsMonomorphization(m, k) && ClosedAt(m, k, keys)
    ensures forall a <- k.argInstances :: a.argIndex < |m.funcs[k.func].params|
    ensures newFunc == RewriteFunc(link, InstancesFor(m, m.funcs[k.func], k.argInstances), m.funcs[k.func])
  {
    var mapping := AnalyzeInstances(m, k);
    LookupsAlwaysSucceed(m, link, keys, k);
    var f := m.funcs[k.func];
    var ops := RewriteOps(link, mapping, keys, f.ops);
    newFunc := Func(DataVars(f.params), ops, f.results);
  }

  ghost predicate IsCloneIn(m: Module, link: Linkage, funcs: map<Callee, Func>, k: Monomorphization)
    requires WellFormedProgram(m)
  {
    IsMonomorphization(m, k) && Clone(k) in funcs &&
    (forall a <- k.argInstances :: a.argIndex < |m.funcs[k.func].params|) &&
    funcs[Clone(k)] == RewriteFunc(link, InstancesFor(m, m.funcs[k.func], k.argInstances), m.funcs[k.func])
  }

  // ---- Whole runs ----

  // What each top-level op yields before anything runs: a number or a tensor.
  type InitialValues = nat -> Val

  /** Before anything runs, every slot holds its initial value. */
  ghost predicate InitialSlots(m: Module, init: InitialValues, s: State)
    requires WellFormedGraph(m)
  {
    forall i: nat, k: nat | IsInstance(m, i) && k < |SlotsOf(m, i)| == |AttrsOf(m, i)| :: InitialSlot(m, init, s, i, k)
  }

  ghost predicate InitialSlot(m: Module, init: InitialValues, s: State, i: nat, k: nat)
    requires WellFormedGraph(m) && IsInstance(m, i) && k < |SlotsOf(m, i)| == |AttrsOf(m, i)|
  {
    var attr, value := AttrsOf(m, i)[k], SlotsOf(m, i)[k].value;
    (i, attr.name) in s.heap && s.heap[(i, attr.name)] == if attr.ty.NnModule? then Obj(value) else init(value)
  }

  /** Every global slot holds the value it is made for. */
  ghost predicate InitialGlobals(init: InitialValues, slots: seq<GlobalSlot>, t: State) {
    forall g <- slots :: g.name in t.globals && t.globals[g.name] == init(g.value)
  }

  /** The initial stores are related, whatever the initial values are. */
  lemma InitialStoresAreRelated(c: Setup, root: nat, init: InitialValues, s: State, t: State)
    requires Traversed(c.m, root) && c.link == SlotLinkage(Events(c.m, root, [])) && s.world == t.world
    requires (forall v | IsData(c.m, v) :: !init(v).Obj?)
    requires InitialSlots(c.m, init, s) && InitialGlobals(init, Globals(c.m, Events(c.m, root, [])), t)
    ensures StoreRel(c, s, t)
  {
    forall i: nat, k: nat | IsInstance(c.m, i) && k < |AttrsOf(c.m, i)| ensures SlotRel(c, i, k, s, t) {
      SlotFitsAll(c.m, i);
      assert InitialSlot(c.m, init, s, i, k);
      if AttrsOf(c.m, i)[k].ty.Data? { InitialDataSlot(c, root, init, s, t, i, k); }
    }
  }

  lemma InitialDataSlot(c: Setup, root: nat, init: InitialValues, s: State, t: State, i: nat, k: nat)
    requires Traversed(c.m, root) && c.link == SlotLinkage(Events(c.m, root, []))
    requires (forall v | IsData(c.m, v) :: !init(v).Obj?)
    requires InitialGlobals(init, Globals(c.m, Events(c.m, root, [])), t)
    requires IsInstance(c.m, i) && k < |SlotsOf(c.m, i)| == |AttrsOf(c.m, i)| && AttrsOf(c.m, i)[k].ty.Data?
    requires WellFormedSlot(c.m, i, AttrsOf(c.m, i)[k], SlotsOf(c.m, i)[k]) && InitialSlot(c.m, init, s, i, k)
    ensures SlotRel(c, i, k, s, t)
  {
    var key := (i, AttrsOf(c.m, i)[k].name);
    SlotLinkageIsTotal(c.m, root, i, k);
    var n := SlotGlobal(c.m, root, key);
    SlotHasItsGlobal(c.m, root, i, k, n);
  }

  /** The index of the global slot created for a slot. */
  lemma SlotGlobal(m: Module, root: nat, key: (nat, string)) returns (n: nat)
    requires Traversed(m, root) && key in SlotLinkage(Events(m, root, []))
    ensures n < |Globals(m, Events(m, root, []))|
    ensures var g := Globals(m, Events(m, root, []))[n];
            g.name == SlotLinkage(Events(m, root, []))[key].linkageName && IsData(m, g.value) &&
            g.initializer == Sorted(Closure(m, g.value), |m.objects|)
  {
    var events := Events(m, root, []);
    CleanSlotKeysDiffer(m, root);
    var x := SlotLinkageFromEvents(events, key);
    SlotLinkageAt(events, x);
    assert events[x] in events;
    GlobalAt(m, events, x);
    n :| n < |Globals(m, events)| && Globals(m, events)[n] == GlobalOf(m, events[x]);
  }

  // A call from outside: a method at given instances, with all its arguments.
  datatype Request = Request(key: Monomorphization, args: seq<Val>)

  /** Serves requests one after another; `after` selects the clones, which take no module arguments. */
  function Serve(c: Setup, after: bool, fuel: nat, requests: seq<Request>, s: State): Outcome<seq<seq<Val>>>
    requires forall r <- requests :: IsRequest(c, r)
  {
    if requests == [] then Done([], s)
    else
      assert IsRequest(c, requests[0]);
      var f, args := c.m.funcs[requests[0].key.func], requests[0].args;
      var first := if after then Invoke(c.after, fuel, c.after.funcs[Clone(requests[0].key)], DataVals(f.params, args),
                                        s)
                   else Invoke(c.before, fuel, f, args, s);
      match first
      case OutOfFuel => OutOfFuel
      case Stuck => Stuck
      case Done(vals, s') =>
        match Serve(c, after, fuel, requests[1..], s')
        case OutOfFuel => OutOfFuel
        case Stuck => Stuck
        case Done(more, s'') => Done([vals] + more, s'')
  }

  predicate IsRequest(c: Setup, r: Request) {
    r.key.func in c.m.funcs && |c.m.funcs[r.key.func].params| == |r.args| && Clone(r.key) in c.after.funcs
  }

  /** The arguments of a request are the instances of its key, and data. */
  ghost predicate GoodRequest(c: Setup, r: Request)
    requires IsRequest(c, r)
  {
    r.key in c.keys && (forall a <- r.key.argInstances :: a.argIndex < |r.args|) &&
    ArgsRel(InstancesFor(c.m, c.m.funcs[r.key.func], r.key.argInstances), c.m.funcs[r.key.func].params, r.args)
  }

  /**
   Globalization preserves every run: any sequence of requests gives the same answers on the
   instances and on the global slots, or runs out of fuel on both, and gets stuck on neither.
   */
  lemma {:induction false} GlobalizationPreservesRuns(c: Setup, fuel: nat, requests: seq<Request>, s: State, t: State)
    requires Globalized(c) && StoreRel(c, s, t) && (forall r <- requests :: IsRequest(c, r) && GoodRequest(c, r))
    ensures match (Serve(c, false, fuel, requests, s), Serve(c, true, fuel, requests, t))
            case (Done(answers, s'), Done(answers', t')) => answers == answers' && StoreRel(c, s', t')
            case (OutOfFuel, OutOfFuel) => true
            case _ => false
  {
    if requests != [] {
      var k, args := requests[0].key, requests[0].args;
      assert requests[0] in requests && IsClone(c, k);
      SimulateInvoke(c, fuel, k, args, s, t);
      var o := Invoke(c.before, fuel, c.m.funcs[k.func], args, s);
      var o' := Invoke(c.after, fuel, c.after.funcs[Clone(k)], DataVals(c.m.funcs[k.func].params, args), t);
      if o.Done? { GlobalizationPreservesRuns(c, fuel, requests[1..], o.state, o'.state); }
    }
  }
}
