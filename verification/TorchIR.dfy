/**
 The subset of the torch dialect that globalization works on, with a big-step interpreter. One
 language covers both sides: code over `nn_module` instances and code over global slots.
 */
module TorchIR {
  import opened Option

  // A value is a module instance of some class, or data.
  datatype Ty = NnModule(className: string) | Data

  datatype Var = Var(id: nat, ty: Ty)

  // The argument at `argIndex` is the instance `instance`.
  datatype ArgInstance = ArgInstance(argIndex: nat, instance: nat)

  // A function specialised to the instances of its module arguments.
  datatype Monomorphization = Monomorphization(func: string, argInstances: seq<ArgInstance>)

  // A function of the input program, or the clone made for a monomorphization.
  datatype Callee = Original(name: string) | Clone(key: Monomorphization)

  datatype Op =
    | GetAttr(result: Var, receiver: Var, name: string)
    | SetAttr(receiver: Var, name: string, value: Var)
    | SlotGet(result: Var, slot: string)
    | SlotSet(slot: string, value: Var)
    | Call(results: seq<Var>, callee: Callee, operands: seq<Var>)
    // A result that depends on the operands alone.
    | Pure(result: Var, opcode: string, operands: seq<Var>)
    // Results and side effects on tensors.
    | Effect(results: seq<Var>, opcode: string, operands: seq<Var>)
    | If(results: seq<Var>, cond: Var, thn: Block, els: Block)
    // The body takes the iteration number and the carried values, and yields a condition first.
    | Loop(results: seq<Var>, maxTripCount: Var, cond: Var, inits: seq<Var>, body: Block)

  datatype Block = Block(args: seq<Var>, ops: seq<Op>, outs: seq<Var>)

  datatype Func = Func(params: seq<Var>, ops: seq<Op>, results: seq<Var>)

  // A scalar, a reference to a tensor, or an instance.
  datatype Val = Num(n: int) | Tensor(address: nat) | Obj(instance: nat)

  // The contents of all tensors by address. Tensors are never freed.
  type World = seq<seq<int>>

  datatype State = State(heap: map<(nat, string), Val>, globals: map<string, Val>, world: World)

  // What an op sees of an operand: a number, or the contents of a tensor and the first operand that
  // is the same tensor.
  datatype Arg = Scalar(n: int) | Contents(data: seq<int>, first: nat)

  // What it yields: a number, a new tensor, or one of its operands.
  datatype Res = NewScalar(n: int) | NewTensor(data: seq<int>) | Operand(k: nat)

  // The meaning of the ops that do not concern modules. A pure op sees numbers only; `write` gives
  // the new contents of the operands that are overwritten.
  datatype Prims = Prims(
    pure: (string, seq<Option<int>>) -> int,
    effect: (string, seq<Arg>, nat) -> Res,
    write: (string, seq<Arg>, nat) -> Option<seq<int>>)

  datatype Program = Program(funcs: map<Callee, Func>, prims: Prims)

  type Env = map<Var, Val>

  datatype Outcome<T> = Done(value: T, state: State) | OutOfFuel | Stuck

  // ---- Environments ----

  function Vals(env: Env, vs: seq<Var>): (r: Option<seq<Val>>)
    ensures r.Some? <==> forall v <- vs :: v in env
    ensures r.Some? ==> |r.value| == |vs| && forall i | 0 <= i < |vs| :: r.value[i] == env[vs[i]]
  {
    if forall v <- vs :: v in env then Some(seq(|vs|, i requires 0 <= i < |vs| => env[vs[i]])) else None
  }

  /** Operands that are no instances. */
  function Operands(env: Env, vs: seq<Var>): (r: Option<seq<Val>>)
    ensures r.Some? <==> forall v <- vs :: v in env && !env[v].Obj?
    ensures r.Some? ==> |r.value| == |vs| && forall i | 0 <= i < |vs| :: r.value[i] == env[vs[i]] && !env[vs[i]].Obj?
  {
    if forall v <- vs :: v in env && !env[v].Obj? then Some(seq(|vs|, i requires 0 <= i < |vs| => env[vs[i]])) else None
  }

  /** Where a number is wanted, a tensor counts as 0. */
  function Number(v: Val): int {
    if v.Num? then v.n else 0
  }

  function Numbers(vals: seq<Val>): seq<Option<int>> {
    seq(|vals|, i requires 0 <= i < |vals| => if vals[i].Num? then Some(vals[i].n) else None)
  }

  function Bind(env: Env, vs: seq<Var>, vals: seq<Val>): Env
    requires |vs| == |vals|
    decreases |vs|
  {
    if vs == [] then env else Bind(env[vs[0] := vals[0]], vs[1..], vals[1..])
  }

  /** Continues with some variables bound, or is stuck when the numbers differ. */
  function Binding(env: Env, vs: seq<Var>, vals: seq<Val>, st: State): Outcome<Env> {
    if |vs| == |vals| then Done(Bind(env, vs, vals), st) else Stuck
  }

  /** Binds what a nested computation or a callee yields. */
  function BindOutcome(env: Env, vs: seq<Var>, o: Outcome<seq<Val>>): Outcome<Env> {
    match o
    case Done(vals, st) => Binding(env, vs, vals, st)
    case OutOfFuel => OutOfFuel
    case Stuck => Stuck
  }

  /** Reads the values a block or function yields. */
  function Yield(vs: seq<Var>, o: Outcome<Env>): Outcome<seq<Val>> {
    match o
    case Done(env, st) => if Vals(env, vs).Some? then Done(Vals(env, vs).value, st) else Stuck
    case OutOfFuel => OutOfFuel
    case Stuck => Stuck
  }

  // ---- Effects on tensors ----

  function Cell(world: World, address: nat): seq<int> {
    if address < |world| then world[address] else []
  }

  function First(vals: seq<Val>, v: Val): nat {
    if vals == [] || vals[0] == v then 0 else 1 + First(vals[1..], v)
  }

  function See(world: World, vals: seq<Val>): seq<Arg> {
    seq(|vals|, i requires 0 <= i < |vals| =>
      match vals[i]
      case Num(n) => Scalar(n)
      case Tensor(a) => Contents(Cell(world, a), First(vals, vals[i]))
      case Obj(_) => Scalar(0))
  }

  /** The operands from the `i`-th on are overwritten as the op says. */
  function Overwrite(prims: Prims, opcode: string, args: seq<Arg>, vals: seq<Val>, i: nat, world: World): World
    requires i <= |vals|
    decreases |vals| - i
  {
    if i == |vals| then world
    else Overwrite(prims, opcode, args, vals, i + 1, OverwriteOne(prims, opcode, args, vals[i], i, world))
  }

  function OverwriteOne(prims: Prims, opcode: string, args: seq<Arg>, v: Val, i: nat, world: World): World {
    var data := prims.write(opcode, args, i);
    if data.Some? && v.Tensor? && v.address < |world| then world[v.address := data.value] else world
  }

  datatype Results = Results(vals: seq<Val>, world: World)

  /** The `i`-th result; a new tensor gets the next address. */
  function OneResult(res: Res, vals: seq<Val>, world: World): (r: (Val, World))
    ensures (forall v <- vals :: !v.Obj?) ==> !r.0.Obj?
  {
    match res
    case NewScalar(n) => (Num(n), world)
    case NewTensor(data) => (Tensor(|world|), world + [data])
    case Operand(k) => if k < |vals| then (vals[k], world) else (Num(0), world)
  }

  /** The first `n` results, in order. */
  function AllResults(prims: Prims, opcode: string, args: seq<Arg>, vals: seq<Val>, n: nat, world: World): (r: Results)
    ensures |r.vals| == n
    ensures (forall v <- vals :: !v.Obj?) ==> forall v <- r.vals :: !v.Obj?
  {
    if n == 0 then Results([], world)
    else
      var before := AllResults(prims, opcode, args, vals, n - 1, world);
      var last := OneResult(prims.effect(opcode, args, n - 1), vals, before.world);
      Results(before.vals + [last.0], last.1)
  }

  function RunEffect(prims: Prims, opcode: string, vals: seq<Val>, n: nat, world: World): (r: Results)
    ensures |r.vals| == n
    ensures (forall v <- vals :: !v.Obj?) ==> forall v <- r.vals :: !v.Obj?
  {
    var args := See(world, vals);
    AllResults(prims, opcode, args, vals, n, Overwrite(prims, opcode, args, vals, 0, world))
  }

  // ---- The interpreter: fuel is spent by calls and loop iterations ----

  function Exec(p: Program, fuel: nat, ops: seq<Op>, env: Env, st: State): Outcome<Env>
    decreases fuel, ops, 0
  {
    if ops == [] then Done(env, st)
    else
      match ExecOp(p, fuel, ops[0], env, st)
      case Done(env', st') => Exec(p, fuel, ops[1..], env', st')
      case OutOfFuel => OutOfFuel
      case Stuck => Stuck
  }

  function ExecOp(p: Program, fuel: nat, op: Op, env: Env, st: State): Outcome<Env>
    decreases fuel, op
  {
    match op
    case GetAttr(r, x, name) =>
      if x in env && env[x].Obj? && (env[x].instance, name) in st.heap then
        Done(env[r := st.heap[(env[x].instance, name)]], st)
      else Stuck
    case SetAttr(x, name, v) =>
      if x in env && env[x].Obj? && v in env then
        Done(env, st.(heap := st.heap[(env[x].instance, name) := env[v]]))
      else Stuck
    case SlotGet(r, slot) =>
      if slot in st.globals then Done(env[r := st.globals[slot]], st) else Stuck
    case SlotSet(slot, v) =>
      if v in env then Done(env, st.(globals := st.globals[slot := env[v]])) else Stuck
    case Call(rs, callee, xs) =>
      if callee !in p.funcs || Vals(env, xs).None? then Stuck
      else if fuel == 0 then OutOfFuel
      else BindOutcome(env, rs, Invoke(p, fuel - 1, p.funcs[callee], Vals(env, xs).value, st))
    case Pure(r, opcode, xs) =>
      if Operands(env, xs).None? then Stuck
      else Done(env[r := Num(p.prims.pure(opcode, Numbers(Operands(env, xs).value)))], st)
    case Effect(rs, opcode, xs) =>
      if Operands(env, xs).None? then Stuck
      else
        var r := RunEffect(p.prims, opcode, Operands(env, xs).value, |rs|, st.world);
        Binding(env, rs, r.vals, st.(world := r.world))
    case If(rs, cond, thn, els) =>
      if cond !in env || env[cond].Obj? then Stuck
      else BindOutcome(env, rs, ExecBlock(p, fuel, if Number(env[cond]) != 0 then thn else els, [], env, st))
    case Loop(rs, trip, cond, inits, body) =>
      if Operands(env, [trip, cond]).None? || Vals(env, inits).None? then Stuck
      else
        var start := Vals(env, inits).value;
        BindOutcome(env, rs, ExecLoop(p, fuel, body, 0, Number(env[trip]), Number(env[cond]), start, env, st))
  }

  /** A nested block sees the enclosing values; only what it yields gets out. */
  function ExecBlock(p: Program, fuel: nat, b: Block, args: seq<Val>, env: Env, st: State): Outcome<seq<Val>>
    decreases fuel, b
  {
    if |b.args| != |args| then Stuck
    else Yield(b.outs, Exec(p, fuel, b.ops, Bind(env, b.args, args), st))
  }

  function ExecLoop(p: Program, fuel: nat, body: Block, i: int, trip: int, cond: int, vals: seq<Val>, env: Env,
                    st: State)
    : Outcome<seq<Val>>
    decreases fuel, body
  {
    if cond == 0 || i >= trip then Done(vals, st)
    else if fuel == 0 then OutOfFuel
    else
      match ExecBlock(p, fuel - 1, body, [Num(i)] + vals, env, st)
      case Done(yielded, st') =>
        if |yielded| >= 1 && !yielded[0].Obj? then
          ExecLoop(p, fuel - 1, body, i + 1, trip, Number(yielded[0]), yielded[1..], env, st')
        else Stuck
      case OutOfFuel => OutOfFuel
      case Stuck => Stuck
  }

  function Invoke(p: Program, fuel: nat, f: Func, args: seq<Val>, st: State): Outcome<seq<Val>>
    decreases fuel, f.ops, 1
  {
    if |f.params| != |args| then Stuck
    else Yield(f.results, Exec(p, fuel, f.ops, Bind(map[], f.params, args), st))
  }

  lemma ExecSingle(p: Program, fuel: nat, op: Op, env: Env, s: State)
    ensures Exec(p, fuel, [op], env, s) == ExecOp(p, fuel, op, env, s)
  {
    assert [op][1..] == [];
  }

  lemma {:induction false} ExecAppend(p: Program, fuel: nat, first: seq<Op>, rest: seq<Op>, env: Env, s: State)
    ensures Exec(p, fuel, first + rest, env, s) ==
            match Exec(p, fuel, first, env, s)
            case Done(env', s') => Exec(p, fuel, rest, env', s')
            case OutOfFuel => OutOfFuel
            case Stuck => Stuck
    decreases |first|
  {
    if first == [] {
      assert first + rest == rest;
    } else {
      assert (first + rest)[1..] == first[1..] + rest;
      var o := ExecOp(p, fuel, first[0], env, s);
      if o.Done? { ExecAppend(p, fuel, first[1..], rest, o.value, o.state); }
    }
  }

  // ---- Definitions ----

  /** Every value defined in `ops`, nested blocks included, in walk order. */
  function Defs(ops: seq<Op>): seq<Var> {
    if ops == [] then [] else OpDefs(ops[0]) + Defs(ops[1..])
  }

  function OpDefs(op: Op): seq<Var> {
    match op
    case GetAttr(r, _, _) => [r]
    case SetAttr(_, _, _) => []
    case SlotGet(r, _) => [r]
    case SlotSet(_, _) => []
    case Call(rs, _, _) => rs
    case Pure(r, _, _) => [r]
    case Effect(rs, _, _) => rs
    case If(rs, _, thn, els) => BlockDefs(thn) + BlockDefs(els) + rs
    case Loop(rs, _, _, _, body) => BlockDefs(body) + rs
  }

  function BlockDefs(b: Block): seq<Var> {
    b.args + Defs(b.ops)
  }

  /** The results of one op, which later ops of the block may use. */
  function OpResults(op: Op): seq<Var> {
    match op
    case GetAttr(r, _, _) => [r]
    case SetAttr(_, _, _) => []
    case SlotGet(r, _) => [r]
    case SlotSet(_, _) => []
    case Pure(r, _, _) => [r]
    case _ => op.results
  }

  lemma {:induction false} BindLookup(env: Env, vs: seq<Var>, vals: seq<Val>)
    requires |vs| == |vals|
    ensures Bind(env, vs, vals).Keys == env.Keys + (set v | v in vs)
    ensures forall v <- env :: v !in vs ==> Bind(env, vs, vals)[v] == env[v]
    ensures (forall i, j | 0 <= i < j < |vs| :: vs[i] != vs[j]) ==>
              forall i | 0 <= i < |vs| :: Bind(env, vs, vals)[vs[i]] == vals[i]
    decreases |vs|
  {
    if vs != [] {
      BindLookup(env[vs[0] := vals[0]], vs[1..], vals[1..]);
      if forall i, j | 0 <= i < j < |vs| :: vs[i] != vs[j] {
        assert forall i, j | 0 <= i < j < |vs[1..]| :: vs[1..][i] != vs[1..][j];
        forall i | 0 <= i < |vs| ensures Bind(env, vs, vals)[vs[i]] == vals[i] {
          if i > 0 { assert vs[1..][i - 1] == vs[i] && vals[1..][i - 1] == vals[i]; }
        }
      }
    }
  }

  /** All ops, those of nested blocks before the op that holds them. */
  function Walk(ops: seq<Op>): seq<Op> {
    if ops == [] then [] else WalkOp(ops[0]) + Walk(ops[1..])
  }

  function WalkOp(op: Op): seq<Op> {
    match op
    case If(_, _, thn, els) => Walk(thn.ops) + Walk(els.ops) + [op]
    case Loop(_, _, _, _, body) => Walk(body.ops) + [op]
    case _ => [op]
  }
}
