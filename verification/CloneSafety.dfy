/**
 When cloning the initializer of a global slot is safe, whatever the program does and whatever its
 ops mean: exactly when no op that may create a tensor yields its value.
 */
module CloneSafety {
  import opened Option
  import opened TorchIR
  import opened Correspondence
  import opened Outside
  import opened InlineGlobalSlots

  /** Nothing that can be done from outside tells the inlined program from the original one. */
  ghost predicate Indistinguishable(c: Setup) {
    forall k: Corr, fuel: nat, requests: seq<Request>, s: State, t: State |
      AllPermitted(c, [], requests) && StoreRel(c, k, s, t) ::
      Answers(c.before, fuel, requests, [], s) == Answers(c.after, fuel, requests, [], t)
  }

  /** Every program may have a slot with this initializer inlined. */
  ghost predicate SafeToClone(d: SlotDef) {
    forall c: Setup, slot: string | c.inits == map[slot := d] && c.sharing == NOTHING_SHARED && IsInlining(c) ::
      Indistinguishable(c)
  }

  /** Safe for every program and every meaning of its ops, or not: the initializer decides. */
  lemma SafeIffNoObject(d: SlotDef)
    requires WellFormedSlot(d)
    ensures SafeToClone(d) <==> !CreatesObject(d)
  {
    if CreatesObject(d) {
      ObjectsAreUnsafe(d);
    } else {
      forall c: Setup, slot: string | c.inits == map[slot := d] && c.sharing == NOTHING_SHARED && IsInlining(c)
        ensures Indistinguishable(c)
      {
        NumbersAreSafe(c);
      }
    }
  }

  lemma ObjectsAreUnsafe(d: SlotDef)
    requires WellFormedSlot(d) && CreatesObject(d)
    ensures !SafeToClone(d)
  {
    CloningLosesIdentity(d, 0);
    var c := FillAndRead(d);
    assert c.inits == map["t" := d] && c.sharing == NOTHING_SHARED && IsInlining(c);
    assert AllPermitted(c, [], CALL_F) && StoreRel(c, Corr(map[], {}), ONE_TENSOR, EMPTY);
  }

  // ---- Initial values that are numbers ----

  // Traits that every op has.
  ghost const ANYTHING: Traits := Traits(iset i: nat | true, iset i: nat | true, iset i: nat | true)

  lemma AnythingDescribes(prims: Prims, opcode: string)
    ensures HasTraits(ANYTHING, prims, opcode)
  {
    forall args, args', i: nat | SameUpTo(ANYTHING.compares, args, args')
      ensures prims.effect(opcode, args, i) == prims.effect(opcode, args', i) &&
              prims.write(opcode, args, i) == prims.write(opcode, args', i)
    {
      forall j | 0 <= j < |args| ensures args[j] == args'[j] {
        assert SeesSameAt(j !in ANYTHING.compares, args[j], args'[j]);
      }
      assert args == args';
    }
  }

  lemma NothingToLeaveAlone(c: Setup)
    requires c.sharing == NOTHING_SHARED && c.sig == (_ => ANYTHING)
    requires forall slot <- c.inits :: !CreatesObject(c.inits[slot])
    ensures LeavesSharedAlone(c)
  {
    forall opcode ensures HasTraits(c.sig(opcode), c.before.prims, opcode) {
      AnythingDescribes(c.before.prims, opcode);
    }
  }

  lemma {:induction false} PermittedUnder(c: Setup, sig: Signature, flags: seq<bool>, requests: seq<Request>)
    requires AllPermitted(c, flags, requests)
    ensures AllPermitted(c.(sig := sig), flags, requests)
    decreases |requests|
  {
    if requests != [] {
      PermittedUnder(c, sig, FlagsAfter(c, flags, requests[0]), requests[1..]);
    }
  }

  /** Initializers whose value no creating op yields may be cloned in any program. */
  lemma NumbersAreSafe(c: Setup)
    requires IsInlining(c) && c.sharing == NOTHING_SHARED
    requires forall slot <- c.inits :: !CreatesObject(c.inits[slot])
    ensures Indistinguishable(c)
  {
    var c' := c.(sig := _ => ANYTHING);
    NothingToLeaveAlone(c');
    forall f <- c'.before.funcs ensures InlinedFunc(c', f) { assert InlinedFunc(c, f); }
    forall k: Corr, fuel: nat, requests: seq<Request>, s: State, t: State |
      AllPermitted(c, [], requests) && StoreRel(c, k, s, t)
      ensures Answers(c.before, fuel, requests, [], s) == Answers(c.after, fuel, requests, [], t)
    {
      PermittedUnder(c, c'.sig, [], requests);
      StoreRelUnder(c, c'.sig, k, s, t);
      InliningPreservesRuns(c', k, fuel, requests, [], [], [], s, t);
    }
  }

  lemma StoreRelUnder(c: Setup, sig: Signature, k: Corr, s: State, t: State)
    requires StoreRel(c, k, s, t)
    ensures StoreRel(c.(sig := sig), k, s, t)
  {
  }

  // ---- Initial values that are tensors ----

  const X := Var(0, Data)
  const Y := Var(1, Data)
  const R := Var(2, Data)

  const ONE_TENSOR: State := State(map[], map["t" := Tensor(0)], [[0]])
  const CALL_F: seq<Request> := [Request.Call(Original("f"), [])]

  /** An opcode no op of the initializer has. */
  function OtherOpcode(init: seq<Op>): string {
    if init == [] then "x"
    else (if init[0].Pure? || init[0].Effect? then init[0].opcode else "") + OtherOpcode(init[1..])
  }

  lemma {:induction false} OtherOpcodeIsLonger(init: seq<Op>, op: Op)
    requires op in init && (op.Pure? || op.Effect?)
    ensures |op.opcode| < |OtherOpcode(init)|
  {
    OtherOpcodeIsNotEmpty(init[1..]);
    if op != init[0] { OtherOpcodeIsLonger(init[1..], op); }
  }

  lemma {:induction false} OtherOpcodeIsNotEmpty(init: seq<Op>)
    ensures OtherOpcode(init) != ""
  {
    if init != [] { OtherOpcodeIsNotEmpty(init[1..]); }
  }

  /** `fill` overwrites its operand with a 1, `item` reads the number in it, and all others make a tensor with a 0. */
  function FillAndReadPrims(fill: string, item: string): Prims {
    Prims((_, _) => 0,
          (opcode: string, args: seq<Arg>, i: nat) =>
            if opcode == item then NewScalar(FirstNumber(args)) else NewTensor([0]),
          (opcode: string, args: seq<Arg>, i: nat) => if opcode == fill && i == 0 then Some([1]) else None)
  }

  function FirstNumber(args: seq<Arg>): int {
    if args != [] && args[0].Contents? && args[0].data != [] then args[0].data[0] else 0
  }

  function FillOp(fill: string): Op { Effect([], fill, [X]) }

  function ItemOp(item: string): Op { Effect([R], item, [Y]) }

  /** Reads the slot, fills what it has read, reads the slot again and returns the number in it. */
  function FillAndReadOps(fill: string, item: string): seq<Op> {
    [SlotGet(X, "t"), FillOp(fill), SlotGet(Y, "t"), ItemOp(item)]
  }

  ghost function FillAndRead(d: SlotDef): Setup {
    var fill := OtherOpcode(d.init);
    var item := fill + "y";
    var f, inits := Func([], FillAndReadOps(fill, item), [R]), map["t" := d];
    var prims := FillAndReadPrims(fill, item);
    Setup(inits, 3, NOTHING_SHARED, _ => ANYTHING, Program(map[Original("f") := f], prims),
          Program(map[Original("f") := InlineFunc(inits, f, 3)], prims))
  }

  // ---- The initial value is a tensor with a 0 ----

  /** Every tensor of the world holds a 0. */
  ghost predicate OnlyZeros(world: World) {
    forall a: nat | a < |world| :: world[a] == [0]
  }

  predicate IsTensorOf(world: World, v: Val) {
    v.Tensor? && v.address < |world|
  }

  lemma {:induction false} NothingOverwritten(prims: Prims, opcode: string, args: seq<Arg>, vals: seq<Val>, i: nat,
                                              world: World)
    requires i <= |vals| && forall j: nat :: prims.write(opcode, args, j).None?
    ensures Overwrite(prims, opcode, args, vals, i, world) == world
    decreases |vals| - i
  {
    if i < |vals| { NothingOverwritten(prims, opcode, args, vals, i + 1, world); }
  }

  lemma {:induction false} OnlyZerosMade(prims: Prims, opcode: string, args: seq<Arg>, vals: seq<Val>, n: nat,
                                         world: World)
    requires OnlyZeros(world) && forall j: nat :: prims.effect(opcode, args, j) == NewTensor([0])
    ensures var r := AllResults(prims, opcode, args, vals, n, world);
            OnlyZeros(r.world) && |world| <= |r.world| && forall v <- r.vals :: IsTensorOf(r.world, v)
  {
    if n > 0 { OnlyZerosMade(prims, opcode, args, vals, n - 1, world); }
  }

  lemma InitOpMakesZeros(fill: string, item: string, op: Op, ienv: Env, s: State)
    requires (op.Pure? || op.Effect?) && op.opcode != fill && op.opcode != item && OnlyZeros(s.world) &&
             Distinct(OpResults(op))
    ensures var o := ExecOp(Program(map[], FillAndReadPrims(fill, item)), 0, op, ienv, s);
            o.Done? ==> OnlyZeros(o.state.world) && |s.world| <= |o.state.world| &&
                        (op.Effect? ==> forall x <- op.results :: x in o.value && IsTensorOf(o.state.world, o.value[x]))
  {
    var prims := FillAndReadPrims(fill, item);
    if op.Effect? && Operands(ienv, op.operands).Some? {
      var vals := Operands(ienv, op.operands).value;
      var args := See(s.world, vals);
      NothingOverwritten(prims, op.opcode, args, vals, 0, s.world);
      OnlyZerosMade(prims, op.opcode, args, vals, |op.results|, s.world);
      var r := RunEffect(prims, op.opcode, vals, |op.results|, s.world);
      BindLookup(ienv, op.results, r.vals);
      forall x <- op.results
        ensures x in Bind(ienv, op.results, r.vals) && Bind(ienv, op.results, r.vals)[x] in r.vals
      {
        var i :| 0 <= i < |op.results| && op.results[i] == x;
      }
    }
  }

  lemma {:induction false} InitMakesZeros(fill: string, item: string, init: seq<Op>, ienv: Env, s: State, x: Var)
    requires WellFormedInit(init, ienv.Keys) && OnlyZeros(s.world)
    requires forall op <- init | op.Pure? || op.Effect? :: op.opcode != fill && op.opcode != item
    requires (x in ienv && IsTensorOf(s.world, ienv[x])) || exists op <- init :: op.Effect? && x in op.results
    ensures var o := Exec(Program(map[], FillAndReadPrims(fill, item)), 0, init, ienv, s);
            o.Done? ==> OnlyZeros(o.state.world) && x in o.value && IsTensorOf(o.state.world, o.value[x])
    decreases |init|
  {
    if init != [] {
      var p, op := Program(map[], FillAndReadPrims(fill, item)), init[0];
      var o := ExecOp(p, 0, op, ienv, s);
      if o.Done? {
        InitOpMakesZeros(fill, item, op, ienv, s);
        OpBinds(p, op, ienv, s);
        InitMakesZeros(fill, item, init[1..], o.value, o.state, x);
      }
    }
  }

  /** The initializer runs to the end. */
  lemma InitRuns(prims: Prims, d: SlotDef)
    requires WellFormedSlot(d)
    ensures InitRun(prims, d.init).Done? && d.value in InitRun(prims, d.init).value
  {
    var none: map<Var, Var>, noEnv: Env := map[], map[];
    assert noEnv.Keys == {} && none.Keys == {};
    var a := Ran(Corr(map[], {}), none, 1, noEnv, noEnv, [], []);
    var b := CloneComputesInit(Program(map[], prims), 0, d.init, d.value, X, 1, a, EMPTY);
    var op :| op in d.init && d.value in OpResults(op);
    InitDefsHas(d.init, op, d.value);
  }

  lemma InitialValueIsZero(d: SlotDef)
    requires WellFormedSlot(d) && CreatesObject(d)
    ensures InitSeen(FillAndRead(d).before.prims, d) == SeenTensor([0])
  {
    var fill := OtherOpcode(d.init);
    var item := fill + "y";
    forall op <- d.init | op.Pure? || op.Effect? ensures op.opcode != fill && op.opcode != item {
      OtherOpcodeIsLonger(d.init, op);
    }
    var noEnv: Env := map[];
    assert noEnv.Keys == {};
    InitRuns(FillAndReadPrims(fill, item), d);
    InitMakesZeros(fill, item, d.init, noEnv, EMPTY, d.value);
  }

  // ---- The two programs ----

  lemma OneOperand(env: Env, v: Var)
    requires v in env && !env[v].Obj?
    ensures Operands(env, [v]) == Some([env[v]])
  {
    assert v in [v] && Operands(env, [v]).value == [env[v]];
  }

  lemma FillRuns(fill: string, item: string, funcs: map<Callee, Func>, fuel: nat, env: Env, s: State, a: nat)
    requires fill != item && X in env && env[X] == Tensor(a) && a < |s.world|
    ensures ExecOp(Program(funcs, FillAndReadPrims(fill, item)), fuel, FillOp(fill), env, s) ==
            Done(env, s.(world := s.world[a := [1]]))
  {
    var prims, vals := FillAndReadPrims(fill, item), [Tensor(a)];
    OneOperand(env, X);
    var args := See(s.world, vals);
    var w := s.world[a := [1]];
    assert OverwriteOne(prims, fill, args, vals[0], 0, s.world) == w;
    assert Overwrite(prims, fill, args, vals, 1, w) == w;
    assert Overwrite(prims, fill, args, vals, 0, s.world) == w;
    assert AllResults(prims, fill, args, vals, 0, w) == Results([], w);
  }

  lemma ItemRuns(fill: string, item: string, funcs: map<Callee, Func>, fuel: nat, env: Env, s: State, a: nat, n: int)
    requires fill != item && Y in env && env[Y] == Tensor(a) && a < |s.world| && s.world[a] == [n]
    ensures ExecOp(Program(funcs, FillAndReadPrims(fill, item)), fuel, ItemOp(item), env, s) ==
            Done(env[R := Num(n)], s)
  {
    var prims, vals := FillAndReadPrims(fill, item), [Tensor(a)];
    OneOperand(env, Y);
    var args := See(s.world, vals);
    assert args == [Contents([n], 0)];
    NothingOverwritten(prims, item, args, vals, 0, s.world);
    assert AllResults(prims, item, args, vals, 0, s.world) == Results([], s.world);
    assert AllResults(prims, item, args, vals, 1, s.world) == Results([Num(n)], s.world);
    BindOne(env, R, Num(n));
  }

  lemma BindOne(env: Env, v: Var, val: Val)
    ensures Bind(env, [v], [val]) == env[v := val]
  {
    assert [v][1..] == [] && [val][1..] == [];
  }

  /** The original program reads what it has filled in. */
  lemma FillIsSeen(fill: string, item: string, funcs: map<Callee, Func>, fuel: nat)
    requires fill != item
    ensures var o := Exec(Program(funcs, FillAndReadPrims(fill, item)), fuel, FillAndReadOps(fill, item), map[],
                          ONE_TENSOR);
            o.Done? && R in o.value && o.value[R] == Num(1)
  {
    var p, ops := Program(funcs, FillAndReadPrims(fill, item)), FillAndReadOps(fill, item);
    var s1 := ONE_TENSOR.(world := [[1]]);
    var env1: Env := map[X := Tensor(0)];
    var env2 := env1[Y := Tensor(0)];
    FillRuns(fill, item, funcs, fuel, env1, ONE_TENSOR, 0);
    ItemRuns(fill, item, funcs, fuel, env2, s1, 0, 1);
    assert [[0]][0 := [1]] == [[1]];
    ExecSingle(p, fuel, ops[3], env2, s1);
    ExecFirst(p, fuel, ops[2], [ops[3]], env1, s1, env2, s1);
    ExecFirst(p, fuel, ops[1], [ops[2], ops[3]], env1, ONE_TENSOR, env1, s1);
    ExecFirst(p, fuel, ops[0], ops[1..], map[], ONE_TENSOR, env1, ONE_TENSOR);
    assert [ops[1]] + [ops[2], ops[3]] == ops[1..] && [ops[0]] + ops[1..] == ops &&
           [ops[2]] + [ops[3]] == [ops[2], ops[3]];
  }

  /** The second copy and what reads it. */
  function SecondHalf(d: SlotDef): seq<Op> {
    CloneInit(d.init, d.value, Y, 3 + InitSize(d.init), map[]) + [ItemOp(OtherOpcode(d.init) + "y")]
  }

  lemma InlinedOps(d: SlotDef)
    ensures InlineOps(map["t" := d], FillAndReadOps(OtherOpcode(d.init), OtherOpcode(d.init) + "y"), 3).ops ==
            CloneInit(d.init, d.value, X, 3, map[]) + ([FillOp(OtherOpcode(d.init))] + SecondHalf(d))
  {
    var inits: Inits, fill, item := map["t" := d], OtherOpcode(d.init), OtherOpcode(d.init) + "y";
    var ops, n := FillAndReadOps(fill, item), 3 + InitSize(d.init);
    var m := n + InitSize(d.init);
    assert ops[3..] == [ItemOp(item)] && ops[3..][1..] == [];
    assert InlineOps(inits, ops[3..], m).ops == [ItemOp(item)];
    assert ops[2..][0] == SlotGet(Y, "t") && ops[2..][1..] == ops[3..];
    assert InlineOps(inits, ops[2..], n).ops == SecondHalf(d);
    assert ops[1..][0] == FillOp(fill) && ops[1..][1..] == ops[2..];
    assert InlineOps(inits, ops[1..], n).ops == [FillOp(fill)] + SecondHalf(d);
  }

  lemma OpsAfter(d: SlotDef)
    ensures FillAndRead(d).after.funcs[Original("f")].ops ==
            InlineOps(map["t" := d], FillAndReadOps(OtherOpcode(d.init), OtherOpcode(d.init) + "y"), 3).ops
  {
  }

  /** The inlined program fills the first copy, and reads another one. */
  lemma FirstCopyFilled(d: SlotDef, fuel: nat, rest: seq<Op>) returns (env: Env, s: State)
    requires WellFormedSlot(d) && CreatesObject(d)
    ensures var ops := CloneInit(d.init, d.value, X, 3, map[]) + ([FillOp(OtherOpcode(d.init))] + rest);
            Exec(FillAndRead(d).after, fuel, ops, map[], EMPTY) == Exec(FillAndRead(d).after, fuel, rest, env, s)
  {
    var p, fill, item := FillAndRead(d).after, OtherOpcode(d.init), OtherOpcode(d.init) + "y";
    var noEnv: Env := map[];
    InitialValueIsZero(d);
    var env1, w1 := CloneYields(p, fuel, d, X, 3, 3, noEnv, EMPTY);
    ExecAppend(p, fuel, CloneInit(d.init, d.value, X, 3, map[]), [FillOp(fill)] + rest, noEnv, EMPTY);
    var a, s1 := env1[X].address, EMPTY.(world := w1);
    env, s := env1, s1.(world := w1[a := [1]]);
    FillRuns(fill, item, p.funcs, fuel, env1, s1, a);
    ExecFirst(p, fuel, FillOp(fill), rest, env1, s1, env, s);
  }

  lemma SecondCopyRead(d: SlotDef, fuel: nat, env: Env, s: State)
    requires WellFormedSlot(d) && CreatesObject(d)
    ensures var o := Exec(FillAndRead(d).after, fuel, SecondHalf(d), env, s);
            o.Done? && R in o.value && o.value[R] == Num(0)
  {
    var p, fill, item := FillAndRead(d).after, OtherOpcode(d.init), OtherOpcode(d.init) + "y";
    var n := 3 + InitSize(d.init);
    InitialValueIsZero(d);
    var env3, w3 := CloneYields(p, fuel, d, Y, 3, n, env, s);
    ExecAppend(p, fuel, CloneInit(d.init, d.value, Y, n, map[]), [ItemOp(item)], env, s);
    ItemRuns(fill, item, p.funcs, fuel, env3, s.(world := w3), env3[Y].address, 0);
    ExecSingle(p, fuel, ItemOp(item), env3, s.(world := w3));
  }

  lemma FillIsLost(d: SlotDef, fuel: nat)
    requires WellFormedSlot(d) && CreatesObject(d)
    ensures var c := FillAndRead(d);
            var o := Exec(c.after, fuel, c.after.funcs[Original("f")].ops, map[], EMPTY);
            o.Done? && R in o.value && o.value[R] == Num(0)
  {
    OpsAfter(d);
    InlinedOps(d);
    var env, s := FirstCopyFilled(d, fuel, SecondHalf(d));
    SecondCopyRead(d, fuel, env, s);
  }

  /**
   For any initializer whose value an op makes that may create a tensor there are a program and a
   meaning of the other ops such that inlining changes an answer: the program fills the slot's tensor
   and reads the slot again.
   */
  lemma CloningLosesIdentity(d: SlotDef, fuel: nat)
    requires WellFormedSlot(d) && CreatesObject(d)
    ensures var c := FillAndRead(d);
            c.inits == map["t" := d] && IsInlining(c) && AllPermitted(c, [], CALL_F) &&
            StoreRel(c, Corr(map[], {}), ONE_TENSOR, EMPTY) &&
            (d.isPrivate ==> IsInlined(SlotModule(c.inits, c.before.funcs), "t")) &&
            Answers(c.before, fuel, CALL_F, [], ONE_TENSOR) == [Returned([SeenNumber(1)])] &&
            Answers(c.after, fuel, CALL_F, [], EMPTY) == [Returned([SeenNumber(0)])]
  {
    var c, fill, item := FillAndRead(d), OtherOpcode(d.init), OtherOpcode(d.init) + "y";
    InitialValueIsZero(d);
    FillAndReadIsInlining(d);
    FillIsSeen(fill, item, c.before.funcs, fuel);
    FillIsLost(d, fuel);
    AnswerOfF(c.before, fuel, ONE_TENSOR, 1);
    AnswerOfF(c.after, fuel, EMPTY, 0);
  }

  lemma FillAndReadWalk(fill: string, item: string)
    ensures Walk(FillAndReadOps(fill, item)) == FillAndReadOps(fill, item)
  {
    var ops := FillAndReadOps(fill, item);
    assert ops[1..][1..] == ops[2..] && ops[2..][1..] == ops[3..] && ops[3..][1..] == [];
    assert Walk(ops[3..]) == [ops[3]];
    assert Walk(ops[2..]) == [ops[2], ops[3]];
    assert Walk(ops[1..]) == [ops[1], ops[2], ops[3]];
  }

  lemma NothingWritten(fill: string, item: string)
    ensures !SlotSetIn(Walk(FillAndReadOps(fill, item)), "t")
  {
    FillAndReadWalk(fill, item);
  }

  lemma FillAndReadBelow(fill: string, item: string)
    ensures FuncBelow(3, Func([], FillAndReadOps(fill, item), [R]))
  {
  }

  lemma FillAndReadIsInlining(d: SlotDef)
    requires WellFormedSlot(d)
    ensures var c := FillAndRead(d);
            IsInlining(c) && (d.isPrivate ==> IsInlined(SlotModule(c.inits, c.before.funcs), "t"))
  {
    var c, f := FillAndRead(d), Original("f");
    NothingWritten(OtherOpcode(d.init), OtherOpcode(d.init) + "y");
    FillAndReadBelow(OtherOpcode(d.init), OtherOpcode(d.init) + "y");
    assert NeverWritten(c.inits, Walk(c.before.funcs[f].ops));
    assert InlinedFunc(c, f);
  }

  lemma AnswerOfF(p: Program, fuel: nat, s: State, n: int)
    requires Original("f") in p.funcs && p.funcs[Original("f")].params == [] && p.funcs[Original("f")].results == [R]
    requires var o := Exec(p, fuel, p.funcs[Original("f")].ops, map[], s);
             o.Done? && R in o.value && o.value[R] == Num(n)
    ensures Answers(p, fuel, CALL_F, [], s) == [Returned([SeenNumber(n)])]
  {
    var o := Exec(p, fuel, p.funcs[Original("f")].ops, map[], s);
    assert GiveAll([], [], s.world) == Some(Results([], s.world));
    assert s.(world := s.world) == s;
    assert R in [R] && Vals(o.value, [R]).value == [Num(n)];
    assert Invoke(p, fuel, p.funcs[Original("f")], [], s) == Done([Num(n)], o.state);
    assert ShowAll(o.state.world, [Num(n)]) == [SeenNumber(n)];
    var reply := Serve(p, fuel, CALL_F[0], [], s);
    assert reply.answer == Returned([SeenNumber(n)]);
    assert CALL_F[1..] == [];
  }
}
