/**
 Whole runs of a module before and after its slots are inlined, from the initializers on.
 */
module InlinedModules {
  import opened Option
  import opened TorchIR
  import opened Correspondence
  import opened Outside
  import opened InlineGlobalSlots
  import opened CloneSafety

  // ---- Where a module starts ----

  /** The store after the initializers of the slots in `order` that the module has. */
  function RunInits(prims: Prims, slots: map<string, SlotDef>, order: seq<string>): State {
    if order == [] then EMPTY
    else
      var before, slot := RunInits(prims, slots, order[..|order| - 1]), order[|order| - 1];
      if slot in slots then RunSlot(prims, slots[slot], slot, before) else before
  }

  function RunSlot(prims: Prims, d: SlotDef, slot: string, s: State): State {
    match Exec(Program(map[], prims), 0, d.init, map[], s)
    case Done(env, s') => if d.value in env then s'.(globals := s'.globals[slot := env[d.value]]) else s'
    case _ => s
  }

  // ---- An initializer does the same wherever it runs ----

  /** The same variables, with corresponding data. */
  ghost predicate SameEnv(k: Corr, env: Env, env': Env) {
    env.Keys == env'.Keys && forall v <- env :: !env[v].Obj? && SameVal(k, env[v], env'[v])
  }

  /** Both runs only add to what was there. */
  ghost predicate BothAdd(k: Corr, k': Corr, w: World, w': World, w2: World, w2': World) {
    CellsRel(k', w2, w2') && AddsNew(k, k', |w|, |w'|) && OthersStay(k.live.Keys, w, w2) &&
    OthersStay(k.live.Values, w', w2')
  }

  lemma BothAddTransitive(k: Corr, k1: Corr, k2: Corr, w: World, w': World, w1: World, w1': World, w2: World,
                          w2': World)
    requires BothAdd(k, k1, w, w', w1, w1') && BothAdd(k1, k2, w1, w1', w2, w2')
    ensures BothAdd(k, k2, w, w', w2, w2')
  {
  }

  lemma {:induction false} BindSame(k: Corr, env: Env, env': Env, rs: seq<Var>, vals: seq<Val>, vals': seq<Val>)
    requires SameEnv(k, env, env') && |rs| == |vals| && SameVals(k, vals, vals')
    ensures SameEnv(k, Bind(env, rs, vals), Bind(env', rs, vals'))
    decreases |rs|
  {
    if rs != [] {
      var env1, env1' := env[rs[0] := vals[0]], env'[rs[0] := vals'[0]];
      assert env1.Keys == env1'.Keys;
      TailSame(k, vals, vals');
      BindSame(k, env1, env1', rs[1..], vals[1..], vals'[1..]);
    }
  }

  lemma OperandsSame(k: Corr, env: Env, env': Env, xs: seq<Var>)
    requires SameEnv(k, env, env') && forall x <- xs :: x in env
    ensures Operands(env, xs).Some? && Operands(env', xs).Some?
    ensures ListRel(k, Nothing(|xs|), Operands(env, xs).value, Operands(env', xs).value)
  {
    forall i | 0 <= i < |xs| ensures xs[i] in env && SameVal(k, env[xs[i]], env'[xs[i]]) { assert xs[i] in xs; }
    forall x <- xs ensures !env'[x].Obj? { assert SameVal(k, env[x], env'[x]); }
  }

  lemma InitOpSame(p: Program, op: Op, k: Corr, env: Env, env': Env, s: State, t: State)
    returns (k': Corr, env1: Env, env1': Env, w: World, w': World)
    requires (op.Pure? || op.Effect?) && SameEnv(k, env, env') && CellsRel(k, s.world, t.world)
    requires forall x <- op.operands :: x in env
    ensures ExecOp(p, 0, op, env, s) == Done(env1, s.(world := w)) &&
            ExecOp(p, 0, op, env', t) == Done(env1', t.(world := w'))
    ensures SameEnv(k', env1, env1') && BothAdd(k, k', s.world, t.world, w, w')
    ensures env1.Keys == env.Keys + SetOf(OpResults(op))
  {
    OperandsSame(k, env, env', op.operands);
    var vals, vals' := Operands(env, op.operands).value, Operands(env', op.operands).value;
    if op.Pure? {
      NumbersAgree(k, Nothing(|vals|), vals, vals');
      var val := Num(p.prims.pure(op.opcode, Numbers(vals)));
      k', env1, env1', w, w' := k, env[op.result := val], env'[op.result := val], s.world, t.world;
      assert env1.Keys == env.Keys + SetOf([op.result]) && env1'.Keys == env'.Keys + {op.result};
    } else {
      var rs := op.results;
      var e, e' := RunEffect(p.prims, op.opcode, vals, |rs|, s.world),
          RunEffect(p.prims, op.opcode, vals', |rs|, t.world);
      k' := CloneEffectRel(p.prims, op.opcode, vals, vals', |rs|, k, s.world, t.world);
      SameEnvGrows(k, k', env, env');
      BindSame(k', env, env', rs, e.vals, e'.vals);
      BindLookup(env, rs, e.vals);
      env1, env1', w, w' := Bind(env, rs, e.vals), Bind(env', rs, e'.vals), e.world, e'.world;
    }
  }

  lemma SameEnvGrows(k: Corr, k': Corr, env: Env, env': Env)
    requires SameEnv(k, env, env') && Grows(k, k')
    ensures SameEnv(k', env, env')
  {
  }

  /** The same initializer from two stores: it runs to the end in both, with corresponding results. */
  lemma {:induction false} InitSame(p: Program, init: seq<Op>, k: Corr, env: Env, env': Env, s: State, t: State)
    returns (k': Corr, env1: Env, env1': Env, w: World, w': World)
    requires WellFormedInit(init, env.Keys) && SameEnv(k, env, env') && CellsRel(k, s.world, t.world)
    ensures Exec(p, 0, init, env, s) == Done(env1, s.(world := w)) &&
            Exec(p, 0, init, env', t) == Done(env1', t.(world := w'))
    ensures SameEnv(k', env1, env1') && BothAdd(k, k', s.world, t.world, w, w')
    ensures env1.Keys == env.Keys + InitDefs(init)
    decreases |init|
  {
    if init == [] {
      k', env1, env1', w, w' := k, env, env', s.world, t.world;
    } else {
      var k2, env2, env2', w2, w2' := InitOpSame(p, init[0], k, env, env', s, t);
      k', env1, env1', w, w' := InitSame(p, init[1..], k2, env2, env2', s.(world := w2), t.(world := w2'));
      BothAddTransitive(k, k2, k', s.world, t.world, w2, w2', w, w');
    }
  }

  lemma ValueIsDefined(d: SlotDef)
    requires WellFormedSlot(d)
    ensures d.value in InitDefs(d.init)
  {
    var op :| op in d.init && d.value in OpResults(op);
    InitDefsHas(d.init, op, d.value);
  }

  /** The slot initialised in two stores. */
  lemma SlotSame(prims: Prims, d: SlotDef, slot: string, k: Corr, s: State, t: State) returns (k': Corr)
    requires WellFormedSlot(d) && CellsRel(k, s.world, t.world)
    ensures var s', t' := RunSlot(prims, d, slot, s), RunSlot(prims, d, slot, t);
            slot in s'.globals && s' == State(s.heap, s.globals[slot := s'.globals[slot]], s'.world) &&
            slot in t'.globals && t' == State(t.heap, t.globals[slot := t'.globals[slot]], t'.world) &&
            !s'.globals[slot].Obj? && SameVal(k', s'.globals[slot], t'.globals[slot]) &&
            BothAdd(k, k', s.world, t.world, s'.world, t'.world)
  {
    var noEnv: Env := map[];
    assert noEnv.Keys == {};
    ValueIsDefined(d);
    var env1, env1', w, w';
    k', env1, env1', w, w' := InitSame(Program(map[], prims), d.init, k, noEnv, noEnv, s, t);
  }

  /**
   Wherever it runs, an initializer leaves its initial value, in a new tensor if it is one, and
   changes nothing else.
   */
  lemma SlotShowsInitial(prims: Prims, d: SlotDef, slot: string, s: State)
    requires WellFormedSlot(d)
    ensures var s' := RunSlot(prims, d, slot, s);
            slot in s'.globals && s' == State(s.heap, s.globals[slot := s'.globals[slot]], s'.world) &&
            s.world <= s'.world &&
            Show(s'.world, s'.globals[slot]) == InitSeen(prims, d) && !s'.globals[slot].Obj? &&
            (s'.globals[slot].Tensor? ==> |s.world| <= s'.globals[slot].address < |s'.world|)
  {
    var k := Corr(map[], {});
    assert k.live.Values == {};
    var noEnv: Env := map[];
    assert noEnv.Keys == {};
    ValueIsDefined(d);
    var k', env1, env1', w, w' := InitSame(Program(map[], prims), d.init, k, noEnv, noEnv, EMPTY, s);
    if env1'[d.value].Tensor? {
      assert env1[d.value].address in k'.live && env1'[d.value].address in k'.live.Values;
    }
  }

  // ---- Both modules start in corresponding stores ----

  /** As in StoreRel, as far as the initializers in `order` go. */
  ghost predicate StartRel(c: Setup, k: Corr, order: seq<string>, s: State, t: State) {
    CellsRel(k, s.world, t.world) && s.heap == map[] && t.heap == map[] && GlobalsRel(c, k, s.globals, t.globals) &&
    forall slot <- c.inits | slot in order ::
      slot in s.globals && IsInitial(c.before.prims, c.inits[slot], k.live.Keys, s.globals[slot], s.world)
  }

  /** The slots that are left are those of the module, and all that are not inlined are left. */
  ghost predicate LeftOver(c: Setup, slots: map<string, SlotDef>, left: map<string, SlotDef>) {
    (forall slot <- slots :: WellFormedSlot(slots[slot])) &&
    (forall slot <- c.inits :: slot in slots && c.inits[slot] == slots[slot]) &&
    (forall slot <- left :: slot in slots && left[slot] == slots[slot]) &&
    forall slot <- slots :: slot in c.inits || slot in left
  }

  lemma {:induction false} StartsCorrespond(c: Setup, slots: map<string, SlotDef>, left: map<string, SlotDef>,
                                            order: seq<string>)
    returns (k: Corr)
    requires LeftOver(c, slots, left)
    ensures StartRel(c, k, order, RunInits(c.before.prims, slots, order), RunInits(c.before.prims, left, order))
  {
    k := Corr(map[], {});
    if order != [] {
      var front, slot := order[..|order| - 1], order[|order| - 1];
      k := StartsCorrespond(c, slots, left, front);
      var s, t := RunInits(c.before.prims, slots, front), RunInits(c.before.prims, left, front);
      if slot in c.inits {
        StartInlined(c, k, left, front, slot, s, t);
      } else if slot in slots {
        k := StartKept(c, k, slots[slot], front, slot, s, t);
      }
      assert forall other | other in order :: other in front || other == slot;
    }
  }

  /** A slot that is inlined: the initializer runs before, and after if the slot was never read. */
  lemma StartInlined(c: Setup, k: Corr, left: map<string, SlotDef>, front: seq<string>, slot: string, s: State,
                     t: State)
    requires StartRel(c, k, front, s, t) && slot in c.inits && WellFormedSlot(c.inits[slot])
    requires slot in left ==> left[slot] == c.inits[slot]
    ensures StartRel(c, k, front + [slot], RunSlot(c.before.prims, c.inits[slot], slot, s),
                     if slot in left then RunSlot(c.before.prims, left[slot], slot, t) else t)
  {
    var s' := RunSlot(c.before.prims, c.inits[slot], slot, s);
    var t' := if slot in left then RunSlot(c.before.prims, left[slot], slot, t) else t;
    SlotShowsInitial(c.before.prims, c.inits[slot], slot, s);
    if slot in left { SlotShowsInitial(c.before.prims, left[slot], slot, t); }
    forall other <- c.inits | other in front + [slot]
      ensures other in s'.globals && IsInitial(c.before.prims, c.inits[other], k.live.Keys, s'.globals[other], s'.world)
    {
      if other != slot {
        assert IsInitial(c.before.prims, c.inits[other], k.live.Keys, s.globals[other], s.world);
      }
    }
    CellsStay(k, s.world, t.world, s'.world, t'.world);
  }

  lemma CellsStay(k: Corr, w: World, w': World, w2: World, w2': World)
    requires CellsRel(k, w, w') && w <= w2 && w' <= w2'
    ensures CellsRel(k, w2, w2')
  {
  }

  /** A slot that stays: the initializer runs on both sides. */
  lemma StartKept(c: Setup, k: Corr, d: SlotDef, front: seq<string>, slot: string, s: State, t: State)
    returns (k': Corr)
    requires StartRel(c, k, front, s, t) && slot !in c.inits && WellFormedSlot(d)
    ensures StartRel(c, k', front + [slot], RunSlot(c.before.prims, d, slot, s), RunSlot(c.before.prims, d, slot, t))
  {
    k' := SlotSame(c.before.prims, d, slot, k, s, t);
    var s' := RunSlot(c.before.prims, d, slot, s);
    GlobalsGrow(c, k, k', s.globals, t.globals);
    forall other <- c.inits | other in front + [slot]
      ensures other in s'.globals &&
              IsInitial(c.before.prims, c.inits[other], k'.live.Keys, s'.globals[other], s'.world)
    {
      assert IsInitial(c.before.prims, c.inits[other], k.live.Keys, s.globals[other], s.world);
    }
  }

  // ---- Whole runs ----

  /** What the pass makes of a module; values numbered from `next` on are new. */
  ghost predicate IsResult(m: SlotModule, r: SlotModule, inits: Inits, next: nat) {
    (forall slot :: slot in inits <==> IsInlined(m, slot)) && (forall slot <- inits :: inits[slot] == m.slots[slot]) &&
    (forall slot :: slot in r.slots <==> slot in m.slots && !(slot in inits && IsRead(m.funcs, slot))) &&
    (forall slot <- r.slots :: r.slots[slot] == m.slots[slot]) && r.funcs.Keys == m.funcs.Keys &&
    forall f <- m.funcs :: FuncBelow(next, m.funcs[f]) && r.funcs[f] == InlineFunc(inits, m.funcs[f], next)
  }

  function SetupOf(m: SlotModule, r: SlotModule, inits: Inits, next: nat, prims: Prims, sh: Sharing,
                   sig: Signature): Setup
  {
    Setup(inits, next, sh, sig, Program(m.funcs, prims), Program(r.funcs, prims))
  }

  /**
   A module and what the pass makes of it, both started from their initializers, answer every sequence
   of requests alike if no tensor of an inlined slot is overwritten in place or compared.
   */
  lemma PassPreservesRuns(m: SlotModule, r: SlotModule, inits: Inits, next: nat, prims: Prims, sh: Sharing,
                          sig: Signature, order: seq<string>, fuel: nat, requests: seq<Request>)
    requires IsResult(m, r, inits, next) && forall slot <- m.slots :: WellFormedSlot(m.slots[slot])
    requires forall slot <- m.slots :: slot in order
    requires LeavesSharedAlone(SetupOf(m, r, inits, next, prims, sh, sig))
    requires AllPermitted(SetupOf(m, r, inits, next, prims, sh, sig), [], requests)
    ensures Answers(Program(m.funcs, prims), fuel, requests, [], RunInits(prims, m.slots, order)) ==
            Answers(Program(r.funcs, prims), fuel, requests, [], RunInits(prims, r.slots, order))
  {
    var c := SetupOf(m, r, inits, next, prims, sh, sig);
    PassIsInlining(m, r, inits, next, prims, sh, sig);
    var k := StartsCorrespond(c, m.slots, r.slots, order);
    InliningPreservesRuns(c, k, fuel, requests, [], [], [], RunInits(prims, m.slots, order),
                          RunInits(prims, r.slots, order));
  }

  /** Without initial values that an op may make as tensors, nothing is asked of the program or of its ops. */
  lemma PassPreservesRunsOnNumbers(m: SlotModule, r: SlotModule, inits: Inits, next: nat, prims: Prims,
                                   order: seq<string>, fuel: nat, requests: seq<Request>)
    requires IsResult(m, r, inits, next) && forall slot <- m.slots :: WellFormedSlot(m.slots[slot])
    requires (forall slot <- m.slots :: slot in order) && forall slot <- inits :: !CreatesObject(inits[slot])
    requires AllPermitted(SetupOf(m, r, inits, next, prims, NOTHING_SHARED, _ => ANYTHING), [], requests)
    ensures Answers(Program(m.funcs, prims), fuel, requests, [], RunInits(prims, m.slots, order)) ==
            Answers(Program(r.funcs, prims), fuel, requests, [], RunInits(prims, r.slots, order))
  {
    var sig := _ => ANYTHING;
    NothingToLeaveAlone(SetupOf(m, r, inits, next, prims, NOTHING_SHARED, sig));
    PassPreservesRuns(m, r, inits, next, prims, NOTHING_SHARED, sig, order, fuel, requests);
  }

  ghost const ALL_SHARED: Sharing := Sharing(iset v: Var | true, iset slot: string | true)

  /** The op overwrites and compares none of its operands, and stores nothing in an attribute. */
  predicate OnlyReads(sig: Signature, op: Op) {
    !op.SetAttr? &&
    (op.Effect? ==>
       forall i | 0 <= i < |op.operands| :: i !in sig(op.opcode).overwrites && i !in sig(op.opcode).compares)
  }

  lemma ReadersLeaveAlone(c: Setup)
    requires c.sharing == ALL_SHARED && Describes(c.sig, c.before.prims)
    requires forall f <- c.before.funcs :: forall op <- Walk(c.before.funcs[f].ops) :: OnlyReads(c.sig, op)
    ensures LeavesSharedAlone(c)
  {
    forall f <- c.before.funcs ensures WalkSpares(c, Walk(c.before.funcs[f].ops)) {
      forall op <- Walk(c.before.funcs[f].ops) ensures SparesShared(c.inits, c.sharing, c.sig, c.before.funcs, op) {
        assert OnlyReads(c.sig, op);
      }
    }
  }

  /** A program of such ops needs no account of where tensors go: any value may hold a tensor of an inlined slot. */
  lemma PassPreservesReaders(m: SlotModule, r: SlotModule, inits: Inits, next: nat, prims: Prims, sig: Signature,
                             order: seq<string>, fuel: nat, requests: seq<Request>)
    requires IsResult(m, r, inits, next) && forall slot <- m.slots :: WellFormedSlot(m.slots[slot])
    requires forall slot <- m.slots :: slot in order
    requires Describes(sig, prims)
    requires forall f <- m.funcs :: forall op <- Walk(m.funcs[f].ops) :: OnlyReads(sig, op)
    requires AllPermitted(SetupOf(m, r, inits, next, prims, ALL_SHARED, sig), [], requests)
    ensures Answers(Program(m.funcs, prims), fuel, requests, [], RunInits(prims, m.slots, order)) ==
            Answers(Program(r.funcs, prims), fuel, requests, [], RunInits(prims, r.slots, order))
  {
    ReadersLeaveAlone(SetupOf(m, r, inits, next, prims, ALL_SHARED, sig));
    PassPreservesRuns(m, r, inits, next, prims, ALL_SHARED, sig, order, fuel, requests);
  }
}
