/**
 Replacing reads of global slots nothing writes by their initializers. Models
 lib/Dialect/Torch/Transforms/InlineGlobalSlots.cpp.
 */
module InlineGlobalSlots {
  import opened Option
  import opened TorchIR
  import opened Correspondence
  import opened Outside

  // The initializer of a slot is a region of its own that yields `value`.
  datatype SlotDef = SlotDef(isPrivate: bool, init: seq<Op>, value: Var)

  datatype SlotModule = SlotModule(slots: map<string, SlotDef>, funcs: map<Callee, Func>)

  // ---- Initializers ----

  function SetOf(vs: seq<Var>): set<Var> {
    set v | v in vs
  }

  predicate Distinct(vs: seq<Var>) {
    forall i, j | 0 <= i < j < |vs| :: vs[i] != vs[j]
  }

  /** Ops on their own results only, each result defined once and before its uses. */
  predicate WellFormedInit(init: seq<Op>, defined: set<Var>) {
    init == [] ||
    ((init[0].Pure? || init[0].Effect?) && (forall x <- init[0].operands :: x in defined) &&
     Distinct(OpResults(init[0])) && (forall r <- OpResults(init[0]) :: r !in defined) &&
     WellFormedInit(init[1..], defined + SetOf(OpResults(init[0]))))
  }

  predicate DefinesValue(d: SlotDef) {
    exists op <- d.init :: d.value in OpResults(op)
  }

  predicate WellFormedSlot(d: SlotDef) {
    WellFormedInit(d.init, {}) && DefinesValue(d)
  }

  /** The value comes from an op that may make a tensor. */
  predicate CreatesObject(d: SlotDef) {
    exists op <- d.init :: op.Effect? && d.value in op.results
  }

  const EMPTY: State := State(map[], map[], [])

  /** The initializer run on its own. */
  function InitRun(prims: Prims, init: seq<Op>): Outcome<Env> {
    Exec(Program(map[], prims), 0, init, map[], EMPTY)
  }

  /** What can be seen of the initial value of a slot. */
  function InitSeen(prims: Prims, d: SlotDef): Seen {
    var o := InitRun(prims, d.init);
    if o.Done? && d.value in o.value then Show(o.state.world, o.value[d.value]) else SeenNumber(0)
  }

  // ---- The analysis ----

  ghost predicate IsWritten(funcs: map<Callee, Func>, slot: string) {
    exists f <- funcs :: SlotSetIn(Walk(funcs[f].ops), slot)
  }

  ghost predicate SlotSetIn(walk: seq<Op>, slot: string) {
    exists op <- walk :: op.SlotSet? && op.slot == slot
  }

  /** The slots that are inlined: private, and no use is anything but a read. */
  ghost predicate IsInlined(m: SlotModule, slot: string) {
    slot in m.slots && m.slots[slot].isPrivate && !IsWritten(m.funcs, slot)
  }

  /** The slots some op other than a read refers to. */
  method PotentiallyWrittenGlobalSlots(m: SlotModule) returns (written: set<string>)
    ensures forall slot :: slot in written <==> slot in m.slots && IsWritten(m.funcs, slot)
  {
    written := {};
    var names := m.funcs.Keys;
    while names != {}
      invariant names <= m.funcs.Keys
      invariant forall slot :: slot in written <==>
                  slot in m.slots && exists f <- m.funcs :: f !in names && SlotSetIn(Walk(m.funcs[f].ops), slot)
    {
      var f :| f in names;
      var found := SlotsSetIn(Walk(m.funcs[f].ops), m.slots.Keys);
      written := written + found;
      names := names - {f};
    }
  }

  method SlotsSetIn(walk: seq<Op>, known: set<string>) returns (written: set<string>)
    ensures forall slot :: slot in written <==> slot in known && SlotSetIn(walk, slot)
  {
    written := {};
    for n := 0 to |walk|
      invariant forall slot :: slot in written <==>
                  slot in known && exists j :: 0 <= j < n && walk[j].SlotSet? && walk[j].slot == slot
    {
      if walk[n].SlotSet? && walk[n].slot in known { written := written + {walk[n].slot}; }
    }
  }

  // ---- Inlining ----

  // Rewritten ops, and the first number not used for a new value.
  datatype Inlined = Inlined(ops: seq<Op>, next: nat)

  type Inits = map<string, SlotDef>

  function CloneName(v: Var, value: Var, r: Var, next: nat): Var {
    if v == value then r else Var(next, v.ty)
  }

  function CloneNames(vs: seq<Var>, value: Var, r: Var, next: nat): (clones: seq<Var>)
    ensures |clones| == |vs|
    decreases |vs|
  {
    if vs == [] then [] else [CloneName(vs[0], value, r, next)] + CloneNames(vs[1..], value, r, next + 1)
  }

  function MapTo(mapper: map<Var, Var>, vs: seq<Var>, clones: seq<Var>): map<Var, Var>
    requires |vs| == |clones|
    decreases |vs|
  {
    if vs == [] then mapper else MapTo(mapper[vs[0] := clones[0]], vs[1..], clones[1..])
  }

  // A cloned op, the next free number, and the clones of all results so far.
  datatype Cloned = Cloned(op: Op, next: nat, mapper: map<Var, Var>)

  function CloneOp(op: Op, value: Var, r: Var, next: nat, mapper: map<Var, Var>): Cloned {
    match op
    case Pure(x, opcode, xs) =>
      var clone := CloneName(x, value, r, next);
      Cloned(Pure(clone, opcode, Lookup(mapper, xs)), next + 1, mapper[x := clone])
    case Effect(rs, opcode, xs) =>
      var clones := CloneNames(rs, value, r, next);
      Cloned(Effect(clones, opcode, Lookup(mapper, xs)), next + |rs|, MapTo(mapper, rs, clones))
    case _ => Cloned(op, next, mapper)
  }

  /** Clones an initializer: its value becomes `r`, which the uses of the read refer to; the rest get new names. */
  function CloneInit(init: seq<Op>, value: Var, r: Var, next: nat, mapper: map<Var, Var>): seq<Op> {
    if init == [] then []
    else
      var first := CloneOp(init[0], value, r, next, mapper);
      [first.op] + CloneInit(init[1..], value, r, first.next, first.mapper)
  }

  /** The number of values an initializer defines. */
  function InitSize(init: seq<Op>): nat {
    if init == [] then 0 else |OpResults(init[0])| + InitSize(init[1..])
  }

  function Lookup(mapper: map<Var, Var>, vs: seq<Var>): seq<Var> {
    seq(|vs|, i requires 0 <= i < |vs| => if vs[i] in mapper then mapper[vs[i]] else vs[i])
  }

  function InlineOps(inits: Inits, ops: seq<Op>, next: nat): Inlined {
    if ops == [] then Inlined([], next)
    else
      var first := InlineOp(inits, ops[0], next);
      var rest := InlineOps(inits, ops[1..], first.next);
      Inlined(first.ops + rest.ops, rest.next)
  }

  function InlineOp(inits: Inits, op: Op, next: nat): Inlined {
    match op
    case SlotGet(r, slot) =>
      if slot in inits then
        Inlined(CloneInit(inits[slot].init, inits[slot].value, r, next, map[]), next + InitSize(inits[slot].init))
      else Inlined([op], next)
    case If(rs, cond, thn, els) =>
      var thn' := InlineOps(inits, thn.ops, next);
      var els' := InlineOps(inits, els.ops, thn'.next);
      Inlined([If(rs, cond, Block(thn.args, thn'.ops, thn.outs), Block(els.args, els'.ops, els.outs))], els'.next)
    case Loop(rs, trip, cond, xs, body) =>
      var body' := InlineOps(inits, body.ops, next);
      Inlined([Loop(rs, trip, cond, xs, Block(body.args, body'.ops, body.outs))], body'.next)
    case _ => Inlined([op], next)
  }

  function InlineFunc(inits: Inits, f: Func, next: nat): Func {
    Func(f.params, InlineOps(inits, f.ops, next).ops, f.results)
  }

  /** The pass. Slots that were read and inlined are erased; `next` numbers new values. */
  method InlineGlobalSlots(m: SlotModule, next: nat) returns (r: SlotModule, ghost inits: Inits)
    ensures forall slot :: slot in inits <==> IsInlined(m, slot)
    ensures forall slot <- inits :: slot in m.slots && inits[slot] == m.slots[slot]
    ensures forall slot :: slot in r.slots <==> slot in m.slots && !(slot in inits && IsRead(m.funcs, slot))
    ensures forall slot <- r.slots :: r.slots[slot] == m.slots[slot]
    ensures r.funcs.Keys == m.funcs.Keys && forall f <- m.funcs :: r.funcs[f] == InlineFunc(inits, m.funcs[f], next)
  {
    var written := PotentiallyWrittenGlobalSlots(m);
    var inlined := map slot | slot in m.slots && m.slots[slot].isPrivate && slot !in written :: m.slots[slot];
    inits := inlined;
    var funcs, toErase: set<string> := map[], {};
    var names := m.funcs.Keys;
    while names != {}
      invariant names <= m.funcs.Keys && funcs.Keys == m.funcs.Keys - names
      invariant forall f <- funcs :: funcs[f] == InlineFunc(inlined, m.funcs[f], next)
      invariant forall slot :: slot in toErase <==>
                  slot in inlined && exists f <- m.funcs :: f !in names && SlotGetIn(Walk(m.funcs[f].ops), slot)
    {
      var f :| f in names;
      funcs := funcs[f := InlineFunc(inlined, m.funcs[f], next)];
      var found := SlotsReadIn(Walk(m.funcs[f].ops), inlined.Keys);
      toErase := toErase + found;
      names := names - {f};
    }
    r := SlotModule(map slot | slot in m.slots && slot !in toErase :: m.slots[slot], funcs);
  }

  method SlotsReadIn(walk: seq<Op>, known: set<string>) returns (read: set<string>)
    ensures forall slot :: slot in read <==> slot in known && SlotGetIn(walk, slot)
  {
    read := {};
    for n := 0 to |walk|
      invariant forall slot :: slot in read <==>
                  slot in known && exists j :: 0 <= j < n && walk[j].SlotGet? && walk[j].slot == slot
    {
      if walk[n].SlotGet? && walk[n].slot in known { read := read + {walk[n].slot}; }
    }
  }

  ghost predicate IsRead(funcs: map<Callee, Func>, slot: string) {
    exists f <- funcs :: SlotGetIn(Walk(funcs[f].ops), slot)
  }

  ghost predicate SlotGetIn(walk: seq<Op>, slot: string) {
    exists op <- walk :: op.SlotGet? && op.slot == slot
  }

  // ---- A clone of an initializer does what the initializer does ----

  /** Clones are `r` for the value, and numbered from `base` up to `next` otherwise. */
  ghost predicate ClonesNamed(mapper: map<Var, Var>, value: Var, r: Var, base: nat, next: nat) {
    forall v <- mapper :: if v == value then mapper[v] == r else base <= mapper[v].id < next
  }

  ghost predicate SameBut(base: nat, r: Var, env: Env, env': Env) {
    forall v: Var :: v.id < base && v != r ==> (v in env <==> v in env') && (v in env ==> env[v] == env'[v])
  }

  /** The clones made so far hold counterparts of what the initializer computed. */
  ghost predicate ClonesHold(k: Corr, mapper: map<Var, Var>, ienv: Env, env: Env) {
    forall v <- ienv :: v in mapper && CloneHolds(k, mapper[v], ienv[v], env)
  }

  ghost predicate CloneHolds(k: Corr, clone: Var, val: Val, env: Env) {
    !val.Obj? && clone in env && SameVal(k, val, env[clone])
  }

  /** The rest of the initializer and of its clone are about to run. */
  ghost predicate Cloning(k: Corr, init: seq<Op>, value: Var, r: Var, base: nat, next: nat, mapper: map<Var, Var>,
                          ienv: Env, env: Env, iw: World, w: World)
  {
    WellFormedInit(init, ienv.Keys) && mapper.Keys == ienv.Keys && r.id < base <= next &&
    ClonesHold(k, mapper, ienv, env) && ClonesNamed(mapper, value, r, base, next) && CellsRel(k, iw, w)
  }

  lemma LookupHolds(k: Corr, mapper: map<Var, Var>, ienv: Env, env: Env, xs: seq<Var>)
    requires ClonesHold(k, mapper, ienv, env) && forall x <- xs :: x in ienv
    ensures Operands(ienv, xs).Some? && Operands(env, Lookup(mapper, xs)).Some?
    ensures ListRel(k, Nothing(|xs|), Operands(ienv, xs).value, Operands(env, Lookup(mapper, xs)).value)
  {
    var ys := Lookup(mapper, xs);
    forall x <- xs ensures !ienv[x].Obj? { assert CloneHolds(k, mapper[x], ienv[x], env); }
    forall i | 0 <= i < |ys| ensures ys[i] in env && !env[ys[i]].Obj? && SameVal(k, ienv[xs[i]], env[ys[i]]) {
      assert xs[i] in xs && CloneHolds(k, mapper[xs[i]], ienv[xs[i]], env);
    }
  }

  /** What is known of the results so far. */
  ghost predicate Bound(k: Corr, mapper: map<Var, Var>, ienv: Env, env: Env, value: Var, r: Var, base: nat, next: nat) {
    mapper.Keys == ienv.Keys && r.id < base <= next && ClonesHold(k, mapper, ienv, env) &&
    ClonesNamed(mapper, value, r, base, next)
  }

  /** Values of both sides that are no instances. */
  ghost predicate SameVals(k: Corr, vals: seq<Val>, vals': seq<Val>) {
    |vals| == |vals'| && forall i | 0 <= i < |vals| :: !vals[i].Obj? && SameVal(k, vals[i], vals'[i])
  }

  lemma CloneBindOne(k: Corr, mapper: map<Var, Var>, ienv: Env, env: Env, value: Var, r: Var, base: nat, next: nat,
                     x: Var, val: Val, val': Val)
    requires Bound(k, mapper, ienv, env, value, r, base, next) && x !in ienv && !val.Obj? && SameVal(k, val, val')
    ensures var clone := CloneName(x, value, r, next);
            Bound(k, mapper[x := clone], ienv[x := val], env[clone := val'], value, r, base, next + 1) &&
            SameBut(base, r, env, env[clone := val'])
  {
    var clone, ienv' := CloneName(x, value, r, next), ienv[x := val];
    forall v <- ienv'
      ensures v in mapper[x := clone] && CloneHolds(k, mapper[x := clone][v], ienv'[v], env[clone := val'])
    {
      if v != x { assert v in mapper && CloneHolds(k, mapper[v], ienv[v], env); }
    }
  }

  /** The results have been bound on both sides. */
  ghost predicate BindDone(k: Corr, mapper: map<Var, Var>, ienv: Env, env: Env, value: Var, r: Var, base: nat,
                           next: nat, rs: seq<Var>, mapper': map<Var, Var>, ienv': Env, env': Env)
  {
    Bound(k, mapper', ienv', env', value, r, base, next + |rs|) && ienv'.Keys == ienv.Keys + SetOf(rs) &&
    SameBut(base, r, env, env')
  }

  /** The first result, and what is left to do for the others. */
  lemma CloneBindFirst(k: Corr, mapper: map<Var, Var>, ienv: Env, env: Env, value: Var, r: Var, base: nat, next: nat,
                       rs: seq<Var>, clones: seq<Var>, vals: seq<Val>, vals': seq<Val>)
    returns (mapper1: map<Var, Var>, ienv1: Env, env1: Env)
    requires Bound(k, mapper, ienv, env, value, r, base, next) && Distinct(rs) && forall x <- rs :: x !in ienv
    requires rs != [] && |rs| == |vals| && SameVals(k, vals, vals') && clones == CloneNames(rs, value, r, next)
    ensures Bound(k, mapper1, ienv1, env1, value, r, base, next + 1) && SameBut(base, r, env, env1)
    ensures SetOf(rs) == {rs[0]} + SetOf(rs[1..]) && ienv1.Keys == ienv.Keys + {rs[0]}
    ensures Distinct(rs[1..]) && (forall x <- rs[1..] :: x !in ienv1) && SameVals(k, vals[1..], vals'[1..])
    ensures clones[1..] == CloneNames(rs[1..], value, r, next + 1)
    ensures MapTo(mapper, rs, clones) == MapTo(mapper1, rs[1..], clones[1..])
    ensures Bind(ienv, rs, vals) == Bind(ienv1, rs[1..], vals[1..])
    ensures Bind(env, clones, vals') == Bind(env1, clones[1..], vals'[1..])
  {
    var clone := CloneName(rs[0], value, r, next);
    mapper1, ienv1, env1 := mapper[rs[0] := clone], ienv[rs[0] := vals[0]], env[clone := vals'[0]];
    TailSame(k, vals, vals');
    CloneBindOne(k, mapper, ienv, env, value, r, base, next, rs[0], vals[0], vals'[0]);
    TailDistinct(rs);
  }

  lemma {:induction false} CloneBind(k: Corr, mapper: map<Var, Var>, ienv: Env, env: Env, value: Var, r: Var, base: nat,
                                     next: nat, rs: seq<Var>, clones: seq<Var>, vals: seq<Val>, vals': seq<Val>)
    requires Bound(k, mapper, ienv, env, value, r, base, next) && Distinct(rs) && forall x <- rs :: x !in ienv
    requires |rs| == |vals| && SameVals(k, vals, vals') && clones == CloneNames(rs, value, r, next)
    ensures BindDone(k, mapper, ienv, env, value, r, base, next, rs,
                     MapTo(mapper, rs, clones), Bind(ienv, rs, vals), Bind(env, clones, vals'))
    decreases |rs|
  {
    if rs == [] {
      assert SetOf(rs) == {};
    } else {
      var mapper1, ienv1, env1 := CloneBindFirst(k, mapper, ienv, env, value, r, base, next, rs, clones, vals, vals');
      CloneBind(k, mapper1, ienv1, env1, value, r, base, next + 1, rs[1..], clones[1..], vals[1..], vals'[1..]);
      BindDoneNext(k, mapper, ienv, env, value, r, base, next, rs, mapper1, ienv1, env1,
                   MapTo(mapper, rs, clones), Bind(ienv, rs, vals), Bind(env, clones, vals'));
    }
  }

  lemma TailSame(k: Corr, vals: seq<Val>, vals': seq<Val>)
    requires SameVals(k, vals, vals') && vals != []
    ensures SameVals(k, vals[1..], vals'[1..]) && !vals[0].Obj? && SameVal(k, vals[0], vals'[0])
  {
  }

  lemma BindDoneNext(k: Corr, mapper: map<Var, Var>, ienv: Env, env: Env, value: Var, r: Var, base: nat, next: nat,
                     rs: seq<Var>, mapper1: map<Var, Var>, ienv1: Env, env1: Env, mapper': map<Var, Var>, ienv': Env,
                     env': Env)
    requires rs != [] && SetOf(rs) == {rs[0]} + SetOf(rs[1..]) && ienv1.Keys == ienv.Keys + {rs[0]} &&
             SameBut(base, r, env, env1)
    requires BindDone(k, mapper1, ienv1, env1, value, r, base, next + 1, rs[1..], mapper', ienv', env')
    ensures BindDone(k, mapper, ienv, env, value, r, base, next, rs, mapper', ienv', env')
  {
  }

  lemma TailDistinct(rs: seq<Var>)
    requires Distinct(rs) && rs != []
    ensures Distinct(rs[1..]) && SetOf(rs) == {rs[0]} + SetOf(rs[1..]) && forall x <- rs[1..] :: x in rs && x != rs[0]
  {
  }

  /** What running ops of an initializer and their clones comes to. */
  datatype Ran = Ran(k: Corr, mapper: map<Var, Var>, next: nat, ienv: Env, env: Env, iw: World, w: World)

  /** Everything the ops made is new, and nothing else has changed. */
  ghost predicate RanFrom(a: Ran, b: Ran, r: Var, base: nat) {
    AddsNew(a.k, b.k, |a.iw|, |a.w|) && OthersStay(a.k.live.Values, a.w, b.w) && |a.iw| <= |b.iw| &&
    SameBut(base, r, a.env, b.env)
  }

  ghost predicate CloningAt(a: Ran, init: seq<Op>, value: Var, r: Var, base: nat) {
    Cloning(a.k, init, value, r, base, a.next, a.mapper, a.ienv, a.env, a.iw, a.w)
  }

  lemma RanTransitive(a: Ran, b: Ran, c: Ran, r: Var, base: nat)
    requires RanFrom(a, b, r, base) && RanFrom(b, c, r, base)
    ensures RanFrom(a, c, r, base)
  {
  }

  lemma ClonesHoldGrow(k: Corr, k': Corr, mapper: map<Var, Var>, ienv: Env, env: Env)
    requires ClonesHold(k, mapper, ienv, env) && Grows(k, k')
    ensures ClonesHold(k', mapper, ienv, env)
  {
    forall v <- ienv ensures CloneHolds(k', mapper[v], ienv[v], env) { assert CloneHolds(k, mapper[v], ienv[v], env); }
  }

  /** One op and its clone. */
  lemma CloneOpRuns(p: Program, fuel: nat, init: seq<Op>, value: Var, r: Var, base: nat, a: Ran, s: State)
    returns (b: Ran)
    requires init != [] && CloningAt(a, init, value, r, base) && s.world == a.w
    ensures var first := CloneOp(init[0], value, r, a.next, a.mapper);
            ExecOp(Program(map[], p.prims), 0, init[0], a.ienv, State(map[], map[], a.iw)) ==
              Done(b.ienv, State(map[], map[], b.iw)) &&
            ExecOp(p, fuel, first.op, a.env, s) == Done(b.env, s.(world := b.w)) && b.next == first.next &&
            b.mapper == first.mapper
    ensures CloningAt(b, init[1..], value, r, base) && RanFrom(a, b, r, base)
    ensures b.ienv.Keys == a.ienv.Keys + SetOf(OpResults(init[0]))
  {
    if init[0].Pure? {
      b := ClonePure(p, fuel, init, value, r, base, a, s);
    } else {
      b := CloneEffect(p, fuel, init, value, r, base, a, s);
    }
  }

  lemma ClonePure(p: Program, fuel: nat, init: seq<Op>, value: Var, r: Var, base: nat, a: Ran, s: State)
    returns (b: Ran)
    requires init != [] && init[0].Pure? && CloningAt(a, init, value, r, base) && s.world == a.w
    ensures var first := CloneOp(init[0], value, r, a.next, a.mapper);
            ExecOp(Program(map[], p.prims), 0, init[0], a.ienv, State(map[], map[], a.iw)) ==
              Done(b.ienv, State(map[], map[], b.iw)) &&
            ExecOp(p, fuel, first.op, a.env, s) == Done(b.env, s.(world := b.w)) && b.next == first.next &&
            b.mapper == first.mapper
    ensures CloningAt(b, init[1..], value, r, base) && RanFrom(a, b, r, base)
    ensures b.ienv.Keys == a.ienv.Keys + SetOf(OpResults(init[0]))
  {
    var op, x, clone := init[0], init[0].result, CloneName(init[0].result, value, r, a.next);
    LookupHolds(a.k, a.mapper, a.ienv, a.env, op.operands);
    var vals, vals' := Operands(a.ienv, op.operands).value, Operands(a.env, Lookup(a.mapper, op.operands)).value;
    NumbersAgree(a.k, Nothing(|vals|), vals, vals');
    var val := Num(p.prims.pure(op.opcode, Numbers(vals)));
    assert x in OpResults(op);
    CloneBindOne(a.k, a.mapper, a.ienv, a.env, value, r, base, a.next, x, val, val);
    b := Ran(a.k, a.mapper[x := clone], a.next + 1, a.ienv[x := val], a.env[clone := val], a.iw, a.w);
    assert b.ienv.Keys == a.ienv.Keys + SetOf(OpResults(op));
  }

  lemma CloneEffect(p: Program, fuel: nat, init: seq<Op>, value: Var, r: Var, base: nat, a: Ran, s: State)
    returns (b: Ran)
    requires init != [] && init[0].Effect? && CloningAt(a, init, value, r, base) && s.world == a.w
    ensures var first := CloneOp(init[0], value, r, a.next, a.mapper);
            ExecOp(Program(map[], p.prims), 0, init[0], a.ienv, State(map[], map[], a.iw)) ==
              Done(b.ienv, State(map[], map[], b.iw)) &&
            ExecOp(p, fuel, first.op, a.env, s) == Done(b.env, s.(world := b.w)) && b.next == first.next &&
            b.mapper == first.mapper
    ensures CloningAt(b, init[1..], value, r, base) && RanFrom(a, b, r, base)
    ensures b.ienv.Keys == a.ienv.Keys + SetOf(OpResults(init[0]))
  {
    var op, rs := init[0], init[0].results;
    LookupHolds(a.k, a.mapper, a.ienv, a.env, op.operands);
    var vals, vals' := Operands(a.ienv, op.operands).value, Operands(a.env, Lookup(a.mapper, op.operands)).value;
    var e := RunEffect(p.prims, op.opcode, vals, |rs|, a.iw);
    var e' := RunEffect(p.prims, op.opcode, vals', |rs|, a.w);
    var k := CloneEffectRel(p.prims, op.opcode, vals, vals', |rs|, a.k, a.iw, a.w);
    ClonesHoldGrow(a.k, k, a.mapper, a.ienv, a.env);
    var clones := CloneNames(rs, value, r, a.next);
    CloneBind(k, a.mapper, a.ienv, a.env, value, r, base, a.next, rs, clones, e.vals, e'.vals);
    b := Ran(k, MapTo(a.mapper, rs, clones), a.next + |rs|, Bind(a.ienv, rs, e.vals), Bind(a.env, clones, e'.vals),
             e.world, e'.world);
  }

  lemma CloneEffectRel(prims: Prims, opcode: string, vals: seq<Val>, vals': seq<Val>, n: nat, k: Corr, iw: World,
                       w: World)
    returns (k': Corr)
    requires CellsRel(k, iw, w) && ListRel(k, Nothing(|vals|), vals, vals') && forall v <- vals :: !v.Obj?
    ensures var e, e' := RunEffect(prims, opcode, vals, n, iw), RunEffect(prims, opcode, vals', n, w);
            CellsRel(k', e.world, e'.world) && AddsNew(k, k', |iw|, |w|) && SameVals(k', e.vals, e'.vals) &&
            OthersStay(k.live.Keys, iw, e.world) && OthersStay(k.live.Values, w, e'.world)
  {
    NothingToSpare(prims, opcode, |vals|);
    k' := EffectRel(k, prims, opcode, Nothing(|vals|), false, vals, vals', n, iw, w);
  }

  lemma ExecFirst(p: Program, fuel: nat, op: Op, rest: seq<Op>, env: Env, s: State, env': Env, s': State)
    requires ExecOp(p, fuel, op, env, s) == Done(env', s')
    ensures Exec(p, fuel, [op] + rest, env, s) == Exec(p, fuel, rest, env', s')
  {
    assert ([op] + rest)[1..] == rest;
  }

  function InitDefs(init: seq<Op>): set<Var> {
    if init == [] then {} else SetOf(OpResults(init[0])) + InitDefs(init[1..])
  }

  lemma {:induction false} InitDefsHas(init: seq<Op>, op: Op, x: Var)
    requires op in init && x in OpResults(op)
    ensures x in InitDefs(init)
  {
    if op != init[0] { InitDefsHas(init[1..], op, x); }
  }

  /** The initializer has run to `b` from `a`, and its clone has, too. */
  ghost predicate BothRan(p: Program, fuel: nat, init: seq<Op>, clones: seq<Op>, a: Ran, b: Ran, s: State) {
    Exec(Program(map[], p.prims), 0, init, a.ienv, State(map[], map[], a.iw)) ==
      Done(b.ienv, State(map[], map[], b.iw)) &&
    Exec(p, fuel, clones, a.env, s) == Done(b.env, s.(world := b.w))
  }

  lemma BothRanCons(p: Program, fuel: nat, op: Op, init: seq<Op>, clone: Op, clones: seq<Op>, a: Ran, m: Ran, b: Ran,
                    s: State)
    requires ExecOp(Program(map[], p.prims), 0, op, a.ienv, State(map[], map[], a.iw)) ==
             Done(m.ienv, State(map[], map[], m.iw))
    requires ExecOp(p, fuel, clone, a.env, s) == Done(m.env, s.(world := m.w))
    requires BothRan(p, fuel, init, clones, m, b, s.(world := m.w))
    ensures BothRan(p, fuel, [op] + init, [clone] + clones, a, b, s)
  {
    ExecFirst(Program(map[], p.prims), 0, op, init, a.ienv, State(map[], map[], a.iw), m.ienv,
              State(map[], map[], m.iw));
    ExecFirst(p, fuel, clone, clones, a.env, s, m.env, s.(world := m.w));
  }

  lemma NothingRan(p: Program, fuel: nat, a: Ran, s: State, r: Var, base: nat)
    requires s.world == a.w
    ensures BothRan(p, fuel, [], [], a, a, s) && RanFrom(a, a, r, base)
  {
  }

  /** The initializer and its clone run to the end, with corresponding results. */
  lemma {:induction false} CloneComputesInit(p: Program, fuel: nat, init: seq<Op>, value: Var, r: Var, base: nat,
                                             a: Ran, s: State)
    returns (b: Ran)
    requires CloningAt(a, init, value, r, base) && s.world == a.w
    ensures BothRan(p, fuel, init, CloneInit(init, value, r, a.next, a.mapper), a, b, s)
    ensures CloningAt(b, [], value, r, base) && RanFrom(a, b, r, base) && b.ienv.Keys == a.ienv.Keys + InitDefs(init)
    decreases |init|
  {
    if init == [] {
      b := a;
      NothingRan(p, fuel, a, s, r, base);
    } else {
      var first := CloneOp(init[0], value, r, a.next, a.mapper);
      var m := CloneOpRuns(p, fuel, init, value, r, base, a, s);
      b := CloneComputesInit(p, fuel, init[1..], value, r, base, m, s.(world := m.w));
      RanTransitive(a, m, b, r, base);
      BothRanCons(p, fuel, init[0], init[1..], first.op, CloneInit(init[1..], value, r, m.next, m.mapper), a, m, b, s);
      assert [init[0]] + init[1..] == init;
    }
  }

  // ---- Which tensors may be shared, and what may not happen to them ----

  // The operand positions an op may overwrite, compare with others, or return as a result.
  datatype Traits = Traits(overwrites: iset<nat>, compares: iset<nat>, passesOn: iset<nat>)

  type Signature = string -> Traits

  /** The same, except that the op may see other first uses at positions it does not compare. */
  ghost predicate SameUpTo(compares: iset<nat>, args: seq<Arg>, args': seq<Arg>) {
    |args| == |args'| && forall i | 0 <= i < |args| :: SeesSameAt(i !in compares, args[i], args'[i])
  }

  ghost predicate HasTraits(t: Traits, prims: Prims, opcode: string) {
    (forall args, i: nat | i !in t.overwrites :: prims.write(opcode, args, i).None?) &&
    (forall args, i: nat, j: nat | prims.effect(opcode, args, i) == Operand(j) :: j in t.passesOn) &&
    forall args, args', i: nat | SameUpTo(t.compares, args, args') ::
      prims.effect(opcode, args, i) == prims.effect(opcode, args', i) &&
      prims.write(opcode, args, i) == prims.write(opcode, args', i)
  }

  ghost predicate Describes(sig: Signature, prims: Prims) {
    forall opcode :: HasTraits(sig(opcode), prims, opcode)
  }

  // Variables and slots that may hold a tensor of an inlined slot.
  datatype Sharing = Sharing(vars: iset<Var>, slots: iset<string>)

  const NOTHING_SHARED: Sharing := Sharing(iset{}, iset{})

  /** What may be shared stays so when it moves from `xs` to `ys`. */
  predicate Flows(sh: Sharing, xs: seq<Var>, ys: seq<Var>) {
    forall i | 0 <= i < |xs| && i < |ys| :: xs[i] in sh.vars ==> ys[i] in sh.vars
  }

  /**
   `sh` accounts for what the op does: it covers where shared tensors go, and no shared tensor is
   overwritten in place, compared by identity, or stored in an attribute.
   */
  predicate SparesShared(inits: Inits, sh: Sharing, sig: Signature, funcs: map<Callee, Func>, op: Op) {
    match op
    case GetAttr(_, _, _) => true
    case SetAttr(_, _, v) => v !in sh.vars
    case SlotGet(r, slot) => (slot in sh.slots || (slot in inits && CreatesObject(inits[slot]))) ==> r in sh.vars
    case SlotSet(slot, v) => v in sh.vars ==> slot in sh.slots
    case Pure(_, _, _) => true
    case Effect(rs, opcode, xs) => forall i | 0 <= i < |xs| && xs[i] in sh.vars :: SparesOperand(sh, sig(opcode), rs, i)
    case Call(rs, callee, xs) =>
      callee in funcs ==> Flows(sh, xs, funcs[callee].params) && Flows(sh, funcs[callee].results, rs)
    case If(rs, _, thn, els) => Flows(sh, thn.outs, rs) && Flows(sh, els.outs, rs)
    case Loop(rs, _, _, xs, body) => FlowsRound(sh, xs, rs, body)
  }

  predicate SparesOperand(sh: Sharing, t: Traits, rs: seq<Var>, i: nat) {
    i !in t.overwrites && i !in t.compares && (i in t.passesOn ==> forall r <- rs :: r in sh.vars)
  }

  /** From the initial values of a loop, and from what its body yields, to its arguments and results. */
  predicate FlowsRound(sh: Sharing, xs: seq<Var>, rs: seq<Var>, body: Block) {
    Flows(sh, xs, rs) && (body.args != [] ==> Flows(sh, xs, body.args[1..])) &&
    (body.outs != [] ==> Flows(sh, body.outs[1..], rs)) &&
    (body.args != [] && body.outs != [] ==> Flows(sh, body.outs[1..], body.args[1..]))
  }

  function Flags(sh: Sharing, vs: seq<Var>): seq<bool> {
    seq(|vs|, i requires 0 <= i < |vs| => vs[i] in sh.vars)
  }

  /** Whether an op may return a shared tensor. */
  ghost predicate MayReturnShared(sh: Sharing, t: Traits, xs: seq<Var>) {
    exists i | 0 <= i < |xs| :: xs[i] in sh.vars && i in t.passesOn
  }

  lemma TraitsSpare(sh: Sharing, sig: Signature, prims: Prims, opcode: string, rs: seq<Var>, xs: seq<Var>)
    requires HasTraits(sig(opcode), prims, opcode)
    requires forall i | 0 <= i < |xs| && xs[i] in sh.vars :: SparesOperand(sh, sig(opcode), rs, i)
    ensures Spares(prims, opcode, Flags(sh, xs))
    ensures MayReturnShared(sh, sig(opcode), xs) || KeepsToItself(prims, opcode, Flags(sh, xs))
    ensures MayReturnShared(sh, sig(opcode), xs) ==> forall r <- rs :: r in sh.vars
  {
    var flags, t := Flags(sh, xs), sig(opcode);
    forall args, i: nat | i < |flags| && flags[i] ensures prims.write(opcode, args, i).None? {
      assert SparesOperand(sh, t, rs, i);
    }
    forall args, args', i: nat | SeesSame(flags, args, args')
      ensures prims.effect(opcode, args, i) == prims.effect(opcode, args', i) &&
              prims.write(opcode, args, i) == prims.write(opcode, args', i)
    {
      forall j | 0 <= j < |args| ensures SeesSameAt(j !in t.compares, args[j], args'[j]) {
        assert SeesSameAt(flags[j], args[j], args'[j]);
        if flags[j] { assert SparesOperand(sh, t, rs, j); }
      }
      assert SameUpTo(t.compares, args, args');
    }
    if i :| 0 <= i < |xs| && xs[i] in sh.vars && i in t.passesOn {
      assert SparesOperand(sh, t, rs, i);
    }
  }

  // ---- What relates the two programs ----

  // `before` reads slots; `after` is the inlined program. Values numbered from `base` on are new.
  datatype Setup = Setup(inits: Inits, base: nat, sharing: Sharing, sig: Signature, before: Program, after: Program)

  predicate Below(base: nat, vs: seq<Var>) {
    forall v <- vs :: v.id < base
  }

  predicate OpsBelow(base: nat, ops: seq<Op>) {
    forall op <- ops :: OpBelow(base, op)
  }

  predicate OpBelow(base: nat, op: Op) {
    match op
    case GetAttr(r, x, _) => r.id < base && x.id < base
    case SetAttr(x, _, v) => x.id < base && v.id < base
    case SlotGet(r, _) => r.id < base
    case SlotSet(_, v) => v.id < base
    case Call(rs, _, xs) => Below(base, rs) && Below(base, xs)
    case Pure(r, _, xs) => r.id < base && Below(base, xs)
    case Effect(rs, _, xs) => Below(base, rs) && Below(base, xs)
    case If(rs, cond, thn, els) => Below(base, rs) && cond.id < base && BlockBelow(base, thn) && BlockBelow(base, els)
    case Loop(rs, trip, cond, xs, body) =>
      Below(base, rs) && trip.id < base && cond.id < base && Below(base, xs) && BlockBelow(base, body)
  }

  predicate BlockBelow(base: nat, b: Block) {
    Below(base, b.args) && OpsBelow(base, b.ops) && Below(base, b.outs)
  }

  predicate FuncBelow(base: nat, f: Func) {
    Below(base, f.params) && OpsBelow(base, f.ops) && Below(base, f.results)
  }

  ghost predicate NeverWritten(inits: Inits, walk: seq<Op>) {
    forall op <- walk :: op.SlotSet? ==> op.slot !in inits
  }

  ghost predicate InlinedFunc(c: Setup, name: Callee) {
    name in c.before.funcs && name in c.after.funcs && FuncBelow(c.base, c.before.funcs[name]) &&
    NeverWritten(c.inits, Walk(c.before.funcs[name].ops)) &&
    c.after.funcs[name] == InlineFunc(c.inits, c.before.funcs[name], c.base)
  }

  /** What the pass produces. */
  ghost predicate IsInlining(c: Setup) {
    c.before.prims == c.after.prims && c.before.funcs.Keys == c.after.funcs.Keys &&
    (forall slot <- c.inits :: WellFormedSlot(c.inits[slot])) && forall f <- c.before.funcs :: InlinedFunc(c, f)
  }

  predicate WalkSpares(c: Setup, walk: seq<Op>) {
    forall op <- walk :: SparesShared(c.inits, c.sharing, c.sig, c.before.funcs, op)
  }

  /** No op of the program overwrites or compares a tensor of an inlined slot. */
  ghost predicate LeavesSharedAlone(c: Setup) {
    Describes(c.sig, c.before.prims) && forall f <- c.before.funcs :: WalkSpares(c, Walk(c.before.funcs[f].ops))
  }

  ghost predicate HeapRel(k: Corr, heap: map<(nat, string), Val>, heap': map<(nat, string), Val>) {
    heap.Keys == heap'.Keys && forall x <- heap :: SameVal(k, heap[x], heap'[x])
  }

  ghost predicate GlobalsRel(c: Setup, k: Corr, g: map<string, Val>, g': map<string, Val>) {
    forall slot | slot !in c.inits ::
      (slot in g <==> slot in g') && (slot in g ==> ValRel(k, slot in c.sharing.slots, g[slot], g'[slot]))
  }

  /** An inlined slot holds its initial value, in a tensor no op of the program touches. */
  ghost predicate IsInitial(prims: Prims, d: SlotDef, live: set<nat>, val: Val, world: World) {
    WellFormedSlot(d) && Show(world, val) == InitSeen(prims, d) && !val.Obj? &&
    (val.Tensor? ==> val.address < |world| && val.address !in live)
  }

  ghost predicate Initial(c: Setup, live: set<nat>, globals: map<string, Val>, world: World) {
    forall slot <- c.inits :: slot in globals && IsInitial(c.before.prims, c.inits[slot], live, globals[slot], world)
  }

  /** Everything corresponds off the inlined slots, each of which still holds its initial value. */
  ghost predicate StoreRel(c: Setup, k: Corr, s: State, t: State) {
    CellsRel(k, s.world, t.world) && HeapRel(k, s.heap, t.heap) && GlobalsRel(c, k, s.globals, t.globals) &&
    Initial(c, k.live.Keys, s.globals, s.world)
  }

  /** The environments correspond on the values of the original program. */
  ghost predicate EnvRel(c: Setup, k: Corr, env: Env, env': Env) {
    forall v: Var | v.id < c.base ::
      (v in env <==> v in env') && (v in env ==> ValRel(k, v in c.sharing.vars, env[v], env'[v]))
  }

  ghost predicate EnvOutcomes(c: Setup, k: Corr, o: Outcome<Env>, o': Outcome<Env>) {
    match (o, o')
    case (Done(env, s), Done(env', t)) => EnvRel(c, k, env, env') && StoreRel(c, k, s, t)
    case (OutOfFuel, OutOfFuel) => true
    case (Stuck, Stuck) => true
    case _ => false
  }

  /** Values that `ws` may be bound to. */
  ghost predicate FitRel(c: Setup, k: Corr, ws: seq<Var>, vals: seq<Val>, vals': seq<Val>) {
    |vals| == |vals'| && (|ws| == |vals| ==> ListRel(k, Flags(c.sharing, ws), vals, vals'))
  }

  ghost predicate SameOutcome(c: Setup, k: Corr, ws: seq<Var>, o: Outcome<seq<Val>>, o': Outcome<seq<Val>>) {
    match (o, o')
    case (Done(vals, s), Done(vals', t)) => FitRel(c, k, ws, vals, vals') && StoreRel(c, k, s, t)
    case (OutOfFuel, OutOfFuel) => true
    case (Stuck, Stuck) => true
    case _ => false
  }

  // ---- The correspondence grows ----

  lemma EnvGrows(c: Setup, k: Corr, k': Corr, env: Env, env': Env)
    requires EnvRel(c, k, env, env') && Grows(k, k')
    ensures EnvRel(c, k', env, env')
  {
    forall v: Var | v.id < c.base && v in env ensures ValRel(k', v in c.sharing.vars, env[v], env'[v]) {
      ValRelGrows(k, k', v in c.sharing.vars, env[v], env'[v]);
    }
  }

  lemma HeapGrows(k: Corr, k': Corr, heap: map<(nat, string), Val>, heap': map<(nat, string), Val>)
    requires HeapRel(k, heap, heap') && Grows(k, k')
    ensures HeapRel(k', heap, heap')
  {
  }

  lemma GlobalsGrow(c: Setup, k: Corr, k': Corr, g: map<string, Val>, g': map<string, Val>)
    requires GlobalsRel(c, k, g, g') && Grows(k, k')
    ensures GlobalsRel(c, k', g, g')
  {
    forall slot | slot !in c.inits && slot in g ensures ValRel(k', slot in c.sharing.slots, g[slot], g'[slot]) {
      ValRelGrows(k, k', slot in c.sharing.slots, g[slot], g'[slot]);
    }
  }

  /** Live tensors are overwritten and new ones made: the inlined slots notice neither. */
  lemma InitialStays(c: Setup, live: set<nat>, live': set<nat>, globals: map<string, Val>, w: World, w': World)
    requires Initial(c, live, globals, w) && OthersStay(live, w, w') && forall a <- live' :: a in live || |w| <= a
    ensures Initial(c, live', globals, w')
  {
    forall slot <- c.inits ensures IsInitial(c.before.prims, c.inits[slot], live', globals[slot], w') {
      assert IsInitial(c.before.prims, c.inits[slot], live, globals[slot], w);
    }
  }

  /** The stores after an op that touches live tensors only. */
  lemma StoreAfterEffect(c: Setup, k: Corr, k': Corr, s: State, t: State, w: World, w': World)
    requires StoreRel(c, k, s, t) && CellsRel(k', w, w') && AddsNew(k, k', |s.world|, |t.world|)
    requires OthersStay(k.live.Keys, s.world, w)
    ensures StoreRel(c, k', s.(world := w), t.(world := w'))
  {
    HeapGrows(k, k', s.heap, t.heap);
    GlobalsGrow(c, k, k', s.globals, t.globals);
    InitialStays(c, k.live.Keys, k'.live.Keys, s.globals, s.world, w);
  }

  // ---- Reading and binding ----

  lemma VarsAgree(c: Setup, k: Corr, xs: seq<Var>, env: Env, env': Env)
    requires EnvRel(c, k, env, env') && Below(c.base, xs)
    ensures forall x <- xs ::
              (x in env <==> x in env') && (x in env ==> ValRel(k, x in c.sharing.vars, env[x], env'[x]))
  {
    forall x <- xs ensures (x in env <==> x in env') && (x in env ==> ValRel(k, x in c.sharing.vars, env[x], env'[x])) {
      assert x.id < c.base;
    }
  }

  /** Operands are read on both sides or on neither, and correspond. */
  lemma ReadsAgree(c: Setup, k: Corr, xs: seq<Var>, env: Env, env': Env)
    requires EnvRel(c, k, env, env') && Below(c.base, xs)
    ensures Vals(env, xs).Some? <==> Vals(env', xs).Some?
    ensures Vals(env, xs).Some? ==> ListRel(k, Flags(c.sharing, xs), Vals(env, xs).value, Vals(env', xs).value)
    ensures Operands(env, xs).Some? <==> Operands(env', xs).Some?
    ensures Operands(env, xs).Some? ==>
              ListRel(k, Flags(c.sharing, xs), Operands(env, xs).value, Operands(env', xs).value)
  {
    VarsAgree(c, k, xs, env, env');
    assert forall i | 0 <= i < |xs| :: xs[i] in xs;
  }

  lemma NumbersRel(k: Corr, mayShare: bool, v: Val, v': Val)
    requires ValRel(k, mayShare, v, v')
    ensures Number(v) == Number(v') && (v.Obj? <==> v'.Obj?)
  {
  }

  lemma FlowFits(c: Setup, k: Corr, xs: seq<Var>, ys: seq<Var>, vals: seq<Val>, vals': seq<Val>)
    requires ListRel(k, Flags(c.sharing, xs), vals, vals') && Flows(c.sharing, xs, ys)
    ensures FitRel(c, k, ys, vals, vals')
  {
  }

  lemma {:induction false} BindFits(c: Setup, k: Corr, rs: seq<Var>, vals: seq<Val>, vals': seq<Val>, env: Env,
                                    env': Env)
    requires EnvRel(c, k, env, env') && |rs| == |vals| && ListRel(k, Flags(c.sharing, rs), vals, vals')
    ensures EnvRel(c, k, Bind(env, rs, vals), Bind(env', rs, vals'))
    decreases |rs|
  {
    if rs != [] {
      assert Flags(c.sharing, rs)[1..] == Flags(c.sharing, rs[1..]);
      assert ValRel(k, Flags(c.sharing, rs)[0], vals[0], vals'[0]);
      BindFits(c, k, rs[1..], vals[1..], vals'[1..], env[rs[0] := vals[0]], env'[rs[0] := vals'[0]]);
    }
  }

  lemma BindOutcomes(c: Setup, k: Corr, k': Corr, rs: seq<Var>, env: Env, env': Env, o: Outcome<seq<Val>>,
                     o': Outcome<seq<Val>>)
    requires SameOutcome(c, k', rs, o, o') && EnvRel(c, k, env, env') && Grows(k, k')
    ensures EnvOutcomes(c, k', BindOutcome(env, rs, o), BindOutcome(env', rs, o'))
  {
    EnvGrows(c, k, k', env, env');
    if o.Done? && |rs| == |o.value| { BindFits(c, k', rs, o.value, o'.value, env, env'); }
  }

  lemma YieldOutcomes(c: Setup, k: Corr, vs: seq<Var>, ws: seq<Var>, o: Outcome<Env>, o': Outcome<Env>)
    requires EnvOutcomes(c, k, o, o') && Below(c.base, vs) && Flows(c.sharing, vs, ws)
    ensures SameOutcome(c, k, ws, Yield(vs, o), Yield(vs, o'))
  {
    if o.Done? {
      ReadsAgree(c, k, vs, o.value, o'.value);
      if Vals(o.value, vs).Some? { FlowFits(c, k, vs, ws, Vals(o.value, vs).value, Vals(o'.value, vs).value); }
    }
  }

  // ---- Simulation ----

  ghost predicate Ready(c: Setup, k: Corr, walk: seq<Op>, next: nat, env: Env, env': Env, s: State, t: State) {
    IsInlining(c) && LeavesSharedAlone(c) && NeverWritten(c.inits, walk) && WalkSpares(c, walk) && c.base <= next &&
    EnvRel(c, k, env, env') && StoreRel(c, k, s, t)
  }

  lemma ReadyPart(c: Setup, k: Corr, walk: seq<Op>, part: seq<Op>, next: nat, next': nat, env: Env, env': Env, s: State,
                  t: State)
    requires Ready(c, k, walk, next, env, env', s, t) && (forall op <- part :: op in walk) && next <= next'
    ensures Ready(c, k, part, next', env, env', s, t)
  {
  }

  lemma {:induction false} InlineUsesFresh(inits: Inits, ops: seq<Op>, next: nat)
    ensures next <= InlineOps(inits, ops, next).next
    decreases ops, 0
  {
    if ops != [] {
      InlineOpUsesFresh(inits, ops[0], next);
      InlineUsesFresh(inits, ops[1..], InlineOp(inits, ops[0], next).next);
    }
  }

  lemma {:induction false} InlineOpUsesFresh(inits: Inits, op: Op, next: nat)
    ensures next <= InlineOp(inits, op, next).next
    decreases op
  {
    match op
    case If(rs, cond, thn, els) =>
      InlineUsesFresh(inits, thn.ops, next);
      InlineUsesFresh(inits, els.ops, InlineOps(inits, thn.ops, next).next);
    case Loop(rs, trip, cond, xs, body) =>
      InlineUsesFresh(inits, body.ops, next);
    case _ =>
  }

  lemma {:induction false} SimulateOps(c: Setup, k: Corr, fuel: nat, ops: seq<Op>, next: nat, env: Env, env': Env,
                                       s: State, t: State)
    returns (k': Corr)
    requires Ready(c, k, Walk(ops), next, env, env', s, t) && OpsBelow(c.base, ops)
    ensures Grows(k, k')
    ensures EnvOutcomes(c, k', Exec(c.before, fuel, ops, env, s),
                        Exec(c.after, fuel, InlineOps(c.inits, ops, next).ops, env', t))
    decreases fuel, ops, 0
  {
    k' := k;
    if ops != [] {
      var op, rest := ops[0], ops[1..];
      var first := InlineOp(c.inits, op, next);
      ReadyPart(c, k, Walk(ops), WalkOp(op), next, next, env, env', s, t);
      k' := SimulateOp(c, k, fuel, op, next, env, env', s, t);
      var o := ExecOp(c.before, fuel, op, env, s);
      var o' := Exec(c.after, fuel, first.ops, env', t);
      if o.Done? {
        var k1 := k';
        InlineOpUsesFresh(c.inits, op, next);
        ReadyPart(c, k, Walk(ops), Walk(rest), next, first.next, env, env', s, t);
        k' := SimulateOps(c, k1, fuel, rest, first.next, o.value, o'.value, o.state, o'.state);
        GrowsTransitive(k, k1, k');
      }
      ExecAppend(c.after, fuel, first.ops, InlineOps(c.inits, rest, first.next).ops, env', t);
    }
  }

  lemma {:induction false} SimulateOp(c: Setup, k: Corr, fuel: nat, op: Op, next: nat, env: Env, env': Env, s: State,
                                      t: State)
    returns (k': Corr)
    requires Ready(c, k, WalkOp(op), next, env, env', s, t) && OpBelow(c.base, op)
    ensures Grows(k, k')
    ensures EnvOutcomes(c, k', ExecOp(c.before, fuel, op, env, s),
                        Exec(c.after, fuel, InlineOp(c.inits, op, next).ops, env', t))
    decreases fuel, op
  {
    match op
    case SlotGet(_, _) => k' := SimulateSlotGet(c, k, fuel, op, next, env, env', s, t);
    case Effect(_, _, _) => k' := SimulateEffect(c, k, fuel, op, next, env, env', s, t);
    case Call(_, _, _) => k' := SimulateCall(c, k, fuel, op, next, env, env', s, t);
    case If(_, _, _, _) => k' := SimulateIf(c, k, fuel, op, next, env, env', s, t);
    case Loop(_, _, _, _, _) => k' := SimulateLoopOp(c, k, fuel, op, next, env, env', s, t);
    case _ =>
      k' := k;
      SimulateLeaf(c, k, fuel, op, next, env, env', s, t);
  }

  lemma SimulateLeaf(c: Setup, k: Corr, fuel: nat, op: Op, next: nat, env: Env, env': Env, s: State, t: State)
    requires Ready(c, k, [op], next, env, env', s, t) && OpBelow(c.base, op)
    requires op.GetAttr? || op.SetAttr? || op.SlotSet? || op.Pure?
    ensures EnvOutcomes(c, k, ExecOp(c.before, fuel, op, env, s),
                        Exec(c.after, fuel, InlineOp(c.inits, op, next).ops, env', t))
  {
    assert op in [op];
    ExecSingle(c.after, fuel, op, env', t);
    match op
    case GetAttr(_, _, _) => SimulateGetAttr(c, k, fuel, op, env, env', s, t);
    case SetAttr(_, _, _) => SimulateSetAttr(c, k, fuel, op, env, env', s, t);
    case SlotSet(_, _) => SimulateSlotSet(c, k, fuel, op, env, env', s, t);
    case Pure(_, _, xs) =>
      ReadsAgree(c, k, xs, env, env');
      if Operands(env, xs).Some? {
        NumbersAgree(k, Flags(c.sharing, xs), Operands(env, xs).value, Operands(env', xs).value);
      }
  }

  lemma SimulateGetAttr(c: Setup, k: Corr, fuel: nat, op: Op, env: Env, env': Env, s: State, t: State)
    requires EnvRel(c, k, env, env') && StoreRel(c, k, s, t) && op.GetAttr? && OpBelow(c.base, op)
    ensures EnvOutcomes(c, k, ExecOp(c.before, fuel, op, env, s), ExecOp(c.after, fuel, op, env', t))
  {
    VarsAgree(c, k, [op.receiver], env, env');
    assert op.receiver in [op.receiver];
  }

  lemma SimulateSetAttr(c: Setup, k: Corr, fuel: nat, op: Op, env: Env, env': Env, s: State, t: State)
    requires EnvRel(c, k, env, env') && StoreRel(c, k, s, t) && op.SetAttr? && OpBelow(c.base, op) &&
             op.value !in c.sharing.vars
    ensures EnvOutcomes(c, k, ExecOp(c.before, fuel, op, env, s), ExecOp(c.after, fuel, op, env', t))
  {
    var xs := [op.receiver, op.value];
    VarsAgree(c, k, xs, env, env');
    assert op.receiver in xs && op.value in xs;
  }

  lemma SimulateSlotSet(c: Setup, k: Corr, fuel: nat, op: Op, env: Env, env': Env, s: State, t: State)
    requires EnvRel(c, k, env, env') && StoreRel(c, k, s, t) && op.SlotSet? && OpBelow(c.base, op)
    requires op.slot !in c.inits && (op.value in c.sharing.vars ==> op.slot in c.sharing.slots)
    ensures EnvOutcomes(c, k, ExecOp(c.before, fuel, op, env, s), ExecOp(c.after, fuel, op, env', t))
  {
    VarsAgree(c, k, [op.value], env, env');
    assert op.value in [op.value];
    if op.value in env { WritesAgree(c, k, s, t, op.slot, env[op.value], env'[op.value]); }
  }

  lemma WritesAgree(c: Setup, k: Corr, s: State, t: State, slot: string, val: Val, val': Val)
    requires StoreRel(c, k, s, t) && slot !in c.inits && ValRel(k, slot in c.sharing.slots, val, val')
    ensures StoreRel(c, k, s.(globals := s.globals[slot := val]), t.(globals := t.globals[slot := val']))
  {
    StaysInitial(c, k.live.Keys, s.globals, s.world, slot, val);
  }

  lemma StaysInitial(c: Setup, live: set<nat>, globals: map<string, Val>, world: World, slot: string, val: Val)
    requires Initial(c, live, globals, world) && slot !in c.inits
    ensures Initial(c, live, globals[slot := val], world)
  {
    forall other <- c.inits
      ensures IsInitial(c.before.prims, c.inits[other], live, globals[slot := val][other], world)
    {
      assert other in globals && other != slot;
    }
  }

  lemma SimulateEffect(c: Setup, k: Corr, fuel: nat, op: Op, next: nat, env: Env, env': Env, s: State, t: State)
    returns (k': Corr)
    requires Ready(c, k, [op], next, env, env', s, t) && OpBelow(c.base, op) && op.Effect?
    ensures Grows(k, k')
    ensures EnvOutcomes(c, k', ExecOp(c.before, fuel, op, env, s),
                        Exec(c.after, fuel, InlineOp(c.inits, op, next).ops, env', t))
  {
    k' := k;
    assert op in [op] && SparesShared(c.inits, c.sharing, c.sig, c.before.funcs, op);
    ExecSingle(c.after, fuel, op, env', t);
    ReadsAgree(c, k, op.operands, env, env');
    if Operands(env, op.operands).Some? {
      assert HasTraits(c.sig(op.opcode), c.before.prims, op.opcode);
      k' := EffectOutcome(c, k, op, env, env', s, t, Operands(env, op.operands).value,
                          Operands(env', op.operands).value);
    }
  }

  lemma EffectOutcome(c: Setup, k: Corr, op: Op, env: Env, env': Env, s: State, t: State, vals: seq<Val>,
                      vals': seq<Val>)
    returns (k': Corr)
    requires op.Effect? && EnvRel(c, k, env, env') && StoreRel(c, k, s, t) &&
             HasTraits(c.sig(op.opcode), c.before.prims, op.opcode)
    requires SparesShared(c.inits, c.sharing, c.sig, c.before.funcs, op) &&
             ListRel(k, Flags(c.sharing, op.operands), vals, vals')
    ensures Grows(k, k')
    ensures var r := RunEffect(c.before.prims, op.opcode, vals, |op.results|, s.world);
            var r' := RunEffect(c.before.prims, op.opcode, vals', |op.results|, t.world);
            EnvOutcomes(c, k', Binding(env, op.results, r.vals, s.(world := r.world)),
                        Binding(env', op.results, r'.vals, t.(world := r'.world)))
  {
    var flags, share := Flags(c.sharing, op.operands), MayReturnShared(c.sharing, c.sig(op.opcode), op.operands);
    TraitsSpare(c.sharing, c.sig, c.before.prims, op.opcode, op.results, op.operands);
    k' := EffectRel(k, c.before.prims, op.opcode, flags, share, vals, vals', |op.results|, s.world, t.world);
    var r := RunEffect(c.before.prims, op.opcode, vals, |op.results|, s.world);
    var r' := RunEffect(c.before.prims, op.opcode, vals', |op.results|, t.world);
    StoreAfterEffect(c, k, k', s, t, r.world, r'.world);
    EnvGrows(c, k, k', env, env');
    ResultsFit(c, k', share, op.results, r.vals, r'.vals);
    BindFits(c, k', op.results, r.vals, r'.vals, env, env');
  }

  lemma ResultsFit(c: Setup, k: Corr, share: bool, rs: seq<Var>, vals: seq<Val>, vals': seq<Val>)
    requires |rs| == |vals| == |vals'| && (share ==> forall r <- rs :: r in c.sharing.vars)
    requires forall j | 0 <= j < |vals| :: ValRel(k, share, vals[j], vals'[j])
    ensures ListRel(k, Flags(c.sharing, rs), vals, vals')
  {
    forall j | 0 <= j < |vals| ensures ValRel(k, rs[j] in c.sharing.vars, vals[j], vals'[j]) {
      assert rs[j] in rs && ValRel(k, share, vals[j], vals'[j]);
    }
  }

  // ---- A read becomes a clone ----

  lemma SimulateSlotGet(c: Setup, k: Corr, fuel: nat, op: Op, next: nat, env: Env, env': Env, s: State, t: State)
    returns (k': Corr)
    requires Ready(c, k, [op], next, env, env', s, t) && OpBelow(c.base, op) && op.SlotGet?
    ensures Grows(k, k')
    ensures EnvOutcomes(c, k', ExecOp(c.before, fuel, op, env, s),
                        Exec(c.after, fuel, InlineOp(c.inits, op, next).ops, env', t))
  {
    k' := k;
    assert op in [op] && SparesShared(c.inits, c.sharing, c.sig, c.before.funcs, op);
    if op.slot in c.inits {
      var d := c.inits[op.slot];
      var env2, w2 := CloneYields(c.after, fuel, d, op.result, c.base, next, env', t);
      k' := CloneOutcome(c, k, op, env, env', s, t, env2, w2);
    } else {
      ExecSingle(c.after, fuel, op, env', t);
    }
  }

  /** What is known after a clone has run: the read's result shows the initial value, in a new tensor if it is one. */
  ghost predicate CloneShown(prims: Prims, d: SlotDef, r: Var, base: nat, env: Env, w: World, env2: Env, w2: World) {
    SameBut(base, r, env, env2) && w <= w2 && r in env2 && !env2[r].Obj? &&
    Show(w2, env2[r]) == InitSeen(prims, d) && (env2[r].Tensor? ==> |w| <= env2[r].address < |w2|)
  }

  lemma CloneYields(p: Program, fuel: nat, d: SlotDef, r: Var, base: nat, next: nat, env: Env, s: State)
    returns (env2: Env, w2: World)
    requires WellFormedSlot(d) && r.id < base <= next
    ensures Exec(p, fuel, CloneInit(d.init, d.value, r, next, map[]), env, s) == Done(env2, s.(world := w2))
    ensures CloneShown(p.prims, d, r, base, env, s.world, env2, w2)
  {
    var k0, none: map<Var, Var>, noEnv: Env := Corr(map[], {}), map[], map[];
    var a := Ran(k0, none, next, noEnv, env, [], s.world);
    assert noEnv.Keys == {} && none.Keys == {};
    var b := CloneComputesInit(p, fuel, d.init, d.value, r, base, a, s);
    env2, w2 := b.env, b.w;
    var op :| op in d.init && d.value in OpResults(op);
    InitDefsHas(d.init, op, d.value);
    CloneShows(p.prims, d, r, base, env, s.world, a, b);
  }

  lemma CloneShows(prims: Prims, d: SlotDef, r: Var, base: nat, env: Env, w: World, a: Ran, b: Ran)
    requires CloningAt(b, [], d.value, r, base) && RanFrom(a, b, r, base) && d.value in b.ienv
    requires a.k == Corr(map[], {}) && a.env == env && a.iw == [] && a.w == w
    requires InitRun(prims, d.init) == Done(b.ienv, State(map[], map[], b.iw))
    ensures CloneShown(prims, d, r, base, env, w, b.env, b.w)
  {
    assert CloneHolds(b.k, b.mapper[d.value], b.ienv[d.value], b.env) && b.mapper[d.value] == r;
    assert a.k.live.Values == {};
    if b.env[r].Tensor? {
      assert b.ienv[d.value].address in b.k.live && b.env[r].address in b.k.live.Values;
    }
  }

  /** The state before keeps its slot; the state after has a new tensor, which the two now share. */
  lemma CloneOutcome(c: Setup, k: Corr, op: Op, env: Env, env': Env, s: State, t: State, env2: Env, w2: World)
    returns (k': Corr)
    requires EnvRel(c, k, env, env') && StoreRel(c, k, s, t) && c.before.prims == c.after.prims
    requires op.SlotGet? && op.slot in c.inits && op.result.id < c.base
    requires CreatesObject(c.inits[op.slot]) ==> op.result in c.sharing.vars
    requires CloneShown(c.after.prims, c.inits[op.slot], op.result, c.base, env', t.world, env2, w2)
    ensures Grows(k, k')
    ensures op.slot in s.globals &&
            EnvOutcomes(c, k', Done(env[op.result := s.globals[op.slot]], s), Done(env2, t.(world := w2)))
  {
    var d, r := c.inits[op.slot], op.result;
    assert IsInitial(c.before.prims, d, k.live.Keys, s.globals[op.slot], s.world);
    var val := s.globals[op.slot];
    k' := if val.Tensor? then k.(shared := k.shared + {(val.address, env2[r].address)}) else k;
    CellsAfterClone(k, k', s.world, t.world, w2, val, env2[r]);
    StoreAfterClone(c, k, k', s, t, w2);
    if val.Tensor? { OnlyEffectsYieldTensors(c.before.prims, d); }
    EnvAfterClone(c, k, k', r, val, env, env', env2);
  }

  lemma CellsAfterClone(k: Corr, k': Corr, w: World, w': World, w2: World, val: Val, val': Val)
    requires CellsRel(k, w, w') && w' <= w2 && Show(w, val) == Show(w2, val')
    requires val.Tensor? ==> val.address < |w| && val.address !in k.live && val'.Tensor? && |w'| <= val'.address < |w2|
    requires k' == if val.Tensor? then k.(shared := k.shared + {(val.address, val'.address)}) else k
    ensures CellsRel(k', w, w2) && Grows(k, k')
  {
    if val.Tensor? {
      forall a' <- k.live.Values ensures a' < |w'| {
        var a :| a in k.live && k.live[a] == a';
      }
    }
  }

  lemma StoreAfterClone(c: Setup, k: Corr, k': Corr, s: State, t: State, w2: World)
    requires StoreRel(c, k, s, t) && CellsRel(k', s.world, w2) && Grows(k, k') && k'.live == k.live
    ensures StoreRel(c, k', s, t.(world := w2))
  {
    HeapGrows(k, k', s.heap, t.heap);
    GlobalsGrow(c, k, k', s.globals, t.globals);
  }

  lemma EnvAfterClone(c: Setup, k: Corr, k': Corr, r: Var, val: Val, env: Env, env': Env, env2: Env)
    requires EnvRel(c, k, env, env') && Grows(k, k') && SameBut(c.base, r, env', env2) && r in env2 && r.id < c.base
    requires ValRel(k', r in c.sharing.vars, val, env2[r])
    ensures EnvRel(c, k', env[r := val], env2)
  {
    EnvGrows(c, k, k', env, env');
  }

  // ---- Values that come from pure ops are numbers ----

  /** Whatever the initializer leaves in `x` is what `x` holds so far, if no op left defines it. */
  lemma {:induction false} InitKeeps(p: Program, init: seq<Op>, ienv: Env, s: State, x: Var)
    requires WellFormedInit(init, ienv.Keys) && x in ienv
    ensures var o := Exec(p, 0, init, ienv, s); o.Done? ==> x in o.value && o.value[x] == ienv[x]
    decreases |init|
  {
    if init != [] {
      var o := ExecOp(p, 0, init[0], ienv, s);
      if o.Done? {
        OpBinds(p, init[0], ienv, s);
        assert x !in OpResults(init[0]);
        InitKeeps(p, init[1..], o.value, o.state, x);
      }
    }
  }

  /** An op of an initializer binds its results and nothing else. */
  lemma OpBinds(p: Program, op: Op, ienv: Env, s: State)
    requires (op.Pure? || op.Effect?) && Distinct(OpResults(op))
    ensures var o := ExecOp(p, 0, op, ienv, s);
            o.Done? ==> o.value.Keys == ienv.Keys + SetOf(OpResults(op)) &&
                        (forall v <- ienv :: v !in OpResults(op) ==> o.value[v] == ienv[v]) &&
                        (op.Pure? ==> o.value[op.result].Num?)
  {
    if op.Effect? && Operands(ienv, op.operands).Some? {
      var r := RunEffect(p.prims, op.opcode, Operands(ienv, op.operands).value, |op.results|, s.world);
      BindLookup(ienv, op.results, r.vals);
    }
  }

  lemma {:induction false} PureYieldsNumber(p: Program, init: seq<Op>, ienv: Env, s: State, op: Op, x: Var)
    requires WellFormedInit(init, ienv.Keys) && op in init && op.Pure? && op.result == x
    ensures var o := Exec(p, 0, init, ienv, s); o.Done? ==> x in o.value && o.value[x].Num?
    decreases |init|
  {
    var o := ExecOp(p, 0, init[0], ienv, s);
    if o.Done? {
      OpBinds(p, init[0], ienv, s);
      if op == init[0] {
        InitKeeps(p, init[1..], o.value, o.state, x);
      } else {
        PureYieldsNumber(p, init[1..], o.value, o.state, op, x);
      }
    }
  }

  /** Without an op that may make a tensor the initial value is a number. */
  lemma OnlyEffectsYieldTensors(prims: Prims, d: SlotDef)
    requires WellFormedSlot(d) && !InitSeen(prims, d).SeenNumber?
    ensures CreatesObject(d)
  {
    var op :| op in d.init && d.value in OpResults(op);
    InitOps(d.init, {}, op);
    if op.Pure? {
      var noEnv: Env := map[];
      assert noEnv.Keys == {};
      PureYieldsNumber(Program(map[], prims), d.init, noEnv, EMPTY, op, d.value);
    }
  }

  lemma {:induction false} InitOps(init: seq<Op>, defined: set<Var>, op: Op)
    requires WellFormedInit(init, defined) && op in init
    ensures op.Pure? || op.Effect?
    decreases |init|
  {
    if op != init[0] { InitOps(init[1..], defined + SetOf(OpResults(init[0])), op); }
  }

  // ---- Control flow and calls ----

  lemma {:induction false} SimulateBlock(c: Setup, k: Corr, fuel: nat, b: Block, ws: seq<Var>, next: nat,
                                         args: seq<Val>, args': seq<Val>, env: Env, env': Env, s: State, t: State)
    returns (k': Corr)
    requires Ready(c, k, Walk(b.ops), next, env, env', s, t) && BlockBelow(c.base, b)
    requires FitRel(c, k, b.args, args, args') && Flows(c.sharing, b.outs, ws)
    ensures Grows(k, k')
    ensures SameOutcome(c, k', ws, ExecBlock(c.before, fuel, b, args, env, s),
                        ExecBlock(c.after, fuel, Block(b.args, InlineOps(c.inits, b.ops, next).ops, b.outs), args',
                                  env', t))
    decreases fuel, b
  {
    k' := k;
    if |b.args| == |args| {
      BindFits(c, k, b.args, args, args', env, env');
      var inner, inner' := Bind(env, b.args, args), Bind(env', b.args, args');
      k' := SimulateOps(c, k, fuel, b.ops, next, inner, inner', s, t);
      YieldOutcomes(c, k', b.outs, ws, Exec(c.before, fuel, b.ops, inner, s),
                    Exec(c.after, fuel, InlineOps(c.inits, b.ops, next).ops, inner', t));
    }
  }

  lemma {:induction false} SimulateIf(c: Setup, k: Corr, fuel: nat, op: Op, next: nat, env: Env, env': Env, s: State,
                                      t: State)
    returns (k': Corr)
    requires Ready(c, k, WalkOp(op), next, env, env', s, t) && OpBelow(c.base, op) && op.If?
    ensures Grows(k, k')
    ensures EnvOutcomes(c, k', ExecOp(c.before, fuel, op, env, s),
                        Exec(c.after, fuel, InlineOp(c.inits, op, next).ops, env', t))
    decreases fuel, op, 0
  {
    k' := k;
    assert op in WalkOp(op) && SparesShared(c.inits, c.sharing, c.sig, c.before.funcs, op);
    ExecSingle(c.after, fuel, InlineOp(c.inits, op, next).ops[0], env', t);
    var elsNext := InlineOps(c.inits, op.thn.ops, next).next;
    InlineUsesFresh(c.inits, op.thn.ops, next);
    VarsAgree(c, k, [op.cond], env, env');
    assert op.cond in [op.cond];
    if op.cond in env && !env[op.cond].Obj? {
      NumbersRel(k, op.cond in c.sharing.vars, env[op.cond], env'[op.cond]);
      var taken := Number(env[op.cond]) != 0;
      var b, n := if taken then op.thn else op.els, if taken then next else elsNext;
      ReadyPart(c, k, WalkOp(op), Walk(b.ops), next, n, env, env', s, t);
      k' := SimulateBlock(c, k, fuel, b, op.results, n, [], [], env, env', s, t);
      BindOutcomes(c, k, k', op.results, env, env', ExecBlock(c.before, fuel, b, [], env, s),
                   ExecBlock(c.after, fuel, Block(b.args, InlineOps(c.inits, b.ops, n).ops, b.outs), [], env', t));
    }
  }

  /** The carried values fit the results of the loop and the arguments of its body. */
  ghost predicate CarriedRel(c: Setup, k: Corr, rs: seq<Var>, body: Block, vals: seq<Val>, vals': seq<Val>) {
    FitRel(c, k, rs, vals, vals') && (body.args != [] ==> FitRel(c, k, body.args[1..], vals, vals'))
  }

  lemma {:induction false} SimulateLoopOp(c: Setup, k: Corr, fuel: nat, op: Op, next: nat, env: Env, env': Env,
                                          s: State, t: State)
    returns (k': Corr)
    requires Ready(c, k, WalkOp(op), next, env, env', s, t) && OpBelow(c.base, op) && op.Loop?
    ensures Grows(k, k')
    ensures EnvOutcomes(c, k', ExecOp(c.before, fuel, op, env, s),
                        Exec(c.after, fuel, InlineOp(c.inits, op, next).ops, env', t))
    decreases fuel, op, 0
  {
    k' := k;
    assert op in WalkOp(op) && SparesShared(c.inits, c.sharing, c.sig, c.before.funcs, op);
    ExecSingle(c.after, fuel, InlineOp(c.inits, op, next).ops[0], env', t);
    var head := [op.maxTripCount, op.cond];
    ReadsAgree(c, k, head, env, env');
    ReadsAgree(c, k, op.inits, env, env');
    if Operands(env, head).Some? && Vals(env, op.inits).Some? {
      LoopHeadAgrees(c, k, op, env, env');
      var trip, cond := Number(env[op.maxTripCount]), Number(env[op.cond]);
      var vals, vals' := Vals(env, op.inits).value, Vals(env', op.inits).value;
      var body' := Block(op.body.args, InlineOps(c.inits, op.body.ops, next).ops, op.body.outs);
      StartCarried(c, k, op, vals, vals');
      ReadyPart(c, k, WalkOp(op), Walk(op.body.ops), next, next, env, env', s, t);
      k' := SimulateLoop(c, k, fuel, op, next, 0, trip, cond, vals, vals', env, env', s, t);
      BindOutcomes(c, k, k', op.results, env, env', ExecLoop(c.before, fuel, op.body, 0, trip, cond, vals, env, s),
                   ExecLoop(c.after, fuel, body', 0, trip, cond, vals', env', t));
    }
  }

  lemma LoopHeadAgrees(c: Setup, k: Corr, op: Op, env: Env, env': Env)
    requires op.Loop? && EnvRel(c, k, env, env') && OpBelow(c.base, op) && op.maxTripCount in env && op.cond in env
    ensures op.maxTripCount in env' && op.cond in env'
    ensures Number(env[op.maxTripCount]) == Number(env'[op.maxTripCount]) &&
            Number(env[op.cond]) == Number(env'[op.cond])
  {
    NumbersRel(k, op.maxTripCount in c.sharing.vars, env[op.maxTripCount], env'[op.maxTripCount]);
    NumbersRel(k, op.cond in c.sharing.vars, env[op.cond], env'[op.cond]);
  }

  lemma StartCarried(c: Setup, k: Corr, op: Op, vals: seq<Val>, vals': seq<Val>)
    requires op.Loop? && FlowsRound(c.sharing, op.inits, op.results, op.body) &&
             ListRel(k, Flags(c.sharing, op.inits), vals, vals')
    ensures CarriedRel(c, k, op.results, op.body, vals, vals')
  {
    FlowFits(c, k, op.inits, op.results, vals, vals');
    if op.body.args != [] { FlowFits(c, k, op.inits, op.body.args[1..], vals, vals'); }
  }

  lemma NextCarried(c: Setup, k: Corr, op: Op, vals: seq<Val>, vals': seq<Val>)
    requires op.Loop? && FlowsRound(c.sharing, op.inits, op.results, op.body) && |vals| >= 1
    requires |op.body.outs| == |vals| && FitRel(c, k, op.body.outs, vals, vals')
    ensures CarriedRel(c, k, op.results, op.body, vals[1..], vals'[1..])
    ensures Number(vals[0]) == Number(vals'[0]) && (vals[0].Obj? <==> vals'[0].Obj?)
  {
    var outs := op.body.outs;
    assert ListRel(k, Flags(c.sharing, outs), vals, vals');
    assert ValRel(k, Flags(c.sharing, outs)[0], vals[0], vals'[0]);
    forall i | 0 <= i < |outs[1..]| ensures ValRel(k, Flags(c.sharing, outs[1..])[i], vals[1..][i], vals'[1..][i]) {
      assert ValRel(k, Flags(c.sharing, outs)[i + 1], vals[i + 1], vals'[i + 1]);
    }
    FlowFits(c, k, outs[1..], op.results, vals[1..], vals'[1..]);
    if op.body.args != [] { FlowFits(c, k, outs[1..], op.body.args[1..], vals[1..], vals'[1..]); }
  }

  /** The arguments of a round: the iteration number and the carried values. */
  lemma RoundArgs(c: Setup, k: Corr, rs: seq<Var>, body: Block, i: int, vals: seq<Val>, vals': seq<Val>)
    requires CarriedRel(c, k, rs, body, vals, vals')
    ensures FitRel(c, k, body.args, [Num(i)] + vals, [Num(i)] + vals')
  {
    if |body.args| == |vals| + 1 {
      var args, args', flags := [Num(i)] + vals, [Num(i)] + vals', Flags(c.sharing, body.args);
      forall j | 0 <= j < |args| ensures ValRel(k, flags[j], args[j], args'[j]) {
        if j > 0 { assert ValRel(k, Flags(c.sharing, body.args[1..])[j - 1], vals[j - 1], vals'[j - 1]); }
      }
    }
  }

  lemma {:induction false} SimulateLoop(c: Setup, k: Corr, fuel: nat, op: Op, next: nat, i: int, trip: int, cond: int,
                                        vals: seq<Val>, vals': seq<Val>, env: Env, env': Env, s: State, t: State)
    returns (k': Corr)
    requires op.Loop? && Ready(c, k, Walk(op.body.ops), next, env, env', s, t) && BlockBelow(c.base, op.body)
    requires FlowsRound(c.sharing, op.inits, op.results, op.body) && CarriedRel(c, k, op.results, op.body, vals, vals')
    ensures Grows(k, k')
    ensures SameOutcome(c, k', op.results, ExecLoop(c.before, fuel, op.body, i, trip, cond, vals, env, s),
                        ExecLoop(c.after, fuel, Block(op.body.args, InlineOps(c.inits, op.body.ops, next).ops,
                                                      op.body.outs), i, trip, cond, vals', env', t))
    decreases fuel, op.body, 1
  {
    k' := k;
    if cond != 0 && i < trip && fuel != 0 {
      var body, body' := op.body, Block(op.body.args, InlineOps(c.inits, op.body.ops, next).ops, op.body.outs);
      var args, args' := [Num(i)] + vals, [Num(i)] + vals';
      RoundArgs(c, k, op.results, body, i, vals, vals');
      k' := SimulateBlock(c, k, fuel - 1, body, body.outs, next, args, args', env, env', s, t);
      var o := ExecBlock(c.before, fuel - 1, body, args, env, s);
      var o' := ExecBlock(c.after, fuel - 1, body', args', env', t);
      if o.Done? && |o.value| >= 1 {
        NextCarried(c, k', op, o.value, o'.value);
        if !o.value[0].Obj? {
          var k1 := k';
          EnvGrows(c, k, k1, env, env');
          k' := SimulateLoop(c, k1, fuel - 1, op, next, i + 1, trip, Number(o.value[0]), o.value[1..], o'.value[1..],
                             env, env', o.state, o'.state);
          GrowsTransitive(k, k1, k');
        }
      }
    }
  }

  lemma {:induction false} SimulateCall(c: Setup, k: Corr, fuel: nat, op: Op, next: nat, env: Env, env': Env, s: State,
                                        t: State)
    returns (k': Corr)
    requires Ready(c, k, WalkOp(op), next, env, env', s, t) && OpBelow(c.base, op) && op.Call?
    ensures Grows(k, k')
    ensures EnvOutcomes(c, k', ExecOp(c.before, fuel, op, env, s),
                        Exec(c.after, fuel, InlineOp(c.inits, op, next).ops, env', t))
    decreases fuel, op, 1
  {
    k' := k;
    assert op in WalkOp(op) && SparesShared(c.inits, c.sharing, c.sig, c.before.funcs, op);
    ExecSingle(c.after, fuel, op, env', t);
    ReadsAgree(c, k, op.operands, env, env');
    if op.callee in c.before.funcs && Vals(env, op.operands).Some? && fuel > 0 {
      k' := SimulateCallee(c, k, fuel, op, Vals(env, op.operands).value, Vals(env', op.operands).value, env, env', s,
                           t);
    }
  }

  lemma {:induction false} SimulateCallee(c: Setup, k: Corr, fuel: nat, op: Op, vals: seq<Val>, vals': seq<Val>,
                                          env: Env, env': Env, s: State, t: State)
    returns (k': Corr)
    requires IsInlining(c) && LeavesSharedAlone(c) && StoreRel(c, k, s, t) && EnvRel(c, k, env, env')
    requires op.Call? && op.callee in c.before.funcs && fuel > 0
    requires Flows(c.sharing, op.operands, c.before.funcs[op.callee].params)
    requires Flows(c.sharing, c.before.funcs[op.callee].results, op.results)
    requires Vals(env, op.operands) == Some(vals) && Vals(env', op.operands) == Some(vals')
    requires ListRel(k, Flags(c.sharing, op.operands), vals, vals')
    ensures Grows(k, k')
    ensures EnvOutcomes(c, k', ExecOp(c.before, fuel, op, env, s), ExecOp(c.after, fuel, op, env', t))
    decreases fuel, op, 0
  {
    FlowFits(c, k, op.operands, c.before.funcs[op.callee].params, vals, vals');
    assert InlinedFunc(c, op.callee);
    CallRuns(c.before, fuel, op, env, s, vals);
    CallRuns(c.after, fuel, op, env', t, vals');
    k' := InvokeAndBind(c, k, fuel - 1, op.callee, op.results, vals, vals', env, env', s, t);
  }

  lemma {:induction false} InvokeAndBind(c: Setup, k: Corr, fuel: nat, name: Callee, rs: seq<Var>, vals: seq<Val>,
                                         vals': seq<Val>, env: Env, env': Env, s: State, t: State)
    returns (k': Corr)
    requires IsInlining(c) && LeavesSharedAlone(c) && StoreRel(c, k, s, t) && EnvRel(c, k, env, env')
    requires name in c.before.funcs && FitRel(c, k, c.before.funcs[name].params, vals, vals')
    requires Flows(c.sharing, c.before.funcs[name].results, rs)
    ensures name in c.after.funcs && Grows(k, k')
    ensures EnvOutcomes(c, k', BindOutcome(env, rs, Invoke(c.before, fuel, c.before.funcs[name], vals, s)),
                        BindOutcome(env', rs, Invoke(c.after, fuel, c.after.funcs[name], vals', t)))
    decreases fuel, c.before.funcs[name].ops, 2
  {
    k' := SimulateInvoke(c, k, fuel, name, rs, vals, vals', s, t);
    BindOutcomes(c, k, k', rs, env, env', Invoke(c.before, fuel, c.before.funcs[name], vals, s),
                 Invoke(c.after, fuel, c.after.funcs[name], vals', t));
  }

  lemma CallRuns(p: Program, fuel: nat, op: Op, env: Env, s: State, vals: seq<Val>)
    requires op.Call? && op.callee in p.funcs && Vals(env, op.operands) == Some(vals) && fuel > 0
    ensures ExecOp(p, fuel, op, env, s) ==
            BindOutcome(env, op.results, Invoke(p, fuel - 1, p.funcs[op.callee], vals, s))
  {
  }

  /** A function and its inlined version on corresponding arguments: both fail, or they have corresponding results. */
  lemma {:induction false} SimulateInvoke(c: Setup, k: Corr, fuel: nat, name: Callee, ws: seq<Var>, vals: seq<Val>,
                                          vals': seq<Val>, s: State, t: State)
    returns (k': Corr)
    requires IsInlining(c) && LeavesSharedAlone(c) && StoreRel(c, k, s, t) && name in c.before.funcs
    requires FitRel(c, k, c.before.funcs[name].params, vals, vals') &&
             Flows(c.sharing, c.before.funcs[name].results, ws)
    ensures name in c.after.funcs && Grows(k, k')
    ensures SameOutcome(c, k', ws, Invoke(c.before, fuel, c.before.funcs[name], vals, s),
                        Invoke(c.after, fuel, c.after.funcs[name], vals', t))
    decreases fuel, c.before.funcs[name].ops, 1
  {
    k' := k;
    assert InlinedFunc(c, name) && WalkSpares(c, Walk(c.before.funcs[name].ops));
    var f := c.before.funcs[name];
    if |f.params| == |vals| {
      BindFits(c, k, f.params, vals, vals', map[], map[]);
      var env, env' := Bind(map[], f.params, vals), Bind(map[], f.params, vals');
      k' := SimulateOps(c, k, fuel, f.ops, c.base, env, env', s, t);
      YieldOutcomes(c, k', f.results, ws, Exec(c.before, fuel, f.ops, env, s),
                    Exec(c.after, fuel, InlineOps(c.inits, f.ops, c.base).ops, env', t));
    }
  }

  // ---- Whole runs ----

  // `flags` tells which of the values handed out so far may be shared.

  /** What is given may be a shared tensor. */
  predicate GivesShared(flags: seq<bool>, g: Given) {
    g.Earlier? && g.k < |flags| && flags[g.k]
  }

  /** The outside, too, must leave shared tensors alone, and may pass them only where they are accounted for. */
  predicate Permitted(c: Setup, flags: seq<bool>, r: Request) {
    match r
    case Call(name, gs) => name in c.before.funcs ==> MayPass(c.sharing, flags, gs, c.before.funcs[name].params)
    case Write(slot, g) => slot !in c.inits && (GivesShared(flags, g) ==> slot in c.sharing.slots)
    case Read(slot) => slot !in c.inits
    case Fill(k, _) => !GivesShared(flags, Earlier(k))
    case Compare(j, k) => !GivesShared(flags, Earlier(j)) && !GivesShared(flags, Earlier(k))
  }

  predicate MayPass(sh: Sharing, flags: seq<bool>, gs: seq<Given>, params: seq<Var>) {
    forall i | 0 <= i < |gs| && i < |params| :: GivesShared(flags, gs[i]) ==> params[i] in sh.vars
  }

  function FlagsAfter(c: Setup, flags: seq<bool>, r: Request): seq<bool> {
    match r
    case Call(name, _) => flags + if name in c.before.funcs then Flags(c.sharing, c.before.funcs[name].results) else []
    case Read(slot) => flags + [slot in c.sharing.slots]
    case _ => flags
  }

  predicate AllPermitted(c: Setup, flags: seq<bool>, requests: seq<Request>)
    decreases |requests|
  {
    requests == [] || (Permitted(c, flags, requests[0]) &&
                       AllPermitted(c, FlagsAfter(c, flags, requests[0]), requests[1..]))
  }

  lemma ShowAgrees(k: Corr, mayShare: bool, w: World, w': World, v: Val, v': Val)
    requires CellsRel(k, w, w') && ValRel(k, mayShare, v, v')
    ensures Show(w, v) == Show(w', v')
  {
  }

  lemma ShowAllAgrees(k: Corr, flags: seq<bool>, w: World, w': World, vals: seq<Val>, vals': seq<Val>)
    requires CellsRel(k, w, w') && ListRel(k, flags, vals, vals')
    ensures ShowAll(w, vals) == ShowAll(w', vals')
  {
    forall i | 0 <= i < |vals| ensures Show(w, vals[i]) == Show(w', vals'[i]) {
      ShowAgrees(k, flags[i], w, w', vals[i], vals'[i]);
    }
  }

  /** What the outside gives corresponds on both sides, and at most allocates. */
  ghost predicate GivenRel(k: Corr, k': Corr, mayShare: bool, w: World, w': World, r: Option<(Val, World)>,
                           r': Option<(Val, World)>)
  {
    (r.Some? <==> r'.Some?) && Grows(k, k') &&
    (r.Some? ==> CellsRel(k', r.value.1, r'.value.1) && AddsNew(k, k', |w|, |w'|) && w <= r.value.1 &&
                 w' <= r'.value.1 && ValRel(k', mayShare, r.value.0, r'.value.0))
  }

  lemma GiveAgrees(k: Corr, flags: seq<bool>, g: Given, h: seq<Val>, h': seq<Val>, w: World, w': World)
    returns (k': Corr)
    requires CellsRel(k, w, w') && ListRel(k, flags, h, h')
    ensures GivenRel(k, k', GivesShared(flags, g), w, w', Give(g, h, w), Give(g, h', w'))
  {
    k' := k;
    match g
    case Fresh(data) =>
      AllocateRel(k, w, w', data);
      k' := Allocated(k, w, w');
    case _ =>
  }

  function SharedAmong(flags: seq<bool>, gs: seq<Given>): seq<bool> {
    seq(|gs|, i requires 0 <= i < |gs| => GivesShared(flags, gs[i]))
  }

  ghost predicate AllGivenRel(k: Corr, k': Corr, shared: seq<bool>, w: World, w': World, r: Option<Results>,
                              r': Option<Results>)
  {
    (r.Some? <==> r'.Some?) && Grows(k, k') && (r.Some? ==> AllGiven(k, k', shared, w, w', r.value, r'.value))
  }

  ghost predicate AllGiven(k: Corr, k': Corr, shared: seq<bool>, w: World, w': World, r: Results, r': Results) {
    CellsRel(k', r.world, r'.world) && AddsNew(k, k', |w|, |w'|) && w <= r.world && w' <= r'.world &&
    ListRel(k', shared, r.vals, r'.vals)
  }

  lemma {:induction false} GiveAllAgrees(k: Corr, flags: seq<bool>, gs: seq<Given>, h: seq<Val>, h': seq<Val>, w: World,
                                         w': World)
    returns (k': Corr)
    requires CellsRel(k, w, w') && ListRel(k, flags, h, h')
    ensures AllGivenRel(k, k', SharedAmong(flags, gs), w, w', GiveAll(gs, h, w), GiveAll(gs, h', w'))
  {
    k' := k;
    if gs != [] {
      var front, last := gs[..|gs| - 1], gs[|gs| - 1];
      k' := GiveAllAgrees(k, flags, front, h, h', w, w');
      var r, r' := GiveAll(front, h, w), GiveAll(front, h', w');
      if r.Some? {
        var k1 := k';
        ListRelGrows(k, k1, flags, h, h');
        k' := GiveAgrees(k1, flags, last, h, h', r.value.world, r'.value.world);
        GrowsTransitive(k, k1, k');
        var v, v' := Give(last, h, r.value.world), Give(last, h', r'.value.world);
        if v.Some? {
          ListRelGrows(k1, k', SharedAmong(flags, front), r.value.vals, r'.value.vals);
          ListRelAppend(k', SharedAmong(flags, front), [GivesShared(flags, last)], r.value.vals, r'.value.vals,
                        [v.value.0], [v'.value.0]);
          assert SharedAmong(flags, front) + [GivesShared(flags, last)] == SharedAmong(flags, gs);
        }
      }
    }
  }

  lemma GivenFits(c: Setup, k: Corr, flags: seq<bool>, gs: seq<Given>, params: seq<Var>, vals: seq<Val>,
                  vals': seq<Val>)
    requires ListRel(k, SharedAmong(flags, gs), vals, vals') && MayPass(c.sharing, flags, gs, params)
    ensures FitRel(c, k, params, vals, vals')
  {
  }

  /** What holds between the two sides after a request that did not fail. */
  ghost predicate Served(c: Setup, k: Corr, k': Corr, flags: seq<bool>, reply: Reply, reply': Reply) {
    reply.answer == reply'.answer && Grows(k, k') &&
    (!reply.answer.Failed? ==>
       ListRel(k', flags, reply.handles, reply'.handles) && StoreRel(c, k', reply.state, reply'.state))
  }

  lemma ServeAgrees(c: Setup, k: Corr, fuel: nat, r: Request, flags: seq<bool>, h: seq<Val>, h': seq<Val>, s: State,
                    t: State)
    returns (k': Corr)
    requires IsInlining(c) && LeavesSharedAlone(c) && StoreRel(c, k, s, t) && ListRel(k, flags, h, h') &&
             Permitted(c, flags, r)
    ensures Served(c, k, k', FlagsAfter(c, flags, r), Serve(c.before, fuel, r, h, s), Serve(c.after, fuel, r, h', t))
  {
    k' := k;
    match r
    case Call(name, gs) => k' := ServeCallAgrees(c, k, fuel, name, gs, flags, h, h', s, t);
    case Write(slot, g) => k' := ServeWriteAgrees(c, k, slot, g, flags, h, h', s, t);
    case Read(slot) =>
      if slot in s.globals {
        ShowAgrees(k, slot in c.sharing.slots, s.world, t.world, s.globals[slot], t.globals[slot]);
        ListRelAppend(k, flags, [slot in c.sharing.slots], h, h', [s.globals[slot]], [t.globals[slot]]);
      }
    case Fill(i, data) =>
      if i < |h| && h[i].Tensor? && h[i].address < |s.world| { ServeFillAgrees(c, k, i, data, flags, h, h', s, t); }
    case Compare(i, j) =>
      if i < |h| && j < |h| { SameTensorSamePlaces(k, false, s.world, t.world, h[i], h'[i], h[j], h'[j]); }
  }

  lemma ListRelAppend(k: Corr, flags: seq<bool>, more: seq<bool>, h: seq<Val>, h': seq<Val>, vals: seq<Val>,
                      vals': seq<Val>)
    requires ListRel(k, flags, h, h') && ListRel(k, more, vals, vals')
    ensures ListRel(k, flags + more, h + vals, h' + vals')
  {
  }

  lemma ServeWriteAgrees(c: Setup, k: Corr, slot: string, g: Given, flags: seq<bool>, h: seq<Val>, h': seq<Val>,
                         s: State, t: State)
    returns (k': Corr)
    requires StoreRel(c, k, s, t) && ListRel(k, flags, h, h') && slot !in c.inits
    requires GivesShared(flags, g) ==> slot in c.sharing.slots
    ensures Served(c, k, k', flags, Serve(c.before, 0, Write(slot, g), h, s), Serve(c.after, 0, Write(slot, g), h', t))
  {
    k' := GiveAgrees(k, flags, g, h, h', s.world, t.world);
    var v, v' := Give(g, h, s.world), Give(g, h', t.world);
    if v.Some? {
      StoreAfterEffect(c, k, k', s, t, v.value.1, v'.value.1);
      WritesAgree(c, k', s.(world := v.value.1), t.(world := v'.value.1), slot, v.value.0, v'.value.0);
      ListRelGrows(k, k', flags, h, h');
    }
  }

  lemma ServeFillAgrees(c: Setup, k: Corr, i: nat, data: seq<int>, flags: seq<bool>, h: seq<Val>, h': seq<Val>,
                        s: State, t: State)
    requires StoreRel(c, k, s, t) && ListRel(k, flags, h, h') && !GivesShared(flags, Earlier(i))
    requires i < |h| && h[i].Tensor? && h[i].address < |s.world|
    ensures Served(c, k, k, flags, Serve(c.before, 0, Fill(i, data), h, s), Serve(c.after, 0, Fill(i, data), h', t))
  {
    assert SameVal(k, h[i], h'[i]);
    WriteRel(k, s.world, t.world, h[i].address, data);
    StoreAfterEffect(c, k, k, s, t, s.world[h[i].address := data], t.world[h'[i].address := data]);
  }

  lemma ServeCallAgrees(c: Setup, k: Corr, fuel: nat, name: Callee, gs: seq<Given>, flags: seq<bool>, h: seq<Val>,
                        h': seq<Val>, s: State, t: State)
    returns (k': Corr)
    requires IsInlining(c) && LeavesSharedAlone(c) && StoreRel(c, k, s, t) && ListRel(k, flags, h, h')
    requires name in c.before.funcs ==> MayPass(c.sharing, flags, gs, c.before.funcs[name].params)
    ensures Served(c, k, k', FlagsAfter(c, flags, Request.Call(name, gs)),
                   Serve(c.before, fuel, Request.Call(name, gs), h, s),
                   Serve(c.after, fuel, Request.Call(name, gs), h', t))
  {
    k' := GiveAllAgrees(k, flags, gs, h, h', s.world, t.world);
    var given, given' := GiveAll(gs, h, s.world), GiveAll(gs, h', t.world);
    if name in c.before.funcs && given.Some? {
      var k1 := k';
      StoreAfterEffect(c, k, k1, s, t, given.value.world, given'.value.world);
      ListRelGrows(k, k1, flags, h, h');
      GivenFits(c, k1, flags, gs, c.before.funcs[name].params, given.value.vals, given'.value.vals);
      k' := InvokeServed(c, k1, fuel, name, given.value, given'.value, flags, h, h', s, t);
      GrowsTransitive(k, k1, k');
    }
  }

  lemma InvokeServed(c: Setup, k: Corr, fuel: nat, name: Callee, given: Results, given': Results, flags: seq<bool>,
                     h: seq<Val>, h': seq<Val>, s: State, t: State)
    returns (k': Corr)
    requires IsInlining(c) && LeavesSharedAlone(c) && name in c.before.funcs && name in c.after.funcs
    requires StoreRel(c, k, s.(world := given.world), t.(world := given'.world)) && ListRel(k, flags, h, h')
    requires FitRel(c, k, c.before.funcs[name].params, given.vals, given'.vals)
    ensures Served(c, k, k', flags + Flags(c.sharing, c.before.funcs[name].results),
                   ServeCall(c.before, fuel, name, given, h, s), ServeCall(c.after, fuel, name, given', h', t))
  {
    var f, s1, t1 := c.before.funcs[name], s.(world := given.world), t.(world := given'.world);
    k' := SimulateInvoke(c, k, fuel, name, f.results, given.vals, given'.vals, s1, t1);
    var o, o' := Invoke(c.before, fuel, f, given.vals, s1), Invoke(c.after, fuel, c.after.funcs[name], given'.vals, t1);
    if o.Done? {
      ResultCount(c.before, fuel, f, given.vals, s1);
      ListRelGrows(k, k', flags, h, h');
      ShowAllAgrees(k', Flags(c.sharing, f.results), o.state.world, o'.state.world, o.value, o'.value);
      ListRelAppend(k', flags, Flags(c.sharing, f.results), h, h', o.value, o'.value);
    }
  }

  lemma ResultCount(p: Program, fuel: nat, f: Func, vals: seq<Val>, s: State)
    ensures Invoke(p, fuel, f, vals, s).Done? ==> |Invoke(p, fuel, f, vals, s).value| == |f.results|
  {
  }

  /**
   Inlining preserves every run, whatever the requests, the fuel or the failures, if no op of the
   program overwrites a tensor of an inlined slot in place or compares it, and the outside does not
   either: the answers are the same, contents of tensors and their identity included.
   */
  lemma {:induction false} InliningPreservesRuns(c: Setup, k: Corr, fuel: nat, requests: seq<Request>, flags: seq<bool>,
                                                 h: seq<Val>, h': seq<Val>, s: State, t: State)
    requires IsInlining(c) && LeavesSharedAlone(c) && AllPermitted(c, flags, requests)
    requires StoreRel(c, k, s, t) && ListRel(k, flags, h, h')
    ensures Answers(c.before, fuel, requests, h, s) == Answers(c.after, fuel, requests, h', t)
    decreases |requests|
  {
    if requests != [] {
      var k' := ServeAgrees(c, k, fuel, requests[0], flags, h, h', s, t);
      var reply, reply' := Serve(c.before, fuel, requests[0], h, s), Serve(c.after, fuel, requests[0], h', t);
      if !reply.answer.Failed? {
        InliningPreservesRuns(c, k', fuel, requests[1..], FlagsAfter(c, flags, requests[0]), reply.handles,
                              reply'.handles, reply.state, reply'.state);
      }
    }
  }

  /** A request that fails changes nothing. */
  lemma FailureChangesNothing(p: Program, fuel: nat, r: Request, h: seq<Val>, s: State)
    requires Serve(p, fuel, r, h, s).answer.Failed?
    ensures Serve(p, fuel, r, h, s).state == s
  {
  }

  /** The two stores correspond throughout a run. */
  lemma {:induction false} RunStaysRelated(c: Setup, k: Corr, fuel: nat, requests: seq<Request>, flags: seq<bool>,
                                           h: seq<Val>, h': seq<Val>, s: State, t: State)
    returns (k': Corr)
    requires IsInlining(c) && LeavesSharedAlone(c) && AllPermitted(c, flags, requests)
    requires StoreRel(c, k, s, t) && ListRel(k, flags, h, h')
    ensures StoreRel(c, k', StateAfter(c.before, fuel, requests, h, s), StateAfter(c.after, fuel, requests, h', t))
    decreases |requests|
  {
    k' := k;
    if requests != [] {
      k' := ServeAgrees(c, k, fuel, requests[0], flags, h, h', s, t);
      var reply, reply' := Serve(c.before, fuel, requests[0], h, s), Serve(c.after, fuel, requests[0], h', t);
      if reply.answer.Failed? {
        FailureChangesNothing(c.before, fuel, requests[0], h, s);
        FailureChangesNothing(c.after, fuel, requests[0], h', t);
        k' := k;
      } else {
        k' := RunStaysRelated(c, k', fuel, requests[1..], FlagsAfter(c, flags, requests[0]), reply.handles,
                              reply'.handles, reply.state, reply'.state);
      }
    }
  }

  /** An inlined slot shows its initial value after any run. */
  lemma InlinedSlotKeepsInitialValue(c: Setup, k: Corr, fuel: nat, requests: seq<Request>, flags: seq<bool>,
                                     h: seq<Val>, h': seq<Val>, s: State, t: State, slot: string)
    requires IsInlining(c) && LeavesSharedAlone(c) && AllPermitted(c, flags, requests) && slot in c.inits
    requires StoreRel(c, k, s, t) && ListRel(k, flags, h, h')
    ensures var s' := StateAfter(c.before, fuel, requests, h, s);
            slot in s'.globals && Show(s'.world, s'.globals[slot]) == InitSeen(c.before.prims, c.inits[slot])
  {
    var k' := RunStaysRelated(c, k, fuel, requests, flags, h, h', s, t);
    var s' := StateAfter(c.before, fuel, requests, h, s);
    assert IsInitial(c.before.prims, c.inits[slot], k'.live.Keys, s'.globals[slot], s'.world);
  }

  /** What the pass produces is an inlining in the sense above. */
  lemma PassIsInlining(m: SlotModule, r: SlotModule, inits: Inits, next: nat, prims: Prims, sh: Sharing, sig: Signature)
    requires forall slot <- inits :: IsInlined(m, slot) && inits[slot] == m.slots[slot] && WellFormedSlot(inits[slot])
    requires r.funcs.Keys == m.funcs.Keys
    requires forall f <- m.funcs :: FuncBelow(next, m.funcs[f]) && r.funcs[f] == InlineFunc(inits, m.funcs[f], next)
    ensures IsInlining(Setup(inits, next, sh, sig, Program(m.funcs, prims), Program(r.funcs, prims)))
  {
    var c := Setup(inits, next, sh, sig, Program(m.funcs, prims), Program(r.funcs, prims));
    forall f <- m.funcs ensures InlinedFunc(c, f) {
      forall op <- Walk(m.funcs[f].ops) | op.SlotSet? ensures op.slot !in inits {
        assert SlotSetIn(Walk(m.funcs[f].ops), op.slot);
        assert IsWritten(m.funcs, op.slot);
      }
    }
  }
}
