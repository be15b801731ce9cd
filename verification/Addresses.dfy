/**
 Nothing that can be seen from outside depends on where tensors lie: a program answers alike from
 stores that correspond.
 */
module Addresses {
  import opened Option
  import opened TorchIR
  import opened Correspondence
  import opened Outside
  import opened InlineGlobalSlots
  import opened CloneSafety

  /** The same numbers and instances, and tensors with the same contents one to one. */
  ghost predicate SameStores(k: Corr, s: State, t: State) {
    CellsRel(k, s.world, t.world) && HeapRel(k, s.heap, t.heap) && s.globals.Keys == t.globals.Keys &&
    forall slot <- s.globals :: SameVal(k, s.globals[slot], t.globals[slot])
  }

  // ---- Numbers above those of all variables ----

  function VarsBound(vs: seq<Var>): nat {
    if vs == [] then 0 else vs[0].id + 1 + VarsBound(vs[1..])
  }

  function OpsBound(ops: seq<Op>): nat {
    if ops == [] then 0 else OpBound(ops[0]) + OpsBound(ops[1..])
  }

  function OpBound(op: Op): nat {
    match op
    case GetAttr(r, x, _) => r.id + x.id + 1
    case SetAttr(x, _, v) => x.id + v.id + 1
    case SlotGet(r, _) => r.id + 1
    case SlotSet(_, v) => v.id + 1
    case Call(rs, _, xs) => VarsBound(rs) + VarsBound(xs)
    case Pure(r, _, xs) => r.id + 1 + VarsBound(xs)
    case Effect(rs, _, xs) => VarsBound(rs) + VarsBound(xs)
    case If(rs, cond, thn, els) => VarsBound(rs) + cond.id + 1 + BlockBound(thn) + BlockBound(els)
    case Loop(rs, trip, cond, xs, body) => VarsBound(rs) + trip.id + cond.id + 1 + VarsBound(xs) + BlockBound(body)
  }

  function BlockBound(b: Block): nat {
    VarsBound(b.args) + OpsBound(b.ops) + VarsBound(b.outs)
  }

  function FuncBound(f: Func): nat {
    VarsBound(f.params) + OpsBound(f.ops) + VarsBound(f.results)
  }

  lemma {:induction false} VarsAreBelow(base: nat, vs: seq<Var>)
    requires VarsBound(vs) <= base
    ensures Below(base, vs)
    decreases |vs|
  {
    if vs != [] { VarsAreBelow(base, vs[1..]); }
  }

  lemma {:induction false} OpsAreBelow(base: nat, ops: seq<Op>)
    requires OpsBound(ops) <= base
    ensures OpsBelow(base, ops)
    decreases ops, 0
  {
    if ops != [] {
      OpIsBelow(base, ops[0]);
      OpsAreBelow(base, ops[1..]);
    }
  }

  lemma {:induction false} OpIsBelow(base: nat, op: Op)
    requires OpBound(op) <= base
    ensures OpBelow(base, op)
    decreases op
  {
    match op
    case GetAttr(_, _, _) =>
    case SetAttr(_, _, _) =>
    case SlotGet(_, _) =>
    case SlotSet(_, _) =>
    case Call(rs, _, xs) =>
      VarsAreBelow(base, rs);
      VarsAreBelow(base, xs);
    case Pure(_, _, xs) => VarsAreBelow(base, xs);
    case Effect(rs, _, xs) =>
      VarsAreBelow(base, rs);
      VarsAreBelow(base, xs);
    case If(rs, _, thn, els) =>
      VarsAreBelow(base, rs);
      BlockIsBelow(base, thn);
      BlockIsBelow(base, els);
    case Loop(rs, _, _, xs, body) =>
      VarsAreBelow(base, rs);
      VarsAreBelow(base, xs);
      BlockIsBelow(base, body);
  }

  lemma {:induction false} BlockIsBelow(base: nat, b: Block)
    requires BlockBound(b) <= base
    ensures BlockBelow(base, b)
    decreases b
  {
    VarsAreBelow(base, b.args);
    VarsAreBelow(base, b.outs);
    OpsAreBelow(base, b.ops);
  }

  lemma {:induction false} FuncsBound(funcs: map<Callee, Func>, names: set<Callee>) returns (base: nat)
    requires names <= funcs.Keys
    ensures forall f <- names :: FuncBound(funcs[f]) <= base
    decreases |names|
  {
    base := 0;
    if names != {} {
      var f :| f in names;
      base := FuncsBound(funcs, names - {f});
      base := base + FuncBound(funcs[f]);
    }
  }

  // ---- Inlining nothing ----

  lemma {:induction false} InlineNothing(ops: seq<Op>, next: nat)
    ensures InlineOps(map[], ops, next) == Inlined(ops, next)
    decreases ops, 0
  {
    if ops != [] {
      InlineNothingIn(ops[0], next);
      InlineNothing(ops[1..], next);
    }
  }

  lemma {:induction false} InlineNothingIn(op: Op, next: nat)
    ensures InlineOp(map[], op, next) == Inlined([op], next)
    decreases op
  {
    match op
    case If(_, _, thn, els) =>
      InlineNothing(thn.ops, next);
      InlineNothing(els.ops, next);
    case Loop(_, _, _, _, body) => InlineNothing(body.ops, next);
    case _ =>
  }

  /** A program is what inlining no slot makes of it. */
  lemma NothingInlined(p: Program) returns (c: Setup)
    ensures c.inits == map[] && c.sharing == NOTHING_SHARED && c.before == c.after == p
    ensures IsInlining(c) && LeavesSharedAlone(c)
  {
    var base := FuncsBound(p.funcs, p.funcs.Keys);
    c := Setup(map[], base, NOTHING_SHARED, _ => ANYTHING, p, p);
    forall f <- p.funcs ensures InlinedFunc(c, f) {
      var func := p.funcs[f];
      VarsAreBelow(base, func.params);
      VarsAreBelow(base, func.results);
      OpsAreBelow(base, func.ops);
      InlineNothing(func.ops, base);
    }
    NothingToLeaveAlone(c);
  }

  lemma {:induction false} NothingForbidden(c: Setup, flags: seq<bool>, requests: seq<Request>)
    requires c.inits == map[] && c.sharing == NOTHING_SHARED && forall i | 0 <= i < |flags| :: !flags[i]
    ensures AllPermitted(c, flags, requests)
    decreases |requests|
  {
    if requests != [] { NothingForbidden(c, FlagsAfter(c, flags, requests[0]), requests[1..]); }
  }

  /** A program answers alike from corresponding stores, whatever is asked of it. */
  lemma AddressesDoNotMatter(p: Program, k: Corr, fuel: nat, requests: seq<Request>, s: State, t: State)
    requires SameStores(k, s, t)
    ensures Answers(p, fuel, requests, [], s) == Answers(p, fuel, requests, [], t)
  {
    var c := NothingInlined(p);
    NothingForbidden(c, [], requests);
    assert StoreRel(c, k, s, t);
    InliningPreservesRuns(c, k, fuel, requests, [], [], [], s, t);
  }
}
