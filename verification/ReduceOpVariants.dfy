/**
 Reduction of op variants: in-place ops become their pure variant and an overwrite, and ops with
 value semantics stop touching mutable tensors. Models
 lib/Dialect/Torch/Transforms/ReduceOpVariants.cpp.
 */
module ReduceOpVariants {
  import opened TensorBlock

  // `nextId` is above every id in use: the source of fresh SSA ids.
  datatype Block = Block(ops: seq<Op>, nextId: nat)

  ghost predicate WellFormed(b: Block) {
    Ssa(b.ops) && Below(b.ops, b.nextId)
  }

  /** The conversion target. */
  predicate Legal(op: Op) {
    match op
    case Kernel(rs, _, xs) => (forall r <- rs :: !r.nonValue) && (forall x <- xs :: !x.nonValue)
    case InPlace(_, _, _) => false
    case NonValueLiteral(_, _) => false
    case _ => true
  }

  // ---- The three patterns ----

  // What replaces an op, the renaming of later uses, and the next fresh id.
  datatype Replacement = Replacement(ops: seq<Op>, renaming: Renaming, nextId: nat)

  /** A copy to a value tensor for each mutable operand; operand `i` uses the fresh id `n + i`. */
  function OperandCopies(xs: seq<Var>, n: nat): seq<Op> {
    if xs == [] then []
    else (if xs[0].nonValue then [CopyToValue(Var(n, false), xs[0])] else []) + OperandCopies(xs[1..], n + 1)
  }

  /** The value tensors used or defined in place of mutable ones. */
  function Immutable(xs: seq<Var>, n: nat): (r: seq<Var>)
    ensures |r| == |xs|
  {
    if xs == [] then []
    else [if xs[0].nonValue then Var(n, false) else xs[0]] + Immutable(xs[1..], n + 1)
  }

  /** A copy back to a mutable tensor for each mutable result, which keeps its name. */
  function ResultCopies(rs: seq<Var>, n: nat): seq<Op> {
    if rs == [] then []
    else (if rs[0].nonValue then [CopyToNonValue(rs[0], Var(n, false))] else []) + ResultCopies(rs[1..], n + 1)
  }

  function ConvertToImmutable(op: Op, n: nat): Replacement
    requires op.Kernel?
  {
    var n' := n + |op.operands|;
    Replacement(
      OperandCopies(op.operands, n) +
      [Kernel(Immutable(op.results, n'), op.name, Immutable(op.operands, n))] +
      ResultCopies(op.results, n'),
      map[], n' + |op.results|)
  }

  /** Converts all operands: each mutable one is copied to a value tensor before the op. */
  method ConvertOperands(xs: seq<Var>, n: nat) returns (copies: seq<Op>, newOperands: seq<Var>)
    ensures copies == OperandCopies(xs, n) && newOperands == Immutable(xs, n)
  {
    copies, newOperands := [], [];
    for i := 0 to |xs|
      invariant copies + OperandCopies(xs[i..], n + i) == OperandCopies(xs, n)
      invariant newOperands + Immutable(xs[i..], n + i) == Immutable(xs, n)
    {
      assert xs[i..][0] == xs[i] && xs[i..][1..] == xs[i + 1..];
      if xs[i].nonValue {
        copies := copies + [CopyToValue(Var(n + i, false), xs[i])];
        newOperands := newOperands + [Var(n + i, false)];
      } else {
        newOperands := newOperands + [xs[i]];
      }
    }
    assert copies + [] == copies;
  }

  /** Converts all results: each mutable one is computed as a value and copied back after the op. */
  method ConvertResults(rs: seq<Var>, n: nat) returns (copies: seq<Op>, newResults: seq<Var>)
    ensures copies == ResultCopies(rs, n) && newResults == Immutable(rs, n)
  {
    copies, newResults := [], [];
    for i := 0 to |rs|
      invariant copies + ResultCopies(rs[i..], n + i) == ResultCopies(rs, n)
      invariant newResults + Immutable(rs[i..], n + i) == Immutable(rs, n)
    {
      assert rs[i..][0] == rs[i] && rs[i..][1..] == rs[i + 1..];
      if rs[i].nonValue {
        copies := copies + [CopyToNonValue(rs[i], Var(n + i, false))];
        newResults := newResults + [Var(n + i, false)];
      } else {
        newResults := newResults + [rs[i]];
      }
    }
    assert copies + [] == copies;
  }

  method ConvertToImmutableTensors(op: Op, n: nat) returns (r: Replacement)
    requires op.Kernel?
    ensures r == ConvertToImmutable(op, n)
  {
    var before, newOperands := ConvertOperands(op.operands, n);
    var n' := n + |op.operands|;
    var after, newResults := ConvertResults(op.results, n');
    r := Replacement(before + [Kernel(newResults, op.name, newOperands)] + after, map[], n' + |op.results|);
  }

  function ReduceInPlace(op: Op, n: nat): Replacement
    requires op.InPlace? && op.operands != []
  {
    var newResult, tensor := Var(n, op.result.nonValue), Var(n + 1, false);
    Replacement(
      [Kernel([newResult], NoUnderscore(op.name), op.operands),
       CopyToValue(tensor, newResult),
       Overwrite(tensor, op.operands[0])],
      map[op.result := op.operands[0]], n + 2)
  }

  function ReduceLiteral(op: Op, n: nat): Replacement
    requires op.NonValueLiteral?
  {
    Replacement([ValueLiteral(Var(n, false), op.literal), CopyToNonValue(op.result, Var(n, false))], map[], n + 1)
  }

  /** The pattern that applies to an illegal op. */
  function Replace(op: Op, n: nat): Replacement
    requires !Legal(op) && WellTypedOp(op)
  {
    match op
    case Kernel(_, _, _) => ConvertToImmutable(op, n)
    case InPlace(_, _, _) => ReduceInPlace(op, n)
    case NonValueLiteral(_, _) => ReduceLiteral(op, n)
  }

  /**
   An in-place op whose third name fragment is `stem` and an underscore becomes the op named by the
   stem, on the same operands, a copy of its result and an overwrite of the first operand, which
   stands for the result from then on.
   */
  lemma InPlaceBecomesPure(op: Op, n: nat, stem: string)
    requires op.InPlace? && op.operands != [] && |op.name| >= 3 && op.name[2] == stem + "_"
    ensures ReduceInPlace(op, n).ops ==
            [Kernel([Var(n, op.result.nonValue)], op.name[2 := stem], op.operands),
             CopyToValue(Var(n + 1, false), Var(n, op.result.nonValue)),
             Overwrite(Var(n + 1, false), op.operands[0])]
    ensures ReduceInPlace(op, n).renaming == map[op.result := op.operands[0]]
    ensures WellTypedOp(op) ==> Replace(op, n) == ReduceInPlace(op, n)
  {
    var pure := NoUnderscore(op.name);
    assert EndsInUnderscore(op.name);
    assert (pure[2] + "_")[..|stem|] == stem && (stem + "_")[..|stem|] == stem;
    assert pure == op.name[2 := stem];
  }

  function RewriteAt(b: Block, i: nat): Block
    requires i < |b.ops| && !Legal(b.ops[i]) && WellTypedOp(b.ops[i])
  {
    var r := Replace(b.ops[i], b.nextId);
    Block(b.ops[..i] + r.ops + RenameAll(r.renaming, b.ops[i + 1..]), r.nextId)
  }

  // ---- Termination and legality ----

  /** An in-place op costs two steps, every other illegal op one. */
  function Weight(op: Op): nat {
    if op.InPlace? then 2 else if Legal(op) then 0 else 1
  }

  function TotalWeight(ops: seq<Op>): nat {
    if ops == [] then 0 else Weight(ops[0]) + TotalWeight(ops[1..])
  }

  lemma {:induction false} WeightAppend(a: seq<Op>, b: seq<Op>)
    ensures TotalWeight(a + b) == TotalWeight(a) + TotalWeight(b)
  {
    if a == [] {
      assert a + b == b;
    } else {
      assert (a + b)[1..] == a[1..] + b;
      WeightAppend(a[1..], b);
    }
  }

  ghost predicate KindPreserving(m: Renaming) {
    forall v <- m :: m[v].nonValue == v.nonValue
  }

  lemma {:induction false} WeightRename(m: Renaming, ops: seq<Op>)
    requires KindPreserving(m)
    ensures TotalWeight(RenameAll(m, ops)) == TotalWeight(ops)
  {
    if ops != [] {
      assert RenameAll(m, ops)[1..] == RenameAll(m, ops[1..]);
      WeightRename(m, ops[1..]);
      RenameKeepsLegality(m, ops[0]);
    }
  }

  lemma RenameKeepsLegality(m: Renaming, op: Op)
    requires KindPreserving(m)
    ensures Legal(Rename(m, op)) == Legal(op) && Weight(Rename(m, op)) == Weight(op)
  {
    if op.Kernel? {
      var xs := op.operands;
      assert forall i | 0 <= i < |xs| :: ApplyAll(m, xs)[i].nonValue == xs[i].nonValue;
      assert (forall x <- xs :: !x.nonValue) <==> forall i | 0 <= i < |xs| :: !xs[i].nonValue;
      assert (forall x <- ApplyAll(m, xs) :: !x.nonValue) <==> forall i | 0 <= i < |xs| :: !ApplyAll(m, xs)[i].nonValue;
    }
  }

  lemma {:induction false} CopiesAreLegal(xs: seq<Var>, n: nat)
    ensures TotalWeight(OperandCopies(xs, n)) == 0 && TotalWeight(ResultCopies(xs, n)) == 0
    ensures forall v <- Immutable(xs, n) :: !v.nonValue
  {
    if xs != [] {
      CopiesAreLegal(xs[1..], n + 1);
      WeightAppend(if xs[0].nonValue then [CopyToValue(Var(n, false), xs[0])] else [], OperandCopies(xs[1..], n + 1));
      WeightAppend(if xs[0].nonValue then [CopyToNonValue(xs[0], Var(n, false))] else [], ResultCopies(xs[1..], n + 1));
    }
  }

  lemma ReplaceIsLighter(op: Op, n: nat)
    requires !Legal(op) && WellTypedOp(op)
    ensures TotalWeight(Replace(op, n).ops) < Weight(op)
    ensures KindPreserving(Replace(op, n).renaming)
  {
    match op
    case Kernel(rs, name, xs) => ConvertIsLegal(rs, name, xs, n);
    case InPlace(r, name, xs) => WeightOfThree(Replace(op, n).ops);
    case NonValueLiteral(_, _) => WeightOfTwo(Replace(op, n).ops);
  }

  lemma ConvertIsLegal(rs: seq<Var>, name: OpName, xs: seq<Var>, n: nat)
    ensures TotalWeight(ConvertToImmutable(Kernel(rs, name, xs), n).ops) == 0
  {
    var before, after := OperandCopies(xs, n), ResultCopies(rs, n + |xs|);
    var kernel := Kernel(Immutable(rs, n + |xs|), name, Immutable(xs, n));
    CopiesAreLegal(xs, n);
    CopiesAreLegal(rs, n + |xs|);
    LegalKernel(kernel);
    WeightAppend(before + [kernel], after);
    WeightAppend(before, [kernel]);
    assert ConvertToImmutable(Kernel(rs, name, xs), n).ops == before + [kernel] + after;
  }

  lemma LegalKernel(kernel: Op)
    requires kernel.Kernel? && forall x <- kernel.operands :: !x.nonValue
    requires forall r <- kernel.results :: !r.nonValue
    ensures TotalWeight([kernel]) == 0
  {
    assert [kernel][1..] == [];
  }

  lemma WeightOfTwo(ops: seq<Op>)
    requires |ops| == 2
    ensures TotalWeight(ops) == Weight(ops[0]) + Weight(ops[1])
  {
    var tail := ops[1..];
    assert tail[1..] == [];
    assert TotalWeight(tail) == Weight(tail[0]) + TotalWeight(tail[1..]);
  }

  lemma WeightOfThree(ops: seq<Op>)
    requires |ops| == 3
    ensures TotalWeight(ops) == Weight(ops[0]) + Weight(ops[1]) + Weight(ops[2])
  {
    WeightOfTwo(ops[1..]);
  }

  /** Every application of a pattern strictly lowers the weight of the block. */
  lemma RewriteIsLighter(b: Block, i: nat)
    requires i < |b.ops| && !Legal(b.ops[i]) && WellTypedOp(b.ops[i])
    ensures TotalWeight(RewriteAt(b, i).ops) < TotalWeight(b.ops)
  {
    var r := Replace(b.ops[i], b.nextId);
    var post := b.ops[i + 1..];
    ReplaceIsLighter(b.ops[i], b.nextId);
    WeightRename(r.renaming, post);
    WeightAppend(b.ops[..i] + r.ops, RenameAll(r.renaming, post));
    WeightAppend(b.ops[..i], r.ops);
    assert b.ops == b.ops[..i] + ([b.ops[i]] + post);
    WeightAppend(b.ops[..i], [b.ops[i]] + post);
  }

  // ---- The ops of the block stay, in order, the in-place ones under their stem ----

  /** The named ops. */
  function Calls(ops: seq<Op>): seq<Op> {
    if ops == [] then [] else Call(ops[0]) + Calls(ops[1..])
  }

  function Call(op: Op): seq<Op> {
    if op.Kernel? || op.InPlace? || op.Other? then [op] else []
  }

  /** The op itself as far as its name goes, or the pure variant of an in-place op. */
  predicate Continues(before: Op, after: Op) {
    match (before, after)
    case (Kernel(rs, name, xs), Kernel(rs', name', xs')) => name' == name && |rs'| == |rs| && |xs'| == |xs|
    case (Other(rs, name, xs), Other(rs', name', xs')) => name' == name && |rs'| == |rs| && |xs'| == |xs|
    case (InPlace(_, name, xs), InPlace(_, name', xs')) => name' == name && |xs'| == |xs|
    case (InPlace(_, name, xs), Kernel(rs', name', xs')) =>
      |name'| >= 3 && name == name'[2 := name'[2] + "_"] && |rs'| == 1 && |xs'| == |xs|
    case _ => false
  }

  ghost predicate AllContinue(before: seq<Op>, after: seq<Op>) {
    |before| == |after| && forall i | 0 <= i < |before| :: Continues(before[i], after[i])
  }

  lemma {:induction false} CallsAppend(a: seq<Op>, b: seq<Op>)
    ensures Calls(a + b) == Calls(a) + Calls(b)
  {
    if a == [] {
      assert a + b == b;
    } else {
      var all := a + b;
      assert all[0] == a[0] && all[1..] == a[1..] + b;
      CallsAppend(a[1..], b);
      assert Calls(all) == Call(a[0]) + Calls(all[1..]) && Calls(a) == Call(a[0]) + Calls(a[1..]);
    }
  }

  lemma {:induction false} CallsRenamed(m: Renaming, ops: seq<Op>)
    ensures AllContinue(Calls(ops), Calls(RenameAll(m, ops)))
  {
    if ops != [] {
      assert RenameAll(m, ops)[1..] == RenameAll(m, ops[1..]);
      CallsRenamed(m, ops[1..]);
    }
  }

  lemma {:induction false} CopiesAreNoCalls(xs: seq<Var>, n: nat)
    ensures Calls(OperandCopies(xs, n)) == [] && Calls(ResultCopies(xs, n)) == []
  {
    if xs != [] {
      CopiesAreNoCalls(xs[1..], n + 1);
      CallsAppend(if xs[0].nonValue then [CopyToValue(Var(n, false), xs[0])] else [], OperandCopies(xs[1..], n + 1));
      CallsAppend(if xs[0].nonValue then [CopyToNonValue(xs[0], Var(n, false))] else [], ResultCopies(xs[1..], n + 1));
    }
  }

  lemma CallOfOne(op: Op)
    ensures Calls([op]) == Call(op)
  {
    assert [op][1..] == [];
  }

  lemma CallsReplaced(op: Op, n: nat)
    requires !Legal(op) && WellTypedOp(op)
    ensures AllContinue(Calls([op]), Calls(Replace(op, n).ops))
  {
    var ops := Replace(op, n).ops;
    CallOfOne(op);
    match op
    case Kernel(_, _, _) =>
      CallsConverted(op, n);
    case InPlace(_, name, _) =>
      var pure := NoUnderscore(name);
      assert name == pure[2 := pure[2] + "_"];
      CallsOfFirst(ops);
    case NonValueLiteral(_, _) =>
      assert ops == [ops[0]] + [ops[1]];
      CallsAppend([ops[0]], [ops[1]]);
      CallOfOne(ops[0]);
      CallOfOne(ops[1]);
  }

  lemma CallsConverted(op: Op, n: nat)
    requires op.Kernel?
    ensures AllContinue([op], Calls(ConvertToImmutable(op, n).ops))
  {
    var xs, rs, n' := op.operands, op.results, n + |op.operands|;
    var kernel := Kernel(Immutable(rs, n'), op.name, Immutable(xs, n));
    CopiesAreNoCalls(xs, n);
    CopiesAreNoCalls(rs, n');
    CallOfOne(kernel);
    CallsAppend(OperandCopies(xs, n) + [kernel], ResultCopies(rs, n'));
    CallsAppend(OperandCopies(xs, n), [kernel]);
  }

  lemma CallsOfFirst(ops: seq<Op>)
    requires |ops| == 3 && ops[0].Kernel? && ops[1].CopyToValue? && ops[2].Overwrite?
    ensures Calls(ops) == [ops[0]]
  {
    assert ops == [ops[0]] + ([ops[1]] + [ops[2]]);
    CallsAppend([ops[0]], [ops[1]] + [ops[2]]);
    CallsAppend([ops[1]], [ops[2]]);
    CallOfOne(ops[0]);
    CallOfOne(ops[1]);
    CallOfOne(ops[2]);
  }

  /** A rewrite keeps all named ops in their order. */
  lemma RewriteKeepsCalls(b: Block, i: nat)
    requires i < |b.ops| && !Legal(b.ops[i]) && WellTypedOp(b.ops[i])
    ensures AllContinue(Calls(b.ops), Calls(RewriteAt(b, i).ops))
  {
    var r, pre, post := Replace(b.ops[i], b.nextId), b.ops[..i], b.ops[i + 1..];
    CallsReplaced(b.ops[i], b.nextId);
    CallsRenamed(r.renaming, post);
    assert b.ops == pre + ([b.ops[i]] + post);
    CallsAppend(pre, [b.ops[i]] + post);
    CallsAppend([b.ops[i]], post);
    CallsAppend(pre + r.ops, RenameAll(r.renaming, post));
    CallsAppend(pre, r.ops);
    CallsContinue(pre);
  }

  lemma {:induction false} CallsContinue(ops: seq<Op>)
    ensures AllContinue(Calls(ops), Calls(ops))
  {
    if ops != [] { CallsContinue(ops[1..]); }
  }

  lemma ContinueTransitive(a: seq<Op>, b: seq<Op>, c: seq<Op>)
    requires AllContinue(a, b) && AllContinue(b, c)
    ensures AllContinue(a, c)
  {
    forall i | 0 <= i < |a| ensures Continues(a[i], c[i]) { assert Continues(a[i], b[i]) && Continues(b[i], c[i]); }
  }

  // ---- SSA form is kept ----

  ghost predicate Fresh(ids: set<nat>, lo: nat, hi: nat) {
    forall i <- ids :: lo <= i < hi
  }

  lemma {:induction false} RenameSsa(m: Renaming, ops: seq<Op>)
    requires Ssa(ops) && KindPreserving(m)
    requires forall v <- m :: m[v].id !in DefIds(ops)
    ensures Ssa(RenameAll(m, ops)) && DefIds(RenameAll(m, ops)) == DefIds(ops)
    ensures forall i <- UseIds(RenameAll(m, ops)) :: i in UseIds(ops) || exists v <- m :: m[v].id == i
  {
    if ops != [] {
      assert RenameAll(m, ops)[1..] == RenameAll(m, ops[1..]);
      RenameSsa(m, ops[1..]);
      RenameOp(m, ops[0]);
    }
  }

  lemma RenameOp(m: Renaming, op: Op)
    requires WellTypedOp(op) && KindPreserving(m)
    ensures WellTypedOp(Rename(m, op)) && Results(Rename(m, op)) == Results(op)
    ensures forall i <- Ids(Uses(Rename(m, op))) :: i in Ids(Uses(op)) || exists v <- m :: m[v].id == i
  {
    assert Uses(Rename(m, op)) == ApplyAll(m, Uses(op));
    forall i <- Ids(Uses(Rename(m, op))) ensures i in Ids(Uses(op)) || exists v <- m :: m[v].id == i {
      var k :| 0 <= k < |Uses(op)| && Apply(m, Uses(op)[k]).id == i;
      assert Uses(op)[k].id in Ids(Uses(op));
    }
  }

  /** A replacement defines what the op defined, uses what it used, and otherwise fresh ids. */
  ghost predicate FitsInto(r: Replacement, op: Op, n: nat) {
    && Ssa(r.ops) && n <= r.nextId && KindPreserving(r.renaming)
    && (forall i <- DefIds(r.ops) :: i in Ids(Results(op)) || n <= i < r.nextId)
    && (forall i <- UseIds(r.ops) :: i in Ids(Uses(op)) || n <= i < r.nextId)
    && (forall v <- r.renaming :: v.id in Ids(Results(op)) && r.renaming[v].id in Ids(Uses(op)))
  }

  lemma RewriteKeepsSsa(b: Block, i: nat)
    requires WellFormed(b) && i < |b.ops| && !Legal(b.ops[i]) && WellTypedOp(b.ops[i])
    ensures WellFormed(RewriteAt(b, i))
  {
    var op, pre, post := b.ops[i], b.ops[..i], b.ops[i + 1..];
    var r := Replace(op, b.nextId);
    SplitAt(b.ops, i);
    BelowAt(b.ops, i, b.nextId);
    ReplaceFits(op, b.nextId);
    BelowParts(b.ops, i, b.nextId);
    ReplacementSsa(pre, op, post, r, b.nextId);
  }

  lemma ReplacementSsa(pre: seq<Op>, op: Op, post: seq<Op>, r: Replacement, n: nat)
    requires Ssa(pre) && Ssa(post) && Below(pre, n) && Below(post, n) && FitsInto(r, op, n)
    requires AllBelow(Uses(op), n) && AllBelow(Results(op), n)
    requires DefIds(pre) + UseIds(pre) !! Ids(Results(op))
    requires DefIds(pre) + UseIds(pre) !! DefIds(post)
    requires Ids(Uses(op)) + Ids(Results(op)) !! DefIds(post)
    ensures Ssa(pre + r.ops + RenameAll(r.renaming, post))
    ensures Below(pre + r.ops + RenameAll(r.renaming, post), r.nextId)
  {
    var tail := RenameAll(r.renaming, post);
    RenameSsa(r.renaming, post);
    Assemble(pre, r.ops, tail);
    forall k <- DefIds(pre) + UseIds(pre) ensures k !in DefIds(r.ops) { assert k < n; }
    forall k <- DefIds(r.ops) + UseIds(r.ops) ensures k !in DefIds(post) {
      if k in DefIds(post) { assert k in DefIds(post) + UseIds(post); }
    }
    forall k <- DefIds(pre + r.ops + tail) + UseIds(pre + r.ops + tail) ensures k < r.nextId {
      if k in DefIds(pre) + UseIds(pre) {
      } else if k in DefIds(post) + UseIds(post) {
      }
    }
  }

  lemma {:induction false} OperandCopiesSsa(xs: seq<Var>, n: nat)
    requires forall x <- xs :: x.id < n
    ensures Ssa(OperandCopies(xs, n)) && Fresh(DefIds(OperandCopies(xs, n)), n, n + |xs|)
    ensures UseIds(OperandCopies(xs, n)) <= Ids(xs)
    ensures forall v <- Immutable(xs, n) :: v in xs || n <= v.id < n + |xs|
  {
    if xs != [] {
      OperandCopiesSsa(xs[1..], n + 1);
      var first, rest := FirstCopy(xs[0], n), OperandCopies(xs[1..], n + 1);
      FirstCopySsa(xs[0], n);
      assert xs[0].id in Ids(xs) && Ids(xs[1..]) <= Ids(xs);
      CopiesApart(DefIds(first), UseIds(first), DefIds(rest), UseIds(rest), Ids(xs), n, n + |xs|);
      SsaAppend(first, rest);
      IdsAppend(first, rest);
    }
  }

  function FirstCopy(x: Var, n: nat): seq<Op> {
    if x.nonValue then [CopyToValue(Var(n, false), x)] else []
  }

  lemma FirstCopySsa(x: Var, n: nat)
    requires x.id < n
    ensures Ssa(FirstCopy(x, n)) && DefIds(FirstCopy(x, n)) <= {n} && UseIds(FirstCopy(x, n)) <= {x.id}
  {
    if x.nonValue { SingleIds(FirstCopy(x, n)[0]); }
  }

  lemma CopiesApart(d1: set<nat>, u1: set<nat>, d2: set<nat>, u2: set<nat>, xs: set<nat>, n: nat, hi: nat)
    requires n < hi && d1 <= {n} && u1 <= xs && Fresh(d2, n + 1, hi) && u2 <= xs && forall i <- xs :: i < n
    ensures Fresh(d1 + d2, n, hi) && u1 + u2 <= xs && d1 + u1 !! d2
  {
  }

  lemma {:induction false} ImmutableAt(rs: seq<Var>, n: nat, k: nat)
    requires k < |rs|
    ensures Immutable(rs, n)[k] == if rs[k].nonValue then Var(n + k, false) else rs[k]
  {
    if k > 0 { ImmutableAt(rs[1..], n + 1, k - 1); }
  }

  lemma ImmutableDistinct(rs: seq<Var>, n: nat)
    requires Distinct(rs) && AllBelow(rs, n)
    ensures Distinct(Immutable(rs, n))
  {
    forall i, j | 0 <= i < j < |rs| ensures Immutable(rs, n)[i].id != Immutable(rs, n)[j].id {
      ImmutableAt(rs, n, i);
      ImmutableAt(rs, n, j);
    }
  }

  /** The ids of the mutable values among `rs`. */
  function MutableIds(rs: seq<Var>): set<nat> {
    set r | r in rs && r.nonValue :: r.id
  }

  lemma {:induction false} ResultCopiesIds(rs: seq<Var>, n: nat)
    ensures DefIds(ResultCopies(rs, n)) == MutableIds(rs)
    ensures Fresh(UseIds(ResultCopies(rs, n)), n, n + |rs|)
  {
    if rs != [] {
      ResultCopiesIds(rs[1..], n + 1);
      var first: seq<Op> := if rs[0].nonValue then [CopyToNonValue(rs[0], Var(n, false))] else [];
      IdsAppend(first, ResultCopies(rs[1..], n + 1));
      assert rs == [rs[0]] + rs[1..];
      if rs[0].nonValue {
        assert first[1..] == [];
        assert Ids(Uses(first[0])) == {n} && Ids(Results(first[0])) == {rs[0].id};
      }
    }
  }

  lemma {:induction false} ResultCopiesSsa(rs: seq<Var>, n: nat)
    requires Distinct(rs) && AllBelow(rs, n)
    ensures Ssa(ResultCopies(rs, n))
  {
    if rs != [] {
      var rest := ResultCopies(rs[1..], n + 1);
      forall k | 0 <= k < |rs[1..]| ensures rs[1..][k].id != rs[0].id { assert rs[1..][k] == rs[k + 1]; }
      ResultCopiesSsa(rs[1..], n + 1);
      ResultCopiesIds(rs[1..], n + 1);
      PrependResultCopy(rs[0], rest, n);
    }
  }

  lemma PrependResultCopy(r: Var, rest: seq<Op>, n: nat)
    requires Ssa(rest) && r.id < n && r.id !in DefIds(rest) && forall i <- DefIds(rest) :: i < n
    ensures Ssa((if r.nonValue then [CopyToNonValue(r, Var(n, false))] else []) + rest)
  {
    if r.nonValue {
      var first := CopyToNonValue(r, Var(n, false));
      SingleIds(first);
      SsaAppend([first], rest);
    } else {
      assert [] + rest == rest;
    }
  }

  lemma ReplaceFits(op: Op, n: nat)
    requires !Legal(op) && WellTypedOp(op) && Distinct(Results(op)) && Ids(Uses(op)) !! Ids(Results(op))
    requires AllBelow(Uses(op), n) && AllBelow(Results(op), n)
    ensures FitsInto(Replace(op, n), op, n)
  {
    match op
    case Kernel(rs, name, xs) => ConvertFits(op, n);
    case InPlace(r, name, xs) => InPlaceFits(op, n);
    case NonValueLiteral(r, literal) =>
      var ops := Replace(op, n).ops;
      assert ops == [ops[0]] + [ops[1]];
      SingleIds(ops[0]);
      SingleIds(ops[1]);
      SsaAppend([ops[0]], [ops[1]]);
      IdsAppend([ops[0]], [ops[1]]);
      assert DefIds([ops[0]]) == {n} && DefIds([ops[1]]) == {r.id} && UseIds([ops[1]]) == {n} && UseIds([ops[0]]) == {};
      assert r.id in Ids(Results(op));
  }

  lemma InPlaceFits(op: Op, n: nat)
    requires op.InPlace? && WellTypedOp(op) && Ids(Uses(op)) !! Ids(Results(op))
    requires AllBelow(Uses(op), n) && AllBelow(Results(op), n)
    ensures FitsInto(ReduceInPlace(op, n), op, n)
  {
    var ops := ReduceInPlace(op, n).ops;
    var a, b, c := [ops[0]], [ops[1]], [ops[2]];
    assert ops == a + b + c;
    SingleIds(ops[0]);
    SingleIds(ops[1]);
    SingleIds(ops[2]);
    Assemble(a, b, c);
    assert DefIds(a) == {n} && DefIds(b) == {n + 1} && DefIds(c) == {};
    assert UseIds(b) == {n} && UseIds(c) == {n + 1, op.operands[0].id} && UseIds(a) == Ids(op.operands);
    assert op.operands[0].id in Ids(op.operands) && op.result.id in Ids(Results(op));
  }

  lemma ConvertFits(op: Op, n: nat)
    requires op.Kernel? && Distinct(op.results) && Ids(op.operands) !! Ids(op.results)
    requires AllBelow(op.operands, n) && AllBelow(op.results, n)
    ensures FitsInto(ConvertToImmutable(op, n), op, n)
  {
    var xs, rs, n' := op.operands, op.results, n + |op.operands|;
    OperandCopiesSsa(xs, n);
    ResultCopiesSsa(rs, n');
    ResultCopiesIds(rs, n');
    KernelIds(op, n);
    MutablesAreResults(rs);
    IdsBelow(xs, n);
    IdsBelow(rs, n);
    AssembleConverted(ConvertToImmutable(op, n).ops, OperandCopies(xs, n),
                      Kernel(Immutable(rs, n'), op.name, Immutable(xs, n)), ResultCopies(rs, n'), xs, rs, n, n',
                      n' + |rs|);
  }

  lemma AssembleConverted(ops: seq<Op>, before: seq<Op>, kernel: Op, after: seq<Op>, xs: seq<Var>, rs: seq<Var>,
                          n: nat, n1: nat, n2: nat)
    requires ops == before + [kernel] + after
    requires n <= n1 <= n2 && Ids(xs) !! Ids(rs) && MutableIds(rs) <= Ids(rs)
    requires (forall i <- Ids(xs) :: i < n) && (forall i <- Ids(rs) :: i < n)
    requires Ssa(before) && Fresh(DefIds(before), n, n1) && UseIds(before) <= Ids(xs)
    requires WellTypedOp(kernel) && Distinct(Results(kernel))
    requires forall i <- Ids(Uses(kernel)) :: i in Ids(xs) || n <= i < n1
    requires forall i <- Ids(Results(kernel)) :: (i < n && i in Ids(rs) && i !in MutableIds(rs)) || n1 <= i < n2
    requires Ssa(after) && DefIds(after) == MutableIds(rs) && Fresh(UseIds(after), n1, n2)
    ensures Ssa(ops) && (forall i <- DefIds(ops) :: i in Ids(rs) || n <= i < n2) &&
            forall i <- UseIds(ops) :: i in Ids(xs) || n <= i < n2
  {
    SingleIds(kernel);
    ConvertIdsApart(Ids(xs), Ids(rs), MutableIds(rs), DefIds(before), UseIds(before), DefIds([kernel]),
                    UseIds([kernel]), UseIds(after), n, n1, n2);
    Assemble(before, [kernel], after);
  }

  lemma MutablesAreResults(rs: seq<Var>)
    ensures MutableIds(rs) <= Ids(rs)
  {
  }

  lemma IdsBelow(vs: seq<Var>, n: nat)
    requires AllBelow(vs, n)
    ensures forall i <- Ids(vs) :: i < n
  {
  }

  /** The three groups of ops define different ids, and none defines what an earlier one uses. */
  lemma ConvertIdsApart(xs: set<nat>, rs: set<nat>, mutables: set<nat>, d1: set<nat>, u1: set<nat>, d2: set<nat>,
                        u2: set<nat>, u3: set<nat>, n: nat, n1: nat, n2: nat)
    requires n <= n1 <= n2 && xs !! rs && mutables <= rs && u1 <= xs
    requires (forall i <- xs :: i < n) && (forall i <- rs :: i < n)
    requires Fresh(d1, n, n1) && forall i <- u2 :: i in xs || n <= i < n1
    requires forall i <- d2 :: (i < n && i in rs && i !in mutables) || n1 <= i < n2
    requires Fresh(u3, n1, n2)
    ensures forall i <- d1 + d2 + mutables :: i in rs || n <= i < n2
    ensures forall i <- u1 + u2 + u3 :: i in xs || n <= i < n2
    ensures u2 !! d2 && d1 + u1 !! d2 && d1 + u1 !! mutables && d2 + u2 !! mutables
  {
  }

  /** Where the ids of the converted op come from. */
  lemma KernelIds(op: Op, n: nat)
    requires op.Kernel? && Distinct(op.results) && AllBelow(op.operands, n) && AllBelow(op.results, n)
    ensures var n' := n + |op.operands|;
            Distinct(Immutable(op.results, n')) &&
            (forall i <- Ids(Immutable(op.operands, n)) :: i in Ids(op.operands) || n <= i < n') &&
            (forall i <- Ids(Immutable(op.results, n')) ::
               (i < n && i in Ids(op.results) && i !in MutableIds(op.results)) || n' <= i < n' + |op.results|)
  {
    var n' := n + |op.operands|;
    ImmutableDistinct(op.results, n');
    forall i <- Ids(Immutable(op.operands, n)) ensures i in Ids(op.operands) || n <= i < n' {
      var k :| 0 <= k < |op.operands| && Immutable(op.operands, n)[k].id == i;
      ImmutableAt(op.operands, n, k);
      assert op.operands[k].id in Ids(op.operands);
    }
    forall i <- Ids(Immutable(op.results, n'))
      ensures (i < n && i in Ids(op.results) && i !in MutableIds(op.results)) || n' <= i < n' + |op.results|
    {
      var k :| 0 <= k < |op.results| && Immutable(op.results, n')[k].id == i;
      ImmutableAt(op.results, n', k);
      assert op.results[k].id in Ids(op.results);
      if !op.results[k].nonValue {
        forall j | 0 <= j < |op.results| && op.results[j].nonValue ensures op.results[j].id != i {
          assert j != k;
        }
      }
    }
  }

  // ---- Meaning is kept ----

  /** `r` is defined with the given contents. */
  ghost predicate Defined(s: State, r: Var, data: Data) {
    if r.nonValue then Lookup(s, r) == Ref(r.id, []) && r.id in s.heap && s.heap[r.id] == data
    else Lookup(s, r) == Value(data)
  }

  ghost predicate AllDefined(s: State, rs: seq<Var>, datas: seq<Data>)
    requires |rs| == |datas|
  {
    forall k | 0 <= k < |rs| :: Defined(s, rs[k], datas[k])
  }

  /** Only the values `rs`, and their cells, differ. */
  ghost predicate Frame(s: State, t: State, rs: set<Var>) {
    (forall v | v !in rs :: Lookup(t, v) == Lookup(s, v)) &&
    (forall c: nat | Var(c, true) !in rs :: SameCell(s, t, c))
  }

  lemma FrameTransitive(s: State, t: State, u: State, a: set<Var>, b: set<Var>)
    requires Frame(s, t, a) && Frame(t, u, b)
    ensures Frame(s, u, a + b)
  {
    forall c: nat | Var(c, true) !in a + b ensures SameCell(s, u, c) {
      assert SameCell(s, t, c) && SameCell(t, u, c);
    }
  }

  lemma BindFrame(s: State, r: Var, data: Data)
    ensures Defined(Bind(s, r, data), r, data) && Frame(s, Bind(s, r, data), {r})
  {
  }

  function VarSet(vs: seq<Var>): set<Var> {
    set v | v in vs
  }

  lemma {:induction false} BindAllEffect(s: State, rs: seq<Var>, datas: seq<Data>)
    requires |rs| == |datas| && Distinct(rs)
    ensures AllDefined(BindAll(s, rs, datas), rs, datas) && Frame(s, BindAll(s, rs, datas), VarSet(rs))
    decreases |rs|
  {
    if rs != [] {
      var s' := Bind(s, rs[0], datas[0]);
      BindFrame(s, rs[0], datas[0]);
      BindAllEffect(s', rs[1..], datas[1..]);
      DefinedBeforeRest(s', BindAll(s, rs, datas), rs, datas);
      FrameTransitive(s, s', BindAll(s, rs, datas), {rs[0]}, VarSet(rs[1..]));
      assert VarSet(rs) == {rs[0]} + VarSet(rs[1..]) by { assert rs == [rs[0]] + rs[1..]; }
    }
  }

  /** Defining the other results does not disturb the first. */
  lemma DefinedBeforeRest(s: State, t: State, rs: seq<Var>, datas: seq<Data>)
    requires |rs| == |datas| > 0 && Distinct(rs)
    requires Defined(s, rs[0], datas[0]) && Frame(s, t, VarSet(rs[1..])) && AllDefined(t, rs[1..], datas[1..])
    ensures AllDefined(t, rs, datas)
  {
    forall k | 0 <= k < |rs[1..]| ensures rs[1..][k].id != rs[0].id { assert rs[1..][k] == rs[k + 1]; }
    assert rs[0] !in VarSet(rs[1..]) && Var(rs[0].id, true) !in VarSet(rs[1..]);
    assert SameCell(s, t, rs[0].id);
    forall k | 0 <= k < |rs| ensures Defined(t, rs[k], datas[k]) {
      if k > 0 { assert rs[k] == rs[1..][k - 1] && datas[k] == datas[1..][k - 1]; }
    }
  }

  lemma {:induction false} OperandCopiesEffect(sem: Semantics, xs: seq<Var>, n: nat, s: State, bound: nat)
    requires bound <= n && (forall x <- xs :: x.id < bound) && Clean(s, bound, {})
    ensures var t := Exec(sem, OperandCopies(xs, n), s);
            t.heap == s.heap && (forall v: Var :: !(n <= v.id < n + |xs|) ==> Lookup(t, v) == Lookup(s, v)) &&
            ReadAll(sem, t, Immutable(xs, n)) == ReadAll(sem, s, xs)
  {
    if xs != [] {
      var first: seq<Op> := if xs[0].nonValue then [CopyToValue(Var(n, false), xs[0])] else [];
      var rest := OperandCopies(xs[1..], n + 1);
      ExecAppend(sem, first, rest, s);
      var s' := Exec(sem, first, s);
      if xs[0].nonValue { assert first[1..] == []; }
      assert forall v: Var :: v.id != n ==> Lookup(s', v) == Lookup(s, v);
      OperandCopiesEffect(sem, xs[1..], n + 1, s', bound);
      CopiedOperandsRead(sem, xs, n, s, s', Exec(sem, OperandCopies(xs, n), s));
    }
  }

  lemma CopiedOperandsRead(sem: Semantics, xs: seq<Var>, n: nat, s: State, s': State, t: State)
    requires xs != [] && (forall x <- xs :: x.id < n) && s'.heap == s.heap == t.heap
    requires forall v: Var :: v.id != n ==> Lookup(s', v) == Lookup(s, v)
    requires forall v: Var :: !(n < v.id < n + |xs|) ==> Lookup(t, v) == Lookup(s', v)
    requires xs[0].nonValue ==> Lookup(s', Var(n, false)) == Value(Read(sem, s, xs[0]))
    requires ReadAll(sem, t, Immutable(xs[1..], n + 1)) == ReadAll(sem, s', xs[1..])
    ensures ReadAll(sem, t, Immutable(xs, n)) == ReadAll(sem, s, xs)
  {
    forall k | 0 <= k < |xs| ensures ReadAll(sem, t, Immutable(xs, n))[k] == ReadAll(sem, s, xs)[k] {
      assert xs[k] in xs;
      if k > 0 {
        assert ReadAll(sem, t, Immutable(xs[1..], n + 1))[k - 1] == ReadAll(sem, s', xs[1..])[k - 1];
        assert xs[1..][k - 1] == xs[k];
      }
    }
  }

  function Mutables(rs: seq<Var>): set<Var> {
    set r | r in rs && r.nonValue
  }

  /** The mutable results are defined. */
  ghost predicate MutablesDefined(s: State, rs: seq<Var>, datas: seq<Data>)
    requires |rs| == |datas|
  {
    forall k | 0 <= k < |rs| && rs[k].nonValue :: Defined(s, rs[k], datas[k])
  }

  /** The fresh value tensors hold the results that were mutable. */
  ghost predicate TemporariesHold(s: State, rs: seq<Var>, n: nat, datas: seq<Data>)
    requires |rs| == |datas|
  {
    forall k | 0 <= k < |rs| && rs[k].nonValue :: Lookup(s, Var(n + k, false)) == Value(datas[k])
  }

  lemma {:induction false} ResultCopiesEffect(sem: Semantics, rs: seq<Var>, n: nat, s: State, datas: seq<Data>)
    requires |rs| == |datas| && Distinct(rs) && TemporariesHold(s, rs, n, datas)
    ensures MutablesDefined(Exec(sem, ResultCopies(rs, n), s), rs, datas)
    ensures Frame(s, Exec(sem, ResultCopies(rs, n), s), Mutables(rs))
    decreases |rs|
  {
    if rs != [] {
      var rest, tail, datas' := ResultCopies(rs[1..], n + 1), rs[1..], datas[1..];
      var s' := if rs[0].nonValue then Bind(s, rs[0], datas[0]) else s;
      assert Exec(sem, ResultCopies(rs, n), s) == Exec(sem, rest, s') by {
        if rs[0].nonValue {
          var first := CopyToNonValue(rs[0], Var(n, false));
          assert Lookup(s, Var(n + 0, false)) == Value(datas[0]);
          SingleExec(sem, first, s);
          ExecAppend(sem, [first], rest, s);
        } else {
          assert [] + rest == rest;
        }
      }
      BindFrame(s, rs[0], datas[0]);
      assert TemporariesHold(s', tail, n + 1, datas') by {
        forall k | 0 <= k < |tail| && tail[k].nonValue ensures Lookup(s', Var(n + 1 + k, false)) == Value(datas'[k]) {
          assert tail[k] == rs[k + 1];
          assert Lookup(s, Var(n + (k + 1), false)) == Value(datas[k + 1]);
        }
      }
      ResultCopiesEffect(sem, tail, n + 1, s', datas');
      var t := Exec(sem, rest, s');
      MutablesBeforeRest(s', t, rs, datas);
      var head := if rs[0].nonValue then {rs[0]} else {};
      FrameTransitive(s, s', t, head, Mutables(tail));
      assert Mutables(rs) == head + Mutables(tail) by { assert rs == [rs[0]] + rs[1..]; }
    }
  }

  lemma MutablesBeforeRest(s: State, t: State, rs: seq<Var>, datas: seq<Data>)
    requires |rs| == |datas| > 0 && Distinct(rs)
    requires rs[0].nonValue ==> Defined(s, rs[0], datas[0])
    requires Frame(s, t, Mutables(rs[1..])) && MutablesDefined(t, rs[1..], datas[1..])
    ensures MutablesDefined(t, rs, datas)
  {
    forall k | 0 <= k < |rs[1..]| ensures rs[1..][k].id != rs[0].id { assert rs[1..][k] == rs[k + 1]; }
    assert rs[0] !in Mutables(rs[1..]) && Var(rs[0].id, true) !in Mutables(rs[1..]);
    assert SameCell(s, t, rs[0].id);
    forall k | 0 <= k < |rs| && rs[k].nonValue ensures Defined(t, rs[k], datas[k]) {
      if k > 0 { assert rs[k] == rs[1..][k - 1] && datas[k] == datas[1..][k - 1]; }
    }
  }

  lemma DefinedTemporaries(s: State, rs: seq<Var>, n: nat, datas: seq<Data>)
    requires |rs| == |datas| && AllDefined(s, Immutable(rs, n), datas)
    ensures TemporariesHold(s, rs, n, datas)
  {
    forall k | 0 <= k < |rs| && rs[k].nonValue ensures Lookup(s, Var(n + k, false)) == Value(datas[k]) {
      ImmutableAt(rs, n, k);
      assert Defined(s, Immutable(rs, n)[k], datas[k]);
    }
  }

  /** Copying operands to values and results back leaves every named value and cell as it was. */
  lemma ConvertIsSound(sem: Semantics, op: Op, n: nat, s: State)
    requires op.Kernel? && Distinct(op.results) && Clean(s, n, {})
    requires AllBelow(op.operands, n) && AllBelow(op.results, n)
    ensures Rel(Step(sem, op, s), Exec(sem, ConvertToImmutable(op, n).ops, s), map[], n, {})
  {
    var rs, xs, n' := op.results, op.operands, n + |op.operands|;
    var rs' := Immutable(rs, n');
    var kernel := Kernel(rs', op.name, Immutable(xs, n));
    var datas := Outputs(sem.kernel, op.name, ReadAll(sem, s, xs), |rs|);
    var s1 := Exec(sem, OperandCopies(xs, n), s);
    var s2 := BindAll(s1, rs', datas);
    var s3 := Exec(sem, ResultCopies(rs, n'), s2);
    assert Exec(sem, ConvertToImmutable(op, n).ops, s) == s3 by {
      ExecThree(sem, OperandCopies(xs, n), [kernel], ResultCopies(rs, n'), s);
      SingleExec(sem, kernel, s1);
      OperandCopiesEffect(sem, xs, n, s, n);
      assert Step(sem, kernel, s1) == s2;
    }
    OperandCopiesEffect(sem, xs, n, s, n);
    ImmutableDistinct(rs, n');
    BindAllEffect(s1, rs', datas);
    DefinedTemporaries(s2, rs, n', datas);
    ResultCopiesEffect(sem, rs, n', s2, datas);
    BindAllEffect(s, rs, datas);
    assert s1.heap == s.heap;
    SameResults(s, s1, s2, s3, BindAll(s, rs, datas), rs, n, n', datas);
  }

  /** Both ways of defining the results give the same named values and cells. */
  lemma SameResults(s: State, s1: State, s2: State, s3: State, t: State, rs: seq<Var>, n: nat, n': nat,
                    datas: seq<Data>)
    requires |rs| == |datas| && Distinct(rs) && AllBelow(rs, n) && n <= n' && Clean(s, n, {})
    requires s1.heap == s.heap && forall v: Var | v.id < n :: Lookup(s1, v) == Lookup(s, v)
    requires AllDefined(s2, Immutable(rs, n'), datas) && Frame(s1, s2, VarSet(Immutable(rs, n')))
    requires MutablesDefined(s3, rs, datas) && Frame(s2, s3, Mutables(rs))
    requires AllDefined(t, rs, datas) && Frame(s, t, VarSet(rs))
    ensures Rel(t, s3, map[], n, {})
  {
    forall v | Alive(v, n, {}) ensures Lookup(t, v) == Lookup(s3, v) && Refers(Lookup(t, v), n, {}) {
      if v in rs {
        var k :| 0 <= k < |rs| && rs[k] == v;
        assert Defined(t, rs[k], datas[k]);
        ImmutableAt(rs, n', k);
        assert Defined(s2, Immutable(rs, n')[k], datas[k]);
        if v.nonValue { assert Defined(s3, rs[k], datas[k]); }
      } else {
        OnlyOldResults(rs, n', v);
        assert v !in VarSet(Immutable(rs, n'));
      }
    }
    forall c: nat | c < n ensures SameCell(t, s3, c) {
      if Var(c, true) in rs {
        var k :| 0 <= k < |rs| && rs[k] == Var(c, true);
        assert Defined(t, rs[k], datas[k]) && Defined(s3, rs[k], datas[k]);
      } else {
        OnlyOldResults(rs, n', Var(c, true));
        assert SameCell(s, t, c) && SameCell(s1, s2, c) && SameCell(s2, s3, c);
      }
    }
  }

  lemma OnlyOldResults(rs: seq<Var>, n: nat, v: Var)
    requires v.id < n && v !in rs
    ensures v !in Immutable(rs, n)
  {
    if v in Immutable(rs, n) {
      var k :| 0 <= k < |rs| && Immutable(rs, n)[k] == v;
      ImmutableAt(rs, n, k);
    }
  }

  lemma BindOne(s: State, r: Var, data: Data)
    ensures BindAll(s, [r], [data]) == Bind(s, r, data)
  {
    assert [r][1..] == [] && [data][1..] == [];
  }

  /** Computing the pure variant into a temporary and overwriting self is the in-place update. */
  lemma InPlaceIsSound(sem: Semantics, op: Op, n: nat, s: State)
    requires op.InPlace? && WellTypedOp(op) && Clean(s, n, {})
    requires AllBelow(op.operands, n) && op.result.id < n
    ensures Rel(Step(sem, op, s), Exec(sem, ReduceInPlace(op, n).ops, s), ReduceInPlace(op, n).renaming, n, {})
  {
    var r := ReduceInPlace(op, n);
    var ops, self := r.ops, op.operands[0];
    var data := sem.kernel(NoUnderscore(op.name), ReadAll(sem, s, op.operands), 0);
    var s1 := Step(sem, ops[0], s);
    var s2 := Step(sem, ops[1], s1);
    var s3 := Step(sem, ops[2], s2);
    assert ops == [ops[0]] + [ops[1]] + [ops[2]];
    ExecThree(sem, [ops[0]], [ops[1]], [ops[2]], s);
    SingleExec(sem, ops[0], s);
    SingleExec(sem, ops[1], s1);
    SingleExec(sem, ops[2], s2);
    var newResult := ops[0].results[0];
    BindOne(s, newResult, data);
    assert Outputs(sem.kernel, NoUnderscore(op.name), ReadAll(sem, s, op.operands), 1) == [data];
    assert s1 == Bind(s, newResult, data);
    assert s2 == Bind(s1, ops[1].result, data);
    assert s3 == Write(sem, s2, self, data);
    var t := Step(sem, op, s);
    forall v | Alive(v, n, {})
      ensures Lookup(t, v) == Lookup(s3, Apply(r.renaming, v)) && Refers(Lookup(t, v), n, {})
    {
      assert Lookup(s2, v) == Lookup(s, v) && Lookup(s2, self) == Lookup(s, self);
    }
    forall c: nat | c < n ensures SameCell(t, s3, c) {
      assert SameCell(s, s2, c);
      assert Lookup(s2, self) == Lookup(s, self);
    }
  }

  lemma ReplaceIsSound(sem: Semantics, op: Op, n: nat, s: State)
    requires !Legal(op) && WellTypedOp(op) && Distinct(Results(op)) && Clean(s, n, {})
    requires AllBelow(Uses(op), n) && AllBelow(Results(op), n)
    ensures Rel(Step(sem, op, s), Exec(sem, Replace(op, n).ops, s), Replace(op, n).renaming, n, {})
  {
    match op
    case Kernel(_, _, _) => ConvertIsSound(sem, op, n, s);
    case InPlace(_, _, _) => InPlaceIsSound(sem, op, n, s);
    case NonValueLiteral(r, data) =>
      var ops := Replace(op, n).ops;
      assert ops == [ops[0]] + [ops[1]];
      ExecAppend(sem, [ops[0]], [ops[1]], s);
      SingleExec(sem, ops[0], s);
      SingleExec(sem, ops[1], Step(sem, ops[0], s));
      var t, s2 := Step(sem, op, s), Exec(sem, ops, s);
      assert s2 == Bind(Bind(s, Var(n, false), data), r, data);
      forall c: nat | c < n ensures SameCell(t, s2, c) {}
  }

  lemma RunIsItself(sem: Semantics, ops: seq<Op>, n: nat, s: State)
    requires Below(ops, n) && Clean(s, n, {})
    ensures Rel(Exec(sem, ops, s), Exec(sem, ops, s), map[], n, {})
  {
    CleanIsRel(s, n, {});
    BelowIsAlive(ops, n, {});
    ExecRel(sem, ops, s, s, map[], n, {});
    assert RenameAll(map[], ops) == ops by {
      forall k | 0 <= k < |ops| ensures Rename(map[], ops[k]) == ops[k] { RenameNothing(ops[k]); }
    }
  }

  /** One application of a pattern, anywhere in a block, keeps every value and every cell. */
  lemma RewriteIsSound(sem: Semantics, b: Block, i: nat, s: State)
    requires WellFormed(b) && i < |b.ops| && !Legal(b.ops[i]) && WellTypedOp(b.ops[i])
    requires Clean(s, b.nextId, {})
    ensures Rel(Exec(sem, b.ops, s), Exec(sem, RewriteAt(b, i).ops, s),
                Replace(b.ops[i], b.nextId).renaming, b.nextId, {})
  {
    var n, op, pre, post := b.nextId, b.ops[i], b.ops[..i], b.ops[i + 1..];
    var r := Replace(op, n);
    SplitAt(b.ops, i);
    BelowAt(b.ops, i, n);
    BelowParts(b.ops, i, n);
    ReplaceFits(op, n);
    var s' := Exec(sem, pre, s);
    RunIsItself(sem, pre, n, s);
    ReplaceIsSound(sem, op, n, s');
    RestRefersToUses(r, op, post, n);
    BelowIsAlive(post, n, {});
    ExecRel(sem, post, Step(sem, op, s'), Exec(sem, r.ops, s'), r.renaming, n, {});
    ExecThree(sem, pre, r.ops, RenameAll(r.renaming, post), s);
    ExecAround(sem, b.ops, i, s);
  }

  lemma RestRefersToUses(r: Replacement, op: Op, post: seq<Op>, n: nat)
    requires FitsInto(r, op, n) && Ids(Uses(op)) + Ids(Results(op)) !! DefIds(post)
    ensures UntouchedIds(r.renaming, DefIds(post))
  {
    forall v <- r.renaming ensures v.id !in DefIds(post) && r.renaming[v].id !in DefIds(post) {
      assert v.id in Ids(Uses(op)) + Ids(Results(op)) && r.renaming[v].id in Ids(Uses(op)) + Ids(Results(op));
    }
  }

  lemma ExecAround(sem: Semantics, ops: seq<Op>, i: nat, s: State)
    requires i < |ops|
    ensures Exec(sem, ops, s) == Exec(sem, ops[i + 1..], Step(sem, ops[i], Exec(sem, ops[..i], s)))
  {
    ExecThree(sem, ops[..i], [ops[i]], ops[i + 1..], s);
    SingleExec(sem, ops[i], Exec(sem, ops[..i], s));
    assert ops == ops[..i] + [ops[i]] + ops[i + 1..];
  }

  lemma RenameNothing(op: Op)
    ensures Rename(map[], op) == op
  {
    assert forall vs: seq<Var> :: ApplyAll(map[], vs) == vs;
  }

  // ---- The pass ----

  /** A state that a block with ids below `n` can start from. */
  ghost predicate Initial(s: State, n: nat) {
    forall v <- s.env :: v.id < n && Refers(s.env[v], n, {})
  }

  /** From every initial state, both runs agree on every value and cell that `b` names, up to renaming. */
  ghost predicate Refines(b: Block, b': Block, m: Renaming) {
    b.nextId <= b'.nextId &&
    (forall v: Var :: v.id < b.nextId ==> Apply(m, v).id < b'.nextId) &&
    forall sem: Semantics, s: State | Initial(s, b.nextId) ::
      Rel(Exec(sem, b.ops, s), Exec(sem, b'.ops, s), m, b.nextId, {})
  }

  lemma InitialIsClean(s: State, n: nat, n': nat)
    requires Initial(s, n) && n <= n'
    ensures Initial(s, n') && Clean(s, n', {})
  {
  }

  lemma RefinesItself(b: Block)
    requires WellFormed(b)
    ensures Refines(b, b, map[])
  {
    forall sem: Semantics, s: State | Initial(s, b.nextId)
      ensures Rel(Exec(sem, b.ops, s), Exec(sem, b.ops, s), map[], b.nextId, {})
    {
      InitialIsClean(s, b.nextId, b.nextId);
      RunIsItself(sem, b.ops, b.nextId, s);
    }
  }

  lemma RefinesStep(b0: Block, b: Block, i: nat, m: Renaming)
    requires WellFormed(b) && i < |b.ops| && !Legal(b.ops[i]) && WellTypedOp(b.ops[i])
    requires Refines(b0, b, m)
    ensures Refines(b0, RewriteAt(b, i), Compose(m, Replace(b.ops[i], b.nextId).renaming))
  {
    var b', m' := RewriteAt(b, i), Replace(b.ops[i], b.nextId).renaming;
    SplitAt(b.ops, i);
    BelowAt(b.ops, i, b.nextId);
    ReplaceFits(b.ops[i], b.nextId);
    forall v: Var | v.id < b0.nextId ensures Apply(Compose(m, m'), v).id < b'.nextId {
      assert Apply(m, v).id < b.nextId;
    }
    forall sem: Semantics, s: State | Initial(s, b0.nextId)
      ensures Rel(Exec(sem, b0.ops, s), Exec(sem, b'.ops, s), Compose(m, m'), b0.nextId, {})
    {
      InitialIsClean(s, b0.nextId, b.nextId);
      RewriteIsSound(sem, b, i, s);
      var s1, s2, s3 := Exec(sem, b0.ops, s), Exec(sem, b.ops, s), Exec(sem, b'.ops, s);
      var none: set<nat> := {};
      assert none + none == none;
      RelCompose(s1, s2, s3, m, m', b0.nextId, b.nextId, none, none);
    }
  }

  /**
   The conversion: rewrites until every op is legal. It terminates, no value-semantic op is left
   that touches a mutable tensor, no in-place op and no mutable literal is left, and every run
   gives the original values, the original aliasing and the original cell contents.
   */
  method ReduceOpVariants(b0: Block) returns (b: Block, ghost m: Renaming)
    requires WellFormed(b0)
    ensures WellFormed(b) && forall op <- b.ops :: !op.InPlace? && !op.NonValueLiteral?
    ensures forall op <- b.ops | op.Kernel? :: forall v <- op.results + op.operands :: !v.nonValue
    ensures Refines(b0, b, m) && AllContinue(Calls(b0.ops), Calls(b.ops))
  {
    b, m := b0, map[];
    RefinesItself(b0);
    CallsContinue(b0.ops);
    var i := 0;
    while i < |b.ops|
      invariant 0 <= i <= |b.ops| && Reached(b0, b, m) && LegalUpTo(b.ops, i)
      decreases TotalWeight(b.ops), |b.ops| - i
    {
      if Legal(b.ops[i]) {
        i := i + 1;
      } else {
        m := PatternStep(b0, b, i, m);
        b := ApplyPattern(b, i);
      }
    }
    LegalMeans(b.ops);
  }

  /** What the applications of patterns so far have kept. */
  ghost predicate Reached(b0: Block, b: Block, m: Renaming) {
    WellFormed(b) && Refines(b0, b, m) && AllContinue(Calls(b0.ops), Calls(b.ops))
  }

  ghost predicate LegalUpTo(ops: seq<Op>, n: nat)
    requires n <= |ops|
  {
    forall k | 0 <= k < n :: Legal(ops[k])
  }

  lemma LegalMeans(ops: seq<Op>)
    requires LegalUpTo(ops, |ops|)
    ensures forall op <- ops :: !op.InPlace? && !op.NonValueLiteral?
    ensures forall op <- ops | op.Kernel? :: forall v <- op.results + op.operands :: !v.nonValue
  {
  }

  lemma PatternStep(b0: Block, b: Block, i: nat, m: Renaming) returns (m': Renaming)
    requires Reached(b0, b, m) && i < |b.ops| && !Legal(b.ops[i])
    ensures WellTypedOp(b.ops[i]) && TotalWeight(RewriteAt(b, i).ops) < TotalWeight(b.ops)
    ensures Reached(b0, RewriteAt(b, i), m')
  {
    SplitAt(b.ops, i);
    m' := Compose(m, Replace(b.ops[i], b.nextId).renaming);
    RewriteIsLighter(b, i);
    RewriteKeepsSsa(b, i);
    RefinesStep(b0, b, i, m);
    RewriteKeepsCalls(b, i);
    ContinueTransitive(Calls(b0.ops), Calls(b.ops), Calls(RewriteAt(b, i).ops));
  }

  /** The pattern that matches op `i`, and the uses of its results renamed. */
  method ApplyPattern(b: Block, i: nat) returns (b': Block)
    requires i < |b.ops| && !Legal(b.ops[i]) && WellTypedOp(b.ops[i])
    ensures b' == RewriteAt(b, i) && i <= |b'.ops| && (LegalUpTo(b.ops, i) ==> LegalUpTo(b'.ops, i))
  {
    var r;
    if b.ops[i].Kernel? {
      r := ConvertToImmutableTensors(b.ops[i], b.nextId);
    } else {
      r := Replace(b.ops[i], b.nextId);
    }
    b' := Block(b.ops[..i] + r.ops + RenameAll(r.renaming, b.ops[i + 1..]), r.nextId);
  }
}
