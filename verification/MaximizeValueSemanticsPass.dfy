/**
 The pass of lib/Dialect/Torch/Transforms/MaximizeValueSemantics.cpp: both patterns, applied until
 neither applies to any copy.
 */
module MaximizeValueSemanticsPass {
  import opened TensorBlock
  import opened MaximizeValueSemantics

  // ---- The values a block mentions ----

  function Vars(ops: seq<Op>): set<Var> {
    if ops == [] then {} else OpVars(ops[0]) + Vars(ops[1..])
  }

  function OpVars(op: Op): set<Var> {
    set v | v in Uses(op) + Results(op)
  }

  lemma {:induction false} VarsAt(ops: seq<Op>, j: nat)
    requires j < |ops|
    ensures OpVars(ops[j]) <= Vars(ops)
  {
    if j > 0 { VarsAt(ops[1..], j - 1); }
  }

  lemma {:induction false} VarsMention(ops: seq<Op>, v: Var)
    ensures v in Vars(ops) <==> exists j :: 0 <= j < |ops| && Mentions(ops[j], v)
  {
    if ops != [] {
      VarsMention(ops[1..], v);
      if Mentions(ops[0], v) { assert v in OpVars(ops[0]); }
      if j :| 0 <= j < |ops| && Mentions(ops[j], v) && j > 0 { assert Mentions(ops[1..][j - 1], v); }
      if j :| 0 <= j < |ops[1..]| && Mentions(ops[1..][j], v) { assert Mentions(ops[j + 1], v); }
    }
  }

  lemma {:induction false} VarsAppend(a: seq<Op>, b: seq<Op>)
    ensures Vars(a + b) == Vars(a) + Vars(b)
  {
    if a == [] {
      assert a + b == b;
    } else {
      assert (a + b)[1..] == a[1..] + b;
      VarsAppend(a[1..], b);
    }
  }

  ghost predicate OneType(vs: set<Var>) {
    forall v, w | v in vs && w in vs && v.id == w.id :: v == w
  }

  lemma SingleTypeByVars(ops: seq<Op>)
    ensures SingleType(ops) <==> OneType(Vars(ops))
  {
    if SingleType(ops) {
      forall v, w | v in Vars(ops) && w in Vars(ops) && v.id == w.id ensures v == w {
        VarsMention(ops, v);
        VarsMention(ops, w);
      }
    }
    if OneType(Vars(ops)) {
      forall i, j, v, w | 0 <= i < |ops| && 0 <= j < |ops| && Mentions(ops[i], v) && Mentions(ops[j], w) && v.id == w.id
        ensures v == w
      {
        VarsAt(ops, i);
        VarsAt(ops, j);
        assert v in OpVars(ops[i]) && w in OpVars(ops[j]);
      }
    }
  }

  ghost predicate IdsBelow(vs: set<Var>, n: nat) {
    forall v <- vs :: v.id < n
  }

  lemma {:induction false} BelowByVars(ops: seq<Op>, n: nat)
    ensures Below(ops, n) <==> IdsBelow(Vars(ops), n)
  {
    if ops != [] {
      BelowByVars(ops[1..], n);
      FirstBelow(ops[0], n);
      assert DefIds(ops) + UseIds(ops) ==
             (Ids(Results(ops[0])) + Ids(Uses(ops[0]))) + (DefIds(ops[1..]) + UseIds(ops[1..]));
    }
  }

  lemma FirstBelow(op: Op, n: nat)
    ensures (forall i <- Ids(Results(op)) + Ids(Uses(op)) :: i < n) <==> IdsBelow(OpVars(op), n)
  {
    if IdsBelow(OpVars(op), n) {
      forall i <- Ids(Results(op)) + Ids(Uses(op)) ensures i < n {
        var v :| v in Uses(op) + Results(op) && v.id == i;
        assert v in OpVars(op);
      }
    }
    if forall i <- Ids(Results(op)) + Ids(Uses(op)) :: i < n {
      forall v <- OpVars(op) ensures v.id < n {
        assert v.id in Ids(Results(op)) + Ids(Uses(op));
      }
    }
  }

  // ---- What may go, and how much is left to do ----

  /** A copy to a mutable tensor, or a view of one. */
  predicate IsMutable(op: Op) {
    op.CopyToNonValue? || (op.ViewLike? && op.result.nonValue)
  }

  function Weight(ops: seq<Op>): nat {
    if ops == [] then 0 else (if IsMutable(ops[0]) then 1 else 0) + Weight(ops[1..])
  }

  /** The cells and views the pass may remove. */
  function Removable(ops: seq<Op>): set<nat> {
    if ops == [] then {} else (if IsMutable(ops[0]) then {ops[0].result.id} else {}) + Removable(ops[1..])
  }

  lemma {:induction false} WeightAppend(a: seq<Op>, b: seq<Op>)
    ensures Weight(a + b) == Weight(a) + Weight(b) && Removable(a + b) == Removable(a) + Removable(b)
  {
    if a == [] {
      assert a + b == b;
    } else {
      assert (a + b)[1..] == a[1..] + b;
      WeightAppend(a[1..], b);
    }
  }

  lemma {:induction false} RemovableAt(ops: seq<Op>, j: nat)
    requires j < |ops| && IsMutable(ops[j])
    ensures ops[j].result.id in Removable(ops)
  {
    if j > 0 { RemovableAt(ops[1..], j - 1); }
  }

  lemma {:induction false} RemovableIsDefined(ops: seq<Op>)
    ensures Removable(ops) <= DefIds(ops)
  {
    if ops != [] {
      RemovableIsDefined(ops[1..]);
      if IsMutable(ops[0]) { assert ops[0].result in Results(ops[0]); }
    }
  }

  // ---- What a rewritten tail keeps ----

  /** The rewritten tail is in SSA form, defines nothing new, and has no more to do. */
  ghost predicate Shrinks(ops: seq<Op>, ops': seq<Op>) {
    Ssa(ops') && DefIds(ops') <= DefIds(ops) && Weight(ops') <= Weight(ops) && Removable(ops') <= Removable(ops)
  }

  lemma RenamedOp(m: Renaming, op: Op)
    requires WellTypedOp(op) && forall x <- Uses(op) :: Apply(m, x).nonValue == x.nonValue
    ensures WellTypedOp(Rename(m, op)) && Results(Rename(m, op)) == Results(op) &&
            IsMutable(Rename(m, op)) == IsMutable(op)
    ensures forall y <- Uses(Rename(m, op)) :: exists x :: x in Uses(op) && y == Apply(m, x)
  {
    match op
    case InPlace(_, _, xs) => assert xs[0] in Uses(op);
    case _ =>
  }

  /** A renamed op before a tail that shrinks. */
  lemma KeepOp(m: Renaming, ops: seq<Op>, rest: seq<Op>)
    requires ops != [] && Ssa(ops) && Shrinks(ops[1..], rest)
    requires forall x <- Uses(ops[0]) :: Apply(m, x).nonValue == x.nonValue
    requires forall v <- m :: m[v].id !in DefIds(ops)
    ensures Shrinks(ops, [Rename(m, ops[0])] + rest)
    ensures forall v <- Vars([Rename(m, ops[0])] + rest) ::
              v in Vars(rest) || v in Results(ops[0]) || exists x :: x in Uses(ops[0]) && v == Apply(m, x)
  {
    var op, ops' := Rename(m, ops[0]), [Rename(m, ops[0])] + rest;
    RenamedOp(m, ops[0]);
    assert ops'[0] == op && ops'[1..] == rest;
    forall i <- Ids(Uses(op)) ensures i !in Ids(Results(op)) && i !in DefIds(rest) {
      var y :| y in Uses(op) && y.id == i;
      var x :| x in Uses(ops[0]) && y == Apply(m, x);
      assert x.id in Ids(Uses(ops[0]));
    }
  }

  // ---- Dropping a copy ----

  /** The values standing for removed reads. */
  ghost predicate Images(m: Renaming, all: set<Var>) {
    forall v <- m :: !v.nonValue && !m[v].nonValue && m[v] in all
  }

  lemma KeepWithImages(m: Renaming, ops: seq<Op>, rest: seq<Op>, all: set<Var>)
    requires ops != [] && Ssa(ops) && Shrinks(ops[1..], rest) && Vars(ops) <= all && Vars(rest) <= all
    requires Images(m, all) && forall v <- m :: m[v].id !in DefIds(ops)
    ensures Shrinks(ops, [Rename(m, ops[0])] + rest) && Vars([Rename(m, ops[0])] + rest) <= all
  {
    KeepOp(m, ops, rest);
    forall x <- Uses(ops[0]) ensures Apply(m, x) in all { assert x in OpVars(ops[0]); }
    forall r <- Results(ops[0]) ensures r in all { assert r in OpVars(ops[0]); }
  }

  lemma {:induction false} InterpretKeeps(ops: seq<Op>, c: Var, held: Var, m: Renaming, n: nat, all: set<Var>)
    requires Scope(ops, c, held, m, n) && Vars(ops) <= all && held in all && Images(m, all)
    ensures var r := Interpret(ops, c, held, m); Shrinks(ops, r.ops) && Vars(r.ops) <= all && Images(r.renaming, all)
  {
    if ops != [] {
      var op := ops[0];
      ScopeTail(ops, c, held, m, n);
      assert IsAnalyzable(op, c);
      if op.CopyToValue? && op.operand == c {
        assert op.result.id in Ids(Results(op));
        InterpretKeeps(ops[1..], c, held, m[op.result := held], n, all);
      } else if op.Overwrite? && op.overwritten == c {
        assert op.value in Uses(op) && op.value.id in Ids(Uses(op)) && op.value in OpVars(op);
        InterpretKeeps(ops[1..], c, Apply(m, op.value), m, n, all);
      } else {
        InterpretKeeps(ops[1..], c, held, m, n, all);
        var rest := Interpret(ops[1..], c, held, m);
        KeepWithImages(m, ops, rest.ops, all);
      }
    }
  }

  /** What the pass works on. */
  ghost predicate WellFormed(ops: seq<Op>, n: nat) {
    Ssa(ops) && Below(ops, n) && SingleType(ops)
  }

  lemma OneCopy(copy: Op)
    requires copy.CopyToNonValue?
    ensures Vars([copy]) == {copy.operand, copy.result} && Weight([copy]) == 1 && Removable([copy]) == {copy.result.id}
  {
    assert [copy][1..] == [];
    assert OpVars(copy) == {copy.operand, copy.result};
  }

  /** A block up to the copy at `i`. */
  lemma UpToCopy(ops: seq<Op>, i: nat)
    requires i < |ops| && ops[i].CopyToNonValue?
    ensures Vars(ops[..i + 1]) == Vars(ops[..i]) + {ops[i].operand, ops[i].result}
    ensures Weight(ops[..i + 1]) == Weight(ops[..i]) + 1 &&
            Removable(ops[..i + 1]) == Removable(ops[..i]) + {ops[i].result.id}
  {
    var pre, copy := ops[..i], [ops[i]];
    assert ops[..i + 1] == pre + copy;
    OneCopy(ops[i]);
    VarsAppend(pre, copy);
    WeightAppend(pre, copy);
  }

  lemma VarsAroundCopy(ops: seq<Op>, i: nat)
    requires i < |ops| && ops[i].CopyToNonValue?
    ensures Vars(ops) == Vars(ops[..i]) + {ops[i].operand, ops[i].result} + Vars(ops[i + 1..])
  {
    UpToCopy(ops, i);
    assert ops == ops[..i + 1] + ops[i + 1..];
    VarsAppend(ops[..i + 1], ops[i + 1..]);
  }

  lemma WeightAroundCopy(ops: seq<Op>, i: nat)
    requires i < |ops| && ops[i].CopyToNonValue?
    ensures Weight(ops) == Weight(ops[..i]) + 1 + Weight(ops[i + 1..])
    ensures Removable(ops) == Removable(ops[..i]) + {ops[i].result.id} + Removable(ops[i + 1..])
  {
    UpToCopy(ops, i);
    assert ops == ops[..i + 1] + ops[i + 1..];
    WeightAppend(ops[..i + 1], ops[i + 1..]);
  }

  /** A tail that shrinks fits behind the ops before it. */
  lemma Reassemble(pre: seq<Op>, post: seq<Op>, post': seq<Op>)
    requires Ssa(pre) && DefIds(pre) + UseIds(pre) !! DefIds(post) && Shrinks(post, post')
    ensures Ssa(pre + post') && DefIds(pre + post') <= DefIds(pre) + DefIds(post)
    ensures Vars(pre + post') == Vars(pre) + Vars(post')
    ensures Weight(pre + post') <= Weight(pre) + Weight(post) &&
            Removable(pre + post') <= Removable(pre) + Removable(post)
  {
    SsaAppend(pre, post');
    IdsAppend(pre, post');
    VarsAppend(pre, post');
    WeightAppend(pre, post');
  }

  /** The rewritten block is again well formed, with less to do and nothing new defined. */
  ghost predicate Reduces(ops: seq<Op>, ops': seq<Op>, n: nat) {
    WellFormed(ops', n) && Weight(ops') < Weight(ops) && DefIds(ops') <= DefIds(ops) &&
    Removable(ops') <= Removable(ops)
  }

  /** A block in SSA form that mentions nothing new is well formed again. */
  lemma NothingNew(ops: seq<Op>, ops': seq<Op>, n: nat)
    requires WellFormed(ops, n) && Ssa(ops') && Vars(ops') <= Vars(ops)
    ensures WellFormed(ops', n)
  {
    BelowByVars(ops, n);
    BelowByVars(ops', n);
    SingleTypeByVars(ops);
    SingleTypeByVars(ops');
  }

  lemma DroppingReduces(ops: seq<Op>, i: nat, n: nat)
    requires WellFormed(ops, n) && i < |ops| && ops[i].CopyToNonValue?
    requires forall j | i < j < |ops| :: IsAnalyzable(ops[j], ops[i].result)
    ensures var r := RemoveCopy(ops, i);
            Reduces(ops, r.ops, n) && Vars(r.ops) <= Vars(ops) && Images(r.renaming, Vars(ops)) &&
            {ops[i].result.id} <= Removable(ops)
  {
    var pre, post := ops[..i], ops[i + 1..];
    TailKeeps(ops, i, n);
    SplitAt(ops, i);
    VarsAroundCopy(ops, i);
    WeightAroundCopy(ops, i);
    Reassemble(pre, post, Interpret(post, ops[i].result, ops[i].operand, map[]).ops);
    NothingNew(ops, RemoveCopy(ops, i).ops, n);
  }

  lemma TailKeeps(ops: seq<Op>, i: nat, n: nat)
    requires WellFormed(ops, n) && i < |ops| && ops[i].CopyToNonValue?
    requires forall j | i < j < |ops| :: IsAnalyzable(ops[j], ops[i].result)
    ensures var r := Interpret(ops[i + 1..], ops[i].result, ops[i].operand, map[]);
            Shrinks(ops[i + 1..], r.ops) && Vars(r.ops) <= Vars(ops) && Images(r.renaming, Vars(ops))
  {
    VarsAroundCopy(ops, i);
    ScopeAfterCopy(ops, i, n);
    InterpretKeeps(ops[i + 1..], ops[i].result, ops[i].operand, map[], n, Vars(ops));
  }

  // ---- Turning views into values ----

  /** What reads and views become: the operand of the copy, or a retyped view. */
  predicate IsViewImage(v: Var, c: Var, x: Var, derived: set<Var>) {
    v == x || exists d <- derived :: d != c && v == Retyped(d)
  }

  ghost predicate ViewImages(m: Renaming, c: Var, x: Var, derived: set<Var>) {
    forall v <- m :: IsViewImage(m[v], c, x, derived) && (v in derived || !v.nonValue)
  }

  /** The values mentioned after the rewrite. */
  ghost predicate ViewVars(vs: set<Var>, before: set<Var>, c: Var, x: Var, derived: set<Var>) {
    forall v <- vs :: (v in before && v !in derived) || IsViewImage(v, c, x, derived)
  }

  lemma {:induction false} RewriteViewsKeeps(ops: seq<Op>, c: Var, x: Var, derived: set<Var>, m: Renaming, n: nat)
    requires ViewScope(ops, c, derived, m, n) && c.id !in DefIds(ops) && ViewImages(m, c, x, derived)
    ensures var r := RewriteViews(ops, derived, m);
            Shrinks(ops, r.ops) && ViewImages(r.renaming, c, x, derived) &&
            ViewVars(Vars(r.ops), Vars(ops), c, x, derived)
  {
    if ops != [] {
      var op := ops[0];
      if op.CopyToValue? && op.operand in derived {
        FirstRead(ops, c, derived, m, n);
        RewriteViewsKeeps(ops[1..], c, x, derived, m[op.result := Apply(m, op.operand)], n);
      } else if op.ViewLike? && op.operand in derived {
        FirstView(ops, c, derived, m, n);
        RewriteViewsKeeps(ops[1..], c, x, derived, m[op.result := Retyped(op.result)], n);
        OperandImage(ops, c, x, derived, m, n);
        KeepView(ops, c, x, derived, Apply(m, op.operand),
                 RewriteViews(ops[1..], derived, m[op.result := Retyped(op.result)]).ops);
      } else {
        FirstOther(ops, c, derived, m, n);
        RewriteViewsKeeps(ops[1..], c, x, derived, m, n);
        KeepOther(ops, c, x, derived, m, n);
      }
    }
  }

  /** A retyped view before a tail that shrinks. */
  lemma RetypedView(ops: seq<Op>, y: Var, rest: seq<Op>)
    requires ops != [] && Ssa(ops) && ops[0].ViewLike? && Shrinks(ops[1..], rest) && !y.nonValue && y.id !in DefIds(ops)
    ensures var op' := ViewLike(Retyped(ops[0].result), ops[0].view, y);
            Shrinks(ops, [op'] + rest) && Vars([op'] + rest) == {y, Retyped(ops[0].result)} + Vars(rest)
  {
    var op, op' := ops[0], ViewLike(Retyped(ops[0].result), ops[0].view, y);
    assert ([op'] + rest)[1..] == rest;
    assert Results(op) == [op.result] && Results(op') == [Retyped(op.result)] && Uses(op') == [y];
    assert Ids(Results(op')) == {op.result.id} == Ids(Results(op)) && Ids(Uses(op')) == {y.id};
    assert OpVars(op') == {y, Retyped(op.result)};
  }

  lemma KeepView(ops: seq<Op>, c: Var, x: Var, derived: set<Var>, y: Var, rest: seq<Op>)
    requires ops != [] && Ssa(ops) && ops[0].ViewLike? && Shrinks(ops[1..], rest) && !y.nonValue && y.id !in DefIds(ops)
    requires IsViewImage(y, c, x, derived) && IsViewImage(Retyped(ops[0].result), c, x, derived)
    requires ViewVars(Vars(rest), Vars(ops[1..]), c, x, derived)
    ensures var r := [ViewLike(Retyped(ops[0].result), ops[0].view, y)] + rest;
            Shrinks(ops, r) && ViewVars(Vars(r), Vars(ops), c, x, derived)
  {
    RetypedView(ops, y, rest);
  }

  lemma OperandImage(ops: seq<Op>, c: Var, x: Var, derived: set<Var>, m: Renaming, n: nat)
    requires ViewScope(ops, c, derived, m, n) && c.id !in DefIds(ops) && ViewImages(m, c, x, derived)
    requires ops != [] && ops[0].ViewLike? && ops[0].operand in derived
    ensures var y := Apply(m, ops[0].operand); !y.nonValue && y.id !in DefIds(ops) && IsViewImage(y, c, x, derived)
    ensures IsViewImage(Retyped(ops[0].result), c, x, derived)
  {
    FirstView(ops, c, derived, m, n);
  }

  lemma KeepOther(ops: seq<Op>, c: Var, x: Var, derived: set<Var>, m: Renaming, n: nat)
    requires ViewScope(ops, c, derived, m, n) && ViewImages(m, c, x, derived)
    requires ops != [] && !((ops[0].CopyToValue? || ops[0].ViewLike?) && ops[0].operand in derived)
    requires var rest := RewriteViews(ops[1..], derived, m).ops;
             Shrinks(ops[1..], rest) && ViewVars(Vars(rest), Vars(ops[1..]), c, x, derived)
    ensures var r := RewriteViews(ops, derived, m).ops; Shrinks(ops, r) && ViewVars(Vars(r), Vars(ops), c, x, derived)
  {
    FirstOther(ops, c, derived, m, n);
    var op, rest := ops[0], RewriteViews(ops[1..], derived, m).ops;
    forall v <- Uses(op) + Results(op) ensures v !in derived && v in OpVars(op) {
    }
    forall v <- Uses(op) ensures v !in derived && v in OpVars(op) && Apply(m, v).nonValue == v.nonValue {
      assert v in Uses(op) + Results(op);
    }
    forall v <- Results(op) ensures v !in derived && v in OpVars(op) { assert v in Uses(op) + Results(op); }
    KeepOp(m, ops, rest);
  }

  lemma {:induction false} NotHeavier(ops: seq<Op>, derived: set<Var>, m: Renaming)
    ensures Weight(RewriteViews(ops, derived, m).ops) <= Weight(ops)
  {
    if ops != [] {
      var op := ops[0];
      if op.CopyToValue? && op.operand in derived {
        NotHeavier(ops[1..], derived, m[op.result := Apply(m, op.operand)]);
      } else if op.ViewLike? && op.operand in derived {
        var rest := RewriteViews(ops[1..], derived, m[op.result := Retyped(op.result)]).ops;
        NotHeavier(ops[1..], derived, m[op.result := Retyped(op.result)]);
        assert ([ViewLike(Retyped(op.result), op.view, Apply(m, op.operand))] + rest)[1..] == rest;
      } else {
        var rest := RewriteViews(ops[1..], derived, m).ops;
        NotHeavier(ops[1..], derived, m);
        assert ([Rename(m, op)] + rest)[1..] == rest && IsMutable(Rename(m, op)) == IsMutable(op);
      }
    }
  }

  /** A view that is rewritten is mutable no more. */
  lemma {:induction false} ViewsGetLighter(ops: seq<Op>, derived: set<Var>, m: Renaming, j: nat)
    requires ClosedUnderViews(ops, derived) && AllMutable(derived)
    requires j < |ops| && ops[j].ViewLike? && ops[j].operand in derived
    ensures Weight(RewriteViews(ops, derived, m).ops) < Weight(ops)
  {
    var op := ops[0];
    assert forall k | 0 <= k < |ops[1..]| :: ops[1..][k] == ops[k + 1];
    if op.CopyToValue? && op.operand in derived {
      ViewsGetLighter(ops[1..], derived, m[op.result := Apply(m, op.operand)], j - 1);
    } else if op.ViewLike? && op.operand in derived {
      var rest := RewriteViews(ops[1..], derived, m[op.result := Retyped(op.result)]).ops;
      assert UsesAny(op, derived) && IsViewUser(op, derived);
      NotHeavier(ops[1..], derived, m[op.result := Retyped(op.result)]);
      assert ([ViewLike(Retyped(op.result), op.view, Apply(m, op.operand))] + rest)[1..] == rest;
    } else {
      var rest := RewriteViews(ops[1..], derived, m).ops;
      ViewsGetLighter(ops[1..], derived, m, j - 1);
      assert ([Rename(m, op)] + rest)[1..] == rest && IsMutable(Rename(m, op)) == IsMutable(op);
    }
  }

  /** A copy the other pattern cannot drop has a view. */
  lemma SomeView(ops: seq<Op>, i: nat, derived: set<Var>) returns (j: nat)
    requires i < |ops| && ops[i].CopyToNonValue? && ops[i].result in derived && ClosedUnderViews(ops[i + 1..], derived)
    requires exists j :: i < j < |ops| && !IsAnalyzable(ops[j], ops[i].result)
    ensures j < |ops[i + 1..]| && ops[i + 1..][j].ViewLike? && ops[i + 1..][j].operand in derived
  {
    var k :| i < k < |ops| && !IsAnalyzable(ops[k], ops[i].result);
    j := k - i - 1;
    assert ops[i + 1..][j] == ops[k] && UsesAny(ops[k], derived);
  }

  /** What the block mentions after the rewrite: the copy as before, nothing else derived, and the images. */
  ghost predicate AfterViews(vs: set<Var>, before: set<Var>, c: Var, derived: set<Var>) {
    forall v <- vs :: v == c || (v in before && v !in derived) || exists d <- derived :: d != c && v == Retyped(d)
  }

  /** No value of the block has the id of a derived value or of an image of another one. */
  lemma ImagesApart(vs: set<Var>, before: set<Var>, c: Var, derived: set<Var>)
    requires OneType(before) && AfterViews(vs, before, c, derived) && c in derived && derived <= before
    ensures OneType(vs)
  {
    forall v, w | v in vs && w in vs && v.id == w.id ensures v == w {
      if d :| d in derived && d != c && v == Retyped(d) {
        if e :| e in derived && e != c && w == Retyped(e) {
          assert d in before && e in before;
        }
      }
    }
  }

  lemma DerivedInBlock(ops: seq<Op>, i: nat, derived: set<Var>)
    requires i < |ops| && ops[i].CopyToNonValue? && IsViewSubgraph(ops[i + 1..], ops[i].result, derived)
    ensures derived <= Vars(ops) && DeadIds(derived) <= Removable(ops)
  {
    VarsAroundCopy(ops, i);
    WeightAroundCopy(ops, i);
    forall d <- derived ensures d in Vars(ops) && d.id in Removable(ops) {
      if d != ops[i].result {
        var k := DerivedIsView(ops[i + 1..], ops[i].result, derived, d);
        VarsAt(ops[i + 1..], k);
        assert d in OpVars(ops[i + 1..][k]);
        RemovableAt(ops[i + 1..], k);
      }
    }
  }

  /** Nothing derived is mentioned before the copy. */
  lemma BeforeCopy(ops: seq<Op>, i: nat, n: nat, derived: set<Var>)
    requires WellFormed(ops, n) && i < |ops| && ops[i].CopyToNonValue? &&
             IsViewSubgraph(ops[i + 1..], ops[i].result, derived)
    ensures forall v <- Vars(ops[..i]) :: v !in derived
  {
    CopyIds(ops, i, n);
    SplitAt(ops, i);
    DerivedDefinedLater(ops[i + 1..], ops[i].result, derived);
    forall v <- Vars(ops[..i]) ensures v !in derived {
      VarsMention(ops[..i], v);
      var j :| 0 <= j < |ops[..i]| && Mentions(ops[..i][j], v);
      DefinedIn(ops[..i], j);
      assert v.id in Ids(Uses(ops[..i][j])) || v.id in Ids(Results(ops[..i][j]));
    }
  }

  /** The facts about the rewritten rest of the block. */
  lemma ViewTail(ops: seq<Op>, i: nat, n: nat, derived: set<Var>)
    requires WellFormed(ops, n) && i < |ops| && ops[i].CopyToNonValue? &&
             IsViewSubgraph(ops[i + 1..], ops[i].result, derived)
    ensures var c, x := ops[i].result, ops[i].operand; var r := RewriteViews(ops[i + 1..], derived, map[c := x]);
            Shrinks(ops[i + 1..], r.ops) && ViewImages(r.renaming, c, x, derived) &&
            ViewVars(Vars(r.ops), Vars(ops[i + 1..]), c, x, derived)
  {
    var c, x := ops[i].result, ops[i].operand;
    CopyIds(ops, i, n);
    SubgraphScope(ops, i, n, derived);
    RewriteViewsKeeps(ops[i + 1..], c, x, derived, map[c := x], n);
  }

  lemma JoinViewVars(pre: set<Var>, post: set<Var>, tail: set<Var>, c: Var, x: Var, derived: set<Var>)
    requires (forall v <- pre :: v !in derived) && x !in derived && ViewVars(tail, post, c, x, derived)
    ensures AfterViews(pre + {x, c} + tail, pre + {x, c} + post, c, derived)
  {
  }

  lemma VarsOfViews(ops: seq<Op>, i: nat, derived: set<Var>)
    requires i < |ops| && ops[i].CopyToNonValue?
    ensures var tail := RewriteViews(ops[i + 1..], derived, map[ops[i].result := ops[i].operand]).ops;
            Vars(ViewsToValues(ops, i, derived).ops) == Vars(ops[..i]) + {ops[i].operand, ops[i].result} + Vars(tail)
  {
    UpToCopy(ops, i);
    VarsAppend(ops[..i + 1], RewriteViews(ops[i + 1..], derived, map[ops[i].result := ops[i].operand]).ops);
  }

  lemma ViewsMentions(ops: seq<Op>, i: nat, n: nat, derived: set<Var>)
    requires WellFormed(ops, n) && i < |ops| && ops[i].CopyToNonValue? &&
             IsViewSubgraph(ops[i + 1..], ops[i].result, derived)
    ensures AfterViews(Vars(ViewsToValues(ops, i, derived).ops), Vars(ops), ops[i].result, derived)
  {
    var c, x, post := ops[i].result, ops[i].operand, ops[i + 1..];
    WellTypedAt(ops, i);
    ViewTail(ops, i, n, derived);
    BeforeCopy(ops, i, n, derived);
    VarsAroundCopy(ops, i);
    VarsOfViews(ops, i, derived);
    JoinViewVars(Vars(ops[..i]), Vars(post), Vars(RewriteViews(post, derived, map[c := x]).ops), c, x, derived);
  }

  lemma ViewsReduce(ops: seq<Op>, i: nat, n: nat, derived: set<Var>)
    requires WellFormed(ops, n) && i < |ops| && ops[i].CopyToNonValue? &&
             IsViewSubgraph(ops[i + 1..], ops[i].result, derived)
    requires exists j :: i < j < |ops| && !IsAnalyzable(ops[j], ops[i].result)
    ensures Reduces(ops, ViewsToValues(ops, i, derived).ops, n)
  {
    var c, x, post, r := ops[i].result, ops[i].operand, ops[i + 1..], ViewsToValues(ops, i, derived).ops;
    var tail := RewriteViews(post, derived, map[c := x]).ops;
    ViewsWellFormed(ops, i, n, derived);
    ViewTail(ops, i, n, derived);
    var j := SomeView(ops, i, derived);
    ViewsGetLighter(post, derived, map[c := x], j);
    WeightAroundCopy(ops, i);
    UpToCopy(ops, i);
    WeightAppend(ops[..i + 1], tail);
    PrefixApart(ops, i);
    IdsAppend(ops[..i + 1], tail);
  }

  lemma PrefixApart(ops: seq<Op>, i: nat)
    requires Ssa(ops) && i < |ops|
    ensures Ssa(ops[..i + 1]) && DefIds(ops[..i + 1]) + UseIds(ops[..i + 1]) !! DefIds(ops[i + 1..])
    ensures DefIds(ops) == DefIds(ops[..i + 1]) + DefIds(ops[i + 1..])
  {
    assert ops == ops[..i + 1] + ops[i + 1..];
    SsaAppend(ops[..i + 1], ops[i + 1..]);
    IdsAppend(ops[..i + 1], ops[i + 1..]);
  }

  lemma ViewsWellFormed(ops: seq<Op>, i: nat, n: nat, derived: set<Var>)
    requires WellFormed(ops, n) && i < |ops| && ops[i].CopyToNonValue? &&
             IsViewSubgraph(ops[i + 1..], ops[i].result, derived)
    ensures WellFormed(ViewsToValues(ops, i, derived).ops, n)
  {
    var r := ViewsToValues(ops, i, derived).ops;
    var tail := RewriteViews(ops[i + 1..], derived, map[ops[i].result := ops[i].operand]).ops;
    ViewTail(ops, i, n, derived);
    PrefixApart(ops, i);
    SsaAppend(ops[..i + 1], tail);
    ViewsMentions(ops, i, n, derived);
    DerivedInBlock(ops, i, derived);
    SingleTypeByVars(ops);
    ImagesApart(Vars(r), Vars(ops), ops[i].result, derived);
    SingleTypeByVars(r);
    BelowByVars(ops, n);
    BelowByVars(r, n);
  }

  // ---- Applying patterns again and again ----

  /** A value tensor that is the only one in the block with its id. */
  ghost predicate ImageOk(y: Var, vs: set<Var>, n: nat) {
    !y.nonValue && y.id < n && forall w <- vs :: w.id == y.id ==> w == y
  }

  ghost predicate ImagesOk(m: Renaming, vs: set<Var>, n: nat) {
    forall v <- m :: ImageOk(m[v], vs, n)
  }

  /** From the first block to the second every run keeps all values and cells that are not dead. */
  ghost predicate Keeps(ops: seq<Op>, ops': seq<Op>, m: Renaming, n: nat, dead: set<nat>) {
    forall sem, s | Typed(s) && Clean(s, n, dead) :: Rel(Exec(sem, ops, s), Exec(sem, ops', s), m, n, dead)
  }

  /** One application of a pattern. */
  ghost predicate Applied(ops: seq<Op>, ops': seq<Op>, m: Renaming, n: nat, dead: set<nat>) {
    Reduces(ops, ops', n) && dead <= Removable(ops) && ImagesOk(m, Vars(ops'), n) && Keeps(ops, ops', m, n, dead) &&
    forall y | ImageOk(y, Vars(ops), n) :: ImageOk(y, Vars(ops'), n) && y.id !in dead
  }

  lemma DroppingApplies(ops: seq<Op>, i: nat, n: nat)
    requires WellFormed(ops, n) && i < |ops| && ops[i].CopyToNonValue?
    requires forall j | i < j < |ops| :: IsAnalyzable(ops[j], ops[i].result)
    ensures Applied(ops, RemoveCopy(ops, i).ops, RemoveCopy(ops, i).renaming, n, {ops[i].result.id})
  {
    DroppingReduces(ops, i, n);
    DroppingKeeps(ops, i, n);
    SingleTypeByVars(ops);
    BelowByVars(ops, n);
    VarsAroundCopy(ops, i);
    WellTypedAt(ops, i);
    DroppingImages(Vars(ops), Vars(RemoveCopy(ops, i).ops), RemoveCopy(ops, i).renaming, ops[i].result, n);
  }

  lemma DroppingKeeps(ops: seq<Op>, i: nat, n: nat)
    requires WellFormed(ops, n) && i < |ops| && ops[i].CopyToNonValue?
    requires forall j | i < j < |ops| :: IsAnalyzable(ops[j], ops[i].result)
    ensures Keeps(ops, RemoveCopy(ops, i).ops, RemoveCopy(ops, i).renaming, n, {ops[i].result.id})
  {
    var r, dead := RemoveCopy(ops, i), {ops[i].result.id};
    forall sem, s | Typed(s) && Clean(s, n, dead)
      ensures Rel(Exec(sem, ops, s), Exec(sem, r.ops, s), r.renaming, n, dead)
    {
      RemoveCopyIsSound(sem, ops, i, n, s);
    }
  }

  lemma DroppingImages(before: set<Var>, vs: set<Var>, m: Renaming, c: Var, n: nat)
    requires OneType(before) && IdsBelow(before, n) && vs <= before && Images(m, before) && c in before && c.nonValue
    ensures ImagesOk(m, vs, n) && forall y | ImageOk(y, before, n) :: ImageOk(y, vs, n) && y.id !in {c.id}
  {
  }

  lemma ViewsApply(ops: seq<Op>, i: nat, n: nat, derived: set<Var>)
    requires WellFormed(ops, n) && i < |ops| && ops[i].CopyToNonValue? &&
             IsViewSubgraph(ops[i + 1..], ops[i].result, derived)
    requires exists j :: i < j < |ops| && !IsAnalyzable(ops[j], ops[i].result)
    ensures Applied(ops, ViewsToValues(ops, i, derived).ops, ViewsToValues(ops, i, derived).renaming, n,
                    DeadIds(derived))
  {
    var r := ViewsToValues(ops, i, derived);
    ViewsReduce(ops, i, n, derived);
    DerivedInBlock(ops, i, derived);
    forall sem, s | Typed(s) && Clean(s, n, DeadIds(derived))
      ensures Rel(Exec(sem, ops, s), Exec(sem, r.ops, s), r.renaming, n, DeadIds(derived))
    {
      ViewsToValuesIsSound(sem, ops, i, n, derived, s);
    }
    ViewImagesOk(ops, i, n, derived);
  }

  lemma ViewImagesOk(ops: seq<Op>, i: nat, n: nat, derived: set<Var>)
    requires WellFormed(ops, n) && i < |ops| && ops[i].CopyToNonValue? &&
             IsViewSubgraph(ops[i + 1..], ops[i].result, derived)
    ensures var r := ViewsToValues(ops, i, derived);
            ImagesOk(r.renaming, Vars(r.ops), n) &&
            forall y | ImageOk(y, Vars(ops), n) :: ImageOk(y, Vars(r.ops), n) && y.id !in DeadIds(derived)
  {
    var c, x, r := ops[i].result, ops[i].operand, ViewsToValues(ops, i, derived);
    ViewTail(ops, i, n, derived);
    ViewsMentions(ops, i, n, derived);
    DerivedInBlock(ops, i, derived);
    SingleTypeByVars(ops);
    BelowByVars(ops, n);
    WellTypedAt(ops, i);
    VarsAroundCopy(ops, i);
    forall y | ImageOk(y, Vars(ops), n) ensures ImageOk(y, Vars(r.ops), n) && y.id !in DeadIds(derived) {
      OldImageOk(y, Vars(r.ops), Vars(ops), c, derived, n);
    }
    forall v <- r.renaming ensures ImageOk(r.renaming[v], Vars(r.ops), n) {
      NewImageOk(r.renaming[v], Vars(r.ops), Vars(ops), c, x, derived, n);
    }
  }

  lemma OldImageOk(y: Var, vs: set<Var>, before: set<Var>, c: Var, derived: set<Var>, n: nat)
    requires ImageOk(y, before, n) && AfterViews(vs, before, c, derived) && c in derived && derived <= before &&
             AllMutable(derived)
    ensures ImageOk(y, vs, n) && y.id !in DeadIds(derived)
  {
  }

  lemma NewImageOk(y: Var, vs: set<Var>, before: set<Var>, c: Var, x: Var, derived: set<Var>, n: nat)
    requires IsViewImage(y, c, x, derived) && OneType(before) && IdsBelow(before, n) && x in before && !x.nonValue
    requires AfterViews(vs, before, c, derived) && c in derived && derived <= before && AllMutable(derived)
    ensures ImageOk(y, vs, n)
  {
  }

  /** A run starts without references to the cells the block allocates. */
  ghost predicate StartsApart(s: State, ops: seq<Op>, n: nat) {
    forall v :: Lookup(s, v).Ref? ==> Lookup(s, v).cell < n && Lookup(s, v).cell !in DefIds(ops)
  }

  /** Every run of `ops0` and of `ops` agrees on all values and cells but the removable ones in `dead`. */
  ghost predicate Refines(ops0: seq<Op>, ops: seq<Op>, m: Renaming, n: nat, dead: set<nat>) {
    dead <= Removable(ops0) &&
    forall sem, s | Typed(s) && StartsApart(s, ops0, n) :: Rel(Exec(sem, ops0, s), Exec(sem, ops, s), m, n, dead)
  }

  /** What successive applications of patterns keep. */
  ghost predicate Reached(ops0: seq<Op>, ops: seq<Op>, m: Renaming, n: nat, dead: set<nat>) {
    WellFormed(ops, n) && Refines(ops0, ops, m, n, dead) && ImagesOk(m, Vars(ops), n) &&
    DefIds(ops) <= DefIds(ops0) && Removable(ops) <= Removable(ops0)
  }

  lemma ReachedFirst(ops: seq<Op>, n: nat)
    requires WellFormed(ops, n)
    ensures Reached(ops, ops, map[], n, {})
  {
    forall sem, s | Typed(s) && StartsApart(s, ops, n) ensures Rel(Exec(sem, ops, s), Exec(sem, ops, s), map[], n, {}) {
      ExecSelf(sem, ops, n, {}, s);
      CleanIsRel(Exec(sem, ops, s), n, {});
    }
  }

  /** The relation of the runs so far and that of one more step chain. */
  lemma RelNext(s1: State, s2: State, s3: State, m: Renaming, m': Renaming, vs: set<Var>, n: nat, dead: set<nat>,
                dead': set<nat>)
    requires Rel(s1, s2, m, n, dead) && Rel(s2, s3, m', n, dead') && ImagesOk(m, vs, n)
    requires forall y | ImageOk(y, vs, n) :: y.id !in dead'
    ensures Rel(s1, s3, Compose(m, m'), n, dead + dead')
  {
    forall v | Alive(v, n, dead + dead')
      ensures Alive(Apply(m, v), n, dead') && Refers(Lookup(s1, v), n, dead + dead')
    {
      assert Alive(v, n, dead);
      assert Lookup(s1, v) == Lookup(s2, Apply(m, v));
      assert Alive(Apply(m, v), n, dead');
    }
    RelCompose(s1, s2, s3, m, m', n, n, dead, dead');
  }

  lemma ReachedNext(ops0: seq<Op>, ops: seq<Op>, ops': seq<Op>, m: Renaming, m': Renaming, n: nat, dead: set<nat>,
                    dead': set<nat>)
    requires Reached(ops0, ops, m, n, dead) && Applied(ops, ops', m', n, dead')
    ensures Reached(ops0, ops', Compose(m, m'), n, dead + dead')
  {
    RemovableIsDefined(ops);
    forall sem, s | Typed(s) && StartsApart(s, ops0, n)
      ensures Rel(Exec(sem, ops0, s), Exec(sem, ops', s), Compose(m, m'), n, dead + dead')
    {
      assert Clean(s, n, dead');
      RelNext(Exec(sem, ops0, s), Exec(sem, ops, s), Exec(sem, ops', s), m, m', Vars(ops), n, dead, dead');
    }
    ComposedImages(m, m', Vars(ops), Vars(ops'), n);
  }

  lemma ComposedImages(m: Renaming, m': Renaming, vs: set<Var>, vs': set<Var>, n: nat)
    requires ImagesOk(m, vs, n) && ImagesOk(m', vs', n) && forall y | ImageOk(y, vs, n) :: ImageOk(y, vs', n)
    ensures ImagesOk(Compose(m, m'), vs', n)
  {
    var all := Compose(m, m');
    forall v <- all ensures ImageOk(all[v], vs', n) {
      assert all[v] == Apply(all, v) == Apply(m', Apply(m, v));
      if v in m { assert ImageOk(m[v], vs', n); }
    }
  }

  // ---- The pass ----

  /** One of the patterns applies to the copy at `i`. */
  ghost predicate Matches(ops: seq<Op>, i: nat)
    requires i < |ops| && ops[i].CopyToNonValue?
  {
    OnlyReadOrOverwritten(ops, i) || exists all: set<Var> :: OnlyReadOrViewed(ops, i, all)
  }

  /** No pattern applies to any of the first `n` ops. */
  ghost predicate NoneMatches(ops: seq<Op>, n: nat)
    requires n <= |ops|
  {
    forall i | 0 <= i < n && ops[i].CopyToNonValue? :: !Matches(ops, i)
  }

  lemma NoneMatchesNext(ops: seq<Op>, n: nat)
    requires n < |ops| && NoneMatches(ops, n) && (ops[n].CopyToNonValue? ==> !Matches(ops, n))
    ensures NoneMatches(ops, n + 1)
  {
  }

  /** Tries both patterns on one copy. */
  method ApplyPatterns(ops: seq<Op>, i: nat, ghost n: nat) returns (ok: bool, r: Rewritten, ghost dead: set<nat>)
    requires WellFormed(ops, n) && i < |ops| && ops[i].CopyToNonValue?
    ensures ok <==> Matches(ops, i)
    ensures ok ==> Applied(ops, r.ops, r.renaming, n, dead)
  {
    AnalyzableMeans(ops, i);
    ok, r := InterpretCopyUsers(ops, i);
    dead := {ops[i].result.id};
    if ok {
      DroppingApplies(ops, i, n);
      return;
    }
    var derived;
    ok, r, derived := RewriteViewLikeSubgraph(ops, i);
    dead := DeadIds(derived);
    if ok { ViewsApply(ops, i, n, derived); }
  }

  /**
   Applies the patterns until none applies to any copy. It terminates, the block stays well formed,
   and every run keeps all values and cells except copies and views of copies.
   */
  method RunOnOperation(ops0: seq<Op>, ghost n: nat) returns (ops: seq<Op>, ghost m: Renaming, ghost dead: set<nat>)
    requires WellFormed(ops0, n)
    ensures WellFormed(ops, n) && Refines(ops0, ops, m, n, dead)
    ensures NoneMatches(ops, |ops|)
  {
    ops, m, dead := ops0, map[], {};
    ReachedFirst(ops0, n);
    var i := 0;
    while i < |ops|
      invariant 0 <= i <= |ops| && Reached(ops0, ops, m, n, dead)
      invariant NoneMatches(ops, i)
      decreases Weight(ops), |ops| - i
    {
      var ok := false;
      if ops[i].CopyToNonValue? {
        var r;
        ghost var dead';
        ok, r, dead' := ApplyPatterns(ops, i, n);
        if ok {
          ReachedNext(ops0, ops, r.ops, m, r.renaming, n, dead, dead');
          m, dead := Compose(m, r.renaming), dead + dead';
          ops, i := r.ops, 0;
        }
      }
      if !ok {
        NoneMatchesNext(ops, i);
        i := i + 1;
      }
    }
  }
}
