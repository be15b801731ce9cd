/**
 Removal of mutable tensors that are only read, overwritten or viewed. Models the two patterns of
 lib/Dialect/Torch/Transforms/MaximizeValueSemantics.cpp.
 */
module MaximizeValueSemantics {
  import opened TensorBlock

  // The rewritten ops, and what later uses of removed or retyped results now refer to.
  datatype Rewritten = Rewritten(ops: seq<Op>, renaming: Renaming)

  predicate Mentions(op: Op, v: Var) {
    v in Uses(op) || v in Results(op)
  }

  /** Each SSA id stands for one value of one type. */
  ghost predicate SingleType(ops: seq<Op>) {
    forall i, j, v, w | 0 <= i < |ops| && 0 <= j < |ops| && Mentions(ops[i], v) && Mentions(ops[j], w) &&
           v.id == w.id ::
      v == w
  }

  lemma {:induction false} DefinedIn(ops: seq<Op>, j: nat)
    requires j < |ops|
    ensures Ids(Results(ops[j])) <= DefIds(ops) && Ids(Uses(ops[j])) <= UseIds(ops)
  {
    if j > 0 { DefinedIn(ops[1..], j - 1); }
  }

  /** Values not defined by an op keep their meaning. */
  lemma StepKeeps(sem: Semantics, op: Op, s: State, v: Var)
    requires v !in Results(op)
    ensures Lookup(Step(sem, op, s), v) == Lookup(s, v)
  {
    match op
    case Kernel(rs, name, xs) =>
      BindAllKeeps(s, rs, Outputs(sem.kernel, name, ReadAll(sem, s, xs), |rs|), v);
    case Other(rs, name, xs) =>
      var datas := ReadAll(sem, s, xs);
      var written := Outputs(sem.effect, name, datas, |xs|);
      WriteAllEnv(sem, s, xs, written);
      BindAllKeeps(WriteAll(sem, s, xs, written), rs, Outputs(sem.kernel, name, datas, |rs|), v);
    case _ =>
  }

  lemma {:induction false} BindAllKeeps(s: State, rs: seq<Var>, datas: seq<Data>, v: Var)
    requires |rs| == |datas| && v !in rs
    ensures Lookup(BindAll(s, rs, datas), v) == Lookup(s, v)
    decreases |rs|
  {
    if rs != [] { BindAllKeeps(Bind(s, rs[0], datas[0]), rs[1..], datas[1..], v); }
  }

  /** A dead cell is left alone by ops over live values. */
  lemma StepKeepsCell(sem: Semantics, op: Op, s: State, n: nat, dead: set<nat>, c: nat)
    requires Clean(s, n, dead) && c in dead
    requires forall v <- Uses(op) :: Alive(v, n, dead)
    requires forall r <- Results(op) :: r.id != c
    ensures SameCell(s, Step(sem, op, s), c)
  {
    match op
    case Kernel(rs, name, xs) =>
      BindAllKeepsCell(s, rs, Outputs(sem.kernel, name, ReadAll(sem, s, xs), |rs|), c);
    case Other(rs, name, xs) =>
      var datas := ReadAll(sem, s, xs);
      var written := Outputs(sem.effect, name, datas, |xs|);
      WriteAllKeepsCell(sem, s, xs, written, n, dead, c);
      BindAllKeepsCell(WriteAll(sem, s, xs, written), rs, Outputs(sem.kernel, name, datas, |rs|), c);
    case InPlace(_, _, xs) =>
      if xs != [] { assert xs[0] in Uses(op); }
    case _ =>
  }

  lemma {:induction false} BindAllKeepsCell(s: State, rs: seq<Var>, datas: seq<Data>, c: nat)
    requires |rs| == |datas| && forall r <- rs :: r.id != c
    ensures SameCell(s, BindAll(s, rs, datas), c)
    decreases |rs|
  {
    if rs != [] { BindAllKeepsCell(Bind(s, rs[0], datas[0]), rs[1..], datas[1..], c); }
  }

  lemma {:induction false} WriteAllKeepsCell(sem: Semantics, s: State, vs: seq<Var>, datas: seq<Data>, n: nat,
                                             dead: set<nat>, c: nat)
    requires |vs| == |datas| && Clean(s, n, dead) && c in dead && forall v <- vs :: Alive(v, n, dead)
    ensures SameCell(s, WriteAll(sem, s, vs, datas), c)
    decreases |vs|
  {
    if vs != [] {
      var s' := Write(sem, s, vs[0], datas[0]);
      assert forall v :: Lookup(s', v) == Lookup(s, v);
      WriteAllKeepsCell(sem, s', vs[1..], datas[1..], n, dead, c);
    }
  }

  // ---- Abstract interpretation of copies and overwrites ----

  /** The uses of `c` the analysis understands. */
  predicate IsAnalyzable(op: Op, c: Var) {
    c !in Uses(op) ||
    (op.CopyToValue? && op.operand == c) ||
    (op.Overwrite? && op.overwritten == c && op.value != c)
  }

  /** Every op after the copy at `i` that uses it reads it, or overwrites it with another value. */
  ghost predicate OnlyReadOrOverwritten(ops: seq<Op>, i: nat)
    requires i < |ops| && ops[i].CopyToNonValue?
  {
    var c := ops[i].result;
    forall j | i < j < |ops| && c in Uses(ops[j]) ::
      match ops[j]
      case CopyToValue(_, _) => true
      case Overwrite(x, t) => t == c != x
      case _ => false
  }

  lemma AnalyzableMeans(ops: seq<Op>, i: nat)
    requires i < |ops| && ops[i].CopyToNonValue?
    ensures OnlyReadOrOverwritten(ops, i) <==> forall j | i < j < |ops| :: IsAnalyzable(ops[j], ops[i].result)
  {
    var c := ops[i].result;
    if OnlyReadOrOverwritten(ops, i) {
      forall j | i < j < |ops| ensures IsAnalyzable(ops[j], c) {
        if c in Uses(ops[j]) { assert ops[j].CopyToValue? || ops[j].Overwrite?; }
      }
    }
    if forall j | i < j < |ops| :: IsAnalyzable(ops[j], c) {
      forall j | i < j < |ops| && c in Uses(ops[j])
        ensures ops[j].CopyToValue? || (ops[j].Overwrite? && ops[j].overwritten == c != ops[j].value)
      {
        assert IsAnalyzable(ops[j], c);
      }
    }
  }

  /** The walk over the ops after the copy: `held` is the value tensor with the cell's contents. */
  function Interpret(ops: seq<Op>, c: Var, held: Var, m: Renaming): Rewritten {
    if ops == [] then Rewritten([], m)
    else if ops[0].CopyToValue? && ops[0].operand == c then
      Interpret(ops[1..], c, held, m[ops[0].result := held])
    else if ops[0].Overwrite? && ops[0].overwritten == c then
      Interpret(ops[1..], c, Apply(m, ops[0].value), m)
    else
      var rest := Interpret(ops[1..], c, held, m);
      Rewritten([Rename(m, ops[0])] + rest.ops, rest.renaming)
  }

  /**
   The pattern on the copy at position `i`. It applies iff every later use of the copy is a read
   or an overwrite; it then drops the copy, the reads and the overwrites.
   */
  method InterpretCopyUsers(ops: seq<Op>, i: nat) returns (ok: bool, r: Rewritten)
    requires i < |ops| && ops[i].CopyToNonValue?
    ensures ok <==> OnlyReadOrOverwritten(ops, i)
    ensures ok ==> r == RemoveCopy(ops, i)
  {
    r := Rewritten(ops, map[]);
    ok := UsersAreAnalyzable(ops, i);
    if ok { r := InterpretUsers(ops, i); }
  }

  method UsersAreAnalyzable(ops: seq<Op>, i: nat) returns (ok: bool)
    requires i < |ops| && ops[i].CopyToNonValue?
    ensures ok <==> OnlyReadOrOverwritten(ops, i)
  {
    AnalyzableMeans(ops, i);
    var c := ops[i].result;
    var j := i + 1;
    while j < |ops|
      invariant i < j <= |ops|
      invariant forall k | i < k < j :: IsAnalyzable(ops[k], c)
    {
      if c in Uses(ops[j]) && !IsAnalyzable(ops[j], c) { return false; }
      j := j + 1;
    }
    ok := true;
  }

  method InterpretUsers(ops: seq<Op>, i: nat) returns (r: Rewritten)
    requires i < |ops| && ops[i].CopyToNonValue?
    ensures r == RemoveCopy(ops, i)
  {
    var c := ops[i].result;
    var currentlyHeldValueTensor := ops[i].operand;
    var replaced: Renaming := map[];
    var kept: seq<Op> := [];
    var j := i + 1;
    while j < |ops|
      invariant i < j <= |ops|
      invariant Interpret(ops[i + 1..], c, ops[i].operand, map[]) ==
                Append(kept, Interpret(ops[j..], c, currentlyHeldValueTensor, replaced))
    {
      assert ops[j..][0] == ops[j] && ops[j..][1..] == ops[j + 1..];
      if ops[j].CopyToValue? && ops[j].operand == c {
        replaced := replaced[ops[j].result := currentlyHeldValueTensor];
      } else if ops[j].Overwrite? && ops[j].overwritten == c {
        currentlyHeldValueTensor := Apply(replaced, ops[j].value);
      } else {
        kept := kept + [Rename(replaced, ops[j])];
      }
      j := j + 1;
    }
    r := Rewritten(ops[..i] + kept, replaced);
  }

  function Append(kept: seq<Op>, rest: Rewritten): Rewritten {
    Rewritten(kept + rest.ops, rest.renaming)
  }

  function RemoveCopy(ops: seq<Op>, i: nat): Rewritten
    requires i < |ops| && ops[i].CopyToNonValue?
  {
    Append(ops[..i], Interpret(ops[i + 1..], ops[i].result, ops[i].operand, map[]))
  }

  /** Removed reads are bound to value tensors defined before the rest of the block. */
  ghost predicate RenamesEarlierValues(m: Renaming, ops: seq<Op>, n: nat) {
    forall v <- m :: !v.nonValue && !m[v].nonValue && m[v].id < n && v.id !in DefIds(ops) && m[v].id !in DefIds(ops)
  }

  /** What the rest of the block may mention: the cell only as analyzable, and no removed value. */
  ghost predicate Scope(ops: seq<Op>, c: Var, held: Var, m: Renaming, n: nat) {
    && Ssa(ops) && Below(ops, n)
    && c.nonValue && c.id < n && c.id !in DefIds(ops)
    && SinglyTyped(ops, c)
    && AllAnalyzable(ops, c)
    && !held.nonValue && held.id < n && held.id !in DefIds(ops)
    && RenamesEarlierValues(m, ops, n)
  }

  /** The cell's contents are what `held` is bound to in the other run. */
  ghost predicate Holds(c: Var, held: Var, s1: State, s2: State) {
    Lookup(s1, c) == Ref(c.id, []) && c.id in s1.heap && Lookup(s2, held) == Value(s1.heap[c.id])
  }

  lemma ScopeTail(ops: seq<Op>, c: Var, held: Var, m: Renaming, n: nat)
    requires Scope(ops, c, held, m, n) && ops != []
    ensures Scope(ops[1..], c, held, m, n)
    ensures WellTypedOp(ops[0]) && AllBelow(Uses(ops[0]), n) && AllBelow(Results(ops[0]), n)
    ensures Ids(Results(ops[0])) <= DefIds(ops) && Ids(Uses(ops[0])) !! DefIds(ops[1..])
  {
    BelowAt(ops, 0, n);
    BelowTail(ops, n);
    forall j, v | 0 <= j < |ops[1..]| && v in Uses(ops[1..][j]) && v.id == c.id ensures v == c {
      assert v in Uses(ops[j + 1]);
    }
    assert forall j | 0 <= j < |ops[1..]| :: ops[1..][j] == ops[j + 1];
  }

  lemma ReadStep(sem: Semantics, op: Op, c: Var, held: Var, m: Renaming, n: nat, s1: State, s2: State)
    requires op.CopyToValue? && op.operand == c && op.result.id != c.id && !op.result.nonValue
    requires Rel(s1, s2, m, n, {c.id}) && Holds(c, held, s1, s2)
    ensures Rel(Step(sem, op, s1), s2, m[op.result := held], n, {c.id}) && Holds(c, held, Step(sem, op, s1), s2)
  {
    var s1', m' := Step(sem, op, s1), m[op.result := held];
    forall v | Alive(v, n, {c.id})
      ensures Lookup(s1', v) == Lookup(s2, Apply(m', v)) && Refers(Lookup(s1', v), n, {c.id})
    {
      assert v != op.result ==> Lookup(s1', v) == Lookup(s1, v);
    }
    forall k: nat | k < n && k !in {c.id} ensures SameCell(s1', s2, k) { assert SameCell(s1, s2, k); }
  }

  lemma OverwriteStep(sem: Semantics, op: Op, c: Var, held: Var, m: Renaming, n: nat, s1: State, s2: State)
    requires op.Overwrite? && op.overwritten == c && !op.value.nonValue && Alive(op.value, n, {c.id})
    requires Rel(s1, s2, m, n, {c.id}) && Holds(c, held, s1, s2) && Typed(s1)
    ensures Rel(Step(sem, op, s1), s2, m, n, {c.id}) && Holds(c, Apply(m, op.value), Step(sem, op, s1), s2)
  {
    var s1' := Step(sem, op, s1);
    assert Lookup(s1, op.value) == Lookup(s2, Apply(m, op.value));
    assert s1'.env == s1.env;
    forall v | Alive(v, n, {c.id})
      ensures Lookup(s1', v) == Lookup(s2, Apply(m, v)) && Refers(Lookup(s1', v), n, {c.id})
    {
      assert Lookup(s1', v) == Lookup(s1, v);
    }
    forall k: nat | k < n && k !in {c.id} ensures SameCell(s1', s2, k) { assert SameCell(s1, s2, k); }
  }

  /** With the cell held by `held`, dropping its reads and overwrites keeps everything else. */
  lemma {:induction false} InterpretIsSound(sem: Semantics, ops: seq<Op>, c: Var, held: Var, m: Renaming, n: nat,
                                            s1: State, s2: State)
    requires Scope(ops, c, held, m, n) && Typed(s1)
    requires Rel(s1, s2, m, n, {c.id}) && Holds(c, held, s1, s2)
    ensures Rel(Exec(sem, ops, s1), Exec(sem, Interpret(ops, c, held, m).ops, s2), Interpret(ops, c, held, m).renaming,
                n, {c.id})
  {
    if ops != [] {
      var op, s1' := ops[0], Step(sem, ops[0], s1);
      ScopeTail(ops, c, held, m, n);
      StepTyped(sem, op, s1);
      assert IsAnalyzable(op, c);
      if op.CopyToValue? && op.operand == c {
        assert op.result.id in Ids(Results(op));
        ReadStep(sem, op, c, held, m, n, s1, s2);
        InterpretIsSound(sem, ops[1..], c, held, m[op.result := held], n, s1', s2);
      } else if op.Overwrite? && op.overwritten == c {
        assert op.value in Uses(op) && op.value.id in Ids(Uses(op));
        OverwriteStep(sem, op, c, held, m, n, s1, s2);
        InterpretIsSound(sem, ops[1..], c, Apply(m, op.value), m, n, s1', s2);
      } else {
        assert forall v <- Uses(op) :: v.id != c.id;
        GeneralStep(sem, op, c, held, m, n, s1, s2, DefIds(ops));
        var rest := Interpret(ops[1..], c, held, m);
        InterpretIsSound(sem, ops[1..], c, held, m, n, s1', Step(sem, Rename(m, op), s2));
        assert ([Rename(m, op)] + rest.ops)[1..] == rest.ops;
      }
    }
  }

  lemma BelowTail(ops: seq<Op>, n: nat)
    requires ops != [] && Below(ops, n)
    ensures Below(ops[1..], n)
  {
    forall k <- DefIds(ops[1..]) + UseIds(ops[1..]) ensures k < n { assert k in DefIds(ops) + UseIds(ops); }
  }

  /** An op that does not use the cell. */
  lemma GeneralStep(sem: Semantics, op: Op, c: Var, held: Var, m: Renaming, n: nat, s1: State, s2: State,
                    defs: set<nat>)
    requires WellTypedOp(op) && c.id < n && AllBelow(Uses(op), n) && AllBelow(Results(op), n)
    requires Ids(Results(op)) <= defs && c.id !in defs && held.id !in defs
    requires forall v <- Uses(op) :: v.id != c.id
    requires forall v <- m :: v.id !in defs && m[v].id !in defs
    requires Rel(s1, s2, m, n, {c.id}) && Holds(c, held, s1, s2)
    ensures Rel(Step(sem, op, s1), Step(sem, Rename(m, op), s2), m, n, {c.id})
    ensures Holds(c, held, Step(sem, op, s1), Step(sem, Rename(m, op), s2))
  {
    assert forall r <- Results(op) :: r.id in Ids(Results(op));
    forall r <- Results(op) ensures Untouched(m, r) {
      forall u <- m.Keys ensures m[u] != r && u != r { assert m[u].id !in defs; }
    }
    StepRel(sem, op, s1, s2, m, n, {c.id});
    StepKeeps(sem, op, s1, c);
    StepKeepsCell(sem, op, s1, n, {c.id}, c.id);
    assert Results(Rename(m, op)) == Results(op);
    StepKeeps(sem, Rename(m, op), s2, held);
  }

  /**
   Replacing reads by the currently held value and deleting the cell: every other value and every
   other cell ends up as before, for every starting state.
   */
  lemma RemoveCopyIsSound(sem: Semantics, ops: seq<Op>, i: nat, n: nat, s: State)
    requires Ssa(ops) && Below(ops, n) && SingleType(ops) && Typed(s)
    requires i < |ops| && ops[i].CopyToNonValue?
    requires forall j | i < j < |ops| :: IsAnalyzable(ops[j], ops[i].result)
    requires Clean(s, n, {ops[i].result.id})
    ensures Rel(Exec(sem, ops, s), Exec(sem, RemoveCopy(ops, i).ops, s), RemoveCopy(ops, i).renaming, n,
                {ops[i].result.id})
  {
    var post, copy, s' := ops[i + 1..], ops[i], Exec(sem, ops[..i], s);
    CopyIds(ops, i, n);
    BelowParts(ops, i, n);
    ScopeAfterCopy(ops, i, n);
    RunToCopy(sem, ops, i, n, s);
    InterpretIsSound(sem, post, copy.result, copy.operand, map[], n, Step(sem, copy, s'), s');
    SplitRuns(sem, ops, i, s);
  }

  lemma RunToCopy(sem: Semantics, ops: seq<Op>, i: nat, n: nat, s: State)
    requires i < |ops| && ops[i].CopyToNonValue? && WellTypedOp(ops[i]) && Typed(s) && Clean(s, n, {ops[i].result.id})
    requires Ssa(ops[..i]) && Below(ops[..i], n) && DefIds(ops[..i]) + UseIds(ops[..i]) !! {ops[i].result.id}
    ensures var s' := Exec(sem, ops[..i], s); var s1 := Step(sem, ops[i], s');
            Typed(s1) && Rel(s1, s', map[], n, {ops[i].result.id}) && Holds(ops[i].result, ops[i].operand, s1, s')
  {
    var s' := Exec(sem, ops[..i], s);
    ExecSelf(sem, ops[..i], n, {ops[i].result.id}, s);
    ExecTyped(sem, ops[..i], s);
    StepTyped(sem, ops[i], s');
    CopyStep(sem, ops[i], n, s');
  }

  lemma SplitRuns(sem: Semantics, ops: seq<Op>, i: nat, s: State)
    requires i < |ops| && ops[i].CopyToNonValue?
    ensures var s' := Exec(sem, ops[..i], s);
            Exec(sem, ops, s) == Exec(sem, ops[i + 1..], Step(sem, ops[i], s')) &&
            Exec(sem, RemoveCopy(ops, i).ops, s) ==
              Exec(sem, Interpret(ops[i + 1..], ops[i].result, ops[i].operand, map[]).ops, s')
  {
    var s' := Exec(sem, ops[..i], s);
    ExecThree(sem, ops[..i], [ops[i]], ops[i + 1..], s);
    SingleExec(sem, ops[i], s');
    assert ops == ops[..i] + [ops[i]] + ops[i + 1..];
    ExecAppend(sem, ops[..i], Interpret(ops[i + 1..], ops[i].result, ops[i].operand, map[]).ops, s);
  }

  /** After the copy, the runs with and without it differ in the new cell only. */
  lemma CopyStep(sem: Semantics, copy: Op, n: nat, s: State)
    requires copy.CopyToNonValue? && WellTypedOp(copy) && Typed(s)
    requires Clean(s, n, {copy.result.id})
    ensures Rel(Step(sem, copy, s), s, map[], n, {copy.result.id})
    ensures Holds(copy.result, copy.operand, Step(sem, copy, s), s)
  {
    var s1, c := Step(sem, copy, s), copy.result;
    forall v | Alive(v, n, {c.id}) ensures Lookup(s1, v) == Lookup(s, v) && Refers(Lookup(s1, v), n, {c.id}) {}
    forall k: nat | k < n && k !in {c.id} ensures SameCell(s1, s, k) {}
  }

  /** All uses of the id of `c` are uses of `c`. */
  ghost predicate SinglyTyped(ops: seq<Op>, c: Var) {
    forall j, v | 0 <= j < |ops| && v in Uses(ops[j]) && v.id == c.id :: v == c
  }

  lemma TailSinglyTyped(ops: seq<Op>, i: nat)
    requires i < |ops| && ops[i].CopyToNonValue? && SingleType(ops)
    ensures SinglyTyped(ops[i + 1..], ops[i].result)
  {
    var post, c := ops[i + 1..], ops[i].result;
    forall j, v | 0 <= j < |post| && v in Uses(post[j]) && v.id == c.id ensures v == c {
      assert post[j] == ops[i + 1 + j];
      assert Mentions(ops[i + 1 + j], v) && Mentions(ops[i], c);
    }
  }

  lemma ScopeAfterCopy(ops: seq<Op>, i: nat, n: nat)
    requires Ssa(ops) && Below(ops, n) && SingleType(ops) && i < |ops| && ops[i].CopyToNonValue?
    requires forall j | i < j < |ops| :: IsAnalyzable(ops[j], ops[i].result)
    ensures Scope(ops[i + 1..], ops[i].result, ops[i].operand, map[], n)
  {
    var copy, post := ops[i], ops[i + 1..];
    CopyIds(ops, i, n);
    BelowParts(ops, i, n);
    TailSinglyTyped(ops, i);
    AnalyzableTail(ops, i);
  }

  ghost predicate AllAnalyzable(ops: seq<Op>, c: Var) {
    forall j | 0 <= j < |ops| :: IsAnalyzable(ops[j], c)
  }

  lemma AnalyzableTail(ops: seq<Op>, i: nat)
    requires i < |ops| && ops[i].CopyToNonValue?
    requires forall j | i < j < |ops| :: IsAnalyzable(ops[j], ops[i].result)
    ensures AllAnalyzable(ops[i + 1..], ops[i].result)
  {
    var post := ops[i + 1..];
    forall j | 0 <= j < |post| ensures IsAnalyzable(post[j], ops[i].result) {
      assert post[j] == ops[i + 1 + j];
    }
  }

  lemma CopyIds(ops: seq<Op>, i: nat, n: nat)
    requires Ssa(ops) && Below(ops, n) && i < |ops| && ops[i].CopyToNonValue?
    ensures WellTypedOp(ops[i]) && Ssa(ops[..i]) && Ssa(ops[i + 1..])
    ensures ops[i].operand.id < n && ops[i].result.id < n
    ensures ops[i].operand.id !in DefIds(ops[i + 1..]) && ops[i].result.id !in DefIds(ops[i + 1..])
    ensures DefIds(ops[..i]) + UseIds(ops[..i]) !! {ops[i].result.id}
  {
    SplitAt(ops, i);
    BelowAt(ops, i, n);
    assert ops[i].operand in Uses(ops[i]) && ops[i].result in Results(ops[i]);
    assert ops[i].operand.id in Ids(Uses(ops[i])) && ops[i].result.id in Ids(Results(ops[i]));
  }

  lemma {:induction false} ExecTyped(sem: Semantics, ops: seq<Op>, s: State)
    requires Ssa(ops) && Typed(s)
    ensures Typed(Exec(sem, ops, s))
  {
    if ops != [] {
      StepTyped(sem, ops[0], s);
      ExecTyped(sem, ops[1..], Step(sem, ops[0], s));
    }
  }

  /** A run over live values creates no reference to a dead cell. */
  lemma ExecSelf(sem: Semantics, ops: seq<Op>, n: nat, dead: set<nat>, s: State)
    requires Clean(s, n, dead) && Below(ops, n) && DefIds(ops) + UseIds(ops) !! dead
    ensures Clean(Exec(sem, ops, s), n, dead)
  {
    CleanIsRel(s, n, dead);
    BelowIsAlive(ops, n, dead);
    ExecRel(sem, ops, s, s, map[], n, dead);
  }

  // ---- View-like subgraphs ----

  /** A user the view pattern understands: a read, or a view, of a derived value. */
  predicate IsViewUser(op: Op, derived: set<Var>) {
    (op.CopyToValue? && op.operand in derived) ||
    (op.ViewLike? && op.operand in derived && op.result in derived)
  }

  predicate UsesAny(op: Op, derived: set<Var>) {
    exists v <- Uses(op) :: v in derived
  }

  /** All users of derived values are reads and views, and the views' results are derived. */
  ghost predicate ClosedUnderViews(ops: seq<Op>, derived: set<Var>) {
    forall j | 0 <= j < |ops| && UsesAny(ops[j], derived) :: IsViewUser(ops[j], derived)
  }

  /** From the copy at `i` on, values of the set are only read or viewed, and their views are in the set. */
  ghost predicate OnlyReadOrViewed(ops: seq<Op>, i: nat, all: set<Var>)
    requires i < |ops| && ops[i].CopyToNonValue?
  {
    ops[i].result in all &&
    forall j, v | i < j < |ops| && v in Uses(ops[j]) && v in all ::
      ops[j].CopyToValue? || (ops[j].ViewLike? && ops[j].result in all)
  }

  lemma ViewedMeansClosed(ops: seq<Op>, i: nat, all: set<Var>)
    requires i < |ops| && ops[i].CopyToNonValue?
    ensures OnlyReadOrViewed(ops, i, all) <==> ops[i].result in all && ClosedUnderViews(ops[i + 1..], all)
  {
    var post := ops[i + 1..];
    if OnlyReadOrViewed(ops, i, all) {
      forall j | 0 <= j < |post| && UsesAny(post[j], all) ensures IsViewUser(post[j], all) {
        var v :| v in Uses(post[j]) && v in all;
        assert post[j] == ops[i + 1 + j];
      }
    }
    if ops[i].result in all && ClosedUnderViews(post, all) {
      forall j, v | i < j < |ops| && v in Uses(ops[j]) && v in all
        ensures ops[j].CopyToValue? || (ops[j].ViewLike? && ops[j].result in all)
      {
        assert ops[j] == post[j - i - 1] && UsesAny(post[j - i - 1], all);
      }
    }
  }

  predicate IsSimple(op: Op) {
    op.CopyToValue? || op.ViewLike?
  }

  /** Positions of the ops that use `v`. */
  method Users(ops: seq<Op>, v: Var) returns (users: seq<nat>)
    ensures forall j: nat :: j in users <==> j < |ops| && v in Uses(ops[j])
    ensures forall a, b | 0 <= a < b < |users| :: users[a] < users[b]
  {
    users := [];
    for j := 0 to |ops|
      invariant forall k: nat :: k in users <==> k < j && v in Uses(ops[k])
      invariant forall a, b | 0 <= a < b < |users| :: users[a] < users[b]
    {
      assert forall a | 0 <= a < |users| :: users[a] in users;
      if v in Uses(ops[j]) { users := users + [j]; }
    }
  }

  /** The processed positions are views and reads of derived values. */
  ghost predicate Processed(ops: seq<Op>, derived: set<Var>, processed: set<nat>) {
    forall j <- processed :: j < |ops| && IsViewUser(ops[j], derived)
  }

  /** The pending positions use derived values; a view or read among them is not processed yet. */
  ghost predicate Pending(ops: seq<Op>, derived: set<Var>, workList: seq<nat>, processed: set<nat>) {
    forall j <- workList :: j < |ops| && UsesAny(ops[j], derived) && (IsSimple(ops[j]) ==> j !in processed)
  }

  /** A view or read is pending once at most. */
  ghost predicate NoRepeats(ops: seq<Op>, workList: seq<nat>) {
    forall a, b | 0 <= a < b < |workList| && workList[a] == workList[b] ::
      workList[a] < |ops| ==> !IsSimple(ops[workList[a]])
  }

  ghost predicate Covered(ops: seq<Op>, derived: set<Var>, workList: seq<nat>, processed: set<nat>) {
    forall j: nat | j < |ops| && UsesAny(ops[j], derived) :: j in workList || j in processed
  }

  ghost predicate Justified(ops: seq<Op>, c: Var, derived: set<Var>, processed: set<nat>) {
    c in derived &&
    forall d <- derived :: d == c || exists j <- processed :: j < |ops| && ops[j].ViewLike? && ops[j].result == d
  }

  ghost predicate Least(ops: seq<Op>, c: Var, derived: set<Var>) {
    forall all: set<Var> | c in all && ClosedUnderViews(ops, all) :: derived <= all
  }

  ghost predicate AllMutable(derived: set<Var>) {
    forall d <- derived :: d.nonValue
  }

  /** What holds whenever the worklist loop is about to pop. */
  ghost predicate WorklistInvariant(ops: seq<Op>, c: Var, derived: set<Var>, workList: seq<nat>, processed: set<nat>) {
    Processed(ops, derived, processed) && Pending(ops, derived, workList, processed) && NoRepeats(ops, workList) &&
    Covered(ops, derived, workList, processed) && Justified(ops, c, derived, processed) && Least(ops, c, derived) &&
    AllMutable(derived)
  }

  /** No id is defined at two positions, and no op uses what it defines. */
  lemma {:induction false} SsaDistinct(ops: seq<Op>, j: nat, k: nat)
    requires Ssa(ops) && j < |ops| && k < |ops|
    ensures j != k ==> Ids(Results(ops[j])) !! Ids(Results(ops[k]))
    ensures Ids(Uses(ops[j])) !! Ids(Results(ops[j]))
  {
    if j > 0 && k > 0 {
      SsaDistinct(ops[1..], j - 1, k - 1);
    } else if j > 0 {
      DefinedIn(ops[1..], j - 1);
      SsaDistinct(ops[1..], j - 1, j - 1);
    } else if k > 0 {
      DefinedIn(ops[1..], k - 1);
    }
  }

  /** A new view's result was not derived before. */
  lemma NewlyDerived(ops: seq<Op>, c: Var, derived: set<Var>, workList: seq<nat>, processed: set<nat>, j: nat)
    requires Ssa(ops) && c.id !in DefIds(ops) && WorklistInvariant(ops, c, derived, workList, processed)
    requires j < |ops| && j !in processed && ops[j].ViewLike?
    ensures ops[j].result !in derived && ops[j].result != ops[j].operand
  {
    DefinedIn(ops, j);
    assert ops[j].result.id in Ids(Results(ops[j])) && ops[j].operand.id in Ids(Uses(ops[j]));
    SsaDistinct(ops, j, j);
    if ops[j].result in derived {
      var k :| k in processed && ops[k].ViewLike? && ops[k].result == ops[j].result;
      assert ops[k].result.id in Ids(Results(ops[k]));
      SsaDistinct(ops, j, k);
    }
  }

  lemma PopRead(ops: seq<Op>, c: Var, derived: set<Var>, rest: seq<nat>, j: nat, processed: set<nat>)
    requires WorklistInvariant(ops, c, derived, rest + [j], processed)
    requires j < |ops| && ops[j].CopyToValue?
    ensures j !in processed && WorklistInvariant(ops, c, derived, rest, processed + {j})
    ensures |processed| < |processed + {j}| <= |ops|
  {
    var workList := rest + [j];
    PositionsBounded(ops, processed + {j});
    assert j in workList;
    forall k <- rest ensures k < |ops| && UsesAny(ops[k], derived) && (IsSimple(ops[k]) ==> k !in processed + {j}) {
      assert k in workList;
      NotRepeated(ops, rest, j);
    }
    assert NoRepeats(ops, rest) by {
      forall a, b | 0 <= a < b < |rest| && rest[a] == rest[b] && rest[a] < |ops| ensures !IsSimple(ops[rest[a]]) {
        assert workList[a] == workList[b];
      }
    }
  }

  lemma NotRepeated(ops: seq<Op>, rest: seq<nat>, j: nat)
    requires NoRepeats(ops, rest + [j]) && j < |ops| && IsSimple(ops[j])
    ensures j !in rest
  {
    var workList := rest + [j];
    forall a | 0 <= a < |rest| ensures rest[a] != j {
      assert workList[a] == rest[a] && workList[|rest|] == j;
    }
  }

  lemma PopView(ops: seq<Op>, c: Var, derived: set<Var>, rest: seq<nat>, j: nat, processed: set<nat>, users: seq<nat>)
    requires Ssa(ops) && c.id !in DefIds(ops)
    requires WorklistInvariant(ops, c, derived, rest + [j], processed)
    requires j < |ops| && ops[j].ViewLike?
    requires forall k: nat :: k in users <==> k < |ops| && ops[j].result in Uses(ops[k])
    requires forall a, b | 0 <= a < b < |users| :: users[a] < users[b]
    ensures j !in processed
    ensures WorklistInvariant(ops, c, derived + {ops[j].result}, rest + users, processed + {j})
  {
    WellTypedAt(ops, j);
    var workList, r := rest + [j], ops[j].result;
    var derived', processed' := derived + {r}, processed + {j};
    assert j in workList;
    assert UsesAny(ops[j], derived);
    NewlyDerived(ops, c, derived, workList, processed, j);
    NotRepeated(ops, rest, j);
    PopViewPending(ops, derived, rest, j, processed, users);
    PopViewNoRepeats(ops, derived, rest, j, users);
    PopViewCovered(ops, derived, rest, j, processed, users);
    PopViewJustified(ops, c, derived, j, processed);
    PopViewLeast(ops, c, derived, j);
    assert Processed(ops, derived', processed');
  }

  lemma PopViewJustified(ops: seq<Op>, c: Var, derived: set<Var>, j: nat, processed: set<nat>)
    requires j < |ops| && ops[j].ViewLike? && Justified(ops, c, derived, processed)
    ensures Justified(ops, c, derived + {ops[j].result}, processed + {j})
  {
    forall d <- derived + {ops[j].result}
      ensures d == c || exists k <- processed + {j} :: k < |ops| && ops[k].ViewLike? && ops[k].result == d
    {
      if d == ops[j].result { assert j in processed + {j}; }
    }
  }

  lemma PopViewLeast(ops: seq<Op>, c: Var, derived: set<Var>, j: nat)
    requires j < |ops| && ops[j].ViewLike? && UsesAny(ops[j], derived) && Least(ops, c, derived)
    ensures Least(ops, c, derived + {ops[j].result})
  {
    forall all: set<Var> | c in all && ClosedUnderViews(ops, all) ensures derived + {ops[j].result} <= all {
      assert UsesAny(ops[j], all);
    }
  }

  lemma PopViewCovered(ops: seq<Op>, derived: set<Var>, rest: seq<nat>, j: nat, processed: set<nat>, users: seq<nat>)
    requires j < |ops| && ops[j].ViewLike? && Covered(ops, derived, rest + [j], processed)
    requires forall k: nat :: k in users <==> k < |ops| && ops[j].result in Uses(ops[k])
    ensures Covered(ops, derived + {ops[j].result}, rest + users, processed + {j})
  {
    forall k: nat | k < |ops| && UsesAny(ops[k], derived + {ops[j].result})
      ensures k in rest + users || k in processed + {j}
    {
      if UsesAny(ops[k], derived) {
        assert k in rest + [j] || k in processed;
      } else {
        assert ops[j].result in Uses(ops[k]);
      }
    }
  }

  lemma {:induction false} WellTypedAt(ops: seq<Op>, j: nat)
    requires Ssa(ops) && j < |ops|
    ensures WellTypedOp(ops[j])
  {
    if j > 0 { WellTypedAt(ops[1..], j - 1); }
  }

  lemma PopViewPending(ops: seq<Op>, derived: set<Var>, rest: seq<nat>, j: nat, processed: set<nat>, users: seq<nat>)
    requires j < |ops| && ops[j].ViewLike? && ops[j].result !in derived && ops[j].result != ops[j].operand
    requires Processed(ops, derived, processed) && Pending(ops, derived, rest + [j], processed) && j !in rest
    requires forall k <- users :: k < |ops| && ops[j].result in Uses(ops[k])
    ensures Pending(ops, derived + {ops[j].result}, rest + users, processed + {j})
  {
    var r := ops[j].result;
    forall k <- rest + users
      ensures k < |ops| && UsesAny(ops[k], derived + {r}) && (IsSimple(ops[k]) ==> k !in processed + {j})
    {
      if k in rest {
        assert k in rest + [j];
      } else {
        assert k in users;
        assert r in Uses(ops[k]) && r in derived + {r};
      }
    }
  }

  lemma PopViewNoRepeats(ops: seq<Op>, derived: set<Var>, rest: seq<nat>, j: nat, users: seq<nat>)
    requires j < |ops| && ops[j].ViewLike? && ops[j].result !in derived
    requires NoRepeats(ops, rest + [j]) && forall k <- rest :: k < |ops| && UsesAny(ops[k], derived)
    requires forall k <- users :: k < |ops| && ops[j].result in Uses(ops[k])
    requires forall a, b | 0 <= a < b < |users| :: users[a] < users[b]
    ensures NoRepeats(ops, rest + users)
  {
    var workList := rest + users;
    forall a, b | 0 <= a < b < |workList| && workList[a] == workList[b] && workList[a] < |ops|
      ensures !IsSimple(ops[workList[a]])
    {
      if b < |rest| {
        assert (rest + [j])[a] == (rest + [j])[b];
      } else if a < |rest| {
        assert rest[a] in rest && users[b - |rest|] in users;
      }
    }
  }

  /**
   The worklist from the users of the copy. It succeeds iff some set of values holds the copy and
   is closed under views; the result is then the least such set.
   */
  method CollectViewSubgraph(ops: seq<Op>, c: Var) returns (ok: bool, derived: set<Var>, ghost processed: set<nat>)
    requires Ssa(ops) && SingleType(ops) && c.id !in DefIds(ops) && c.nonValue
    ensures ok ==> WorklistInvariant(ops, c, derived, [], processed)
    ensures ok ==> c in derived && ClosedUnderViews(ops, derived)
    ensures !ok ==> forall all: set<Var> :: !(c in all && ClosedUnderViews(ops, all))
  {
    derived, processed := {c}, {};
    var workList := Users(ops, c);
    StartWorklist(ops, c, workList);
    while workList != []
      invariant WorklistInvariant(ops, c, derived, workList, processed)
      decreases |ops| - |processed|
    {
      ok, derived, workList, processed := PopUser(ops, c, derived, workList, processed);
      if !ok { return; }
    }
    ok := true;
    CoveredIsClosed(ops, derived, processed);
  }

  /** One turn of the worklist loop: the last pending user is popped. */
  method PopUser(ops: seq<Op>, c: Var, derived: set<Var>, workList: seq<nat>, ghost processed: set<nat>)
    returns (ok: bool, derived': set<Var>, workList': seq<nat>, ghost processed': set<nat>)
    requires Ssa(ops) && c.id !in DefIds(ops) && workList != []
    requires WorklistInvariant(ops, c, derived, workList, processed)
    ensures ok ==> WorklistInvariant(ops, c, derived', workList', processed') && |processed| < |processed'| <= |ops|
    ensures !ok ==> forall all: set<Var> :: !(c in all && ClosedUnderViews(ops, all))
  {
    ok, derived', workList', processed' := true, derived, workList, processed;
    var rest, j := workList[..|workList| - 1], workList[|workList| - 1];
    assert workList == rest + [j] && j in workList;
    if ops[j].CopyToValue? {
      PopRead(ops, c, derived, rest, j, processed);
      workList', processed' := rest, processed + {j};
    } else if ops[j].ViewLike? {
      var users := Users(ops, ops[j].result);
      PopView(ops, c, derived, rest, j, processed, users);
      OneMoreProcessed(ops, derived + {ops[j].result}, processed, j);
      workList', derived', processed' := rest + users, derived + {ops[j].result}, processed + {j};
    } else {
      BlockedByOther(ops, c, derived, j);
      ok := false;
    }
  }

  lemma OneMoreProcessed(ops: seq<Op>, derived: set<Var>, processed: set<nat>, j: nat)
    requires Processed(ops, derived, processed + {j}) && j !in processed
    ensures |processed| < |processed + {j}| <= |ops|
  {
    PositionsBounded(ops, processed + {j});
  }

  lemma CoveredIsClosed(ops: seq<Op>, derived: set<Var>, processed: set<nat>)
    requires Covered(ops, derived, [], processed) && Processed(ops, derived, processed)
    ensures ClosedUnderViews(ops, derived)
  {
  }

  lemma StartWorklist(ops: seq<Op>, c: Var, users: seq<nat>)
    requires c.nonValue
    requires forall j: nat :: j in users <==> j < |ops| && c in Uses(ops[j])
    requires forall a, b | 0 <= a < b < |users| :: users[a] < users[b]
    ensures WorklistInvariant(ops, c, {c}, users, {})
  {
  }

  /** Any other op on a derived value rules every closed set out. */
  lemma BlockedByOther(ops: seq<Op>, c: Var, derived: set<Var>, j: nat)
    requires j < |ops| && !IsSimple(ops[j]) && UsesAny(ops[j], derived) && Least(ops, c, derived)
    ensures forall all: set<Var> :: !(c in all && ClosedUnderViews(ops, all))
  {
    forall all: set<Var> | c in all ensures !ClosedUnderViews(ops, all) {
      if derived <= all { assert UsesAny(ops[j], all) && !IsViewUser(ops[j], all); }
    }
  }

  function Positions(n: nat): (s: set<nat>)
    ensures |s| == n && forall j: nat :: j in s <==> j < n
  {
    if n == 0 then {} else Positions(n - 1) + {n - 1}
  }

  lemma PositionsBounded(ops: seq<Op>, positions: set<nat>)
    requires forall j <- positions :: j < |ops|
    ensures |positions| <= |ops|
  {
    var all := Positions(|ops|);
    assert positions <= all;
    assert |all - positions| == |all| - |positions|;
  }

  /** The retyped result of a view that now works on value tensors. */
  function Retyped(v: Var): Var {
    v.(nonValue := false)
  }

  /** Reads of derived values disappear, their views become views of values. */
  function RewriteViews(ops: seq<Op>, derived: set<Var>, m: Renaming): Rewritten {
    if ops == [] then Rewritten([], m)
    else if ops[0].CopyToValue? && ops[0].operand in derived then
      RewriteViews(ops[1..], derived, m[ops[0].result := Apply(m, ops[0].operand)])
    else if ops[0].ViewLike? && ops[0].operand in derived then
      var rest := RewriteViews(ops[1..], derived, m[ops[0].result := Retyped(ops[0].result)]);
      Rewritten([ViewLike(Retyped(ops[0].result), ops[0].view, Apply(m, ops[0].operand))] + rest.ops, rest.renaming)
    else
      var rest := RewriteViews(ops[1..], derived, m);
      Rewritten([Rename(m, ops[0])] + rest.ops, rest.renaming)
  }

  /** The copy itself stays; it has no uses left. */
  function ViewsToValues(ops: seq<Op>, i: nat, derived: set<Var>): Rewritten
    requires i < |ops| && ops[i].CopyToNonValue?
  {
    Append(ops[..i + 1], RewriteViews(ops[i + 1..], derived, map[ops[i].result := ops[i].operand]))
  }

  /**
   The pattern on the copy at position `i`: applies iff the transitive users of the copy are views
   ending in reads.
   */
  method RewriteViewLikeSubgraph(ops: seq<Op>, i: nat) returns (ok: bool, r: Rewritten, derived: set<Var>)
    requires i < |ops| && ops[i].CopyToNonValue? && Ssa(ops) && SingleType(ops)
    ensures ok <==> exists all: set<Var> :: OnlyReadOrViewed(ops, i, all)
    ensures ok ==> IsViewSubgraph(ops[i + 1..], ops[i].result, derived) && r == ViewsToValues(ops, i, derived)
  {
    var c, post := ops[i].result, ops[i + 1..];
    ghost var processed;
    SplitAt(ops, i);
    TailFacts(ops, i);
    ok, derived, processed := CollectViewSubgraph(post, c);
    forall all: set<Var> { ViewedMeansClosed(ops, i, all); }
    assert ok ==> OnlyReadOrViewed(ops, i, derived);
    r := Rewritten(ops, map[]);
    if !ok { return; }
    SubgraphFromWorklist(post, c, derived, processed);
    var rewritten;
    rewritten := RewriteLoop(post, derived, map[c := ops[i].operand]);
    r := Append(ops[..i + 1], rewritten);
  }

  /** Replaces the reads and retypes the views, in block order. */
  method RewriteLoop(post: seq<Op>, derived: set<Var>, start: Renaming) returns (r: Rewritten)
    ensures r == RewriteViews(post, derived, start)
  {
    var m: Renaming, rewritten: seq<Op> := start, [];
    for j := 0 to |post|
      invariant RewriteViews(post, derived, start) == Append(rewritten, RewriteViews(post[j..], derived, m))
    {
      RewriteOne(post, j, derived, m, rewritten);
      var op := post[j];
      if op.CopyToValue? && op.operand in derived {
        m := m[op.result := Apply(m, op.operand)];
      } else if op.ViewLike? && op.operand in derived {
        rewritten := rewritten + [ViewLike(Retyped(op.result), op.view, Apply(m, op.operand))];
        m := m[op.result := Retyped(op.result)];
      } else {
        rewritten := rewritten + [Rename(m, op)];
      }
    }
    r := Rewritten(rewritten, m);
  }

  /** One op moved from the rest of the block to the rewritten part. */
  lemma RewriteOne(post: seq<Op>, j: nat, derived: set<Var>, m: Renaming, done: seq<Op>)
    requires j < |post|
    ensures var op := post[j];
            Append(done, RewriteViews(post[j..], derived, m)) ==
            if op.CopyToValue? && op.operand in derived then
              Append(done, RewriteViews(post[j + 1..], derived, m[op.result := Apply(m, op.operand)]))
            else if op.ViewLike? && op.operand in derived then
              Append(done + [ViewLike(Retyped(op.result), op.view, Apply(m, op.operand))],
                     RewriteViews(post[j + 1..], derived, m[op.result := Retyped(op.result)]))
            else
              Append(done + [Rename(m, op)], RewriteViews(post[j + 1..], derived, m))
  {
    assert post[j..][0] == post[j] && post[j..][1..] == post[j + 1..];
  }

  lemma TailFacts(ops: seq<Op>, i: nat)
    requires i < |ops| && ops[i].CopyToNonValue? && Ssa(ops) && SingleType(ops)
    ensures Ssa(ops[i + 1..]) && SingleType(ops[i + 1..]) && ops[i].result.id !in DefIds(ops[i + 1..])
  {
    SplitAt(ops, i);
    assert ops[i].result in Results(ops[i]);
    assert ops[i].result.id in Ids(Results(ops[i]));
    TailSingleType(ops, i + 1);
  }

  lemma TailSingleType(ops: seq<Op>, i: nat)
    requires SingleType(ops) && i <= |ops|
    ensures SingleType(ops[i..])
  {
    var post := ops[i..];
    forall j, k, v, w | 0 <= j < |post| && 0 <= k < |post| && Mentions(post[j], v) && Mentions(post[k], w) &&
           v.id == w.id
      ensures v == w
    {
      assert post[j] == ops[i + j] && post[k] == ops[i + k];
    }
  }

  /** `derived` is the copy and all views of it, and these have no other users than reads. */
  ghost predicate IsViewSubgraph(ops: seq<Op>, c: Var, derived: set<Var>) {
    c in derived && ClosedUnderViews(ops, derived) && AllMutable(derived) &&
    (forall d <- derived :: d != c ==>
       exists j :: 0 <= j < |ops| && ops[j].ViewLike? && ops[j].operand in derived && ops[j].result == d)
  }

  lemma SubgraphFromWorklist(ops: seq<Op>, c: Var, derived: set<Var>, processed: set<nat>)
    requires WorklistInvariant(ops, c, derived, [], processed) && ClosedUnderViews(ops, derived)
    ensures IsViewSubgraph(ops, c, derived)
  {
    forall d <- derived | d != c
      ensures exists j :: 0 <= j < |ops| && ops[j].ViewLike? && ops[j].operand in derived && ops[j].result == d
    {
      var j :| j in processed && ops[j].ViewLike? && ops[j].result == d;
      assert IsViewUser(ops[j], derived);
    }
  }

  // ---- Soundness of the view rewrite ----

  function DeadIds(derived: set<Var>): set<nat> {
    set d | d in derived :: d.id
  }

  lemma {:induction false} ReadPathAppend(sem: Semantics, base: Data, path: seq<View>, view: View)
    ensures ReadPath(sem, base, path + [view]) == sem.view(view, ReadPath(sem, base, path))
    decreases |path|
  {
    if path == [] {
      assert [view][1..] == [];
    } else {
      assert (path + [view])[1..] == path[1..] + [view];
      ReadPathAppend(sem, sem.view(path[0], base), path[1..], view);
    }
  }

  /**
   Every derived value already defined is a view of the cell in one run, and in the other the
   value tensor obtained by composing the same views on the cell's contents.
   */
  ghost predicate ViewsComposed(sem: Semantics, c: Var, derived: set<Var>, later: set<nat>, m: Renaming, s1: State,
                                s2: State)
  {
    c.id in s1.heap &&
    forall d | d in derived && d.id !in later ::
      Lookup(s1, d).Ref? && Lookup(s1, d).cell == c.id &&
      Lookup(s2, Apply(m, d)) == Value(ReadPath(sem, s1.heap[c.id], Lookup(s1, d).path))
  }

  /** What the rest of the block may mention. */
  ghost predicate ViewScope(ops: seq<Op>, c: Var, derived: set<Var>, m: Renaming, n: nat) {
    && Ssa(ops) && Below(ops, n) && ClosedUnderViews(ops, derived) && DefinesViews(ops, derived)
    && c in derived && AllMutable(derived)
    && (forall d <- derived :: d.id !in DefIds(ops) ==> d in m)
    && (forall v <- m :: !m[v].nonValue && v.id !in DefIds(ops) && m[v].id !in DefIds(ops))
  }

  ghost predicate MentionsDerivedOnly(ops: seq<Op>, derived: set<Var>) {
    forall j, v | 0 <= j < |ops| && Mentions(ops[j], v) && v.id in DeadIds(derived) :: v in derived
  }

  /** A derived id stands for the derived value, and is only defined by a view of a derived value. */
  ghost predicate DefinesViews(ops: seq<Op>, derived: set<Var>) {
    MentionsDerivedOnly(ops, derived) &&
    (forall j, r | 0 <= j < |ops| && r in Results(ops[j]) && r in derived ::
     ops[j].ViewLike? && ops[j].operand in derived)
  }

  lemma ViewScopeTail(ops: seq<Op>, c: Var, derived: set<Var>, m: Renaming, n: nat)
    requires ViewScope(ops, c, derived, m, n) && ops != []
    ensures Ssa(ops[1..]) && Below(ops[1..], n)
    ensures ClosedUnderViews(ops[1..], derived) && DefinesViews(ops[1..], derived)
    ensures WellTypedOp(ops[0]) && AllBelow(Uses(ops[0]), n) && AllBelow(Results(ops[0]), n)
  {
    var post := ops[1..];
    BelowAt(ops, 0, n);
    BelowTail(ops, n);
    forall j | 0 <= j < |post| && UsesAny(post[j], derived) ensures IsViewUser(post[j], derived) {
      assert post[j] == ops[j + 1];
    }
    forall j, v | 0 <= j < |post| && Mentions(post[j], v) && v.id in DeadIds(derived) ensures v in derived {
      assert Mentions(ops[j + 1], v);
    }
    forall j, r | 0 <= j < |post| && r in Results(post[j]) && r in derived
      ensures post[j].ViewLike? && post[j].operand in derived
    {
      assert post[j] == ops[j + 1] && r in Results(ops[j + 1]);
    }
  }

  lemma ViewReadStep(sem: Semantics, op: Op, c: Var, derived: set<Var>, later: set<nat>, m: Renaming, n: nat, s1: State,
                     s2: State)
    requires op.CopyToValue? && op.operand in derived && op.operand.id !in later && op.result !in derived &&
             !op.result.nonValue
    requires Rel(s1, s2, m, n, DeadIds(derived)) && ViewsComposed(sem, c, derived, later, m, s1, s2)
    ensures var m' := m[op.result := Apply(m, op.operand)];
            Rel(Step(sem, op, s1), s2, m', n, DeadIds(derived)) &&
            ViewsComposed(sem, c, derived, later, m', Step(sem, op, s1), s2)
  {
    var s1', m', dead := Step(sem, op, s1), m[op.result := Apply(m, op.operand)], DeadIds(derived);
    assert Lookup(s1', op.result) == Lookup(s2, Apply(m', op.result));
    forall v | Alive(v, n, dead) ensures Lookup(s1', v) == Lookup(s2, Apply(m', v)) && Refers(Lookup(s1', v), n, dead) {
      assert v != op.result ==> Lookup(s1', v) == Lookup(s1, v) && Apply(m', v) == Apply(m, v);
    }
    forall k: nat | k < n && k !in dead ensures SameCell(s1', s2, k) { assert SameCell(s1, s2, k); }
    assert forall d <- derived :: Lookup(s1', d) == Lookup(s1, d) && Apply(m', d) == Apply(m, d);
  }

  lemma ViewStep(sem: Semantics, op: Op, c: Var, derived: set<Var>, later: set<nat>, m: Renaming, n: nat, s1: State,
                 s2: State)
    requires op.ViewLike? && op.operand in derived && op.operand.id !in later && op.result in derived &&
             op.result.nonValue
    requires op.result.id in later && forall v <- m :: m[v].id !in later
    requires forall d <- derived :: d.nonValue && (d.id == op.result.id ==> d == op.result)
    requires Rel(s1, s2, m, n, DeadIds(derived)) && ViewsComposed(sem, c, derived, later, m, s1, s2)
    ensures var m' := m[op.result := Retyped(op.result)];
            var op' := ViewLike(Retyped(op.result), op.view, Apply(m, op.operand));
            Rel(Step(sem, op, s1), Step(sem, op', s2), m', n, DeadIds(derived)) &&
            ViewsComposed(sem, c, derived, later - {op.result.id}, m', Step(sem, op, s1), Step(sem, op', s2))
  {
    var m', dead := m[op.result := Retyped(op.result)], DeadIds(derived);
    var op' := ViewLike(Retyped(op.result), op.view, Apply(m, op.operand));
    var s1', s2' := Step(sem, op, s1), Step(sem, op', s2);
    forall v | Alive(v, n, dead)
      ensures Lookup(s1', v) == Lookup(s2', Apply(m', v)) && Refers(Lookup(s1', v), n, dead)
    {
      assert op.result.id in dead && v != op.result && v != Retyped(op.result);
      assert Apply(m', v) == Apply(m, v);
      assert Lookup(s1, v) == Lookup(s2, Apply(m, v));
    }
    forall k: nat | k < n && k !in dead ensures SameCell(s1', s2', k) { assert SameCell(s1, s2, k); }
    var path := Lookup(s1, op.operand).path;
    ReadPathAppend(sem, s1.heap[c.id], path, op.view);
    forall d | d in derived && d.id !in later - {op.result.id}
      ensures Lookup(s1', d).Ref? && Lookup(s1', d).cell == c.id &&
              Lookup(s2', Apply(m', d)) == Value(ReadPath(sem, s1'.heap[c.id], Lookup(s1', d).path))
    {
      if d != op.result { assert Apply(m', d) == Apply(m, d) != Retyped(op.result); }
    }
  }

  lemma OtherStep(sem: Semantics, op: Op, c: Var, derived: set<Var>, later: set<nat>, m: Renaming, n: nat, s1: State,
                  s2: State)
    requires WellTypedOp(op) && c in derived
    requires forall v <- Uses(op) + Results(op) :: Alive(v, n, DeadIds(derived))
    requires forall r <- Results(op) :: r.id in later
    requires forall v <- m :: v.id !in later && m[v].id !in later
    requires Rel(s1, s2, m, n, DeadIds(derived)) && ViewsComposed(sem, c, derived, later, m, s1, s2)
    ensures Rel(Step(sem, op, s1), Step(sem, Rename(m, op), s2), m, n, DeadIds(derived))
    ensures ViewsComposed(sem, c, derived, later, m, Step(sem, op, s1), Step(sem, Rename(m, op), s2))
  {
    var dead, s1', s2' := DeadIds(derived), Step(sem, op, s1), Step(sem, Rename(m, op), s2);
    assert forall v <- Uses(op) :: v in Uses(op) + Results(op);
    forall r <- Results(op) ensures Untouched(m, r) && Alive(r, n, dead) {
      assert r in Uses(op) + Results(op);
      forall u <- m.Keys ensures m[u] != r && u != r {}
    }
    StepRel(sem, op, s1, s2, m, n, dead);
    assert c.id in dead;
    StepKeepsCell(sem, op, s1, n, dead, c.id);
    assert Results(Rename(m, op)) == Results(op);
    forall d | d in derived && d.id !in later
      ensures Lookup(s1', d) == Lookup(s1, d) && Lookup(s2', Apply(m, d)) == Lookup(s2, Apply(m, d))
    {
      StepKeeps(sem, op, s1, d);
      StepKeeps(sem, Rename(m, op), s2, Apply(m, d));
    }
  }

  /** Ids that no derived value has do not matter. */
  lemma FewerLater(sem: Semantics, c: Var, derived: set<Var>, later: set<nat>, later': set<nat>, m: Renaming, s1: State,
                   s2: State)
    requires ViewsComposed(sem, c, derived, later, m, s1, s2)
    requires forall d <- derived :: d.id in later ==> d.id in later'
    ensures ViewsComposed(sem, c, derived, later', m, s1, s2)
  {
  }

  lemma FirstRead(ops: seq<Op>, c: Var, derived: set<Var>, m: Renaming, n: nat)
    requires ViewScope(ops, c, derived, m, n) && ops != [] && ops[0].CopyToValue? && ops[0].operand in derived
    ensures ops[0].operand.id !in DefIds(ops) && ops[0].result !in derived && !ops[0].result.nonValue
    ensures forall d <- derived :: d.id in DefIds(ops) ==> d.id in DefIds(ops[1..])
    ensures ViewScope(ops[1..], c, derived, m[ops[0].result := Apply(m, ops[0].operand)], n)
  {
    var op := ops[0];
    ViewScopeTail(ops, c, derived, m, n);
    assert op.result in Results(op) && op.operand in Uses(op);
    assert Ids(Results(op)) == {op.result.id} && op.operand.id in Ids(Uses(op));
    assert Mentions(op, op.result);
    assert op.result.id !in DeadIds(derived);
  }

  lemma FirstView(ops: seq<Op>, c: Var, derived: set<Var>, m: Renaming, n: nat)
    requires ViewScope(ops, c, derived, m, n) && ops != [] && ops[0].ViewLike? && ops[0].operand in derived
    ensures ops[0].operand.id !in DefIds(ops) && ops[0].result in derived && ops[0].result.id in DefIds(ops)
    ensures forall d <- derived :: d.id == ops[0].result.id ==> d == ops[0].result
    ensures DefIds(ops) - {ops[0].result.id} == DefIds(ops[1..])
    ensures ViewScope(ops[1..], c, derived, m[ops[0].result := Retyped(ops[0].result)], n)
  {
    var op := ops[0];
    ViewScopeTail(ops, c, derived, m, n);
    assert op.result in Results(op) && op.operand in Uses(op);
    assert Ids(Results(op)) == {op.result.id} && op.operand.id in Ids(Uses(op));
    assert UsesAny(op, derived);
    assert forall d <- derived :: d.nonValue && op.result.nonValue;
  }

  lemma FirstOther(ops: seq<Op>, c: Var, derived: set<Var>, m: Renaming, n: nat)
    requires ViewScope(ops, c, derived, m, n) && ops != [] &&
             !((ops[0].CopyToValue? || ops[0].ViewLike?) && ops[0].operand in derived)
    ensures WellTypedOp(ops[0]) && forall v <- Uses(ops[0]) + Results(ops[0]) :: Alive(v, n, DeadIds(derived))
    ensures forall r <- Results(ops[0]) :: r.id in DefIds(ops)
    ensures forall d <- derived :: d.id in DefIds(ops) ==> d.id in DefIds(ops[1..])
    ensures ViewScope(ops[1..], c, derived, m, n)
  {
    var op := ops[0];
    ViewScopeTail(ops, c, derived, m, n);
    assert forall r <- Results(op) :: r.id in Ids(Results(op));
    assert !UsesAny(op, derived);
    assert forall v <- Uses(op) :: v !in derived;
    assert forall r <- Results(op) :: r !in derived;
    forall v <- Uses(op) + Results(op) ensures Alive(v, n, DeadIds(derived)) {
      assert Mentions(op, v);
    }
    assert forall r <- Results(op) :: r in Uses(op) + Results(op);
    assert Ids(Results(op)) !! DeadIds(derived);
    assert forall d <- derived :: d.id in DeadIds(derived);
  }

  lemma {:induction false} RewriteViewsIsSound(sem: Semantics, ops: seq<Op>, c: Var, derived: set<Var>, m: Renaming,
                                               n: nat, s1: State, s2: State)
    requires ViewScope(ops, c, derived, m, n)
    requires Rel(s1, s2, m, n, DeadIds(derived)) && ViewsComposed(sem, c, derived, DefIds(ops), m, s1, s2)
    ensures var r := RewriteViews(ops, derived, m);
            Rel(Exec(sem, ops, s1), Exec(sem, r.ops, s2), r.renaming, n, DeadIds(derived)) &&
            ViewsComposed(sem, c, derived, {}, r.renaming, Exec(sem, ops, s1), Exec(sem, r.ops, s2))
  {
    if ops != [] {
      var op, s1' := ops[0], Step(sem, ops[0], s1);
      if op.CopyToValue? && op.operand in derived {
        var m' := m[op.result := Apply(m, op.operand)];
        FirstRead(ops, c, derived, m, n);
        ViewReadStep(sem, op, c, derived, DefIds(ops), m, n, s1, s2);
        FewerLater(sem, c, derived, DefIds(ops), DefIds(ops[1..]), m', s1', s2);
        RewriteViewsIsSound(sem, ops[1..], c, derived, m', n, s1', s2);
      } else if op.ViewLike? && op.operand in derived {
        var m' := m[op.result := Retyped(op.result)];
        var op' := ViewLike(Retyped(op.result), op.view, Apply(m, op.operand));
        FirstView(ops, c, derived, m, n);
        ViewStep(sem, op, c, derived, DefIds(ops), m, n, s1, s2);
        var rest := RewriteViews(ops[1..], derived, m');
        RewriteViewsIsSound(sem, ops[1..], c, derived, m', n, s1', Step(sem, op', s2));
        assert ([op'] + rest.ops)[1..] == rest.ops;
      } else {
        FirstOther(ops, c, derived, m, n);
        OtherStep(sem, op, c, derived, DefIds(ops), m, n, s1, s2);
        var rest := RewriteViews(ops[1..], derived, m);
        FewerLater(sem, c, derived, DefIds(ops), DefIds(ops[1..]), m, s1', Step(sem, Rename(m, op), s2));
        RewriteViewsIsSound(sem, ops[1..], c, derived, m, n, s1', Step(sem, Rename(m, op), s2));
        assert ([Rename(m, op)] + rest.ops)[1..] == rest.ops;
      }
    }
  }

  /** The subgraph found by the worklist meets the conditions of the rewrite. */
  lemma SubgraphScope(ops: seq<Op>, i: nat, n: nat, derived: set<Var>)
    requires Ssa(ops) && Below(ops, n) && SingleType(ops) && i < |ops| && ops[i].CopyToNonValue?
    requires IsViewSubgraph(ops[i + 1..], ops[i].result, derived)
    ensures ViewScope(ops[i + 1..], ops[i].result, derived, map[ops[i].result := ops[i].operand], n)
  {
    CopyIds(ops, i, n);
    BelowParts(ops, i, n);
    TailSingleType(ops, i + 1);
    NoDefOf(ops, i);
    DerivedIdsAreDerived(ops[i + 1..], ops[i].result, derived);
    DerivedAreViews(ops[i + 1..], ops[i].result, derived);
    DerivedDefinedLater(ops[i + 1..], ops[i].result, derived);
    assert DefinesViews(ops[i + 1..], derived);
    ScopeOfRoot(ops[i + 1..], ops[i].result, ops[i].operand, derived, n);
  }

  /** The scope in which only the copy itself has been renamed. */
  lemma ScopeOfRoot(post: seq<Op>, c: Var, x: Var, derived: set<Var>, n: nat)
    requires Ssa(post) && Below(post, n) && DefinesViews(post, derived) && IsViewSubgraph(post, c, derived)
    requires !x.nonValue && c.id !in DefIds(post) && x.id !in DefIds(post)
    requires forall d <- derived :: d == c || d.id in DefIds(post)
    ensures ViewScope(post, c, derived, map[c := x], n)
  {
  }

  /** Every mention of the id of `c` is a mention of `c`. */
  ghost predicate OneVar(ops: seq<Op>, c: Var) {
    forall j, v | 0 <= j < |ops| && Mentions(ops[j], v) && v.id == c.id :: v == c
  }

  lemma NoDefOf(ops: seq<Op>, i: nat)
    requires SingleType(ops) && i < |ops| && ops[i].CopyToNonValue?
    ensures OneVar(ops[i + 1..], ops[i].result)
  {
    var post, c := ops[i + 1..], ops[i].result;
    forall j, v | 0 <= j < |post| && Mentions(post[j], v) && v.id == c.id ensures v == c {
      assert post[j] == ops[i + 1 + j];
      assert Mentions(ops[i], c);
    }
  }

  lemma DerivedIdsAreDerived(post: seq<Op>, c: Var, derived: set<Var>)
    requires SingleType(post) && IsViewSubgraph(post, c, derived) && OneVar(post, c)
    ensures MentionsDerivedOnly(post, derived)
  {
    forall j, v | 0 <= j < |post| && Mentions(post[j], v) && v.id in DeadIds(derived) ensures v in derived {
      var d :| d in derived && d.id == v.id;
      if d != c { DerivedHasId(post, c, derived, d, j, v); }
    }
  }

  lemma DerivedHasId(post: seq<Op>, c: Var, derived: set<Var>, d: Var, j: nat, v: Var)
    requires SingleType(post) && IsViewSubgraph(post, c, derived) && d in derived && d != c
    requires j < |post| && Mentions(post[j], v) && v.id == d.id
    ensures v == d
  {
    var k := DerivedIsView(post, c, derived, d);
    SameIdSameVar(post, k, j, d, v);
  }

  lemma DerivedIsView(post: seq<Op>, c: Var, derived: set<Var>, d: Var) returns (k: nat)
    requires IsViewSubgraph(post, c, derived) && d in derived && d != c
    ensures k < |post| && post[k].ViewLike? && post[k].operand in derived && post[k].result == d && Mentions(post[k], d)
  {
    k :| 0 <= k < |post| && post[k].ViewLike? && post[k].operand in derived && post[k].result == d;
  }

  lemma SameIdSameVar(ops: seq<Op>, j: nat, k: nat, v: Var, w: Var)
    requires SingleType(ops) && j < |ops| && k < |ops| && Mentions(ops[j], v) && Mentions(ops[k], w) && v.id == w.id
    ensures v == w
  {
  }

  lemma DerivedAreViews(post: seq<Op>, c: Var, derived: set<Var>)
    requires Ssa(post) && IsViewSubgraph(post, c, derived) && c.id !in DefIds(post)
    ensures forall j, r | 0 <= j < |post| && r in Results(post[j]) && r in derived ::
              post[j].ViewLike? && post[j].operand in derived
  {
    forall j, r | 0 <= j < |post| && r in Results(post[j]) && r in derived
      ensures post[j].ViewLike? && post[j].operand in derived
    {
      DefinedIn(post, j);
      assert r.id in Ids(Results(post[j]));
      assert r != c;
      var k :| 0 <= k < |post| && post[k].ViewLike? && post[k].operand in derived && post[k].result == r;
      assert r in Results(post[k]) && r.id in Ids(Results(post[k]));
      SsaDistinct(post, j, k);
    }
  }

  lemma DerivedDefinedLater(ops: seq<Op>, c: Var, derived: set<Var>)
    requires IsViewSubgraph(ops, c, derived)
    ensures forall d <- derived :: d == c || d.id in DefIds(ops)
  {
    forall d <- derived ensures d == c || d.id in DefIds(ops) {
      if d != c {
        var k :| 0 <= k < |ops| && ops[k].ViewLike? && ops[k].operand in derived && ops[k].result == d;
        DefinedIn(ops, k);
        assert d in Results(ops[k]) && d.id in Ids(Results(ops[k]));
      }
    }
  }

  /** The state right after the copy, in both runs. */
  lemma AfterCopy(sem: Semantics, ops: seq<Op>, i: nat, n: nat, derived: set<Var>, s: State)
    requires Ssa(ops) && Below(ops, n) && i < |ops| && ops[i].CopyToNonValue?
    requires IsViewSubgraph(ops[i + 1..], ops[i].result, derived)
    requires Typed(s) && Clean(s, n, DeadIds(derived))
    ensures var s1 := Step(sem, ops[i], Exec(sem, ops[..i], s)); var m := map[ops[i].result := ops[i].operand];
            Rel(s1, s1, m, n, DeadIds(derived)) &&
            ViewsComposed(sem, ops[i].result, derived, DefIds(ops[i + 1..]), m, s1, s1)
  {
    var pre, copy, post, dead := ops[..i], ops[i], ops[i + 1..], DeadIds(derived);
    var c, s', m := copy.result, Exec(sem, ops[..i], s), map[copy.result := copy.operand];
    SplitAt(ops, i);
    CopyIds(ops, i, n);
    BelowParts(ops, i, n);
    DerivedDefinedLater(post, c, derived);
    assert DefIds(pre) + UseIds(pre) !! dead;
    ExecSelf(sem, pre, n, dead, s);
    ExecTyped(sem, pre, s);
    var s1 := Step(sem, copy, s');
    assert c.id in dead;
    forall v | Alive(v, n, dead) ensures Lookup(s1, v) == Lookup(s1, Apply(m, v)) && Refers(Lookup(s1, v), n, dead) {
      assert v != c && Lookup(s1, v) == Lookup(s', v);
    }
    assert Lookup(s1, copy.operand) == Lookup(s', copy.operand);
    assert ReadPath(sem, s1.heap[c.id], []) == s1.heap[c.id];
  }

  /**
   A copy whose transitive users are only views and reads can become pure values: every value and
   cell outside the subgraph is unchanged, every read gives the same contents, and every view is
   the composed view of the original contents.
   */
  lemma ViewsToValuesIsSound(sem: Semantics, ops: seq<Op>, i: nat, n: nat, derived: set<Var>, s: State)
    requires Ssa(ops) && Below(ops, n) && SingleType(ops) && Typed(s)
    requires i < |ops| && ops[i].CopyToNonValue? && IsViewSubgraph(ops[i + 1..], ops[i].result, derived)
    requires Clean(s, n, DeadIds(derived))
    ensures var r := ViewsToValues(ops, i, derived);
            Rel(Exec(sem, ops, s), Exec(sem, r.ops, s), r.renaming, n, DeadIds(derived)) &&
            ViewsComposed(sem, ops[i].result, derived, {}, r.renaming, Exec(sem, ops, s), Exec(sem, r.ops, s))
  {
    var post, c, m := ops[i + 1..], ops[i].result, map[ops[i].result := ops[i].operand];
    var s1 := Step(sem, ops[i], Exec(sem, ops[..i], s));
    SubgraphScope(ops, i, n, derived);
    AfterCopy(sem, ops, i, n, derived, s);
    RewriteViewsIsSound(sem, post, c, derived, m, n, s1, s1);
    ViewRuns(sem, ops, i, derived, s);
  }

  lemma ViewRuns(sem: Semantics, ops: seq<Op>, i: nat, derived: set<Var>, s: State)
    requires i < |ops| && ops[i].CopyToNonValue?
    ensures var s1 := Step(sem, ops[i], Exec(sem, ops[..i], s));
            Exec(sem, ops, s) == Exec(sem, ops[i + 1..], s1) &&
            Exec(sem, ViewsToValues(ops, i, derived).ops, s) ==
              Exec(sem, RewriteViews(ops[i + 1..], derived, map[ops[i].result := ops[i].operand]).ops, s1)
  {
    var pre, copy, post := ops[..i], ops[i], ops[i + 1..];
    var rewritten := RewriteViews(post, derived, map[copy.result := copy.operand]).ops;
    assert ops == pre + [copy] + post && ops[..i + 1] == pre + [copy];
    ExecThree(sem, pre, [copy], post, s);
    ExecThree(sem, pre, [copy], rewritten, s);
    SingleExec(sem, copy, Exec(sem, pre, s));
  }
}
