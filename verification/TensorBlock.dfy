/**
 A block of torch ops over immutable tensor values and mutable tensors. A mutable tensor is a cell
 in the heap or a view of one; a cell is named by the SSA id of the op result that allocates it.
 */
module TensorBlock {
  // The contents of a tensor, or any other immutable value.
  type Data = seq<int>

  // A view-like op with its static arguments, such as unsqueeze or flatten.
  type View = string

  // An op name, split at its dots: torch, aten, add, Tensor.
  type OpName = seq<string>

  // An SSA value; `nonValue` says that its type is a mutable tensor type.
  datatype Var = Var(id: nat, nonValue: bool)

  datatype Op =
    | CopyToNonValue(result: Var, operand: Var)
    | CopyToValue(result: Var, operand: Var)
    | Overwrite(value: Var, overwritten: Var)
    | ViewLike(result: Var, view: View, operand: Var)
    // An op with value semantics: new results from the contents of its operands.
    | Kernel(results: seq<Var>, name: OpName, operands: seq<Var>)
    // A trailing-underscore op: updates its first operand and returns it.
    | InPlace(result: Var, name: OpName, operands: seq<Var>)
    | NonValueLiteral(result: Var, literal: Data)
    | ValueLiteral(result: Var, literal: Data)
    // Any other op: may also overwrite each mutable operand.
    | Other(results: seq<Var>, name: OpName, operands: seq<Var>)

  datatype Val = Value(data: Data) | Ref(cell: nat, path: seq<View>)

  datatype State = State(env: map<Var, Val>, heap: map<nat, Data>)

  /** What the ops compute: results of kernels, side effects of other ops, and views with their write-back. */
  datatype Semantics = Semantics(
    kernel: (OpName, seq<Data>, nat) -> Data,
    effect: (OpName, seq<Data>, nat) -> Data,
    view: (View, Data) -> Data,
    put: (View, Data, Data) -> Data)

  // ---- Execution ----

  function Lookup(s: State, v: Var): Val {
    if v in s.env then s.env[v] else Value([])
  }

  /** The contents seen through a chain of views, innermost first. */
  function ReadPath(sem: Semantics, base: Data, path: seq<View>): Data
    decreases |path|
  {
    if path == [] then base else ReadPath(sem, sem.view(path[0], base), path[1..])
  }

  function WritePath(sem: Semantics, base: Data, path: seq<View>, data: Data): Data
    decreases |path|
  {
    if path == [] then data
    else sem.put(path[0], base, WritePath(sem, sem.view(path[0], base), path[1..], data))
  }

  function Read(sem: Semantics, s: State, v: Var): Data {
    match Lookup(s, v)
    case Value(data) => data
    case Ref(cell, path) => if cell in s.heap then ReadPath(sem, s.heap[cell], path) else []
  }

  function ReadAll(sem: Semantics, s: State, vs: seq<Var>): (r: seq<Data>)
    ensures |r| == |vs|
  {
    seq(|vs|, i requires 0 <= i < |vs| => Read(sem, s, vs[i]))
  }

  function Write(sem: Semantics, s: State, v: Var, data: Data): State {
    match Lookup(s, v)
    case Value(_) => s
    case Ref(cell, path) =>
      if cell in s.heap then s.(heap := s.heap[cell := WritePath(sem, s.heap[cell], path, data)]) else s
  }

  /** Defines `r`: a mutable result is a new cell. */
  function Bind(s: State, r: Var, data: Data): State {
    if r.nonValue then State(s.env[r := Ref(r.id, [])], s.heap[r.id := data])
    else s.(env := s.env[r := Value(data)])
  }

  function BindAll(s: State, results: seq<Var>, datas: seq<Data>): State
    requires |results| == |datas|
    decreases |results|
  {
    if results == [] then s
    else BindAll(Bind(s, results[0], datas[0]), results[1..], datas[1..])
  }

  function WriteAll(sem: Semantics, s: State, operands: seq<Var>, datas: seq<Data>): State
    requires |operands| == |datas|
    decreases |operands|
  {
    if operands == [] then s
    else WriteAll(sem, Write(sem, s, operands[0], datas[0]), operands[1..], datas[1..])
  }

  /** The first `n` outputs of an op on the given contents. */
  function Outputs(f: (OpName, seq<Data>, nat) -> Data, name: OpName, datas: seq<Data>, n: nat): (r: seq<Data>)
    ensures |r| == n
  {
    seq(n, i requires 0 <= i < n => f(name, datas, i))
  }

  predicate EndsInUnderscore(name: OpName) {
    |name| >= 3 && name[2] != "" && name[2][|name[2]| - 1] == '_'
  }

  /** The pure variant an in-place op stands for: its third fragment without the trailing underscore. */
  function NoUnderscore(name: OpName): (pure: OpName)
    ensures |pure| == |name| && forall i | 0 <= i < |name| && i != 2 :: pure[i] == name[i]
    ensures EndsInUnderscore(name) ==> name[2] == pure[2] + "_"
  {
    if |name| >= 3 && name[2] != "" then name[2 := name[2][..|name[2]| - 1]] else name
  }

  function Step(sem: Semantics, op: Op, s: State): State {
    match op
    case CopyToNonValue(r, x) => Bind(s, r, Read(sem, s, x))
    case CopyToValue(r, x) => Bind(s, r, Read(sem, s, x))
    case Overwrite(x, t) => Write(sem, s, t, Read(sem, s, x))
    case ViewLike(r, view, x) =>
      var bound :=
        match Lookup(s, x)
        case Value(data) => Value(sem.view(view, data))
        case Ref(c, path) => Ref(c, path + [view]);
      s.(env := s.env[r := bound])
    case Kernel(rs, name, xs) =>
      BindAll(s, rs, Outputs(sem.kernel, name, ReadAll(sem, s, xs), |rs|))
    case InPlace(r, name, xs) =>
      if xs == [] then s
      else
        var s' := Write(sem, s, xs[0], sem.kernel(NoUnderscore(name), ReadAll(sem, s, xs), 0));
        s'.(env := s'.env[r := Lookup(s, xs[0])])
    case NonValueLiteral(r, data) => Bind(s, r, data)
    case ValueLiteral(r, data) => Bind(s, r, data)
    case Other(rs, name, xs) =>
      var datas := ReadAll(sem, s, xs);
      BindAll(WriteAll(sem, s, xs, Outputs(sem.effect, name, datas, |xs|)), rs, Outputs(sem.kernel, name, datas, |rs|))
  }

  function Exec(sem: Semantics, ops: seq<Op>, s: State): State {
    if ops == [] then s else Exec(sem, ops[1..], Step(sem, ops[0], s))
  }

  lemma {:induction false} ExecAppend(sem: Semantics, a: seq<Op>, b: seq<Op>, s: State)
    ensures Exec(sem, a + b, s) == Exec(sem, b, Exec(sem, a, s))
  {
    if a == [] {
      assert a + b == b;
    } else {
      assert (a + b)[1..] == a[1..] + b;
      ExecAppend(sem, a[1..], b, Step(sem, a[0], s));
    }
  }

  // ---- Definitions, uses and types ----

  function Results(op: Op): seq<Var> {
    match op
    case Overwrite(_, _) => []
    case Kernel(rs, _, _) => rs
    case Other(rs, _, _) => rs
    case _ => [op.result]
  }

  function Uses(op: Op): seq<Var> {
    match op
    case Overwrite(x, t) => [x, t]
    case Kernel(_, _, xs) => xs
    case InPlace(_, _, xs) => xs
    case Other(_, _, xs) => xs
    case NonValueLiteral(_, _) => []
    case ValueLiteral(_, _) => []
    case _ => [op.operand]
  }

  function Ids(vs: seq<Var>): set<nat> {
    set v | v in vs :: v.id
  }

  /** The operand and result types each op demands. */
  predicate WellTypedOp(op: Op) {
    match op
    case CopyToNonValue(r, x) => r.nonValue && !x.nonValue
    case CopyToValue(r, x) => !r.nonValue && x.nonValue
    case Overwrite(x, t) => !x.nonValue && t.nonValue
    case ViewLike(r, _, x) => r.nonValue == x.nonValue
    case InPlace(r, name, xs) =>
      r.nonValue && xs != [] && xs[0].nonValue && EndsInUnderscore(name)
    case NonValueLiteral(r, _) => r.nonValue
    case ValueLiteral(r, _) => !r.nonValue
    case _ => true
  }

  function DefIds(ops: seq<Op>): set<nat> {
    if ops == [] then {} else Ids(Results(ops[0])) + DefIds(ops[1..])
  }

  function UseIds(ops: seq<Op>): set<nat> {
    if ops == [] then {} else Ids(Uses(ops[0])) + UseIds(ops[1..])
  }

  /** SSA form: an id is defined once, and only used after its definition. */
  ghost predicate Ssa(ops: seq<Op>) {
    ops == [] ||
    (WellTypedOp(ops[0]) && Distinct(Results(ops[0])) &&
     Ids(Uses(ops[0])) !! Ids(Results(ops[0])) &&
     Ids(Uses(ops[0])) + Ids(Results(ops[0])) !! DefIds(ops[1..]) && Ssa(ops[1..]))
  }

  ghost predicate Distinct(vs: seq<Var>) {
    forall i, j | 0 <= i < j < |vs| :: vs[i].id != vs[j].id
  }

  ghost predicate Below(ops: seq<Op>, n: nat) {
    forall i <- DefIds(ops) + UseIds(ops) :: i < n
  }

  predicate AllBelow(vs: seq<Var>, n: nat) {
    forall v <- vs :: v.id < n
  }

  lemma {:induction false} BelowAt(ops: seq<Op>, i: nat, n: nat)
    requires Below(ops, n) && i < |ops|
    ensures AllBelow(Uses(ops[i]), n) && AllBelow(Results(ops[i]), n)
  {
    assert Below(ops[1..], n) by {
      forall k <- DefIds(ops[1..]) + UseIds(ops[1..]) ensures k < n {
        assert k in DefIds(ops) + UseIds(ops);
      }
    }
    if i == 0 {
      forall v <- Uses(ops[0]) + Results(ops[0]) ensures v.id < n {
        assert v.id in Ids(Uses(ops[0])) || v.id in Ids(Results(ops[0]));
        assert v.id in DefIds(ops) + UseIds(ops);
      }
      assert forall v <- Uses(ops[0]) :: v in Uses(ops[0]) + Results(ops[0]);
      assert forall v <- Results(ops[0]) :: v in Uses(ops[0]) + Results(ops[0]);
    } else {
      BelowAt(ops[1..], i - 1, n);
    }
  }

  lemma SingleExec(sem: Semantics, op: Op, s: State)
    ensures Exec(sem, [op], s) == Step(sem, op, s)
  {
    assert [op][1..] == [];
  }

  lemma SingleIds(op: Op)
    ensures DefIds([op]) == Ids(Results(op)) && UseIds([op]) == Ids(Uses(op))
    ensures Ssa([op]) <==> WellTypedOp(op) && Distinct(Results(op)) && Ids(Uses(op)) !! Ids(Results(op))
  {
    assert [op][1..] == [];
  }

  lemma {:induction false} IdsAppend(a: seq<Op>, b: seq<Op>)
    ensures DefIds(a + b) == DefIds(a) + DefIds(b)
    ensures UseIds(a + b) == UseIds(a) + UseIds(b)
  {
    if a == [] {
      assert a + b == b;
    } else {
      assert (a + b)[1..] == a[1..] + b;
      IdsAppend(a[1..], b);
    }
  }

  lemma {:induction false} SsaAppend(a: seq<Op>, b: seq<Op>)
    ensures Ssa(a + b) <==> Ssa(a) && Ssa(b) && DefIds(a) + UseIds(a) !! DefIds(b)
  {
    if a == [] {
      assert a + b == b;
    } else {
      assert (a + b)[1..] == a[1..] + b;
      SsaAppend(a[1..], b);
      IdsAppend(a[1..], b);
    }
  }

  /** Putting three parts of a block together. */
  lemma Assemble(a: seq<Op>, b: seq<Op>, c: seq<Op>)
    ensures DefIds(a + b + c) == DefIds(a) + DefIds(b) + DefIds(c)
    ensures UseIds(a + b + c) == UseIds(a) + UseIds(b) + UseIds(c)
    ensures Ssa(a + b + c) <==>
            Ssa(a) && Ssa(b) && Ssa(c) &&
            DefIds(a) + UseIds(a) !! DefIds(b) && DefIds(a) + UseIds(a) !! DefIds(c) &&
            DefIds(b) + UseIds(b) !! DefIds(c)
  {
    SsaAppend(a + b, c);
    SsaAppend(a, b);
    IdsAppend(a + b, c);
    IdsAppend(a, b);
  }

  lemma ExecThree(sem: Semantics, a: seq<Op>, b: seq<Op>, c: seq<Op>, s: State)
    ensures Exec(sem, a + b + c, s) == Exec(sem, c, Exec(sem, b, Exec(sem, a, s)))
  {
    ExecAppend(sem, a + b, c, s);
    ExecAppend(sem, a, b, s);
  }

  /** The SSA conditions around one op of a block. */
  lemma SplitAt(ops: seq<Op>, i: nat)
    requires Ssa(ops) && i < |ops|
    ensures Ssa(ops[..i]) && Ssa(ops[i + 1..])
    ensures WellTypedOp(ops[i]) && Distinct(Results(ops[i])) && Ids(Uses(ops[i])) !! Ids(Results(ops[i]))
    ensures DefIds(ops[..i]) + UseIds(ops[..i]) !! Ids(Results(ops[i]))
    ensures DefIds(ops[..i]) + UseIds(ops[..i]) !! DefIds(ops[i + 1..])
    ensures Ids(Uses(ops[i])) + Ids(Results(ops[i])) !! DefIds(ops[i + 1..])
    ensures DefIds(ops) == DefIds(ops[..i]) + Ids(Results(ops[i])) + DefIds(ops[i + 1..])
    ensures UseIds(ops) == UseIds(ops[..i]) + Ids(Uses(ops[i])) + UseIds(ops[i + 1..])
  {
    var tail := ops[i..];
    assert ops == ops[..i] + tail && tail[0] == ops[i] && tail[1..] == ops[i + 1..];
    SsaAppend(ops[..i], tail);
    IdsAppend(ops[..i], tail);
  }

  lemma BelowParts(ops: seq<Op>, i: nat, n: nat)
    requires Ssa(ops) && i < |ops| && Below(ops, n)
    ensures Below(ops[..i], n) && Below(ops[i + 1..], n)
  {
    SplitAt(ops, i);
    forall k <- DefIds(ops[..i]) + UseIds(ops[..i]) ensures k < n { assert k in DefIds(ops) + UseIds(ops); }
    var post := ops[i + 1..];
    forall k <- DefIds(post) + UseIds(post) ensures k < n { assert k in DefIds(ops) + UseIds(ops); }
  }

  /** Every immutable value holds data. */
  ghost predicate Typed(s: State) {
    forall v: Var :: !v.nonValue ==> Lookup(s, v).Value?
  }

  lemma {:induction false} BindAllTyped(s: State, results: seq<Var>, datas: seq<Data>)
    requires Typed(s) && |results| == |datas|
    ensures Typed(BindAll(s, results, datas))
    decreases |results|
  {
    if results != [] { BindAllTyped(Bind(s, results[0], datas[0]), results[1..], datas[1..]); }
  }

  lemma {:induction false} WriteAllEnv(sem: Semantics, s: State, operands: seq<Var>, datas: seq<Data>)
    requires |operands| == |datas|
    ensures WriteAll(sem, s, operands, datas).env == s.env
    decreases |operands|
  {
    if operands != [] { WriteAllEnv(sem, Write(sem, s, operands[0], datas[0]), operands[1..], datas[1..]); }
  }

  lemma StepTyped(sem: Semantics, op: Op, s: State)
    requires Typed(s) && WellTypedOp(op)
    ensures Typed(Step(sem, op, s))
  {
    match op
    case Kernel(rs, name, xs) =>
      BindAllTyped(s, rs, Outputs(sem.kernel, name, ReadAll(sem, s, xs), |rs|));
    case Other(rs, name, xs) =>
      var datas := ReadAll(sem, s, xs);
      var written := Outputs(sem.effect, name, datas, |xs|);
      WriteAllEnv(sem, s, xs, written);
      BindAllTyped(WriteAll(sem, s, xs, written), rs, Outputs(sem.kernel, name, datas, |rs|));
    case _ =>
  }

  // ---- Renaming uses ----

  type Renaming = map<Var, Var>

  function Apply(m: Renaming, v: Var): Var {
    if v in m then m[v] else v
  }

  function ApplyAll(m: Renaming, vs: seq<Var>): (r: seq<Var>)
    ensures |r| == |vs|
  {
    seq(|vs|, i requires 0 <= i < |vs| => Apply(m, vs[i]))
  }

  /** All uses replaced, results kept. */
  function Rename(m: Renaming, op: Op): Op {
    match op
    case CopyToNonValue(r, x) => CopyToNonValue(r, Apply(m, x))
    case CopyToValue(r, x) => CopyToValue(r, Apply(m, x))
    case Overwrite(x, t) => Overwrite(Apply(m, x), Apply(m, t))
    case ViewLike(r, view, x) => ViewLike(r, view, Apply(m, x))
    case Kernel(rs, name, xs) => Kernel(rs, name, ApplyAll(m, xs))
    case InPlace(r, name, xs) => InPlace(r, name, ApplyAll(m, xs))
    case Other(rs, name, xs) => Other(rs, name, ApplyAll(m, xs))
    case _ => op
  }

  function RenameAll(m: Renaming, ops: seq<Op>): (r: seq<Op>)
    ensures |r| == |ops|
  {
    seq(|ops|, i requires 0 <= i < |ops| => Rename(m, ops[i]))
  }

  // ---- Relating two runs ----

  predicate Alive(v: Var, n: nat, dead: set<nat>) {
    v.id < n && v.id !in dead
  }

  /**
   Two states agree up to renaming: on every value with an id below `n` that is not dead, and on
   the contents of every such cell. No agreed value refers to any other cell.
   */
  ghost predicate Rel(s1: State, s2: State, m: Renaming, n: nat, dead: set<nat>) {
    (forall v | Alive(v, n, dead) :: Lookup(s1, v) == Lookup(s2, Apply(m, v)) && Refers(Lookup(s1, v), n, dead)) &&
    (forall c: nat | c < n && c !in dead :: SameCell(s1, s2, c))
  }

  predicate Refers(v: Val, n: nat, dead: set<nat>) {
    v.Ref? ==> v.cell < n && v.cell !in dead
  }

  predicate SameCell(s1: State, s2: State, c: nat) {
    (c in s1.heap <==> c in s2.heap) && (c in s1.heap ==> s1.heap[c] == s2.heap[c])
  }

  /** No use is renamed to or from `r`. */
  predicate Untouched(m: Renaming, r: Var) {
    r !in m.Keys && r !in m.Values
  }

  lemma ReadRel(sem: Semantics, s1: State, s2: State, m: Renaming, n: nat, dead: set<nat>, v: Var)
    requires Rel(s1, s2, m, n, dead) && Alive(v, n, dead)
    ensures Read(sem, s1, v) == Read(sem, s2, Apply(m, v))
  {
    assert Lookup(s1, v).Ref? ==> SameCell(s1, s2, Lookup(s1, v).cell);
  }

  lemma ReadAllRel(sem: Semantics, s1: State, s2: State, m: Renaming, n: nat, dead: set<nat>, vs: seq<Var>)
    requires Rel(s1, s2, m, n, dead) && forall v <- vs :: Alive(v, n, dead)
    ensures ReadAll(sem, s1, vs) == ReadAll(sem, s2, ApplyAll(m, vs))
  {
    forall i | 0 <= i < |vs| ensures ReadAll(sem, s1, vs)[i] == ReadAll(sem, s2, ApplyAll(m, vs))[i] {
      ReadRel(sem, s1, s2, m, n, dead, vs[i]);
    }
  }

  lemma WriteRel(sem: Semantics, s1: State, s2: State, m: Renaming, n: nat, dead: set<nat>, v: Var, data: Data)
    requires Rel(s1, s2, m, n, dead) && Alive(v, n, dead)
    ensures Rel(Write(sem, s1, v, data), Write(sem, s2, Apply(m, v), data), m, n, dead)
  {
    var t1, t2 := Write(sem, s1, v, data), Write(sem, s2, Apply(m, v), data);
    assert Lookup(s1, v).Ref? ==> SameCell(s1, s2, Lookup(s1, v).cell);
    forall u | Alive(u, n, dead) ensures Lookup(t1, u) == Lookup(t2, Apply(m, u)) && Refers(Lookup(t1, u), n, dead) {
      assert Lookup(s1, u) == Lookup(s2, Apply(m, u));
    }
    forall c: nat | c < n && c !in dead ensures SameCell(t1, t2, c) {
      assert SameCell(s1, s2, c);
    }
  }

  lemma {:induction false} WriteAllRel(sem: Semantics, s1: State, s2: State, m: Renaming, n: nat, dead: set<nat>,
                                       vs: seq<Var>, datas: seq<Data>)
    requires |vs| == |datas|
    requires Rel(s1, s2, m, n, dead) && forall v <- vs :: Alive(v, n, dead)
    ensures Rel(WriteAll(sem, s1, vs, datas), WriteAll(sem, s2, ApplyAll(m, vs), datas), m, n, dead)
    decreases |vs|
  {
    if vs != [] {
      WriteRel(sem, s1, s2, m, n, dead, vs[0], datas[0]);
      assert ApplyAll(m, vs)[1..] == ApplyAll(m, vs[1..]);
      WriteAllRel(sem, Write(sem, s1, vs[0], datas[0]), Write(sem, s2, Apply(m, vs[0]), datas[0]), m, n, dead,
                  vs[1..], datas[1..]);
    }
  }

  /** Binding a live result to the same value on both sides. */
  lemma EnvRel(s1: State, s2: State, m: Renaming, n: nat, dead: set<nat>, r: Var, val: Val)
    requires Rel(s1, s2, m, n, dead) && Untouched(m, r) && Refers(val, n, dead)
    ensures Rel(s1.(env := s1.env[r := val]), s2.(env := s2.env[r := val]), m, n, dead)
  {
    var t1, t2 := s1.(env := s1.env[r := val]), s2.(env := s2.env[r := val]);
    forall u | Alive(u, n, dead) ensures Lookup(t1, u) == Lookup(t2, Apply(m, u)) && Refers(Lookup(t1, u), n, dead) {
      assert Lookup(s1, u) == Lookup(s2, Apply(m, u));
      assert u in m ==> m[u] in m.Values;
    }
    forall c: nat | c < n && c !in dead ensures SameCell(t1, t2, c) {
      assert SameCell(s1, s2, c);
    }
  }

  lemma BindRel(s1: State, s2: State, m: Renaming, n: nat, dead: set<nat>, r: Var, data: Data)
    requires Rel(s1, s2, m, n, dead) && Untouched(m, r) && Alive(r, n, dead)
    ensures Rel(Bind(s1, r, data), Bind(s2, r, data), m, n, dead)
  {
    if r.nonValue {
      var t1, t2 := s1.(heap := s1.heap[r.id := data]), s2.(heap := s2.heap[r.id := data]);
      assert Rel(t1, t2, m, n, dead) by {
        forall u | Alive(u, n, dead)
          ensures Lookup(t1, u) == Lookup(t2, Apply(m, u)) && Refers(Lookup(t1, u), n, dead)
        {
          assert Lookup(s1, u) == Lookup(s2, Apply(m, u));
        }
        forall c: nat | c < n && c !in dead ensures SameCell(t1, t2, c) {
          assert SameCell(s1, s2, c);
        }
      }
      EnvRel(t1, t2, m, n, dead, r, Ref(r.id, []));
    } else {
      EnvRel(s1, s2, m, n, dead, r, Value(data));
    }
  }

  lemma {:induction false} BindAllRel(s1: State, s2: State, m: Renaming, n: nat, dead: set<nat>,
                                      rs: seq<Var>, datas: seq<Data>)
    requires |rs| == |datas|
    requires Rel(s1, s2, m, n, dead) && forall r <- rs :: Untouched(m, r) && Alive(r, n, dead)
    ensures Rel(BindAll(s1, rs, datas), BindAll(s2, rs, datas), m, n, dead)
    decreases |rs|
  {
    if rs != [] {
      BindRel(s1, s2, m, n, dead, rs[0], datas[0]);
      BindAllRel(Bind(s1, rs[0], datas[0]), Bind(s2, rs[0], datas[0]), m, n, dead, rs[1..], datas[1..]);
    }
  }

  /** An op over live values, and the op with its uses renamed, keep the two runs related. */
  lemma StepRel(sem: Semantics, op: Op, s1: State, s2: State, m: Renaming, n: nat, dead: set<nat>)
    requires Rel(s1, s2, m, n, dead)
    requires forall v <- Uses(op) :: Alive(v, n, dead)
    requires forall r <- Results(op) :: Untouched(m, r) && Alive(r, n, dead)
    ensures Rel(Step(sem, op, s1), Step(sem, Rename(m, op), s2), m, n, dead)
  {
    match op
    case CopyToNonValue(r, x) =>
      ReadRel(sem, s1, s2, m, n, dead, x);
      BindRel(s1, s2, m, n, dead, r, Read(sem, s1, x));
    case CopyToValue(r, x) =>
      ReadRel(sem, s1, s2, m, n, dead, x);
      BindRel(s1, s2, m, n, dead, r, Read(sem, s1, x));
    case Overwrite(x, t) =>
      ReadRel(sem, s1, s2, m, n, dead, x);
      WriteRel(sem, s1, s2, m, n, dead, t, Read(sem, s1, x));
    case ViewLike(r, view, x) =>
      var bound :=
        match Lookup(s1, x)
        case Value(data) => Value(sem.view(view, data))
        case Ref(c, path) => Ref(c, path + [view]);
      EnvRel(s1, s2, m, n, dead, r, bound);
    case Kernel(rs, name, xs) =>
      ReadAllRel(sem, s1, s2, m, n, dead, xs);
      BindAllRel(s1, s2, m, n, dead, rs, Outputs(sem.kernel, name, ReadAll(sem, s1, xs), |rs|));
    case InPlace(r, name, xs) =>
      if xs != [] {
        assert xs[0] in Uses(op);
        ReadAllRel(sem, s1, s2, m, n, dead, xs);
        var data := sem.kernel(NoUnderscore(name), ReadAll(sem, s1, xs), 0);
        WriteRel(sem, s1, s2, m, n, dead, xs[0], data);
        EnvRel(Write(sem, s1, xs[0], data), Write(sem, s2, Apply(m, xs[0]), data), m, n, dead, r, Lookup(s1, xs[0]));
      }
    case NonValueLiteral(r, data) => BindRel(s1, s2, m, n, dead, r, data);
    case ValueLiteral(r, data) => BindRel(s1, s2, m, n, dead, r, data);
    case Other(rs, name, xs) =>
      ReadAllRel(sem, s1, s2, m, n, dead, xs);
      var datas := ReadAll(sem, s1, xs);
      var written := Outputs(sem.effect, name, datas, |xs|);
      WriteAllRel(sem, s1, s2, m, n, dead, xs, written);
      BindAllRel(WriteAll(sem, s1, xs, written), WriteAll(sem, s2, ApplyAll(m, xs), written), m, n, dead, rs,
                 Outputs(sem.kernel, name, datas, |rs|));
  }

  ghost predicate AllAlive(ids: set<nat>, n: nat, dead: set<nat>) {
    forall i <- ids :: i < n && i !in dead
  }

  lemma BelowIsAlive(ops: seq<Op>, n: nat, dead: set<nat>)
    requires Below(ops, n) && DefIds(ops) + UseIds(ops) !! dead
    ensures AllAlive(DefIds(ops), n, dead) && AllAlive(UseIds(ops), n, dead)
  {
    forall i <- DefIds(ops) ensures i < n && i !in dead { assert i in DefIds(ops) + UseIds(ops); }
    forall i <- UseIds(ops) ensures i < n && i !in dead { assert i in DefIds(ops) + UseIds(ops); }
  }

  /** The ids of the first op and of the rest are among those of the block. */
  lemma IdsSplit(ops: seq<Op>)
    requires ops != []
    ensures Ids(Results(ops[0])) <= DefIds(ops) && DefIds(ops[1..]) <= DefIds(ops)
    ensures Ids(Uses(ops[0])) <= UseIds(ops) && UseIds(ops[1..]) <= UseIds(ops)
  {
  }

  lemma AliveVars(vs: seq<Var>, ids: set<nat>, n: nat, dead: set<nat>)
    requires Ids(vs) <= ids && AllAlive(ids, n, dead)
    ensures forall v <- vs :: Alive(v, n, dead)
  {
    forall v <- vs ensures Alive(v, n, dead) { assert v.id in Ids(vs); }
  }

  ghost predicate UntouchedIds(m: Renaming, ids: set<nat>) {
    forall v <- m :: v.id !in ids && m[v].id !in ids
  }

  lemma UntouchedVars(m: Renaming, vs: seq<Var>, ids: set<nat>)
    requires Ids(vs) <= ids && UntouchedIds(m, ids)
    ensures forall v <- vs :: Untouched(m, v)
  {
    forall v <- vs ensures Untouched(m, v) {
      assert v.id in Ids(vs);
      forall u <- m.Keys ensures m[u] != v && u != v { assert m[u].id !in ids; }
    }
  }

  /** The same for the rest of a block. */
  lemma {:induction false} ExecRel(sem: Semantics, ops: seq<Op>, s1: State, s2: State, m: Renaming, n: nat,
                                   dead: set<nat>)
    requires Rel(s1, s2, m, n, dead)
    requires AllAlive(DefIds(ops), n, dead) && AllAlive(UseIds(ops), n, dead) && UntouchedIds(m, DefIds(ops))
    ensures Rel(Exec(sem, ops, s1), Exec(sem, RenameAll(m, ops), s2), m, n, dead)
  {
    if ops != [] {
      IdsSplit(ops);
      AliveVars(Uses(ops[0]), UseIds(ops), n, dead);
      AliveVars(Results(ops[0]), DefIds(ops), n, dead);
      UntouchedVars(m, Results(ops[0]), DefIds(ops));
      StepRel(sem, ops[0], s1, s2, m, n, dead);
      assert RenameAll(m, ops)[1..] == RenameAll(m, ops[1..]);
      ExecRel(sem, ops[1..], Step(sem, ops[0], s1), Step(sem, Rename(m, ops[0]), s2), m, n, dead);
    }
  }

  function Compose(m1: Renaming, m2: Renaming): (m: Renaming)
    ensures forall v :: Apply(m, v) == Apply(m2, Apply(m1, v))
  {
    map v | v in m1.Keys + m2.Keys :: Apply(m2, Apply(m1, v))
  }

  /** Relations of successive rewrites chain. */
  lemma RelCompose(s1: State, s2: State, s3: State, m1: Renaming, m2: Renaming, n1: nat, n2: nat, dead1: set<nat>,
                   dead2: set<nat>)
    requires Rel(s1, s2, m1, n1, dead1) && Rel(s2, s3, m2, n2, dead2) && n1 <= n2
    requires forall v | Alive(v, n1, dead1 + dead2) :: Alive(Apply(m1, v), n2, dead2)
    requires forall v | Alive(v, n1, dead1 + dead2) :: Refers(Lookup(s1, v), n1, dead1 + dead2)
    ensures Rel(s1, s3, Compose(m1, m2), n1, dead1 + dead2)
  {
    forall v | Alive(v, n1, dead1 + dead2)
      ensures Lookup(s1, v) == Lookup(s3, Apply(Compose(m1, m2), v))
    {
      assert Alive(v, n1, dead1) && Alive(Apply(m1, v), n2, dead2);
    }
    forall c: nat | c < n1 && c !in dead1 + dead2 ensures SameCell(s1, s3, c) {
      assert SameCell(s1, s2, c) && SameCell(s2, s3, c);
    }
  }

  /** A run refers only to cells it starts with or allocates. */
  ghost predicate Clean(s: State, n: nat, dead: set<nat>) {
    forall v | Alive(v, n, dead) :: Refers(Lookup(s, v), n, dead)
  }

  lemma CleanIsRel(s: State, n: nat, dead: set<nat>)
    requires Clean(s, n, dead)
    ensures Rel(s, s, map[], n, dead)
  {
  }
}
