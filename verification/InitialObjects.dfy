/**
 The objects that exist before anything runs. A top-level op whose result has an identity makes one
 object; cloned into an initializer, it makes one for each clone. Models what the alias check of
 `populateGlobalSlotInitializer` in lib/Dialect/Torch/Transforms/GlobalizeObjectGraph.cpp is for.
 */
module InitialObjects {
  import opened Option
  import opened ObjectGraph

  // A reference to an object, or what an op builds from other values.
  datatype Datum = Ref(address: nat) | Built(opcode: string, args: seq<Datum>)

  // ---- Before: one object for each identity-bearing op, under the position of the op ----

  /** What a top-level op builds. */
  function BuiltBy(m: Module, v: nat): Datum
    requires WellFormedGraph(m) && IsData(m, v)
    decreases v, 0
  {
    assert WellFormedObject(m, v);
    var operands := m.objects[v].operands;
    assert forall k | 0 <= k < |operands| :: operands[k] in operands;
    Built(m.objects[v].opcode, seq(|operands|, k requires 0 <= k < |operands| => ResultOf(m, operands[k])))
  }

  /** Its result: a reference to the new object, or the value itself. */
  function ResultOf(m: Module, v: nat): Datum
    requires WellFormedGraph(m) && IsData(m, v)
    decreases v, 1
  {
    if m.objects[v].hasIdentity then Ref(v) else BuiltBy(m, v)
  }

  // ---- After: the initializers run one after another, allocating as they go ----

  // The results of the clones so far, and all objects in allocation order.
  datatype Run = Run(env: map<nat, Datum>, heap: seq<Datum>)

  function RunOps(m: Module, ops: seq<nat>, r: Run): Option<Run> {
    if ops == [] then Some(r)
    else if !IsData(m, ops[0]) || exists u <- m.objects[ops[0]].operands :: u !in r.env then None
    else RunOps(m, ops[1..], RunOp(m, ops[0], r))
  }

  function RunOp(m: Module, op: nat, r: Run): Run
    requires IsData(m, op) && forall u <- m.objects[op].operands :: u in r.env
  {
    var operands := m.objects[op].operands;
    var built := Built(m.objects[op].opcode, seq(|operands|, k requires 0 <= k < |operands| => r.env[operands[k]]));
    if m.objects[op].hasIdentity then Run(r.env[op := Ref(|r.heap|)], r.heap + [built])
    else Run(r.env[op := built], r.heap)
  }

  // The initial values of the slots, and the objects.
  datatype Initial = Initial(values: seq<Datum>, heap: seq<Datum>)

  function RunSlots(m: Module, slots: seq<GlobalSlot>): Option<Initial> {
    if slots == [] then Some(Initial([], []))
    else
      var slot := slots[|slots| - 1];
      match RunSlots(m, slots[..|slots| - 1])
      case None => None
      case Some(before) =>
        match RunOps(m, slot.initializer, Run(map[], before.heap))
        case None => None
        case Some(r) => if slot.value in r.env then Some(Initial(before.values + [r.env[slot.value]], r.heap)) else None
  }

  // ---- Which op each object comes from ----

  function WithIdentity(m: Module, ops: seq<nat>): (r: seq<nat>)
    ensures forall op :: op in r <==> op in ops && IsData(m, op) && m.objects[op].hasIdentity
  {
    if ops == [] then []
    else (if IsData(m, ops[0]) && m.objects[ops[0]].hasIdentity then [ops[0]] else []) + WithIdentity(m, ops[1..])
  }

  function Origins(m: Module, slots: seq<GlobalSlot>): seq<nat> {
    if slots == [] then [] else Origins(m, slots[..|slots| - 1]) + WithIdentity(m, slots[|slots| - 1].initializer)
  }

  /** References made ones to the objects of the original. */
  function Rename(origins: seq<nat>, d: Datum): Datum {
    match d
    case Ref(a) => Ref(if a < |origins| then origins[a] else a)
    case Built(opcode, args) => Built(opcode, seq(|args|, k requires 0 <= k < |args| => Rename(origins, args[k])))
  }

  ghost predicate RefersBelow(d: Datum, n: nat) {
    match d
    case Ref(a) => a < n
    case Built(_, args) => forall x <- args :: RefersBelow(x, n)
  }

  lemma {:induction false} RenameGrows(origins: seq<nat>, more: seq<nat>, d: Datum)
    requires RefersBelow(d, |origins|)
    ensures RefersBelow(d, |origins + more|) && Rename(origins + more, d) == Rename(origins, d)
    decreases d
  {
    if d.Built? {
      forall x <- d.args ensures RefersBelow(x, |origins + more|) && Rename(origins + more, x) == Rename(origins, x) {
        RenameGrows(origins, more, x);
      }
      assert forall k | 0 <= k < |d.args| :: d.args[k] in d.args;
    }
  }

  /** Results of clones are those of the original ops, up to the addresses of objects. */
  ghost predicate Matches(m: Module, origins: seq<nat>, env: map<nat, Datum>)
    requires WellFormedGraph(m)
  {
    forall v <- env :: IsData(m, v) && RefersBelow(env[v], |origins|) && Rename(origins, env[v]) == ResultOf(m, v)
  }

  /** So are the objects. */
  ghost predicate HeapMatches(m: Module, origins: seq<nat>, heap: seq<Datum>)
    requires WellFormedGraph(m)
  {
    |heap| == |origins| && forall a | 0 <= a < |heap| ::
      IsData(m, origins[a]) && m.objects[origins[a]].hasIdentity &&
      RefersBelow(heap[a], |origins|) && Rename(origins, heap[a]) == BuiltBy(m, origins[a])
  }

  lemma MatchesGrows(m: Module, origins: seq<nat>, more: seq<nat>, env: map<nat, Datum>)
    requires WellFormedGraph(m) && Matches(m, origins, env)
    ensures Matches(m, origins + more, env)
  {
    forall v <- env ensures RefersBelow(env[v], |origins + more|) && Rename(origins + more, env[v]) == ResultOf(m, v) {
      RenameGrows(origins, more, env[v]);
    }
  }

  lemma HeapGrows(m: Module, origins: seq<nat>, op: nat, heap: seq<Datum>, built: Datum)
    requires WellFormedGraph(m) && HeapMatches(m, origins, heap) && IsData(m, op) && m.objects[op].hasIdentity
    requires RefersBelow(built, |origins|) && Rename(origins, built) == BuiltBy(m, op)
    ensures HeapMatches(m, origins + [op], heap + [built])
  {
    var heap', origins' := heap + [built], origins + [op];
    forall a | 0 <= a < |heap'|
      ensures IsData(m, origins'[a]) && m.objects[origins'[a]].hasIdentity &&
              RefersBelow(heap'[a], |origins'|) && Rename(origins', heap'[a]) == BuiltBy(m, origins'[a])
    {
      RenameGrows(origins, [op], heap'[a]);
    }
  }

  lemma RunOpMatches(m: Module, op: nat, r: Run, origins: seq<nat>)
    requires WellFormedGraph(m) && Matches(m, origins, r.env) && HeapMatches(m, origins, r.heap)
    requires IsData(m, op) && forall u <- m.objects[op].operands :: u in r.env
    ensures var r', origins' := RunOp(m, op, r), origins + WithIdentity(m, [op]);
            Matches(m, origins', r'.env) && HeapMatches(m, origins', r'.heap)
  {
    var operands := m.objects[op].operands;
    var built := Built(m.objects[op].opcode, seq(|operands|, k requires 0 <= k < |operands| => r.env[operands[k]]));
    BuiltMatches(m, op, r.env, origins, built);
    assert [op][1..] == [];
    if m.objects[op].hasIdentity {
      assert WithIdentity(m, [op]) == [op];
      HeapGrows(m, origins, op, r.heap, built);
      MatchesGrows(m, origins, [op], r.env);
    } else {
      assert origins + WithIdentity(m, [op]) == origins;
    }
  }

  lemma BuiltMatches(m: Module, op: nat, env: map<nat, Datum>, origins: seq<nat>, built: Datum)
    requires WellFormedGraph(m) && Matches(m, origins, env) && IsData(m, op) &&
             forall u <- m.objects[op].operands :: u in env
    requires var operands := m.objects[op].operands;
             built == Built(m.objects[op].opcode, seq(|operands|, k requires 0 <= k < |operands| => env[operands[k]]))
    ensures RefersBelow(built, |origins|) && Rename(origins, built) == BuiltBy(m, op)
  {
    assert WellFormedObject(m, op);
    var operands := m.objects[op].operands;
    forall k | 0 <= k < |operands|
      ensures Rename(origins, built.args[k]) == ResultOf(m, operands[k]) && RefersBelow(built.args[k], |origins|)
    {
      assert operands[k] in operands;
    }
  }

  ghost predicate RunMatches(m: Module, origins: seq<nat>, r: Run)
    requires WellFormedGraph(m)
  {
    Matches(m, origins, r.env) && HeapMatches(m, origins, r.heap)
  }

  ghost predicate Holds(ops: seq<nat>, env: map<nat, Datum>) {
    forall u <- ops :: u in env
  }

  lemma RunOpsStep(m: Module, ops: seq<nat>, k: nat, r: Run)
    requires WellFormedGraph(m) && OperandClosed(m, ops) && k < |ops| && Holds(ops[..k], r.env)
    ensures IsData(m, ops[k]) && forall u <- m.objects[ops[k]].operands :: u in r.env
    ensures RunOps(m, ops[k..], r) == RunOps(m, ops[k + 1..], RunOp(m, ops[k], r))
    ensures Holds(ops[..k + 1], RunOp(m, ops[k], r).env)
  {
    OperandsComeFirst(m, ops, k);
    assert ops[k..][0] == ops[k] && ops[k..][1..] == ops[k + 1..] && ops[..k + 1] == ops[..k] + [ops[k]];
  }

  lemma OriginsStep(m: Module, origins: seq<nat>, ops: seq<nat>, k: nat)
    requires k < |ops|
    ensures (origins + WithIdentity(m, [ops[k]])) + WithIdentity(m, ops[k + 1..]) == origins + WithIdentity(m, ops[k..])
  {
    assert ops[k..][1..] == ops[k + 1..] && [ops[k]][1..] == [];
    assert WithIdentity(m, ops[k..]) == WithIdentity(m, [ops[k]]) + WithIdentity(m, ops[k + 1..]);
  }

  lemma {:induction false} RunOpsMatches(m: Module, ops: seq<nat>, k: nat, r: Run, origins: seq<nat>)
    requires WellFormedGraph(m) && OperandClosed(m, ops) && k <= |ops| && Holds(ops[..k], r.env) &&
             RunMatches(m, origins, r)
    ensures var o := RunOps(m, ops[k..], r);
            o.Some? && Holds(ops, o.value.env) && RunMatches(m, origins + WithIdentity(m, ops[k..]), o.value)
    decreases |ops| - k
  {
    if k == |ops| {
      assert ops[..k] == ops && ops[k..] == [] && origins + WithIdentity(m, ops[k..]) == origins;
    } else {
      RunOpsStep(m, ops, k, r);
      RunOpMatches(m, ops[k], r, origins);
      OriginsStep(m, origins, ops, k);
      RunOpsMatches(m, ops, k + 1, RunOp(m, ops[k], r), origins + WithIdentity(m, [ops[k]]));
    }
  }

  // ---- All slots ----

  /** Each initializer is the slice of the value of its slot, in block order. */
  ghost predicate Slices(m: Module, slots: seq<GlobalSlot>)
    requires WellFormedGraph(m)
  {
    forall slot <- slots :: IsData(m, slot.value) && slot.initializer == Sorted(Closure(m, slot.value), |m.objects|)
  }

  lemma SliceIsClosed(m: Module, v: nat)
    requires WellFormedGraph(m) && IsData(m, v)
    ensures OperandClosed(m, Sorted(Closure(m, v), |m.objects|)) && v in Sorted(Closure(m, v), |m.objects|)
  {
    var ops := Sorted(Closure(m, v), |m.objects|);
    forall u | u in ops ensures IsData(m, u) && forall w <- m.objects[u].operands :: w in ops && w < u {
      ClosureIsClosed(m, v, u);
      assert WellFormedObject(m, u);
    }
  }

  /** The slots hold the original values and the heap the original objects, up to addresses. */
  ghost predicate InitialMatches(m: Module, slots: seq<GlobalSlot>, origins: seq<nat>, r: Initial)
    requires WellFormedGraph(m) && Slices(m, slots)
  {
    HeapMatches(m, origins, r.heap) && |r.values| == |slots| &&
    forall n | 0 <= n < |slots| :: SlotMatches(m, slots[n].value, origins, r.values[n])
  }

  ghost predicate SlotMatches(m: Module, v: nat, origins: seq<nat>, d: Datum)
    requires WellFormedGraph(m) && IsData(m, v)
  {
    RefersBelow(d, |origins|) && Rename(origins, d) == ResultOf(m, v)
  }

  lemma {:induction false} RunSlotsMatches(m: Module, slots: seq<GlobalSlot>)
    requires WellFormedGraph(m) && Slices(m, slots)
    ensures RunSlots(m, slots).Some? && InitialMatches(m, slots, Origins(m, slots), RunSlots(m, slots).value)
  {
    if slots != [] {
      var front, slot := slots[..|slots| - 1], slots[|slots| - 1];
      assert forall s <- front :: s in slots;
      RunSlotsMatches(m, front);
      var before := RunSlots(m, front).value;
      RunSlot(m, slot, before.heap, Origins(m, front));
      var r := RunOps(m, slot.initializer, Run(map[], before.heap)).value;
      RunSlotsNext(m, slots, before, r);
      InitialGrows(m, slots, before, WithIdentity(m, slot.initializer), r.env[slot.value], r.heap);
    }
  }

  lemma RunSlotsNext(m: Module, slots: seq<GlobalSlot>, before: Initial, r: Run)
    requires slots != [] && RunSlots(m, slots[..|slots| - 1]) == Some(before)
    requires RunOps(m, slots[|slots| - 1].initializer, Run(map[], before.heap)) == Some(r) &&
             slots[|slots| - 1].value in r.env
    ensures RunSlots(m, slots) == Some(Initial(before.values + [r.env[slots[|slots| - 1].value]], r.heap))
  {
  }

  lemma RunSlot(m: Module, slot: GlobalSlot, heap: seq<Datum>, origins: seq<nat>)
    requires WellFormedGraph(m) && IsData(m, slot.value) &&
             slot.initializer == Sorted(Closure(m, slot.value), |m.objects|)
    requires HeapMatches(m, origins, heap)
    ensures var o := RunOps(m, slot.initializer, Run(map[], heap));
            var origins' := origins + WithIdentity(m, slot.initializer);
            o.Some? && slot.value in o.value.env && HeapMatches(m, origins', o.value.heap) &&
            SlotMatches(m, slot.value, origins', o.value.env[slot.value])
  {
    SliceIsClosed(m, slot.value);
    var ops := slot.initializer;
    assert ops[0..] == ops && ops[..0] == [];
    RunOpsMatches(m, ops, 0, Run(map[], heap), origins);
  }

  lemma InitialGrows(m: Module, slots: seq<GlobalSlot>, before: Initial, more: seq<nat>, value: Datum, heap: seq<Datum>)
    requires WellFormedGraph(m) && Slices(m, slots) && slots != [] && Slices(m, slots[..|slots| - 1])
    requires InitialMatches(m, slots[..|slots| - 1], Origins(m, slots[..|slots| - 1]), before)
    requires var origins := Origins(m, slots[..|slots| - 1]) + more;
             HeapMatches(m, origins, heap) && SlotMatches(m, slots[|slots| - 1].value, origins, value)
    ensures InitialMatches(m, slots, Origins(m, slots[..|slots| - 1]) + more, Initial(before.values + [value], heap))
  {
    var front := slots[..|slots| - 1];
    var origins := Origins(m, front);
    forall n | 0 <= n < |front| ensures SlotMatches(m, slots[n].value, origins + more, before.values[n]) {
      assert SlotMatches(m, front[n].value, origins, before.values[n]) && front[n] == slots[n];
      RenameGrows(origins, more, before.values[n]);
    }
  }

  ghost predicate NoRepeats(xs: seq<nat>) {
    forall a, b | 0 <= a < b < |xs| :: xs[a] != xs[b]
  }

  predicate HasIdentity(m: Module, op: nat) {
    IsData(m, op) && m.objects[op].hasIdentity
  }

  predicate IsCopied(slots: seq<GlobalSlot>, op: nat) {
    exists n :: 0 <= n < |slots| && op in slots[n].initializer
  }

  /** No identity-bearing op is in two initializers. */
  ghost predicate NoneShared(m: Module, slots: seq<GlobalSlot>) {
    forall a, b | 0 <= a < b < |slots| :: Apart(m, slots[a], slots[b])
  }

  ghost predicate Apart(m: Module, a: GlobalSlot, b: GlobalSlot) {
    forall op <- a.initializer | HasIdentity(m, op) :: op !in b.initializer
  }

  lemma {:induction false} WithIdentityDiffer(m: Module, ops: seq<nat>)
    requires NoRepeats(ops)
    ensures NoRepeats(WithIdentity(m, ops))
  {
    if ops != [] {
      assert forall a, b | 0 <= a < b < |ops[1..]| :: ops[1..][a] == ops[a + 1] && ops[1..][b] == ops[b + 1];
      WithIdentityDiffer(m, ops[1..]);
      assert forall x <- ops[1..] :: x != ops[0];
    }
  }

  lemma {:induction false} OriginsAre(m: Module, slots: seq<GlobalSlot>, op: nat)
    ensures op in Origins(m, slots) <==> HasIdentity(m, op) && IsCopied(slots, op)
  {
    if slots != [] {
      var front, last := slots[..|slots| - 1], |slots| - 1;
      OriginsAre(m, front, op);
      if n :| 0 <= n < |front| && op in front[n].initializer { assert op in slots[n].initializer; }
      if n :| 0 <= n < |slots| && op in slots[n].initializer && n < last { assert op in front[n].initializer; }
    }
  }

  /** Every object stands for another op exactly when no identity-bearing op is in two initializers. */
  lemma {:induction false} ObjectsStandForOps(m: Module, slots: seq<GlobalSlot>)
    requires forall slot <- slots :: NoRepeats(slot.initializer)
    ensures NoRepeats(Origins(m, slots)) <==> NoneShared(m, slots)
  {
    if slots != [] {
      var front, slot := slots[..|slots| - 1], slots[|slots| - 1];
      assert forall s <- front :: s in slots;
      ObjectsStandForOps(m, front);
      WithIdentityDiffer(m, slot.initializer);
      NoRepeatsOf(Origins(m, front), WithIdentity(m, slot.initializer));
      NoneSharedNext(m, slots);
    }
  }

  lemma NoRepeatsOf(xs: seq<nat>, ys: seq<nat>)
    requires NoRepeats(ys)
    ensures NoRepeats(xs + ys) <==> NoRepeats(xs) && forall y <- ys :: y !in xs
  {
    var all := xs + ys;
    if NoRepeats(all) {
      forall a, b | 0 <= a < b < |xs| ensures xs[a] != xs[b] { assert all[a] != all[b]; }
      forall y <- ys ensures y !in xs {
        var b :| 0 <= b < |ys| && ys[b] == y;
        forall a | 0 <= a < |xs| ensures xs[a] != y { assert all[a] != all[|xs| + b]; }
      }
    }
    if NoRepeats(xs) && forall y <- ys :: y !in xs {
      forall a, b | 0 <= a < b < |all| ensures all[a] != all[b] {
        if a < |xs| <= b { assert all[b] in ys && all[a] in xs; }
      }
    }
  }

  lemma NoneSharedNext(m: Module, slots: seq<GlobalSlot>)
    requires slots != []
    ensures var front := slots[..|slots| - 1];
            NoneShared(m, slots) <==>
            NoneShared(m, front) &&
            forall op <- WithIdentity(m, slots[|slots| - 1].initializer) :: op !in Origins(m, front)
  {
    var front, last := slots[..|slots| - 1], slots[|slots| - 1];
    NoneSharedSnoc(m, front, last);
    assert front + [last] == slots;
    ApartFromAll(m, front, last);
  }

  lemma ApartFromAll(m: Module, front: seq<GlobalSlot>, last: GlobalSlot)
    ensures (forall a | 0 <= a < |front| :: Apart(m, front[a], last)) <==>
            forall op <- WithIdentity(m, last.initializer) :: op !in Origins(m, front)
  {
    if forall a | 0 <= a < |front| :: Apart(m, front[a], last) {
      forall op <- WithIdentity(m, last.initializer)
        ensures op !in Origins(m, front)
      {
        NotAmongOrigins(m, front, last, op);
      }
    }
    if forall op <- WithIdentity(m, last.initializer) :: op !in Origins(m, front) {
      forall a | 0 <= a < |front| ensures Apart(m, front[a], last) { ApartFromOne(m, front, last, a); }
    }
  }

  lemma NotAmongOrigins(m: Module, front: seq<GlobalSlot>, last: GlobalSlot, op: nat)
    requires (forall a | 0 <= a < |front| :: Apart(m, front[a], last)) && op in WithIdentity(m, last.initializer)
    ensures op !in Origins(m, front)
  {
    OriginsAre(m, front, op);
  }

  lemma ApartFromOne(m: Module, front: seq<GlobalSlot>, last: GlobalSlot, a: nat)
    requires a < |front| && forall op <- WithIdentity(m, last.initializer) :: op !in Origins(m, front)
    ensures Apart(m, front[a], last)
  {
    forall op <- front[a].initializer | HasIdentity(m, op) ensures op !in last.initializer {
      OriginsAre(m, front, op);
      assert IsCopied(front, op);
    }
  }

  lemma NoneSharedSnoc(m: Module, front: seq<GlobalSlot>, last: GlobalSlot)
    ensures NoneShared(m, front + [last]) <==>
            NoneShared(m, front) && forall a | 0 <= a < |front| :: Apart(m, front[a], last)
  {
    var all := front + [last];
    if NoneShared(m, all) {
      forall a, b | 0 <= a < b < |front| ensures Apart(m, front[a], front[b]) { assert Apart(m, all[a], all[b]); }
      forall a | 0 <= a < |front| ensures Apart(m, front[a], last) { assert Apart(m, all[a], all[|front|]); }
    }
  }

  // ---- The initial heaps are the same but for addresses ----

  /** The references in a value lead to the same objects one to one. */
  ghost predicate Isomorphic(m: Module, slots: seq<GlobalSlot>, origins: seq<nat>, r: Initial)
    requires WellFormedGraph(m) && Slices(m, slots)
  {
    InitialMatches(m, slots, origins, r) && NoRepeats(origins) &&
    forall op :: op in origins <==> HasIdentity(m, op) && IsCopied(slots, op)
  }

  lemma GlobalsAreSlices(m: Module, events: seq<Event>)
    requires WellFormedGraph(m) && SlotsHoldData(m, events)
    ensures Slices(m, Globals(m, events)) && forall slot <- Globals(m, events) :: NoRepeats(slot.initializer)
  {
    forall slot <- Globals(m, events)
      ensures IsData(m, slot.value) && slot.initializer == Sorted(Closure(m, slot.value), |m.objects|)
    {
      var n :| 0 <= n < |Globals(m, events)| && Globals(m, events)[n] == slot;
      var k := GlobalFromEvents(m, events, n);
    }
  }

  /**
   After a clean traversal the initializers run, and what they leave is what the top-level ops of
   the original leave: there is one object for each identity-bearing op that a slot depends on, and
   the values of the slots and the contents of the objects agree up to addresses.
   */
  lemma InitialHeapsAreIsomorphic(m: Module, root: nat)
    requires Traversed(m, root)
    ensures var slots := Globals(m, Events(m, root, []));
            Slices(m, slots) && RunSlots(m, slots).Some? &&
            Isomorphic(m, slots, Origins(m, slots), RunSlots(m, slots).value)
  {
    var events := Events(m, root, []);
    var slots := Globals(m, events);
    GlobalsAreSlices(m, events);
    RunSlotsMatches(m, slots);
    CleanSharesNone(m, events);
    ObjectsStandForOps(m, slots);
    forall op
      ensures op in Origins(m, slots) <==> HasIdentity(m, op) && IsCopied(slots, op)
    {
      OriginsAre(m, slots, op);
    }
  }

  lemma CleanSharesNone(m: Module, events: seq<Event>)
    requires WellFormedGraph(m) && SlotsHoldData(m, events) && Clean(m, events)
    ensures NoneShared(m, Globals(m, events))
  {
    var slots := Globals(m, events);
    forall a, b | 0 <= a < b < |slots| ensures Apart(m, slots[a], slots[b]) {
      forall op <- slots[a].initializer | HasIdentity(m, op) ensures op !in slots[b].initializer {
        InitializersDoNotAlias(m, events, a, b, op);
      }
    }
  }
}
