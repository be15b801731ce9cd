/**
 Globalization from the top-level ops on: the original starts with the objects they make, the result
 with those its initializers make, and every sequence of requests is answered alike.
 */
module EndToEnd {
  import opened Option
  import opened TorchIR
  import opened ObjectGraph
  import opened Monomorphize
  import opened InitialObjects
  import opened Correspondence
  import opened Outside
  import opened Addresses
  import G = Globalize

  // ---- What the top-level ops mean ----

  // The number a value without identity stands for, and the contents of an object; both see what the
  // value is built from, but no address.
  datatype Meaning = Meaning(number: Datum -> int, contents: Datum -> seq<int>)

  /** What is left of a value without addresses. */
  function Shape(d: Datum): Datum {
    match d
    case Ref(_) => Ref(0)
    case Built(opcode, args) => Built(opcode, seq(|args|, k requires 0 <= k < |args| => Shape(args[k])))
  }

  lemma {:induction false} RenameKeepsShape(origins: seq<nat>, d: Datum)
    ensures Shape(Rename(origins, d)) == Shape(d)
    decreases d
  {
    if d.Built? {
      var renamed := Rename(origins, d);
      forall k | 0 <= k < |d.args| ensures Shape(renamed.args[k]) == Shape(d.args[k]) {
        assert d.args[k] in d.args;
        RenameKeepsShape(origins, d.args[k]);
      }
      assert Shape(renamed).args == Shape(d).args;
    }
  }

  function Represent(mean: Meaning, d: Datum): Val {
    match d
    case Ref(a) => Tensor(a)
    case Built(_, _) => Num(mean.number(Shape(d)))
  }

  // ---- Both starts ----

  /** Each op whose result has an identity has made one object. */
  function ObjectOf(m: Module, mean: Meaning, v: nat): seq<int>
    requires WellFormedGraph(m)
  {
    if HasIdentity(m, v) then mean.contents(Shape(BuiltBy(m, v))) else []
  }

  function OriginalWorld(m: Module, mean: Meaning): World
    requires WellFormedGraph(m)
  {
    seq(|m.objects|, v requires 0 <= v < |m.objects| => ObjectOf(m, mean, v))
  }

  function InitialValue(m: Module, mean: Meaning, v: nat): Val
    requires WellFormedGraph(m)
  {
    if IsData(m, v) then Represent(mean, ResultOf(m, v)) else Num(0)
  }

  function InitialValuesOf(m: Module, mean: Meaning): G.InitialValues
    requires WellFormedGraph(m)
  {
    (v: nat) => InitialValue(m, mean, v)
  }

  /** The instances hold what the top-level ops built. */
  ghost predicate StartsOriginal(m: Module, mean: Meaning, s: State)
    requires WellFormedGraph(m)
  {
    s.world == OriginalWorld(m, mean) && G.InitialSlots(m, InitialValuesOf(m, mean), s)
  }

  function WorldOf(mean: Meaning, heap: seq<Datum>): World {
    seq(|heap|, a requires 0 <= a < |heap| => mean.contents(Shape(heap[a])))
  }

  /** The global slots hold what their initializers left. */
  ghost predicate StartsGlobalized(mean: Meaning, slots: seq<GlobalSlot>, r: Initial, t: State) {
    t.world == WorldOf(mean, r.heap) && t.heap == map[] && |r.values| == |slots| &&
    (forall name <- t.globals :: exists n :: 0 <= n < |slots| && slots[n].name == name) &&
    forall n | 0 <= n < |slots| ::
      slots[n].name in t.globals && t.globals[slots[n].name] == Represent(mean, r.values[n])
  }

  // ---- What is asked ----

  // A method of the original at given instances, or what can be done with the tensors received so far.
  datatype Command =
    | Ask(key: Monomorphization, args: seq<Given>)
    | Refill(k: nat, data: seq<int>)
    | AreSame(j: nat, k: nat)

  /** The arguments that are no instances. */
  function DataArgs(vs: seq<Var>, gs: seq<Given>): seq<Given>
    requires |vs| == |gs|
  {
    if vs == [] then []
    else
      var last := |vs| - 1;
      DataArgs(vs[..last], gs[..last]) + if vs[last].ty.Data? then [gs[last]] else []
  }

  /** Of the original a function is asked. */
  function OfOriginal(r: Command): Request {
    match r
    case Ask(key, gs) => Request.Call(Original(key.func), gs)
    case Refill(k, data) => Fill(k, data)
    case AreSame(j, k) => Compare(j, k)
  }

  /** Of the result its clone, which takes no module arguments. */
  function OfClone(c: G.Setup, r: Command): Request
    requires Fits(c, r)
  {
    match r
    case Ask(key, gs) => Request.Call(Clone(key), DataArgs(c.m.funcs[key.func].params, gs))
    case Refill(k, data) => Fill(k, data)
    case AreSame(j, k) => Compare(j, k)
  }

  function AllOfOriginal(commands: seq<Command>): seq<Request> {
    seq(|commands|, n requires 0 <= n < |commands| => OfOriginal(commands[n]))
  }

  ghost function AllOfClone(c: G.Setup, commands: seq<Command>): seq<Request>
    requires AllFit(c, commands)
  {
    seq(|commands|, n requires 0 <= n < |commands| => assert Fits(c, commands[n]); OfClone(c, commands[n]))
  }

  predicate Fits(c: G.Setup, r: Command) {
    r.Ask? ==> r.key.func in c.m.funcs && |c.m.funcs[r.key.func].params| == |r.args|
  }

  ghost predicate AllFit(c: G.Setup, commands: seq<Command>) {
    forall n | 0 <= n < |commands| :: Fits(c, commands[n])
  }

  /** Module parameters get the instances of the key, the others data. */
  ghost predicate IsGood(c: G.Setup, r: Command)
    requires Fits(c, r)
  {
    r.Ask? ==>
      r.key in c.keys && (forall a <- r.key.argInstances :: a.argIndex < |r.args|) &&
      var params := c.m.funcs[r.key.func].params;
      forall j | 0 <= j < |params| ::
        if params[j].ty.Data? then !r.args[j].Instance?
        else
          var mapping := InstancesFor(c.m, c.m.funcs[r.key.func], r.key.argInstances);
          params[j] in mapping && r.args[j] == Instance(mapping[params[j]])
  }

  ghost predicate AllGood(c: G.Setup, commands: seq<Command>) {
    AllFit(c, commands) && forall n | 0 <= n < |commands| :: IsGood(c, commands[n])
  }

  // ---- The arguments arrive ----

  ghost predicate ArgsGiven(vs: seq<Var>, gs: seq<Given>, vals: seq<Val>) {
    |vs| == |gs| == |vals| &&
    forall j | 0 <= j < |vs| ::
      if vs[j].ty.Data? then !vals[j].Obj? else gs[j].Instance? && vals[j] == Obj(gs[j].instance)
  }

  lemma {:induction false} DataValsSnoc(vs: seq<Var>, vals: seq<Val>, v: Var, val: Val)
    requires |vs| == |vals|
    ensures G.DataVals(vs + [v], vals + [val]) == G.DataVals(vs, vals) + if v.ty.Data? then [val] else []
    decreases |vs|
  {
    if vs == [] {
      assert ([] + [v])[1..] == [];
    } else {
      assert (vs + [v])[1..] == vs[1..] + [v] && (vals + [val])[1..] == vals[1..] + [val];
      DataValsSnoc(vs[1..], vals[1..], v, val);
    }
  }

  /** Both sides are given the same data; instances are dropped. */
  ghost predicate Arrived(vs: seq<Var>, gs: seq<Given>, h: seq<Val>, w: World)
    requires |vs| == |gs|
  {
    var r, r' := GiveAll(gs, h, w), GiveAll(DataArgs(vs, gs), h, w);
    (r.Some? <==> r'.Some?) &&
    (r.Some? ==>
       ArgsGiven(vs, gs, r.value.vals) && r'.value == Results(G.DataVals(vs, r.value.vals), r.value.world))
  }

  lemma {:induction false} DataArrives(vs: seq<Var>, gs: seq<Given>, h: seq<Val>, w: World)
    requires |vs| == |gs| && G.AllValues(h)
    requires forall j | 0 <= j < |vs| :: vs[j].ty.Data? <==> !gs[j].Instance?
    ensures Arrived(vs, gs, h, w)
    decreases |vs|
  {
    if vs != [] {
      var last := |vs| - 1;
      DataArrives(vs[..last], gs[..last], h, w);
      assert vs[..last] + [vs[last]] == vs && gs[..last] + [gs[last]] == gs;
      var before := GiveAll(gs[..last], h, w);
      if before.None? {
        NothingArrives(vs[..last], gs[..last], vs[last], gs[last], h, w);
      } else if vs[last].ty.Data? {
        LastDataArrives(vs[..last], gs[..last], vs[last], gs[last], h, w, before.value);
      } else {
        LastInstanceArrives(vs[..last], gs[..last], vs[last], gs[last], h, w, before.value);
      }
    }
  }

  lemma NothingArrives(vs: seq<Var>, gs: seq<Given>, v: Var, g: Given, h: seq<Val>, w: World)
    requires |vs| == |gs| && GiveAll(gs, h, w).None? && GiveAll(DataArgs(vs, gs), h, w).None?
    ensures Arrived(vs + [v], gs + [g], h, w)
  {
    var front := DataArgs(vs, gs);
    DataArgsSnoc(vs, gs, v, g);
    assert (gs + [g])[..|gs|] == gs && (front + [g])[..|front|] == front && front + [] == front;
  }

  /** One more argument. */
  lemma GiveLast(gs: seq<Given>, g: Given, h: seq<Val>, w: World, before: Results)
    requires GiveAll(gs, h, w) == Some(before)
    ensures var given := Give(g, h, before.world); var r := GiveAll(gs + [g], h, w);
            (r.Some? <==> given.Some?) &&
            (given.Some? ==> r.value == Results(before.vals + [given.value.0], given.value.1))
  {
    assert (gs + [g])[..|gs|] == gs;
  }

  /** What is given without the last argument. */
  ghost predicate FrontArrived(vs: seq<Var>, gs: seq<Given>, h: seq<Val>, w: World, before: Results) {
    |vs| == |gs| && G.AllValues(h) && GiveAll(gs, h, w) == Some(before) && ArgsGiven(vs, gs, before.vals) &&
    GiveAll(DataArgs(vs, gs), h, w) == Some(Results(G.DataVals(vs, before.vals), before.world))
  }

  lemma DataArgsSnoc(vs: seq<Var>, gs: seq<Given>, v: Var, g: Given)
    requires |vs| == |gs|
    ensures DataArgs(vs + [v], gs + [g]) == DataArgs(vs, gs) + if v.ty.Data? then [g] else []
  {
    assert (vs + [v])[..|vs|] == vs && (gs + [g])[..|gs|] == gs;
  }

  lemma LastDataArrives(vs: seq<Var>, gs: seq<Given>, v: Var, g: Given, h: seq<Val>, w: World, before: Results)
    requires FrontArrived(vs, gs, h, w, before) && v.ty.Data? && !g.Instance?
    ensures Arrived(vs + [v], gs + [g], h, w)
  {
    GiveLast(gs, g, h, w, before);
    GiveLast(DataArgs(vs, gs), g, h, w, Results(G.DataVals(vs, before.vals), before.world));
    DataArgsSnoc(vs, gs, v, g);
    var given := Give(g, h, before.world);
    if given.Some? {
      DataValsSnoc(vs, before.vals, v, given.value.0);
      GivenSnoc(vs, gs, v, g, before.vals, given.value.0);
    }
  }

  lemma LastInstanceArrives(vs: seq<Var>, gs: seq<Given>, v: Var, g: Given, h: seq<Val>, w: World, before: Results)
    requires FrontArrived(vs, gs, h, w, before) && v.ty.NnModule? && g.Instance?
    ensures Arrived(vs + [v], gs + [g], h, w)
  {
    GiveLast(gs, g, h, w, before);
    DataArgsSnoc(vs, gs, v, g);
    DataValsSnoc(vs, before.vals, v, Obj(g.instance));
    GivenSnoc(vs, gs, v, g, before.vals, Obj(g.instance));
    assert DataArgs(vs, gs) + [] == DataArgs(vs, gs);
    assert G.DataVals(vs, before.vals) + [] == G.DataVals(vs, before.vals);
  }

  lemma GivenSnoc(vs: seq<Var>, gs: seq<Given>, v: Var, g: Given, vals: seq<Val>, val: Val)
    requires ArgsGiven(vs, gs, vals)
    requires if v.ty.Data? then !val.Obj? else g.Instance? && val == Obj(g.instance)
    ensures ArgsGiven(vs + [v], gs + [g], vals + [val])
  {
  }

  // ---- From the original to the clones, at the same addresses ----

  lemma AskAgrees(c: G.Setup, fuel: nat, r: Command, h: seq<Val>, s: State, t: State)
    requires G.Globalized(c) && G.StoreRel(c, s, t) && Fits(c, r) && IsGood(c, r) && r.Ask? && G.AllValues(h)
    ensures SameReply(c, Serve(c.before, fuel, OfOriginal(r), h, s), Serve(c.after, fuel, OfClone(c, r), h, t))
  {
    var f := c.m.funcs[r.key.func];
    DataArrives(f.params, r.args, h, s.world);
    var given := GiveAll(r.args, h, s.world);
    assert G.IsClone(c, r.key);
    if given.Some? {
      var vals, s1, t1 := given.value.vals, s.(world := given.value.world), t.(world := given.value.world);
      StoreMoves(c, s, t, given.value.world);
      G.SimulateInvoke(c, fuel, r.key, vals, s1, t1);
    }
  }

  lemma StoreMoves(c: G.Setup, s: State, t: State, w: World)
    requires WellFormedGraph(c.m) && G.StoreRel(c, s, t)
    ensures G.StoreRel(c, s.(world := w), t.(world := w))
  {
    forall i: nat, k: nat | IsInstance(c.m, i) && k < |AttrsOf(c.m, i)|
      ensures G.SlotRel(c, i, k, s.(world := w), t.(world := w))
    {
      assert G.SlotRel(c, i, k, s, t);
    }
  }

  ghost predicate SameReply(c: G.Setup, reply: Reply, reply': Reply)
    requires WellFormedGraph(c.m)
  {
    reply.answer == reply'.answer &&
    (!reply.answer.Failed? ==>
       reply.handles == reply'.handles && G.AllValues(reply.handles) && G.StoreRel(c, reply.state, reply'.state))
  }

  lemma CommandAgrees(c: G.Setup, fuel: nat, r: Command, h: seq<Val>, s: State, t: State)
    requires G.Globalized(c) && G.StoreRel(c, s, t) && Fits(c, r) && IsGood(c, r) && G.AllValues(h)
    ensures SameReply(c, Serve(c.before, fuel, OfOriginal(r), h, s), Serve(c.after, fuel, OfClone(c, r), h, t))
  {
    match r
    case Ask(_, _) => AskAgrees(c, fuel, r, h, s, t);
    case Refill(k, data) =>
      if k < |h| && h[k].Tensor? && h[k].address < |s.world| {
        StoreMoves(c, s, t, s.world[h[k].address := data]);
      }
    case AreSame(_, _) =>
  }

  lemma {:induction false} ClonesAgree(c: G.Setup, fuel: nat, commands: seq<Command>, h: seq<Val>, s: State, t: State)
    requires G.Globalized(c) && G.StoreRel(c, s, t) && AllGood(c, commands) && G.AllValues(h)
    ensures Answers(c.before, fuel, AllOfOriginal(commands), h, s) ==
            Answers(c.after, fuel, AllOfClone(c, commands), h, t)
    decreases |commands|
  {
    if commands != [] {
      CommandAgrees(c, fuel, commands[0], h, s, t);
      assert AllOfOriginal(commands)[1..] == AllOfOriginal(commands[1..]);
      assert AllOfClone(c, commands)[1..] == AllOfClone(c, commands[1..]);
      var reply := Serve(c.before, fuel, OfOriginal(commands[0]), h, s);
      var reply' := Serve(c.after, fuel, OfClone(c, commands[0]), h, t);
      if !reply.answer.Failed? {
        ClonesAgree(c, fuel, commands[1..], reply.handles, reply.state, reply'.state);
      }
    }
  }

  // ---- From the addresses of the original to those of the result ----

  function IndexOf(origins: seq<nat>, op: nat): (a: nat)
    requires op in origins
    ensures a < |origins| && origins[a] == op
  {
    if origins[0] == op then 0 else 1 + IndexOf(origins[1..], op)
  }

  /** An object of the original corresponds to the object that stands for it. */
  function Moved(origins: seq<nat>): Corr {
    Corr(map op | op in origins :: IndexOf(origins, op), {})
  }

  /** The value at the addresses of the original. */
  function MoveBack(origins: seq<nat>, v: Val): Val {
    if v.Tensor? && v.address < |origins| then Tensor(origins[v.address]) else v
  }

  lemma MovedBackIsSame(origins: seq<nat>, v: Val)
    requires NoRepeats(origins) && (v.Tensor? ==> v.address < |origins|)
    ensures SameVal(Moved(origins), MoveBack(origins, v), v)
  {
    if v.Tensor? {
      var op := origins[v.address];
      assert op in origins && op in Moved(origins).live && origins[IndexOf(origins, op)] == op;
    }
  }

  lemma WorldsCorrespond(m: Module, mean: Meaning, origins: seq<nat>, heap: seq<Datum>)
    requires WellFormedGraph(m) && HeapMatches(m, origins, heap)
    ensures CellsRel(Moved(origins), OriginalWorld(m, mean), WorldOf(mean, heap))
  {
    var k, w, w' := Moved(origins), OriginalWorld(m, mean), WorldOf(mean, heap);
    forall op <- k.live ensures op < |w| && k.live[op] < |w'| && w[op] == w'[k.live[op]] {
      var a := IndexOf(origins, op);
      assert IsData(m, origins[a]) && m.objects[origins[a]].hasIdentity &&
             Rename(origins, heap[a]) == BuiltBy(m, origins[a]);
      RenameKeepsShape(origins, heap[a]);
    }
  }

  lemma RepresentMovesBack(m: Module, mean: Meaning, origins: seq<nat>, v: nat, d: Datum)
    requires WellFormedGraph(m) && IsData(m, v) && SlotMatches(m, v, origins, d)
    ensures MoveBack(origins, Represent(mean, d)) == InitialValue(m, mean, v)
    ensures Represent(mean, d).Tensor? ==> Represent(mean, d).address < |origins|
    ensures !Represent(mean, d).Obj?
  {
    RenameKeepsShape(origins, d);
  }

  /** The store of the result, at the addresses of the original. */
  function BackToOriginal(m: Module, mean: Meaning, origins: seq<nat>, t: State): State
    requires WellFormedGraph(m)
  {
    State(map[], map name | name in t.globals :: MoveBack(origins, t.globals[name]), OriginalWorld(m, mean))
  }

  lemma StartsCorrespond(m: Module, mean: Meaning, slots: seq<GlobalSlot>, origins: seq<nat>, r: Initial, t: State)
    requires WellFormedGraph(m) && Slices(m, slots) && Isomorphic(m, slots, origins, r) &&
             StartsGlobalized(mean, slots, r, t)
    ensures SameStores(Moved(origins), BackToOriginal(m, mean, origins, t), t)
    ensures G.InitialGlobals(InitialValuesOf(m, mean), slots, BackToOriginal(m, mean, origins, t))
  {
    var back := BackToOriginal(m, mean, origins, t);
    WorldsCorrespond(m, mean, origins, r.heap);
    forall n | 0 <= n < |slots|
      ensures var v := t.globals[slots[n].name];
              (v.Tensor? ==> v.address < |origins|) && MoveBack(origins, v) == InitialValue(m, mean, slots[n].value)
    {
      assert slots[n] in slots && SlotMatches(m, slots[n].value, origins, r.values[n]);
      RepresentMovesBack(m, mean, origins, slots[n].value, r.values[n]);
    }
    forall name <- back.globals ensures SameVal(Moved(origins), back.globals[name], t.globals[name]) {
      var n :| 0 <= n < |slots| && slots[n].name == name;
      MovedBackIsSame(origins, t.globals[name]);
    }
  }

  /**
   The original from the objects of its top-level ops and the result from those of its initializers:
   every sequence of commands has the same answers, contents and identity of tensors included.
   */
  lemma GlobalizationPreservesAnswers(c: G.Setup, root: nat, mean: Meaning, fuel: nat, commands: seq<Command>, s: State,
                                      t: State)
    requires G.Globalized(c) && Traversed(c.m, root) && c.link == SlotLinkage(Events(c.m, root, []))
    requires var slots := Globals(c.m, Events(c.m, root, []));
             RunSlots(c.m, slots).Some? && StartsGlobalized(mean, slots, RunSlots(c.m, slots).value, t)
    requires StartsOriginal(c.m, mean, s) && AllGood(c, commands)
    ensures Answers(c.before, fuel, AllOfOriginal(commands), [], s) ==
            Answers(c.after, fuel, AllOfClone(c, commands), [], t)
  {
    var slots := Globals(c.m, Events(c.m, root, []));
    var r, origins := RunSlots(c.m, slots).value, Origins(c.m, slots);
    InitialHeapsAreIsomorphic(c.m, root);
    var back := BackToOriginal(c.m, mean, origins, t);
    StartsCorrespond(c.m, mean, slots, origins, r, t);
    G.InitialStoresAreRelated(c, root, InitialValuesOf(c.m, mean), s, back);
    ClonesAgree(c, fuel, commands, [], s, back);
    AddressesDoNotMatter(c.after, Moved(origins), fuel, AllOfClone(c, commands), back, t);
  }
}
