/**
 The linkage names that come out of the traversal, read off the object graph: the attribute names that
 lead from the root to a slot or method, and its own name, with dots between them. Models the name
 stack of lib/Dialect/Torch/Transforms/GlobalizeObjectGraph.cpp.
 */
module LinkageNames {
  import opened Option
  import opened TorchIR
  import opened ObjectGraph

  /** Following the attributes of these names one after another leads from module `i` to module `j`. */
  ghost predicate LeadsTo(m: Module, i: nat, path: seq<string>, j: nat)
    requires WellFormedGraph(m) && IsInstance(m, i)
    decreases |path|
  {
    if path == [] then i == j else exists k :: LeadsOver(m, i, k, path, j)
  }

  /** The first step is over attribute `k`. */
  ghost predicate LeadsOver(m: Module, i: nat, k: nat, path: seq<string>, j: nat)
    requires WellFormedGraph(m) && IsInstance(m, i) && path != []
    decreases |path|, 0
  {
    k < |AttrsOf(m, i)| && k < |SlotsOf(m, i)| && AttrsOf(m, i)[k].name == path[0] && AttrsOf(m, i)[k].ty.NnModule? &&
    IsInstance(m, SlotsOf(m, i)[k].value) && LeadsTo(m, SlotsOf(m, i)[k].value, path[1..], j)
  }

  lemma {:induction false} OneStepMore(m: Module, i: nat, path: seq<string>, j: nat, k: nat)
    requires WellFormedGraph(m) && IsInstance(m, i) && IsInstance(m, j) && LeadsTo(m, i, path, j)
    requires k < |AttrsOf(m, j)| && AttrsOf(m, j)[k].ty.NnModule?
    ensures k < |SlotsOf(m, j)| && LeadsTo(m, i, path + [AttrsOf(m, j)[k].name], SlotsOf(m, j)[k].value)
    decreases |path|
  {
    assert WellFormedObject(m, j);
    SlotFits(m, j, k);
    var longer, v := path + [AttrsOf(m, j)[k].name], SlotsOf(m, j)[k].value;
    if path == [] {
      assert longer[1..] == [];
      assert LeadsOver(m, i, k, longer, v);
    } else {
      var n: nat :| LeadsOver(m, i, n, path, j);
      OneStepMore(m, SlotsOf(m, i)[n].value, path[1..], j, k);
      assert longer[1..] == path[1..] + [AttrsOf(m, j)[k].name];
      assert LeadsOver(m, i, n, longer, v);
    }
  }

  // ---- What is met, and where ----

  ghost predicate IsMet(m: Module, root: nat, e: Event)
    requires WellFormedGraph(m) && IsInstance(m, root)
  {
    match e
    case Visit(i, path) => LeadsTo(m, root, path, i)
    case SlotFound(i, path, name, isPrivate, value) =>
      IsInstance(m, i) && path != [] && LeadsTo(m, root, path[..|path| - 1], i) && path[|path| - 1] == name &&
      exists k :: IsSlot(m, i, k, name, isPrivate, value)
    case MethodFound(i, path, func, isPrivate) =>
      IsInstance(m, i) && path != [] && LeadsTo(m, root, path[..|path| - 1], i) &&
      IsMethod(m, i, Method(path[|path| - 1], func, isPrivate))
  }

  /** The class of the module has this method. */
  ghost predicate IsMethod(m: Module, i: nat, method': Method)
    requires IsInstance(m, i)
  {
    m.objects[i].className in m.classes && method' in m.classes[m.objects[i].className].methods
  }

  /** Slot `k` of the module is that of a data attribute. */
  ghost predicate IsSlot(m: Module, i: nat, k: nat, name: string, isPrivate: bool, value: nat)
    requires WellFormedGraph(m) && IsInstance(m, i)
  {
    k < |AttrsOf(m, i)| && k < |SlotsOf(m, i)| && AttrsOf(m, i)[k].ty.Data? && AttrsOf(m, i)[k].name == name &&
    AttrsOf(m, i)[k].isPrivate == isPrivate && SlotsOf(m, i)[k].value == value
  }

  lemma {:induction false} AllAreMet(m: Module, root: nat, i: nat, path: seq<string>)
    requires WellFormedGraph(m) && IsInstance(m, root) && IsInstance(m, i) && LeadsTo(m, root, path, i)
    ensures forall e <- Events(m, i, path) :: IsMet(m, root, e)
    decreases i, 1, 0
  {
    SlotsAreMet(m, root, i, 0, path);
    MethodsAreMet(m, root, i, 0, path);
  }

  lemma {:induction false} SlotsAreMet(m: Module, root: nat, i: nat, k: nat, path: seq<string>)
    requires WellFormedGraph(m) && IsInstance(m, root) && IsInstance(m, i) && LeadsTo(m, root, path, i)
    requires k <= |SlotsOf(m, i)|
    ensures forall e <- SlotEvents(m, i, k, path) :: IsMet(m, root, e)
    decreases i, 0, |SlotsOf(m, i)| - k
  {
    if k < |SlotsOf(m, i)| {
      OneIsMet(m, root, i, k, path);
      SlotsAreMet(m, root, i, k + 1, path);
    }
  }

  lemma {:induction false} OneIsMet(m: Module, root: nat, i: nat, k: nat, path: seq<string>)
    requires WellFormedGraph(m) && IsInstance(m, root) && IsInstance(m, i) && LeadsTo(m, root, path, i)
    requires k < |SlotsOf(m, i)|
    ensures forall e <- SlotEvent(m, i, k, path) :: IsMet(m, root, e)
    decreases i, 0, 0
  {
    SlotFits(m, i, k);
    var attr, value := AttrsOf(m, i)[k], SlotsOf(m, i)[k].value;
    if attr.ty.NnModule? {
      OneStepMore(m, root, path, i, k);
      AllAreMet(m, root, value, path + [attr.name]);
    } else {
      assert IsSlot(m, i, k, attr.name, attr.isPrivate, value);
      assert (path + [attr.name])[..|path|] == path;
    }
  }

  lemma {:induction false} MethodsAreMet(m: Module, root: nat, i: nat, k: nat, path: seq<string>)
    requires WellFormedGraph(m) && IsInstance(m, root) && IsInstance(m, i) && LeadsTo(m, root, path, i)
    requires k <= |MethodsOf(m, i)|
    ensures forall e <- MethodEvents(m, i, k, path) :: IsMet(m, root, e)
    decreases |MethodsOf(m, i)| - k
  {
    if k < |MethodsOf(m, i)| {
      var method' := MethodsOf(m, i)[k];
      assert WellFormedObject(m, i) && method' in MethodsOf(m, i);
      assert (path + [method'.name])[..|path|] == path && IsMethod(m, i, method');
      MethodsAreMet(m, root, i, k + 1, path);
    }
  }

  // ---- The names ----

  /** A global slot made for a slot that the path leads to, under the names on the way. */
  ghost predicate NamesSlot(m: Module, root: nat, i: nat, k: nat, path: seq<string>, name: string, isPrivate: bool,
                            value: nat)
    requires WellFormedGraph(m) && IsInstance(m, root)
  {
    IsInstance(m, i) && LeadsTo(m, root, path, i) && k < |AttrsOf(m, i)| &&
    IsSlot(m, i, k, AttrsOf(m, i)[k].name, isPrivate, value) && IsDotted(name, path + [AttrsOf(m, i)[k].name])
  }

  ghost predicate IsSlotName(m: Module, root: nat, g: GlobalSlot)
    requires WellFormedGraph(m) && IsInstance(m, root)
  {
    exists i, k, path :: NamesSlot(m, root, i, k, path, g.name, g.isPrivate, g.value)
  }

  lemma SlotEventNames(m: Module, root: nat, e: Event)
    returns (k: nat)
    requires WellFormedGraph(m) && IsInstance(m, root) && e.SlotFound? && IsMet(m, root, e)
    ensures NamesSlot(m, root, e.instance, k, e.path[..|e.path| - 1], Join(e.path), e.isPrivate, e.value)
    ensures AttrsOf(m, e.instance)[k].name == e.name
  {
    k :| IsSlot(m, e.instance, k, e.name, e.isPrivate, e.value);
    JoinIsDotted(e.path);
    assert e.path == e.path[..|e.path| - 1] + [e.name];
  }

  /** Every global slot is named by the path to the slot it is made for, and has its visibility and value. */
  lemma GlobalSlotsAreNamed(m: Module, root: nat)
    requires Traversed(m, root)
    ensures forall g <- Globals(m, Events(m, root, [])) :: IsSlotName(m, root, g)
  {
    var events := Events(m, root, []);
    AllAreMet(m, root, root, []);
    forall g <- Globals(m, events) ensures IsSlotName(m, root, g) {
      var n :| 0 <= n < |Globals(m, events)| && Globals(m, events)[n] == g;
      var x := GlobalFromEvents(m, events, n);
      assert events[x] in events;
      var k := SlotEventNames(m, root, events[x]);
    }
  }

  /** So is the linkage name of every data slot. */
  lemma SlotsAreNamed(m: Module, root: nat, i: nat, k: nat) returns (path: seq<string>)
    requires Traversed(m, root) && IsInstance(m, i) && k < |AttrsOf(m, i)| && AttrsOf(m, i)[k].ty.Data?
    ensures k < |SlotsOf(m, i)| && (i, AttrsOf(m, i)[k].name) in SlotLinkage(Events(m, root, []))
    ensures var info := SlotLinkage(Events(m, root, []))[(i, AttrsOf(m, i)[k].name)];
            NamesSlot(m, root, i, k, path, info.linkageName, info.isPrivate, SlotsOf(m, i)[k].value)
  {
    var events := Events(m, root, []);
    AllAreMet(m, root, root, []);
    SlotLinkageIsTotal(m, root, i, k);
    CleanSlotKeysDiffer(m, root);
    var x := SlotLinkageFromEvents(events, (i, AttrsOf(m, i)[k].name));
    SlotLinkageAt(events, x);
    assert events[x] in events;
    var n := SlotEventNames(m, root, events[x]);
    path := events[x].path[..|events[x].path| - 1];
    MembersAreNamedApart(m, i);
  }

  ghost predicate NamesMethodOf(m: Module, root: nat, i: nat, func: string, info: LinkageInfo)
    requires WellFormedGraph(m) && IsInstance(m, root) && IsInstance(m, i)
  {
    exists method', path ::
      IsMethod(m, i, method') && method'.func == func && LeadsTo(m, root, path, i) &&
      NamesMethod(info, method', path)
  }

  lemma {:induction false} FuncLinkageIsMet(m: Module, root: nat, events: seq<Event>, key: (nat, string))
    requires WellFormedGraph(m) && IsInstance(m, root) && (forall e <- events :: IsMet(m, root, e))
    requires key in FuncLinkage(events)
    ensures IsInstance(m, key.0) && NamesMethodOf(m, root, key.0, key.1, FuncLinkage(events)[key])
    decreases |events|
  {
    var front, e := events[..|events| - 1], events[|events| - 1];
    assert e in events && forall f <- front :: f in events;
    if e.MethodFound? && (e.instance, e.func) == key {
      var path := e.path[..|e.path| - 1];
      var method' := Method(e.path[|e.path| - 1], e.func, e.isPrivate);
      JoinIsDotted(e.path);
      assert e.path == path + [method'.name];
      assert IsMethod(m, e.instance, method') && NamesMethod(FuncLinkage(events)[key], method', path);
    } else {
      FuncLinkageIsMet(m, root, front, key);
    }
  }

  lemma {:induction false} FuncLinkageHolds(events: seq<Event>, k: nat)
    requires k < |events| && events[k].MethodFound?
    ensures (events[k].instance, events[k].func) in FuncLinkage(events)
    decreases |events|
  {
    if k < |events| - 1 {
      assert events[..|events| - 1][k] == events[k];
      FuncLinkageHolds(events[..|events| - 1], k);
    }
  }

  lemma {:induction false} MethodEventAt(m: Module, i: nat, k: nat, n: nat, path: seq<string>)
    requires WellFormedGraph(m) && IsInstance(m, i) && k <= n < |MethodsOf(m, i)|
    ensures MethodEvent(m, i, n, path) in MethodEvents(m, i, k, path)
    decreases n - k
  {
    if k < n { MethodEventAt(m, i, k + 1, n, path); }
  }

  /** Every method of every module has a linkage name: the path to the module, and the method's name. */
  lemma MethodsAreNamed(m: Module, root: nat, i: nat, n: nat)
    requires Traversed(m, root) && IsInstance(m, i) && m.objects[i].className in m.classes
    requires n < |m.classes[m.objects[i].className].methods|
    ensures var func := m.classes[m.objects[i].className].methods[n].func;
            var linkage := FuncLinkage(Events(m, root, []));
            (i, func) in linkage && NamesMethodOf(m, root, i, func, linkage[(i, func)])
  {
    var events := Events(m, root, []);
    AllAreMet(m, root, root, []);
    var path := EveryModuleIsMet(m, root, i);
    VisitMeetsAll(m, root, [], i, path);
    MethodEventAt(m, i, 0, n, path);
    var e := MethodEvent(m, i, n, path);
    assert e in Events(m, i, path);
    var x :| 0 <= x < |events| && events[x] == e;
    FuncLinkageHolds(events, x);
    FuncLinkageIsMet(m, root, events, (i, e.func));
  }

  // ---- When the traversal succeeds ----

  ghost predicate OnePathEach(m: Module, root: nat)
    requires WellFormedGraph(m) && IsInstance(m, root)
  {
    forall i, p, q | LeadsTo(m, root, p, i) && LeadsTo(m, root, q, i) :: p == q
  }

  predicate IsDataSlot(m: Module, i: nat, k: nat)
    requires WellFormedGraph(m)
  {
    IsInstance(m, i) && k < |AttrsOf(m, i)| && k < |SlotsOf(m, i)| && AttrsOf(m, i)[k].ty.Data? &&
    IsData(m, SlotsOf(m, i)[k].value)
  }

  /** No identity-bearing value is needed for the initial values of two slots. */
  ghost predicate SlotsShareNothing(m: Module)
    requires WellFormedGraph(m)
  {
    forall i: nat, k: nat, j: nat, l: nat | IsDataSlot(m, i, k) && IsDataSlot(m, j, l) && (i != j || k != l) ::
      IdentityClosure(m, SlotsOf(m, i)[k].value) !! IdentityClosure(m, SlotsOf(m, j)[l].value)
  }

  lemma {:induction false} LeadsToVisit(m: Module, i: nat, before: seq<string>, path: seq<string>, j: nat)
    requires WellFormedGraph(m) && IsInstance(m, i) && LeadsTo(m, i, path, j)
    ensures IsInstance(m, j) && Visit(j, before + path) in Events(m, i, before)
    decreases |path|
  {
    if path == [] {
      assert before + path == before;
    } else {
      var k: nat :| LeadsOver(m, i, k, path, j);
      LeadsToVisit(m, SlotsOf(m, i)[k].value, before + [path[0]], path[1..], j);
      assert before + [path[0]] + path[1..] == before + path;
      SlotEventIsMet(m, i, 0, k, before);
      assert Visit(j, before + path) in SlotEvent(m, i, k, before);
    }
  }

  /** Over two paths a module would be visited twice. */
  lemma TraversedMeansOnePath(m: Module, root: nat)
    requires Traversed(m, root)
    ensures OnePathEach(m, root)
  {
    var events := Events(m, root, []);
    forall i, p, q | LeadsTo(m, root, p, i) && LeadsTo(m, root, q, i) ensures p == q {
      LeadsToVisit(m, root, [], p, i);
      LeadsToVisit(m, root, [], q, i);
      assert [] + p == p && [] + q == q;
      var x :| 0 <= x < |events| && events[x] == Visit(i, p);
      var y :| 0 <= y < |events| && events[y] == Visit(i, q);
      VisitsDiffer(m, events, x, y);
    }
  }

  lemma DataSlotIsFound(m: Module, root: nat, i: nat, k: nat) returns (x: nat)
    requires Traversed(m, root) && IsDataSlot(m, i, k)
    ensures var events := Events(m, root, []);
            x < |events| && events[x].SlotFound? && events[x].instance == i &&
            events[x].name == AttrsOf(m, i)[k].name &&
            events[x].value == SlotsOf(m, i)[k].value
  {
    var path := EveryModuleIsMet(m, root, i);
    VisitMeetsAll(m, root, [], i, path);
    SlotFits(m, i, k);
    SlotEventIsMet(m, i, 0, k, path);
    var e := SlotEvent(m, i, k, path)[0];
    assert e in SlotEvent(m, i, k, path) && e in Events(m, i, path);
    x :| 0 <= x < |Events(m, root, [])| && Events(m, root, [])[x] == e;
  }

  lemma TraversedMeansApart(m: Module, root: nat)
    requires Traversed(m, root)
    ensures SlotsShareNothing(m)
  {
    var events := Events(m, root, []);
    forall i: nat, k: nat, j: nat, l: nat | IsDataSlot(m, i, k) && IsDataSlot(m, j, l) && (i != j || k != l)
      ensures IdentityClosure(m, SlotsOf(m, i)[k].value) !! IdentityClosure(m, SlotsOf(m, j)[l].value)
    {
      var x := DataSlotIsFound(m, root, i, k);
      var y := DataSlotIsFound(m, root, j, l);
      MembersAreNamedApart(m, i);
      if x < y { InitializersDiffer(m, events, x, y); } else { InitializersDiffer(m, events, y, x); }
    }
  }

  /** Two slots met under different paths are two slots, so what they need is apart. */
  lemma MetSlotsAreApart(m: Module, root: nat, e: Event, f: Event)
    requires WellFormedGraph(m) && IsInstance(m, root) && OnePathEach(m, root) && SlotsShareNothing(m)
    requires e.SlotFound? && f.SlotFound? && IsMet(m, root, e) && IsMet(m, root, f) && e.path != f.path
    requires IsData(m, e.value) && IsData(m, f.value)
    ensures IdentityClosure(m, e.value) !! IdentityClosure(m, f.value)
  {
    var k: nat :| IsSlot(m, e.instance, k, e.name, e.isPrivate, e.value);
    var l: nat :| IsSlot(m, f.instance, l, f.name, f.isPrivate, f.value);
    assert e.path == e.path[..|e.path| - 1] + [e.name] && f.path == f.path[..|f.path| - 1] + [f.name];
    assert e.instance != f.instance || k != l;
    assert IsDataSlot(m, e.instance, k) && IsDataSlot(m, f.instance, l);
  }

  lemma ApartMeansClean(m: Module, root: nat)
    requires WellFormedGraph(m) && IsInstance(m, root) && OnePathEach(m, root) && SlotsShareNothing(m)
    ensures SlotsHoldData(m, Events(m, root, [])) && Clean(m, Events(m, root, []))
  {
    var events := Events(m, root, []);
    EventsHoldData(m, root, []);
    AllAreMet(m, root, root, []);
    EventsPathsDiffer(m, root, []);
    forall x, y | 0 <= x < y < |events| ensures !Conflict(m, events[x], events[y]) {
      var e, f := events[x], events[y];
      assert e in events && f in events;
      assert IsMet(m, root, e) && IsMet(m, root, f) && e.path != f.path;
      if e.SlotFound? && f.SlotFound? { MetSlotsAreApart(m, root, e, f); }
    }
  }

  /**
   The traversal succeeds exactly when there is one root, a single path leads to every module, and no
   identity-bearing value is needed for two slots.
   */
  lemma TraversedMeans(m: Module, root: nat)
    requires WellFormedGraph(m)
    ensures Traversed(m, root) <==> IsRoot(m, root) && OnePathEach(m, root) && SlotsShareNothing(m)
  {
    if Traversed(m, root) {
      TraversedMeansOnePath(m, root);
      TraversedMeansApart(m, root);
    }
    if IsRoot(m, root) && OnePathEach(m, root) && SlotsShareNothing(m) { ApartMeansClean(m, root); }
  }
}
