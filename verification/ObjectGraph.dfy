/**
 The object graph of a torch module and its traversal: linkage names for slots and methods, and
 an initializer for each slot. Models `findRootNnModule` and `ObjectGraphInfo` of
 lib/Dialect/Torch/Transforms/GlobalizeObjectGraph.cpp.
 */
module ObjectGraph {
  import opened Option
  import opened TorchIR

  datatype Attr = Attr(name: string, ty: Ty, isPrivate: bool)

  datatype Method = Method(name: string, func: string, isPrivate: bool)

  datatype ClassType = ClassType(attrs: seq<Attr>, methods: seq<Method>)

  datatype Slot = Slot(name: string, value: nat)

  // A top-level op, named by its position; operands and slot values are earlier positions.
  datatype Object =
    | NnModuleOp(className: string, slots: seq<Slot>)
    | ValueOp(opcode: string, operands: seq<nat>, hasIdentity: bool)

  datatype Module = Module(classes: map<string, ClassType>, objects: seq<Object>, funcs: map<string, Func>)

  // ---- What the verifiers guarantee ----

  predicate Dotless(s: string) {
    '.' !in s
  }

  function MemberNames(c: ClassType): seq<string> {
    seq(|c.attrs|, i requires 0 <= i < |c.attrs| => c.attrs[i].name) +
    seq(|c.methods|, i requires 0 <= i < |c.methods| => c.methods[i].name)
  }

  /** Attribute and method names of a class are distinct and contain no dot. */
  ghost predicate WellFormedClass(c: ClassType) {
    (forall i, j | 0 <= i < j < |MemberNames(c)| :: MemberNames(c)[i] != MemberNames(c)[j]) &&
    (forall name <- MemberNames(c) :: Dotless(name))
  }

  predicate IsInstance(m: Module, i: nat) {
    i < |m.objects| && m.objects[i].NnModuleOp?
  }

  /** Slots match the class attributes in order; module-typed ones hold instances of that class. */
  ghost predicate WellFormedObject(m: Module, i: nat)
    requires i < |m.objects|
  {
    match m.objects[i]
    case NnModuleOp(className, slots) =>
      className in m.classes && |slots| == |m.classes[className].attrs| &&
      forall k | 0 <= k < |slots| :: WellFormedSlot(m, i, m.classes[className].attrs[k], slots[k])
    case ValueOp(_, operands, _) =>
      forall v <- operands :: v < i && m.objects[v].ValueOp?
  }

  ghost predicate WellFormedSlot(m: Module, i: nat, attr: Attr, slot: Slot)
    requires i < |m.objects|
  {
    slot.name == attr.name && slot.value < i &&
    match attr.ty
    case NnModule(c) => m.objects[slot.value].NnModuleOp? && m.objects[slot.value].className == c
    case Data => m.objects[slot.value].ValueOp?
  }

  ghost predicate WellFormedGraph(m: Module) {
    (forall c <- m.classes :: WellFormedClass(m.classes[c])) &&
    (forall i | 0 <= i < |m.objects| :: WellFormedObject(m, i))
  }

  // ---- The root ----

  predicate IsUsed(m: Module, i: nat) {
    exists j | 0 <= j < |m.objects| :: m.objects[j].NnModuleOp? && exists s <- m.objects[j].slots :: s.value == i
  }

  predicate IsRootCandidate(m: Module, i: nat) {
    i < |m.objects| && m.objects[i].NnModuleOp? && !IsUsed(m, i)
  }

  /** Slot `k` of module `j` holds `i`. */
  predicate Holds(m: Module, j: nat, k: nat, i: nat) {
    IsInstance(m, j) && k < |m.objects[j].slots| && m.objects[j].slots[k].value == i
  }

  ghost predicate IsHeld(m: Module, i: nat) {
    exists j: nat, k: nat :: Holds(m, j, k, i)
  }

  /** Every other module is held by some slot, and this one is not. */
  ghost predicate IsRoot(m: Module, root: nat) {
    IsInstance(m, root) && forall i | IsInstance(m, i) :: IsHeld(m, i) <==> i != root
  }

  lemma UsedIsHeld(m: Module, i: nat)
    ensures IsUsed(m, i) <==> IsHeld(m, i)
  {
    if IsUsed(m, i) {
      var j :| 0 <= j < |m.objects| && m.objects[j].NnModuleOp? && exists s <- m.objects[j].slots :: s.value == i;
      var s :| s in m.objects[j].slots && s.value == i;
      var k :| 0 <= k < |m.objects[j].slots| && m.objects[j].slots[k] == s;
      assert Holds(m, j, k, i);
    }
    if IsHeld(m, i) {
      var j: nat, k: nat :| Holds(m, j, k, i);
      assert m.objects[j].slots[k] in m.objects[j].slots;
    }
  }

  lemma RootIsOnlyCandidate(m: Module, root: nat)
    ensures IsRoot(m, root) <==> IsRootCandidate(m, root) && forall i | IsRootCandidate(m, i) :: i == root
  {
    forall i: nat ensures IsUsed(m, i) <==> IsHeld(m, i) { UsedIsHeld(m, i); }
    if IsRootCandidate(m, root) && forall i | IsRootCandidate(m, i) :: i == root {
      forall i | IsInstance(m, i)
        ensures IsHeld(m, i) <==> i != root
      {
        assert !IsUsed(m, i) ==> IsRootCandidate(m, i);
      }
    }
  }

  /** The only module that no slot holds; none or several of them is an error. */
  method FindRootNnModule(m: Module) returns (root: Option<nat>)
    ensures root.Some? ==> IsRoot(m, root.value)
    ensures root.None? ==> forall i :: !IsRoot(m, i)
  {
    root := None;
    for i := 0 to |m.objects|
      invariant root.Some? ==> root.value < i && IsRootCandidate(m, root.value)
      invariant forall j: nat | j < i && IsRootCandidate(m, j) :: root == Some(j)
    {
      if IsRootCandidate(m, i) {
        if root.Some? {
          assert IsRootCandidate(m, root.value);
          forall r { RootIsOnlyCandidate(m, r); }
          return None;
        }
        root := Some(i);
      }
    }
    forall r { RootIsOnlyCandidate(m, r); }
  }

  // ---- Reference: the unfolding of the graph from a module ----

  // A module met on the traversal, a data slot, or a method; `path` is the attribute names leading
  // to it, ending with its own name for slots and methods.
  datatype Event =
    | Visit(instance: nat, path: seq<string>)
    | SlotFound(instance: nat, path: seq<string>, name: string, isPrivate: bool, value: nat)
    | MethodFound(instance: nat, path: seq<string>, func: string, isPrivate: bool)

  function SlotsOf(m: Module, i: nat): seq<Slot>
    requires IsInstance(m, i)
  {
    m.objects[i].slots
  }

  function AttrsOf(m: Module, i: nat): seq<Attr>
    requires WellFormedGraph(m) && IsInstance(m, i)
  {
    assert WellFormedObject(m, i);
    m.classes[m.objects[i].className].attrs
  }

  function MethodsOf(m: Module, i: nat): seq<Method>
    requires WellFormedGraph(m) && IsInstance(m, i)
  {
    assert WellFormedObject(m, i);
    m.classes[m.objects[i].className].methods
  }

  lemma SlotFits(m: Module, i: nat, k: nat)
    requires WellFormedGraph(m) && IsInstance(m, i) && k < |SlotsOf(m, i)|
    ensures |AttrsOf(m, i)| == |SlotsOf(m, i)|
    ensures WellFormedSlot(m, i, AttrsOf(m, i)[k], SlotsOf(m, i)[k])
    ensures AttrsOf(m, i)[k].ty.NnModule? ==> IsInstance(m, SlotsOf(m, i)[k].value)
    ensures SlotsOf(m, i)[k].value < i
  {
    assert WellFormedObject(m, i);
  }

  /** Everything met from `i`, in traversal order; a module reachable along two paths is met twice. */
  function Events(m: Module, i: nat, path: seq<string>): seq<Event>
    requires WellFormedGraph(m) && IsInstance(m, i)
    decreases i, 2, 0
  {
    [Visit(i, path)] + RestOf(m, i, 0, path)
  }

  /** What is met in `i` from slot `k` on. */
  function RestOf(m: Module, i: nat, k: nat, path: seq<string>): seq<Event>
    requires WellFormedGraph(m) && IsInstance(m, i) && k <= |SlotsOf(m, i)|
    decreases i, 1, 0
  {
    SlotEvents(m, i, k, path) + MethodEvents(m, i, 0, path)
  }

  lemma RestSplits(m: Module, i: nat, k: nat, path: seq<string>, events: seq<Event>)
    requires WellFormedGraph(m) && IsInstance(m, i) && k < |SlotsOf(m, i)|
    ensures events + RestOf(m, i, k, path) == (events + SlotEvent(m, i, k, path)) + RestOf(m, i, k + 1, path)
  {
  }

  function SlotEvents(m: Module, i: nat, k: nat, path: seq<string>): seq<Event>
    requires WellFormedGraph(m) && IsInstance(m, i) && k <= |SlotsOf(m, i)|
    decreases i, 0, |SlotsOf(m, i)| - k
  {
    if k == |SlotsOf(m, i)| then []
    else SlotEvent(m, i, k, path) + SlotEvents(m, i, k + 1, path)
  }

  function SlotEvent(m: Module, i: nat, k: nat, path: seq<string>): seq<Event>
    requires WellFormedGraph(m) && IsInstance(m, i) && k < |SlotsOf(m, i)|
    decreases i, 0, 0
  {
    SlotFits(m, i, k);
    var attr, slot := AttrsOf(m, i)[k], SlotsOf(m, i)[k];
    if attr.ty.NnModule? then Events(m, slot.value, path + [attr.name])
    else [SlotFound(i, path + [attr.name], attr.name, attr.isPrivate, slot.value)]
  }

  function MethodEvents(m: Module, i: nat, k: nat, path: seq<string>): seq<Event>
    requires WellFormedGraph(m) && IsInstance(m, i) && k <= |MethodsOf(m, i)|
    decreases |MethodsOf(m, i)| - k
  {
    if k == |MethodsOf(m, i)| then []
    else [MethodEvent(m, i, k, path)] + MethodEvents(m, i, k + 1, path)
  }

  function MethodEvent(m: Module, i: nat, k: nat, path: seq<string>): Event
    requires WellFormedGraph(m) && IsInstance(m, i) && k < |MethodsOf(m, i)|
  {
    var method' := MethodsOf(m, i)[k];
    MethodFound(i, path + [method'.name], method'.func, method'.isPrivate)
  }

  /** The backward slice of a value. */
  function Closure(m: Module, v: nat): (s: set<nat>)
    requires WellFormedGraph(m) && IsData(m, v)
    ensures v in s && forall u <- s :: u <= v
    decreases v, 1, 0
  {
    assert WellFormedObject(m, v);
    {v} + ClosureOfAll(m, m.objects[v].operands, v)
  }

  function ClosureOfAll(m: Module, vs: seq<nat>, bound: nat): (s: set<nat>)
    requires WellFormedGraph(m) && forall v <- vs :: v < bound && IsData(m, v)
    ensures forall u <- s :: u <= bound
    ensures forall u :: u in s <==> exists k :: 0 <= k < |vs| && u in Closure(m, vs[k])
    decreases bound, 0, |vs|
  {
    assert forall k | 0 <= k < |vs| :: vs[k] in vs;
    set k, u | 0 <= k < |vs| && u in Closure(m, vs[k]) :: u
  }

  /** The identity-bearing values an initializer copies. */
  function IdentityClosure(m: Module, v: nat): set<nat>
    requires WellFormedGraph(m) && IsData(m, v)
  {
    set u | u in Closure(m, v) && m.objects[u].ValueOp? && m.objects[u].hasIdentity
  }

  predicate IsData(m: Module, v: nat) {
    v < |m.objects| && m.objects[v].ValueOp?
  }

  ghost predicate SlotsHoldData(m: Module, events: seq<Event>) {
    forall e <- events :: e.SlotFound? ==> IsData(m, e.value)
  }

  /** Two events that may not both occur: the same module twice, or a shared identity-bearing value. */
  ghost predicate Conflict(m: Module, a: Event, b: Event)
    requires WellFormedGraph(m) && (a.SlotFound? ==> IsData(m, a.value)) && (b.SlotFound? ==> IsData(m, b.value))
  {
    (a.Visit? && b.Visit? && a.instance == b.instance) ||
    (a.SlotFound? && b.SlotFound? && !(IdentityClosure(m, a.value) !! IdentityClosure(m, b.value)))
  }

  ghost predicate Clean(m: Module, events: seq<Event>)
    requires WellFormedGraph(m) && SlotsHoldData(m, events)
  {
    forall i, j | 0 <= i < j < |events| :: !Conflict(m, events[i], events[j])
  }

  lemma {:induction false} EventsHoldData(m: Module, i: nat, path: seq<string>)
    requires WellFormedGraph(m) && IsInstance(m, i)
    ensures SlotsHoldData(m, Events(m, i, path))
    decreases i, 1, 0
  {
    SlotEventsHoldData(m, i, 0, path);
    MethodEventsAreMethods(m, i, 0, path);
  }

  lemma {:induction false} SlotEventsHoldData(m: Module, i: nat, k: nat, path: seq<string>)
    requires WellFormedGraph(m) && IsInstance(m, i) && k <= |SlotsOf(m, i)|
    ensures SlotsHoldData(m, SlotEvents(m, i, k, path))
    decreases i, 0, |SlotsOf(m, i)| - k
  {
    if k < |SlotsOf(m, i)| {
      SlotFits(m, i, k);
      if AttrsOf(m, i)[k].ty.NnModule? { EventsHoldData(m, SlotsOf(m, i)[k].value, path + [AttrsOf(m, i)[k].name]); }
      SlotEventsHoldData(m, i, k + 1, path);
    }
  }

  lemma {:induction false} MethodEventsAreMethods(m: Module, i: nat, k: nat, path: seq<string>)
    requires WellFormedGraph(m) && IsInstance(m, i) && k <= |MethodsOf(m, i)|
    ensures forall e <- MethodEvents(m, i, k, path) :: e.MethodFound? && e.instance == i
    decreases |MethodsOf(m, i)| - k
  {
    if k < |MethodsOf(m, i)| { MethodEventsAreMethods(m, i, k + 1, path); }
  }

  lemma CleanPrefix(m: Module, a: seq<Event>, b: seq<Event>)
    requires WellFormedGraph(m) && SlotsHoldData(m, a + b) && Clean(m, a + b)
    ensures SlotsHoldData(m, a) && Clean(m, a)
  {
    assert forall e <- a :: e in a + b;
    forall i, j | 0 <= i < j < |a| ensures !Conflict(m, a[i], a[j]) {
      assert (a + b)[i] == a[i] && (a + b)[j] == a[j];
    }
  }

  // ---- Names ----

  /** A dot-joined path. */
  function Join(path: seq<string>): string {
    if path == [] then ""
    else if |path| == 1 then path[0]
    else path[0] + "." + Join(path[1..])
  }

  /** Dot-joining is injective on non-empty paths of dotless names. */
  lemma {:induction false} JoinInjective(a: seq<string>, b: seq<string>)
    requires a != [] && b != [] && (forall x <- a :: Dotless(x)) && (forall x <- b :: Dotless(x))
    requires Join(a) == Join(b)
    ensures a == b
  {
    FirstDot(a);
    FirstDot(b);
    if |a| == 1 {
      assert a == [a[0]] && b == [b[0]];
    } else {
      assert a[0] == Join(a)[..|a[0]|] && b[0] == Join(b)[..|b[0]|];
      assert Dotless(a[0]) && Dotless(b[0]);
      assert forall k | 0 <= k < |a[0]| :: Join(a)[k] == a[0][k];
      assert forall k | 0 <= k < |b[0]| :: Join(b)[k] == b[0][k];
      assert |a[0]| == |b[0]|;
      assert Join(a)[|a[0]| + 1..] == Join(a[1..]) && Join(b)[|b[0]| + 1..] == Join(b[1..]);
      JoinInjective(a[1..], b[1..]);
      assert a == [a[0]] + a[1..] && b == [b[0]] + b[1..];
    }
  }

  /** A join has a dot exactly when it joins more than one name, and the first ends the first name. */
  lemma FirstDot(a: seq<string>)
    requires a != [] && Dotless(a[0])
    ensures |a| == 1 <==> Dotless(Join(a))
    ensures |a| == 1 ==> Join(a) == a[0]
    ensures |a| > 1 ==> |Join(a)| > |a[0]| && Join(a)[|a[0]|] == '.' && Join(a)[..|a[0]|] == a[0]
  {
    if |a| > 1 { assert Join(a)[|a[0]|] == '.'; }
  }

  /** The names of the path follow each other in `name`, with one dot between two of them and nothing else. */
  ghost predicate IsDotted(name: string, path: seq<string>) {
    exists starts :: SitAt(name, path, starts)
  }

  ghost predicate SitAt(name: string, path: seq<string>, starts: seq<nat>) {
    |starts| == |path| > 0 && starts[0] == 0 && starts[|path| - 1] + |path[|path| - 1]| == |name| &&
    (forall k | 0 <= k < |path| :: SitsAt(name, path[k], starts[k])) &&
    forall k | 0 <= k < |path| - 1 :: DotFollows(name, starts[k] + |path[k]|, starts[k + 1])
  }

  predicate DotFollows(name: string, end: nat, next: nat) {
    end < |name| && name[end] == '.' && next == end + 1
  }

  predicate SitsAt(name: string, part: string, start: nat) {
    start + |part| <= |name| && name[start..start + |part|] == part
  }

  lemma {:induction false} JoinIsDotted(path: seq<string>)
    requires path != []
    ensures IsDotted(Join(path), path)
  {
    if |path| == 1 {
      assert SitAt(Join(path), path, [0]);
    } else {
      JoinIsDotted(path[1..]);
      var starts :| SitAt(Join(path[1..]), path[1..], starts);
      DottedNext(path[0], Join(path[1..]), path, starts);
    }
  }

  lemma DottedNext(first: string, rest: string, path: seq<string>, starts: seq<nat>)
    requires |path| > 1 && path[0] == first && SitAt(rest, path[1..], starts)
    ensures IsDotted(first + "." + rest, path)
  {
    var name := first + "." + rest;
    var all := [0] + seq(|starts|, k requires 0 <= k < |starts| => starts[k] + |first| + 1);
    assert name[..|first|] == first;
    forall k | 0 <= k < |path| ensures SitsAt(name, path[k], all[k]) {
      if k > 0 { SitsLater(first, rest, path[1..][k - 1], starts[k - 1]); }
    }
    forall k | 0 <= k < |path| - 1 ensures DotFollows(name, all[k] + |path[k]|, all[k + 1]) {
      if k > 0 { assert DotFollows(rest, starts[k - 1] + |path[1..][k - 1]|, starts[k]); }
    }
    assert SitAt(name, path, all);
  }

  lemma SitsLater(first: string, rest: string, part: string, start: nat)
    requires SitsAt(rest, part, start)
    ensures SitsAt(first + "." + rest, part, start + |first| + 1)
  {
    var name := first + "." + rest;
    assert name[|first| + 1..] == rest;
    assert name[start + |first| + 1..start + |first| + 1 + |part|] == rest[start..start + |part|];
  }

  // ---- The tables built by the traversal ----

  datatype LinkageInfo = LinkageInfo(linkageName: string, isPrivate: bool)

  // The cloned ops in block order, and the value the slot is initialised with.
  datatype GlobalSlot = GlobalSlot(name: string, isPrivate: bool, initializer: seq<nat>, value: nat)

  function Seen(events: seq<Event>): map<nat, string> {
    if events == [] then map[]
    else
      var rest, e := Seen(events[..|events| - 1]), events[|events| - 1];
      if e.Visit? then rest[e.instance := Join(e.path)] else rest
  }

  function SlotLinkage(events: seq<Event>): map<(nat, string), LinkageInfo> {
    if events == [] then map[]
    else
      var rest, e := SlotLinkage(events[..|events| - 1]), events[|events| - 1];
      if e.SlotFound? then rest[(e.instance, e.name) := LinkageInfo(Join(e.path), e.isPrivate)] else rest
  }

  function FuncLinkage(events: seq<Event>): map<(nat, string), LinkageInfo> {
    if events == [] then map[]
    else
      var rest, e := FuncLinkage(events[..|events| - 1]), events[|events| - 1];
      if e.MethodFound? then rest[(e.instance, e.func) := LinkageInfo(Join(e.path), e.isPrivate)] else rest
  }

  /** Block order: the positions of `s` from first to last. */
  function Sorted(s: set<nat>, n: nat): (r: seq<nat>)
    ensures forall i :: i in r <==> i in s && i < n
    ensures forall a, b | 0 <= a < b < |r| :: r[a] < r[b]
  {
    if n == 0 then []
    else
      var rest := Sorted(s, n - 1);
      assert forall a | 0 <= a < |rest| :: rest[a] in rest;
      if n - 1 in s then rest + [n - 1] else rest
  }

  /** The global slot of a data slot: its linkage name, and the slice of its value in block order. */
  function GlobalOf(m: Module, e: Event): GlobalSlot
    requires WellFormedGraph(m) && e.SlotFound? && IsData(m, e.value)
  {
    GlobalSlot(Join(e.path), e.isPrivate, Sorted(Closure(m, e.value), |m.objects|), e.value)
  }

  function Globals(m: Module, events: seq<Event>): seq<GlobalSlot>
    requires WellFormedGraph(m) && SlotsHoldData(m, events)
  {
    if events == [] then []
    else
      var e := events[|events| - 1];
      assert e in events;
      Globals(m, events[..|events| - 1]) + (if e.SlotFound? then [GlobalOf(m, e)] else [])
  }

  ghost function Copied(m: Module, events: seq<Event>): set<nat>
    requires WellFormedGraph(m) && SlotsHoldData(m, events)
  {
    if events == [] then {}
    else
      var e := events[|events| - 1];
      assert e in events;
      Copied(m, events[..|events| - 1]) + (if e.SlotFound? then IdentityClosure(m, e.value) else {})
  }

  lemma {:induction false} SeenIsVisited(events: seq<Event>, i: nat)
    ensures i in Seen(events) <==> exists k | 0 <= k < |events| :: events[k].Visit? && events[k].instance == i
  {
    if events != [] {
      var front, last := events[..|events| - 1], |events| - 1;
      SeenIsVisited(front, i);
      if i in Seen(front) {
        var k :| 0 <= k < |front| && front[k].Visit? && front[k].instance == i;
        assert events[k] == front[k];
      }
      if k :| 0 <= k < |events| && events[k].Visit? && events[k].instance == i {
        if k < last { assert front[k] == events[k]; }
      }
    }
  }

  /** `e` is a slot whose initializer copies the identity-bearing value `v`. */
  ghost predicate CopiedBy(m: Module, e: Event, v: nat)
    requires WellFormedGraph(m)
  {
    e.SlotFound? && IsData(m, e.value) && v in IdentityClosure(m, e.value)
  }

  lemma {:induction false} CopiedFromSlots(m: Module, events: seq<Event>, v: nat)
    requires WellFormedGraph(m) && SlotsHoldData(m, events)
    ensures v in Copied(m, events) <==> exists k | 0 <= k < |events| :: CopiedBy(m, events[k], v)
  {
    if events != [] {
      var front, last := events[..|events| - 1], |events| - 1;
      assert events[last] in events;
      CopiedFromSlots(m, front, v);
      if v in Copied(m, front) {
        var k :| 0 <= k < |front| && CopiedBy(m, front[k], v);
        assert events[k] == front[k];
      }
      if k :| 0 <= k < |events| && CopiedBy(m, events[k], v) {
        if k < last { assert front[k] == events[k]; }
      }
    }
  }

  /** Whether one more event fits, in terms of the tables. */
  lemma CleanAppend(m: Module, events: seq<Event>, e: Event)
    requires WellFormedGraph(m) && SlotsHoldData(m, events) && (e.SlotFound? ==> IsData(m, e.value)) && Clean(m, events)
    ensures SlotsHoldData(m, events + [e])
    ensures e.Visit? ==> (Clean(m, events + [e]) <==> e.instance !in Seen(events))
    ensures e.SlotFound? ==> (Clean(m, events + [e]) <==> IdentityClosure(m, e.value) !! Copied(m, events))
    ensures e.MethodFound? ==> Clean(m, events + [e])
  {
    var all := events + [e];
    assert Clean(m, all) <==> forall i | 0 <= i < |events| :: !Conflict(m, all[i], e) by {
      if Clean(m, all) {
        forall i | 0 <= i < |events| ensures !Conflict(m, all[i], e) { assert all[|events|] == e; }
      }
      if forall i | 0 <= i < |events| :: !Conflict(m, all[i], e) {
        forall i, j | 0 <= i < j < |all| ensures !Conflict(m, all[i], all[j]) {
          if j < |events| { assert all[i] == events[i] && all[j] == events[j]; }
        }
      }
    }
    assert forall i | 0 <= i < |events| :: all[i] == events[i];
    if e.Visit? { SeenIsVisited(events, e.instance); }
    if e.SlotFound? {
      forall v ensures v in Copied(m, events) <==> exists k | 0 <= k < |events| :: CopiedBy(m, events[k], v)
      {
        CopiedFromSlots(m, events, v);
      }
    }
  }

  function IdentityIn(m: Module, ops: seq<nat>): set<nat> {
    set u | u in ops && IsData(m, u) && m.objects[u].hasIdentity
  }

  lemma IdentityInPrefix(m: Module, ops: seq<nat>, k: nat)
    requires k < |ops| && IsData(m, ops[k]) && forall a, b | 0 <= a < b < |ops| :: ops[a] < ops[b]
    ensures IdentityIn(m, ops[..k + 1]) ==
            IdentityIn(m, ops[..k]) + (if m.objects[ops[k]].hasIdentity then {ops[k]} else {})
    ensures ops[k] !in ops[..k] && IdentityIn(m, ops[..k + 1]) <= IdentityIn(m, ops)
  {
    assert ops[..k + 1] == ops[..k] + [ops[k]];
  }

  /** The tables are those of the events so far, which are clean. */
  ghost predicate TablesOf(m: Module, events: seq<Event>, seen: map<nat, string>,
                           slots: map<(nat, string), LinkageInfo>, funcs: map<(nat, string), LinkageInfo>,
                           globals: seq<GlobalSlot>, copied: set<nat>)
  {
    WellFormedGraph(m) && SlotsHoldData(m, events) && Clean(m, events) && seen == Seen(events) &&
    slots == SlotLinkage(events) &&
    funcs == FuncLinkage(events) && globals == Globals(m, events) && copied == Copied(m, events)
  }

  lemma RecordVisit(m: Module, events: seq<Event>, seen: map<nat, string>, slots: map<(nat, string), LinkageInfo>,
                    funcs: map<(nat, string), LinkageInfo>, globals: seq<GlobalSlot>, copied: set<nat>, i: nat,
                    path: seq<string>)
    requires TablesOf(m, events, seen, slots, funcs, globals, copied) && i !in seen
    ensures TablesOf(m, events + [Visit(i, path)], seen[i := Join(path)], slots, funcs, globals, copied)
  {
    CleanAppend(m, events, Visit(i, path));
    TablesAppend(m, events, Visit(i, path));
  }

  lemma RecordSlot(m: Module, events: seq<Event>, seen: map<nat, string>, slots: map<(nat, string), LinkageInfo>,
                   funcs: map<(nat, string), LinkageInfo>, globals: seq<GlobalSlot>, copied: set<nat>, e: Event)
    requires TablesOf(m, events, seen, slots, funcs, globals, copied) && e.SlotFound? && IsData(m, e.value)
    ensures SlotsHoldData(m, events + [e]) && (Clean(m, events + [e]) <==> IdentityClosure(m, e.value) !! copied)
    ensures Clean(m, events + [e]) ==>
              TablesOf(m, events + [e], seen, slots[(e.instance, e.name) := LinkageInfo(Join(e.path), e.isPrivate)],
                       funcs, globals + [GlobalOf(m, e)], copied + IdentityClosure(m, e.value))
  {
    CleanAppend(m, events, e);
    TablesAppend(m, events, e);
  }

  lemma RecordMethod(m: Module, events: seq<Event>, seen: map<nat, string>, slots: map<(nat, string), LinkageInfo>,
                     funcs: map<(nat, string), LinkageInfo>, globals: seq<GlobalSlot>, copied: set<nat>, e: Event)
    requires TablesOf(m, events, seen, slots, funcs, globals, copied) && e.MethodFound?
    ensures TablesOf(m, events + [e], seen, slots,
                     funcs[(e.instance, e.func) := LinkageInfo(Join(e.path), e.isPrivate)], globals, copied)
  {
    CleanAppend(m, events, e);
    TablesAppend(m, events, e);
  }

  /** A global slot for the attribute, named by the path, which is also its linkage name. */
  ghost predicate SlotAdded(before: seq<GlobalSlot>, after: seq<GlobalSlot>, linkage: map<(nat, string), LinkageInfo>,
                            linkage': map<(nat, string), LinkageInfo>, i: nat, attr: Attr, value: nat,
                            path: seq<string>)
  {
    |after| == |before| + 1 && after[..|before|] == before &&
    var g := after[|before|];
    IsDotted(g.name, path) && g.isPrivate == attr.isPrivate && g.value == value &&
    linkage' == linkage[(i, attr.name) := LinkageInfo(g.name, attr.isPrivate)]
  }

  lemma SlotIsAdded(before: seq<GlobalSlot>, linkage: map<(nat, string), LinkageInfo>, i: nat, attr: Attr, value: nat,
                    path: seq<string>, initializer: seq<nat>)
    ensures path != [] ==>
              SlotAdded(before, before + [GlobalSlot(Join(path), attr.isPrivate, initializer, value)], linkage,
                        linkage[(i, attr.name) := LinkageInfo(Join(path), attr.isPrivate)], i, attr, value, path)
  {
    if path != [] { JoinIsDotted(path); }
  }

  /** The linkage name of a method of the module that the path leads to. */
  ghost predicate NamesMethod(info: LinkageInfo, method': Method, path: seq<string>) {
    IsDotted(info.linkageName, path + [method'.name]) && info.isPrivate == method'.isPrivate
  }

  lemma MethodIsNamed(method': Method, path: seq<string>)
    ensures NamesMethod(LinkageInfo(Join(path + [method'.name]), method'.isPrivate), method', path)
  {
    JoinIsDotted(path + [method'.name]);
  }

  /** The function has the linkage name of one of the first `n` methods that it implements. */
  ghost predicate HasName(info: map<(nat, string), LinkageInfo>, i: nat, func: string, methods: seq<Method>, n: nat,
                          path: seq<string>)
    requires n <= |methods|
  {
    (i, func) in info &&
    exists j | 0 <= j < n :: methods[j].func == func && NamesMethod(info[(i, func)], methods[j], path)
  }

  ghost predicate HaveNames(info: map<(nat, string), LinkageInfo>, i: nat, methods: seq<Method>, n: nat,
                            path: seq<string>)
    requires n <= |methods|
  {
    forall j | 0 <= j < n :: HasName(info, i, methods[j].func, methods, n, path)
  }

  lemma HaveNamesNext(info: map<(nat, string), LinkageInfo>, i: nat, methods: seq<Method>, n: nat, path: seq<string>)
    requires n < |methods| && HaveNames(info, i, methods, n, path)
    ensures var linkage := LinkageInfo(Join(path + [methods[n].name]), methods[n].isPrivate);
            HaveNames(info[(i, methods[n].func) := linkage], i, methods, n + 1, path)
  {
    MethodIsNamed(methods[n], path);
    var after := info[(i, methods[n].func) := LinkageInfo(Join(path + [methods[n].name]), methods[n].isPrivate)];
    forall j | 0 <= j < n + 1 ensures HasName(after, i, methods[j].func, methods, n + 1, path) {
      if methods[j].func != methods[n].func { assert HasName(info, i, methods[j].func, methods, n, path); }
    }
  }

  // ---- The traversal ----

  class ObjectGraphInfo {
    const m: Module
    var nameStack: seq<string>
    var seenNnModules: map<nat, string>
    var slotLinkageInfo: map<(nat, string), LinkageInfo>
    var funcLinkageInfo: map<(nat, string), LinkageInfo>
    var globalSlots: seq<GlobalSlot>
    // Identity-bearing values copied into some initializer.
    var copiedObjects: set<nat>
    ghost var events: seq<Event>

    constructor (m: Module)
      requires WellFormedGraph(m)
      ensures this.m == m && nameStack == [] && events == [] && Valid()
    {
      this.m := m;
      nameStack, seenNnModules, globalSlots, copiedObjects := [], map[], [], {};
      slotLinkageInfo, funcLinkageInfo := map[], map[];
      events := [];
    }

    ghost predicate Valid()
      reads this
    {
      TablesOf(m, events, seenNnModules, slotLinkageInfo, funcLinkageInfo, globalSlots, copiedObjects)
    }

    /**
     The backward slice by worklist, cloned in block order. It fails iff the slice shares an
     identity-bearing value with an earlier initializer.
     */
    method PopulateGlobalSlotInitializer(initialValue: nat) returns (ok: bool, initializer: seq<nat>)
      requires WellFormedGraph(m) && IsData(m, initialValue)
      modifies this`copiedObjects
      ensures ok <==> IdentityClosure(m, initialValue) !! old(copiedObjects)
      ensures ok ==> initializer == Sorted(Closure(m, initialValue), |m.objects|)
      ensures ok ==> copiedObjects == old(copiedObjects) + IdentityClosure(m, initialValue)
    {
      var needToClone := BackwardSlice(initialValue);
      initializer := Sorted(needToClone, |m.objects|);
      assert IdentityIn(m, initializer) == IdentityClosure(m, initialValue);
      ghost var start := copiedObjects;
      ok := true;
      for k := 0 to |initializer|
        invariant copiedObjects == start + IdentityIn(m, initializer[..k])
        invariant start !! IdentityIn(m, initializer[..k])
      {
        var op := initializer[k];
        assert op in initializer;
        ClosureIsClosed(m, initialValue, op);
        IdentityInPrefix(m, initializer, k);
        if m.objects[op].hasIdentity {
          if op in copiedObjects { return false, initializer; }
          copiedObjects := copiedObjects + {op};
        }
      }
      assert initializer[..|initializer|] == initializer;
    }

    method BackwardSlice(v: nat) returns (needToClone: set<nat>)
      requires WellFormedGraph(m) && IsData(m, v)
      ensures needToClone == Closure(m, v)
    {
      needToClone := {};
      var worklist := [v];
      while worklist != []
        invariant SliceInvariant(m, v, needToClone, worklist)
        decreases Closure(m, v) - needToClone, |worklist|
      {
        var op := worklist[|worklist| - 1];
        assert worklist == worklist[..|worklist| - 1] + [worklist[|worklist| - 1]];
        SliceStep(m, v, needToClone, worklist[..|worklist| - 1], worklist[|worklist| - 1]);
        worklist := worklist[..|worklist| - 1];
        if op in needToClone { continue; }
        needToClone := needToClone + {op};
        worklist := worklist + OperandsOf(m, op);
      }
      ClosureIsLeast(m, v, needToClone);
    }

    /** Succeeds iff the events so far and everything met from `i` are free of conflicts. */
    method RecursivelyTraverse(i: nat) returns (ok: bool)
      requires Valid() && IsInstance(m, i)
      modifies this
      ensures SlotsHoldData(m, old(events) + Events(m, i, old(nameStack)))
      ensures ok <==> Clean(m, old(events) + Events(m, i, old(nameStack)))
      ensures ok ==> Valid() && events == old(events) + Events(m, i, old(nameStack)) && nameStack == old(nameStack)
      decreases i, 2
    {
      ghost var visit := Visit(i, nameStack);
      EnterModule(m, events, i, nameStack);
      var pathToClassFromRoot := Join(nameStack);
      if i in seenNnModules { return false; }
      RecordVisit(m, events, seenNnModules, slotLinkageInfo, funcLinkageInfo, globalSlots, copiedObjects, i, nameStack);
      seenNnModules := seenNnModules[i := pathToClassFromRoot];
      events := events + [visit];
      ok := TraverseSlots(i);
    }

    /** The slots in order, then the methods. */
    method TraverseSlots(i: nat) returns (ok: bool)
      requires Valid() && IsInstance(m, i)
      modifies this
      ensures SlotsHoldData(m, old(events) + RestOf(m, i, 0, old(nameStack)))
      ensures ok <==> Clean(m, old(events) + RestOf(m, i, 0, old(nameStack)))
      ensures ok ==> Valid() && events == old(events) + RestOf(m, i, 0, old(nameStack)) && nameStack == old(nameStack)
      decreases i, 1
    {
      ghost var names, all := nameStack, events + RestOf(m, i, 0, nameStack);
      SlotEventsHoldData(m, i, 0, names);
      MethodEventsAreMethods(m, i, 0, names);
      var k := 0;
      while k < |SlotsOf(m, i)|
        invariant k <= |SlotsOf(m, i)| && Valid() && nameStack == names
        invariant all == events + RestOf(m, i, k, names)
        decreases |SlotsOf(m, i)| - k
      {
        RestSplits(m, i, k, names, events);
        ghost var met := events + SlotEvent(m, i, k, names);
        ok := TraverseSlot(i, k);
        if !ok {
          DirtyPrefix(m, met, RestOf(m, i, k + 1, names), all);
          return;
        }
        k := k + 1;
      }
      assert RestOf(m, i, k, names) == MethodEvents(m, i, 0, names);
      TraverseMethods(i);
      ok := true;
    }

    /** One slot: descend into a module, or create the global slot of a data slot. */
    method TraverseSlot(i: nat, k: nat) returns (ok: bool)
      requires Valid() && IsInstance(m, i) && k < |SlotsOf(m, i)|
      modifies this
      ensures SlotsHoldData(m, old(events) + SlotEvent(m, i, k, old(nameStack)))
      ensures ok <==> Clean(m, old(events) + SlotEvent(m, i, k, old(nameStack)))
      ensures ok ==> Valid() && events == old(events) + SlotEvent(m, i, k, old(nameStack)) &&
                     nameStack == old(nameStack)
      decreases i, 0
    {
      SlotFits(m, i, k);
      var attr, slot := AttrsOf(m, i)[k], SlotsOf(m, i)[k];
      nameStack := nameStack + [attr.name];
      if attr.ty.NnModule? {
        ok := RecursivelyTraverse(slot.value);
      } else {
        ok := CreateGlobalSlot(i, attr, slot);
      }
      if ok { nameStack := nameStack[..|nameStack| - 1]; }
    }

    /** The global slot of a data slot, under the name spelled by the name stack. */
    method CreateGlobalSlot(i: nat, attr: Attr, slot: Slot) returns (ok: bool)
      requires Valid() && IsData(m, slot.value)
      modifies this
      ensures SlotsHoldData(m, old(events) + [SlotFound(i, old(nameStack), attr.name, attr.isPrivate, slot.value)])
      ensures ok <==> Clean(m, old(events) + [SlotFound(i, old(nameStack), attr.name, attr.isPrivate, slot.value)])
      ensures ok ==>
                Valid() && events == old(events) + [SlotFound(i, old(nameStack), attr.name, attr.isPrivate, slot.value)]
      ensures nameStack == old(nameStack)
      ensures ok && nameStack != [] ==>
                SlotAdded(old(globalSlots), globalSlots, old(slotLinkageInfo), slotLinkageInfo, i, attr, slot.value,
                          nameStack)
    {
      var linkageName := Join(nameStack);
      ghost var found := SlotFound(i, nameStack, attr.name, attr.isPrivate, slot.value);
      RecordSlot(m, events, seenNnModules, slotLinkageInfo, funcLinkageInfo, globalSlots, copiedObjects, found);
      slotLinkageInfo := slotLinkageInfo[(i, attr.name) := LinkageInfo(linkageName, attr.isPrivate)];
      var initializer;
      ok, initializer := PopulateGlobalSlotInitializer(slot.value);
      if !ok { return; }
      SlotIsAdded(globalSlots, old(slotLinkageInfo), i, attr, slot.value, nameStack, initializer);
      globalSlots := globalSlots + [GlobalSlot(linkageName, attr.isPrivate, initializer, slot.value)];
      events := events + [found];
    }

    /** The linkage names of the methods of `i`. */
    method TraverseMethods(i: nat)
      requires Valid() && IsInstance(m, i)
      modifies this
      ensures Valid() && events == old(events) + MethodEvents(m, i, 0, nameStack) && nameStack == old(nameStack)
      ensures HaveNames(funcLinkageInfo, i, MethodsOf(m, i), |MethodsOf(m, i)|, nameStack)
    {
      ghost var names, all := nameStack, events + MethodEvents(m, i, 0, nameStack);
      for k := 0 to |MethodsOf(m, i)|
        invariant Valid() && nameStack == names
        invariant all == events + MethodEvents(m, i, k, names)
        invariant HaveNames(funcLinkageInfo, i, MethodsOf(m, i), k, names)
      {
        MethodFirst(m, events, i, k, names);
        ghost var before := funcLinkageInfo;
        TraverseMethod(i, k);
        HaveNamesNext(before, i, MethodsOf(m, i), k, names);
      }
    }

    method TraverseMethod(i: nat, k: nat)
      requires Valid() && IsInstance(m, i) && k < |MethodsOf(m, i)|
      modifies this
      ensures Valid() && events == old(events) + [MethodEvent(m, i, k, nameStack)] && nameStack == old(nameStack)
      ensures var method' := MethodsOf(m, i)[k];
              funcLinkageInfo == old(funcLinkageInfo)[(i, method'.func) :=
                                   LinkageInfo(Join(nameStack + [method'.name]), method'.isPrivate)]
    {
      var method' := MethodsOf(m, i)[k];
      ghost var found := MethodEvent(m, i, k, nameStack);
      RecordMethod(m, events, seenNnModules, slotLinkageInfo, funcLinkageInfo, globalSlots, copiedObjects, found);
      nameStack := nameStack + [method'.name];
      assert found.path == nameStack && nameStack[..|nameStack| - 1] == old(nameStack);
      var linkageName := Join(nameStack);
      funcLinkageInfo := funcLinkageInfo[(i, method'.func) := LinkageInfo(linkageName, method'.isPrivate)];
      nameStack := nameStack[..|nameStack| - 1];
      events := events + [found];
    }
  }

  lemma MethodFirst(m: Module, events: seq<Event>, i: nat, k: nat, path: seq<string>)
    requires WellFormedGraph(m) && IsInstance(m, i) && k < |MethodsOf(m, i)|
    ensures events + MethodEvents(m, i, k, path) ==
            (events + [MethodEvent(m, i, k, path)]) + MethodEvents(m, i, k + 1, path)
  {
  }

  lemma VisitFirst(m: Module, events: seq<Event>, i: nat, path: seq<string>)
    requires WellFormedGraph(m) && IsInstance(m, i)
    ensures events + Events(m, i, path) == (events + [Visit(i, path)]) + RestOf(m, i, 0, path)
  {
  }

  /** A module already seen dooms the traversal; a new one adds its visit. */
  lemma EnterModule(m: Module, events: seq<Event>, i: nat, path: seq<string>)
    requires WellFormedGraph(m) && IsInstance(m, i) && SlotsHoldData(m, events) && Clean(m, events)
    ensures SlotsHoldData(m, events + Events(m, i, path)) && SlotsHoldData(m, events + [Visit(i, path)])
    ensures events + Events(m, i, path) == (events + [Visit(i, path)]) + RestOf(m, i, 0, path)
    ensures i in Seen(events) ==> !Clean(m, events + Events(m, i, path))
    ensures i !in Seen(events) ==> Clean(m, events + [Visit(i, path)])
  {
    EventsHoldData(m, i, path);
    CleanAppend(m, events, Visit(i, path));
    VisitFirst(m, events, i, path);
    DirtyPrefix(m, events + [Visit(i, path)], RestOf(m, i, 0, path), events + Events(m, i, path));
  }

  /** A conflict among the first events stays a conflict. */
  lemma DirtyPrefix(m: Module, a: seq<Event>, b: seq<Event>, all: seq<Event>)
    requires WellFormedGraph(m) && all == a + b && SlotsHoldData(m, all)
    ensures SlotsHoldData(m, a) && (Clean(m, all) ==> Clean(m, a))
  {
    assert forall e <- a :: e in all;
    if Clean(m, all) { CleanPrefix(m, a, b); }
  }

  /** What one more event adds to each table. */
  lemma TablesAppend(m: Module, events: seq<Event>, e: Event)
    requires WellFormedGraph(m) && SlotsHoldData(m, events) && (e.SlotFound? ==> IsData(m, e.value))
    ensures SlotsHoldData(m, events + [e])
    ensures Seen(events + [e]) == if e.Visit? then Seen(events)[e.instance := Join(e.path)] else Seen(events)
    ensures SlotLinkage(events + [e]) ==
            if e.SlotFound? then SlotLinkage(events)[(e.instance, e.name) := LinkageInfo(Join(e.path), e.isPrivate)]
            else SlotLinkage(events)
    ensures FuncLinkage(events + [e]) ==
            if e.MethodFound? then FuncLinkage(events)[(e.instance, e.func) := LinkageInfo(Join(e.path), e.isPrivate)]
            else FuncLinkage(events)
    ensures Globals(m, events + [e]) == Globals(m, events) + (if e.SlotFound? then [GlobalOf(m, e)] else [])
    ensures Copied(m, events + [e]) == Copied(m, events) + (if e.SlotFound? then IdentityClosure(m, e.value) else {})
  {
    var all := events + [e];
    assert all[..|all| - 1] == events && all[|all| - 1] == e;
  }

  /** The slice so far and what is left to follow stay within the closure and do not forget an operand. */
  ghost predicate SliceInvariant(m: Module, v: nat, needToClone: set<nat>, worklist: seq<nat>)
    requires WellFormedGraph(m) && IsData(m, v)
  {
    needToClone <= Closure(m, v) && (forall u <- worklist :: u in Closure(m, v)) &&
    (v in needToClone || v in worklist) &&
    forall u <- needToClone :: forall w <- OperandsOf(m, u) :: w in needToClone || w in worklist
  }

  lemma SliceStep(m: Module, v: nat, needToClone: set<nat>, rest: seq<nat>, op: nat)
    requires WellFormedGraph(m) && IsData(m, v) && SliceInvariant(m, v, needToClone, rest + [op])
    ensures op in Closure(m, v)
    ensures op in needToClone ==> SliceInvariant(m, v, needToClone, rest)
    ensures op !in needToClone ==> SliceInvariant(m, v, needToClone + {op}, rest + OperandsOf(m, op))
  {
    assert op in rest + [op];
    if op in needToClone {
      SliceShrinks(m, v, needToClone, rest, op);
    } else {
      SliceGrows(m, v, needToClone, rest, op);
    }
  }

  lemma SliceShrinks(m: Module, v: nat, needToClone: set<nat>, rest: seq<nat>, op: nat)
    requires WellFormedGraph(m) && IsData(m, v) && op in needToClone && SliceInvariant(m, v, needToClone, rest + [op])
    ensures SliceInvariant(m, v, needToClone, rest)
  {
  }

  lemma SliceGrows(m: Module, v: nat, needToClone: set<nat>, rest: seq<nat>, op: nat)
    requires WellFormedGraph(m) && IsData(m, v) && op !in needToClone && SliceInvariant(m, v, needToClone, rest + [op])
    ensures SliceInvariant(m, v, needToClone + {op}, rest + OperandsOf(m, op))
  {
    assert op in rest + [op];
    ClosureIsClosed(m, v, op);
  }

  function OperandsOf(m: Module, u: nat): seq<nat> {
    if u < |m.objects| && m.objects[u].ValueOp? then m.objects[u].operands else []
  }

  lemma {:induction false} ClosureIsClosed(m: Module, v: nat, u: nat)
    requires WellFormedGraph(m) && IsData(m, v) && u in Closure(m, v)
    ensures IsData(m, u) && forall w <- OperandsOf(m, u) :: w in Closure(m, v)
    decreases v
  {
    assert WellFormedObject(m, v);
    var operands := m.objects[v].operands;
    if u == v {
      forall k | 0 <= k < |operands|
        ensures operands[k] in Closure(m, v)
      {
        assert operands[k] in Closure(m, operands[k]);
      }
    } else {
      var k :| 0 <= k < |operands| && u in Closure(m, operands[k]);
      ClosureIsClosed(m, operands[k], u);
    }
  }

  lemma {:induction false} ClosureIsLeast(m: Module, v: nat, s: set<nat>)
    requires WellFormedGraph(m) && IsData(m, v) && v in s
    requires forall u <- s :: forall w <- OperandsOf(m, u) :: w in s
    ensures Closure(m, v) <= s
    decreases v
  {
    assert WellFormedObject(m, v);
    forall u <- Closure(m, v) ensures u in s {
      if u != v {
        var operands := m.objects[v].operands;
        var k :| 0 <= k < |operands| && u in Closure(m, operands[k]);
        assert operands[k] in OperandsOf(m, v);
        ClosureIsLeast(m, operands[k], s);
      }
    }
  }

  // ---- What a clean traversal gives ----

  lemma MembersAreNamedApart(m: Module, i: nat)
    requires WellFormedGraph(m) && IsInstance(m, i)
    ensures forall a, b | 0 <= a < b < |AttrsOf(m, i)| :: AttrsOf(m, i)[a].name != AttrsOf(m, i)[b].name
    ensures forall a, b | 0 <= a < b < |MethodsOf(m, i)| :: MethodsOf(m, i)[a].name != MethodsOf(m, i)[b].name
    ensures forall a, b | 0 <= a < |AttrsOf(m, i)| && 0 <= b < |MethodsOf(m, i)| ::
              AttrsOf(m, i)[a].name != MethodsOf(m, i)[b].name
    ensures forall a <- AttrsOf(m, i) :: Dotless(a.name)
    ensures forall b <- MethodsOf(m, i) :: Dotless(b.name)
  {
    assert WellFormedObject(m, i);
    var c := m.classes[m.objects[i].className];
    var names := MemberNames(c);
    assert WellFormedClass(c);
    assert forall a | 0 <= a < |c.attrs| :: names[a] == c.attrs[a].name;
    assert forall b | 0 <= b < |c.methods| :: names[|c.attrs| + b] == c.methods[b].name;
    forall a <- c.attrs ensures Dotless(a.name) {
      var k :| 0 <= k < |c.attrs| && c.attrs[k] == a;
      assert names[k] in names;
    }
    forall b <- c.methods ensures Dotless(b.name) {
      var k :| 0 <= k < |c.methods| && c.methods[k] == b;
      assert names[|c.attrs| + k] in names;
    }
  }

  /** `e` was met below member `name` of the module at `path`. */
  ghost predicate Under(path: seq<string>, name: string, e: Event) {
    path + [name] <= e.path && Dotless(name)
  }

  lemma UnderApart(path: seq<string>, a: string, b: string, e: Event, f: Event)
    requires Under(path, a, e) && Under(path, b, f) && a != b
    ensures e.path != f.path
  {
    assert e.path[|path|] == a && f.path[|path|] == b;
  }

  ghost predicate DotlessPath(path: seq<string>) {
    forall s <- path :: Dotless(s)
  }

  /** Paths extend the path of the module the traversal started from, by names without a dot. */
  lemma {:induction false} EventsExtendPath(m: Module, i: nat, path: seq<string>)
    requires WellFormedGraph(m) && IsInstance(m, i) && DotlessPath(path)
    ensures forall e <- Events(m, i, path) :: path <= e.path && DotlessPath(e.path)
    decreases i, 1, 0
  {
    assert |SlotsOf(m, i)| == |AttrsOf(m, i)| by { assert WellFormedObject(m, i); }
    SlotEventsUnder(m, i, 0, path);
    MethodEventsUnder(m, i, 0, path);
    assert Events(m, i, path) == [Visit(i, path)] + (SlotEvents(m, i, 0, path) + MethodEvents(m, i, 0, path));
    forall e <- Events(m, i, path) ensures path <= e.path && DotlessPath(e.path) {
      if e in SlotEvents(m, i, 0, path) {
        var j :| 0 <= j < |AttrsOf(m, i)| && Under(path, AttrsOf(m, i)[j].name, e);
        assert path <= path + [AttrsOf(m, i)[j].name];
      } else if e in MethodEvents(m, i, 0, path) {
        var j :| 0 <= j < |MethodsOf(m, i)| && e == MethodEvent(m, i, j, path);
        MembersAreNamedApart(m, i);
        assert MethodsOf(m, i)[j] in MethodsOf(m, i);
        assert e.path == path + [MethodsOf(m, i)[j].name];
      } else {
        assert e == Visit(i, path);
      }
    }
  }

  lemma {:induction false} SlotEventsUnder(m: Module, i: nat, k: nat, path: seq<string>)
    requires WellFormedGraph(m) && IsInstance(m, i) && k <= |SlotsOf(m, i)| == |AttrsOf(m, i)| && DotlessPath(path)
    ensures forall e <- SlotEvents(m, i, k, path) :: DotlessPath(e.path)
    ensures forall e <- SlotEvents(m, i, k, path) ::
              exists j :: k <= j < |AttrsOf(m, i)| && Under(path, AttrsOf(m, i)[j].name, e)
    decreases i, 0, |SlotsOf(m, i)| - k
  {
    if k < |SlotsOf(m, i)| {
      SlotEventUnder(m, i, k, path);
      SlotEventsUnder(m, i, k + 1, path);
    }
  }

  lemma {:induction false} SlotEventUnder(m: Module, i: nat, k: nat, path: seq<string>)
    requires WellFormedGraph(m) && IsInstance(m, i) && k < |SlotsOf(m, i)| == |AttrsOf(m, i)| && DotlessPath(path)
    ensures forall e <- SlotEvent(m, i, k, path) :: DotlessPath(e.path) && Under(path, AttrsOf(m, i)[k].name, e)
    decreases i, 0, 0
  {
    SlotFits(m, i, k);
    MembersAreNamedApart(m, i);
    assert AttrsOf(m, i)[k] in AttrsOf(m, i);
    if AttrsOf(m, i)[k].ty.NnModule? { EventsExtendPath(m, SlotsOf(m, i)[k].value, path + [AttrsOf(m, i)[k].name]); }
  }

  lemma {:induction false} MethodEventsUnder(m: Module, i: nat, k: nat, path: seq<string>)
    requires WellFormedGraph(m) && IsInstance(m, i) && k <= |MethodsOf(m, i)|
    ensures forall e <- MethodEvents(m, i, k, path) ::
              exists j :: k <= j < |MethodsOf(m, i)| && e == MethodEvent(m, i, j, path)
    decreases |MethodsOf(m, i)| - k
  {
    if k < |MethodsOf(m, i)| { MethodEventsUnder(m, i, k + 1, path); }
  }

  ghost predicate PathsDiffer(events: seq<Event>) {
    forall a, b | 0 <= a < b < |events| :: events[a].path != events[b].path
  }

  lemma PathsDifferConcat(a: seq<Event>, b: seq<Event>)
    requires PathsDiffer(a) && PathsDiffer(b) && forall e, f | e in a && f in b :: e.path != f.path
    ensures PathsDiffer(a + b)
  {
    forall x, y | 0 <= x < y < |a + b| ensures (a + b)[x].path != (a + b)[y].path {
      if x < |a| <= y { assert (a + b)[x] in a && (a + b)[y] in b; }
    }
  }

  /** No two things met on a traversal have the same path. */
  lemma {:induction false} EventsPathsDiffer(m: Module, i: nat, path: seq<string>)
    requires WellFormedGraph(m) && IsInstance(m, i) && DotlessPath(path)
    ensures PathsDiffer(Events(m, i, path))
    decreases i, 1, 0
  {
    assert |SlotsOf(m, i)| == |AttrsOf(m, i)| by { assert WellFormedObject(m, i); }
    var slots, methods := SlotEvents(m, i, 0, path), MethodEvents(m, i, 0, path);
    SlotEventsUnder(m, i, 0, path);
    MethodEventsUnder(m, i, 0, path);
    MembersAreNamedApart(m, i);
    SlotPathsDiffer(m, i, 0, path);
    MethodPathsDiffer(m, i, 0, path);
    forall e, f | e in slots && f in methods ensures e.path != f.path {
      var j :| 0 <= j < |AttrsOf(m, i)| && Under(path, AttrsOf(m, i)[j].name, e);
      var k :| 0 <= k < |MethodsOf(m, i)| && f == MethodEvent(m, i, k, path);
      assert MethodsOf(m, i)[k] in MethodsOf(m, i);
      UnderApart(path, AttrsOf(m, i)[j].name, MethodsOf(m, i)[k].name, e, f);
    }
    PathsDifferConcat(slots, methods);
    PathsDifferConcat([Visit(i, path)], slots + methods);
  }

  lemma {:induction false} SlotPathsDiffer(m: Module, i: nat, k: nat, path: seq<string>)
    requires WellFormedGraph(m) && IsInstance(m, i) && k <= |SlotsOf(m, i)| == |AttrsOf(m, i)| && DotlessPath(path)
    ensures PathsDiffer(SlotEvents(m, i, k, path))
    decreases i, 0, |SlotsOf(m, i)| - k
  {
    if k < |SlotsOf(m, i)| {
      var name := AttrsOf(m, i)[k].name;
      SlotFits(m, i, k);
      SlotEventUnder(m, i, k, path);
      MembersAreNamedApart(m, i);
      assert Dotless(name) by { assert AttrsOf(m, i)[k] in AttrsOf(m, i); }
      if AttrsOf(m, i)[k].ty.NnModule? { EventsPathsDiffer(m, SlotsOf(m, i)[k].value, path + [name]); }
      SlotPathsDiffer(m, i, k + 1, path);
      SlotEventsUnder(m, i, k + 1, path);
      forall e, f | e in SlotEvent(m, i, k, path) && f in SlotEvents(m, i, k + 1, path) ensures e.path != f.path {
        var j :| k + 1 <= j < |AttrsOf(m, i)| && Under(path, AttrsOf(m, i)[j].name, f);
        UnderApart(path, name, AttrsOf(m, i)[j].name, e, f);
      }
      PathsDifferConcat(SlotEvent(m, i, k, path), SlotEvents(m, i, k + 1, path));
    }
  }

  lemma {:induction false} MethodPathsDiffer(m: Module, i: nat, k: nat, path: seq<string>)
    requires WellFormedGraph(m) && IsInstance(m, i) && k <= |MethodsOf(m, i)|
    ensures PathsDiffer(MethodEvents(m, i, k, path))
    decreases |MethodsOf(m, i)| - k
  {
    if k < |MethodsOf(m, i)| {
      MembersAreNamedApart(m, i);
      MethodPathsDiffer(m, i, k + 1, path);
      MethodEventsUnder(m, i, k + 1, path);
      forall e, f | e in [MethodEvent(m, i, k, path)] && f in MethodEvents(m, i, k + 1, path) ensures e.path != f.path {
        var j :| k + 1 <= j < |MethodsOf(m, i)| && f == MethodEvent(m, i, j, path);
        assert e.path[|path|] == MethodsOf(m, i)[k].name && f.path[|path|] == MethodsOf(m, i)[j].name;
      }
      PathsDifferConcat([MethodEvent(m, i, k, path)], MethodEvents(m, i, k + 1, path));
    }
  }

  /** The dot-joined names of all slots and methods met from the root are distinct. */
  lemma LinkageNamesAreDistinct(m: Module, root: nat, a: nat, b: nat)
    requires WellFormedGraph(m) && IsInstance(m, root) && a < b < |Events(m, root, [])|
    requires !Events(m, root, [])[a].Visit? && !Events(m, root, [])[b].Visit?
    ensures Join(Events(m, root, [])[a].path) != Join(Events(m, root, [])[b].path)
  {
    var events := Events(m, root, []);
    EventsPathsDiffer(m, root, []);
    EventsExtendPath(m, root, []);
    assert events[a] in events && events[b] in events;
    OwnerIsVisited(m, root, [], events[a]);
    OwnerIsVisited(m, root, [], events[b]);
    if Join(events[a].path) == Join(events[b].path) { JoinInjective(events[a].path, events[b].path); }
  }

  /** A slot or method is met while its module is visited. */
  lemma {:induction false} OwnerIsVisited(m: Module, i: nat, path: seq<string>, e: Event)
    requires WellFormedGraph(m) && IsInstance(m, i) && e in Events(m, i, path) && !e.Visit?
    ensures e.path != [] && Visit(e.instance, e.path[..|e.path| - 1]) in Events(m, i, path)
    ensures e.SlotFound? ==> e.path[|e.path| - 1] == e.name
    decreases i, 1, 0
  {
    if e in MethodEvents(m, i, 0, path) {
      MethodEventsUnder(m, i, 0, path);
      assert e.path[..|e.path| - 1] == path;
    } else {
      assert e in SlotEvents(m, i, 0, path);
      SlotOwnerIsVisited(m, i, 0, path, e);
    }
  }

  lemma {:induction false} SlotOwnerIsVisited(m: Module, i: nat, k: nat, path: seq<string>, e: Event)
    requires WellFormedGraph(m) && IsInstance(m, i) && k <= |SlotsOf(m, i)| && e in SlotEvents(m, i, k, path) &&
             !e.Visit?
    ensures e.path != [] && (e.SlotFound? ==> e.path[|e.path| - 1] == e.name)
    ensures var v := Visit(e.instance, e.path[..|e.path| - 1]); v in SlotEvents(m, i, k, path) || v == Visit(i, path)
    decreases i, 0, |SlotsOf(m, i)| - k
  {
    SlotFits(m, i, k);
    if e in SlotEvent(m, i, k, path) {
      if AttrsOf(m, i)[k].ty.NnModule? {
        OwnerIsVisited(m, SlotsOf(m, i)[k].value, path + [AttrsOf(m, i)[k].name], e);
      } else {
        assert e.path[..|e.path| - 1] == path;
      }
    } else {
      SlotOwnerIsVisited(m, i, k + 1, path, e);
    }
  }

  /** Visiting a module meets everything below it. */
  lemma {:induction false} VisitMeetsAll(m: Module, i: nat, path: seq<string>, j: nat, p: seq<string>)
    requires WellFormedGraph(m) && IsInstance(m, i) && Visit(j, p) in Events(m, i, path)
    ensures IsInstance(m, j) && forall e <- Events(m, j, p) :: e in Events(m, i, path)
    decreases i, 1, 0
  {
    if Visit(j, p) != Visit(i, path) {
      MethodEventsAreMethods(m, i, 0, path);
      assert Visit(j, p) in SlotEvents(m, i, 0, path);
      SlotVisitMeetsAll(m, i, 0, path, j, p);
    }
  }

  lemma {:induction false} SlotVisitMeetsAll(m: Module, i: nat, k: nat, path: seq<string>, j: nat, p: seq<string>)
    requires WellFormedGraph(m) && IsInstance(m, i) && k <= |SlotsOf(m, i)| && Visit(j, p) in SlotEvents(m, i, k, path)
    ensures IsInstance(m, j) && forall e <- Events(m, j, p) :: e in SlotEvents(m, i, k, path)
    decreases i, 0, |SlotsOf(m, i)| - k
  {
    SlotFits(m, i, k);
    if Visit(j, p) in SlotEvent(m, i, k, path) {
      VisitMeetsAll(m, SlotsOf(m, i)[k].value, path + [AttrsOf(m, i)[k].name], j, p);
    } else {
      SlotVisitMeetsAll(m, i, k + 1, path, j, p);
    }
  }

  lemma {:induction false} SlotEventIsMet(m: Module, i: nat, k: nat, n: nat, path: seq<string>)
    requires WellFormedGraph(m) && IsInstance(m, i) && k <= n < |SlotsOf(m, i)|
    ensures forall e <- SlotEvent(m, i, n, path) :: e in SlotEvents(m, i, k, path)
    decreases n - k
  {
    if k < n { SlotEventIsMet(m, i, k + 1, n, path); }
  }

  /** From the only module that no slot holds, every module is met. */
  lemma {:induction false} EveryModuleIsMet(m: Module, root: nat, i: nat) returns (path: seq<string>)
    requires WellFormedGraph(m) && IsRoot(m, root) && IsInstance(m, i)
    ensures Visit(i, path) in Events(m, root, [])
    decreases |m.objects| - i
  {
    if i == root {
      path := [];
    } else {
      assert IsHeld(m, i);
      var j: nat, k: nat :| Holds(m, j, k, i);
      SlotFits(m, j, k);
      var up := EveryModuleIsMet(m, root, j);
      path := up + [AttrsOf(m, j)[k].name];
      VisitMeetsAll(m, root, [], j, up);
      SlotEventIsMet(m, j, 0, k, up);
      assert Visit(i, path) in SlotEvent(m, j, k, up);
      assert Visit(i, path) in Events(m, j, up);
    }
  }

  lemma VisitsDiffer(m: Module, events: seq<Event>, x: nat, y: nat)
    requires WellFormedGraph(m) && SlotsHoldData(m, events) && Clean(m, events)
    requires x < |events| && y < |events| && events[x].Visit? && events[y].Visit?
    ensures x != y ==> events[x].instance != events[y].instance
  {
    if x < y {
      assert !Conflict(m, events[x], events[y]);
    } else if y < x {
      assert !Conflict(m, events[y], events[x]);
    }
  }

  lemma InitializersDiffer(m: Module, events: seq<Event>, x: nat, y: nat)
    requires WellFormedGraph(m) && SlotsHoldData(m, events) && Clean(m, events)
    requires x < y < |events| && events[x].SlotFound? && events[y].SlotFound?
    ensures IsData(m, events[x].value) && IsData(m, events[y].value)
    ensures IdentityClosure(m, events[x].value) !! IdentityClosure(m, events[y].value)
  {
    assert events[x] in events && events[y] in events;
    assert !Conflict(m, events[x], events[y]);
  }

  /** A successful traversal from the root visits every module exactly once. */
  lemma EveryModuleIsVisitedOnce(m: Module, root: nat, i: nat) returns (k: nat)
    requires WellFormedGraph(m) && IsRoot(m, root) && IsInstance(m, i)
    requires SlotsHoldData(m, Events(m, root, [])) && Clean(m, Events(m, root, []))
    ensures k < |Events(m, root, [])| && Events(m, root, [])[k].Visit? && Events(m, root, [])[k].instance == i
    ensures forall j | 0 <= j < |Events(m, root, [])| && j != k ::
              Events(m, root, [])[j].Visit? ==> Events(m, root, [])[j].instance != i
  {
    var path := EveryModuleIsMet(m, root, i);
    var events := Events(m, root, []);
    k :| k < |events| && events[k] == Visit(i, path);
    forall j | 0 <= j < |events| && j != k && events[j].Visit? ensures events[j].instance != i {
      VisitsDiffer(m, events, j, k);
    }
  }

  // ---- Linkage ----

  /** `e` names a data slot of its instance. */
  ghost predicate IsSlotEvent(m: Module, e: Event)
    requires WellFormedGraph(m) && e.SlotFound?
  {
    IsInstance(m, e.instance) && exists k :: IsSlotAt(m, e, k)
  }

  ghost predicate IsSlotAt(m: Module, e: Event, k: nat)
    requires WellFormedGraph(m) && e.SlotFound? && IsInstance(m, e.instance)
  {
    k < |SlotsOf(m, e.instance)| == |AttrsOf(m, e.instance)| &&
    var attr := AttrsOf(m, e.instance)[k];
    attr.ty.Data? && attr.name == e.name && attr.isPrivate == e.isPrivate && SlotsOf(m, e.instance)[k].value == e.value
  }

  lemma {:induction false} EventsAreSlots(m: Module, i: nat, path: seq<string>, e: Event)
    requires WellFormedGraph(m) && IsInstance(m, i) && e in Events(m, i, path) && e.SlotFound?
    ensures IsSlotEvent(m, e)
    decreases i, 1, 0
  {
    MethodEventsAreMethods(m, i, 0, path);
    SlotEventsAreSlots(m, i, 0, path, e);
  }

  lemma {:induction false} SlotEventsAreSlots(m: Module, i: nat, k: nat, path: seq<string>, e: Event)
    requires WellFormedGraph(m) && IsInstance(m, i) && k <= |SlotsOf(m, i)| && e in SlotEvents(m, i, k, path) &&
             e.SlotFound?
    ensures IsSlotEvent(m, e)
    decreases i, 0, |SlotsOf(m, i)| - k
  {
    SlotFits(m, i, k);
    if e in SlotEvent(m, i, k, path) {
      if AttrsOf(m, i)[k].ty.NnModule? {
        EventsAreSlots(m, SlotsOf(m, i)[k].value, path + [AttrsOf(m, i)[k].name], e);
      } else {
        assert IsSlotAt(m, e, k);
      }
    } else {
      SlotEventsAreSlots(m, i, k + 1, path, e);
    }
  }

  /** No slot is met twice. */
  ghost predicate SlotKeysDiffer(events: seq<Event>) {
    forall a, b | 0 <= a < b < |events| && events[a].SlotFound? && events[b].SlotFound? ::
      events[a].instance != events[b].instance || events[a].name != events[b].name
  }

  lemma CleanSlotKeysDiffer(m: Module, root: nat)
    requires WellFormedGraph(m) && IsInstance(m, root)
    requires SlotsHoldData(m, Events(m, root, [])) && Clean(m, Events(m, root, []))
    ensures SlotKeysDiffer(Events(m, root, []))
  {
    var events := Events(m, root, []);
    EventsPathsDiffer(m, root, []);
    forall a, b | 0 <= a < b < |events| && events[a].SlotFound? && events[b].SlotFound? &&
           events[a].instance == events[b].instance
      ensures events[a].name != events[b].name
    {
      assert events[a] in events && events[b] in events;
      SameOwnerSamePath(m, root, events[a], events[b]);
    }
  }

  /** Slots of one instance are met under one path, each ending with its name. */
  lemma SameOwnerSamePath(m: Module, root: nat, e: Event, f: Event)
    requires WellFormedGraph(m) && IsInstance(m, root)
    requires SlotsHoldData(m, Events(m, root, [])) && Clean(m, Events(m, root, []))
    requires e in Events(m, root, []) && f in Events(m, root, []) && e.SlotFound? && f.SlotFound? &&
             e.instance == f.instance
    ensures e.path != [] && f.path != [] && e.path[..|e.path| - 1] == f.path[..|f.path| - 1]
    ensures e.path == e.path[..|e.path| - 1] + [e.name] && f.path == f.path[..|f.path| - 1] + [f.name]
  {
    var events := Events(m, root, []);
    OwnerIsVisited(m, root, [], e);
    OwnerIsVisited(m, root, [], f);
    var v, w := Visit(e.instance, e.path[..|e.path| - 1]), Visit(f.instance, f.path[..|f.path| - 1]);
    var x :| 0 <= x < |events| && events[x] == v;
    var y :| 0 <= y < |events| && events[y] == w;
    VisitsDiffer(m, events, x, y);
  }

  lemma {:induction false} SlotLinkageAt(events: seq<Event>, k: nat)
    requires SlotKeysDiffer(events) && k < |events| && events[k].SlotFound?
    ensures (events[k].instance, events[k].name) in SlotLinkage(events)
    ensures SlotLinkage(events)[(events[k].instance, events[k].name)] ==
            LinkageInfo(Join(events[k].path), events[k].isPrivate)
  {
    var front, last := events[..|events| - 1], |events| - 1;
    if k < last {
      assert front[k] == events[k];
      SlotLinkageAt(front, k);
    }
  }

  lemma {:induction false} SlotLinkageFromEvents(events: seq<Event>, key: (nat, string)) returns (k: nat)
    requires key in SlotLinkage(events)
    ensures k < |events| && events[k].SlotFound? && (events[k].instance, events[k].name) == key
  {
    var last := |events| - 1;
    if events[last].SlotFound? && (events[last].instance, events[last].name) == key {
      k := last;
    } else {
      k := SlotLinkageFromEvents(events[..last], key);
    }
  }

  /** What globalization relies on: a traversal of the whole program that succeeded. */
  ghost predicate Traversed(m: Module, root: nat) {
    WellFormedGraph(m) && IsRoot(m, root) && SlotsHoldData(m, Events(m, root, [])) && Clean(m, Events(m, root, []))
  }

  /** Every data slot of every module has a linkage name. */
  lemma SlotLinkageIsTotal(m: Module, root: nat, i: nat, k: nat)
    requires Traversed(m, root) && IsInstance(m, i) && k < |AttrsOf(m, i)| && AttrsOf(m, i)[k].ty.Data?
    ensures (i, AttrsOf(m, i)[k].name) in SlotLinkage(Events(m, root, []))
  {
    var events := Events(m, root, []);
    var path := EveryModuleIsMet(m, root, i);
    VisitMeetsAll(m, root, [], i, path);
    assert |SlotsOf(m, i)| == |AttrsOf(m, i)| by { assert WellFormedObject(m, i); }
    SlotEventIsMet(m, i, 0, k, path);
    var e := SlotEvent(m, i, k, path)[0];
    assert e in SlotEvent(m, i, k, path) && e in Events(m, i, path);
    var x :| 0 <= x < |events| && events[x] == e;
    CleanSlotKeysDiffer(m, root);
    SlotLinkageAt(events, x);
  }

  /** Two slots share a linkage name only when they are the same slot. */
  lemma SlotLinkageIsInjective(m: Module, root: nat, a: (nat, string), b: (nat, string))
    requires Traversed(m, root)
    requires a in SlotLinkage(Events(m, root, [])) && b in SlotLinkage(Events(m, root, []))
    ensures SlotLinkage(Events(m, root, []))[a].linkageName == SlotLinkage(Events(m, root, []))[b].linkageName ==>
            a == b
  {
    var events := Events(m, root, []);
    CleanSlotKeysDiffer(m, root);
    var x := SlotLinkageFromEvents(events, a);
    var y := SlotLinkageFromEvents(events, b);
    SlotLinkageAt(events, x);
    SlotLinkageAt(events, y);
    if x < y { LinkageNamesAreDistinct(m, root, x, y); }
    if y < x { LinkageNamesAreDistinct(m, root, y, x); }
  }

  lemma {:induction false} GlobalAt(m: Module, events: seq<Event>, k: nat)
    requires WellFormedGraph(m) && SlotsHoldData(m, events) && k < |events| && events[k].SlotFound? &&
             IsData(m, events[k].value)
    ensures GlobalOf(m, events[k]) in Globals(m, events)
  {
    var front, last := events[..|events| - 1], |events| - 1;
    assert events[last] in events;
    if k < last {
      assert front[k] == events[k];
      GlobalAt(m, front, k);
      assert Globals(m, front) <= Globals(m, events);
    } else {
      var all := Globals(m, events);
      assert all[|all| - 1] == GlobalOf(m, events[k]);
    }
  }

  lemma {:induction false} GlobalFromEvents(m: Module, events: seq<Event>, n: nat) returns (k: nat)
    requires WellFormedGraph(m) && SlotsHoldData(m, events) && n < |Globals(m, events)|
    ensures k < |events| && events[k].SlotFound? && IsData(m, events[k].value)
    ensures Globals(m, events)[n] == GlobalOf(m, events[k])
  {
    var front, last := events[..|events| - 1], |events| - 1;
    assert events[last] in events;
    if n < |Globals(m, front)| {
      k := GlobalFromEvents(m, front, n);
      assert front[k] == events[k];
    } else {
      k := last;
    }
  }

  /** The global slot bearing a slot's linkage name is the only one, and is initialised from that slot's value. */
  lemma SlotHasItsGlobal(m: Module, root: nat, i: nat, k: nat, n: nat)
    requires Traversed(m, root) && IsInstance(m, i) && k < |AttrsOf(m, i)| == |SlotsOf(m, i)| &&
             AttrsOf(m, i)[k].ty.Data?
    requires n < |Globals(m, Events(m, root, []))|
    requires (i, AttrsOf(m, i)[k].name) in SlotLinkage(Events(m, root, []))
    requires Globals(m, Events(m, root, []))[n].name ==
             SlotLinkage(Events(m, root, []))[(i, AttrsOf(m, i)[k].name)].linkageName
    ensures Globals(m, Events(m, root, []))[n].value == SlotsOf(m, i)[k].value
    ensures Globals(m, Events(m, root, []))[n].isPrivate == AttrsOf(m, i)[k].isPrivate
  {
    var events := Events(m, root, []);
    CleanSlotKeysDiffer(m, root);
    var x := SlotLinkageFromEvents(events, (i, AttrsOf(m, i)[k].name));
    SlotLinkageAt(events, x);
    var y := GlobalFromEvents(m, events, n);
    SameNameSameEvent(m, root, x, y);
    assert events[x] in events;
    EventsAreSlots(m, root, [], events[x]);
    SlotOfEvent(m, events[x], k);
  }

  lemma SameNameSameEvent(m: Module, root: nat, x: nat, y: nat)
    requires WellFormedGraph(m) && IsInstance(m, root) && x < |Events(m, root, [])| && y < |Events(m, root, [])|
    requires !Events(m, root, [])[x].Visit? && !Events(m, root, [])[y].Visit?
    requires Join(Events(m, root, [])[x].path) == Join(Events(m, root, [])[y].path)
    ensures x == y
  {
    if x < y {
      LinkageNamesAreDistinct(m, root, x, y);
    } else if y < x {
      LinkageNamesAreDistinct(m, root, y, x);
    }
  }

  lemma SlotOfEvent(m: Module, e: Event, k: nat)
    requires WellFormedGraph(m) && e.SlotFound? && IsSlotEvent(m, e)
    requires k < |AttrsOf(m, e.instance)| == |SlotsOf(m, e.instance)| && AttrsOf(m, e.instance)[k].name == e.name
    ensures SlotsOf(m, e.instance)[k].value == e.value && AttrsOf(m, e.instance)[k].isPrivate == e.isPrivate
  {
    var j :| IsSlotAt(m, e, j);
    MembersAreNamedApart(m, e.instance);
  }

  // ---- Initializers ----

  /** The value a top-level op produces, given the meaning of the ops. */
  function ValueAt(m: Module, eval: (string, seq<int>) -> int, v: nat): int
    requires WellFormedGraph(m) && IsData(m, v)
    decreases v
  {
    assert WellFormedObject(m, v);
    var operands := m.objects[v].operands;
    assert forall x <- operands :: x < v && IsData(m, x);
    assert forall k | 0 <= k < |operands| :: operands[k] in operands;
    eval(m.objects[v].opcode, seq(|operands|, k requires 0 <= k < |operands| => ValueAt(m, eval, operands[k])))
  }

  /** Runs cloned ops in order; an operand not computed before is an error. */
  function RunInitializer(m: Module, eval: (string, seq<int>) -> int, ops: seq<nat>,
                          env: map<nat, int>): Option<map<nat, int>>
  {
    if ops == [] then Some(env)
    else if !IsData(m, ops[0]) || exists u <- m.objects[ops[0]].operands :: u !in env then None
    else
      var operands := m.objects[ops[0]].operands;
      var vals := seq(|operands|, k requires 0 <= k < |operands| => env[operands[k]]);
      RunInitializer(m, eval, ops[1..], env[ops[0] := eval(m.objects[ops[0]].opcode, vals)])
  }

  /** Positions in block order that contain their operands. */
  ghost predicate OperandClosed(m: Module, ops: seq<nat>) {
    (forall a, b | 0 <= a < b < |ops| :: ops[a] < ops[b]) &&
    forall u <- ops :: IsData(m, u) && forall w <- m.objects[u].operands :: w in ops && w < u
  }

  /** In block order every operand comes first, so the initializer runs and computes the slot's value. */
  lemma InitializerComputesValue(m: Module, eval: (string, seq<int>) -> int, v: nat)
    requires WellFormedGraph(m) && IsData(m, v)
    ensures var r := RunInitializer(m, eval, Sorted(Closure(m, v), |m.objects|), map[]);
            r.Some? && v in r.value && r.value[v] == ValueAt(m, eval, v)
  {
    var ops := Sorted(Closure(m, v), |m.objects|);
    forall u | u in ops ensures IsData(m, u) && forall w <- m.objects[u].operands :: w in ops && w < u {
      ClosureIsClosed(m, v, u);
      assert WellFormedObject(m, u);
    }
    assert ops[0..] == ops;
    InitializerRuns(m, eval, ops, 0, map[]);
    assert v in ops;
  }

  lemma OperandsComeFirst(m: Module, ops: seq<nat>, k: nat)
    requires OperandClosed(m, ops) && k < |ops|
    ensures IsData(m, ops[k]) && forall w <- m.objects[ops[k]].operands :: w in ops[..k] && w < ops[k] && IsData(m, w)
  {
    assert ops[k] in ops;
    forall w <- m.objects[ops[k]].operands ensures w in ops[..k] && w < ops[k] && IsData(m, w) {
      var x :| 0 <= x < |ops| && ops[x] == w;
      assert x < k;
    }
  }

  lemma InitializerStep(m: Module, eval: (string, seq<int>) -> int, op: nat, rest: seq<nat>, env: map<nat, int>)
    requires WellFormedGraph(m) && IsData(m, op)
    requires forall w <- m.objects[op].operands :: w in env && w < op && IsData(m, w) && env[w] == ValueAt(m, eval, w)
    ensures RunInitializer(m, eval, [op] + rest, env) == RunInitializer(m, eval, rest, env[op := ValueAt(m, eval, op)])
  {
    assert ([op] + rest)[1..] == rest;
    assert WellFormedObject(m, op);
    var operands := m.objects[op].operands;
    assert seq(|operands|, k requires 0 <= k < |operands| => env[operands[k]]) ==
           seq(|operands|, k requires 0 <= k < |operands| => ValueAt(m, eval, operands[k]));
  }

  lemma {:induction false} InitializerRuns(m: Module, eval: (string, seq<int>) -> int, ops: seq<nat>, k: nat,
                                           env: map<nat, int>)
    requires WellFormedGraph(m) && k <= |ops| && OperandClosed(m, ops) && Computed(m, eval, ops[..k], env)
    ensures var r := RunInitializer(m, eval, ops[k..], env); r.Some? && Computed(m, eval, ops, r.value)
    decreases |ops| - k
  {
    if k == |ops| {
      assert ops[..k] == ops;
    } else {
      OperandsComeFirst(m, ops, k);
      InitializerStep(m, eval, ops[k], ops[k + 1..], env);
      assert ops[k..] == [ops[k]] + ops[k + 1..] && ops[..k + 1] == ops[..k] + [ops[k]];
      InitializerRuns(m, eval, ops, k + 1, env[ops[k] := ValueAt(m, eval, ops[k])]);
    }
  }

  /** `env` holds the values of `ops`. */
  ghost predicate Computed(m: Module, eval: (string, seq<int>) -> int, ops: seq<nat>, env: map<nat, int>)
    requires WellFormedGraph(m)
  {
    forall u <- ops :: u in env && IsData(m, u) && env[u] == ValueAt(m, eval, u)
  }

  /** After a clean traversal no two initializers copy the same identity-bearing value. */
  lemma InitializersDoNotAlias(m: Module, events: seq<Event>, a: nat, b: nat, op: nat)
    requires WellFormedGraph(m) && SlotsHoldData(m, events) && Clean(m, events)
    requires a < b < |Globals(m, events)| && IsData(m, op) && m.objects[op].hasIdentity
    ensures op !in Globals(m, events)[a].initializer || op !in Globals(m, events)[b].initializer
  {
    var x, y := GlobalsFromEvents(m, events, a, b);
    InitializersDiffer(m, events, x, y);
    IdentityIsCopied(m, events[x].value, op);
    IdentityIsCopied(m, events[y].value, op);
  }

  lemma IdentityIsCopied(m: Module, v: nat, op: nat)
    requires WellFormedGraph(m) && IsData(m, v) && IsData(m, op) && m.objects[op].hasIdentity
    ensures op in Sorted(Closure(m, v), |m.objects|) <==> op in IdentityClosure(m, v)
  {
  }

  lemma {:induction false} GlobalsFromEvents(m: Module, events: seq<Event>, a: nat, b: nat) returns (x: nat, y: nat)
    requires WellFormedGraph(m) && SlotsHoldData(m, events) && a < b < |Globals(m, events)|
    ensures x < y < |events| && events[x].SlotFound? && events[y].SlotFound?
    ensures IsData(m, events[x].value) &&
            Globals(m, events)[a].initializer == Sorted(Closure(m, events[x].value), |m.objects|)
    ensures IsData(m, events[y].value) &&
            Globals(m, events)[b].initializer == Sorted(Closure(m, events[y].value), |m.objects|)
  {
    var front, last := events[..|events| - 1], |events| - 1;
    assert events[last] in events;
    if b < |Globals(m, front)| {
      x, y := GlobalsFromEvents(m, front, a, b);
      assert front[x] == events[x] && front[y] == events[y];
    } else {
      y := last;
      x := GlobalFromEvents(m, front, a);
      assert front[x] == events[x];
    }
  }
}
