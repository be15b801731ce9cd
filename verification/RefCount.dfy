/**
 Intrusive reference counting of runtime tensors: `Ref<Tensor>` and `RtValue` handles. Models
 include/npcomp/RefBackend/Runtime/UserAPI.h.
 */
module RefCount {
  import opened Option

  // Tensors are numbered in allocation order; an address that is reused is a new number.
  type Ptr = nat

  datatype Primitive = Bool(b: bool) | Int(i: int) | Float(f: real) | Double(d: real)

  // A handle object of either class, with what it holds.
  datatype Slot =
    | Ref(ptr: Option<Ptr>)
    | NoneValue
    | ScalarValue(scalar: Primitive)
    | TensorValue(payload: Option<Ptr>)

  // The unnamed temporary of an expression, or a variable.
  datatype Handle = Temporary | Named(id: nat)

  type Handles = map<Handle, Slot>

  function Held(s: Slot): Option<Ptr> {
    match s
    case Ref(p) => p
    case TensorValue(p) => p
    case _ => None
  }

  predicate IsValue(s: Slot) {
    !s.Ref?
  }

  // ---- Counting handles ----

  ghost function Holders(hs: Handles, p: Ptr): set<Handle> {
    set h | h in hs && Held(hs[h]) == Some(p)
  }

  ghost function Count(hs: Handles, p: Ptr): nat {
    |Holders(hs, p)|
  }

  function One(s: Option<Ptr>, p: Ptr): nat {
    if s == Some(p) then 1 else 0
  }

  /** Setting a handle moves one count from what it held to what it holds. */
  lemma CountSet(hs: Handles, h: Handle, s: Slot, p: Ptr)
    ensures Count(hs[h := s], p) + (if h in hs then One(Held(hs[h]), p) else 0) == Count(hs, p) + One(Held(s), p)
  {
    var before, after := Holders(hs, p), Holders(hs[h := s], p);
    assert before - {h} == after - {h};
    assert |before - {h}| == |before| - if h in before then 1 else 0;
    assert |after - {h}| == |after| - if h in after then 1 else 0;
  }

  lemma CountRemove(hs: Handles, h: Handle, p: Ptr)
    requires h in hs
    ensures Count(hs - {h}, p) + One(Held(hs[h]), p) == Count(hs, p)
  {
    var before, after := Holders(hs, p), Holders(hs - {h}, p);
    assert before - {h} == after;
    assert |before - {h}| == |before| - if h in before then 1 else 0;
  }

  lemma CountPositive(hs: Handles, h: Handle, p: Ptr)
    requires h in hs && Held(hs[h]) == Some(p)
    ensures Count(hs, p) > 0
  {
    assert h in Holders(hs, p);
  }

  // ---- The books ----

  // Counts of live tensors, the tensors freed so far in order, and the number ever allocated.
  datatype Books = Books(refCount: map<Ptr, nat>, freed: seq<Ptr>, created: nat)

  ghost predicate FreedOnce(b: Books) {
    (forall p <- b.freed :: p < b.created) && (forall i, j | 0 <= i < j < |b.freed| :: b.freed[i] != b.freed[j]) &&
    (forall p <- b.refCount :: p < b.created) &&
    (forall p | 0 <= p < b.created :: p in b.refCount <==> p !in b.freed)
  }

  /** Every count is the number of handles in `hs`, plus references held in flight. */
  ghost predicate Counted(b: Books, hs: Handles, extra: multiset<Ptr>) {
    (forall p <- b.refCount :: b.refCount[p] == Count(hs, p) + extra[p]) &&
    (forall p :: p in extra ==> p in b.refCount) &&
    (forall h <- hs :: Held(hs[h]).Some? ==> Held(hs[h]).value in b.refCount)
  }

  /** Only a tensor no handle ever held may be live with count zero. */
  ghost predicate Balanced(b: Books, raw: set<Ptr>, hs: Handles, extra: multiset<Ptr>) {
    FreedOnce(b) && Counted(b, hs, extra) && forall p <- b.refCount :: b.refCount[p] == 0 <==> p in raw
  }

  function InFlight(s: Option<Ptr>): multiset<Ptr> {
    match s
    case None => multiset{}
    case Some(p) => multiset{p}
  }

  /** A handle gives up its reference, which is then in flight. */
  lemma GiveUp(b: Books, raw: set<Ptr>, hs: Handles, h: Handle, empty: Slot)
    requires Balanced(b, raw, hs, multiset{}) && h in hs && Held(empty).None?
    ensures Balanced(b, raw, hs[h := empty], InFlight(Held(hs[h])))
  {
    forall p { CountSet(hs, h, empty, p); }
  }

  /** A handle disappears, and its reference is then in flight. */
  lemma Drop(b: Books, raw: set<Ptr>, hs: Handles, h: Handle)
    requires Balanced(b, raw, hs, multiset{}) && h in hs
    ensures Balanced(b, raw, hs - {h}, InFlight(Held(hs[h])))
  {
    forall p { CountRemove(hs, h, p); }
  }

  /** A handle that held nothing takes the reference in flight. */
  lemma TakeUp(b: Books, raw: set<Ptr>, hs: Handles, h: Handle, s: Slot)
    requires Balanced(b, raw, hs, InFlight(Held(s))) && (h in hs ==> Held(hs[h]).None?)
    ensures Balanced(b, raw, hs[h := s], multiset{})
  {
    forall p { CountSet(hs, h, s, p); }
  }

  /** An empty handle takes over what another `Ref` holds. */
  lemma MoveBalances(b: Books, raw: set<Ptr>, hs: Handles, h: Handle, other: Handle)
    requires Balanced(b, raw, hs, multiset{}) && h in hs && Held(hs[h]).None? && h != other && other in hs &&
             hs[other].Ref?
    ensures Balanced(b, raw, hs[other := Ref(None)][h := hs[other]], multiset{})
  {
    GiveUp(b, raw, hs, other, Ref(None));
    TakeUp(b, raw, hs[other := Ref(None)], h, hs[other]);
  }

  /** Two handles exchange what they hold. */
  lemma Exchange(b: Books, raw: set<Ptr>, hs: Handles, g: Handle, h: Handle)
    requires Balanced(b, raw, hs, multiset{}) && g in hs && h in hs
    ensures Balanced(b, raw, hs[g := hs[h]][h := hs[g]], multiset{})
  {
    forall p ensures Count(hs[g := hs[h]][h := hs[g]], p) == Count(hs, p) {
      CountSet(hs, g, hs[h], p);
      CountSet(hs[g := hs[h]], h, hs[g], p);
    }
  }

  lemma HolderIsLive(b: Books, raw: set<Ptr>, hs: Handles, p: Ptr)
    requires Balanced(b, raw, hs, multiset{}) && Count(hs, p) > 0
    ensures p in b.refCount && b.refCount[p] > 0
  {
    assert Holders(hs, p) != {};
    var h :| h in Holders(hs, p);
  }

  /** A tensor is live as long as a handle holds it, with that many references counted; then it is freed. */
  lemma LiveWhileHeld(b: Books, raw: set<Ptr>, hs: Handles, p: Ptr)
    requires Balanced(b, raw, hs, multiset{}) && raw <= b.refCount.Keys && p < b.created
    ensures p in b.freed <==> p !in raw && Count(hs, p) == 0
    ensures p in b.refCount ==> b.refCount[p] == Count(hs, p)
  {
    if Count(hs, p) > 0 { HolderIsLive(b, raw, hs, p); }
  }

  /**
   Between balanced states a tensor is freed exactly when it was live, held or not yet taken up, or
   is new, and afterwards it has been taken up and no handle is left. So a tensor that still has a
   handle is not freed, and one whose last handle went is.
   */
  lemma FreedWithLastHandle(b: Books, raw: set<Ptr>, hs: Handles, b': Books, raw': set<Ptr>, hs': Handles, p: Ptr)
    requires Balanced(b, raw, hs, multiset{}) && Balanced(b', raw', hs', multiset{})
    requires b.created <= b'.created && b.freed <= b'.freed && p < b'.created
    requires raw <= b.refCount.Keys && raw' <= b'.refCount.Keys
    ensures p in b'.freed && p !in b.freed <==>
            (p >= b.created || p in raw || Count(hs, p) > 0) && p !in raw' && Count(hs', p) == 0
  {
    LiveWhileHeld(b', raw', hs', p);
    if p < b.created { LiveWhileHeld(b, raw, hs, p); }
    if p in b.freed {
      var i :| 0 <= i < |b.freed| && b.freed[i] == p;
      assert b'.freed[i] == p;
    }
  }

  // ---- Programs over handles ----

  datatype Command =
    | Create
    | Default(h: nat)
    | FromRaw(h: nat, ptr: Ptr)
    | Copy(h: nat, g: nat)
    | Move(h: nat, g: nat)
    | CopyAssign(h: nat, g: nat)
    | MoveAssign(h: nat, g: nat)
    | Scalar(v: nat, s: Slot)
    | Wrap(v: nat, h: nat)
    | Unwrap(h: nat, v: nat)
    | Destruct(h: nat)

  /** Variables are declared before use and once, and have the class the command needs. */
  predicate Legal(hs: Handles, c: Command) {
    match c
    case Create => true
    case Default(h) => Named(h) !in hs
    case FromRaw(h, _) => Named(h) !in hs
    case Copy(h, g) => Named(h) !in hs && Named(g) in hs
    case Move(h, g) => Named(h) !in hs && Named(g) in hs
    case CopyAssign(h, g) => Named(h) in hs && Named(g) in hs && hs[Named(h)].Ref? == hs[Named(g)].Ref?
    case MoveAssign(h, g) => Named(h) in hs && Named(g) in hs && hs[Named(h)].Ref? == hs[Named(g)].Ref?
    case Scalar(v, s) => Named(v) !in hs && (s.NoneValue? || s.ScalarValue?)
    case Wrap(v, h) => Named(v) !in hs && Named(h) in hs && hs[Named(h)].Ref?
    case Unwrap(h, v) => Named(h) !in hs && Named(v) in hs && hs[Named(v)].TensorValue? && hs[Named(v)].payload.Some?
    case Destruct(h) => Named(h) in hs
  }

  function Emptied(s: Slot): Slot {
    if s.Ref? then Ref(None) else NoneValue
  }

  /** What each command means for the variables, counts aside. */
  function Effect(hs: Handles, c: Command): Handles {
    if !Legal(hs, c) then hs
    else
      match c
      case Create => hs
      case Default(h) => hs[Named(h) := Ref(None)]
      case FromRaw(h, p) => hs[Named(h) := Ref(Some(p))]
      case Copy(h, g) => hs[Named(h) := hs[Named(g)]]
      case Move(h, g) => hs[Named(g) := Emptied(hs[Named(g)])][Named(h) := hs[Named(g)]]
      case CopyAssign(h, g) => hs[Named(h) := hs[Named(g)]]
      case MoveAssign(h, g) => if h == g then hs else hs[Named(g) := Emptied(hs[Named(g)])][Named(h) := hs[Named(g)]]
      case Scalar(v, s) => hs[Named(v) := s]
      case Wrap(v, h) => hs[Named(h) := Ref(None)][Named(v) := TensorValue(hs[Named(h)].ptr)]
      case Unwrap(h, v) => hs[Named(h) := Ref(hs[Named(v)].payload)]
      case Destruct(h) => hs - {Named(h)}
  }

  function EffectAll(hs: Handles, commands: seq<Command>): Handles {
    if commands == [] then hs else Effect(EffectAll(hs, commands[..|commands| - 1]), commands[|commands| - 1])
  }

  predicate LegalAll(hs: Handles, commands: seq<Command>) {
    commands == [] ||
    (LegalAll(hs, commands[..|commands| - 1]) &&
     Legal(EffectAll(hs, commands[..|commands| - 1]), commands[|commands| - 1]))
  }

  function Creations(commands: seq<Command>): nat {
    if commands == [] then 0
    else Creations(commands[..|commands| - 1]) + if commands[|commands| - 1].Create? then 1 else 0
  }

  /** Some command makes a `Ref` of the tensor as createRaw returned it. */
  predicate TakenUp(commands: seq<Command>, p: Ptr) {
    exists c <- commands :: c.FromRaw? && c.ptr == p
  }

  /** The raw tensors after a run: those from before and the new ones that no command has taken up. */
  ghost predicate RawAfter(raw: set<Ptr>, created: nat, commands: seq<Command>, raw': set<Ptr>, created': nat) {
    (forall p: Ptr :: p in raw' <==> (p in raw || created <= p < created') && !TakenUp(commands, p)) &&
    forall p: Ptr | TakenUp(commands, p) :: p < created'
  }

  lemma RawAfterNext(raw: set<Ptr>, created: nat, commands: seq<Command>, n: nat, raw1: set<Ptr>, created1: nat,
                     raw2: set<Ptr>, created2: nat)
    requires n < |commands| && RawAfter(raw, created, commands[..n], raw1, created1) && created <= created1
    requires created2 == created1 + if commands[n].Create? then 1 else 0
    requires commands[n].FromRaw? ==> commands[n].ptr < created1
    requires raw2 == raw1 + (if commands[n].Create? then {created1} else {}) -
                     if commands[n].FromRaw? then {commands[n].ptr} else {}
    ensures RawAfter(raw, created, commands[..n + 1], raw2, created2)
  {
    assert commands[..n + 1] == commands[..n] + [commands[n]];
    forall p: Ptr { TakenUpSnoc(commands[..n], commands[n], p); }
  }

  lemma TakenUpSnoc(commands: seq<Command>, c: Command, p: Ptr)
    ensures TakenUp(commands + [c], p) <==> TakenUp(commands, p) || (c.FromRaw? && c.ptr == p)
  {
    if TakenUp(commands, p) {
      var d :| d in commands && d.FromRaw? && d.ptr == p;
      assert d in commands + [c];
    }
    assert c in commands + [c];
  }

  lemma NextCommand(hs: Handles, commands: seq<Command>, n: nat)
    requires n < |commands|
    ensures EffectAll(hs, commands[..n + 1]) == Effect(EffectAll(hs, commands[..n]), commands[n])
    ensures LegalAll(hs, commands[..n + 1]) <==>
            LegalAll(hs, commands[..n]) && Legal(EffectAll(hs, commands[..n]), commands[n])
    ensures Creations(commands[..n + 1]) == Creations(commands[..n]) + if commands[n].Create? then 1 else 0
  {
    assert commands[..n + 1][..n] == commands[..n];
  }

  /** What the books say of every tensor. */
  ghost predicate Accounted(b: Books, raw: set<Ptr>, hs: Handles) {
    (forall p <- b.refCount :: b.refCount[p] == Count(hs, p)) &&
    (forall p: Ptr | p < b.created :: p in b.freed <==> p !in raw && Count(hs, p) == 0) &&
    forall i, j | 0 <= i < j < |b.freed| :: b.freed[i] != b.freed[j]
  }

  lemma BalancedIsAccounted(b: Books, raw: set<Ptr>, hs: Handles)
    requires Balanced(b, raw, hs, multiset{}) && raw <= b.refCount.Keys
    ensures Accounted(b, raw, hs)
  {
    forall p: Ptr | p < b.created { LiveWhileHeld(b, raw, hs, p); }
    forall p <- b.refCount ensures b.refCount[p] == Count(hs, p) { LiveWhileHeld(b, raw, hs, p); }
  }

  /** A command no run gets past: a misuse of the variables, or a pointer to no live tensor. */
  predicate Refused(hs: Handles, b: Books, c: Command) {
    !Legal(hs, c) || (c.FromRaw? && c.ptr !in b.refCount)
  }

  /** The variable a command declares. */
  function Declares(c: Command): Option<nat> {
    match c
    case Default(h) => Some(h)
    case FromRaw(h, _) => Some(h)
    case Copy(h, _) => Some(h)
    case Move(h, _) => Some(h)
    case Scalar(v, _) => Some(v)
    case Wrap(v, _) => Some(v)
    case Unwrap(h, _) => Some(h)
    case _ => None
  }

  /** The variables it uses. */
  function Takes(c: Command): set<nat> {
    match c
    case Copy(_, g) => {g}
    case Move(_, g) => {g}
    case CopyAssign(h, g) => {h, g}
    case MoveAssign(h, g) => {h, g}
    case Wrap(_, h) => {h}
    case Unwrap(_, v) => {v}
    case Destruct(h) => {h}
    case _ => {}
  }

  /** It assigns between a `Ref` and an `RtValue`, wraps no `Ref`, unwraps no tensor, or makes a scalar of one. */
  ghost predicate WrongClass(hs: Handles, c: Command)
    requires forall g <- Takes(c) :: Named(g) in hs
  {
    (c.Scalar? && !c.s.NoneValue? && !c.s.ScalarValue?) || (c.Wrap? && !hs[Named(c.h)].Ref?) ||
    (c.Unwrap? && !(hs[Named(c.v)].TensorValue? && hs[Named(c.v)].payload.Some?)) ||
    ((c.CopyAssign? || c.MoveAssign?) && hs[Named(c.h)].Ref? != hs[Named(c.g)].Ref?)
  }

  /** What the language or a precondition of the source forbids. */
  ghost predicate Misuses(hs: Handles, b: Books, c: Command) {
    (Declares(c).Some? && Named(Declares(c).value) in hs) ||
    (if forall g <- Takes(c) :: Named(g) in hs then WrongClass(hs, c) else true) ||
    (c.FromRaw? && c.ptr !in b.refCount)
  }

  lemma RefusedIsMisuse(hs: Handles, b: Books, c: Command)
    ensures Refused(hs, b, c) <==> Misuses(hs, b, c)
  {
    match c
    case CopyAssign(h, g) => assert h in Takes(c) && g in Takes(c);
    case MoveAssign(h, g) => assert h in Takes(c) && g in Takes(c);
    case _ =>
  }

  /** All commands were legal and took effect; tensors were created, taken up and only ever freed. */
  ghost predicate HasRun(hs: Handles, b: Books, raw: set<Ptr>, commands: seq<Command>, hs': Handles, b': Books,
                         raw': set<Ptr>)
  {
    hs' == EffectAll(hs, commands) && LegalAll(hs, commands) && b.freed <= b'.freed &&
    b'.created == b.created + Creations(commands) && RawAfter(raw, b.created, commands, raw', b'.created)
  }

  lemma OneMoreHasRun(hs: Handles, b: Books, raw: set<Ptr>, commands: seq<Command>, n: nat, hs1: Handles, b1: Books,
                      raw1: set<Ptr>, hs2: Handles, b2: Books, raw2: set<Ptr>)
    requires n < |commands| && HasRun(hs, b, raw, commands[..n], hs1, b1, raw1) && !Refused(hs1, b1, commands[n])
    requires (forall p <- b1.refCount :: p < b1.created) && hs2 == Effect(hs1, commands[n]) && b1.freed <= b2.freed
    requires b2.created == b1.created + if commands[n].Create? then 1 else 0
    requires raw2 == raw1 + (if commands[n].Create? then {b1.created} else {}) -
                     if commands[n].FromRaw? then {commands[n].ptr} else {}
    ensures HasRun(hs, b, raw, commands[..n + 1], hs2, b2, raw2)
  {
    RawAfterNext(raw, b.created, commands, n, raw1, b1.created, raw2, b2.created);
    NextCommand(hs, commands, n);
  }

  // ---- The operations ----

  class Runtime {
    var handles: Handles
    var books: Books
    // Tensors returned by createRaw and not yet given to a Ref.
    ghost var raw: set<Ptr>

    ghost predicate Valid()
      reads this
    {
      Balanced(books, raw, handles, multiset{}) && raw <= books.refCount.Keys
    }

    constructor ()
      ensures Valid() && handles == map[] && books == Books(map[], [], 0) && raw == {}
    {
      handles, books := map[], Books(map[], [], 0);
      raw := {};
    }

    /** `Tensor::createRaw`: a new tensor with count zero. */
    method CreateRaw() returns (p: Ptr)
      requires Valid()
      modifies this
      ensures Valid() && p == old(books.created) && raw == old(raw) + {p} && handles == old(handles)
      ensures books == old(books).(refCount := old(books).refCount[p := 0], created := p + 1)
    {
      p := books.created;
      ghost var b := books;
      books := books.(refCount := books.refCount[p := 0], created := p + 1);
      raw := raw + {p};
      if Count(handles, p) > 0 { HolderIsLive(b, old(raw), handles, p); }
    }

    /** `incref`: a reference more, in flight until a handle takes it. */
    method Incref(ptr: Option<Ptr>, ghost view: Handles)
      requires Balanced(books, raw, view, multiset{}) && (ptr.Some? ==> ptr.value in books.refCount) &&
               raw <= books.refCount.Keys
      modifies this`books, this`raw
      ensures Balanced(books, raw, view, InFlight(ptr)) && raw <= books.refCount.Keys
      ensures books.freed == old(books.freed) && books.created == old(books.created)
      ensures raw == old(raw) - (if ptr.Some? then {ptr.value} else {})
      ensures books.refCount.Keys == old(books.refCount.Keys)
    {
      if ptr.None? { return; }
      books := books.(refCount := books.refCount[ptr.value := books.refCount[ptr.value] + 1]);
      raw := raw - {ptr.value};
    }

    /** `decref`: gives back the reference in flight; the last one frees the tensor. */
    method Decref(ptr: Option<Ptr>, ghost view: Handles)
      requires Balanced(books, raw, view, InFlight(ptr)) && raw <= books.refCount.Keys
      modifies this`books
      ensures Balanced(books, raw, view, multiset{}) && raw <= books.refCount.Keys
      ensures books.created == old(books.created)
      ensures books.freed == old(books.freed) + (if ptr.Some? && Count(view, ptr.value) == 0 then [ptr.value] else [])
    {
      if ptr.None? { return; }
      var p := ptr.value;
      assert p in InFlight(ptr);
      if books.refCount[p] == 1 {
        books := books.(refCount := books.refCount - {p}, freed := books.freed + [p]);
        forall h <- view ensures Held(view[h]) != Some(p) {
          if Held(view[h]) == Some(p) { CountPositive(view, h, p); }
        }
      } else {
        books := books.(refCount := books.refCount[p := books.refCount[p] - 1]);
      }
    }

    // ---- Ref ----

    /** `Ref()` */
    method DefaultRef(h: Handle)
      requires Valid() && h !in handles
      modifies this
      ensures Valid() && handles == old(handles)[h := Ref(None)] && books == old(books) && raw == old(raw)
    {
      TakeUp(books, raw, handles, h, Ref(None));
      handles := handles[h := Ref(None)];
    }

    /** `Ref(T *)`, of a raw tensor or of one that has handles already. */
    method RefFromRaw(h: Handle, p: Ptr)
      requires Valid() && h !in handles && p in books.refCount
      modifies this
      ensures Valid() && handles == old(handles)[h := Ref(Some(p))] && books.freed == old(books.freed)
      ensures raw == old(raw) - {p} && books.created == old(books.created)
    {
      Incref(Some(p), handles);
      TakeUp(books, raw, handles, h, Ref(Some(p)));
      handles := handles[h := Ref(Some(p))];
    }

    /** `Ref(const Ref &)` */
    method CopyRef(h: Handle, other: Handle)
      requires Valid() && h !in handles && other in handles && handles[other].Ref?
      modifies this
      ensures Valid() && handles == old(handles)[h := old(handles)[other]] && books.freed == old(books.freed)
      ensures raw == old(raw) && books.created == old(books.created)
    {
      var ptr := handles[other].ptr;
      HeldIsNotRaw(other);
      Incref(ptr, handles);
      TakeUp(books, raw, handles, h, Ref(ptr));
      handles := handles[h := Ref(ptr)];
    }

    /** `Ref(Ref &&)`: the pointer moves, no count changes. */
    method MoveRef(h: Handle, other: Handle)
      requires Valid() && h !in handles && other in handles && handles[other].Ref?
      modifies this`handles
      ensures Valid() && handles == old(handles)[other := Ref(None)][h := old(handles)[other]]
    {
      GiveUp(books, raw, handles, other, Ref(None));
      var taken := handles[other].ptr;
      handles := handles[other := Ref(None)];
      TakeUp(books, raw, handles, h, Ref(taken));
      handles := handles[h := Ref(taken)];
    }

    /**
     `operator=(const Ref &)`: the old reference goes before the new one is counted, so a shared
     target survives only because the other handle still counts.
     */
    method CopyAssignRef(h: Handle, other: Handle)
      requires Valid() && h in handles && handles[h].Ref? && other in handles && handles[other].Ref?
      modifies this
      ensures Valid() && handles == old(handles)[h := old(handles)[other]] && raw == old(raw)
      ensures books.created == old(books.created) && old(books.freed) <= books.freed
    {
      if h == other { return; }
      DecrefHeld(h);
      SetAndIncref(h, other);
    }

    /** `decref(ptr)` of a handle about to be given another pointer: until then its own may dangle. */
    method DecrefHeld(h: Handle)
      requires Valid() && h in handles && handles[h].Ref?
      modifies this`books
      ensures Balanced(books, raw, handles[h := Ref(None)], multiset{}) && raw <= books.refCount.Keys
      ensures books.created == old(books.created) && old(books.freed) <= books.freed
    {
      GiveUp(books, raw, handles, h, Ref(None));
      Decref(handles[h].ptr, handles[h := Ref(None)]);
    }

    /** `ptr = other.ptr; incref(ptr)` */
    method SetAndIncref(h: Handle, other: Handle)
      requires h in handles && other in handles && h != other && handles[other].Ref? && raw <= books.refCount.Keys
      requires Balanced(books, raw, handles[h := Ref(None)], multiset{})
      modifies this
      ensures Valid() && handles == old(handles)[h := old(handles)[other]] && raw == old(raw)
      ensures books.created == old(books.created) && books.freed == old(books.freed)
    {
      ghost var view := handles[h := Ref(None)];
      ViewIsNotRaw(view, other);
      var ptr := handles[other].ptr;
      handles := handles[h := Ref(ptr)];
      Incref(ptr, view);
      TakeUp(books, raw, view, h, Ref(ptr));
      assert handles == view[h := Ref(ptr)];
    }

    /** `operator=(Ref &&)` */
    method MoveAssignRef(h: Handle, other: Handle)
      requires Valid() && h in handles && handles[h].Ref? && other in handles && handles[other].Ref?
      modifies this
      ensures Valid() && raw == old(raw) && books.created == old(books.created) && old(books.freed) <= books.freed
      ensures handles == if h == other then old(handles) else old(handles)[other := Ref(None)][h := old(handles)[other]]
    {
      if h == other { return; }
      DecrefHeld(h);
      var taken := handles[other].ptr;
      MoveBalances(books, raw, handles[h := Ref(None)], h, other);
      assert handles[other := Ref(None)][h := Ref(taken)] ==
             handles[h := Ref(None)][other := Ref(None)][h := Ref(taken)];
      handles := handles[other := Ref(None)];
      handles := handles[h := Ref(taken)];
    }

    /** `~Ref` and `~RtValue` */
    method Destroy(h: Handle)
      requires Valid() && h in handles
      modifies this
      ensures Valid() && handles == old(handles) - {h} && raw == old(raw)
      ensures books.created == old(books.created) && old(books.freed) <= books.freed
    {
      Drop(books, raw, handles, h);
      Decref(Held(handles[h]), handles - {h});
      handles := handles - {h};
    }

    // ---- RtValue ----

    /** `RtValue()` and the constructors from scalars. */
    method ScalarRtValue(v: Handle, s: Slot)
      requires Valid() && v !in handles && (s.NoneValue? || s.ScalarValue?)
      modifies this`handles
      ensures Valid() && handles == old(handles)[v := s]
    {
      TakeUp(books, raw, handles, v, s);
      handles := handles[v := s];
    }

    /** `RtValue(Ref<Tensor>)`: takes the pointer out of its parameter `h`. */
    method RtValueFromRef(v: Handle, h: Handle)
      requires Valid() && v !in handles && h in handles && handles[h].Ref?
      modifies this`handles
      ensures Valid() && handles == old(handles)[h := Ref(None)][v := TensorValue(old(handles)[h].ptr)]
    {
      GiveUp(books, raw, handles, h, Ref(None));
      var taken := handles[h].ptr;
      handles := handles[h := Ref(None)];
      TakeUp(books, raw, handles, v, TensorValue(taken));
      handles := handles[v := TensorValue(taken)];
    }

    /** `toTensor`: a new `Ref` on the tensor. */
    method ToTensor(h: Handle, v: Handle)
      requires Valid() && h !in handles && v in handles && handles[v].TensorValue? && handles[v].payload.Some?
      modifies this
      ensures Valid() && handles == old(handles)[h := Ref(old(handles)[v].payload)] && books.freed == old(books.freed)
      ensures raw == old(raw) && books.created == old(books.created)
    {
      HeldIsNotRaw(v);
      RefFromRaw(h, handles[v].payload.value);
    }

    /** `RtValue(const RtValue &)` */
    method CopyRtValue(v: Handle, rhs: Handle)
      requires Valid() && v !in handles && rhs in handles && IsValue(handles[rhs])
      modifies this
      ensures Valid() && handles == old(handles)[v := old(handles)[rhs]] && books.freed == old(books.freed)
      ensures raw == old(raw) && books.created == old(books.created)
    {
      var s := handles[rhs];
      HeldIsNotRaw(rhs);
      Incref(Held(s), handles);
      TakeUp(books, raw, handles, v, s);
      handles := handles[v := s];
    }

    method Swap(g: Handle, h: Handle)
      requires Valid() && g in handles && h in handles
      modifies this`handles
      ensures Valid() && handles == old(handles)[g := old(handles)[h]][h := old(handles)[g]]
    {
      Exchange(books, raw, handles, g, h);
      handles := handles[g := handles[h]][h := handles[g]];
    }

    /** `RtValue(RtValue &&)`: starts as None and swaps. */
    method MoveRtValue(v: Handle, rhs: Handle)
      requires Valid() && v !in handles && rhs in handles && IsValue(handles[rhs])
      modifies this`handles
      ensures Valid() && handles == old(handles)[rhs := NoneValue][v := old(handles)[rhs]]
    {
      ScalarRtValue(v, NoneValue);
      Swap(v, rhs);
    }

    /** `operator=(RtValue &&)`, through a temporary: assigning a value to itself keeps it. */
    method MoveAssignRtValue(v: Handle, rhs: Handle)
      requires Valid() && Temporary !in handles && v in handles && IsValue(handles[v]) && rhs in handles &&
               IsValue(handles[rhs])
      modifies this
      ensures Valid() && raw == old(raw) && books.created == old(books.created) && old(books.freed) <= books.freed
      ensures handles == if v == rhs then old(handles) else old(handles)[rhs := NoneValue][v := old(handles)[rhs]]
    {
      MoveRtValue(Temporary, rhs);
      Swap(Temporary, v);
      Destroy(Temporary);
    }

    /** `operator=(const RtValue &)`, through a temporary copy. */
    method CopyAssignRtValue(v: Handle, rhs: Handle)
      requires Valid() && Temporary !in handles && v in handles && IsValue(handles[v]) && rhs in handles &&
               IsValue(handles[rhs])
      modifies this
      ensures Valid() && handles == old(handles)[v := old(handles)[rhs]] && raw == old(raw)
      ensures books.created == old(books.created) && old(books.freed) <= books.freed
    {
      CopyRtValue(Temporary, rhs);
      Swap(Temporary, v);
      Destroy(Temporary);
    }

    // ---- Whole runs ----

    /** Executes commands up to the end or to the first that is refused, and accounts for every tensor. */
    method Run(commands: seq<Command>) returns (done: nat)
      requires Valid() && Temporary !in handles
      modifies this
      ensures done <= |commands| && (done < |commands| ==> Misuses(handles, books, commands[done]))
      ensures Valid() && Temporary !in handles && Accounted(books, raw, handles)
      ensures HasRun(old(handles), old(books), old(raw), commands[..done], handles, books, raw)
    {
      done := 0;
      while done < |commands| && !Refused(handles, books, commands[done])
        invariant Valid() && done <= |commands| && Temporary !in handles
        invariant HasRun(old(handles), old(books), old(raw), commands[..done], handles, books, raw)
        decreases |commands| - done
      {
        ghost var hs, b, before := handles, books, raw;
        Execute(commands[done]);
        OneMoreHasRun(old(handles), old(books), old(raw), commands, done, hs, b, before, handles, books, raw);
        done := done + 1;
      }
      BalancedIsAccounted(books, raw, handles);
      if done < |commands| { RefusedIsMisuse(handles, books, commands[done]); }
    }

    method Execute(c: Command)
      requires Valid() && Temporary !in handles && !Refused(handles, books, c)
      modifies this
      ensures Valid() && Temporary !in handles && handles == Effect(old(handles), c)
      ensures old(books.freed) <= books.freed && books.created == old(books.created) + if c.Create? then 1 else 0
      ensures raw == old(raw) + (if c.Create? then {old(books.created)} else {}) - if c.FromRaw? then {c.ptr} else {}
    {
      match c {
        case Create => var p := CreateRaw();
        case Default(h) => DefaultRef(Named(h));
        case FromRaw(h, p) => RefFromRaw(Named(h), p);
        case Copy(h, g) =>
          if handles[Named(g)].Ref? { CopyRef(Named(h), Named(g)); } else { CopyRtValue(Named(h), Named(g)); }
        case Move(h, g) =>
          if handles[Named(g)].Ref? { MoveRef(Named(h), Named(g)); } else { MoveRtValue(Named(h), Named(g)); }
        case CopyAssign(h, g) =>
          if handles[Named(g)].Ref? {
            CopyAssignRef(Named(h), Named(g));
          } else {
            CopyAssignRtValue(Named(h), Named(g));
          }
        case MoveAssign(h, g) =>
          if handles[Named(g)].Ref? {
            MoveAssignRef(Named(h), Named(g));
          } else {
            MoveAssignRtValue(Named(h), Named(g));
          }
        case Scalar(v, s) => ScalarRtValue(Named(v), s);
        case Wrap(v, h) => RtValueFromRef(Named(v), Named(h));
        case Unwrap(h, v) => ToTensor(Named(h), Named(v));
        case Destruct(h) => Destroy(Named(h));
      }
    }

    /** What a handle holds has been counted, so it is not raw. */
    lemma HeldIsNotRaw(h: Handle)
      requires Valid() && h in handles
      ensures Held(handles[h]).Some? ==> Held(handles[h]).value in books.refCount && Held(handles[h]).value !in raw
    {
      ViewIsNotRaw(handles, h);
    }

    lemma ViewIsNotRaw(view: Handles, h: Handle)
      requires Balanced(books, raw, view, multiset{}) && h in view
      ensures Held(view[h]).Some? ==> Held(view[h]).value in books.refCount && Held(view[h]).value !in raw
    {
      if Held(view[h]).Some? { CountPositive(view, h, Held(view[h]).value); }
    }
  }
}
