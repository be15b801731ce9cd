/**
 What a caller of a compiled module can do and see: call functions, read and write slots, overwrite
 the tensors it was handed, and compare references. It never sees an address.
 */
module Outside {
  import opened Option
  import opened TorchIR

  // A number, a new tensor, a module instance, or a value received before.
  datatype Given = Plain(n: int) | Fresh(data: seq<int>) | Instance(instance: nat) | Earlier(k: nat)

  datatype Request =
    | Call(name: Callee, args: seq<Given>)
    | Write(slot: string, val: Given)
    | Read(slot: string)
    // Puts new contents into a tensor received before.
    | Fill(k: nat, data: seq<int>)
    // Asks whether two values received before are the same.
    | Compare(j: nat, k: nat)

  // A number, the contents of a tensor, or an instance.
  datatype Seen = SeenNumber(n: int) | SeenTensor(data: seq<int>) | SeenInstance(instance: nat)

  datatype Answer = Returned(vals: seq<Seen>) | Same(same: bool) | Unit | Failed(outOfFuel: bool)

  function Show(world: World, v: Val): Seen {
    match v
    case Num(n) => SeenNumber(n)
    case Tensor(a) => SeenTensor(Cell(world, a))
    case Obj(i) => SeenInstance(i)
  }

  function ShowAll(world: World, vals: seq<Val>): seq<Seen> {
    seq(|vals|, i requires 0 <= i < |vals| => Show(world, vals[i]))
  }

  function Give(g: Given, handles: seq<Val>, world: World): Option<(Val, World)> {
    match g
    case Plain(n) => Some((Num(n), world))
    case Fresh(data) => Some((Tensor(|world|), world + [data]))
    case Instance(i) => Some((Obj(i), world))
    case Earlier(k) => if k < |handles| then Some((handles[k], world)) else None
  }

  /** The arguments of a call, in order. */
  function GiveAll(gs: seq<Given>, handles: seq<Val>, world: World): (r: Option<Results>)
    ensures r.Some? ==> |r.value.vals| == |gs|
  {
    if gs == [] then Some(Results([], world))
    else
      match GiveAll(gs[..|gs| - 1], handles, world)
      case None => None
      case Some(before) =>
        match Give(gs[|gs| - 1], handles, before.world)
        case None => None
        case Some(last) => Some(Results(before.vals + [last.0], last.1))
  }

  // The answer, the values received so far, and the state of the module.
  datatype Reply = Reply(answer: Answer, handles: seq<Val>, state: State)

  function Serve(p: Program, fuel: nat, r: Request, handles: seq<Val>, s: State): Reply {
    match r
    case Call(name, gs) =>
      var given := GiveAll(gs, handles, s.world);
      if name !in p.funcs || given.None? then Reply(Failed(false), handles, s)
      else ServeCall(p, fuel, name, given.value, handles, s)
    case Write(slot, g) =>
      (match Give(g, handles, s.world)
       case None => Reply(Failed(false), handles, s)
       case Some(v) => Reply(Unit, handles, State(s.heap, s.globals[slot := v.0], v.1)))
    case Read(slot) =>
      if slot !in s.globals then Reply(Failed(false), handles, s)
      else Reply(Returned([Show(s.world, s.globals[slot])]), handles + [s.globals[slot]], s)
    case Fill(k, data) =>
      if k >= |handles| || !handles[k].Tensor? || handles[k].address >= |s.world| then Reply(Failed(false), handles, s)
      else Reply(Unit, handles, s.(world := s.world[handles[k].address := data]))
    case Compare(j, k) =>
      if j >= |handles| || k >= |handles| then Reply(Failed(false), handles, s)
      else Reply(Same(handles[j] == handles[k]), handles, s)
  }

  function ServeCall(p: Program, fuel: nat, name: Callee, given: Results, handles: seq<Val>, s: State): Reply
    requires name in p.funcs
  {
    match Invoke(p, fuel, p.funcs[name], given.vals, s.(world := given.world))
    case Done(vals, s') => Reply(Returned(ShowAll(s'.world, vals)), handles + vals, s')
    case OutOfFuel => Reply(Failed(true), handles, s)
    case Stuck => Reply(Failed(false), handles, s)
  }

  /** The answers to a sequence of requests, up to the first failure. */
  function Answers(p: Program, fuel: nat, requests: seq<Request>, handles: seq<Val>, s: State): seq<Answer> {
    if requests == [] then []
    else
      var reply := Serve(p, fuel, requests[0], handles, s);
      [reply.answer] +
      if reply.answer.Failed? then [] else Answers(p, fuel, requests[1..], reply.handles, reply.state)
  }

  function StateAfter(p: Program, fuel: nat, requests: seq<Request>, handles: seq<Val>, s: State): State {
    if requests == [] then s
    else
      var reply := Serve(p, fuel, requests[0], handles, s);
      if reply.answer.Failed? then reply.state else StateAfter(p, fuel, requests[1..], reply.handles, reply.state)
  }
}
