/**
 Two runs whose tensors lie at different addresses. Live tensors correspond one to one; a shared
 tensor of one run may have any number of counterparts in the other, as long as nobody overwrites
 it or asks whether two references to it are the same.
 */
module Correspondence {
  import opened Option
  import opened TorchIR

  // `live` is one to one and grows with each allocation; the pairs in `shared` only have equal contents.
  datatype Corr = Corr(live: map<nat, nat>, shared: set<(nat, nat)>)

  ghost predicate Injective(m: map<nat, nat>) {
    forall a, b | a in m && b in m && m[a] == m[b] :: a == b
  }

  ghost predicate LiveCells(m: map<nat, nat>, w: World, w': World) {
    forall a <- m :: a < |w| && m[a] < |w'| && w[a] == w'[m[a]]
  }

  ghost predicate SharedCells(k: Corr, w: World, w': World) {
    forall p <- k.shared ::
      p.0 < |w| && p.1 < |w'| && w[p.0] == w'[p.1] && p.0 !in k.live && p.1 !in k.live.Values
  }

  ghost predicate CellsRel(k: Corr, w: World, w': World) {
    Injective(k.live) && LiveCells(k.live, w, w') && SharedCells(k, w, w')
  }

  /** The same number, instance or live tensor. */
  predicate SameVal(k: Corr, v: Val, v': Val) {
    match v
    case Tensor(a) => v'.Tensor? && a in k.live && k.live[a] == v'.address
    case _ => v' == v
  }

  /** Or else counterparts of a shared tensor, where `mayShare` allows for it. */
  predicate ValRel(k: Corr, mayShare: bool, v: Val, v': Val) {
    SameVal(k, v, v') || (mayShare && v.Tensor? && v'.Tensor? && (v.address, v'.address) in k.shared)
  }

  ghost predicate Grows(k: Corr, k': Corr) {
    (forall a <- k.live :: a in k'.live && k'.live[a] == k.live[a]) && k.shared <= k'.shared
  }

  lemma ValRelGrows(k: Corr, k': Corr, mayShare: bool, v: Val, v': Val)
    requires Grows(k, k') && ValRel(k, mayShare, v, v')
    ensures ValRel(k', mayShare, v, v')
  {
  }

  lemma GrowsTransitive(k: Corr, k': Corr, k'': Corr)
    requires Grows(k, k') && Grows(k', k'')
    ensures Grows(k, k'')
  {
  }

  /** Values one by one; position `i` may hold a shared tensor if `mayShare` says so. */
  ghost predicate ListRel(k: Corr, mayShare: seq<bool>, vals: seq<Val>, vals': seq<Val>) {
    |vals| == |vals'| == |mayShare| && forall i | 0 <= i < |vals| :: ValRel(k, mayShare[i], vals[i], vals'[i])
  }

  // ---- What an op may not do with a shared tensor ----

  /** The same, except that the op may see other first uses at shared positions. */
  ghost predicate SeesSame(mayShare: seq<bool>, args: seq<Arg>, args': seq<Arg>) {
    |args| == |args'| == |mayShare| && forall i | 0 <= i < |args| :: SeesSameAt(mayShare[i], args[i], args'[i])
  }

  ghost predicate SeesSameAt(mayShare: bool, a: Arg, a': Arg) {
    a == a' || (mayShare && a.Contents? && a'.Contents? && a.data == a'.data)
  }

  /** The op neither overwrites nor compares what is at a shared position. */
  ghost predicate Spares(prims: Prims, opcode: string, mayShare: seq<bool>) {
    (forall args, i: nat | i < |mayShare| && mayShare[i] :: prims.write(opcode, args, i).None?) &&
    forall args, args', i: nat | SeesSame(mayShare, args, args') ::
      prims.effect(opcode, args, i) == prims.effect(opcode, args', i) &&
      prims.write(opcode, args, i) == prims.write(opcode, args', i)
  }

  /** It returns no operand at a shared position. */
  ghost predicate KeepsToItself(prims: Prims, opcode: string, mayShare: seq<bool>) {
    forall args, i: nat, j: nat | prims.effect(opcode, args, i) == Operand(j) && j < |mayShare| :: !mayShare[j]
  }

  function Nothing(n: nat): seq<bool> {
    seq(n, _ => false)
  }

  /** Without shared positions there is nothing to spare. */
  lemma NothingToSpare(prims: Prims, opcode: string, n: nat)
    ensures Spares(prims, opcode, Nothing(n)) && KeepsToItself(prims, opcode, Nothing(n))
  {
    forall args, args', i: nat | SeesSame(Nothing(n), args, args')
      ensures prims.effect(opcode, args, i) == prims.effect(opcode, args', i) &&
              prims.write(opcode, args, i) == prims.write(opcode, args', i)
    {
      forall j | 0 <= j < |args| ensures args[j] == args'[j] { assert SeesSameAt(Nothing(n)[j], args[j], args'[j]); }
      assert args == args';
    }
  }

  // ---- Both runs see the same ----

  lemma {:induction false} FirstAgrees(vals: seq<Val>, vals': seq<Val>, v: Val, v': Val)
    requires |vals| == |vals'| && forall i | 0 <= i < |vals| :: vals[i] == v <==> vals'[i] == v'
    ensures First(vals, v) == First(vals', v')
    decreases |vals|
  {
    if vals != [] && vals[0] != v {
      FirstAgrees(vals[1..], vals'[1..], v, v');
    }
  }

  /** A live tensor is at the same positions on both sides. */
  lemma SameTensorSamePlaces(k: Corr, mayShare: bool, w: World, w': World, u: Val, u': Val, v: Val, v': Val)
    requires CellsRel(k, w, w') && ValRel(k, mayShare, u, u') && SameVal(k, v, v')
    ensures u == v <==> u' == v'
  {
    if u.Tensor? && v.Tensor? && u'.Tensor? && !SameVal(k, u, u') {
      assert (u.address, u'.address) in k.shared;
      assert v.address in k.live && v'.address in k.live.Values;
    }
  }

  lemma SeesSameThere(k: Corr, mayShare: seq<bool>, w: World, w': World, vals: seq<Val>, vals': seq<Val>, i: nat)
    requires CellsRel(k, w, w') && ListRel(k, mayShare, vals, vals') && i < |vals|
    ensures SeesSameAt(mayShare[i], See(w, vals)[i], See(w', vals')[i])
  {
    if vals[i].Tensor? {
      if SameVal(k, vals[i], vals'[i]) {
        forall j | 0 <= j < |vals| ensures vals[j] == vals[i] <==> vals'[j] == vals'[i] {
          SameTensorSamePlaces(k, mayShare[j], w, w', vals[j], vals'[j], vals[i], vals'[i]);
        }
        FirstAgrees(vals, vals', vals[i], vals'[i]);
      }
    }
  }

  lemma RunsSeeSame(k: Corr, mayShare: seq<bool>, w: World, w': World, vals: seq<Val>, vals': seq<Val>)
    requires CellsRel(k, w, w') && ListRel(k, mayShare, vals, vals')
    ensures SeesSame(mayShare, See(w, vals), See(w', vals'))
  {
    forall i | 0 <= i < |vals| ensures SeesSameAt(mayShare[i], See(w, vals)[i], See(w', vals')[i]) {
      SeesSameThere(k, mayShare, w, w', vals, vals', i);
    }
  }

  lemma NumbersAgree(k: Corr, mayShare: seq<bool>, vals: seq<Val>, vals': seq<Val>)
    requires ListRel(k, mayShare, vals, vals')
    ensures Numbers(vals) == Numbers(vals')
  {
  }

  // ---- Overwriting ----

  /** Cells that do not correspond to any stay as they are. */
  ghost predicate OthersStay(live: set<nat>, before: World, after: World) {
    |before| <= |after| && forall a: nat | a < |before| && a !in live :: after[a] == before[a]
  }

  lemma LiveWrite(m: map<nat, nat>, w: World, w': World, a: nat, data: seq<int>)
    requires Injective(m) && LiveCells(m, w, w') && a in m
    ensures LiveCells(m, w[a := data], w'[m[a] := data])
  {
  }

  lemma WriteRel(k: Corr, w: World, w': World, a: nat, data: seq<int>)
    requires CellsRel(k, w, w') && a in k.live
    ensures CellsRel(k, w[a := data], w'[k.live[a] := data])
  {
    LiveWrite(k.live, w, w', a, data);
    assert k.live[a] in k.live.Values;
  }

  lemma {:induction false} OverwriteRel(k: Corr, prims: Prims, opcode: string, mayShare: seq<bool>, args: seq<Arg>,
                                        args': seq<Arg>, vals: seq<Val>, vals': seq<Val>, i: nat, w: World, w': World)
    requires CellsRel(k, w, w') && ListRel(k, mayShare, vals, vals') && i <= |vals|
    requires Spares(prims, opcode, mayShare) && SeesSame(mayShare, args, args')
    ensures var r, r' := Overwrite(prims, opcode, args, vals, i, w), Overwrite(prims, opcode, args', vals', i, w');
            CellsRel(k, r, r') && |r| == |w| && |r'| == |w'| &&
            OthersStay(k.live.Keys, w, r) && OthersStay(k.live.Values, w', r')
    decreases |vals| - i
  {
    if i < |vals| {
      OverwriteOneRel(k, prims, opcode, mayShare, args, args', vals, vals', i, w, w');
      OverwriteRel(k, prims, opcode, mayShare, args, args', vals, vals', i + 1,
                   OverwriteOne(prims, opcode, args, vals[i], i, w),
                   OverwriteOne(prims, opcode, args', vals'[i], i, w'));
    }
  }

  lemma OverwriteOneRel(k: Corr, prims: Prims, opcode: string, mayShare: seq<bool>, args: seq<Arg>, args': seq<Arg>,
                        vals: seq<Val>, vals': seq<Val>, i: nat, w: World, w': World)
    requires CellsRel(k, w, w') && ListRel(k, mayShare, vals, vals') && i < |vals|
    requires Spares(prims, opcode, mayShare) && SeesSame(mayShare, args, args')
    ensures var r, r' := OverwriteOne(prims, opcode, args, vals[i], i, w),
            OverwriteOne(prims, opcode, args', vals'[i], i, w');
            CellsRel(k, r, r') && |r| == |w| && |r'| == |w'| &&
            OthersStay(k.live.Keys, w, r) && OthersStay(k.live.Values, w', r')
  {
    var data := prims.write(opcode, args, i);
    assert data == prims.write(opcode, args', i);
    if data.Some? && vals[i].Tensor? {
      assert !mayShare[i] && SameVal(k, vals[i], vals'[i]);
      WriteRel(k, w, w', vals[i].address, data.value);
    }
  }

  // ---- Results ----

  /** A new tensor on both sides. */
  function Allocated(k: Corr, w: World, w': World): Corr {
    k.(live := k.live[|w| := |w'|])
  }

  lemma AllocateRel(k: Corr, w: World, w': World, data: seq<int>)
    requires CellsRel(k, w, w')
    ensures CellsRel(Allocated(k, w, w'), w + [data], w' + [data]) && Grows(k, Allocated(k, w, w'))
    ensures |w| !in k.live && |w'| !in k.live.Values
    ensures Allocated(k, w, w').live.Keys == k.live.Keys + {|w|}
    ensures Allocated(k, w, w').live.Values == k.live.Values + {|w'|}
  {
    var next := Allocated(k, w, w');
    forall v | v in k.live.Values ensures v != |w'| && v in next.live.Values {
      var a :| a in k.live && k.live[a] == v;
      assert next.live[a] == v;
    }
    assert next.live[|w|] == |w'|;
    forall v <- next.live.Values ensures v in k.live.Values + {|w'|} {
      var a :| a in next.live && next.live[a] == v;
    }
  }

  /** Only new tensors have been added to the correspondence. */
  ghost predicate AddsNew(k: Corr, k': Corr, n: nat, n': nat) {
    Grows(k, k') && k'.shared == k.shared && (forall a <- k'.live.Keys :: a in k.live || n <= a) &&
    forall a <- k'.live.Values :: a in k.live.Values || n' <= a
  }

  /** What holds after the results have been made. */
  ghost predicate Made(k: Corr, k': Corr, share: bool, w: World, w': World, r: Results, r': Results) {
    CellsRel(k', r.world, r'.world) && AddsNew(k, k', |w|, |w'|) && |r.vals| == |r'.vals| &&
    w <= r.world && w' <= r'.world && forall j | 0 <= j < |r.vals| :: ValRel(k', share, r.vals[j], r'.vals[j])
  }

  lemma OneResultRel(k: Corr, mayShare: seq<bool>, share: bool, vals: seq<Val>, vals': seq<Val>, res: Res, w: World,
                     w': World)
    returns (k': Corr)
    requires CellsRel(k, w, w') && ListRel(k, mayShare, vals, vals')
    requires res.Operand? && res.k < |vals| && mayShare[res.k] ==> share
    ensures CellsRel(k', OneResult(res, vals, w).1, OneResult(res, vals', w').1) && AddsNew(k, k', |w|, |w'|)
    ensures w <= OneResult(res, vals, w).1 && w' <= OneResult(res, vals', w').1
    ensures ValRel(k', share, OneResult(res, vals, w).0, OneResult(res, vals', w').0)
  {
    k' := k;
    if res.NewTensor? {
      AllocateRel(k, w, w', res.data);
      k' := Allocated(k, w, w');
    }
  }

  lemma MadeNext(k: Corr, k1: Corr, k2: Corr, share: bool, w: World, w': World, r: Results, r': Results,
                 v: Val, v': Val, w2: World, w2': World)
    requires Made(k, k1, share, w, w', r, r') && CellsRel(k2, w2, w2') && AddsNew(k1, k2, |r.world|, |r'.world|)
    requires r.world <= w2 && r'.world <= w2' && ValRel(k2, share, v, v')
    ensures Made(k, k2, share, w, w', Results(r.vals + [v], w2), Results(r'.vals + [v'], w2'))
  {
    forall j | 0 <= j < |r.vals| ensures ValRel(k2, share, r.vals[j], r'.vals[j]) {
      ValRelGrows(k1, k2, share, r.vals[j], r'.vals[j]);
    }
  }

  lemma {:induction false} AllResultsRel(k: Corr, prims: Prims, opcode: string, mayShare: seq<bool>, share: bool,
                                         args: seq<Arg>, args': seq<Arg>, vals: seq<Val>, vals': seq<Val>, n: nat,
                                         w: World, w': World)
    returns (k': Corr)
    requires CellsRel(k, w, w') && ListRel(k, mayShare, vals, vals')
    requires Spares(prims, opcode, mayShare) && SeesSame(mayShare, args, args')
    requires share || KeepsToItself(prims, opcode, mayShare)
    ensures Made(k, k', share, w, w', AllResults(prims, opcode, args, vals, n, w),
                 AllResults(prims, opcode, args', vals', n, w'))
  {
    k' := k;
    if n > 0 {
      var k1 := AllResultsRel(k, prims, opcode, mayShare, share, args, args', vals, vals', n - 1, w, w');
      var r := AllResults(prims, opcode, args, vals, n - 1, w);
      var r' := AllResults(prims, opcode, args', vals', n - 1, w');
      var res := prims.effect(opcode, args, n - 1);
      assert res == prims.effect(opcode, args', n - 1);
      ListRelGrows(k, k1, mayShare, vals, vals');
      k' := OneResultRel(k1, mayShare, share, vals, vals', res, r.world, r'.world);
      var last, last' := OneResult(res, vals, r.world), OneResult(res, vals', r'.world);
      MadeNext(k, k1, k', share, w, w', r, r', last.0, last'.0, last.1, last'.1);
    }
  }

  lemma ListRelGrows(k: Corr, k': Corr, mayShare: seq<bool>, vals: seq<Val>, vals': seq<Val>)
    requires Grows(k, k') && ListRel(k, mayShare, vals, vals')
    ensures ListRel(k', mayShare, vals, vals')
  {
    forall i | 0 <= i < |vals| ensures ValRel(k', mayShare[i], vals[i], vals'[i]) {
      ValRelGrows(k, k', mayShare[i], vals[i], vals'[i]);
    }
  }

  /**
   An op that spares shared tensors has corresponding results on both sides, and touches only live
   tensors. Results may be shared only if the op may return an operand that is.
   */
  lemma EffectRel(k: Corr, prims: Prims, opcode: string, mayShare: seq<bool>, share: bool, vals: seq<Val>,
                  vals': seq<Val>, n: nat, w: World, w': World)
    returns (k': Corr)
    requires CellsRel(k, w, w') && ListRel(k, mayShare, vals, vals') && Spares(prims, opcode, mayShare)
    requires share || KeepsToItself(prims, opcode, mayShare)
    ensures var r, r' := RunEffect(prims, opcode, vals, n, w), RunEffect(prims, opcode, vals', n, w');
            CellsRel(k', r.world, r'.world) && AddsNew(k, k', |w|, |w'|) &&
            OthersStay(k.live.Keys, w, r.world) && OthersStay(k.live.Values, w', r'.world) &&
            forall j | 0 <= j < n :: ValRel(k', share, r.vals[j], r'.vals[j])
  {
    var args, args' := See(w, vals), See(w', vals');
    RunsSeeSame(k, mayShare, w, w', vals, vals');
    OverwriteRel(k, prims, opcode, mayShare, args, args', vals, vals', 0, w, w');
    k' := AllResultsRel(k, prims, opcode, mayShare, share, args, args', vals, vals', n,
                        Overwrite(prims, opcode, args, vals, 0, w), Overwrite(prims, opcode, args', vals', 0, w'));
  }
}
