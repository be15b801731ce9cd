# npcomp: verified models of its algorithms

npcomp compiles PyTorch and NumPy programs to tensor loops and runs them on a small runtime. This
project models the algorithms of its passes, importers and runtime over small datatypes, and proves
what they promise. MLIR itself is replaced by those datatypes: a value is a numbered, typed
variable, a block is a sequence of ops, a region is a nested block.

## What is modelled

**Object-graph globalization** (`TorchIR`, `ObjectGraph`, `LinkageNames`, `InitialObjects`,
`Monomorphize`, `MonomorphizationTracker`, `Globalize`, `EndToEnd`). A graph of `nn_module` instances with methods
becomes functions over flat global slots. `TorchIR` holds one small language with nested control
flow, calls and mutable tensors, and its fuel-indexed interpreter, which runs both sides: code over a
heap keyed by (instance, attribute), and code over a store keyed by linkage name. `ObjectGraph` holds
the recursive traversal with its name stack and the backward-slice worklist, stated against the list of
everything an unfolding of the graph meets. `LinkageNames` says the same of the graph itself: the
traversal succeeds exactly when a single path of attributes leads from the root to every module and no
two slots need the same identity-bearing value, and every slot and method is named by its path.
`InitialObjects` allocates an object for each identity-bearing op and shows that the initializers leave
the same objects as the original, which is what the alias check is for.
`Monomorphize` and `MonomorphizationTracker` hold the instance analysis and the fixed point over
specialisations. `Globalize` holds the rewriter and the whole pass, and the simulation: for every
well-formed program, mutual recursion included, every fuel and every sequence of requests, both
programs give the same answers and end in related stores, or both run out of fuel, and neither gets
stuck. Specialised functions are identified by their monomorphization, not by their printed name.
`EndToEnd` starts the original with the objects its top-level ops make and the result with those its
initializers make, at other addresses, and carries the correspondence of the two heaps through the
runs: every answer is the same, contents and identity of tensors included.

**Runs at other addresses** (`Outside`, `Correspondence`, `Addresses`). `Outside` is what a caller can
do and see: call functions, access slots, refill tensors it was handed and ask whether two are the
same, but never see an address. `Correspondence` relates runs whose tensors lie elsewhere, one to one
or, for tensors nobody overwrites or compares, one to many. `Addresses` concludes that a program
answers alike from any two stores that correspond.

**Inlining of global slots** (`InlineGlobalSlots`, `InlinedModules`, `CloneSafety`), over the same
language. The slots may hold tensors: each read of an inlined slot then makes a tensor of its own. A
module and what the pass makes of it, both started from their initializers, answer every sequence of
requests alike, failures included, if no op of the program overwrites in place, or compares by
identity, a tensor of an inlined slot, and the caller does not either. That is a condition on the ops,
checked one by one before the pass: each op has operand positions it may overwrite, compare or return,
and a set of variables and slots says where such tensors may go. Without such a condition, for any
program and any meaning of its ops, an initializer may be cloned if and only if no op that may create a
tensor yields its value.

**Value-semantics passes** (`TensorBlock`, `ReduceOpVariants`, `MaximizeValueSemantics`,
`MaximizeValueSemanticsPass`). A block in SSA form runs over an environment and a heap of mutable
cells; views alias the cell they start from.
In-place ops and mutable operands are reduced away, and then cells whose uses are only reads,
overwrites or views. Both passes are shown to end and to refine the block they start from: every
remaining value and cell is unchanged on every run.

**Type inference** (`Unifier`, `TypeInference`, `CPA`). One algorithm unifies constants and variables
with a triangular substitution; the other closes a set of constraints under transitivity and then
resolves variables greedily. Both are characterised exactly: when they succeed, and what they find.

**Broadcasting and tensor loops** (`Layout`, `Broadcast`, `Bufferize`). One NumPy reference definition
meets two lowerings: affine index maps with emitted asserts, and a loop nest with index clamping under
a broadcastability witness. They are shown to agree.

**Runtime and ABI** (`Layout`, `RefCount`, `Metadata`). Strides and tensor/memref conversions,
intrusive reference counts of `Ref` and `RtValue`, and the signature metadata the compiler writes and
the runtime reads.

**Import and type syntax** (`Importer`, `TypeSyntax`). Import of an object graph by identity, and
the printers and parsers of the torch, numpy and basicpy types.

`Option` is the usual optional value.

## Where code and comments differ, and what turned out false

- `getExtentsForType` says shapes are extended to four dimensions and scalars are written as ones; the
  code pads to six and writes sixes. The model follows the code.
- Metadata of uniquely named functions does not always survive: what the compiler emits for a function
  goes into the symbol table that also holds the functions, public and private, under names that a
  function may have. The shapes constant of `f` is `__npcomp_internal_constant_input_shapes_f`, which is
  also the name constant of a function called `input_shapes_f` (`Metadata.UniqueNamesMayClash`), and the
  name constant of `f` is itself a possible function name (`Metadata.PrivateNamesMayClash`).
  `Metadata.CompileAndQuery` proves that a symbol is defined twice exactly when `NamesClash` holds: some
  function is named like the abort function, the descriptor arrays, the module descriptor, a numbered
  failure message, or a constant, descriptor array or wrapper of a public function, or a public function
  is named after the input or output shapes of another that has inputs or outputs.
- Static extents are put into 32-bit slots: they come back as they were exactly when they are below
  2^31 (`Metadata.ExtentsSurvive`), and `Metadata.LargeExtentReadsAsDynamic` is one that reads as dynamic.
- The runtime does not read the element code of a memref and reports F32 for all: right exactly if the
  elements are floats (`Metadata.ElementsSurvive`).
- The asserts of the elementwise lowering are stricter than NumPy: `Broadcast.AssertsVersusNumpy` says
  by exactly how much, and `Broadcast.CompatibleShapesMayBeRejected` gives shapes.
- A type comes back from its printed form exactly when its dimensions are at least -1, no `<` follows
  a bare tensor, and the class names of its slot objects are keywords of the lexer:
  `TypeSyntax.RoundTrip`, with an input for each condition (`NegativeSizesAreLost`,
  `BareTensorBeforeLess`, `TwoWordClassName`).
- Inlining a global slot is not always sound: for every initializer whose value comes from an op that
  may create a tensor there are a program and a meaning of its ops that tell the difference, by
  overwriting the tensor and reading the slot again (`CloneSafety.CloningLosesIdentity`). Exactly then:
  `CloneSafety.SafeIffNoObject`. `InlinedModules.PassPreservesRuns` says for which programs such slots
  may be inlined all the same.

## What the models take from elsewhere

- Slots match the attributes of their class in order, and member names are unique, as the verifiers of
  `lib/Dialect/Torch/IR/TorchOps.cpp:108-184` require; they contain no dot.
- Operands are in scope and have the types their ops want, each SSA value is defined once, and modules
  arise only from arguments and attribute reads.
- The meaning of tensor kernels, of side effects on tensors, and of initializer ops is a parameter. An
  op sees the numbers in its operands, the contents of the tensors among them, and which of these are
  the same tensor, but no address; it overwrites only its operands, and yields numbers, new tensors or
  operands.

## Model

| member | source | states |
|---|---|---|
| ObjectGraph.FindRootNnModule | lib/Dialect/Torch/Transforms/GlobalizeObjectGraph.cpp:26-46 | finds the module that no slot holds while every other module is held by some; otherwise it is an error |
| ObjectGraph.ObjectGraphInfo.RecursivelyTraverse | lib/Dialect/Torch/Transforms/GlobalizeObjectGraph.cpp:100-142 | succeeds iff nothing met before or below is met twice or shares an identity-bearing value, and then records exactly that |
| ObjectGraph.ObjectGraphInfo.TraverseSlots | lib/Dialect/Torch/Transforms/GlobalizeObjectGraph.cpp:110-134 | the same from the first slot of a module on |
| ObjectGraph.ObjectGraphInfo.TraverseSlot | lib/Dialect/Torch/Transforms/GlobalizeObjectGraph.cpp:114-133 | the same for one slot; the name stack is restored |
| ObjectGraph.ObjectGraphInfo.CreateGlobalSlot | lib/Dialect/Torch/Transforms/GlobalizeObjectGraph.cpp:119-131 | a data slot gets a global slot with its visibility and value, whose name is the names on the stack with single dots between them, unless its initializer would alias |
| ObjectGraph.ObjectGraphInfo.TraverseMethods | lib/Dialect/Torch/Transforms/GlobalizeObjectGraph.cpp:135-141 | every method of the instance gets its visibility, and a linkage name made of the path and its own name |
| ObjectGraph.ObjectGraphInfo.PopulateGlobalSlotInitializer | lib/Dialect/Torch/Transforms/GlobalizeObjectGraph.cpp:144-181 | fails iff the slice shares an identity-bearing value with an earlier initializer; otherwise it is the slice in block order |
| ObjectGraph.ObjectGraphInfo.BackwardSlice | lib/Dialect/Torch/Transforms/GlobalizeObjectGraph.cpp:149-157 | the worklist computes the operand closure |
| ObjectGraph.JoinInjective | lib/Dialect/Torch/Transforms/GlobalizeObjectGraph.cpp:102-138 | dot-joining distinct paths of dotless names gives distinct names |
| ObjectGraph.JoinIsDotted | lib/Dialect/Torch/Transforms/GlobalizeObjectGraph.cpp:119-138 | in a linkage name the names of the path follow each other, with one dot between two of them and nothing else |
| ObjectGraph.EventsPathsDiffer | lib/Dialect/Torch/Transforms/GlobalizeObjectGraph.cpp:110-141 | no two things met on a traversal have the same path |
| ObjectGraph.LinkageNamesAreDistinct | lib/Dialect/Torch/Transforms/GlobalizeObjectGraph.cpp:119-139 | all slots and methods met get distinct linkage names |
| LinkageNames.GlobalSlotsAreNamed | lib/Dialect/Torch/Transforms/GlobalizeObjectGraph.cpp:119-131 | every global slot is named by the attributes that lead from the root to the slot it is made for, and has its visibility and value |
| LinkageNames.SlotsAreNamed | lib/Dialect/Torch/Transforms/GlobalizeObjectGraph.cpp:119-128 | so is the linkage name of every data slot of every module |
| LinkageNames.MethodsAreNamed | lib/Dialect/Torch/Transforms/GlobalizeObjectGraph.cpp:135-141 | and that of every method of every module |
| LinkageNames.TraversedMeans | lib/Dialect/Torch/Transforms/GlobalizeObjectGraph.cpp:100-181 | the traversal succeeds iff there is one root, a single path of attributes leads to each module, and no identity-bearing value is needed for the initial values of two slots |
| ObjectGraph.EveryModuleIsMet | lib/Dialect/Torch/Transforms/GlobalizeObjectGraph.cpp:26-46 | from the only unused module every module of the program is met |
| ObjectGraph.EveryModuleIsVisitedOnce | lib/Dialect/Torch/Transforms/GlobalizeObjectGraph.cpp:102-108 | after a successful traversal every module was visited exactly once |
| ObjectGraph.CleanSlotKeysDiffer | lib/Dialect/Torch/Transforms/GlobalizeObjectGraph.cpp:126-127 | no slot is met twice, so the assert that a slot has no global slot yet holds |
| ObjectGraph.SlotLinkageIsTotal | lib/Dialect/Torch/Transforms/GlobalizeObjectGraph.cpp:80-84 | every data slot of every module has a linkage name |
| ObjectGraph.SlotLinkageIsInjective | lib/Dialect/Torch/Transforms/GlobalizeObjectGraph.cpp:119-128 | two slots share a linkage name only if they are the same slot |
| ObjectGraph.SlotHasItsGlobal | lib/Dialect/Torch/Transforms/GlobalizeObjectGraph.cpp:119-131 | the global slot bearing a slot's name is initialised from that slot's value and has its visibility |
| ObjectGraph.InitializerComputesValue | lib/Dialect/Torch/Transforms/GlobalizeObjectGraph.cpp:158-179 | the cloned slice runs without a missing operand and yields the slot's value |
| ObjectGraph.InitializersDoNotAlias | lib/Dialect/Torch/Transforms/GlobalizeObjectGraph.cpp:165-175 | no identity-bearing value is copied into two initializers |
| InitialObjects.RunSlotsMatches | lib/Dialect/Torch/Transforms/GlobalizeObjectGraph.cpp:158-179 | the initializers run one after another, and leave values and objects that are those of the original up to addresses |
| InitialObjects.ObjectsStandForOps | lib/Dialect/Torch/Transforms/GlobalizeObjectGraph.cpp:165-175 | no original object is copied twice iff no identity-bearing op is in two initializers |
| InitialObjects.InitialHeapsAreIsomorphic | lib/Dialect/Torch/Transforms/GlobalizeObjectGraph.cpp:144-180 | after a clean traversal the initial objects of both sides correspond one to one, with the same contents and held by the same slots |
| Monomorphize.AnalyzeInstances | lib/Dialect/Torch/Transforms/GlobalizeObjectGraph.cpp:274-293 | computes the instance mapping; its receiver lookup never fails |
| Monomorphize.InstancesAreRight | lib/Dialect/Torch/Transforms/GlobalizeObjectGraph.cpp:274-293 | the mapping gives every module value an instance of its class, agrees with every attribute read and with the arguments |
| Monomorphize.WalkIsScoped | lib/Dialect/Torch/Transforms/GlobalizeObjectGraph.cpp:281-283 | every module value used was an argument or read earlier in the walk, nested blocks included |
| Monomorphize.AttrHasSlot | lib/Dialect/Torch/Transforms/GlobalizeObjectGraph.cpp:284-289 | an attribute of the class is a slot of each instance, holding a value of the attribute's type |
| Monomorphize.ConformsMeans | lib/Dialect/Torch/Transforms/GlobalizeObjectGraph.cpp:381-423 | the check of a function body passes iff every user of a module value, in nested blocks too, is a call, an attribute read, or a write to it |
| MonomorphizationTracker.CallsAreMonomorphizations | lib/Dialect/Torch/Transforms/GlobalizeObjectGraph.cpp:295-310 | a call in a monomorphization names a monomorphization: one fitting instance for each module operand |
| MonomorphizationTracker.SeedIsOnlyChoice | lib/Dialect/Torch/Transforms/GlobalizeObjectGraph.cpp:319-341 | a function seeds a monomorphization iff that is the only way to specialise it |
| MonomorphizationTracker.MonomorphizationTracker.AddSeeds | lib/Dialect/Torch/Transforms/GlobalizeObjectGraph.cpp:317-341 | all seeds, and nothing unneeded, become members and dirty |
| MonomorphizationTracker.MonomorphizationTracker.Initialize | lib/Dialect/Torch/Transforms/GlobalizeObjectGraph.cpp:317-348 | the members end up as the least set holding the seeds and closed under calls, each expanded exactly once |
| MonomorphizationTracker.MonomorphizationTracker.GenerateNewMonomorphizations | lib/Dialect/Torch/Transforms/GlobalizeObjectGraph.cpp:355-370 | expanding a member adds exactly the callees that were no members, and marks them dirty |
| MonomorphizationTracker.MonomorphizationTracker.Insert | lib/Dialect/Torch/Transforms/GlobalizeObjectGraph.cpp:365-366 | a new member is appended once to the set and to the dirty list |
| MonomorphizationTracker.GrowthIsBounded | lib/Dialect/Torch/Transforms/GlobalizeObjectGraph.cpp:343-348 | every new member comes out of a finite universe, so the loop ends |
| Globalize.LookupsAlwaysSucceed | lib/Dialect/Torch/Transforms/GlobalizeObjectGraph.cpp:457-504 | in a clone every global slot and every callee clone the rewriter asks for exists |
| Globalize.RewriteOps | lib/Dialect/Torch/Transforms/GlobalizeObjectGraph.cpp:450-515 | rewrites all ops, nested ones included, with each asserted lookup succeeding |
| Globalize.RewriteLeaf | lib/Dialect/Torch/Transforms/GlobalizeObjectGraph.cpp:457-500 | one attribute access or call becomes its slot access or clone call |
| Globalize.VerifyPublicMonomorphizations | lib/Dialect/Torch/Transforms/GlobalizeObjectGraph.cpp:425-446 | counts specialisations; passes iff the function of no public method has two |
| Globalize.GlobalizeObjectGraph | lib/Dialect/Torch/Transforms/GlobalizeObjectGraph.cpp:526-641 | succeeds iff there is one root with a single path to each module, no value is shared by initial values, module values are used as receivers and arguments only, and no public method is specialised twice; then yields the global slots under their paths and one rewritten clone per monomorphization |
| Globalize.CollectObjectGraph | lib/Dialect/Torch/Transforms/GlobalizeObjectGraph.cpp:528-536 | fails iff there is no single root or the traversal conflicts |
| Globalize.CloneAll | lib/Dialect/Torch/Transforms/GlobalizeObjectGraph.cpp:613-620 | each monomorphization has its rewritten clone |
| Globalize.DataVarsAppend | lib/Dialect/Torch/Transforms/GlobalizeObjectGraph.cpp:486-515 | with the case of one variable: the parameters and arguments that are kept are those that are no modules, in order |
| Globalize.WriteSlot | lib/Dialect/Torch/Transforms/GlobalizeObjectGraph.cpp:457-469 | writing a slot and its global slot disturbs no other slot |
| Globalize.SimulateOp | lib/Dialect/Torch/Transforms/GlobalizeObjectGraph.cpp:457-511 | one op and its replacement end in related environments and stores, or both run out of fuel |
| Globalize.SimulateInvoke | lib/Dialect/Torch/Transforms/GlobalizeObjectGraph.cpp:450-524 | a function on its instances and its rewritten specialisation give the same results and related stores for every fuel; neither gets stuck |
| Globalize.InitialStoresAreRelated | lib/Dialect/Torch/Transforms/GlobalizeObjectGraph.cpp:158-179 | slots and global slots holding the same initial values, numbers or references, are related stores |
| Globalize.GlobalizationPreservesRuns | lib/Dialect/Torch/Transforms/GlobalizeObjectGraph.cpp:526-641 | any sequence of requests gets the same answers before and after |
| InlineGlobalSlots.PotentiallyWrittenGlobalSlots | lib/Dialect/Torch/Transforms/InlineGlobalSlots.cpp:38-57 | exactly the slots with a use that is not a read |
| InlineGlobalSlots.InlineGlobalSlots | lib/Dialect/Torch/Transforms/InlineGlobalSlots.cpp:28-88 | inlines exactly the private slots that are only read, and erases those that were read |
| EndToEnd.DataArrives | lib/Dialect/Torch/Transforms/GlobalizeObjectGraph.cpp:450-524 | the clone is given the data arguments of the original in order, and nothing for module arguments |
| EndToEnd.ClonesAgree | lib/Dialect/Torch/Transforms/GlobalizeObjectGraph.cpp:526-641 | calls, refilled tensors and identity comparisons are answered alike by the original and the clones |
| EndToEnd.StartsCorrespond | lib/Dialect/Torch/Transforms/GlobalizeObjectGraph.cpp:144-180 | the store the initializers leave, moved to the addresses of the original, holds the original's initial values |
| EndToEnd.GlobalizationPreservesAnswers | lib/Dialect/Torch/Transforms/GlobalizeObjectGraph.cpp:526-641 | from the objects of the top-level ops and from those of the initializers, every sequence of commands has the same answers |
| Addresses.AddressesDoNotMatter | lib/Dialect/Torch/Transforms/GlobalizeObjectGraph.cpp:144-180 | a program answers every sequence of requests alike from stores that correspond one to one |
| Correspondence.EffectRel | lib/Dialect/Torch/Transforms/InlineGlobalSlots.cpp:71-80 | an op that spares shared tensors has corresponding results on both sides and changes only corresponding tensors |
| InlineGlobalSlots.CloneComputesInit | lib/Dialect/Torch/Transforms/InlineGlobalSlots.cpp:71-80 | an initializer, tensor-creating ops included, and its clone run to the end with corresponding results, and the clone changes nothing that was there |
| InlineGlobalSlots.CloneYields | lib/Dialect/Torch/Transforms/InlineGlobalSlots.cpp:71-80 | the read's result shows the initial value, in a tensor of its own if it is one, and no other value or tensor changes |
| InlineGlobalSlots.TraitsSpare | lib/Dialect/Torch/Transforms/InlineGlobalSlots.cpp:56-80 | the check of one op's operand positions ensures that it neither overwrites nor compares a shared tensor, nor returns one unnoticed |
| InlineGlobalSlots.SimulateInvoke | lib/Dialect/Torch/Transforms/InlineGlobalSlots.cpp:59-88 | every function has the same outcome after inlining up to addresses, failures included |
| InlineGlobalSlots.InliningPreservesRuns | lib/Dialect/Torch/Transforms/InlineGlobalSlots.cpp:36-84 | every sequence of requests has the same answers if the program and its caller leave the tensors of inlined slots alone |
| InlineGlobalSlots.InlinedSlotKeepsInitialValue | lib/Dialect/Torch/Transforms/InlineGlobalSlots.cpp:64-70 | an inlined slot shows its initial value after any run |
| InlineGlobalSlots.PassIsInlining | lib/Dialect/Torch/Transforms/InlineGlobalSlots.cpp:36-84 | what the pass produces meets the conditions of these results, tensor slots included |
| InlinedModules.InitSame | lib/Dialect/Torch/Transforms/InlineGlobalSlots.cpp:71-80 | an initializer run in two stores ends in both with corresponding results, and only adds to what was there |
| InlinedModules.StartsCorrespond | lib/Dialect/Torch/Transforms/InlineGlobalSlots.cpp:56-84 | running the initializers of the module and of what the pass leaves gives corresponding stores |
| InlinedModules.PassPreservesRuns | lib/Dialect/Torch/Transforms/InlineGlobalSlots.cpp:28-85 | from the initializers on, a module and the output of the pass answer every sequence of requests alike under the same condition |
| InlinedModules.PassPreservesReaders | lib/Dialect/Torch/Transforms/InlineGlobalSlots.cpp:28-85 | in a program whose ops overwrite and compare nothing, any slots may be inlined |
| InlinedModules.PassPreservesRunsOnNumbers | lib/Dialect/Torch/Transforms/InlineGlobalSlots.cpp:28-85 | slots without tensors may be inlined in every program |
| CloneSafety.SafeIffNoObject | lib/Dialect/Torch/Transforms/InlineGlobalSlots.cpp:71-80 | an initializer may be cloned in every program, for every meaning of its ops, iff no op that may create a tensor yields its value |
| CloneSafety.CloningLosesIdentity | lib/Dialect/Torch/Transforms/InlineGlobalSlots.cpp:71-80 | for every other initializer, a program the pass changes the answer of |
| ReduceOpVariants.ConvertToImmutableTensors | lib/Dialect/Torch/Transforms/ReduceOpVariants.cpp:27-56 | copies mutable operands to values and results back, leaving the rest of the op alone |
| ReduceOpVariants.RewriteIsLighter | lib/Dialect/Torch/Transforms/ReduceOpVariants.cpp:118-137 | each rewrite strictly lowers the weighted count of illegal ops |
| ReduceOpVariants.RewriteKeepsSsa | lib/Dialect/Torch/Transforms/ReduceOpVariants.cpp:27-94 | a rewrite keeps SSA form and types |
| ReduceOpVariants.ConvertIsSound | lib/Dialect/Torch/Transforms/ReduceOpVariants.cpp:27-56 | wrapping a value-semantic op in copies keeps every named value and cell |
| ReduceOpVariants.InPlaceIsSound | lib/Dialect/Torch/Transforms/ReduceOpVariants.cpp:67-94 | the pure op, a copy and an overwrite of self do what the in-place op did |
| ReduceOpVariants.InPlaceBecomesPure | lib/Dialect/Torch/Transforms/ReduceOpVariants.cpp:73-92 | an op whose third name fragment is a stem and an underscore becomes the op named by the stem on the same operands, a copy of its result and an overwrite of self, which replaces the result |
| ReduceOpVariants.ReplaceIsSound | lib/Dialect/Torch/Transforms/ReduceOpVariants.cpp:98-107 | the same for every pattern, mutable literals included |
| ReduceOpVariants.RewriteIsSound | lib/Dialect/Torch/Transforms/ReduceOpVariants.cpp:27-107 | a rewrite anywhere in a block keeps every value, alias and cell of the original |
| ReduceOpVariants.RewriteKeepsCalls | lib/Dialect/Torch/Transforms/ReduceOpVariants.cpp:27-107 | a rewrite keeps every named op with its name and numbers of operands and results, in order, or gives an in-place op the name without its underscore |
| ReduceOpVariants.ReduceOpVariants | lib/Dialect/Torch/Transforms/ReduceOpVariants.cpp:111-141 | terminates with no in-place op, no mutable literal and no value-semantic op on mutable tensors left; keeps every op in order, in-place ones under their stem; refines the original block on every run |
| MaximizeValueSemantics.InterpretCopyUsers | lib/Dialect/Torch/Transforms/MaximizeValueSemantics.cpp:27-65 | applies iff every later user of the copy reads it, or overwrites it with another value; replaces each read by the held value |
| MaximizeValueSemantics.InterpretIsSound | lib/Dialect/Torch/Transforms/MaximizeValueSemantics.cpp:36-55 | with the cell held by a value, dropping its reads and overwrites keeps everything else |
| MaximizeValueSemantics.RemoveCopyIsSound | lib/Dialect/Torch/Transforms/MaximizeValueSemantics.cpp:27-65 | deleting the copy keeps all other values and cells |
| MaximizeValueSemantics.CollectViewSubgraph | lib/Dialect/Torch/Transforms/MaximizeValueSemantics.cpp:75-92 | the worklist finds the least set closed under views, and fails iff there is none with only views and reads |
| MaximizeValueSemantics.RewriteViewLikeSubgraph | lib/Dialect/Torch/Transforms/MaximizeValueSemantics.cpp:73-112 | applies iff some set holds the copy and only reads and views, whose results are in the set, use its values; the copy and its views are then rewritten to values |
| MaximizeValueSemantics.RewriteLoop | lib/Dialect/Torch/Transforms/MaximizeValueSemantics.cpp:94-111 | replaces the reads and retypes the views in block order |
| MaximizeValueSemantics.RewriteViewsIsSound | lib/Dialect/Torch/Transforms/MaximizeValueSemantics.cpp:94-111 | each rewritten view holds the composed view of the original cell, and nothing else changes |
| MaximizeValueSemantics.ViewsToValuesIsSound | lib/Dialect/Torch/Transforms/MaximizeValueSemantics.cpp:73-112 | the same for the whole block around the copy |
| MaximizeValueSemanticsPass.DroppingApplies | lib/Dialect/Torch/Transforms/MaximizeValueSemantics.cpp:27-60 | dropping a copy keeps SSA form and types, defines nothing new and leaves less to do |
| MaximizeValueSemanticsPass.ViewsApply | lib/Dialect/Torch/Transforms/MaximizeValueSemantics.cpp:73-112 | the same for turning views into values, where the first pattern does not apply |
| MaximizeValueSemanticsPass.ReachedNext | lib/Dialect/Torch/Transforms/MaximizeValueSemantics.cpp:120-129 | applications chain: the original is refined after any number of them |
| MaximizeValueSemanticsPass.RunOnOperation | lib/Dialect/Torch/Transforms/MaximizeValueSemantics.cpp:120-129 | the pass ends with no pattern applicable, and every run keeps every value and cell except copies and views |
| Unifier.ExtendAcyclic | lib/Dialect/Basicpy/Transforms/TypeInference.cpp:254-286 | binding an unbound variable to a node that does not walk to it keeps the substitution acyclic |
| Unifier.UnifyCorrect | lib/Dialect/Basicpy/Transforms/TypeInference.cpp:235-252 | succeeds iff some solution of the substitution equates both nodes, and then has exactly those solutions |
| Unifier.UnifyVariableCorrect | lib/Dialect/Basicpy/Transforms/TypeInference.cpp:254-286 | the same when one side is a variable |
| Unifier.OccursMeansWalk | lib/Dialect/Basicpy/Transforms/TypeInference.cpp:288-301 | the occurs check says whether a node walks to the variable |
| Unifier.OccursCheckNeverFires | lib/Dialect/Basicpy/Transforms/TypeInference.cpp:279-283 | where it is called, the occurs check is false |
| Unifier.UnifyEquations | lib/Dialect/Basicpy/Transforms/TypeInference.cpp:204-216 | the loop unifies the equations in order and stops at the first failure |
| Unifier.UnificationIsPrincipal | lib/Dialect/Basicpy/Transforms/TypeInference.cpp:204-286 | a substitution is found iff some assignment satisfies all equations, and the satisfying assignments are exactly its solutions |
| Unifier.EquationsWalkTogether | lib/Dialect/Basicpy/Transforms/TypeInference.cpp:204-216 | under it both sides of every equation walk to the same node |
| Unifier.ResolveIsForced | lib/Dialect/Basicpy/Transforms/TypeInference.cpp:218-233 | a node resolves to a type iff every solution forces that type |
| TypeInference.TypeEquations.GetTypeNode | lib/Dialect/Basicpy/Transforms/TypeInference.cpp:125-138 | one node per value, created at first use; variables are numbered in order |
| TypeInference.TypeEquations.RunOnFunction | lib/Dialect/Basicpy/Transforms/TypeInference.cpp:317-425 | collects exactly the pairs of values the ops equate |
| TypeInference.SidesAreTypingRules | lib/Dialect/Basicpy/Transforms/TypeInference.cpp:317-425 | a typing equates those pairs iff it obeys the typing rule of each op |
| TypeInference.TypingsSolveEquations | lib/Dialect/Basicpy/Transforms/TypeInference.cpp:317-425 | the equations are solvable iff the function has an admissible typing |
| TypeInference.InferFunctionTypes | lib/Dialect/Basicpy/Transforms/TypeInference.cpp:437-467 | fails iff no admissible typing exists; otherwise assigns a type to an unknown value iff every admissible typing gives it that type |
| CPA.PropagationWorklist.PropagateTransitivity | lib/Typing/Analysis/CPA/Algorithm.cpp:37-76 | adds exactly the constraints one join derives, and counts them |
| CPA.PropagationWorklist.Commit | lib/Typing/Analysis/CPA/Algorithm.cpp:31-35 | reports whether anything was added and resets the count |
| CPA.PropagationWorklist.Propagate | lib/Typing/Transforms/CPATypeInference.cpp:247-250 | ends with exactly the derivable constraints within one round more than there are variables |
| CPA.NewStartAtValueTypes | lib/Typing/Analysis/CPA/Algorithm.cpp:37-76 | no new constraint starts at a variable |
| CPA.FixpointIsClosure | lib/Typing/Analysis/CPA/Algorithm.cpp:31-76 | a round that adds nothing has reached the least closed set: initial edges and paths through variables |
| CPA.ProductiveRounds | lib/Typing/Transforms/CPATypeInference.cpp:247-250 | there are at most as many productive rounds as variables |
| CPA.GreedyTypeNodeVarResolver.UnionCandidateTypes | lib/Typing/Analysis/CPA/Algorithm.cpp:82-95 | a type is chosen iff it is the only candidate |
| CPA.DependentVarsOccur | lib/Typing/Analysis/CPA/Types.cpp:81-110 | the variables collected from a node are those at the end of some path of fields |
| CPA.ResolvesIsUnambiguous | lib/Typing/Analysis/CPA/Algorithm.cpp:97-129 | a closed set in terms of the collected variables is one in terms of paths, each variable with exactly one candidate |
| CPA.GreedyTypeNodeVarResolver.AnalyzeTypeNode | lib/Typing/Analysis/CPA/Algorithm.cpp:97-129 | maps every variable that occurs in the node or in a type it maps to, or shows that no unambiguous set closed under occurrence exists |
| CPA.ResolveTypeNode | lib/Typing/Analysis/CPA/Algorithm.cpp:82-129 | succeeds iff an unambiguous set of variables closed under occurrence exists, and maps the least one, each to its only candidate |
| CPA.LookalikesAreAmbiguous | include/npcomp/Typing/Analysis/CPA/Types.h:470-489 | object value types created apart are two candidates even if they look alike |
| Broadcast.ConvertElementwise | lib/Conversion/TorchToLinalg/TorchToLinalg.cpp:724-806 | the loops emit the specified result shape, one index map per operand, and exactly the specified asserts |
| Broadcast.AssertsCheckAgreement | lib/Conversion/TorchToLinalg/TorchToLinalg.cpp:756-800 | the asserts pass iff all aligned dimensions that are not statically 1 agree |
| Broadcast.ElementwiseRefinesNumpy | lib/Conversion/TorchToLinalg/TorchToLinalg.cpp:724-806 | if they pass, the shape is the broadcast shape, every index is in bounds and every element equals the reference |
| Broadcast.AssertsVersusNumpy | lib/Conversion/TorchToLinalg/TorchToLinalg.cpp:770-795 | they pass iff the shapes are compatible and no dynamic dimension has to be stretched |
| Broadcast.CompatibleShapesMayBeRejected | lib/Conversion/TorchToLinalg/TorchToLinalg.cpp:770-795 | compatible shapes whose asserts fail: a dynamic dimension of size 1 beside a 3 |
| Broadcast.NumpyShapeExists | lib/Conversion/TorchToLinalg/TorchToLinalg.cpp:724-806 | any number of shapes have a broadcast shape iff they are compatible |
| Broadcast.NumpyShapeIsUnique | lib/Conversion/TorchToLinalg/TorchToLinalg.cpp:724-806 | they have at most one, and only if they are compatible |
| Bufferize.BroadcastTo | lib/Dialect/TCP/Transforms/Bufferize.cpp:97-164 | stores each output offset exactly once in order, with the source element of its index |
| Bufferize.InnerBody | lib/Dialect/TCP/Transforms/Bufferize.cpp:138-157 | one in-bounds load and one store |
| Bufferize.WitnessMeansNumpyShape | lib/Conversion/TCFToStd/TCFToStd.cpp:44-70 | the witness holds iff a NumPy shape exists, and the computed shape is that shape |
| Bufferize.BinaryElementwise | lib/Conversion/TCFToStd/TCFToStd.cpp:32-95 | has a result iff the shapes are compatible, with NumPy's shape and elements |
| Bufferize.LoweringsAgree | lib/Conversion/TCFToStd/TCFToStd.cpp:44-90 | wherever the asserts of the affine-map lowering pass, both lowerings give the same tensor |
| Bufferize.Pad | lib/Dialect/TCP/Transforms/Bufferize.cpp:187-221 | the result has `lower[i]` positions before and `upper[i]` after the operand in each dimension i, holds the operand there and the fill value elsewhere |
| Layout.MemrefDescriptor.constructor | lib/RefBackend/Runtime/Runtime.cpp:67-85 | the reverse loop fills the sizes, and row-major strides |
| Layout.StridesAreRowMajor | lib/RefBackend/Runtime/Runtime.cpp:67-85 | the last stride is 1 and every other is the next one times the next size |
| Layout.MemrefDescriptor.GetNumElements | lib/RefBackend/Runtime/Runtime.cpp:36-56 | outer size times outer stride is the element count |
| Layout.OffsetIsBijection | lib/RefBackend/Runtime/Runtime.cpp:67-85 | linear offset is a bijection from in-range indices onto the buffer |
| Layout.TotalElements | lib/RefBackend/Runtime/Runtime.cpp:111-117 | the running product stays within int32 and is the element count |
| Layout.TensorRoundTrip | lib/RefBackend/Runtime/Runtime.cpp:87-109 | tensor to memref to tensor is the identity |
| RefCount.Runtime.CreateRaw | include/npcomp/RefBackend/Runtime/UserAPI.h:125-136 | a new tensor with count zero |
| RefCount.Runtime.RefFromRaw | include/npcomp/RefBackend/Runtime/UserAPI.h:48-52 | a handle on a live tensor counts once more |
| RefCount.Runtime.CopyRef | include/npcomp/RefBackend/Runtime/UserAPI.h:53-56 | a copy counts, and frees nothing |
| RefCount.Runtime.MoveRef | include/npcomp/RefBackend/Runtime/UserAPI.h:57 | the pointer moves, the source is empty, no count changes |
| RefCount.Runtime.CopyAssignRef | include/npcomp/RefBackend/Runtime/UserAPI.h:58-65 | balanced for self, shared and different targets, though the old reference goes first |
| RefCount.Runtime.MoveAssignRef | include/npcomp/RefBackend/Runtime/UserAPI.h:66-72 | the same for moves; moving to itself does nothing |
| RefCount.Runtime.Destroy | include/npcomp/RefBackend/Runtime/UserAPI.h:73-73 | a handle goes, and its reference with it |
| RefCount.Runtime.Incref | include/npcomp/RefBackend/Runtime/UserAPI.h:89-93 | one reference more, none for null |
| RefCount.Runtime.Decref | include/npcomp/RefBackend/Runtime/UserAPI.h:96-103 | one reference less; frees iff no handle is left |
| RefCount.Runtime.RtValueFromRef | include/npcomp/RefBackend/Runtime/UserAPI.h:228-230 | takes the pointer out of the handle without counting |
| RefCount.Runtime.ToTensor | include/npcomp/RefBackend/Runtime/UserAPI.h:232-235 | a new counted handle on the payload |
| RefCount.Runtime.CopyRtValue | include/npcomp/RefBackend/Runtime/UserAPI.h:270-281 | copies tag and payload, counting tensors |
| RefCount.Runtime.MoveRtValue | include/npcomp/RefBackend/Runtime/UserAPI.h:282-282 | takes the value and leaves None |
| RefCount.Runtime.MoveAssignRtValue | include/npcomp/RefBackend/Runtime/UserAPI.h:284-287 | takes the value and leaves None; assigning to itself keeps the value |
| RefCount.Runtime.CopyAssignRtValue | include/npcomp/RefBackend/Runtime/UserAPI.h:288-291 | becomes a counted copy, through a temporary |
| RefCount.Runtime.Run | include/npcomp/RefBackend/Runtime/UserAPI.h:43-311 | a run ends early only at a misused variable or a pointer to no live tensor; then every count is the number of handles, and a tensor is freed, once, iff it was taken up and no handle is left |
| RefCount.RefusedIsMisuse | include/npcomp/RefBackend/Runtime/UserAPI.h:43-311 | a run stops exactly at a command that declares a declared variable, uses one that is missing or of the wrong class, or takes up no live tensor |
| RefCount.LiveWhileHeld | include/npcomp/RefBackend/Runtime/UserAPI.h:96-105 | a tensor's count is the number of its handles; it is freed iff it has been held and no handle is left |
| RefCount.FreedWithLastHandle | include/npcomp/RefBackend/Runtime/UserAPI.h:96-105 | between any two balanced states a tensor is freed iff it was live or is new, has been taken up, and no handle is left |
| Metadata.GetExtentsForType | lib/RefBackend/LowerToRefbackrtABI.cpp:93-129 | known extents cut to 32 bits, -1 for dynamic ones, 0xDEADBEEF up to rank six; six sixes for anything but a ranked memref |
| Metadata.EncodeArgs | lib/RefBackend/LowerToRefbackrtABI.cpp:168-234 | argument and element codes, ranks and flattened shapes stand position by position for the arguments |
| Metadata.EncodedIsWritten | lib/RefBackend/LowerToRefbackrtABI.cpp:56-129 | the numbers written for a memref, an unranked one, and 32- and 64-bit floats |
| Metadata.CreateModuleMetadata | lib/RefBackend/LowerToRefbackrtABI.cpp:147-295 | metadata of the public functions, in order; an error iff one has an argument the ABI cannot express |
| Metadata.EmitAllConstants | lib/RefBackend/LowerToLLVM.cpp:234-277 | the name and shape constants of all functions are created, and nothing else |
| Metadata.SpelledAlike | lib/RefBackend/LowerToLLVM.cpp:194-676 | two different symbols are spelled alike iff the name in one imitates the other |
| Metadata.CoincidingSymbols | lib/RefBackend/LowerToLLVM.cpp:136-676 | a symbol of the finished module is defined twice iff the function names clash |
| Metadata.DescribeArgs | lib/RefBackend/LowerToLLVM.cpp:310-341 | descriptor i points at offset 6i of the flattened shapes |
| Metadata.CreateFuncDescriptorArray | lib/RefBackend/LowerToLLVM.cpp:224-483 | constants, descriptor arrays and the function descriptors leading to them are created, each under its symbol |
| Metadata.LowerModuleMetadata | lib/RefBackend/LowerToLLVM.cpp:485-548 | the module descriptor leads to all of these |
| Metadata.CreateMessages | lib/RefBackend/LowerToLLVM.cpp:136-159 | the messages, each with a terminating zero, numbered from the number of globals before them |
| Metadata.DecimalStandsFor | lib/RefBackend/LowerToLLVM.cpp:150-155 | the number in a message symbol is spelled in decimal digits without leading zeros |
| Metadata.CreateWrappers | lib/RefBackend/LowerToLLVM.cpp:663-736 | each public function has a wrapper, and its descriptor holds the wrapper's address |
| Metadata.LowerToLLVM | lib/RefBackend/LowerToLLVM.cpp:694-737 | fails iff the names clash; otherwise every shape, code, rank and wrapper is reached from the module descriptor, and all symbols, the functions and the messages are there under their names in the object file |
| Metadata.GetFuncDescriptor | lib/RefBackend/Runtime/Runtime.cpp:191-201 | finds the function of that name, if any |
| Metadata.GetExternalArgInfo | lib/RefBackend/Runtime/Runtime.cpp:339-370 | tells F32 for 32-bit floats, F64 for 64-bit ones and a tensor for memrefs, the rank or -1, and each extent or -1 |
| Metadata.InfoIsTold | lib/RefBackend/Runtime/Runtime.cpp:339-401 | that describes exactly one answer for each argument |
| Metadata.GetMetadata | lib/RefBackend/Runtime/Runtime.cpp:404-424 | fails iff the name is absent; otherwise tells the kind, rank and extents of every input and output |
| Metadata.InfoDeterminesType | lib/RefBackend/Runtime/Runtime.cpp:339-401 | what is decoded determines an argument type whose extents fit and whose elements are floats |
| Metadata.ElementsSurvive | lib/RefBackend/Runtime/Runtime.cpp:339-370 | the element type decoded is the one encoded iff the argument is no memref of other elements than floats |
| Metadata.ExtentsSurvive | lib/RefBackend/LowerToRefbackrtABI.cpp:104-112 | extents are decoded as they were iff static ones are below 2^31 |
| Metadata.LargeExtentReadsAsDynamic | lib/RefBackend/LowerToRefbackrtABI.cpp:104-112 | an extent that is decoded as dynamic |
| Metadata.CompileAndQuery | lib/RefBackend/LowerToRefbackrtABI.cpp:147-295 | the whole round trip: every failure has its exact cause, and success tells the kind, rank and extents of all arguments of the public function of that name |
| Metadata.UniqueNamesMayClash | lib/RefBackend/LowerToLLVM.cpp:238-259 | two unique public names whose constants clash |
| Metadata.PrivateNamesMayClash | lib/RefBackend/LowerToLLVM.cpp:237-242 | a private function named like a name constant |
| Importer.IValueImporter.ImportIValue | frontends/pytorch/csrc/builder/ivalue_importer.cpp:213-236 | succeeds iff nothing reached is unsupported, aliased or of another compilation unit; every value reached then has one definition |
| Importer.IValueImporter.Enter | frontends/pytorch/csrc/builder/ivalue_importer.cpp:218-231 | the checks made before children are imported fail iff the value conflicts with those met before |
| Importer.IValueImporter.RawImportIValue | frontends/pytorch/csrc/builder/ivalue_importer.cpp:238-340 | imports the parts, then defines the value by them |
| Importer.IValueImporter.ImportAll | frontends/pytorch/csrc/builder/ivalue_importer.cpp:268-293 | imports elements in order, sharing earlier definitions |
| Importer.IValueImporter.ImportCompilationUnit | frontends/pytorch/csrc/builder/ivalue_importer.cpp:461-480 | the functions are put into the block once, for the first module |
| Importer.IValueImporter.ImportClassType | frontends/pytorch/csrc/builder/ivalue_importer.cpp:412-425 | a class is put into the block once, before its first module |
| Importer.AddValue | frontends/pytorch/csrc/builder/ivalue_importer.cpp:233-235 | a new definition keeps all others, their operands earlier in the block |
| Importer.SharingIsExact | frontends/pytorch/csrc/builder/ivalue_importer.cpp:213-236 | two values have the same definition iff they are the same object |
| TypeSyntax.Parser.AnyType | lib/Dialect/Torch/IR/TorchTypes.cpp:23-176 | the cursor parser does what the grammar functions say |
| TypeSyntax.Parser.Dims | lib/Dialect/Torch/IR/TorchTypes.cpp:124-151 | the loop over sizes, including the trailing comma it accepts |
| TypeSyntax.Parser.TupleType | lib/Dialect/Torch/IR/TorchTypes.cpp:23-39 | the empty tuple, and the loop over element types |
| TypeSyntax.Parser.TensorType | lib/Dialect/Torch/IR/TorchTypes.cpp:114-176 | optional arguments, sizes, dtype and its validity |
| TypeSyntax.Parser.NumpyType | lib/Dialect/Numpy/IR/NumpyDialect.cpp:32-110 | ndarray and any_dtype |
| TypeSyntax.Parser.BasicpyType | lib/Dialect/Basicpy/IR/BasicpyDialect.cpp:97-141 | keyword types and slot objects |
| TypeSyntax.ParsePrinted | lib/Dialect/Torch/IR/TorchTypes.cpp:178-205 | the tokens of a printed type parse to it with negative dimensions made -1, whatever follows, bare tensors aside |
| TypeSyntax.AcceptedDtypes | lib/Dialect/Torch/IR/TorchTypes.cpp:51-112 | of all types, exactly the torch dtypes are accepted as such |
| TypeSyntax.AcceptedKeywords | lib/Dialect/Torch/IR/TorchTypes.cpp:51-159 | of all keywords, exactly the names of float and integer dtypes and `unk` are accepted as a dtype |
| TypeSyntax.WrittenTensor | lib/Dialect/Torch/IR/TorchTypes.cpp:178-205 | the tokens of tensor types with and without sizes |
| TypeSyntax.WrittenArray | lib/Dialect/Numpy/IR/NumpyDialect.cpp:112-142 | the tokens of array types with and without a shape, of known and unknown elements |
| TypeSyntax.WrittenTuple | lib/Dialect/Torch/IR/TorchTypes.cpp:41-45 | a comma separates the types of a tuple |
| TypeSyntax.WrittenSlotObject | lib/Dialect/Basicpy/IR/BasicpyDialect.cpp:151-160 | the class name and every slot type are separated by commas |
| TypeSyntax.RoundTrip | lib/Dialect/Torch/IR/TorchTypes.cpp:114-205 | for any lexer, parsing undoes printing iff class names are keywords, dimensions are at least -1 and no `<` follows a bare tensor |
| TypeSyntax.ParsedNamesAreKeywords | lib/Dialect/Basicpy/IR/BasicpyDialect.cpp:114-131 | whatever the tokens, class names in a parsed type are keywords |
| TypeSyntax.WholeTypeRoundTrip | lib/Dialect/Numpy/IR/NumpyDialect.cpp:32-142 | a type that is the whole text comes back iff class names are keywords and dimensions are at least -1 |
| TypeSyntax.NegativeSizesAreLost | lib/Dialect/Torch/IR/TorchTypes.cpp:178-205 | a tensor of size -2 comes back with size -1 |
| TypeSyntax.BareTensorBeforeLess | lib/Dialect/Torch/IR/TorchTypes.cpp:114-123 | a bare tensor before a `<` does not parse |
| TypeSyntax.TwoWordClassName | lib/Dialect/Basicpy/IR/BasicpyDialect.cpp:114-131 | a slot object whose class name is two words does not parse |

## Left out

- Pattern drivers, dialect conversion, symbol tables, diagnostics and code generation: replaced by the small datatypes above.
- In-place rewriting of IR: ops are values, so a rewrite builds new ops; renaming stands for replaceAllUsesWith, and erasure for dropping an op.
- Globalize.CloneAll: clones are identified by their monomorphization; the names and visibility set before they are rewritten are left out.
- Globalize.GlobalizeObjectGraph: does not give clones their printed names and visibility, because printed names of specialisations need not be unique; rewriting of function types is implied by the parameters.
- Monomorphize.ConformsMeans: users are looked up from the ops, not from the values, which is the same for code whose operands are in scope.
- Object graph: values other than modules (lists, tuples) do not contain modules.
- EndToEnd.GlobalizationPreservesAnswers: a tensor holds numbers; an initial object built from other objects is seen with the references in it left out, and slots are not accessed from outside.
- InlineGlobalSlots.InliningPreservesRuns: which ops may touch such tensors is given by sets of operand positions, and where the tensors go by sets of variables and slots, which are not computed.
- Value-semantics passes: blocks without nested regions; static sizes and dtypes, and the casts that only change them; dead-code removal by the greedy driver.
- TypeInference.InferFunctionTypes: the signature of the function itself is not rewritten after its values.
- CPA.ResolveTypeNode: the candidate types of each variable are a parameter, because the member propagation of the CPA context and its hash-consing are not part of this model.
- Broadcast.ConvertElementwise: the payload is a parameter; elements are integers.
- Convolution, pooling, matrix multiplication and linear lowerings of TorchToLinalg: fixed shape arithmetic.
- RefCount.Runtime.Run: one thread; handles nested inside other objects are ordinary handles.
- Buffer freeing at the end of an invocation and the runtime argument checks of Runtime.cpp.
- Metadata.LowerToLLVM: module-level tensor constants and the functions that MLIR's own lowerings declare (malloc, free) are not part of this model.
- Metadata.GetExternalArgInfo: extents past the rank, which the runtime leaves unwritten, are not part of the result; the element code is written but the runtime does not read it.
- Importer.IValueImporter.ImportIValue: names in error messages are not modelled, and the bodies of classes and functions are single ops.
- TypeSyntax.RoundTrip: works on tokens; which texts are keywords is a parameter, and nn.Module string escapes are left to the MLIR lexer.
- The node importer, function builder, class annotator and Python exporter: builders whose invariants are of the same kind as the importer's.
- isValidSubtype, canonicalisation patterns and folds of TorchOps.cpp.
