# Verified model of the TensorFlow C API and stream executor core

The project models the parts of TensorFlow 1.0 in which several functions, or several threads, have
to agree with each other, and proves what they are for. All statements are over every input, every
schedule or every run; nothing is bounded by a fuel or a size of the model's own.

**While loops (`tensorflow/c/c_api.cc`).** `TF_NewWhile`, `CopyGraph` and `TF_FinishWhile` are a small
compiler: a condition graph and a body graph become Enter, Merge, Switch, NextIteration and Exit nodes
and two renamed copies.
- `Dataflow` is the target machine: live and dead tokens, frames and iterations, nodes that fire in any
  order. `Acyclic` is the independent meaning of a graph: evaluation by recursion. `Hosted` extends it to
  a graph that lives, renamed, inside another one.
- `Splices` relates a copy in iteration `k` to a run of the source graph, step by step.
- `WhileLoops`, `LoopTheorems` and `LoopBounds` prove, for every schedule, what a lowered loop computes,
  what every output of its two copies carries, and which activations it can reach. `Levels` gives nesting
  levels that lowering keeps.
- `GraphApi`, `LoopNames`, `WhileBuilder` and `FinishWhile` are the imperative builder: a graph object
  with a node list and a name map, every early return, and the generated names.
- `WhileTheorem`, `WhileTermination` and `CallTheorems` put the two together: if the call succeeds, the
  parent graph computes `body^K(init)` and comes to rest. `NestedLoops` and `NestedTermination` do the
  same for a body that contains a finished loop; `Tainted` tells from the source loop what stays dead in it
  when the body is not entered.
- `BasicLoop` and `NestedTest` apply the theorems to the loops of `tensorflow/c/c_api_test.cc`, for all
  inputs; `ConstantBody` and `EndlessLoop` are about a loop that the lowering gets wrong. `TestGraphs` holds
  what they share.

**Graph and sessions (`tensorflow/c/c_api.cc`).** `GraphApi` keeps the name map and the node list in
agreement and specifies traversal; `Sessions` and `GraphLife` are state machines whose steps are the
sections under a lock, for incremental extension and for deferred deletion.

**Byte and attribute formats (`tensorflow/c/c_api.cc`).** `StringCodec` (TF_STRING tensors) and
`AttrLists` (string and shape lists in caller storage).

**Stream executor (`tensorflow/stream_executor`).** `TensorLayout` (layouts, strides, addressing),
`Occupancy` (occupancy and the register search), `TemporaryMemory` and `TemporaryRuns` (the ledger of
temporary memory under threads), `SubStreams` (the pool), `KernelArgs` (packing and iteration) and
`PluginRegistries` (defaults and lookups). `Division` holds the arithmetic that several of them share.

## What the code does and does not keep

Some properties that one might expect hold only under a condition, which is proved to be the exact one.
- A lowered loop stays within the rounds of the source loop if and only if every body output depends on a
  body input (`WhileStopsIff`); otherwise every run can be continued past the end (`WhileRunsOn`), as in
  "x := 20; while (x < 10) x := 5" (`ConstantBodyRunsOn`), whose graph never comes to rest
  (`ConstantBodyNeverRests`). The control dependency that guards constants of
  the body is on the Switch node, which also runs in the last iteration (`tensorflow/c/c_api.cc:1901-1902`).
- For the same reason a constant in the body of an outer loop is live when the body is not entered, and an inner
  loop that starts from it runs (`RestWithin`). `NestDepends` excludes outer outputs that depend on nothing dead
  then (`BodyNotEntered`).
- A failed `TF_FinishWhile` leaves the parent graph alone if and only if a field is unset or the first
  Enter node is taken or refused (`FinishWhileLoop`, `MadeNothing`); otherwise the nodes before the first
  refusal stay (`TakenMergeStays`), as the disabled check in `tensorflow/c/c_api_test.cc:1226-1228` suspects.
- The register search is exact for all devices with a given warp size and granularity if and only if the
  granularity is a multiple of the warp size or the step is 1 (`SearchExact`, `SearchMisses`); with a
  granularity below the warp size it divides by zero (`SearchTraps`).
- Temporary memory is finalized by its owners only if and only if no handle is destroyed or finalized
  while its address carries another unfinalized record (`OwnersOnlyIff`, `StaleDestructorFrees`):
  `MarkFinalized` ignores its generation argument.
- `BlockHostUntilDone` marks sub-streams in use as available: afterwards the clients can be kept from sharing
  a sub-stream if and only if no lease was out at the call (`BlockSafeIff`).
- `BlockHostUntilDone` waits for itself if and only if a sub-stream in use has failed or fails while being
  waited for: the error flag is set under the lock that the call holds. A sub-stream that could not be set up
  passes the check meant for it and has this effect (`FailedSubStreamHangs`).

`BlockHostUntilDone` frees finalized temporaries before it waits for the stream, and the model keeps that order.

## Model

| member | source | states |
|---|---|---|
| `WhileTheorem.WhileComputes` | tensorflow/c/c_api.cc:2011-2087 | If TF_FinishWhile succeeds on acyclic graphs whose body outputs depend on the body inputs, and the source loop stops after K rounds, then under every schedule Exit i can carry only body^K(init)[i], and carries it at rest. |
| `WhileTheorem.WhileIterates` | tensorflow/c/c_api.cc:2011-2087 | Under every schedule Merge i carries in iteration k only body^k(init)[i], for k up to K, and at rest every one of these iterations took place. |
| `WhileTheorem.WhileCondOutputs` | tensorflow/c/c_api.cc:1878-1914 | Substitution in the loop: every output of the copied condition carries in iteration k exactly the evaluation of the source output on the loop variables of iteration k, and carries it at rest. |
| `WhileTheorem.WhileBodyOutputs` | tensorflow/c/c_api.cc:1878-1914 | The same for every output of the copied body; in the last iteration outputs that depend on an input are dead and the others carry their value. |
| `CallTheorems.CopyComputes` | tensorflow/c/c_api.cc:1878-1914 | Substitution at top level: any output of the copy, replaced inputs included, denotes the evaluation of the source output with each input bound to the value of its replacement, whatever node that is. |
| `CallTheorems.CopyGraphComputes` | tensorflow/c/c_api.cc:1878-1914 | The call: if CopyGraph succeeds, the outputs it returns denote the evaluations of the requested source outputs in the new graph. |
| `CallTheorems.FinishWhileComputes` | tensorflow/c/c_api.cc:2011-2099 | The call: if TF_FinishWhile succeeds, the outputs it returns denote the final values of the source loop in the new graph. |
| `WhileTermination.WhileTerminates` | tensorflow/c/c_api.cc:2011-2087 | No schedule of the graph with the loop is longer than the activations of the parent and of K+1 rounds allow, and every run goes on to one at rest with all loop outputs delivered. |
| `WhileTermination.WhileRunsOn` | tensorflow/c/c_api.cc:1901-1902 | If a body output does not depend on a body input, every run goes on into the iteration after the one in which the condition became false, and no run longer than the rounds of the source loop allow has stayed out of it. |
| `WhileTermination.WhileStopsIff` | tensorflow/c/c_api.cc:1901-1902 | No reachable state goes past the last iteration of the source loop if and only if every body output depends on a body input. |
| `LoopBounds.LoopWithin` | tensorflow/c/c_api.cc:2011-2087 | With a loop that stops, only the activations of the parent, of the control nodes in K+1 iterations and of the source graphs in each iteration ever happen; nested frames included. |
| `LoopBounds.LoopRunsOn` | tensorflow/c/c_api.cc:1901-1902 | A body that puts out a live value without being entered: every run goes on to one in which a variable entered the iteration after the last, and longer runs than the bounds allow have done so. |
| `LoopBounds.WithinBoundsRuns` | tensorflow/core/common_runtime/executor.cc:1883-1968 | A run is no longer than the number of possible activations. |
| `LoopBounds.WithinRests` | tensorflow/core/common_runtime/executor.cc:1883-1968 | If finitely many activations are possible, every run can be continued to one in which nothing can fire. |
| `LoopBounds.DeadWithin` | tensorflow/core/common_runtime/executor.cc:1920-1968 | A lowered loop whose inputs are never live skips each node at most once. |
| `LoopBounds.SomeDeadWithin` | tensorflow/core/common_runtime/executor.cc:1920-1968 | A lowered loop some of whose inputs are never live skips each dead node at most once and otherwise runs only what it runs when all inputs are live. |
| `LoopBounds.AlikeRun` | tensorflow/core/common_runtime/executor.cc:1883-1968 | If what is not dead reads from nothing dead, but for waiting Merge nodes, a run without its dead nodes is a run of the same graph with other values fed to the dead nodes. |
| `ConstantBody.ConstantBodyRunsOn` | tensorflow/c/c_api.cc:1901-1902 | A loop with a constant body whose source stops after no round: the call succeeds, and every run of the finished graph goes on into a second iteration. |
| `ConstantBody.ConstantBodyNeverRests` | tensorflow/c/c_api.cc:1901-1902 | The source loop "x := 20; while (x < 10) x := 5" stops at once, and no reachable state of the finished graph is at rest. |
| `EndlessLoop.NeverRests` | tensorflow/c/c_api.cc:1901-1902 | A Merge, a comparison, a Switch and a constant under its control, wired as in that loop: whatever the start value, no reachable state is at rest. |
| `WhileTheorem.BackEdgesResolve` | tensorflow/c/c_api.cc:1804-1826 | After success the second input of every Merge names the NextIteration node of the same index, which is new, and a closed parent graph stays closed. |
| `WhileTheorem.GraphDenotes` | tensorflow/c/c_api.cc:1878-1914 | An acyclic graph fed with values puts out, under every schedule, what recursive evaluation gives. |
| `WhileTheorem.BuiltLoopRuns` | tensorflow/c/c_api.cc:2011-2087 | The nodes added by a successful call form a loop with the structure and the iteration values that the loop theorems require. |
| `WhileTheorem.BuiltValid` | tensorflow/c/c_api.cc:2011-2087 | The nodes added by a successful call form a loop with the iteration values of the source loop, whether or not its outputs depend on its inputs. |
| `WhileTheorem.LoopCloses` | tensorflow/c/c_api.cc:2011-2087 | Every input of every node of the lowered loop is in the graph. |
| `WhileTermination.AcyclicWithin` | tensorflow/core/common_runtime/executor.cc:1883-1968 | An acyclic graph runs each node at most once, at top level. |
| `BasicLoop.TestLoopComputes` | tensorflow/c/c_api_test.cc:1288-1337 | The loop of the repository's own test on 32-bit integers, for all inputs from which it stops: the call succeeds, every run is bounded and goes on to one at rest with the last values on the two outputs, and no other token can appear there. |
| `BasicLoop.TestLoopStops` | tensorflow/c/c_api_test.cc:1288-1337 | The premises of the while theorems are met by that test, constant in the body and passed-through variable included. |
| `BasicLoop.StepsAreTrace` | tensorflow/c/c_api_test.cc:1288-1337 | Evaluating condition and body round by round gives input1 += input2 + 1 while input1 < input2, with wrap-around. |
| `BasicLoop.SmallStops` | tensorflow/c/c_api_test.cc:1288-1337 | From inputs for which no addition wraps around the loop stops. |
| `BasicLoop.TestValues` | tensorflow/c/c_api_test.cc:1333-1336 | From -9 and 2 the loop ends with 3. |
| `BasicLoop.TakenMergeStays` | tensorflow/c/c_api.cc:2021-2038 | A node named like the first Merge makes the call fail and leaves exactly the two Enter nodes in the parent graph. |
| `BasicLoop.TakenEnterLeavesNothing` | tensorflow/c/c_api.cc:2021-2028 | A node named like the first Enter makes the call fail and leaves nothing. |
| `NestedLoops.NestedComputes` | tensorflow/c/c_api_test.cc:1339-1435 | A loop whose body contains a finished loop: under every schedule the outer outputs can carry only the final values of the outer source loop, each round of which runs the inner source loop to its end, and carry them at rest. Premises (`NestDepends`): the outputs of the inner body depend on its inputs; the tainted inner variables start from what depends on an outer body input and get from the inner body what depends on a tainted variable or on a condition that does; every outer body output depends on an outer body input or on an inner output that is tainted or guarded by a tainted condition. Inner variables may start from constants. |
| `NestedTermination.NestTerminates` | tensorflow/c/c_api_test.cc:1339-1435 | Total correctness for nested loops: runs are bounded by the parent and the rounds of both loops, and every run goes on to one at rest with the final values delivered. Premises: those of NestedComputes, and that the body stays within a finite set of activations when it is not entered, which DeadBodyWithin and PartlyDeadWithin give. |
| `NestedLoops.BodyEntered` | tensorflow/c/c_api_test.cc:1373-1425 | A body that contains a loop puts out what its nodes evaluate to with the outputs of the inner loop bound to its final values. |
| `NestedLoops.BodyNotEntered` | tensorflow/c/c_api_test.cc:1373-1425 | Under the premises of NestedComputes the outputs of a body that is not entered stay dead, although an inner loop with a variable that starts from a constant may run in it. |
| `NestedLoops.AllStartsDepend` | tensorflow/c/c_api_test.cc:1373-1425 | The premises of NestedComputes hold if every inner variable starts from what depends on an outer body input and all inner and outer body outputs depend on inputs or inner outputs. |
| `NestedTermination.DeadBodyWithin` | tensorflow/c/c_api_test.cc:1373-1425 | If every inner variable starts from what depends on an outer body input, a body that is not entered skips each of its nodes at most once. |
| `NestedTermination.PartlyDeadWithin` | tensorflow/c/c_api.cc:1900-1902 | If inner variables start from constants in part, a body that is not entered stays within the activations of an entered body whose inner loop stops: what is not dead runs as it would run there. Every inner variable that starts from what depends on an outer body input has to be tainted. |
| `Tainted.TaintConsistent` | tensorflow/c/c_api.cc:2011-2087 | Which nodes of a lowered loop stay dead can be told from the source loop: each node with a dead role has an input that makes it so, each dead Merge has two; copies that read replaced inputs only depend on the first variable through the pivot. |
| `Tainted.TaintComplete` | tensorflow/c/c_api.cc:2011-2087 | The converse: a node without a dead role reads from no node that has one, but for a Merge that waits for the next iteration. |
| `NestedTest.TestNestComputes` | tensorflow/c/c_api_test.cc:1339-1435 | The nested loop of the repository's own test on 32-bit integers, and its variant in which the inner variable starts from 0, for all inputs from which both loops stop: the call succeeds, every run is bounded and goes on to one at rest with the last values on the outputs. |
| `NestedTest.TestNestStops` | tensorflow/c/c_api_test.cc:1339-1435 | The premises of the nested theorems are met by that test and by the variant. |
| `NestedTest.RestWithin` | tensorflow/c/c_api_test.cc:1373-1425 | Not entered, the body of the test skips each node once; in the variant the inner counter runs to its end. |
| `NestedTest.TestValues` | tensorflow/c/c_api_test.cc:1431-1434 | From 0 and 0 the two loops end with 8 and 3; in the variant, with 6 and 4. |
| `LoopTheorems.LoopComputes` | tensorflow/c/c_api.cc:2011-2087 | A lowered loop, for any condition and body that denote values, computes the last value of each loop variable under every schedule; NestedComputes discharges this for a body that contains a loop. |
| `LoopTheorems.MergeCarries` | tensorflow/c/c_api.cc:2031-2038 | The only token Merge i can put out in iteration k is the value of variable i after k rounds; at rest all iterations have run. |
| `LoopTheorems.CondOutput` | tensorflow/c/c_api.cc:1878-1914 | For any source graphs: an output of the copied condition carries in iteration k what the source output denotes in that iteration, and at rest it does so for every k. |
| `LoopTheorems.BodyOutput` | tensorflow/c/c_api.cc:1878-1914 | The same for the copied body, where an output that is never live in the source carries dead tokens only. |
| `LoopTheorems.LoopStops` | tensorflow/c/c_api.cc:2011-2087 | No node of the loop runs in an iteration after the one where the condition fails. |
| `Levels.LevelledFrameSafe` | tensorflow/core/common_runtime/executor.cc:1920-1968 | If nodes can be given nesting levels that agree along edges, no Exit or NextIteration ever runs outside a frame. |
| `Levels.LevelRun` | tensorflow/core/common_runtime/executor.cc:1883-1968 | In a levelled graph every node runs exactly as deep as its level, under every schedule. |
| `Levels.LoopLevelled` | tensorflow/c/c_api.cc:2011-2087 | Lowering a loop keeps levels, for source graphs that contain loops themselves, entered or not. |
| `LoopTheorems.LoopStaysDead` | tensorflow/c/c_api.cc:2011-2087 | A set of loop nodes, each of which has an input in the set (a Merge both, an Enter a never-live loop input), stays dead in every run, so that its Exit nodes never put out a live token. |
| `LoopTheorems.LoopReads` | tensorflow/c/c_api.cc:2021-2086 | Every input of a loop node is a loop node or a loop input. |
| `WhileLoops.StepInvariant` | tensorflow/c/c_api.cc:2011-2087 | Every firing keeps the loop invariant: entries carry the iteration values and both copies simulate runs of their source graphs. |
| `WhileLoops.RunInvariant` | tensorflow/c/c_api.cc:2011-2087 | The loop invariant holds after every run. |
| `WhileLoops.IterationRan` | tensorflow/c/c_api.cc:2011-2087 | At rest, every iteration up to the last has run its Merge and Switch nodes. |
| `Splices.CopyDelivers` | tensorflow/c/c_api.cc:1878-1914 | Simulation step of the substitution results: while a copy simulates its source runs, a token on an output of the copy is a token on the source output in the run of that iteration. |
| `Splices.SourceDelivers` | tensorflow/c/c_api.cc:1878-1914 | The converse: a token on a source output is on the corresponding output of the copy. |
| `Splices.CopyFires` | tensorflow/c/c_api.cc:1878-1914 | A firing of a copied node is a firing of its source node in the simulated run. |
| `Splices.SourceFires` | tensorflow/c/c_api.cc:1878-1914 | A source node that can fire can fire in the copy. |
| `Splices.CopyStep` | tensorflow/c/c_api.cc:1878-1914 | A step of the copy is matched by a step of the source run and keeps the simulation. |
| `Splices.InputStep` | tensorflow/c/c_api.cc:1895-1899 | A replacing output that fires is matched by the placeholder that it replaces. |
| `Splices.OtherStep` | tensorflow/c/c_api.cc:1878-1914 | Steps of unrelated nodes keep the simulation. |
| `Splices.SourceQuiescent` | tensorflow/c/c_api.cc:1878-1914 | When the machine is at rest, each simulated source run is at rest. |
| `Acyclic.AcyclicMeaning` | tensorflow/core/common_runtime/executor.cc:2363-2450 | An output of an acyclic graph denotes its evaluation if it depends on no dead input, and is never live otherwise. |
| `Hosted.HostedMeaning` | tensorflow/core/common_runtime/executor.cc:2363-2450 | An acyclic graph that lives in another one, renamed, with its inputs replaced and an optional control input: an output denotes its evaluation, or is never live if it depends on a dead input. |
| `Hosted.HostedDead` | tensorflow/core/common_runtime/executor.cc:2363-2450 | In such a graph an output that depends on an input known to be never live is never live, whatever the other inputs do. |
| `Hosted.ControlDenotes` | tensorflow/core/common_runtime/executor.cc:2363-2450 | A node with an output that denotes a value passes on control. |
| `Acyclic.DeadIffDepends` | tensorflow/core/common_runtime/executor.cc:2363-2450 | With all inputs dead an output stays dead if and only if it depends on an input. |
| `Acyclic.AcyclicRests` | tensorflow/core/common_runtime/executor.cc:1883-1968 | An acyclic graph has a run that comes to rest. |
| `Acyclic.AcyclicFrameSafe` | tensorflow/core/common_runtime/executor.cc:1920-1968 | An acyclic graph uses no frames. |
| `Acyclic.KernelDenotes` | tensorflow/core/common_runtime/executor.cc:2363-2450 | A kernel whose inputs denote values denotes its result on them. |
| `Acyclic.KernelDead` | tensorflow/core/common_runtime/executor.cc:2363-2450 | A kernel with an input that is never live is never live. |
| `Acyclic.PlaceholderDenotes` | tensorflow/core/common_runtime/executor.cc:2363-2450 | A placeholder denotes the value it is fed, or is never live. |
| `Dataflow.RestrictReachable` | tensorflow/core/common_runtime/executor.cc:1883-1968 | A run of a larger graph, seen on the old nodes, is a run of the old graph. |
| `Dataflow.DenotesExtends` | tensorflow/core/common_runtime/executor.cc:1883-1968 | What a graph computes is not changed by nodes added to it. |
| `Dataflow.NeverLiveExtends` | tensorflow/core/common_runtime/executor.cc:1883-1968 | Outputs that are never live stay so when nodes are added. |
| `FinishWhile.NewWhile` | tensorflow/c/c_api.cc:1964-2006 | One placeholder per input in each graph, named "cond_input<i>" and "body_input<i>", and nothing else set; an error for no inputs. |
| `FinishWhile.CreateAll` | tensorflow/c/c_api.cc:1792-1864 | Nodes are created in order up to the first one with a taken name or refused by the registry, and exactly those. |
| `FinishWhile.CopyGraph` | tensorflow/c/c_api.cc:1878-1914 | Succeeds iff prefix, targets, names, inputs, returned outputs and nodes are all in order; then exactly the renamed copies are added and the remapped outputs returned; otherwise no op and no name is added. |
| `FinishWhile.ImportDemands` | tensorflow/c/c_api.cc:1878-1914 | What a copy under "<name>/cond" or "<name>/body" demands, written out: a valid prefix below which there is no node, existing replacements, different valid names, reads and returns that exist, nodes that the registry accepts. |
| `FinishWhile.NodeNameIs` | tensorflow/core/graph/graph_constructor.cc:46-54 | Letters, digits and dots make a node name, and after the first character also dashes, slashes and underscores. |
| `FinishWhile.CreateFamily` | tensorflow/c/c_api.cc:2021-2086 | One group of control nodes: creates those before the first that the graph before the whole call refuses, whatever other groups were added. |
| `FinishWhile.CopyFamily` | tensorflow/c/c_api.cc:2040-2072 | One copied graph within the lowering: succeeds iff its prefix was unused before the call and the source imports. |
| `FinishWhile.BuildLoop` | tensorflow/c/c_api.cc:2011-2087 | The whole lowering: the ops grow by exactly the nodes, written out by LoopNodes and LoopCopies, before the first refusal, a number told by the graph before the call; all of them iff Buildable; none iff the first Enter node is taken or refused. |
| `FinishWhile.FinishWhileLoop` | tensorflow/c/c_api.cc:2011-2099 | As BuildLoop, after the checks for unset fields in the order of the code, which leave the graph alone. After a success output i is "<name>/exit<i>":0, and lookup of "<name>/cond/<n>" and "<name>/body/<n>" finds the copies of the nodes n. |
| `FinishWhile.CopiesFound` | tensorflow/c/c_api.cc:2040-2068 | In a graph that ends with the nodes of a loop, lookup by name finds every copied node under its prefix. |
| `FinishWhile.MadeNothing` | tensorflow/c/c_api.cc:2021-2028 | Corollary of BuildLoop's contract and the count `Made`: a call with all fields set leaves the ops unchanged if and only if the first Enter node has a taken name or is refused. |
| `FinishWhile.MergeTakenLeavesEnters` | tensorflow/c/c_api.cc:2021-2038 | Corollary of BuildLoop's contract and the count `Made`: if the Enter nodes can be created and the first Merge cannot, the call fails and leaves exactly the Enter nodes. |
| `FinishWhile.FreshNameBuilds` | tensorflow/c/c_api.cc:2021-2086 | If no name in the parent starts with the loop name and a slash, no generated name collides, for any number of variables. |
| `FinishWhile.LoopDefsDistinct` | tensorflow/c/c_api.cc:2021-2086 | All nodes of a loop have different names, all below the name of the loop. |
| `FinishWhile.BuildableApart` | tensorflow/c/c_api.cc:2021-2086 | A loop that gets built adds only names that are new to the parent. |
| `FinishWhile.OtherFamilies` | tensorflow/c/c_api.cc:2021-2086 | Whether the names of one group are taken does not depend on the groups added before it. |
| `WhileBuilder.NameDeterminesRole` | tensorflow/c/c_api.cc:2021-2086 | A generated name belongs to one role only. |
| `WhileBuilder.LoopWellBuilt` | tensorflow/c/c_api.cc:2011-2087 | Usable condition and body graphs give a well-formed loop: every role is played by exactly one node. |
| `WhileBuilder.LoopLowered` | tensorflow/c/c_api.cc:2011-2087 | The parent graph plus the created nodes is the parent with the loop lowered into it. |
| `WhileBuilder.LoopNodes` | tensorflow/c/c_api.cc:2019-2085 | For every loop and every variable: the names "<name>/enter<i>", "/merge<i>", "/switch<i>", "/next<i>" and "/exit<i>", the operation and the inputs of the five control-flow nodes, and where they are in the order of creation; Exit reads output 0 of Switch. |
| `WhileBuilder.LoopCopies` | tensorflow/c/c_api.cc:2040-2068 | The copies are named "<name>/cond/<node>" and "<name>/body/<node>" and come after the Merge nodes and after the Switch nodes, in the order of the copied graphs. |
| `WhileBuilder.CopiesRead` | tensorflow/c/c_api.cc:1890-1899 | A copy reads Merge output 0 (condition) or Switch output 1 (body) in place of input i, and otherwise the copy of the node that its source reads. |
| `WhileBuilder.CopiedNode` | tensorflow/c/c_api.cc:1900-1902 | A copy has the operation and the inputs of its source, and one control input more, from "<name>/merge0" or "<name>/switch0", exactly if all inputs of its source are replaced or there are none. |
| `LoopNames.DecimalInjective` | tensorflow/c/c_api.cc:2021-2086 | Different indices give different names. |
| `LoopNames.DecimalDigits` | tensorflow/c/c_api.cc:2022-2084 | Indices are written in decimal: digit k from the right counts 10^k, and there is no leading zero. |
| `LoopNames.NamesApart` | tensorflow/c/c_api.cc:2021-2086 | Generated names are equal only for the same group and the same rest. |
| `LoopNames.PrefixApart` | tensorflow/c/c_api.cc:2040-2072 | A name of one group never starts with the prefix of another. |
| `GraphApi.TFGraph.constructor` | tensorflow/c/c_api.cc:730-745 | A new graph holds the two sentinels and no ops. |
| `GraphApi.TFGraph.FinishOperation` | tensorflow/c/c_api.cc:1147-1178 | Appends one op and its name, or fails for a taken name or a refused node and changes nothing; keeps index and nodes in agreement. |
| `GraphApi.TFGraph.AdoptImported` | tensorflow/c/c_api.cc:1725-1755 | All imported nodes are appended and entered into the name map, which stays in agreement with the nodes. |
| `GraphApi.TFGraph.AbandonImported` | tensorflow/c/c_api.cc:1725-1755 | A failed import leaves empty ids and no names. |
| `GraphApi.TFGraph.OperationByName` | tensorflow/c/c_api.cc:1632-1640 | Finds the op with this name, exactly when a scan of all nodes does; none is found only if no op has the name. |
| `GraphApi.TFGraph.NextOperation` | tensorflow/c/c_api.cc:1642-1663 | Moves to the next id in use, an op, or to the end; no op is passed over. |
| `GraphApi.IndexAgreesWithScan` | tensorflow/c/c_api.cc:730-770 | The name map finds what a scan from any position finds. |
| `GraphApi.IndexCounts` | tensorflow/c/c_api.cc:730-770 | The name map has as many entries as there are op nodes: names and op nodes correspond one to one. |
| `GraphApi.EnteredIndexed` | tensorflow/c/c_api.cc:1745-1755 | Entering imported nodes one by one keeps names and nodes in agreement. |
| `GraphApi.TraversalAscends` | tensorflow/c/c_api.cc:1642-1663 | A traversal with additions in between visits ids in strictly increasing order, so none twice. |
| `GraphApi.TraversalComplete` | tensorflow/c/c_api.cc:1642-1663 | A traversal that reached its end visited every op present when it began. |
| `Sessions.SentExactly` | tensorflow/c/c_api.cc:2203-2237 | In every run the accepted payloads of a session are, together, exactly the op nodes with ids from its start up to its counter, in id order, each once. |
| `Sessions.SentSince` | tensorflow/c/c_api.cc:2177-2231 | A session made for a graph has been sent all op nodes below its counter; one that was loaded with its graph, those added after it was loaded. |
| `Sessions.SeenIsSent` | tensorflow/c/c_api.cc:2203-2237 | After a successful call, and ever after, every op that was in the graph when the call took the graph lock has been sent. |
| `Sessions.RunGrows` | tensorflow/c/c_api.cc:2203-2237 | The graph and all counters only grow; a refused extension leaves the counter alone. |
| `Sessions.TFSession.Prepare` | tensorflow/c/c_api.cc:2203-2222 | The section under the graph lock collects exactly the ops from the counter to the end of the graph. |
| `Sessions.TFSession.Finish` | tensorflow/c/c_api.cc:2223-2235 | The counter moves iff the session accepted the payload. |
| `Sessions.TFSession.constructor` | tensorflow/c/c_api.cc:775-782 | The counter starts at the session start. |
| `GraphLife.TouchedAliveOnly` | tensorflow/c/c_api.cc:1624-1630 | In every interleaving nobody touches the graph or its lock after it was freed. |
| `GraphLife.FreedOnce` | tensorflow/c/c_api.cc:2186-2198 | The graph is freed once, by one thread, after deletion was requested and no session is left. |
| `GraphLife.FreedWhenDone` | tensorflow/c/c_api.cc:1624-1630 | When no call is under way the graph has been freed iff it and all its sessions were given up. |
| `GraphLife.GraphCounts.RequestDelete` | tensorflow/c/c_api.cc:1624-1630 | The caller has to free the graph iff nothing needs it any more. |
| `GraphLife.GraphCounts.DropSession` | tensorflow/c/c_api.cc:2186-2198 | As RequestDelete, for the end of a session. |
| `GraphLife.GraphCounts.AddSession` | tensorflow/c/c_api.cc:2103-2117 | One more session is counted. |
| `StringCodec.EncodeVarint64` | tensorflow/core/lib/core/coding.cc:110-120 | The loop writes the base-128 bytes, least significant first: byte i is v / 128^i % 128, with the continuation bit on all but the last, and no byte too many. |
| `StringCodec.VarintLength` | tensorflow/core/lib/core/coding.cc:127-134 | The length of the varint. |
| `StringCodec.VarintWritten` | tensorflow/core/lib/core/coding.cc:110-120 | Byte i of a varint is v / 128^i % 128, with the highest bit set on all bytes but the last, and there are as many bytes as the number needs. |
| `StringCodec.GetVarint64` | tensorflow/core/lib/core/coding.cc:166-182 | Reads up to the first byte below 128, at most ten bytes, and gives their bits modulo 2^64; fails exactly if ten bytes, or all bytes, have the continuation bit. |
| `StringCodec.VarintRoundTrip` | tensorflow/c/c_api.cc:252-270 | Reading an encoded length gives the length back, whatever follows. |
| `StringCodec.VarintFits` | tensorflow/core/lib/core/coding.cc:127-134 | Varints of 64-bit numbers have at most ten bytes. |
| `StringCodec.StringEncodedSize` | tensorflow/c/c_api.cc:272-274 | The size of the encoding, modulo 2^64. |
| `StringCodec.StringEncode` | tensorflow/c/c_api.cc:234-250 | Writes the length-prefixed string iff it fits and its size does not wrap around. |
| `StringCodec.StringDecode` | tensorflow/c/c_api.cc:252-270 | Reads one string; malformed prefixes and lengths beyond the buffer are told apart. |
| `StringCodec.StringRoundTrip` | tensorflow/c/c_api.cc:234-270 | Decoding an encoded string, whatever follows, gives the string and stays inside the buffer. |
| `StringCodec.EncodeStrings` | tensorflow/c/c_api.cc:427-467 | The buffer is the offset table followed by the encoded strings; the size computed first is exact and no string fails to encode. |
| `StringCodec.TensorBytes` | tensorflow/c/c_api.cc:428-460 | Byte by byte: entry i of the table is, in eight bytes with the least significant first, the place of string i after the table, where its length and its characters are; the strings follow each other without gaps. |
| `StringCodec.DecodeStrings` | tensorflow/c/c_api.cc:392-425 | Succeeds exactly if every element decodes through the table, with all of them; otherwise fails as the first element that does not, or because the table does not fit. |
| `StringCodec.ElementCases` | tensorflow/c/c_api.cc:407-413 | An offset inside the data part is decoded there, one from its end up to 2^63 is malformed, and one with the highest bit set passes the signed comparison and leads outside. |
| `StringCodec.TensorRoundTrip` | tensorflow/c/c_api.cc:392-467 | Decoding an encoded tensor succeeds with the same strings and no read outside the buffer. |
| `AttrLists.GetAttrStringList` | tensorflow/c/c_api.cc:1447-1471 | Delivers the first min(max_values, list size) strings: each at its pointer with its length and characters, one after the other from the start of the storage, and nothing else written; fails exactly if they do not fit, after delivering the longest prefix that does. |
| `AttrLists.GetAttrShapeList` | tensorflow/c/c_api.cc:1512-1541 | The same for shapes: each known shape at its pointer with its number of dimensions, -1 and no storage for an unknown rank. |
| `AttrLists.StringListTotalSize` | tensorflow/c/c_api.cc:1361-1363 | The total size is the length of the concatenation; -1 for an empty list. |
| `AttrLists.ShapeListTotalSize` | tensorflow/c/c_api.cc:1368-1372 | The total size counts the dimensions of known ranks; -1 for an empty list. |
| `AttrLists.TotalSuffices` | tensorflow/c/c_api.cc:1349-1375 | Storage of the total size suffices for any number of requested items. |
| `AttrLists.DeliveredItem` | tensorflow/c/c_api.cc:1447-1541 | In delivered storage each item is found at its pointer with its exact contents, and slices are contiguous from 0. |
| `TensorLayout.ReorderDims` | tensorflow/stream_executor/dnn.cc:173-204 | The loop rearranges batch, depth and spatial parts from one layout to another. |
| `TensorLayout.ReorderComposes` | tensorflow/stream_executor/dnn.cc:173-204 | Rearranging a to b to c equals a to c. |
| `TensorLayout.ReorderInverts` | tensorflow/stream_executor/dnn.cc:173-204 | Rearranging there and back is the identity. |
| `TensorLayout.ReorderPermutes` | tensorflow/stream_executor/dnn.cc:173-204 | Rearranging keeps the multiset. |
| `TensorLayout.PackProduct` | tensorflow/stream_executor/dnn.cc:211-217 | The product of the dimensions is the same in every layout. |
| `TensorLayout.ComputeFullDims` | tensorflow/stream_executor/dnn.cc:211-217 | The dimensions in the requested layout, written out for each of the four: count, feature maps and spatial sizes in the places that the layout names. |
| `TensorLayout.PhysicalStrides` | tensorflow/stream_executor/dnn.cc:219-228 | The last stride is 1 and each other one is the next stride times the next dimension. |
| `TensorLayout.ComputeFullStrides` | tensorflow/stream_executor/dnn.cc:219-228 | In whatever layout is asked for, the strides of image, feature map and position are those of the stored layout, given in closed form. |
| `TensorLayout.NodesPerFeatureMap` | tensorflow/stream_executor/dnn.cc:288-294 | The product of the spatial dimensions. |
| `TensorLayout.ElementCount` | tensorflow/stream_executor/dnn.cc:300-302 | count * feature maps * product of the spatial sizes, which is the product of full_dims in every layout. |
| `TensorLayout.RowMajorInjects` | tensorflow/stream_executor/dnn.cc:219-228 | Row-major addressing is injective on the index box and stays below the product. |
| `TensorLayout.RowMajorCovers` | tensorflow/stream_executor/dnn.cc:219-228 | Every number below the product is an address. |
| `TensorLayout.AddressIndependent` | tensorflow/stream_executor/dnn.cc:219-228 | A logical element has the same address in every requested layout. |
| `TensorLayout.LogicalAddress` | tensorflow/stream_executor/dnn.cc:211-228 | The address of feature map d of image b at position sp in closed form, for each stored layout. |
| `TensorLayout.AddressInjects` | tensorflow/stream_executor/dnn.cc:211-228 | For 0 <= b < count, 0 <= d < feature maps and positions inside the spatial sizes: addresses lie in [0, ElementCount) and different elements have different addresses, in every layout. |
| `TensorLayout.AddressStored` | tensorflow/stream_executor/dnn.cc:211-228 | Addresses of the box are in [0, ElementCount). |
| `TensorLayout.AddressCovers` | tensorflow/stream_executor/dnn.cc:211-228 | Every number in [0, ElementCount) is the address of an image, a feature map and a position. |
| `Occupancy.OccupancyExact` | tensorflow/stream_executor/device_description.cc:163-213 | The result is the largest block count within the limits on blocks, rounded registers, rounded shared memory and threads; traps iff no registers or no threads. |
| `Occupancy.BlocksFit` | tensorflow/stream_executor/device_description.cc:185-212 | The same with warps, registers and shared memory of a block given as numbers: least multiples of the allocation units, bounded by the limits on blocks, registers, shared memory and threads. |
| `Occupancy.RequiredFields` | tensorflow/stream_executor/device_description.cc:167-183 | The seven fields without which the occupancy is 0; it is 0 too for more registers per thread than the device allows. |
| `Occupancy.OccupancyAntitone` | tensorflow/stream_executor/device_description.cc:163-213 | Occupancy does not grow when registers, shared memory or threads per block grow. |
| `Occupancy.RegisterLimit` | tensorflow/stream_executor/device_description.cc:215-232 | The loop equals the recursive search, conversions to int and back included. |
| `Occupancy.SearchExact` | tensorflow/stream_executor/device_description.cc:215-232 | With a granularity that is a multiple of the warp size, or a step of 1, the search gives the greatest register count that reaches the target, or 0. |
| `Occupancy.SearchMisses` | tensorflow/stream_executor/device_description.cc:215-232 | For every other warp size and granularity there is a device on which the search returns less than the best count. |
| `Occupancy.SearchTraps` | tensorflow/stream_executor/device_description.cc:215-232 | With a granularity below the warp size the search tests the limit and then divides by zero. |
| `Occupancy.SkipsOnlyFailures` | tensorflow/stream_executor/device_description.cc:215-232 | A failed candidate rules out every count that the next step passes over. |
| `Occupancy.SameAllocation` | tensorflow/stream_executor/device_description.cc:153-156 | All register counts within one step are rounded up to the same allocation. |
| `TemporaryRuns.Conservation` | tensorflow/stream_executor/temporary_memory_manager.cc:28-124 | In every run outstanding blocks are the recorded plus the pending ones, each once; allocations and frees of each address alternate and balance. |
| `TemporaryRuns.InsertIsFresh` | tensorflow/stream_executor/temporary_memory_manager.cc:108-115 | The freshness check before a record is made never fails. |
| `TemporaryRuns.DestructionFreesAll` | tensorflow/stream_executor/temporary_memory_manager.cc:28-35 | When the stream is destroyed only blocks of threads inside an allocation remain; all others were freed as often as allocated. |
| `TemporaryRuns.SweepIsAtomic` | tensorflow/stream_executor/temporary_memory_manager.cc:51-65 | Whatever other threads do meanwhile, a sweep removes exactly the records finalized when it began. |
| `TemporaryRuns.StatusMonotone` | tensorflow/stream_executor/temporary_memory_manager.cc:67-94 | Once an issued handle is finalized, or no longer allocated, it stays so, also when its address is used again. |
| `TemporaryRuns.HandleLife` | tensorflow/stream_executor/temporary_memory_manager.cc:66-91 | In every run a handle is allocated from the making of its record until a sweep erases the record of its address, finalized or not, and never again; it is finalized exactly if its address has been marked since, through whatever handle. |
| `TemporaryRuns.OwnersOnlyIff` | tensorflow/stream_executor/temporary_memory_manager.cc:37-49 | Throughout a run records are finalized through their own handles only, iff no action marks through a handle whose address carries another unfinalized record. |
| `TemporaryRuns.DisciplinedHandlesUsable` | tensorflow/stream_executor/temporary_device_memory.cc:24-66 | If handles are destroyed before their address is used again and finalized once, no check fails and an unfinalized handle names an outstanding block of its own. |
| `TemporaryRuns.StaleDestructorFrees` | tensorflow/stream_executor/temporary_device_memory.cc:24-28 | A run in which the destructor of an old handle makes a sweep free a block whose owner still uses it. |
| `TemporaryRuns.InvNext` | tensorflow/stream_executor/temporary_memory_manager.cc:28-124 | Every action of every thread keeps the accounting of blocks, the lock, the log and the generations. |
| `TemporaryMemory.TemporaryMemoryManager.constructor` | tensorflow/stream_executor/temporary_memory_manager.h:59-59 | No records; the generation counter starts anywhere. |
| `TemporaryMemory.TemporaryMemoryManager.InsertRecord` | tensorflow/stream_executor/temporary_memory_manager.cc:108-115 | A new generation, a record for the address, and a handle that no earlier handle equals. |
| `TemporaryMemory.TemporaryMemoryManager.MarkFinalized` | tensorflow/stream_executor/temporary_memory_manager.cc:37-49 | The record of the address is marked whatever its generation; fatal iff it must exist and does not; no generation and no other record changes, and no handle becomes or ceases to be allocated. |
| `TemporaryMemory.TemporaryMemoryManager.DeallocateFinalizedTemporaries` | tensorflow/stream_executor/temporary_memory_manager.cc:51-65 | Frees each finalized block once and removes exactly the finalized records. |
| `TemporaryMemory.TemporaryMemoryManager.ForceDeallocateAll` | tensorflow/stream_executor/temporary_memory_manager.cc:28-35 | Frees every recorded block once. |
| `TemporaryMemory.TemporaryMemoryManager.IsFinalized` | tensorflow/stream_executor/temporary_memory_manager.cc:67-83 | True unless the address carries an unfinalized record of this generation. |
| `TemporaryMemory.TemporaryMemoryManager.HasAllocated` | tensorflow/stream_executor/temporary_memory_manager.cc:85-94 | True exactly if the address has a record of this generation, finalized or not. |
| `SubStreams.StreamPool.GetOrCreateSubStream` | tensorflow/stream_executor/stream.cc:1442-1457 | Leases the first available sub-stream, or a new one, checked by the flag of the stream itself. |
| `SubStreams.StreamPool.ReturnSubStream` | tensorflow/stream_executor/stream.cc:1459-1468 | Makes the sub-stream available and changes no other; fatal iff it is not in the pool. |
| `SubStreams.ReturnedIsReused` | tensorflow/stream_executor/stream.cc:1442-1468 | A sub-stream that is returned is the next to be leased if none before it is available, and the pool stays as it is. |
| `SubStreams.StreamPool.BlockHostUntilDone` | tensorflow/stream_executor/stream.cc:4337-4363 | Waits for the sub-streams in use in order, then sweeps, then waits for the stream; never returns iff a sub-stream in use has failed or its wait fails, because CheckError then asks for the lock that the call holds. |
| `SubStreams.StreamPool.CheckError` | tensorflow/stream_executor/stream.h:1654-1660 | Clears the flag after a failed operation; returns iff the operation succeeded or the lock was free. |
| `SubStreams.FailedSubStreamHangs` | tensorflow/stream_executor/stream.cc:1450-1456 | A sub-stream whose set-up failed passes the check on the flag of its stream, is handed out, and makes the next blocking call on the stream hang. |
| `SubStreams.SafeIffWithheld` | tensorflow/stream_executor/stream.cc:1442-1468 | From a state with exclusive leases, every continuation without a blocking call stays exclusive if and only if no leased sub-stream is marked available. |
| `SubStreams.ReachableSafeIff` | tensorflow/stream_executor/stream.cc:1442-1468 | The same for every state that a stream can reach, blocking calls included. |
| `SubStreams.BlockSafeIff` | tensorflow/stream_executor/stream.cc:4346-4357 | After a blocking call every such continuation stays exclusive if and only if no lease was out at the call. |
| `SubStreams.BlockWithoutLeases` | tensorflow/stream_executor/stream.cc:4346-4357 | If nobody blocks with sub-streams out, leases stay exclusive and what is leased is not available. |
| `SubStreams.UnavailableIffLeased` | tensorflow/stream_executor/stream.cc:1442-1468 | If nobody blocks with sub-streams out, a sub-stream is unavailable exactly if a client has it, and one client only. |
| `SubStreams.PoolIsPeak` | tensorflow/stream_executor/stream.cc:1442-1468 | Then the pool is exactly as large as the largest number of sub-streams that were out at once. |
| `KernelArgs.PackAndIterate` | tensorflow/stream_executor/kernel.h:280-459 | Any list of at most kNumArgs arguments comes back from the iterator in order: values with address and size, device memory as a pointer-sized slot that holds the pointer, shared memory as a null address with its size; shared sizes add up modulo 2^64. |
| `KernelArgs.Collect` | tensorflow/stream_executor/kernel.h:279-331 | Iteration yields exactly the arguments added, in order. |
| `KernelArgs.KernelArgsArray.constructor` | tensorflow/stream_executor/kernel.h:397-400 | An empty list. |
| `KernelArgs.KernelArgsArray.AddArgument` | tensorflow/stream_executor/kernel.h:406-412 | Appends the argument and keeps all others in place. |
| `KernelArgs.KernelArgsArray.AddDeviceMemoryArgument` | tensorflow/stream_executor/kernel.h:415-422 | Appends a pointer kept in a slot of its own; no stored slot is overwritten. |
| `KernelArgs.KernelArgsArray.AddSharedBytes` | tensorflow/stream_executor/kernel.h:428-434 | Appends a shared argument with its index and adds to the total. |
| `KernelArgs.KernelArgsArray.NumberOfArguments` | tensorflow/stream_executor/kernel.h:438-440 | The number of arguments added. |
| `KernelArgs.KernelArgsArray.NumberOfSharedBytes` | tensorflow/stream_executor/kernel.h:443-445 | The sum of the shared sizes modulo 2^64. |
| `KernelArgs.KernelArgIterator.constructor` | tensorflow/stream_executor/kernel.h:282-296 | Stands before the first argument. |
| `KernelArgs.KernelArgIterator.HasNext` | tensorflow/stream_executor/kernel.h:299-299 | True iff an argument is left. |
| `KernelArgs.KernelArgIterator.Next` | tensorflow/stream_executor/kernel.h:304-326 | Gives the next argument of the interleaved list: a value as added, device memory through a slot that holds it, shared bytes with a null address; nothing at the end. |
| `KernelArgs.PutStores` | tensorflow/stream_executor/kernel.h:406-434 | A new argument finds its place and overwrites none of the others. |
| `KernelArgs.Located` | tensorflow/stream_executor/kernel.h:304-326 | The index under the shared cursor tells whether the next argument is shared. |
| `KernelArgs.PlacesApart` | tensorflow/stream_executor/kernel.h:406-434 | Two arguments of one kind never share a place. |
| `PluginRegistries.DefaultResolves` | tensorflow/stream_executor/plugin_registry.cc:105-176 | After any calls a non-null default names a plugin that resolves for its platform and kind. |
| `PluginRegistries.FirstStays` | tensorflow/stream_executor/plugin_registry.cc:69-86 | A registered factory is never replaced. |
| `PluginRegistries.PluginRegistry.constructor` | tensorflow/stream_executor/plugin_registry.cc:54-54 | Nothing registered. |
| `PluginRegistries.PluginRegistry.RegisterFactory` | tensorflow/stream_executor/plugin_registry.cc:69-86 | Succeeds exactly for a new id of this platform and kind, and then adds this factory; no other entry and no default changes. |
| `PluginRegistries.PluginRegistry.HasFactory` | tensorflow/stream_executor/plugin_registry.cc:146-176 | True iff the id resolves for the platform or for all platforms. |
| `PluginRegistries.PluginRegistry.SetDefaultFactory` | tensorflow/stream_executor/plugin_registry.cc:105-144 | Sets the default of this platform and kind exactly for a plugin that resolves; nothing else changes. |
| `PluginRegistries.PluginRegistry.GetFactory` | tensorflow/stream_executor/plugin_registry.cc:208-227 | The platform's own factory, else one for all platforms, else NOT_FOUND; for the default plugin FAILED_PRECONDITION without a default and never NOT_FOUND. |

## Left out

- Data types, number of outputs and shapes of nodes: a node is its operation and its inputs; which nodes the op registry accepts and how many outputs they have is the parameter `Registry`.
- The order in which an import creates nodes: the model keeps the order of the copied graph, while ImportGraphDef creates a node when its inputs exist; back edges aside, names and edges are the same.
- Control dependencies on the pivot: the model adds the edge to nodes whose inputs are all replaced or missing, as the importer does; the importer's second case (only back edges left) does not arise, because a Merge of an inner loop also reads its Enter.
- Conditionals inside a condition or body graph: `AcyclicSource` allows placeholders and kernels; Switch and Merge nodes outside loops are covered by the machine but not by `WhileComputes`.
- Nesting: `NestedComputes` is about one finished loop with acyclic graphs in the body of another; several loops side by side, or three levels, follow the same lemmas but are not stated.
- NestedComputes: an outer body output that depends neither on an outer body input nor on a dead inner output is excluded (`NestDepends`), as `WhileComputes` excludes constant outputs.
- BodyNotEntered: under the same premise.
- NestTerminates: a body that runs forever when it is not entered is excluded; an inner variable that starts from an outer input and is given a value by the inner body that does not depend on a tainted variable or condition is not covered by `PartlyDeadWithin`.
- FinishWhile.CopyGraph: reads of outputs that a node of the source graph does not have are left to the registry's judgement of the copied node; graphs built through the API have none.
- Dead exits: the executor remembers an Exit that is dead in the last iteration of its frame and propagates it to the parent when the frame ends, as happens to an inner loop in an outer round that is not entered; the machine passes a dead Exit nowhere, so its readers do not run where the executor would skip them. Statements about such outputs say that they are never live, and the bounds count their readers.
- The limit on parallel iterations of a frame and the order in which the executor picks ready nodes: the machine allows every order, so statements cover all of them.
- ValidateConstWhileParams and the freeing of parameters: `FinishWhileLoop` takes parameters as TF_NewWhile made them.
- Graph import from bytes, versions, device placement, function libraries, SavedModel contents.
- Session runs, fetches, partial runs and the inside of Session::Extend: it accepts a payload or refuses it and then changes nothing.
- Memory below the level of lock sections: locks are taken to exclude each other and to order memory.
- StringCodec.StringDecode: bytes that no encoder produced are covered only as far as "malformed" or "reads outside the buffer"; what a read outside gives is not modelled.
- StringCodec.EncodeStrings: the source counts strings with an `int` against a 64-bit size (`tensorflow/c/c_api.cc:432`, `:445`), so that from 2^31 strings on the counter overflows; the model counts without bound.
- StringCodec.TensorRoundTrip: tensors of 2^63 bytes or more are excluded, because offsets are compared as signed numbers; from 2^31 strings on the overflow above applies.
- Layouts: dimensions are mathematical integers; overflow of 64-bit products is not modelled.
- Occupancy.OccupancyExact: excludes devices with uninitialized fields and inputs for which a 64-bit product wraps around; `CalculateOccupancy` itself wraps, traps and returns 0 as the code does.
- TemporaryRuns: the generation counter does not wrap around; it starts at an arbitrary value, because the constructor does not set it.
- TemporaryRuns.DestructionFreesAll: a thread that is between allocation and insertion when the stream is destroyed keeps its block.
- AttrLists: attributes of other kinds, and the pointer checks on the caller's arrays, whose sizes are preconditions.
- PluginRegistries: the lookup by platform kind and the table of plugin names, which only forward.
- The `Then*` operations of streams, BLAS, DNN, FFT and RNG interfaces, device kernels, launch dimensions, caches and managers: forwarding or correct by inspection.
- Floating-point fields of descriptors.
