# tf2xla utilities, modelled in Dafny

This project models the graph-preparation helpers that TensorFlow's tf2xla
bridge runs before compiling a graph to XLA
(`tensorflow/compiler/tf2xla/tf2xla_util.cc`). It covers:

- **Configuration checks.** `ValidateConfig` checks the feed and fetch lists:
  each tensor id must be well formed, each feed shape valid, and each
  non-empty name unique within its list. No list may hold both `x` and
  `x_data`, and there must be at least one fetch.
- **Feed placeholders.** `AddPlaceholdersForFeeds` groups feeds by their
  `name:index` key, checks that each fed node exists, and settles the
  placeholder types. It appends one `PlaceholderV2` node per key, in key
  order. Every input naming a fed tensor is then repointed at that
  placeholder.
- **Pruning.** `PruneGraphDefInto` walks inputs breadth first from the
  fetched nodes, never crossing a fed (node, output) pair. It keeps the nodes
  it reaches, in their original order.
- **Graph editing.** `ReplaceNode` and `BuildIdentityNode` edit a graph of
  numbered nodes and edges in place. `SetNodeShardingFromNeighbors` copies
  devices from the neighbour with the smallest single-core sharding.
- **Associated functions.** `HasAssociatedFunction`,
  `GetAssociatedFunctions` and `RewriteAssociatedFunction` handle function
  calls, `SymbolicGradient` nodes and function-valued attributes, working
  against a function library.
- **Function handles.** `CachedFunctionHandles` caches instantiated
  function handles on top of a function runtime.
- **Smaller helpers.** `GetXLARandomSeed` is an odd 32-bit counter that
  steps by two. `AddDtypeToKernalDefConstraint` widens a kernel's type
  constraints in place.

The model follows the code, also where the code behaves in ways a reader
might not expect. Each of the following is modelled as written:

- **Prune errors and control inputs.** `PruneGraphDefInto` reports a missing
  needed node as InvalidArgument. It also follows control inputs (`^x`).
  Nodes that share a name share one "reached" flag, so every copy of a
  reached name is kept.
- **Function-call rewrite.** The rewrite builds each call input as the
  source node's name with the input *slot* number as the output index
  (`builder.Input(name, i, ...)`). It copies in-edges and then out-edges
  without first removing the old out-edges. As a result, a self-loop on the
  old node becomes a self-loop on the new node. `ReplaceNode` removes the
  old out-edges first and so drops such a loop. `AssociatedFunctions.CopyEdgesThenRemove`
  and `AssociatedFunctions.NoLoopsSameRewiring` state the exact difference.
- **Gradient rewrite.** The `SymbolicGradient` rewrite leaves the library
  untouched when the gradient it finds is non-empty and already equals the
  new name.
- **Unordered iteration.** Where the code iterates an unordered container
  (edge sets, the protobuf attribute map, `handles_`), the model picks
  elements with `:|`. Such a contract therefore holds for every order.
  `std::map` iteration is modelled as lexicographic key order
  (`Text.SortedDistinct`). The `std::set` of names in the conflict check is
  scanned in the same order.

Modules, one per file:

| module | file |
|---|---|
| `Errors` | `errors.dfy` |
| `Text` | `text.dfy` |
| `TensorIds` | `tensor_id.dfy` |
| `GraphDefs`, `NodeIndex` | `graph_def.dfy` |
| `Validation` | `validate.dfy` |
| `Placeholders` | `placeholders.dfy` |
| `Pruning` | `prune.dfy` |
| `Graphs` | `graph.dfy` |
| `Sharding` | `sharding.dfy` |
| `AssociatedFunctions` | `functions.dfy` |
| `FunctionHandles` | `handles.dfy` |
| `RandomSeed` | `seed.dfy` |
| `KernelDefs` | `kernel_def.dfy` |

The graph, the function library, the function runtime, the handle cache
and the seed counter are classes whose methods update their fields. Graph
descriptions (`GraphDef`) and configurations are values.

## Model

| member | source | states |
|---|---|---|
| Validation.ValidateTensorId | tensorflow/compiler/tf2xla/tf2xla_util.cc:44-52 | Ok exactly when the node name is non-empty and the output index is non-negative; an empty name is the error reported; every error is InvalidArgument |
| Validation.CheckNameDuplicates | tensorflow/compiler/tf2xla/tf2xla_util.cc:54-62 | fails with a duplicate-name error exactly when a non-empty name was already seen; records non-empty names only |
| Validation.CheckFeedFetchNameConflicts | tensorflow/compiler/tf2xla/tf2xla_util.cc:64-76 | fails exactly when some name `x` has `x_data` beside it; scanning the ordered set in increasing order, it reports the least such `x` |
| Validation.ValidShapeElementCount | tensorflow/compiler/tf2xla/tf2xla_util.cc:86 | a feed shape that passes has no unknown (-1) dimension and describes between 0 and 2^63-1 elements |
| Validation.ShapeCheckExamples | tensorflow/compiler/tf2xla/tf2xla_util.cc:86 | the fully defined shape rule rejects `[-1]`, ignores the unknown-rank flag, and rejects an element count that overflows before a later zero dimension |
| Validation.ValidateEntries | tensorflow/compiler/tf2xla/tf2xla_util.cc:84-95 | the per-list loop returns the first failing entry's error, in list order, or else the name-conflict check's status |
| Validation.ValidateConfig | tensorflow/compiler/tf2xla/tf2xla_util.cc:82-100 | returns the status of the feeds, then of the fetches, then fails when nothing is fetched |
| Validation.ValidateConfigOkIff | tensorflow/compiler/tf2xla/tf2xla_util.cc:82-100 | a configuration passes exactly when every id is valid, every feed shape is valid, non-empty names are unique within each list, no list has `x` with `x_data`, and something is fetched |
| Validation.ListStatusOkIff | tensorflow/compiler/tf2xla/tf2xla_util.cc:84-95 | one list passes exactly when its entries are well formed and conflict-free |
| Validation.EntriesPassIff | tensorflow/compiler/tf2xla/tf2xla_util.cc:84-94 | no entry fails exactly when every id and shape is valid and no non-empty name repeats |
| Validation.FirstFailureIsEntryFailure | tensorflow/compiler/tf2xla/tf2xla_util.cc:84-94 | a reported failure is the failure of some entry, and it is InvalidArgument |
| Validation.FailuresAreInvalidArgument | tensorflow/compiler/tf2xla/tf2xla_util.cc:82-100 | every failure of the configuration check is InvalidArgument |
| Validation.NoFetchesAlwaysFails | tensorflow/compiler/tf2xla/tf2xla_util.cc:96-98 | a configuration without fetches never passes |
| Validation.CrossListNamesNotCompared | tensorflow/compiler/tf2xla/tf2xla_util.cc:83-95 | the seen names are cleared between the lists: a feed and a fetch may share a name, and a feed `x` with a fetch `x_data` is no conflict |
| Text.SortedDistinct | tensorflow/compiler/tf2xla/tf2xla_util.cc:111-113 | the keys of an ordered map: strictly increasing and exactly the keys written |
| Text.IntToStringInjective | tensorflow/compiler/tf2xla/tf2xla_util.cc:119-120 | distinct integers print differently |
| TensorIds.TensorIdToString | tensorflow/compiler/tf2xla/tf2xla_util.cc:264-266 | the node name, a colon, then the index in decimal; for a non-negative index the digits read back as the index, and a negative one starts with a minus sign |
| TensorIds.ParseRoundTrip | tensorflow/compiler/tf2xla/tf2xla_util.cc:264-266 | parsing the `name:index` text of a valid id gives back that id |
| TensorIds.TensorIdToStringInjective | tensorflow/compiler/tf2xla/tf2xla_util.cc:264-266 | distinct valid ids have distinct `name:index` texts |
| TensorIds.CanonicalOfTensorIdString | tensorflow/compiler/tf2xla/tf2xla_util.cc:188-189 | the canonical form of a feed key is the key itself |
| TensorIds.BareNameIsOutputZero | tensorflow/compiler/tf2xla/tf2xla_util.cc:188-189 | an input written as a bare name is output 0 and has the same canonical form as `name:0` |
| TensorIds.ControlInputCanonical | tensorflow/compiler/tf2xla/tf2xla_util.cc:239-241 | `^x` parses to the control slot of `x` and prints back as `^x` |
| NodeIndex.NodesByName | tensorflow/compiler/tf2xla/tf2xla_util.cc:125-128 | every node's name is a key, and each key maps to a node of the graph with that name |
| NodeIndex.NodesByNameLastWins | tensorflow/compiler/tf2xla/tf2xla_util.cc:126-128 | the last node with a given name is the one indexed under it |
| NodeIndex.IndexNodes | tensorflow/compiler/tf2xla/tf2xla_util.cc:125-128 | the filling loop builds exactly the name index |
| Placeholders.GroupFeeds | tensorflow/compiler/tf2xla/tf2xla_util.cc:111-122 | the grouping loop yields the feed groups, and the remapping extended with every key's placeholder name |
| Placeholders.FileAll | tensorflow/compiler/tf2xla/tf2xla_util.cc:114-122 | writing entries in order leaves the last value written under each key, on top of the incoming map |
| Placeholders.GroupsSpec | tensorflow/compiler/tf2xla/tf2xla_util.cc:111-122 | groups and remapping have exactly the feeds' keys; each group holds a feed with its own key; each remapping entry names that group's placeholder |
| Placeholders.FeedKeyGrouped | tensorflow/compiler/tf2xla/tf2xla_util.cc:114-121 | every feed's key has a group and a remapping entry |
| Placeholders.GroupsLastFeedWins | tensorflow/compiler/tf2xla/tf2xla_util.cc:114-118 | the group of a key holds the last feed with that key |
| Placeholders.SortedKeys | tensorflow/compiler/tf2xla/tf2xla_util.cc:129-130 | the groups are visited in strictly increasing key order, each key once |
| Placeholders.ResolveTypes | tensorflow/compiler/tf2xla/tf2xla_util.cc:129-169 | the type loop stops at the first group whose node is missing or whose type cannot be settled, else yields one type per group |
| Placeholders.ResolveAllSpec | tensorflow/compiler/tf2xla/tf2xla_util.cc:129-169 | the types resolve exactly when every group resolves, and the i-th type is the i-th group's |
| Placeholders.MissingFeedNodeFails | tensorflow/compiler/tf2xla/tf2xla_util.cc:134-138 | a feed naming a node absent from the graph makes the call fail |
| Placeholders.AppendPlaceholders | tensorflow/compiler/tf2xla/tf2xla_util.cc:171-182 | the graph gains exactly the placeholders, appended after its nodes |
| Placeholders.OnePlaceholderPerFedTensor | tensorflow/compiler/tf2xla/tf2xla_util.cc:111-182 | as many placeholders as distinct fed tensors, with pairwise distinct names, and every feed has one |
| Placeholders.PlaceholderNameInjective | tensorflow/compiler/tf2xla/tf2xla_util.cc:119-120 | `aot_feed_<index>/<name>` determines the fed tensor |
| Placeholders.GroupPlaceholdersDistinct | tensorflow/compiler/tf2xla/tf2xla_util.cc:111-122 | distinct keys get distinct placeholder names |
| Placeholders.RemappingNamesPlaceholder | tensorflow/compiler/tf2xla/tf2xla_util.cc:116-121 | every feed's key is remapped to that feed's placeholder name |
| Placeholders.RewriteInputs | tensorflow/compiler/tf2xla/tf2xla_util.cc:184-194 | the rewrite loop replaces each input whose canonical form is a fed key by its placeholder name |
| Placeholders.RewritePlaceholdersUnchanged | tensorflow/compiler/tf2xla/tf2xla_util.cc:184-194 | the appended placeholders, which have no inputs, pass through the rewrite unchanged |
| Placeholders.FedInputRewritten | tensorflow/compiler/tf2xla/tf2xla_util.cc:185-193 | an input naming a fed tensor now names its placeholder; everything else about the node is unchanged |
| Placeholders.UnfedInputUnchanged | tensorflow/compiler/tf2xla/tf2xla_util.cc:188-192 | an input naming no fed tensor is left as it is |
| Placeholders.BothSpellingsRewritten | tensorflow/compiler/tf2xla/tf2xla_util.cc:188-192 | `x` and `x:0` are both repointed when output 0 of `x` is fed |
| Placeholders.AddPlaceholdersForFeeds | tensorflow/compiler/tf2xla/tf2xla_util.cc:102-197 | the remapping always gains every key; on failure the graph is unchanged; on success the graph is the rewritten graph followed by one placeholder per key |
| Pruning.Followed | tensorflow/compiler/tf2xla/tf2xla_util.cc:238-250 | a visit pushes exactly the producers named by inputs, control inputs included, whose (node, output) pair is not fed |
| Pruning.PushInputs | tensorflow/compiler/tf2xla/tf2xla_util.cc:238-250 | the push loop appends those producers in input order |
| Pruning.FetchQueue | tensorflow/compiler/tf2xla/tf2xla_util.cc:218-221 | the queue starts with the fetched node names, one per fetch, in fetch order |
| Pruning.CollectFed | tensorflow/compiler/tf2xla/tf2xla_util.cc:204-209 | the fed set is exactly the feeds' (node, output) pairs |
| Pruning.Visit | tensorflow/compiler/tf2xla/tf2xla_util.cc:231-250 | marking a node and pushing its inputs keeps the walk's invariant |
| Pruning.Pop | tensorflow/compiler/tf2xla/tf2xla_util.cc:222-250 | one queue step keeps the walk's invariant and makes progress |
| Pruning.Traverse | tensorflow/compiler/tf2xla/tf2xla_util.cc:217-251 | on success the marked names are exactly the reachable nodes and every reachable name exists; on failure the reported name is reachable and missing |
| Pruning.WalkDone | tensorflow/compiler/tf2xla/tf2xla_util.cc:222-251 | when the queue runs dry the marked set is exactly the reachable set |
| Pruning.KeepNamed | tensorflow/compiler/tf2xla/tf2xla_util.cc:253-260 | the copy keeps exactly the nodes whose name is marked |
| Pruning.CopyMarked | tensorflow/compiler/tf2xla/tf2xla_util.cc:253-260 | the copy loop builds that order-preserving filter |
| Pruning.PruneGraphDefInto | tensorflow/compiler/tf2xla/tf2xla_util.cc:199-262 | succeeds exactly when no needed node is missing; on success the output is the needed nodes in input order; on failure it names a needed, missing node |
| Pruning.PrunedMembers | tensorflow/compiler/tf2xla/tf2xla_util.cc:253-260 | a node is kept exactly when it is in the input and its name is reachable from the fetches |
| Pruning.FetchedNodesKept | tensorflow/compiler/tf2xla/tf2xla_util.cc:218-221 | every fetched node is kept |
| Pruning.FedProducerKeptViaUnfedInput | tensorflow/compiler/tf2xla/tf2xla_util.cc:241-249 | a producer one of whose outputs is fed is still kept when a needed node uses another, unfed output |
| Pruning.FedBoundary | tensorflow/compiler/tf2xla/tf2xla_util.cc:241-249 | a node that is not fetched and is only referred to through fed outputs is dropped |
| Pruning.KeepNamedAppend | tensorflow/compiler/tf2xla/tf2xla_util.cc:253-260 | the copy filter distributes over concatenation, so relative order is preserved |
| Pruning.KeepNamedIdempotent | tensorflow/compiler/tf2xla/tf2xla_util.cc:253-260 | filtering twice keeps the same nodes |
| Pruning.PruneIdempotent | tensorflow/compiler/tf2xla/tf2xla_util.cc:199-262 | when no needed node is missing, pruning the pruned graph with the same configuration succeeds and returns it unchanged |
| Pruning.KeepNamedIndex | tensorflow/compiler/tf2xla/tf2xla_util.cc:253-260 | the name index of the kept nodes is the original index restricted to the kept names |
| Graphs.Graph.AddNode | tensorflow/compiler/tf2xla/tf2xla_util.cc:470-473 | fails for an unregistered op, leaving the graph unchanged; otherwise adds a node under a fresh id |
| Graphs.Graph.AddEdge | tensorflow/compiler/tf2xla/tf2xla_util.cc:490-494 | adds exactly the one edge |
| Graphs.Graph.RemoveEdge | tensorflow/compiler/tf2xla/tf2xla_util.cc:484-486 | removes exactly the one edge |
| Graphs.Graph.RemoveNode | tensorflow/compiler/tf2xla/tf2xla_util.cc:497-498 | removes the node and every edge touching it |
| Graphs.Graph.SetDevices | tensorflow/compiler/tf2xla/tf2xla_util.cc:289-292 | sets the assigned and requested devices of one node, nothing else |
| Graphs.RemoveEdges | tensorflow/compiler/tf2xla/tf2xla_util.cc:477-486 | removes exactly the recorded out-edges |
| Graphs.AddEdgesInto | tensorflow/compiler/tf2xla/tf2xla_util.cc:488-492 | adds a copy of each in-edge, entering the new node |
| Graphs.AddEdgesFrom | tensorflow/compiler/tf2xla/tf2xla_util.cc:493-495 | adds a copy of each recorded out-edge, leaving the new node |
| Graphs.ReplaceNode | tensorflow/compiler/tf2xla/tf2xla_util.cc:467-501 | on an unregistered op, fails and leaves the graph unchanged; otherwise the old node is gone, the new one is added under a fresh id, and the edges are rewired onto it; if no data input had two producers before, none has after |
| Graphs.ReplaceEdges | tensorflow/compiler/tf2xla/tf2xla_util.cc:475-498 | removing out-edges, copying in- and out-edges and removing the node gives exactly the rewired edge set |
| Graphs.RewiredForgetsOld | tensorflow/compiler/tf2xla/tf2xla_util.cc:497-498 | no remaining edge touches the replaced node |
| Graphs.RewiredInEdges | tensorflow/compiler/tf2xla/tf2xla_util.cc:488-492 | an edge from another node entered the old node exactly when its copy enters the new one |
| Graphs.RewiredOutEdges | tensorflow/compiler/tf2xla/tf2xla_util.cc:475-495 | an edge to another node left the old node exactly when its copy leaves the new one |
| Graphs.RewiredKeepsOthers | tensorflow/compiler/tf2xla/tf2xla_util.cc:467-501 | edges touching neither node are kept exactly |
| Graphs.RewiredKeepsOneProducer | tensorflow/compiler/tf2xla/tf2xla_util.cc:475-495 | when the new id is fresh, rewiring keeps every data input slot down to at most one producer |
| Graphs.BuildIdentityNode | tensorflow/compiler/tf2xla/tf2xla_util.cc:503-521 | fails without changing the graph when `Identity` is not registered; otherwise adds one Identity node with the given name, input, device and type, and no edge |
| Graphs.IdentityDefShape | tensorflow/compiler/tf2xla/tf2xla_util.cc:507-516 | the built definition has op `Identity`, only the `T` attribute, and one input exactly when one is given; its device is the requested one, or empty when none is requested |
| Sharding.FindMatch | tensorflow/compiler/tf2xla/tf2xla_util.cc:269-288 | fails exactly when some neighbour's sharding cannot be read or is not single-core; otherwise finds no match exactly when no neighbour is annotated, and else a neighbour with the smallest core |
| Sharding.SetNodeShardingFromNeighbors | tensorflow/compiler/tf2xla/tf2xla_util.cc:268-294 | on error or without an annotated neighbour nothing changes; otherwise only the node's devices change, to those of a neighbour with the smallest core |
| KernelDefs.AddDtypeToKernalDefConstraint | tensorflow/compiler/tf2xla/tf2xla_util.cc:296-303 | the constraints array becomes the widened constraints |
| KernelDefs.WidenedSpec | tensorflow/compiler/tf2xla/tf2xla_util.cc:298-302 | same number, order and names of constraints; a constraint on the name gains the type at the end; others are unchanged |
| KernelDefs.WideningCounts | tensorflow/compiler/tf2xla/tf2xla_util.cc:300 | the type is appended even when already allowed: widening twice adds it twice |
| RandomSeed.InitialRandomSeed | tensorflow/compiler/tf2xla/tf2xla_util.cc:306-318 | the random value with its lowest bit set: an odd 32-bit value, equal to the random value or one more |
| RandomSeed.SeedCounter.GetXLARandomSeed | tensorflow/compiler/tf2xla/tf2xla_util.cc:321-328 | returns the counter and adds two modulo 2^32; the result is odd and non-zero, and the counter stays valid |
| RandomSeed.SeedAfterOdd | tensorflow/compiler/tf2xla/tf2xla_util.cc:322-327 | after any number of calls, even past the wrap-around, the counter is odd and non-zero |
| RandomSeed.SeedsDistinct | tensorflow/compiler/tf2xla/tf2xla_util.cc:321-328 | no seed repeats within 2^31 calls |
| RandomSeed.SeedsPeriodic | tensorflow/compiler/tf2xla/tf2xla_util.cc:321-328 | after 2^31 calls the sequence repeats |
| RandomSeed.IssuedSeeds | tensorflow/compiler/tf2xla/tf2xla_util.cc:322-327 | the seeds handed out, up to 2^31 of them, are odd, non-zero and pairwise distinct |
| AssociatedFunctions.HasAssociatedFunction | tensorflow/compiler/tf2xla/tf2xla_util.cc:331-350 | a node has an associated function exactly when the list of associated functions of a graph node built from it is not empty |
| AssociatedFunctions.GetAssociatedFunctions | tensorflow/compiler/tf2xla/tf2xla_util.cc:352-376 | every entry is a function the node refers to: the call of a library function, the gradient node itself, or a function-valued attribute holding that function; no entry is listed twice |
| AssociatedFunctions.CallAndGradientSingle | tensorflow/compiler/tf2xla/tf2xla_util.cc:356-363 | a call node or gradient node has exactly one entry, of its own kind; a call takes precedence |
| AssociatedFunctions.FuncAttrEntries | tensorflow/compiler/tf2xla/tf2xla_util.cc:365-373 | one entry per function-valued attribute, holding that attribute's function, with no attribute listed twice |
| AssociatedFunctions.FuncAttrEntriesExact | tensorflow/compiler/tf2xla/tf2xla_util.cc:364-374 | for other nodes, an attribute is listed exactly when it is function-valued, with its function's name and attributes |
| AssociatedFunctions.FunctionLibrary.AddGradientDef | tensorflow/compiler/tf2xla/tf2xla_util.cc:421-422 | registers a gradient where none exists; a different existing gradient is a conflict that changes nothing |
| AssociatedFunctions.FunctionLibrary.ReplaceGradient | tensorflow/compiler/tf2xla/tf2xla_util.cc:423-424 | replaces an existing gradient entry and fails when there is none |
| AssociatedFunctions.InputNames | tensorflow/compiler/tf2xla/tf2xla_util.cc:389-393 | for each data input slot, in order, the name of a node feeding it, with the slot as output index; the error names the first slot without an edge |
| AssociatedFunctions.RewriteFunctionCall | tensorflow/compiler/tf2xla/tf2xla_util.cc:383-412 | on error the graph is unchanged, and a missing input is the first missing slot; on success the old node is replaced by a call of the new function with the same name and attributes, and edges rewired onto it, self-loops included |
| AssociatedFunctions.CopyEdgesThenRemove | tensorflow/compiler/tf2xla/tf2xla_util.cc:402-410 | copying edges without removing old out-edges first gives the rewired set plus the old node's self-loops moved to the new node |
| AssociatedFunctions.NoLoopsSameRewiring | tensorflow/compiler/tf2xla/tf2xla_util.cc:402-410 | without self-loops the call rewrite rewires edges exactly as `ReplaceNode` does |
| AssociatedFunctions.RewriteGradient | tensorflow/compiler/tf2xla/tf2xla_util.cc:413-427 | succeeds exactly when the `f` attribute is present and a function; then the function's gradient is the new name and no other gradient changes |
| AssociatedFunctions.RewriteFunctionAttr | tensorflow/compiler/tf2xla/tf2xla_util.cc:428-437 | fails when the attribute is missing or not a function; otherwise only that attribute's function name changes, keeping its attributes |
| AssociatedFunctions.RewriteAssociatedFunction | tensorflow/compiler/tf2xla/tf2xla_util.cc:378-441 | dispatches on the kind: only a call rewrite adds nodes or edges, only a gradient rewrite touches the library, and each successful rewrite puts the new name in place |
| FunctionHandles.FunctionRuntime.Instantiate | tensorflow/compiler/tf2xla/tf2xla_util.cc:453 | a library function gets a fresh live handle; any other name fails without change |
| FunctionHandles.FunctionRuntime.ReleaseHandle | tensorflow/compiler/tf2xla/tf2xla_util.cc:461 | a live handle is released; any other handle is an error |
| FunctionHandles.CachedFunctionHandles.GetOrInstantiate | tensorflow/compiler/tf2xla/tf2xla_util.cc:443-456 | a cached canonical name returns its handle without touching the runtime; otherwise a successful instantiation is cached and a failed one caches nothing |
| FunctionHandles.ReleaseEach | tensorflow/compiler/tf2xla/tf2xla_util.cc:459-462 | every cached handle is released; the status is Ok exactly when all were live, else an unknown-handle error for one of them |
| FunctionHandles.CachedFunctionHandles.ReleaseAllHandles | tensorflow/compiler/tf2xla/tf2xla_util.cc:458-465 | releases every cached handle, keeps the first failure and empties the cache even when a release fails |

## Left out

- Type inference for fed nodes is left out. The code adds default
  attributes, builds the node with the op registry and reads its output
  type (with `BaseType`). The model takes this as a parameter `infer`
  returning the node's output types or nothing. A failure there is reported
  as one reason.
- `TensorShape::IsValidShape` comes from `tensor_shape.cc`, which is not
  part of this model. It is written after its documented rule for fully
  defined shapes: at most 254 dimensions, each at least 0, and an element
  count that stays within 2^63-1 as it is multiplied up. The unknown-rank
  flag is ignored. Its error messages are not modelled.
- `ParseShardingFromDevice` is a parameter of `SetNodeShardingFromNeighbors`.
  The model treats a core as a `nat`, so negative core annotations are not
  modelled.
- `std::random_device` is a parameter of the seed counter's constructor.
  The atomic `fetch_add` is modelled as a sequential update, so concurrent
  callers are not modelled.
- `NodeDefBuilder::Finalize` is not modelled. The built definition is
  written out directly, so a finalize failure (for example a mismatched
  input type) is not a possible outcome.
- Errors carry a structured reason and code instead of message text.
- `AssociatedFunctions.InputNames` holds for every choice among parallel
  edges into one input slot. Which edge `Node::input_node` returns is not
  modelled.
- `Sharding.SetNodeShardingFromNeighbors` says only that some neighbour with
  the smallest core wins. When several neighbours share that core, the
  winner depends on edge-set iteration order, which is not modelled.
- `FunctionHandles.CachedFunctionHandles.ReleaseAllHandles` says only that
  the reported failure belongs to some cached handle that was not live.
  Which one it is depends on `handles_` iteration order.
- `AssociatedFunctions.GetAssociatedFunctions` fixes the set of entries but
  not their order, which follows the attribute map's iteration. Its
  completeness and count are stated by `AssociatedFunctions.FuncAttrEntriesExact`
  and `AssociatedFunctions.CallAndGradientSingle`.
- The number of data inputs of a call node is counted from its definition's
  non-control inputs. The op signature behind `Node::num_inputs` is not
  part of this model.
- `Placeholders.AddPlaceholdersForFeeds` requires non-negative feed output
  indices, which `ValidateConfig` ensures. A negative index is not
  modelled. Without a declared type, the code would read an output type out
  of range. With a declared type, it would add a placeholder such as
  `aot_feed_-1/x` to which no input is ever rewritten, because parsing never
  gives a negative index other than the control slot, whose text is `^x`.
- Graph edges are a set, so two identical parallel edges count as one.
- The op registry is a set of op names. Attribute defaults and checks on
  node definitions are not modelled.
- Function canonicalisation (`Canonicalize`) is a parameter of the handle
  cache. The function runtime is modelled as a set of library names plus a
  counter for fresh handles.
- `ParseTensorName` and `FunctionLibraryDefinition` come from
  `tensor_id.cc` and `function.cc`, which are not part of this model. They
  are written here after their documented behaviour. A `name:digits`
  suffix is parsed as an unbounded number, so overflow of very long digit
  strings is not modelled.
