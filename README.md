# d3-hwschematic netlist-to-graph core, modelled in Dafny

d3-hwschematic draws a hardware schematic from a Yosys JSON netlist. Its
core turns the netlist into an ELK-style graph:

- a `LNodeBuilder` walks a module and creates one node per cell and one port
  per port bit-vector;
- the nets become hyper-edges, and constant bit runs become small constant
  nodes;
- CONCAT and SLICE cells that feed each other are folded into one;
- ports that share a name prefix are grouped under header ports;
- the member edges of two port groups wired to each other are replaced by
  one edge between the group headers;
- the schematic can collapse or expand a node, and can reload one module
  by its instance path.

Every object draws its id from one shared counter. Each node records the
largest id used inside it as `maxId`, and the test helpers check that ids
are unique and below `maxId`.

The model follows the source file by file:

| Dafny module (file) | source |
|---|---|
| `Graph`, `Netlist`, `Outcomes`, `Text` | the graph and netlist records, and string helpers |
| `LObjects` (l_objects.dfy) | `IdCounter` and the object factories of src/yosysLNodeBuilder.js |
| `LNodeValues`, `EdgeTranslation` | the net-to-edge translation of src/yosysLNodeBuilder.js, as pure functions |
| `LNodeBuilding` (l_node_builder.dfy) | the `LNodeBuilder` class of src/yosysLNodeBuilder.js |
| `YosysUtils` | src/yosysUtills.js |
| `YosysIcons` | src/yosysIcons.js |
| `PortSuffixes` | the suffix comparators of src/d3-hwschematic.js |
| `PortHierarchy` | src/yosysPortHierarchy.js |
| `ConcatSplit` | src/yosysConcatAndSplitAggregation.js |
| `ConcatV1` | src/yosysConcatAggregation.js (the older CONCAT-only pass) |
| `HierPortEdges` | src/yosysHierarchicalPortEdges.js |
| `HierPortEdgesOld` | src/hierarchicalPortEdges.js (the older edge aggregation) |
| `Yosys` | src/yosys.js |
| `Schematic` | the graph operations of src/d3-hwschematic.js |
| `ObjectIdChecks` | tests/objectIdTestFunctions.js |

Graph objects are datatype values, and in-place updates become methods
that return the updated value. The parts the source mutates through shared
references become classes:

- the id counter;
- the builder, with its registry of port-name dictionaries and builders;
- the dictionaries of each aggregation pass, which are the `Folder`,
  `Merger`, `Aggregator` and `OldAggregator` classes.

Each looping method is proved equal to a pure function of its inputs: a
pass function such as `ConcatsFrom`, `MergesFrom`, `PortsPass`,
`ChildrenPass` or `TranslateFrom`. The properties the source promises are
then proved about those functions.

In src/yosysHierarchicalPortEdges.js:119 the recursion skips a port list
when it is the parent's own `ports`. The recursion is only ever given a
child's ports or a port's members, so that guard never holds. The parent's
own ports are still never walked, and every port of every child is tested,
its top-level ports included. `HierPortEdges.PortsPass` therefore has no
guard.

The names `AggregateConcantsAndSplits` and `AggregateConcants` keep the
source's own spelling of `aggregateConcantsAndSplits` and
`aggregateConcants`.

## Model

| member | source | states |
|---|---|---|
| LObjects.IdCounter.GetNextId | src/yosysLNodeBuilder.js:19-29 | returns the current id and advances the counter by exactly one |
| LObjects.CreateLNode | src/yosysLNodeBuilder.js:117-133 | a new node takes the next id, has the given name, no ports, and empty shown children and edges |
| LObjects.DirectionOf | src/yosysLNodeBuilder.js:135-159 | "input" and "output" map to INPUT and OUTPUT; every other direction string is refused, both directions of the iff |
| LObjects.CreateLPort | src/yosysLNodeBuilder.js:135-159 | succeeds exactly for a known direction; the port takes the next id and the given name and index, has no children, and its side is `getPortSide` of its name and direction |
| LObjects.CreateLEdge | src/yosysLNodeBuilder.js:161-174 | a new edge takes the next id and the given name, with no sources and no targets |
| YosysUtils.PortSide | src/yosysUtills.js:1-12 | outputs go EAST; the S input of a MUX goes SOUTH; other inputs go WEST; any other direction is an error (each as an iff) |
| YosysUtils.OrderPorts | src/yosysUtills.js:14-32 | the loop computes `OrderPortsFrom`, which moves CLK to the last position and ARST to the second-last |
| YosysUtils.OrderPortsPermutes | src/yosysUtills.js:14-32 | the reordering keeps the port multiset apart from the indices; it fails exactly when the only port is ARST |
| YosysUtils.OrderClkAndRstPorts | src/yosysUtills.js:34-38 | only an Operator whose name starts with "FF" is reordered; every other node comes back unchanged |
| YosysUtils.GetNetNamesDict | src/yosysUtills.js:40-59 | a net is in the dictionary iff some netname lists it, and it maps to the LAST netname that lists it |
| YosysUtils.ConstNodeNameIs | src/yosysUtills.js:65-73 | a run of binary digits is named "0x" + hex, with the same value as the reversed bit string and no leading zero; any other run is "0b" + the reversed bits |
| YosysUtils.PortNameSplice | src/yosysUtills.js:91-101 | succeeds iff the width is the number 1 or compares above 1; the label is "[start]" or "[start+width:start]", with JavaScript `+` (a string width concatenates); otherwise the error names the width |
| YosysUtils.PortNameSpliceNumbers | src/yosysUtills.js:91-101 | with numeric arguments, the label has a colon iff the width exceeds one, and a one-bit label reads back as its start index |
| YosysUtils.PortNameSpliceInjective | src/yosysUtills.js:91-101 | distinct numeric (start, width) pairs never get the same label |
| YosysUtils.StringWidthConcatenates | src/yosysUtills.js:91-101 | a width given as the string "10" makes the upper bound "010": string concatenation, not addition |
| YosysUtils.GetPortName | src/yosysUtills.js:222-243 | a SLICE's A and a CONCAT's Y get an empty label; a SLICE's Y gets the splice at OFFSET of Y_WIDTH; a CONCAT's A and B get the splices at 0 and at A_WIDTH; every other port keeps its name |
| YosysUtils.UpdatePortIndices | src/yosysUtills.js:104-121 | the ports keep their shape apart from the indices, and the indices run consecutively from `index` in pre-order; NORTH and EAST members come after their header, SOUTH and WEST members before it |
| YosysUtils.UpdatePortIndicesNoHierarchy | src/yosysUtills.js:123-129 | port k gets index k and nothing else changes |
| YosysUtils.DividePorts | src/yosysUtills.js:131-153 | the four lists are exactly the ports on each side, in order |
| YosysUtils.OnSidesPartition | src/yosysUtills.js:131-153 | the four side lists together are a permutation of the ports |
| YosysUtils.ElkOrderPermutes | src/yosysUtills.js:155-159 | the ELK order (north, east, reversed south, reversed west) is a permutation of the ports |
| YosysUtils.ConvertPortOrderingFromYosysToElk | src/yosysUtills.js:155-159 | the result has the ELK order's shape and is numbered consecutively from 0 |
| YosysUtils.GetTopModule | src/yosysUtills.js:161-168 | fails iff no module has a truthy "top" attribute; otherwise returns the FIRST module that has one |
| YosysUtils.YosysGetModuleByPath | src/yosysUtills.js:192-213 | the loop computes `ModuleByPath`, the walk through cell types from the top module |
| YosysUtils.ModuleByPathIgnoresFirstName | src/yosysUtills.js:192-213 | the first path element (the top instance name) is never consulted |
| YosysUtils.ElkGetModuleByPath | src/yosysUtills.js:171-187 | the loop computes `ElkModuleByPath`, the walk by child name from the root |
| YosysUtils.ElkWalkIsChain | src/yosysUtills.js:171-187 | the returned object path starts with the given prefix and ends at the returned node; each element is a child of the previous one; it grows by at most one element per path name |
| YosysUtils.HideNodeObjects | src/yosysUtills.js:215-220 | shown children and edges move to their hidden slots and nothing else changes |
| YosysUtils.EndpointRole | src/yosysUtills.js:83-89 | an unknown direction fails; on a module port an input is a source and an output is a target |
| YosysUtils.EndpointRoleSwap | src/yosysUtills.js:83-89 | for a cell port the roles are the reverse of a module port's |
| YosysIcons.TranslateIcon | src/yosysIcons.js:30-63 | only the class and the name change; $adff and $dlatch get names built from their polarity parameters; mapped operators get their symbol name; all other cells are unchanged |
| YosysIcons.OperatorAliases | src/yosysIcons.js:1-27 | $mux and $pmux share MUX, and $shift and $shiftx share SHIFT |
| YosysIcons.TranslateIconMarksOperators | src/yosysIcons.js:30-63 | a cell whose node is changed is always marked an Operator |
| PortSuffixes.DefaultRule | src/d3-hwschematic.js:314-319 | with no comparator given, exact suffix equality is used |
| PortSuffixes.SuffixesAreEqual | src/d3-hwschematic.js:321-332 | the exact rule is string equality; the IO rule equates suffixes after dropping an `_i`/`_o` pair |
| PortSuffixes.SuffixesAreEqualSymmetric | src/d3-hwschematic.js:321-332 | both comparators are symmetric |
| PortSuffixes.ExactImpliesIO | src/d3-hwschematic.js:321-332 | the IO rule accepts every pair the exact rule accepts |
| PortSuffixes.IOSuffixPairs | src/d3-hwschematic.js:325-332 | `x_i` matches `x_o` in both orders under the IO rule, but not under the exact rule |
| ObjectIdChecks.DetectDuplicitIds | tests/objectIdTestFunctions.js:2-31 | succeeds iff the ids of the node, its children, edges and ports (with port members) are pairwise distinct and unseen; the returned set is the seen ids plus these |
| ObjectIdChecks.DetectDuplicitNodesIds | tests/objectIdTestFunctions.js:10-31 | the same for a list of children |
| ObjectIdChecks.DetectDuplicitPortIds | tests/objectIdTestFunctions.js:24-29 | the same for one port and its members |
| ObjectIdChecks.DetectDuplicitPortsIds | tests/objectIdTestFunctions.js:24-29 | the same for a list of ports |
| ObjectIdChecks.DetectDuplicitEdgeIds | tests/objectIdTestFunctions.js:17-22 | the same for a list of edges |
| ObjectIdChecks.CheckMaxIdPortsExact | tests/objectIdTestFunctions.js:33-42 | the port check holds iff every id in the port tree is at most `maxId` |
| ObjectIdChecks.CheckMaxIdCovers | tests/objectIdTestFunctions.js:44-78 | a node that passes `checkMaxId` has every id inside it at most its `maxId` |
| ObjectIdChecks.CheckMaxIdIsContentWithin | tests/objectIdTestFunctions.js:44-78 | `checkMaxId` holds iff `maxId` is set and bounds the node's content |
| ObjectIdChecks.ContentWithinMonotone | tests/objectIdTestFunctions.js:44-78 | a content bound stays valid when raised |
| LNodeValues.RunLength | src/yosysLNodeBuilder.js:439-457 | the run from `i` is all constants and ends at the end or at a net bit |
| LNodeValues.RunsOfConsts | src/yosysLNodeBuilder.js:439-457 | an all-constant vector is a single run of all its values |
| LNodeValues.EdgePointsAndDirection | src/yosysLNodeBuilder.js:370-385 | an edge without sources takes the new endpoint as a source ("output"); otherwise as a target ("input"), both directions |
| LNodeValues.EdgePointsAgreeWithCellRole | src/yosysLNodeBuilder.js:370-385 | the direction chosen for a port-less child puts it in the same list as `getSourceAndTargetForCell` would |
| LNodeValues.DedupUnique | src/yosysLNodeBuilder.js:286-296 | the kept edges come from the input, are not already seen, and have pairwise different (sources, targets) keys |
| LNodeValues.DedupKeepsFirst | src/yosysLNodeBuilder.js:286-296 | an edge is kept iff its key is unseen and no earlier edge has it |
| LNodeValues.DedupCovers | src/yosysLNodeBuilder.js:286-296 | every key of the input is seen or kept |
| EdgeTranslation.TranslateSucceeds | src/yosysLNodeBuilder.js:392-437 | translating a vector succeeds iff the direction is known (or there are no bits) and every net bit has an edge or a net name |
| EdgeTranslation.TranslateJoins | src/yosysLNodeBuilder.js:392-437 | afterwards every net bit has an edge that lists the port's endpoint in the list its direction selects |
| EdgeTranslation.TranslateRuns | src/yosysLNodeBuilder.js:392-457 | each maximal constant run adds exactly one constant node, named from the run, that drives the run's edge |
| EdgeTranslation.TranslateNames | src/yosysLNodeBuilder.js:392-437 | each new net edge carries its net's name |
| EdgeTranslation.TranslateGrown | src/yosysLNodeBuilder.js:392-437 | existing edges keep their endpoints and new edges are appended; constant nodes keep driving |
| EdgeTranslation.TranslateKeepsOk | src/yosysLNodeBuilder.js:392-457 | the counter only grows and every new id lies in the ids drawn, so the wiring stays id-consistent |
| EdgeTranslation.TranslateHolds | src/yosysLNodeBuilder.js:392-457 | all of the above together for a whole vector |
| LNodeBuilding.LNodeBuilder.AddLPort | src/yosysLNodeBuilder.js:135-159 | a port is appended with the next id iff its direction is known, and is registered under its original name in the node's dictionary |
| LNodeBuilding.LNodeBuilder.LoadPorts | src/yosysLNodeBuilder.js:193-212 | succeeds iff every declaration has a label and a known direction; adds one port per declaration with consecutive ids; reverses and renumbers a CONCAT's ports; registers every name; keeps other nodes' dictionaries |
| LNodeBuilding.LNodeBuilder.Build | src/yosysLNodeBuilder.js:63-95 | a new node is registered under its id and takes the next id and the builder's name; a module-less build gives an empty node with absent children; the result passes `checkMaxId` below the counter; module ports are loaded in order |
| LNodeBuilding.LNodeBuilder.Fill | src/yosysLNodeBuilder.js:72-86 | the node keeps id, name and class; module ports are appended in declaration order with consecutive ids; a node left empty gets absent lists; below the level limit the lists are hidden |
| LNodeBuilding.LNodeBuilder.Finish | src/yosysLNodeBuilder.js:76-95 | on success every child is `NormalizedAt` from the builder's counter and parent dictionary, and the normalized node is `Sealed`: a new node is `Trimmed`, one that already existed is `Trimmed` and then `EdgesAggregated`; an empty new node loses its lists; otherwise they are hidden iff the level is past the limit; `maxId` becomes the counter minus one |
| LNodeBuilding.LNodeBuilder.Seal | src/yosysLNodeBuilder.js:80-94 | fails when the child list is not shown, or is empty while the edges are not shown (the source reads `length` of an undefined list); a new node with shown children becomes `Trim` of it (lists removed when both are empty, hidden iff the level is past the limit) with `maxId` the counter minus one, drawing no id; a node that already existed is that `Trimmed` node with its hierarchical port edges aggregated (`EdgesAggregated`), failing exactly when the aggregation is not `Aggregable`; the result passes `checkMaxId` below the counter and keeps id, name, class and ports |
| LNodeBuilding.LNodeBuilder.AggregateExisting | src/yosysLNodeBuilder.js:89-93 | the node of an existing builder has its hierarchical port edges aggregated: it fails exactly when that is not `Aggregable`, and otherwise the result is `EdgesAggregated` and passes `checkMaxId` below the counter |
| LNodeBuilding.LNodeBuilder.LoadFromModule | src/yosysLNodeBuilder.js:176-191 | the module's ports are appended in declaration order when asked; the rest is `ContentLoaded`: within the level limit one child per cell, in order and registered with its cell (`CellsOf`), then the nets loaded as edges (`EdgesLoaded`); a node left with children ends as `PassesReplayed` makes it; the content stays below the counter |
| LNodeBuilding.LNodeBuilder.LoadContent | src/yosysLNodeBuilder.js:181-190 | `ContentLoaded`: children from the cells and edges from the nets within the level limit, otherwise nothing loaded, then the folding replayed by `PassesReplayed` when children are left; id, name, class, ports and `maxId` are kept |
| LNodeBuilding.FoldChildren | src/yosysLNodeBuilder.js:187-189 | the folding of CONCAT and SLICE children is `PassesReplayed` (both passes replayed on the node's dictionaries), fails when the edge list is not shown, changes only the children and edges, and keeps them below the bound |
| LNodeBuilding.LNodeBuilder.LoadChildren | src/yosysLNodeBuilder.js:214-251 | one child per cell, appended in order, each recorded with its cell |
| LNodeBuilding.LNodeBuilder.LoadCell | src/yosysLNodeBuilder.js:214-251 | a cell's node takes the next id and passes `checkMaxId` below the counter |
| LNodeBuilding.LNodeBuilder.LoadEdges | src/yosysLNodeBuilder.js:253-284 | fails when the children are not shown; otherwise the edges come from the ports and cells and are deduplicated (`EdgesLoaded`) |
| LNodeBuilding.LNodeBuilder.GetEdgeDictFromPorts | src/yosysLNodeBuilder.js:345-368 | every module port's bits are joined to edges with the port as endpoint, and the wiring stays id-consistent |
| LNodeBuilding.LNodeBuilder.LoadEdgesForCell | src/yosysLNodeBuilder.js:320-343 | every connection of a cell is joined to edges with the cell's port as endpoint |
| LNodeBuilding.LNodeBuilder.TranslateBits | src/yosysLNodeBuilder.js:392-437 | the loop computes exactly `TranslateFrom` with the counter as edge ids, and its result keeps the wiring properties above |
| LNodeBuilding.LNodeBuilder.AddConstNodeToSources | src/yosysLNodeBuilder.js:439-457 | returns the last index of the constant run, draws two ids, and adds the constant node as the edge's source |
| LNodeBuilding.LNodeBuilder.AddConstLNode | src/yosysLNodeBuilder.js:459-473 | the constant node takes the next id and its one output port "O0" the id after it; the port is registered |
| LNodeBuilding.LNodeBuilder.CompleteEdges | src/yosysLNodeBuilder.js:298-343 | succeeds iff every bit of every port-less child already has an edge; the edges only gain endpoints |
| LNodeBuilding.LNodeBuilder.CompletePort | src/yosysLNodeBuilder.js:298-343 | a port of the direction `getEdgePointsAndDirection` picks is added to the child and joined to every bit's edge |
| LNodeBuilding.LNodeBuilder.FilterDuplicitEdges | src/yosysLNodeBuilder.js:286-296 | appends exactly the deduplicated edges to the node |
| LNodeBuilding.LNodeBuilder.Normalize | src/yosysLNodeBuilder.js:97-115 | every child `k` is normalized (`NormalizedAt`) from the counter and parent dictionary the child before it left: an Operator gets `OperatorOrdered`, any other child `BlockNormalized`; the counter runs from its old to its new value and the dictionary from the old to the new one, and every child keeps all but its ports, edges and `maxId` and stays below the counter |
| LNodeBuilding.NormalizeOperator | src/yosysLNodeBuilder.js:100-104 | computes `OperatorOrdered`: an Operator succeeds iff it is not a flip-flop or its CLK/ARST order succeeds; its ports are permuted and nothing else changes |
| LNodeBuilding.LNodeBuilder.NormalizeBlock | src/yosysLNodeBuilder.js:105-113 | a non-operator child is `BlockNormalized`: its ports are regrouped by the name trie (`Regrouped`), then its hierarchical port edges are aggregated (`EdgesAggregated`) against the parent dictionary with the new ports' owners added, which becomes the builder's dictionary; the child stays below the counter |
| LNodeBuilding.LNodeBuilder.NormalizeChild | src/yosysLNodeBuilder.js:97-115 | an Operator gets `OperatorOrdered` and draws no id; any other child is `BlockNormalized`; either way the child's ports are added to the parent dictionary |
| LNodeBuilding.LNodeBuilder.NormalizeContent | src/yosysLNodeBuilder.js:63-95 | each child of a node with a shown list is `NormalizedAt` from the counter and parent dictionary the child before it left, starting from the builder's and ending at them; only the children change, their number stays the same and they stay below the counter; an empty list is returned unchanged without drawing ids |
| LNodeBuilding.ChainAt | src/yosysLNodeBuilder.js:97-115 | a chain (`Chain`), built one child at a time, states child `k`'s normalization and the parent dictionary it leaves (`NormalizedAt`) |
| LNodeBuilding.NormalizedShape | src/yosysLNodeBuilder.js:97-115 | a normalized child differs from the original in its ports, edges and `maxId` only |
| LNodeBuilding.ReverseConcatPorts | src/yosysLNodeBuilder.js:193-212 | a CONCAT's ports are reversed and renumbered, within the same id bound |
| PortHierarchy.GetForPrefix | src/yosysPortHierarchy.js:48-59 | returns the group for a name, creating it (with the joined absolute prefix) only when missing |
| PortHierarchy.GetForPrefixTwice | src/yosysPortHierarchy.js:48-59 | asking twice gives the same group |
| PortHierarchy.InsertAddsPort | src/yosysPortHierarchy.js:90-107 | filing a port under a name path adds exactly that port to the trie |
| PortHierarchy.InsertPlaces | src/yosysPortHierarchy.js:90-107 | the port is found under its path afterwards, and earlier ports stay where they were (`InsertKeeps`) |
| PortHierarchy.AnyChildrenIsFirst | src/yosysPortHierarchy.js:61-69 | `getAnyChildren` is the first port of the trie in order, or none |
| PortHierarchy.HasMultipleChildrenCounts | src/yosysPortHierarchy.js:70-87 | `hasMultipleChildren` holds iff the trie holds more than one port |
| PortHierarchy.GetPortStartNameToPorts | src/yosysPortHierarchy.js:90-121 | the trie holds exactly the ports, each under its name split at "_", a bare name under its own group when one exists |
| PortHierarchy.GroupUnderscored | src/yosysPortHierarchy.js:93-107 | the underscored ports are filed by their name path |
| PortHierarchy.PlaceBareNames | src/yosysPortHierarchy.js:108-118 | the bare names join a group of their name, or the root |
| PortHierarchy.CreatePortHierarchy | src/yosysPortHierarchy.js:3-25 | a group with one port emits that port; a named group with more emits one new header port (next id, registered name) holding its level; the emitted members are the trie's ports |
| PortHierarchy.EmitLevel | src/yosysPortHierarchy.js:17-24 | a level emits its own ports then its groups in order, and the members are exactly the level's ports |
| PortHierarchy.SetPortSideRec | src/yosysPortHierarchy.js:123-128 | every port in the tree gets the side, and nothing else changes |
| PortHierarchy.SetPortSide | src/yosysPortHierarchy.js:130-135 | every member takes its top-level port's side |
| PortHierarchy.SetPortHierarchy | src/yosysPortHierarchy.js:137-150 | with more than one port, the ports are regrouped by the trie (`Hierarchy`), sides are forced down, and the numbering is consecutive in ELK order; the original ports survive as members; `maxId` covers the new headers (together: `Regrouped`) |
| PortHierarchy.HierarchyKeeps | src/yosysPortHierarchy.js:137-150 | regrouping, siding and reordering keep the original ports as members |
| ConcatSplit.LastEdgeOf | src/yosysConcatAndSplitAggregation.js:28-42 | the edge recorded for a port is the last edge that touches it, or none |
| ConcatSplit.GetPortToEdgeDict | src/yosysConcatAndSplitAggregation.js:28-42 | a port is a key iff some edge touches it, and maps to `LastEdgeOf` |
| ConcatSplit.GetNodeIdToNodeDict | src/yosysConcatAndSplitAggregation.js:19-26 | the keys are the node and its children, each mapped to itself |
| ConcatSplit.FillConcats | src/yosysConcatAndSplitAggregation.js:168-177 | returns the CONCAT children in order |
| ConcatSplit.GetChildInputPorts | src/yosysConcatAndSplitAggregation.js:44-53 | returns the INPUT ports in order |
| ConcatSplit.GetEdgeTargetsIndex | src/yosysConcatAndSplitAggregation.js:55-66 | returns the first target on the port, and throws "PortId was not found" iff there is none |
| ConcatSplit.GetChildTargetPortId | src/yosysConcatAndSplitAggregation.js:109-118 | returns the first OUTPUT port, and throws "Concat child has no target" iff there is none |
| ConcatSplit.PlaceInputs | src/yosysConcatAndSplitAggregation.js:88-97 | the splice loop computes `Placed` |
| ConcatSplit.PlacedReplacesTarget | src/yosysConcatAndSplitAggregation.js:88-97 | placing at a found index replaces the target port with the inputs, as multisets |
| ConcatSplit.MissingTargetLosesFirstInput | src/yosysConcatAndSplitAggregation.js:79-97 | placing at index -1 loses the first input: it is not among the resulting ports, which are the right CONCAT's ports plus the other inputs, and no port is overwritten (see Findings) |
| ConcatSplit.RetargetInputs | src/yosysConcatAndSplitAggregation.js:83-87 | succeeds iff every input has an edge with a target on it; the result is `RetargetAll`, which redirects that target to the right node |
| ConcatSplit.Folder.AggregateTwoConcats | src/yosysConcatAndSplitAggregation.js:73-107 | fails with a missing target port when the right CONCAT lacks it; otherwise replaces the target port by the inputs, retargets their edges and raises `maxId`; errors leave the state unchanged |
| ConcatSplit.Folder.MergeIntoNext | src/yosysConcatAndSplitAggregation.js:124-152 | computes `ConcatStep`: a merge happens iff the CONCAT's output edge has one target and it is on a CONCAT (`ConcatStepMerges`); no other node changes |
| ConcatSplit.ConcatStepMerges | src/yosysConcatAndSplitAggregation.js:124-152 | the step merges iff the CONCAT feeds exactly one other CONCAT |
| ConcatSplit.Folder.AggregateConcats | src/yosysConcatAndSplitAggregation.js:120-166 | computes `ConcatsFrom`; the dropped children and edges are those it names; the surviving CONCATs are renumbered |
| ConcatSplit.FeedingConcatDropped | src/yosysConcatAndSplitAggregation.js:120-166 | every CONCAT that feeds another CONCAT is dropped |
| ConcatSplit.Folder.AggregateTwoSplits | src/yosysConcatAndSplitAggregation.js:179-189 | fails iff the old slice has fewer than two ports or no driver; otherwise the initial slice absorbs it, its ports are emptied, and its source edge is driven by the initial slice |
| ConcatSplit.Folder.FilterTargets | src/yosysConcatAndSplitAggregation.js:193-203 | fails iff a target node is unknown; otherwise keeps the initial slice and every target that is not a SLICE |
| ConcatSplit.Folder.FoldTargets | src/yosysConcatAndSplitAggregation.js:204-219 | the first whole slice is kept; exactly the later whole slices (`FoldedAway`) are folded into it |
| ConcatSplit.Folder.AggregateEdgeTargets | src/yosysConcatAndSplitAggregation.js:204-230 | the folded slices leave the children; the edge's targets become `Kept`; afterwards the edge has at most one whole slice target and every dropped target was folded |
| ConcatSplit.Folder.AggregateSplits | src/yosysConcatAndSplitAggregation.js:232-241 | computes `SlicesFrom` over the edge list; afterwards every edge has at most one whole SLICE target, every target an edge lost is on a folded slice, and exactly the folded slices leave the children |
| ConcatSplit.TargetFold | src/yosysConcatAndSplitAggregation.js:179-219 | one target on values: a node off the dictionary fails; the first whole SLICE is chosen; a later whole SLICE gives it its output port, its driving edge is repointed to it, and it is left with no ports and marked folded; a SLICE with fewer than two ports or no driver fails; with all slices whole it never fails on a missing port |
| ConcatSplit.TargetsFold | src/yosysConcatAndSplitAggregation.js:204-219 | the target loop on values: slices stay whole, the chosen slice is whole, and nothing changes when no slice is chosen |
| ConcatSplit.TargetsFoldFirst | src/yosysConcatAndSplitAggregation.js:204-219 | the loop chooses the first whole SLICE of the targets (`FirstWhole`) and folds away exactly the other whole ones (`FoldedAway`) |
| ConcatSplit.EdgeFold | src/yosysConcatAndSplitAggregation.js:204-230 | one edge's turn keeps the dictionaries' keys and the node kinds, only adds folded slices, and leaves the other edges' targets alone |
| ConcatSplit.EdgeClose | src/yosysConcatAndSplitAggregation.js:220-224 | renumbering the chosen slice and filtering the edge's targets changes no other edge and folds nothing |
| ConcatSplit.EdgeFoldSettles | src/yosysConcatAndSplitAggregation.js:204-230 | an edge's turn folds exactly `FoldedAway`; with no whole slice nothing changes; otherwise the edge keeps the targets `Kept` names, has at most one whole SLICE target, and lost only targets on folded slices |
| ConcatSplit.CloseSettles | src/yosysConcatAndSplitAggregation.js:193-203 | closing an edge leaves it at most one whole SLICE target, and it loses only targets on folded slices |
| ConcatSplit.SlicesFrom | src/yosysConcatAndSplitAggregation.js:232-241 | the SLICE pass on values keeps the dictionaries' keys and only adds folded slices |
| ConcatSplit.SlicesFromSettle | src/yosysConcatAndSplitAggregation.js:232-241 | after the pass every listed edge has at most one whole SLICE target, and every target an edge lost is on a folded slice |
| ConcatSplit.Folder.FoldTarget | src/yosysConcatAndSplitAggregation.js:207-217 | computes `TargetFold` on the folding state; an error changes nothing |
| ConcatSplit.Folder.FoldInto | src/yosysConcatAndSplitAggregation.js:179-189 | the later slice is marked folded and left with no ports; the first slice stays whole; only slices change, and no edge's targets change |
| ConcatSplit.Folder.CloseEdge | src/yosysConcatAndSplitAggregation.js:220-224 | computes `EdgeClose`; no other edge and no non-SLICE node changes |
| ConcatSplit.Folder.FoldEdges | src/yosysConcatAndSplitAggregation.js:233-240 | the loop computes `SlicesFrom`; exactly the folded slices leave the children |
| ConcatSplit.Folder.FoldSlices | src/yosysConcatAndSplitAggregation.js:248 | the SLICE half of the pass computes `SlicesFrom` from no folded slice, and keeps the CONCAT renumbering |
| ConcatSplit.Folder.RenumberConcats | src/yosysConcatAndSplitAggregation.js:160-164 | computes `RenumberFrom`: every listed CONCAT that was not merged away is renumbered, and nothing else changes |
| ConcatSplit.RenumberFromStep | src/yosysConcatAndSplitAggregation.js:160-164 | one round of the renumbering loop renumbers its CONCAT unless it was merged away, and the rest of the loop carries on from there |
| ConcatSplit.BothPasses | src/yosysConcatAndSplitAggregation.js:242-249 | both passes on values succeed only when `ConcatsFrom` does, and report its dropped CONCATs and edges; the dictionaries keep their keys |
| ConcatSplit.Folder.FoldAll | src/yosysConcatAndSplitAggregation.js:242-249 | computes `BothPasses`: the CONCAT pass is `ConcatsFrom`, the kept CONCATs are renumbered, then the SLICE pass `SlicesFrom` runs on the edges left; the dropped nodes are the merged CONCATs plus the folded slices, and every edge has at most one whole SLICE target |
| ConcatSplit.FoldOutcome | src/yosysConcatAndSplitAggregation.js:242-249 | the collected node keeps a CONCAT iff the pass did not drop it, renumbers the kept ones, and leaves one slice per edge |
| ConcatSplit.PassesOutcome | src/yosysConcatAndSplitAggregation.js:242-249 | the collected node keeps every other child, only shrinks, and keeps every child within the id bound |
| ConcatSplit.AggregateConcantsAndSplits | src/yosysConcatAndSplitAggregation.js:242-249 | fails when a list is hidden and whenever `ConcatPass` fails; equals `PassesReplay`, both passes replayed on the node's dictionaries; keeps every non-CONCAT non-SLICE child; drops exactly the CONCATs `ConcatPass` drops, with their edges; leaves at most one SLICE per edge |
| ConcatSplit.Folder.FoldTargetsAsWritten | src/yosysConcatAndSplitAggregation.js:204-219 | the target loop as written: a second SLICE target is folded even when it was already emptied, which throws |
| ConcatSplit.Folder.AggregateEdgeTargetsAsWritten | src/yosysConcatAndSplitAggregation.js:204-230 | the edge pass as written: fails when its second SLICE target has fewer than two ports; when its two targets are on one foldable slice it succeeds, that slice keeps no port and leaves the children, and the edge keeps both targets on it |
| ConcatSplit.SelfSliceFoldAsWritten | src/yosysConcatAndSplitAggregation.js:179-230 | on a SLICE whose input reads one bit twice, the as-written edge pass folds the slice into itself: it succeeds, the slice has no port and is gone from the children, and the edge still targets it twice (see Findings) |
| ConcatSplit.SelfSliceFold | src/yosysConcatAndSplitAggregation.js:204-230 | on the same netlist the corrected target loop picks the slice once and folds nothing, and the edge's turn leaves the whole folding state as it was |
| ConcatSplit.TwoBitFoldAsWritten | src/yosysConcatAndSplitAggregation.js:204-241 | on two slices reading one 2-bit bus, the as-written pass cannot get through both edges: the first fails or the second fails with a missing port (see Findings) |
| ConcatSplit.TwoBitFold | src/yosysConcatAndSplitAggregation.js:204-241 | the corrected pass on the same netlist: both edges succeed, S2 (id 4) is folded into S1 (id 1) once, both bit edges then target S1 only (`TwoBitTwice`), and the children are S1 and the two drivers |
| ConcatSplit.TwoBitFirstTurn | src/yosysConcatAndSplitAggregation.js:204-230 | on that netlist, the first bit's edge folds S2 into S1 and is left targeting S1 only (`TwoBitOnce`) |
| ConcatSplit.TwoBitSecondTurn | src/yosysConcatAndSplitAggregation.js:204-230 | the second bit's edge then finds S2 already folded, skips it, and is left targeting S1 only (`TwoBitTwice`) |
| ConcatSplit.FlatNumbering | src/yosysUtills.js:104-121 | ports with no members are numbered in list order from the start index |
| ConcatV1.PlaceAtFront | src/yosysConcatAggregation.js:70-85 | the inputs take positions 0.. with their indices, then the right node's ports after its first |
| ConcatV1.FrontSwapsFirst | src/yosysConcatAggregation.js:70-85 | as multisets of ids, the first port is replaced by the inputs |
| ConcatV1.FrontBreaksMaxId | src/yosysConcatAggregation.js:65-87 | moving a port with a larger id in without raising `maxId` breaks `checkMaxId` (see Findings) |
| ConcatV1.FrontRaisedKeepsMaxId | src/yosysConcatAggregation.js:65-87 | with `maxId` raised to the larger of the two nodes', the merged node passes `checkMaxId` |
| ConcatV1.Merger.AggregateTwoNodes | src/yosysConcatAggregation.js:65-87 | fails iff the target port is not in the port dictionary built up front, its stored index is not 0, or an input has no edge; otherwise places the inputs at the front, retargets their edges and writes their new indices into the dictionary (`Reindexed`), even when the port has already left the node; errors change nothing |
| ConcatV1.Merger.MergeStep | src/yosysConcatAggregation.js:103-124 | computes `MergeRound` on the node, edge and port dictionaries: a merge happens iff the CONCAT feeds exactly one CONCAT (`MergeRoundMerges`) |
| ConcatV1.MergeRoundMerges | src/yosysConcatAggregation.js:103-124 | the round merges iff the CONCAT feeds exactly one other CONCAT |
| ConcatV1.Merger.Aggregate | src/yosysConcatAggregation.js:100-133 | computes `MergesFrom` on those dictionaries; exactly the dropped children and edges leave the lists |
| ConcatV1.GetNodePorts | src/yosysConcatAggregation.js:1-5 | the loop computes `PortsIndexed`: a port id is a key iff it was one before or some port carries it |
| ConcatV1.PortsIndexedAt | src/yosysConcatAggregation.js:1-5 | an id maps to the index of the last port carrying it; an id no port carries keeps its entry |
| ConcatV1.GetPortIdToPortDict | src/yosysConcatAggregation.js:7-15 | computes `PortIndexes`: the node's ports, then each child's ports in turn |
| ConcatV1.ChildPortIndexed | src/yosysConcatAggregation.js:7-15 | a child's port whose id no later port carries is found with its own index |
| ConcatV1.ChildrenKeep | src/yosysConcatAggregation.js:7-15 | an id that no child's port carries keeps its entry |
| ConcatV1.ReindexedKeeps | src/yosysConcatAggregation.js:70-84 | the stored index of a port that is no input is left alone |
| ConcatV1.ReindexedLast | src/yosysConcatAggregation.js:70-84 | an input is stored with its position in the input list, the index it is given |
| ConcatV1.TwoNodesMerged | src/yosysConcatAggregation.js:65-87 | one merge on the dictionaries succeeds iff the target port has stored index 0 and every input has an edge; only the target's node changes, the edges keep their wiring, and the dictionary keeps its keys |
| ConcatV1.RefoldSucceeds | src/yosysConcatAggregation.js:65-87 | a second CONCAT folded into a port that a first fold already replaced still succeeds, and the port list becomes `Front(Front(ports, first), second)` |
| ConcatV1.FrontTwice | src/yosysConcatAggregation.js:70-85 | after two folds into one port, the second CONCAT's inputs take the front and the first CONCAT's first input is lost |
| ConcatV1.MergesFromDrops | src/yosysConcatAggregation.js:100-133 | a CONCAT feeding a CONCAT is dropped; any other is skipped |
| ConcatV1.AggregateConcants | src/yosysConcatAggregation.js:146-151 | fails iff a list is hidden or a step fails; keeps every non-CONCAT child; equals the replay of `MergesFrom` on the node's dictionaries |
| HierPortEdges.GetChildIdToParentDict | src/yosysHierarchicalPortEdges.js:3-12 | adds every member port's parent to the dictionary (`ParentMap`) |
| HierPortEdges.GetPortIdToPortDict | src/yosysHierarchicalPortEdges.js:140-150 | adds every port of the tree under its id (`PortMap`) |
| HierPortEdges.GetPortIdToNodeIdDict | src/yosysHierarchicalPortEdges.js:152-161 | maps every port of the tree to the node id (`NodeIdMap`) |
| HierPortEdges.GetRightId | src/yosysHierarchicalPortEdges.js:14-29 | defined iff the edge has one source and one target and one of them is the port; the pair {left, right} is the edge's pair of ports |
| HierPortEdges.GetRightIdBack | src/yosysHierarchicalPortEdges.js:14-29 | the far end's far end is the port again |
| HierPortEdges.Suffix | src/yosysHierarchicalPortEdges.js:69-72 | the name is the parent's length of prefix followed by the suffix |
| HierPortEdges.AllPortsAreConnected | src/yosysHierarchicalPortEdges.js:35-88 | throws only on a broken lookup, and always when one comes before any unlinked member; answers a group iff every member is linked; the answer is the far parent of the LAST member |
| HierPortEdges.MixedGroupsAccepted | src/yosysHierarchicalPortEdges.js:35-88 | members linked to two different groups are still accepted (see Findings) |
| HierPortEdges.AllPortsAreConnectedToOne | src/yosysHierarchicalPortEdges.js:35-88 | answers a group iff every member is linked to that one group (`OneGroup`), and every member's far parent is it |
| HierPortEdges.SameOwner | src/yosysHierarchicalPortEdges.js:35-88 | holds iff every member is linked to the given group |
| HierPortEdges.AggregatedEdgeLinks | src/yosysHierarchicalPortEdges.js:90-113 | the new edge links the two group ports, each the other's far end, with the source chosen by the left port's direction |
| HierPortEdges.FilterEdges | src/yosysHierarchicalPortEdges.js:189-197 | keeps exactly the edges whose id is not marked, and all of them when nothing is marked |
| HierPortEdges.AtPortLinks | src/yosysHierarchicalPortEdges.js:119-135 | when the members form one group, all their edges are marked and the header gets the new edge to the far group |
| HierPortEdges.AtPortIdle | src/yosysHierarchicalPortEdges.js:119-135 | otherwise the pass state is unchanged |
| HierPortEdges.PortsPassGrows | src/yosysHierarchicalPortEdges.js:115-138 | edges are only appended, the counter only grows, and marks only accumulate |
| HierPortEdges.Aggregator.CreateAggregatedEdge | src/yosysHierarchicalPortEdges.js:90-113 | fails iff a node id is unknown; otherwise takes the next id and records the edge for both ports |
| HierPortEdges.Aggregator.AggregateAt | src/yosysHierarchicalPortEdges.js:119-135 | computes `AtPort` for one port |
| HierPortEdges.Aggregator.Aggregate | src/yosysHierarchicalPortEdges.js:115-138 | computes `PortsPass`, members before their header |
| HierPortEdges.AggregateHierarchicalPortEdges | src/yosysHierarchicalPortEdges.js:164-199 | a node with an absent list is unchanged; otherwise it succeeds iff `ChildrenPass` does, the edges become `FilterEdges` of the pass, `maxId` and the counter are the pass's, and `checkMaxId` is kept (together: `EdgesAggregated`) |
| HierPortEdges.KeepsCheckMaxId | src/yosysHierarchicalPortEdges.js:131-132 | after the pass the node passes `checkMaxId` below the counter |
| HierPortEdgesOld.AllPortsAreConnectedRecording | src/hierarchicalPortEdges.js:30-82 | the same answer as the current check; on success it records the last member's far parent for the group |
| HierPortEdgesOld.RecordedUnderGroup | src/hierarchicalPortEdges.js:30-82 | the recorded key is the group port itself |
| HierPortEdgesOld.GetNodeIds | src/hierarchicalPortEdges.js:84-99 | defined iff the port is the edge's first source or target; returns that node and the other |
| HierPortEdgesOld.GetNodeIdsOfAggregated | src/hierarchicalPortEdges.js:84-128 | on an aggregated edge it returns the two group ports' nodes |
| HierPortEdgesOld.OldAggregator.CreateAggregatedEdge | src/hierarchicalPortEdges.js:101-128 | fails iff the group has no record, or the group port or the recorded far port has no owning node (see Left out); otherwise appends the edge with the next id, oriented by the group port's direction, and records it for both ports |
| HierPortEdgesOld.OldAggregator.AggregateAt | src/hierarchicalPortEdges.js:130-141 | computes `OldAtPort`: a group whose members are all linked records its far group, marks the member edges and gets its edge; any other group is left alone; edges are only appended |
| HierPortEdgesOld.AggregateHierarchicalPortEdges | src/hierarchicalPortEdges.js:165-200 | a node with an absent list is unchanged; otherwise it succeeds iff `OldChildrenPass` does (the record started afresh for each child), the edges become `FilterEdges` of the pass and the counter is the pass's; every edge left is an old one or has a new id |
| HierPortEdgesOld.OldAggregator.Aggregate | src/hierarchicalPortEdges.js:130-141 | computes `OldPortsPass`, members before their header |
| HierPortEdgesOld.Recorded | src/hierarchicalPortEdges.js:30-82 | a connected group records, under the group port, the far owner of its LAST member |
| HierPortEdgesOld.OldAtPortGrows | src/hierarchicalPortEdges.js:130-141 | one step only appends edges with fresh ids and only adds marks |
| HierPortEdgesOld.OldPortsPassGrows | src/hierarchicalPortEdges.js:130-141 | so does the recursion over a port list |
| HierPortEdgesOld.OldAtPortLinks | src/hierarchicalPortEdges.js:130-141 | a linked group gets the edge from the group port to its recorded far port, every member edge is marked, and the far end of the new edge is that port |
| HierPortEdgesOld.OldAtPortFails | src/hierarchicalPortEdges.js:101-128 | for a linked group whose members are filed under it, the step fails exactly when the group port or the far group port has no owning node |
| HierPortEdgesOld.NodeLookupsOld | src/hierarchicalPortEdges.js:171-184 | the dictionaries the driver fills are `OldLookups` of the node: owners, ports and owning nodes of the node's and its children's ports |
| Yosys.FromYosys | src/yosys.js:8-67 | fails when there is no top module; otherwise the root has id 0, name "root", no ports, no edges and one child (id 1, the top module), passes `checkMaxId`, and both builders are registered with the top at level 1; the top module is `BlockNormalized`: its port hierarchy discovered and its hierarchical port edges aggregated |
| Yosys.BuildTop | src/yosys.js:33-50 | the top node takes the next id and the module's name, is registered with its builder, passes `checkMaxId`, and is `BlockNormalized`: its port hierarchy discovered and its hierarchical port edges aggregated |
| Yosys.StartRoot | src/yosys.js:23-30 | the root builder is fresh, named "root", at level 0 and registered under id 0; the root node has id 0, no ports, absent lists and `maxId` 0, and the counter stands at 1 |
| Yosys.FromYosysForSingleNodeWithExistingRoot | src/yosys.js:69-81 | the node keeps id, name, class and ports and passes `checkMaxId` below the counter |
| Schematic.ToggleHideChildren | src/d3-hwschematic.js:37-58 | swaps shown and hidden children and edges, keeps everything else, and reports the children and the node to focus |
| Schematic.ToggleTwice | src/d3-hwschematic.js:37-58 | toggling twice restores the node |
| Schematic.CollapseThenExpand | src/d3-hwschematic.js:37-58 | collapsing focuses the parent and expanding focuses the node, with the same children |
| Schematic.HwSchematicFromYosys | src/d3-hwschematic.js:314-319 | the default comparator is exact equality; the root passes `checkMaxId` and has one child |
| Schematic.NodeFresh | tests/objectIdTestFunctions.js:10-31 | a graph that passes `detectDuplicitIds` has distinct child ids and edge ids at every level |
| Schematic.WalkSound | src/yosysUtills.js:171-187 | the walk by path only reaches nodes of a sound graph |
| Schematic.ReloadedChecks | src/d3-hwschematic.js:366-386 | after a reload with `maxId` written along the path, the graph passes `checkMaxId` |
| Schematic.YosysLoadNodeByPath | src/d3-hwschematic.js:366-386 | a bad path throws; a path to a non-cell gives null; an unregistered node throws; otherwise the node is rebuilt with id, name and ports kept, the counter restarts above the old `maxId`, and the graph passes `checkMaxId` |
| Schematic.LoadAt | src/d3-hwschematic.js:371-385 | reloading at a registered node gives the rebuilt graph with `maxId` updated along the path |
| Schematic.ReloadNode | src/d3-hwschematic.js:377-379 | the counter restarts above the root's `maxId` and the rebuilt node keeps id, name and ports |
| Schematic.FindUnregistered | src/d3-hwschematic.js:379-384 | finds a path node without a builder, or none iff all have one |

## Left out

- Rendering and layout: the d3 drawing, ELK layout, `widthOfText`, the renderer and the event handlers of src/d3-hwschematic.js. None of them changes the graph model.
- Ids are natural numbers. The source keeps ids as decimal strings and reads them back with `parseInt`. Every id here comes from the counter, so the two agree.
- Dictionary order: JavaScript visits integer-like object keys before other keys, in numeric order. Netlist dictionaries here are association lists in insertion order, and so are the trie's groups (`PortHierarchy.GetForPrefix`). Port names that look like numbers may therefore come out in another order.
- Net and constant keys: the source indexes edges by a bit's string form, so net 0 and constant "0" share a key. The model keeps `Net(0)` and `Const("0")` apart. Yosys numbers nets from 2.
- LNodeBuilding.LNodeBuilder.Build: module recursion carries a fuel bound. A design whose instance hierarchy is deeper than the fuel (or cyclic) gives `Err`, where the source would recurse without end.
- LObjects.CreateLPort: a port side is an enum, so the source's "invalid side" throw cannot be represented. The "Invalid direction" throws of the aggregation code are unreachable for the same reason: a port's direction is INPUT or OUTPUT.
- ObjectIdChecks.CheckMaxIdCovers: `checkMaxId` is modelled on the ports, children and edges in use. It does not look at hidden `_ports`, because the model has no hidden port list. It also does not check `maxId` against edges of hidden children that the source reaches through `_children`. These are the same lists in the model.
- The `assertBuilderIdCounter*` helpers of tests/objectIdTestFunctions.js compare builder objects. They are not modelled.
- `addEdge` writes `edgeTargetsDict` and `edgeSourcesDict` in src/yosysLNodeBuilder.js:392-437. Nothing reads them back, so they are not modelled.
- BigInt-sized constants: the model gives constant runs an unbounded value, so no precision limit applies. `getConstNodeName` converts runs through BigInt in the source.
- YosysUtils.PortNameSplice: a string converts to a number only when it is empty or all decimal digits. Leading spaces, a sign, hex or an exponent read as NaN here. JavaScript would accept them.
- `makeLPort`, `makeLEdge`, `discoverPortHierarchy` and `collectPortIdToParentObjDict` are called but not defined in the source files. They are modelled as `createLPort`, `createLEdge`, `setPortHierarchy` and the parent-map collection of `getChildIdToParentDict`.
- HierPortEdgesOld.AggregateHierarchicalPortEdges: `maxId` is left unchanged. The source writes `nodeBuilder.idCounter - 1`, an object minus one, which is NaN (src/hierarchicalPortEdges.js:120).
- ConcatSplit.AggregateConcantsAndSplits and ConcatV1.AggregateConcants require distinct child and edge ids. The source's id-keyed dictionaries assume them; with duplicates it silently keeps only the last object per id.
- ConcatSplit.TwoBitFoldAsWritten: states that the as-written pass cannot get through both edges of the example, not at which edge it stops; pinning the edge would need the whole first pass evaluated on the concrete netlist.
- Yosys.FromYosys: states `checkMaxId` for the graph it builds but not that the ids in it are pairwise distinct (`detectDuplicitIds`, tests/objectIdTestFunctions.js:2-31). Every id is drawn from the one counter, but the uniqueness of the whole graph is not proved through building, normalizing and folding. `Schematic.YosysLoadNodeByPath` takes it as a precondition.
- LNodeBuilding.LNodeBuilder.Build: does not state what was loaded from the module, that the children were normalized, or that an existing node's hierarchical port edges were aggregated. `LNodeBuilding.LNodeBuilder.LoadFromModule` states the loading (`ContentLoaded`) and `LNodeBuilding.LNodeBuilder.Finish` the normalization (`NormalizedAt`) and the end of the build (`Sealed`, with `EdgesAggregated` for an existing node); Build and Fill do not relay them.
- LNodeBuilding.LNodeBuilder.Fill: does not relay what LoadFromModule and Finish state about the content, the normalization and the aggregation (see the Build line).
- ConcatSplit.TargetFold: leaves the first SLICE alone when it is met again among the same edge's targets, where the source folds it into itself (see the Findings row for src/yosysConcatAndSplitAggregation.js:207-216).
- ConcatSplit.Folder.FoldTarget: as TargetFold, which it computes: a SLICE listed twice on one edge is not folded into itself.
- ConcatSplit.Folder.FoldInto: requires two different slices; the source also calls `aggregateTwoSplits` with the same slice twice, which the model does not do (see TargetFold).
- ConcatSplit.Folder.FoldTargets: folds each SLICE once and never into itself; on an edge listing one SLICE twice it departs from the source, which empties that SLICE (see TargetFold).
- ConcatSplit.TargetsFold: departs from the source on an edge listing one SLICE twice, as TargetFold does.
- ConcatSplit.EdgeFold: departs from the source on an edge listing one SLICE twice, as TargetFold does.
- ConcatSplit.Folder.AggregateEdgeTargets: departs from the source on an edge listing one SLICE twice, as TargetFold does; `ConcatSplit.Folder.AggregateEdgeTargetsAsWritten` states what the source does there.
- ConcatSplit.SlicesFrom: departs from the source on an edge listing one SLICE twice, as TargetFold does.
- ConcatSplit.Folder.FoldEdges: departs from the source on an edge listing one SLICE twice, as TargetFold does.
- ConcatSplit.Folder.AggregateSplits: departs from the source on an edge listing one SLICE twice, as TargetFold does.
- ConcatSplit.Folder.FoldSlices: departs from the source on an edge listing one SLICE twice, as TargetFold does.
- ConcatSplit.BothPasses: its SLICE half departs from the source on an edge listing one SLICE twice, as TargetFold does.
- ConcatSplit.Folder.FoldAll: its SLICE half departs from the source on an edge listing one SLICE twice, as TargetFold does.
- ConcatSplit.AggregateConcantsAndSplits: the SLICE half of `PassesReplay` departs from the source on an edge listing one SLICE twice, as TargetFold does.
- HierPortEdgesOld.OldAggregator.CreateAggregatedEdge: when the group port or its recorded far port has no owning node, the source pushes an endpoint whose node id is `undefined` (src/hierarchicalPortEdges.js:105-114). An endpoint here always has a node id, so the model returns an error there instead. `HierPortEdgesOld.OldAtPortFails` states exactly when this happens. The far owner is a node, not a port, when the far member sits in a node's own port list.
- PortHierarchy.SetPortHierarchy requires the node to pass `checkMaxId`, so that new header ids can be told from old ones. Every builder call site meets this.

## Findings

| source | as written | input that shows it | evidently intended | confidence | as-written member | corrected member |
|---|---|---|---|---|---|---|
| src/yosysConcatAndSplitAggregation.js:79-97 | `indexOf` gives -1 when the right CONCAT no longer has the target port, and the `=== undefined` check never fires. `ports[-1] = first` then writes a property that is no array index, so the first input is lost. The later inputs are inserted at the front, and no port is overwritten | a CONCAT whose 2-bit input A takes bit 0 from CONCAT L1 and bit 1 from CONCAT L2: folding L1 replaces A, and folding L2 then finds no A | an error when the target port is missing, as the dead undefined-check means | not executed | ConcatSplit.MissingTargetLosesFirstInput | ConcatSplit.Folder.AggregateTwoConcats |
| src/yosysConcatAndSplitAggregation.js:204-219 | every later SLICE target of an edge is folded into the first, including one already folded through an earlier edge; `aggregateTwoSplits` then reads `ports[1]` of an emptied slice and throws | two SLICE cells S1 (id 1) and S2 (id 4), and two per-bit edges, bit 0 driven by node 7 and bit 1 by node 9, each targeting both S1 and S2: the first edge folds S2 into S1, and the second edge folds the emptied S2 again | fold each slice once and skip slices already folded | not executed | ConcatSplit.TwoBitFoldAsWritten | ConcatSplit.TwoBitFold |
| src/yosysConcatAndSplitAggregation.js:207-216 | a SLICE met again among one edge's targets is folded into the first SLICE even when it is that same SLICE: `aggregateTwoSplits(S, S)` pushes S's output onto S, then empties S's ports, and S goes into `nodesToDelete`, while `filterTargets` keeps the edge's targets on S | a SLICE S (id 1) whose input A reads one net bit twice, so that the bit's edge targets A of S twice: S ends with no port and leaves the children, and the edge still targets it | compare the SLICE with the first one and leave it alone when they are the same | not executed | ConcatSplit.SelfSliceFoldAsWritten | ConcatSplit.SelfSliceFold |
| src/yosysHierarchicalPortEdges.js:69-87 | `allPortsAreConnected` returns the far parent of the LAST member, even when the members lead to different groups | group p with members p_x wired to group q and p_y wired to group r: the edges to q are deleted and p is linked to r | accept a group only when all members lead to the same group, as the comment at lines 32-34 says | not executed | HierPortEdges.MixedGroupsAccepted | HierPortEdges.AllPortsAreConnectedToOne |
| src/yosysConcatAggregation.js:65-87 | `aggregateTwoNodes` moves the left CONCAT's ports into the right one without raising the right node's `maxId` | right CONCAT id 5 with `maxId` 7 receiving input port id 9 | raise `maxId` to the larger of the two nodes' | not executed | ConcatV1.FrontBreaksMaxId | ConcatV1.FrontRaisedKeepsMaxId |

The model runs the intended behaviour of the first four rows, not the written one: `ConcatSplit.Folder.AggregateTwoConcats` fails on a missing target port, `ConcatSplit.Folder.FoldTargets` folds each slice once and never a slice into itself, and `HierPortEdges.Aggregator.AggregateAt` links a group only when all its members lead to one group. The whole SLICE pass therefore departs from the source on an edge that lists one SLICE twice; the "## Left out" lines on the SLICE members say so. The as-written members exist only to exhibit each discrepancy.
