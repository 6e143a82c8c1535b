/** The graph operations of the schematic component in
    src/d3-hwschematic.js: collapsing and expanding a node, the
    `fromYosys` entry point with its default suffix comparator, and
    reloading one node of an existing graph by its instance path. */
module Schematic {
  import opened Outcomes
  import opened Graph
  import opened Netlist
  import opened Text
  import opened ObjectIdChecks
  import opened YosysUtils
  import opened PortSuffixes
  import opened LNodeValues
  import opened LNodeBuilding
  import Yosys
  import ConcatSplit

  // ---------------------------------------------------------------------
  // Collapsing and expanding

  /** Where the focus moves after a toggle: to the node's parent when it
      collapses, to the node itself when it expands. */
  datatype Focus = ParentNode | ThisNode

  /** The other field: a visible list becomes hidden and a hidden one
      visible; a node with neither keeps neither. */
  function Swapped(s: Slot): Slot
  {
    match s
    case Shown => Hidden
    case Hidden => Shown
    case Absent => Absent
  }

  /** `toggleHideChildren`: the visible and hidden children change places,
      and so do the visible and hidden edges. It yields the children that
      were visible (when collapsing) or hidden (when expanding; `undefined`
      if there were none) and the next focus. */
  function ToggleHideChildren(n: Node): (r: (Node, Option<seq<Node>>, Focus))
    ensures Kids(r.0) == Kids(n) && EdgesOf(r.0) == EdgesOf(n)
    ensures r.0.childrenAt.Shown? <==> n.childrenAt.Hidden?
    ensures r.0.childrenAt.Hidden? <==> n.childrenAt.Shown?
    ensures r.0.edgesAt.Shown? <==> n.edgesAt.Hidden?
    ensures r.0.edgesAt.Hidden? <==> n.edgesAt.Shown?
    ensures r.0.(childrenAt := n.childrenAt, edgesAt := n.edgesAt) == n
    ensures n.childrenAt.Shown? ==> r.1 == Some(n.children) && r.2 == ParentNode
    ensures !n.childrenAt.Shown? ==> r.1 == (if n.childrenAt.Hidden? then Some(n.children) else None) && r.2 == ThisNode
  {
    var children := if n.childrenAt.Absent? then None else Some(n.children);
    var focus := if n.childrenAt.Shown? then ParentNode else ThisNode;
    (n.(childrenAt := Swapped(n.childrenAt), edgesAt := Swapped(n.edgesAt)), children, focus)
  }

  /** Toggling twice restores the node. */
  lemma ToggleTwice(n: Node)
    ensures ToggleHideChildren(ToggleHideChildren(n).0).0 == n
  {
  }

  /** A collapse followed by an expansion hands back the same children,
      with the focus on the parent and then on the node. */
  lemma CollapseThenExpand(n: Node)
    requires n.childrenAt.Shown?
    ensures var (c, kids, focus) := ToggleHideChildren(n);
            var (_, kids', focus') := ToggleHideChildren(c);
            kids == kids' == Some(n.children) && focus == ParentNode && focus' == ThisNode
  {
  }

  // ---------------------------------------------------------------------
  // Building

  /** The static `fromYosys`: the exact suffix comparator unless the caller
      gives one. */
  method HwSchematicFromYosys(design: Design, limit: Option<int>, given: Option<SuffixRule>, fuel: nat)
    returns (r: Result<(Node, LNodeBuilder)>)
    ensures GetTopModule(design).Err? ==> r.Err?
    ensures r.Ok? ==> r.value.1.rule == (if given.Some? then given.value else ExactSuffix)
    ensures r.Ok? ==> CheckMaxId(r.value.0) && r.value.0.id == 0 && |Kids(r.value.0)| == 1
  {
    r := Yosys.FromYosys(design, limit, DefaultRule(given), fuel);
  }

  // ---------------------------------------------------------------------
  // Reloading one node

  /** The children the path walk scans at a node. */
  function Scanned(n: Node): Option<seq<Node>>
  {
    if n.childrenAt.Absent? then None else Some(n.children)
  }

  /** The children the walk starts from: only the root's visible ones. */
  function Visible(root: Node): Option<seq<Node>>
  {
    if root.childrenAt.Shown? then Some(root.children) else None
  }

  /** The graph after a reload, following the walk of `elkGetModuleByPath`:
      the node the walk ends at is replaced by `rebuilt`, and every node on
      the walk's object path, the rebuilt one included, gets `maxId` `m`. */
  function Reloaded(children: Option<seq<Node>>, output: Node, path: seq<string>, rebuilt: Node, m: int): Node
    requires children.Some? ==> children.value == Kids(output)
    decreases |path|
  {
    if path == [] then rebuilt.(maxId := Some(m))
    else if children.None? then output
    else
      var k := FirstNamed(children.value, path[0]);
      if k.None? then Reloaded(children, output, path[1..], rebuilt, m)
      else
        var child := children.value[k.value];
        output.(children := output.children[k.value := Reloaded(Scanned(child), child, path[1..], rebuilt, m)],
                maxId := Some(m))
  }

  /** `graph` is `root` after reloading the node at `path` as `node`,
      whose `maxId` is the one every node on the path gets. */
  ghost predicate IsReload(graph: Node, root: Node, path: seq<string>, node: Node)
  {
    node.maxId.Some? && graph == Reloaded(Visible(root), root, path, node, node.maxId.value)
  }

  /** A node that passes both checks of the test suite, with `maxId` at most `bound`. */
  ghost predicate Sound(n: Node, bound: int)
  {
    CheckMaxId(n) && n.maxId.value <= bound && FreshIds(NodeIds(n), {})
  }

  /** The ids of a list of nodes repeat nowhere, so neither do the ids of
      the nodes themselves nor those of any one subtree. */
  lemma NodesFresh(ns: seq<Node>, seen: set<nat>)
    requires FreshIds(NodesIds(ns), seen)
    ensures FreshIds(ConcatSplit.ChildIds(ns), seen)
    ensures forall k | 0 <= k < |ns| :: FreshIds(NodeIds(ns[k]), seen)
  {
    NodesFreshIds(ns, seen);
    NodesFreshEach(ns, seen);
  }

  lemma {:induction false} NodesFreshIds(ns: seq<Node>, seen: set<nat>)
    requires FreshIds(NodesIds(ns), seen)
    ensures FreshIds(ConcatSplit.ChildIds(ns), seen)
  {
    if ns != [] {
      var head := NodeIds(ns[0]);
      FreshIdsAppend(head, NodesIds(ns[1..]), seen);
      NodesFreshIds(ns[1..], seen + Elems(head));
      var rest := ConcatSplit.ChildIds(ns[1..]);
      assert ConcatSplit.ChildIds(ns) == [ns[0].id] + rest;
      assert head[0] == ns[0].id;
      FreshIdsShrink(rest, seen + Elems([ns[0].id]), seen + Elems(head));
      FreshIdsAppend([ns[0].id], rest, seen);
    }
  }

  lemma {:induction false} NodesFreshEach(ns: seq<Node>, seen: set<nat>)
    requires FreshIds(NodesIds(ns), seen)
    ensures forall k | 0 <= k < |ns| :: FreshIds(NodeIds(ns[k]), seen)
  {
    if ns != [] {
      var head := NodeIds(ns[0]);
      FreshIdsAppend(head, NodesIds(ns[1..]), seen);
      NodesFreshEach(ns[1..], seen + Elems(head));
      forall k | 0 < k < |ns| ensures FreshIds(NodeIds(ns[k]), seen) {
        assert ns[k] == ns[1..][k - 1];
        FreshIdsShrink(NodeIds(ns[k]), seen, seen + Elems(head));
      }
    }
  }

  /** Fresh against a set of ids, fresh against any part of it. */
  lemma FreshIdsShrink(s: seq<nat>, small: set<nat>, big: set<nat>)
    requires small <= big && FreshIds(s, big)
    ensures FreshIds(s, small)
  {
  }

  /** A node whose ids repeat nowhere has distinct child ids (its own
      included) and distinct edge ids, and so has each of its children. */
  lemma NodeFresh(n: Node)
    requires FreshIds(NodeIds(n), {})
    ensures Distinct(Family(n.id, Kids(n))) && Distinct(EdgeIds(EdgesOf(n)))
    ensures forall k | 0 <= k < |Kids(n)| :: FreshIds(NodeIds(Kids(n)[k]), {})
  {
    var kids := NodesIds(Kids(n));
    assert NodeIds(n) == [n.id] + kids + EdgeIds(EdgesOf(n)) + PortsIds(n.ports);
    FreshIdsAppend([n.id] + kids + EdgeIds(EdgesOf(n)), PortsIds(n.ports), {});
    FreshIdsAppend([n.id] + kids, EdgeIds(EdgesOf(n)), {});
    FreshIdsAppend([n.id], kids, {});
    assert Elems([n.id]) == {n.id};
    NodesFresh(Kids(n), {n.id});
    FreshIdsAppend([n.id], ConcatSplit.ChildIds(Kids(n)), {});
  }

  /** The node the path walk reaches in a sound graph is sound. */
  lemma {:induction false} WalkSound(children: Option<seq<Node>>, output: Node, objectPath: seq<Node>, path: seq<string>, bound: int)
    requires Sound(output, bound) && (children.Some? ==> children.value == Kids(output))
    ensures ElkWalk(children, output, objectPath, path).Ok? ==> Sound(ElkWalk(children, output, objectPath, path).value.0, bound)
    decreases |path|
  {
    if path != [] && children.Some? {
      var k := FirstNamed(children.value, path[0]);
      if k.None? {
        WalkSound(children, output, objectPath, path[1..], bound);
      } else {
        var child := children.value[k.value];
        NodeFresh(output);
        assert Sound(child, bound);
        WalkSound(Scanned(child), child, objectPath + [child], path[1..], bound);
      }
    }
  }

  /** A reload keeps `checkMaxId` true of the whole graph, and every node
      on the path ends with `maxId` `m`, when the rebuilt node passes it
      within `m` and `m` is at least every old `maxId`. */
  lemma {:induction false} ReloadedChecks(children: Option<seq<Node>>, output: Node, objectPath: seq<Node>, path: seq<string>,
                                          rebuilt: Node, m: int)
    requires children.Some? ==> children.value == Kids(output)
    requires CheckMaxId(output) && output.maxId.value <= m
    requires CheckMaxId(rebuilt) && rebuilt.maxId.value <= m
    requires ElkWalk(children, output, objectPath, path).Ok?
    ensures CheckMaxId(Reloaded(children, output, path, rebuilt, m))
    ensures Reloaded(children, output, path, rebuilt, m).maxId == Some(m)
    decreases |path|
  {
    if path == [] {
      CheckMaxIdIsContentWithin(rebuilt);
      ContentWithinMonotone(rebuilt, rebuilt.maxId.value, m);
      CheckMaxIdIsContentWithin(rebuilt.(maxId := Some(m)));
    } else {
      var k := FirstNamed(children.value, path[0]);
      if k.None? {
        ReloadedChecks(children, output, objectPath, path[1..], rebuilt, m);
      } else {
        var child := children.value[k.value];
        ReloadedChecks(Scanned(child), child, objectPath + [child], path[1..], rebuilt, m);
        var r := Reloaded(children, output, path, rebuilt, m);
        CheckMaxIdIsContentWithin(output);
        ContentWithinMonotone(output, output.maxId.value, m);
        assert PortsWithin(r.ports, m) && EdgesWithin(EdgesOf(r), m);
        assert ChildrenWithin(Kids(r), m);
        CheckMaxIdIsContentWithin(r);
      }
    }
  }

  /** `yosysLoadNodeByPath`: the node the path selects in the graph is
      rebuilt by its own builder, one level deep, with the counter reseeded
      just above the root's `maxId`; every node on the path then gets the
      new last id as its `maxId`. A path naming something that is not a
      cell yields `null`; a node without a builder, on the path or at its
      end, is an error. The result is the updated graph and the rebuilt
      node. */
  method YosysLoadNodeByPath(design: Design, root: Node, path: seq<string>, shared: Shared, fuel: nat)
    returns (r: Result<Option<(Node, Node)>>)
    requires shared.Registry() && CheckMaxId(root) && Sound(root, root.maxId.value)
    requires forall id | id in shared.builders :: id <= root.maxId.value
    requires ElkModuleByPath(root, path).Ok? ==>
               var cur := ElkModuleByPath(root, path).value.0;
               cur.id in shared.builders && shared.builders[cur.id].source.Some? ==>
                 !ConcatSplit.IsConcat(cur) && !ConcatSplit.IsSlice(cur)
    modifies shared, shared.counter, shared.builders.Values
    ensures ElkModuleByPath(root, path).Err? ==> r.Err?
    ensures ElkModuleByPath(root, path).Ok? && ModuleByPath(design, path) == Ok(NotACell) ==> r == Ok(None)
    ensures (ElkModuleByPath(root, path).Ok? && ModuleByPath(design, path).Ok? && !ModuleByPath(design, path).value.NotACell?
             && ElkModuleByPath(root, path).value.0.id !in old(shared.builders)) ==> r.Err?
    ensures r.Ok? && r.value.Some? ==>
              var (graph, node) := r.value.value;
              var (cur, objectPath) := ElkModuleByPath(root, path).value;
              && ModuleByPath(design, path).Ok? && !ModuleByPath(design, path).value.NotACell?
              && node.id == cur.id && node.name == cur.name && node.ports == cur.ports
              && node.maxId == Some(shared.counter.id - 1) && shared.counter.id > root.maxId.value
              && IsReload(graph, root, path, node)
              && CheckMaxId(graph) && graph.maxId == node.maxId
              && forall k | 0 <= k < |objectPath| :: objectPath[k].id in shared.builders
  {
    var walk :- ElkGetModuleByPath(root, path);
    var (current, objectPath) := walk;
    var target :- YosysGetModuleByPath(design, path);
    if target.NotACell? {
      return Ok(None);
    }
    if current.id !in shared.builders {
      return Err("Error: nodeBuilder is undefined");
    }
    var loaded :- LoadAt(root, path, current, objectPath, shared, fuel);
    r := Ok(Some(loaded));
  }

  /** `yosysLoadNodeByPath` once the node and its builder are found: the
      node reloaded, every node on the path checked for a builder, and the
      graph rewritten along the path. */
  method LoadAt(root: Node, path: seq<string>, current: Node, objectPath: seq<Node>, shared: Shared, fuel: nat)
    returns (r: Result<(Node, Node)>)
    requires shared.Registry() && CheckMaxId(root) && Sound(root, root.maxId.value)
    requires forall id | id in shared.builders :: id <= root.maxId.value
    requires ElkModuleByPath(root, path) == Ok((current, objectPath)) && current.id in shared.builders
    requires shared.builders[current.id].source.Some? ==> !ConcatSplit.IsConcat(current) && !ConcatSplit.IsSlice(current)
    modifies shared, shared.counter, shared.builders.Values
    ensures r.Ok? ==>
              var (graph, node) := r.value;
              && node.id == current.id && node.name == current.name && node.ports == current.ports
              && node.maxId == Some(shared.counter.id - 1) && shared.counter.id > root.maxId.value
              && IsReload(graph, root, path, node)
              && CheckMaxId(graph) && graph.maxId == node.maxId
              && forall k | 0 <= k < |objectPath| :: objectPath[k].id in shared.builders
  {
    WalkSound(Visible(root), root, [root], path, root.maxId.value);
    var rebuilt :- ReloadNode(root, current, shared.builders[current.id], fuel);
    var missing := FindUnregistered(objectPath, shared.builders);
    if missing.Some? {
      var n := objectPath[missing.value];
      return Err("cannot find nodeBuildrer for " + NatToDecimal(n.id) + " " + n.name);
    }
    var node := rebuilt.(maxId := Some(shared.counter.id - 1));
    CheckMaxIdIsContentWithin(rebuilt);
    ContentWithinMonotone(rebuilt, rebuilt.maxId.value, node.maxId.value);
    ReloadedChecks(Visible(root), root, [root], path, node, node.maxId.value);
    r := Ok((Reloaded(Visible(root), root, path, node, node.maxId.value), node));
  }

  /** The reload proper: the counter reseeded to the root's `maxId` plus one
      and the node rebuilt by its builder with its own level as the limit. */
  method ReloadNode(root: Node, current: Node, builder: LNodeBuilder, fuel: nat) returns (r: Result<Node>)
    requires builder.shared.Registry() && CheckMaxId(root)
    requires forall id | id in builder.shared.builders :: id <= root.maxId.value
    requires Sound(current, root.maxId.value)
    requires builder.source.Some? ==> !ConcatSplit.IsConcat(current) && !ConcatSplit.IsSlice(current)
    modifies builder, builder.shared, builder.shared.counter
    ensures builder.shared.Registry() && BuildersKept(old(builder.shared.builders), builder.shared.builders)
    ensures builder.shared.counter.id > root.maxId.value
    ensures r.Ok? ==> r.value.id == current.id && r.value.name == current.name && r.value.ports == current.ports
    ensures r.Ok? ==> CheckMaxId(r.value) && r.value.maxId.value < builder.shared.counter.id
  {
    NodeFresh(current);
    CheckMaxIdIsContentWithin(current);
    ContentWithinMonotone(current, current.maxId.value, root.maxId.value);
    builder.shared.counter.id := root.maxId.value + 1;
    r := Yosys.FromYosysForSingleNodeWithExistingRoot(current, builder, Some(builder.level), fuel);
  }

  /** The position of the first node on the path without a builder. */
  method FindUnregistered(objectPath: seq<Node>, builders: map<nat, LNodeBuilder>) returns (r: Option<nat>)
    ensures r.None? <==> forall k | 0 <= k < |objectPath| :: objectPath[k].id in builders
    ensures r.Some? ==> r.value < |objectPath| && objectPath[r.value].id !in builders
  {
    for i := 0 to |objectPath|
      invariant forall k | 0 <= k < i :: objectPath[k].id in builders
    {
      if objectPath[i].id !in builders {
        return Some(i);
      }
    }
    return None;
  }
}
