/** The older CONCAT folding (src/yosysConcatAggregation.js): a CONCAT whose
    output feeds only another CONCAT hands its inputs to that one, which
    puts them at the front of its ports. The target port is taken from a
    dictionary of the port objects built before the pass, and the index it
    holds there must be 0, even once an earlier fold has replaced it. No SLICE is folded, no `maxId` is raised and no port list is
    renumbered afterwards. The dictionaries and the small lookups are the
    same as in the newer folding and are shared with it. */
module ConcatV1 {
  import opened Outcomes
  import opened Graph
  import opened ObjectIdChecks
  import opened ConcatSplit

  const IndexNotZero := "Port index is not zero, need to regenerate indices in port labels"
  const MissingTarget := "Cannot read the properties of an undefined port"

  // ---------------------------------------------------------------------
  // Placing the inputs at the front

  /** The ports with their `index` set to their position, counted from `base`. */
  function AtPositions(ports: seq<Port>, base: nat): (r: seq<Port>)
    ensures |r| == |ports| && forall i | 0 <= i < |ports| :: r[i] == ports[i].(index := base + i)
  {
    seq(|ports|, i requires 0 <= i < |ports| => ports[i].(index := base + i))
  }

  /** The right CONCAT's ports once the inputs are in, the target port's
      stored index being 0: the first input overwrites position 0 (or
      becomes the only port of an empty list) and the others are spliced
      in after it, each carrying its position as index. */
  function Front(ports: seq<Port>, inputs: seq<Port>): seq<Port>
  {
    if inputs == [] then ports
    else AtPositions(inputs, 0) + (if ports == [] then [] else ports[1..])
  }

  /** The placing loop of `aggregateTwoNodes`: input `i` lands at position
      `i` with index `i`, the first one replacing the port at position 0 and
      the others inserted, so the rest of the old ports follow them; the
      port dictionary records each input's new index. */
  method PlaceAtFront(ports: seq<Port>, inputs: seq<Port>, index: map<nat, int>) returns (r: seq<Port>, ix: map<nat, int>)
    ensures inputs == [] ==> r == ports
    ensures inputs != [] && ports != [] ==> |r| == |inputs| + |ports| - 1 && r[|inputs|..] == ports[1..]
    ensures |r| >= |inputs| && forall i | 0 <= i < |inputs| :: r[i] == inputs[i].(index := i)
    ensures r == Front(ports, inputs)
    ensures ix == Reindexed(index, inputs)
  {
    r := ports;
    ix := index;
    for i := 0 to |inputs|
      invariant i == 0 ==> r == ports
      invariant i > 0 ==> r == AtPositions(inputs[..i], 0) + (if ports == [] then [] else ports[1..])
      invariant ix == Reindexed(index, inputs[..i])
    {
      var p := inputs[i].(index := i);
      if i == 0 {
        if r == [] {
          r := [p];
        } else {
          r := r[0 := p];
          assert r == [p] + ports[1..];
        }
        assert AtPositions(inputs[..1], 0) == [p];
      } else {
        assert r[..i] == AtPositions(inputs[..i], 0);
        r := Splice(r, i, p);
        assert AtPositions(inputs[..i + 1], 0) == AtPositions(inputs[..i], 0) + [p];
      }
      assert inputs[..i + 1][..i] == inputs[..i];
      if inputs[i].id in ix {
        ix := ix[inputs[i].id := i];
      }
    }
    assert inputs[..|inputs|] == inputs;
  }

  // ---------------------------------------------------------------------
  // The port dictionary

  /** `getNodePorts` on values: each port's `index` under its id, a later
      port replacing an earlier one with the same id. */
  function PortsIndexed(dict: map<nat, int>, ports: seq<Port>): (r: map<nat, int>)
    ensures forall id :: id in r <==> id in dict || exists k | 0 <= k < |ports| :: ports[k].id == id
    decreases |ports|
  {
    if ports == [] then dict
    else
      var r := PortsIndexed(dict[ports[0].id := ports[0].index], ports[1..]);
      assert forall k | 0 <= k < |ports| - 1 :: ports[1..][k] == ports[k + 1];
      r
  }

  /** `getNodePorts`. */
  method GetNodePorts(ports: seq<Port>, dict: map<nat, int>) returns (r: map<nat, int>)
    ensures r == PortsIndexed(dict, ports)
  {
    r := dict;
    for i := 0 to |ports|
      invariant PortsIndexed(r, ports[i..]) == PortsIndexed(dict, ports)
    {
      assert ports[i..][1..] == ports[i + 1..];
      r := r[ports[i].id := ports[i].index];
    }
  }

  /** A port's id is found with the index of the last port carrying it;
      an id no port carries keeps its entry. */
  lemma {:induction false} PortsIndexedAt(dict: map<nat, int>, ports: seq<Port>, id: nat)
    requires id in dict || exists k | 0 <= k < |ports| :: ports[k].id == id
    ensures (forall k | 0 <= k < |ports| :: ports[k].id != id) ==> PortsIndexed(dict, ports)[id] == dict[id]
    ensures forall k | 0 <= k < |ports| && ports[k].id == id && (forall j | k < j < |ports| :: ports[j].id != id) ::
              PortsIndexed(dict, ports)[id] == ports[k].index
    decreases |ports|
  {
    if ports != [] {
      var d := dict[ports[0].id := ports[0].index];
      PortsIndexedAt(d, ports[1..], id);
      assert forall k | 0 <= k < |ports| - 1 :: ports[1..][k] == ports[k + 1];
    }
  }

  /** The ports of each child in turn, as the loop of `getPortIdToPortDict`
      adds them. */
  function ChildrenPortsIndexed(dict: map<nat, int>, cs: seq<Node>): (r: map<nat, int>)
    decreases |cs|
  {
    if cs == [] then dict else ChildrenPortsIndexed(PortsIndexed(dict, cs[0].ports), cs[1..])
  }

  /** `getPortIdToPortDict` on values: the index of every port of the node
      and of its children, by id, the node's ports first, then each
      child's in order. */
  function PortIndexes(node: Node): map<nat, int>
  {
    ChildrenPortsIndexed(PortsIndexed(map[], node.ports), node.children)
  }

  /** `getPortIdToPortDict`. */
  method GetPortIdToPortDict(node: Node) returns (r: map<nat, int>)
    ensures r == PortIndexes(node)
  {
    r := GetNodePorts(node.ports, map[]);
    var cs := node.children;
    for i := 0 to |cs|
      invariant ChildrenPortsIndexed(r, cs[i..]) == PortIndexes(node)
    {
      assert cs[i..][1..] == cs[i + 1..];
      r := GetNodePorts(cs[i].ports, r);
    }
  }

  /** A port of a child that no later port of that child, and no port of
      a later child, shares its id with, is found with its own index. */
  lemma {:induction false} ChildPortIndexed(dict: map<nat, int>, cs: seq<Node>, c: nat, k: nat)
    requires c < |cs| && k < |cs[c].ports|
    requires forall j | k < j < |cs[c].ports| :: cs[c].ports[j].id != cs[c].ports[k].id
    requires forall d, j | c < d < |cs| && 0 <= j < |cs[d].ports| :: cs[d].ports[j].id != cs[c].ports[k].id
    ensures cs[c].ports[k].id in ChildrenPortsIndexed(dict, cs)
    ensures ChildrenPortsIndexed(dict, cs)[cs[c].ports[k].id] == cs[c].ports[k].index
    decreases |cs|
  {
    var p := cs[c].ports[k];
    var d := PortsIndexed(dict, cs[0].ports);
    if c == 0 {
      PortsIndexedAt(dict, cs[0].ports, p.id);
      ChildrenKeep(d, cs[1..], p.id);
    } else {
      ChildPortIndexed(d, cs[1..], c - 1, k);
    }
  }

  /** An id no port of the children carries keeps its entry. */
  lemma {:induction false} ChildrenKeep(dict: map<nat, int>, cs: seq<Node>, id: nat)
    requires id in dict
    requires forall d, j | 0 <= d < |cs| && 0 <= j < |cs[d].ports| :: cs[d].ports[j].id != id
    ensures id in ChildrenPortsIndexed(dict, cs) && ChildrenPortsIndexed(dict, cs)[id] == dict[id]
    decreases |cs|
  {
    if cs != [] {
      PortsIndexedAt(dict, cs[0].ports, id);
      ChildrenKeep(PortsIndexed(dict, cs[0].ports), cs[1..], id);
    }
  }

  /** The dictionary once the loop of `aggregateTwoNodes` has set each
      input's `index` to its new position; ports the dictionary does not
      hold are not added. */
  function Reindexed(index: map<nat, int>, inputs: seq<Port>): (r: map<nat, int>)
    ensures r.Keys == index.Keys
    decreases |inputs|
  {
    if inputs == [] then index
    else
      var k := |inputs| - 1;
      var m := Reindexed(index, inputs[..k]);
      if inputs[k].id in m then m[inputs[k].id := k] else m
  }

  /** Reindexing leaves the entry of a port that is no input. */
  lemma {:induction false} ReindexedKeeps(index: map<nat, int>, inputs: seq<Port>, id: nat)
    requires id in index && forall k | 0 <= k < |inputs| :: inputs[k].id != id
    ensures Reindexed(index, inputs)[id] == index[id]
    decreases |inputs|
  {
    if inputs != [] {
      var n := |inputs| - 1;
      assert forall k | 0 <= k < n :: inputs[..n][k] == inputs[k];
      ReindexedKeeps(index, inputs[..n], id);
    }
  }

  /** An input that no later input shares its id with is found at its
      position. */
  lemma {:induction false} ReindexedLast(index: map<nat, int>, inputs: seq<Port>, k: nat)
    requires k < |inputs| && inputs[k].id in index
    requires forall j | k < j < |inputs| :: inputs[j].id != inputs[k].id
    ensures Reindexed(index, inputs)[inputs[k].id] == k
    decreases |inputs|
  {
    var n := |inputs| - 1;
    if k < n {
      assert forall j | 0 <= j < n :: inputs[..n][j] == inputs[j];
      ReindexedLast(index, inputs[..n], k);
    }
  }

  // ---------------------------------------------------------------------
  // The merging pass

  /** A CONCAT taking new ports keeps the dictionary within what merging may do. */
  lemma NewPortsEvolved(orig: map<nat, Node>, nodes: map<nat, Node>, parentId: nat, right: nat, ports: seq<Port>)
    requires NodesEvolved(orig, nodes, parentId) && right in nodes && IsConcat(nodes[right])
    ensures NodesEvolved(orig, nodes[right := nodes[right].(ports := ports)], parentId)
  {
  }

  /** Rewiring targets keeps every edge and its id. */
  lemma WiringKeepsEdges(edgeIds: set<nat>, a: map<nat, Edge>, b: map<nat, Edge>)
    requires EdgesKept(edgeIds, a) && SameWiring(a, b)
    ensures EdgesKept(edgeIds, b)
  {
  }

  /** One round of the loop of `aggregate` for the CONCAT `left`, on the
      dictionaries: the error that stops the pass, `None` when nothing
      merges, or the nodes, edges and port dictionary once `left` is merged
      into the CONCAT its first output port feeds, with the id of the edge
      between them. */
  function MergeRound(nodes: map<nat, Node>, edges: map<nat, Edge>, index: map<nat, int>, edgeOf: map<nat, nat>, left: nat)
    : (r: Result<Option<(map<nat, Node>, map<nat, Edge>, nat, map<nat, int>)>>)
    requires left in nodes && forall p | p in edgeOf :: edgeOf[p] in edges
    ensures r.Ok? && r.value.Some? ==>
              && r.value.value.0.Keys == nodes.Keys && SameWiring(edges, r.value.value.1)
              && r.value.value.2 in edges && r.value.value.3.Keys == index.Keys
  {
    var out := FirstOutput(nodes[left].ports);
    if out.None? then Err("Concat child has no target")
    else
      var portId := nodes[left].ports[out.value].id;
      if portId !in edgeOf || |edges[edgeOf[portId]].targets| != 1 then Ok(None)
      else
        var t := edges[edgeOf[portId]].targets[0];
        if t.nodeId !in nodes then Err("Target node of target port is undefined")
        else if !IsConcat(nodes[t.nodeId]) then Ok(None)
        else TwoNodesMerged(nodes, edges, index, edgeOf, left, t, edgeOf[portId])
  }

  /** The merge of the CONCAT `left` into the one holding the target `t` of
      the edge `eid` on its first output port: the target port is looked
      up in the port dictionary built before the pass, and its stored
      index must be 0, wherever the port now is; the edges on the inputs
      of `left` are pointed at the right CONCAT, the inputs take the front
      of its ports and the dictionary records their new indices. */
  function TwoNodesMerged(nodes: map<nat, Node>, edges: map<nat, Edge>, index: map<nat, int>, edgeOf: map<nat, nat>,
                          left: nat, t: Endpoint, eid: nat)
    : (r: Result<Option<(map<nat, Node>, map<nat, Edge>, nat, map<nat, int>)>>)
    requires left in nodes && t.nodeId in nodes && eid in edges
    ensures r.Ok? <==> t.portId in index && index[t.portId] == 0 && AllRetargetable(edges, edgeOf, InputPorts(nodes[left].ports))
    ensures r.Ok? ==> r.value.Some? && r.value.value.2 == eid
    ensures r.Ok? ==> r.value.value.0.Keys == nodes.Keys && SameWiring(edges, r.value.value.1)
    ensures r.Ok? ==> forall nid | nid in nodes && nid != t.nodeId :: r.value.value.0[nid] == nodes[nid]
    ensures r.Ok? ==> r.value.value.3.Keys == index.Keys
  {
    var right := nodes[t.nodeId];
    var inputs := InputPorts(nodes[left].ports);
    if t.portId !in index then Err(MissingTarget)
    else if index[t.portId] != 0 then Err(IndexNotZero)
    else if !AllRetargetable(edges, edgeOf, inputs) then Err(MissingEdge)
    else
      Ok(Some((nodes[t.nodeId := right.(ports := Front(right.ports, inputs))],
               RetargetAll(edges, edgeOf, inputs, t.nodeId), eid, Reindexed(index, inputs))))
  }

  /** A second CONCAT folded into a port that a first fold has already
      replaced still succeeds: the port keeps its stored index 0, so the
      second CONCAT's inputs are placed from position 0 again. */
  lemma RefoldSucceeds(nodes: map<nat, Node>, edges: map<nat, Edge>, index: map<nat, int>, edgeOf: map<nat, nat>,
                       first: nat, second: nat, t: Endpoint, e1: nat, e2: nat)
    requires first in nodes && second in nodes && t.nodeId in nodes && e1 in edges && e2 in edges
    requires second != t.nodeId
    requires TwoNodesMerged(nodes, edges, index, edgeOf, first, t, e1).Ok?
    requires forall k | 0 <= k < |InputPorts(nodes[first].ports)| :: InputPorts(nodes[first].ports)[k].id != t.portId
    requires AllRetargetable(edges, edgeOf, InputPorts(nodes[second].ports))
    ensures var s := TwoNodesMerged(nodes, edges, index, edgeOf, first, t, e1).value.value;
            var r := TwoNodesMerged(s.0, s.1, s.3, edgeOf, second, t, e2);
            && r.Ok?
            && r.value.value.0[t.nodeId].ports ==
                 Front(Front(nodes[t.nodeId].ports, InputPorts(nodes[first].ports)), InputPorts(nodes[second].ports))
  {
    var s := TwoNodesMerged(nodes, edges, index, edgeOf, first, t, e1).value.value;
    ReindexedKeeps(index, InputPorts(nodes[first].ports), t.portId);
    WiringKeepsAllRetargetable(edges, s.1, edgeOf, InputPorts(nodes[second].ports));
    assert s.0[second] == nodes[second];
  }

  /** Two folds into one port: the second one's inputs take the front and
      overwrite the first one's first input, which is lost; the first
      one's other inputs and the old ports after position 0 follow. */
  lemma FrontTwice(ports: seq<Port>, first: seq<Port>, second: seq<Port>)
    requires first != [] && second != []
    ensures Front(Front(ports, first), second) ==
              AtPositions(second, 0) + AtPositions(first, 0)[1..] + (if ports == [] then [] else ports[1..])
  {
    var mid := Front(ports, first);
    assert mid[1..] == AtPositions(first, 0)[1..] + (if ports == [] then [] else ports[1..]);
  }

  /** A round that succeeds merges exactly when the CONCAT feeds another
      one through its first output port. */
  lemma MergeRoundMerges(nodes: map<nat, Node>, edges: map<nat, Edge>, index: map<nat, int>, edgeOf: map<nat, nat>, left: nat)
    requires left in nodes && forall p | p in edgeOf :: edgeOf[p] in edges
    ensures MergeRound(nodes, edges, index, edgeOf, left).Ok? ==>
              (MergeRound(nodes, edges, index, edgeOf, left).value.Some? <==> FeedsConcat(nodes, edges, edgeOf, left))
  {
    ConcatStepMerges(nodes, edges, edgeOf, left);
  }

  /** The loop of `aggregate` on values, from the `i`-th CONCAT of the list
      on, with the CONCATs merged away and the edges between merged pairs
      so far: the error that stops it, or the nodes, edges, both sets and
      the port dictionary it leaves. Unlike the newer pass, a CONCAT merged
      away keeps no one from taking its turn. */
  function MergesFrom(nodes: map<nat, Node>, edges: map<nat, Edge>, index: map<nat, int>, edgeOf: map<nat, nat>,
                      concats: seq<nat>, i: nat, dropped: set<nat>, dropEdges: set<nat>)
    : (r: Result<(map<nat, Node>, map<nat, Edge>, set<nat>, set<nat>, map<nat, int>)>)
    requires i <= |concats| && (forall k | 0 <= k < |concats| :: concats[k] in nodes)
    requires forall p | p in edgeOf :: edgeOf[p] in edges
    ensures r.Ok? ==> dropped <= r.value.2 && dropEdges <= r.value.3
    ensures r.Ok? ==> r.value.0.Keys == nodes.Keys && r.value.1.Keys == edges.Keys
    ensures r.Ok? ==> forall x | x in r.value.2 && x !in dropped :: x in concats[i..]
    decreases |concats| - i
  {
    if i == |concats| then Ok((nodes, edges, dropped, dropEdges, index))
    else
      match MergeRound(nodes, edges, index, edgeOf, concats[i])
      case Err(msg) => Err(msg)
      case Ok(None) => MergesFrom(nodes, edges, index, edgeOf, concats, i + 1, dropped, dropEdges)
      case Ok(Some((ns, es, eid, ix))) =>
        MergesFrom(ns, es, ix, edgeOf, concats, i + 1, dropped + {concats[i]}, dropEdges + {eid})
  }

  /** A CONCAT which, at its turn, feeds another CONCAT through its first
      output port is merged away by a pass that succeeds; one that feeds
      none is kept at its turn. */
  lemma MergesFromDrops(nodes: map<nat, Node>, edges: map<nat, Edge>, index: map<nat, int>, edgeOf: map<nat, nat>,
                        concats: seq<nat>, i: nat, dropped: set<nat>, dropEdges: set<nat>)
    requires i < |concats| && (forall k | 0 <= k < |concats| :: concats[k] in nodes)
    requires forall p | p in edgeOf :: edgeOf[p] in edges
    ensures var r := MergesFrom(nodes, edges, index, edgeOf, concats, i, dropped, dropEdges);
            r.Ok? && FeedsConcat(nodes, edges, edgeOf, concats[i]) ==> concats[i] in r.value.2
    ensures var r := MergeRound(nodes, edges, index, edgeOf, concats[i]);
            r.Ok? && !FeedsConcat(nodes, edges, edgeOf, concats[i]) ==>
              MergesFrom(nodes, edges, index, edgeOf, concats, i, dropped, dropEdges) ==
              MergesFrom(nodes, edges, index, edgeOf, concats, i + 1, dropped, dropEdges)
  {
    MergeRoundMerges(nodes, edges, index, edgeOf, concats[i]);
  }

  /** What `aggregateConcants` leaves of a node, replayed on its
      dictionaries: the error that stops the pass, or the node with the
      children and edges the rounds did not merge away, in their order. */
  ghost function ConcantsReplay(node: Node, nodes: map<nat, Node>, edges: map<nat, Edge>, edgeOf: map<nat, nat>): (r: Result<Node>)
    requires Indexed(node, nodes, edges, edgeOf)
  {
    ConcatIdsSelect(node.children);
    var concats := ConcatIds(node.children);
    assert forall k | 0 <= k < |concats| :: concats[k] in nodes by {
      forall k | 0 <= k < |concats| ensures concats[k] in nodes {
        assert concats[k] in concats;
      }
    }
    match MergesFrom(nodes, edges, PortIndexes(node), edgeOf, concats, 0, {}, {})
    case Err(msg) => Err(msg)
    case Ok((ns, es, dropped, dropEdges, _)) =>
      var ids := ChildIds(node.children);
      var eids := EdgeIds(node.edges);
      assert forall k | 0 <= k < |ids| :: ids[k] in ns by {
        forall k | 0 <= k < |ids| ensures ids[k] in ns {
          assert ids[k] in ids;
        }
      }
      assert forall k | 0 <= k < |eids| :: eids[k] in es by {
        forall k | 0 <= k < |eids| ensures eids[k] in es {
          assert eids[k] in eids;
        }
      }
      WithoutInside(ids, dropped, ns);
      WithoutInside(eids, dropEdges, es);
      Ok(Collect(ns, es, node.id, Without(ids, dropped), Without(eids, dropEdges)))
  }

  /** The objects `aggregateConcants` works on, by id: the node and its
      children, the edges, the stored `index` of each port of the port
      dictionary, the port-to-edge dictionary and the lists
      `node.children` and `node.edges`. */
  class Merger {
    var nodes: map<nat, Node>
    var edges: map<nat, Edge>
    var portIndex: map<nat, int>
    var children: seq<nat>
    var edgeList: seq<nat>
    const parentId: nat
    const edgeOf: map<nat, nat>
    ghost const orig: map<nat, Node>
    ghost const edgeIds: set<nat>

    ghost predicate Valid()
      reads this
    {
      && NodesEvolved(orig, nodes, parentId)
      && EdgesKept(edgeIds, edges)
      && (forall k | 0 <= k < |children| :: children[k] in nodes)
      && (forall k | 0 <= k < |edgeList| :: edgeList[k] in edges)
      && (forall p | p in edgeOf :: edgeOf[p] in edges)
    }

    constructor (parentId: nat, nodes: map<nat, Node>, edges: map<nat, Edge>, portIndex: map<nat, int>,
                 children: seq<nat>, edgeList: seq<nat>, edgeOf: map<nat, nat>)
      requires parentId in nodes && forall nid | nid in nodes :: nodes[nid].id == nid
      requires forall eid | eid in edges :: edges[eid].id == eid
      requires forall k | 0 <= k < |children| :: children[k] in nodes
      requires forall k | 0 <= k < |edgeList| :: edgeList[k] in edges
      requires forall p | p in edgeOf :: edgeOf[p] in edges
      ensures Valid()
      ensures this.nodes == nodes && this.edges == edges && this.children == children && this.edgeList == edgeList
      ensures this.portIndex == portIndex
      ensures this.parentId == parentId && this.edgeOf == edgeOf && orig == nodes && edgeIds == edges.Keys
    {
      this.nodes := nodes;
      this.edges := edges;
      this.portIndex := portIndex;
      this.children := children;
      this.edgeList := edgeList;
      this.parentId := parentId;
      this.edgeOf := edgeOf;
      this.orig := nodes;
      this.edgeIds := edges.Keys;
    }

    /** `aggregateTwoNodes`: the target port is taken from the port
        dictionary and its stored index must be 0, wherever it now is; then
        every input's edge is pointed at the right CONCAT, the inputs take
        the front of its ports and their new indices are stored. A port the
        dictionary lacks, a missing edge, or an edge without a target on the
        input, fails and leaves everything as it was. */
    method AggregateTwoNodes(inputs: seq<Port>, right: nat, targetPortId: nat) returns (r: Result<()>)
      requires Valid() && right in nodes && IsConcat(nodes[right])
      modifies this
      ensures Valid() && children == old(children) && edgeList == old(edgeList)
      ensures targetPortId !in old(portIndex) ==> r == Err(MissingTarget)
      ensures targetPortId in old(portIndex) && old(portIndex[targetPortId]) != 0 ==> r == Err(IndexNotZero)
      ensures r.Ok? <==> && targetPortId in old(portIndex) && old(portIndex[targetPortId]) == 0
                         && AllRetargetable(old(edges), edgeOf, inputs)
      ensures r.Ok? ==> nodes == old(nodes)[right := old(nodes[right]).(ports := Front(old(nodes[right].ports), inputs))]
      ensures r.Ok? ==> edges == RetargetAll(old(edges), edgeOf, inputs, right)
      ensures r.Ok? ==> portIndex == Reindexed(old(portIndex), inputs)
      ensures r.Err? ==> nodes == old(nodes) && edges == old(edges) && portIndex == old(portIndex)
      ensures r.Err? ==> r.msg in {MissingTarget, IndexNotZero, MissingEdge, "PortId was not found"}
    {
      if targetPortId !in portIndex {
        return Err(MissingTarget);
      }
      if portIndex[targetPortId] != 0 {
        return Err(IndexNotZero);
      }
      var retargeted := RetargetInputs(edges, edgeOf, inputs, right);
      if retargeted.Err? {
        return Err(retargeted.msg);
      }
      var placed, ix := PlaceAtFront(nodes[right].ports, inputs, portIndex);
      NewPortsEvolved(orig, nodes, parentId, right, placed);
      WiringKeepsEdges(edgeIds, edges, retargeted.value);
      nodes := nodes[right := nodes[right].(ports := placed)];
      edges := retargeted.value;
      portIndex := ix;
      r := Ok(());
    }

    /** One round of the loop of `aggregate` for the CONCAT `left`: when
        its first output port's edge has a single target on a CONCAT, the
        left CONCAT's inputs move there and the edge's id is returned, as
        `MergeRound` says. Only CONCATs change. */
    method MergeStep(left: nat) returns (r: Result<Option<nat>>)
      requires Valid() && left in nodes && IsConcat(nodes[left])
      modifies this
      ensures Valid() && children == old(children) && edgeList == old(edgeList)
      ensures forall nid | nid in nodes && !IsConcat(nodes[nid]) :: nodes[nid] == old(nodes[nid])
      ensures r.Ok? && r.value.None? ==> nodes == old(nodes) && edges == old(edges) && portIndex == old(portIndex)
      ensures r.Ok? <==> MergeRound(old(nodes), old(edges), old(portIndex), edgeOf, left).Ok?
      ensures r.Ok? ==>
                var s := MergeRound(old(nodes), old(edges), old(portIndex), edgeOf, left).value;
                && (r.value.Some? <==> s.Some?)
                && (s.Some? ==> nodes == s.value.0 && edges == s.value.1 && r.value.value == s.value.2
                                && portIndex == s.value.3)
      ensures r.Err? ==> r.msg in {"Concat child has no target", "Target node of target port is undefined",
                                   MissingTarget, IndexNotZero, MissingEdge, "PortId was not found"}
    {
      var target := GetChildTargetPortId(nodes[left]);
      if target.Err? {
        return Err(target.msg);
      }
      if target.value !in edgeOf {
        return Ok(None);
      }
      var edge := edges[edgeOf[target.value]];
      if |edge.targets| != 1 {
        return Ok(None);
      }
      var t := edge.targets[0];
      if t.nodeId !in nodes {
        return Err("Target node of target port is undefined");
      }
      if !IsConcat(nodes[t.nodeId]) {
        return Ok(None);
      }
      r := MergeInto(left, t, edge.id);
    }

    /** The merging part of one round of `aggregate`: the inputs of `left`
        move to the CONCAT holding the target `t` of the edge `eid`, as
        `TwoNodesMerged` says. */
    method MergeInto(left: nat, t: Endpoint, eid: nat) returns (r: Result<Option<nat>>)
      requires Valid() && left in nodes && IsConcat(nodes[left]) && t.nodeId in nodes && IsConcat(nodes[t.nodeId])
      requires eid in edges
      modifies this
      ensures Valid() && children == old(children) && edgeList == old(edgeList)
      ensures forall nid | nid in nodes && !IsConcat(nodes[nid]) :: nodes[nid] == old(nodes[nid])
      ensures r.Ok? <==> TwoNodesMerged(old(nodes), old(edges), old(portIndex), edgeOf, left, t, eid).Ok?
      ensures r.Ok? ==>
                var s := TwoNodesMerged(old(nodes), old(edges), old(portIndex), edgeOf, left, t, eid).value.value;
                r == Ok(Some(eid)) && nodes == s.0 && edges == s.1 && portIndex == s.3
      ensures r.Err? ==> nodes == old(nodes) && edges == old(edges) && portIndex == old(portIndex)
      ensures r.Err? ==> r.msg in {MissingTarget, IndexNotZero, MissingEdge, "PortId was not found"}
    {
      var inputs := GetChildInputPorts(nodes[left].ports);
      var step := AggregateTwoNodes(inputs, t.nodeId, t.portId);
      if step.Err? {
        return Err(step.msg);
      }
      r := Ok(Some(eid));
    }

    /** `aggregate`: every CONCAT of the list whose output feeds a single
        CONCAT hands it its inputs, as `MergesFrom` replays the rounds;
        those CONCATs and the edges between the pairs leave the lists, the
        rest stay in order. Only CONCATs change. */
    method Aggregate(concats: seq<nat>) returns (r: Result<()>, ghost dropped: set<nat>, ghost droppedEdges: set<nat>)
      requires Valid() && forall k | 0 <= k < |concats| :: concats[k] in nodes && IsConcat(nodes[concats[k]])
      modifies this
      ensures Valid()
      ensures forall nid | nid in nodes && !IsConcat(nodes[nid]) :: nodes[nid] == old(nodes[nid])
      ensures r.Ok? <==> MergesFrom(old(nodes), old(edges), old(portIndex), edgeOf, concats, 0, {}, {}).Ok?
      ensures r.Ok? ==> MergesFrom(old(nodes), old(edges), old(portIndex), edgeOf, concats, 0, {}, {}).value
                          == (nodes, edges, dropped, droppedEdges, portIndex)
      ensures r.Ok? ==> children == Without(old(children), dropped)
      ensures r.Ok? ==> edgeList == Without(old(edgeList), droppedEdges)
      ensures forall x | x in dropped :: x in concats
      ensures r.Err? ==> r.msg in {"Concat child has no target", "Target node of target port is undefined",
                                   MissingTarget, IndexNotZero, MissingEdge, "PortId was not found"}
    {
      var childrenToDelete, edgesToDelete;
      r, childrenToDelete, edgesToDelete := MergeAll(concats);
      dropped := childrenToDelete;
      droppedEdges := edgesToDelete;
      if r.Err? {
        return;
      }
      WithoutInside(children, childrenToDelete, nodes);
      WithoutInside(edgeList, edgesToDelete, edges);
      children := Without(children, childrenToDelete);
      edgeList := Without(edgeList, edgesToDelete);
    }

    /** The loop of `aggregate`: each CONCAT of the list gets its round, as
        `MergesFrom` replays them; returns the CONCATs merged away and the
        edges between merged pairs. */
    method MergeAll(concats: seq<nat>) returns (r: Result<()>, dropped: set<nat>, dropEdges: set<nat>)
      requires Valid() && forall k | 0 <= k < |concats| :: concats[k] in nodes && IsConcat(nodes[concats[k]])
      modifies this
      ensures Valid() && children == old(children) && edgeList == old(edgeList)
      ensures forall nid | nid in nodes && !IsConcat(nodes[nid]) :: nodes[nid] == old(nodes[nid])
      ensures forall x | x in dropped :: x in concats
      ensures r.Err? ==> r.msg in {"Concat child has no target", "Target node of target port is undefined",
                                   MissingTarget, IndexNotZero, MissingEdge, "PortId was not found"}
      ensures r.Ok? <==> MergesFrom(old(nodes), old(edges), old(portIndex), edgeOf, concats, 0, {}, {}).Ok?
      ensures r.Ok? ==> MergesFrom(old(nodes), old(edges), old(portIndex), edgeOf, concats, 0, {}, {}).value
                          == (nodes, edges, dropped, dropEdges, portIndex)
    {
      dropEdges := {};
      dropped := {};
      ghost var spec := MergesFrom(nodes, edges, portIndex, edgeOf, concats, 0, {}, {});
      for i := 0 to |concats|
        invariant Valid()
        invariant children == old(children) && edgeList == old(edgeList)
        invariant forall nid | nid in nodes && !IsConcat(nodes[nid]) :: nodes[nid] == old(nodes[nid])
        invariant forall x | x in dropped :: x in concats
        invariant MergesFrom(nodes, edges, portIndex, edgeOf, concats, i, dropped, dropEdges) == spec
      {
        var left := concats[i];
        assert IsConcat(orig[left]);
        var step := MergeStep(left);
        if step.Err? {
          return Err(step.msg), dropped, dropEdges;
        }
        if step.value.Some? {
          dropEdges := dropEdges + {step.value.value};
          dropped := dropped + {left};
        }
      }
      r := Ok(());
    }
  }

  /** Builds the dictionaries and the merging state for one node. */
  method StartMerger(node: Node) returns (m: Merger, concats: seq<nat>)
    requires node.id !in ChildIds(node.children) && Distinct(ChildIds(node.children))
    requires Distinct(EdgeIds(node.edges))
    ensures fresh(m) && m.Valid() && m.parentId == node.id
    ensures m.children == ChildIds(node.children) && m.edgeList == EdgeIds(node.edges)
    ensures Indexed(node, m.orig, m.edges, m.edgeOf) && m.nodes == m.orig && concats == ConcatIds(node.children)
    ensures m.portIndex == PortIndexes(node)
    ensures forall k | 0 <= k < |concats| :: concats[k] in m.nodes && IsConcat(m.nodes[concats[k]])
  {
    var ids := ChildIds(node.children);
    concats := FillConcats(node.children);
    var nodes, edges, edgeOf := Dictionaries(node);
    var portIndex := GetPortIdToPortDict(node);
    assert forall k | 0 <= k < |ids| :: ids[k] in nodes by {
      assert forall k | 0 <= k < |ids| :: ids[k] in ids;
    }
    assert forall k | 0 <= k < |node.edges| :: EdgeIds(node.edges)[k] in edges by {
      assert forall k | 0 <= k < |node.edges| :: EdgeIds(node.edges)[k] in EdgeIds(node.edges);
    }
    m := new Merger(node.id, nodes, edges, portIndex, ids, EdgeIds(node.edges), edgeOf);
    ConcatIdsSelect(node.children);
    assert forall k | 0 <= k < |concats| :: concats[k] in concats;
  }

  /** The node the merging pass leaves: the node itself but for its two
      lists, each child left an old child with new ports at most, every
      child that is no CONCAT still there, every edge left an old one. */
  lemma MergeOutcome(node: Node, orig: map<nat, Node>, nodes: map<nat, Node>, edges: map<nat, Edge>,
                     children: seq<nat>, edgeList: seq<nat>, drop: set<nat>)
    requires IndexedNodes(node, orig) && Distinct(ChildIds(node.children)) && node.id !in ChildIds(node.children)
    requires NodesEvolved(orig, nodes, node.id) && forall id | id in edges :: edges[id].id == id
    requires forall x | x in nodes && !IsConcat(nodes[x]) :: nodes[x] == orig[x]
    requires children == Without(ChildIds(node.children), drop)
    requires forall x | x in drop :: x in orig && IsConcat(orig[x])
    requires forall k | 0 <= k < |edgeList| :: edgeList[k] in EdgeIds(node.edges) && edgeList[k] in edges
    ensures forall k | 0 <= k < |children| :: children[k] in nodes
    ensures var n := Collect(nodes, edges, node.id, children, edgeList);
      && (!IsConcat(node) && !IsSlice(node) ==> n == node.(children := n.children, edges := n.edges))
      && |n.children| <= |node.children|
      && (forall k | 0 <= k < |n.children| :: exists j | 0 <= j < |node.children| :: Reshaped(node.children[j], n.children[k]))
      && (forall k | 0 <= k < |node.children| && !IsConcat(node.children[k]) :: node.children[k] in n.children)
      && (forall k | 0 <= k < |n.edges| :: n.edges[k].id in EdgeIds(node.edges))
  {
    var ids := ChildIds(node.children);
    ResultChildren(node, orig, nodes, node.id, drop, children);
    var n := Collect(nodes, edges, node.id, children, edgeList);
    forall k | 0 <= k < |node.children| && !IsConcat(node.children[k])
      ensures node.children[k] in n.children
    {
      // A child that is no CONCAT is not dropped and not changed.
      var c := node.children[k];
      assert ids[k] == c.id && c.id in ids && orig[c.id] == c;
      assert c.id !in drop;
      assert c.id in children;
      var j :| 0 <= j < |children| && children[j] == c.id;
      assert n.children[j] == nodes[c.id] == c;
    }
    forall k | 0 <= k < |n.edges| ensures n.edges[k].id in EdgeIds(node.edges) {
      assert n.edges[k] == edges[edgeList[k]];
    }
  }

  /** `aggregateConcants` on one node: the CONCAT chains among its children
      are merged and the node keeps the surviving children and edges in
      their order. A node without a visible children or edges list fails.
      On success the node itself is unchanged but for those two lists
      (unless it is a CONCAT itself); every child left is one of its old
      children with new ports at most; every child that is no CONCAT is
      still there, unchanged; every edge left is one of the old edges. */
  method AggregateConcants(node: Node) returns (r: Result<Node>)
    requires Distinct([node.id] + ChildIds(node.children))
    requires Distinct(EdgeIds(node.edges))
    ensures !node.childrenAt.Shown? || !node.edgesAt.Shown? ==> r == Err(MissingList)
    ensures r.Ok? && !IsConcat(node) && !IsSlice(node) ==>
              r.value == node.(children := r.value.children, edges := r.value.edges)
    ensures r.Ok? ==> |r.value.children| <= |node.children|
    ensures r.Ok? ==> forall k | 0 <= k < |r.value.children| ::
              exists j | 0 <= j < |node.children| :: Reshaped(node.children[j], r.value.children[k])
    ensures r.Ok? ==> forall k | 0 <= k < |node.children| && !IsConcat(node.children[k]) ::
              node.children[k] in r.value.children
    ensures r.Ok? ==> forall k | 0 <= k < |r.value.edges| :: r.value.edges[k].id in EdgeIds(node.edges)
    ensures node.childrenAt.Shown? && node.edgesAt.Shown? ==>
              forall nodes, edges, edgeOf | Indexed(node, nodes, edges, edgeOf) ::
                && (r.Ok? <==> ConcantsReplay(node, nodes, edges, edgeOf).Ok?)
                && (r.Ok? ==> r == ConcantsReplay(node, nodes, edges, edgeOf))
  {
    if !node.childrenAt.Shown? || !node.edgesAt.Shown? {
      return Err(MissingList);
    }
    ghost var ids := ChildIds(node.children);
    DistinctCons(node.id, ids);
    var m, concats := StartMerger(node);
    ghost var (edges0, edgeOf) := (m.edges, m.edgeOf);
    var merged, dropped, droppedEdges := m.Aggregate(concats);
    forall nodes, edges, edgeOf' | Indexed(node, nodes, edges, edgeOf')
      ensures nodes == m.orig && edges == edges0 && edgeOf' == edgeOf
    {
      IndexedUnique(node, nodes, edges, edgeOf', m.orig, edges0, edgeOf);
    }
    if merged.Err? {
      return Err(merged.msg);
    }
    DroppedAreConcats(m.orig, dropped, concats);
    forall k | 0 <= k < |m.edgeList| ensures m.edgeList[k] in EdgeIds(node.edges) {
      assert m.edgeList[k] in m.edgeList;
    }
    MergeOutcome(node, m.orig, m.nodes, m.edges, m.children, m.edgeList, dropped);
    r := Ok(Collect(m.nodes, m.edges, node.id, m.children, m.edgeList));
    assert r == ConcantsReplay(node, m.orig, edges0, edgeOf);
  }
}
