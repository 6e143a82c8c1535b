/** The older edge aggregation of src/hierarchicalPortEdges.js. It differs
    from `HierPortEdges` in four ways: the connectivity check answers a
    boolean and records the far group port under the id of the group port in
    a left-to-right dictionary, which is started afresh for every child; it
    builds its own parent dictionary from the node and its children; an
    owning node that is not known gives an endpoint without a node (an
    error here); and the node's `maxId` is not kept up to date. */
module HierPortEdgesOld {
  import opened Outcomes
  import opened Graph
  import opened ObjectIdChecks
  import opened PortSuffixes
  import opened HierPortEdges
  import Text
  import LObjects
  import ConcatSplit

  /** `allPortsAreConnected` of the older variant: the same walk as
      `HierPortEdges.AllPortsAreConnected`, answering false where that one
      answers null. On success the far owner of the LAST member is recorded
      under the id of the last member's owner. */
  method AllPortsAreConnectedRecording(ports: seq<Port>, edgeOf: map<nat, Edge>, lk: Lookups, record: map<nat, nat>)
    returns (r: Result<bool>, record': map<nat, nat>)
    ensures r.Err? ==> exists k | 0 <= k < |ports| ::
                         Classify(ports[k], edgeOf, lk) == Broken(r.msg) && LinkedBefore(ports, edgeOf, lk, k)
    ensures (exists k | 0 <= k < |ports| :: Classify(ports[k], edgeOf, lk).Broken? && LinkedBefore(ports, edgeOf, lk, k))
            ==> r.Err?
    ensures r == Ok(true) <==> ports != [] && LinkedBefore(ports, edgeOf, lk, |ports|)
    ensures r == Ok(true) ==> ports[|ports| - 1].id in lk.parentOf
    ensures r == Ok(true) ==>
              record' == record[lk.parentOf[ports[|ports| - 1].id].id := Classify(ports[|ports| - 1], edgeOf, lk).right.id]
    ensures r != Ok(true) ==> record' == record
  {
    var found := AllPortsAreConnected(ports, edgeOf, lk);
    if found.Err? {
      return Err(found.msg), record;
    }
    if found.value.None? {
      return Ok(false), record;
    }
    var last := ports[|ports| - 1];
    assert Classify(last, edgeOf, lk).Linked?;
    var leftParent := lk.parentOf[last.id];
    var rightParent := found.value.value;
    return Ok(true), record[leftParent.id := rightParent.id];
  }

  /** When the parent dictionary holds the walk from the group port over
      its members and their ids are distinct, the record is made under the
      group port's own id, which is where `createAggregatedEdge` looks. */
  lemma RecordedUnderGroup(port: Port, parentOf: map<nat, Owner>)
    requires port.children != [] && Distinct(PortsIds(port.children))
    requires SubMap(ParentMap(PortOwner(port), port.children), parentOf)
    ensures port.children[|port.children| - 1].id in parentOf
    ensures parentOf[port.children[|port.children| - 1].id].id == port.id
  {
    ParentMapOwners(PortOwner(port), port.children);
  }

  /** `getNodeIds`: the owning nodes of the two first endpoints, the one at
      the port `leftPortId` first; it throws when the port is at neither. */
  function GetNodeIds(leftPortId: nat, e: Edge): (r: Result<(nat, nat)>)
    ensures r.Ok? <==> |e.sources| > 0 && |e.targets| > 0 && leftPortId in [e.sources[0].portId, e.targets[0].portId]
    ensures r.Ok? ==> multiset{r.value.0, r.value.1} == multiset{e.sources[0].nodeId, e.targets[0].nodeId}
  {
    if |e.sources| == 0 || |e.targets| == 0 then Err("Cannot read the first endpoint of an edge")
    else if leftPortId == e.sources[0].portId then Ok((e.sources[0].nodeId, e.targets[0].nodeId))
    else if leftPortId == e.targets[0].portId then Ok((e.targets[0].nodeId, e.sources[0].nodeId))
    else Err("Invalid port id")
  }

  /** On an aggregated edge `getNodeIds` gives back the two owning nodes the
      edge was built from, the group port's first. */
  lemma GetNodeIdsOfAggregated(id: nat, left: Port, rightId: nat, nodeOf: map<nat, nat>)
    requires left.id in nodeOf && rightId in nodeOf
    ensures GetNodeIds(left.id, AggregatedEdge(id, left, rightId, nodeOf)) == Ok((nodeOf[left.id], nodeOf[rightId]))
  {
  }

  // ---------------------------------------------------------------------
  // The older pass as a function of values.

  /** The shared state of one pass of the older variant: the edge list, the
      port-to-edge dictionary, the ids marked for deletion, the left-to-right
      record of the child being handled and the id counter. */
  datatype OldPass = OldPass(edges: seq<Edge>, edgeOf: map<nat, Edge>, toDelete: set<nat>,
                             record: map<nat, nat>, counter: nat)

  /** `allPortsAreConnected` answers true: there are members and every one
      is linked. */
  predicate AllLinked(ports: seq<Port>, edgeOf: map<nat, Edge>, lk: Lookups)
  {
    ports != [] && LinkedBefore(ports, edgeOf, lk, |ports|)
  }

  /** The record once a group is found connected: the far owner of its LAST
      member under the id of that member's own owner. */
  function Recorded(ports: seq<Port>, edgeOf: map<nat, Edge>, lk: Lookups, record: map<nat, nat>): (r: map<nat, nat>)
    requires AllLinked(ports, edgeOf, lk)
    ensures ports[|ports| - 1].id in lk.parentOf
    ensures r == record[lk.parentOf[ports[|ports| - 1].id].id := Classify(ports[|ports| - 1], edgeOf, lk).right.id]
  {
    var last := ports[|ports| - 1];
    assert Classify(last, edgeOf, lk).Linked?;
    record[lk.parentOf[last.id].id := Classify(last, edgeOf, lk).right.id]
  }

  /** The step for one group port once its members were handled: None when
      a lookup throws or the new edge would have an endpoint without a
      node; the state unchanged when the members are not all linked;
      otherwise the far group is recorded, the member edges are marked, and
      one edge between the group port and the recorded far port is
      appended and recorded for both. */
  function OldAtPort(port: Port, s: OldPass, lk: Lookups): Option<OldPass>
  {
    if Breaks(port.children, s.edgeOf, lk) then None
    else if !AllLinked(port.children, s.edgeOf, lk) then Some(s)
    else
      var record := Recorded(port.children, s.edgeOf, lk, s.record);
      if port.id !in record || port.id !in lk.nodeOf || record[port.id] !in lk.nodeOf then None
      else
        var e := AggregatedEdge(s.counter, port, record[port.id], lk.nodeOf);
        Some(OldPass(s.edges + [e], s.edgeOf[port.id := e][record[port.id] := e],
                     s.toDelete + MemberEdgeIds(port.children, s.edgeOf), record, s.counter + 1))
  }

  /** The recursion over one port list: each port's members first, then
      the port itself, then the later ports; no port is skipped. */
  function OldPortsPass(ports: seq<Port>, s: OldPass, lk: Lookups): Option<OldPass>
    decreases ports
  {
    if ports == [] then Some(s)
    else
      match OldPortsPass(ports[0].children, s, lk)
      case None => None
      case Some(s1) =>
        match OldAtPort(ports[0], s1, lk)
        case None => None
        case Some(s2) => OldPortsPass(ports[1..], s2, lk)
  }

  /** The pass over the ports of every child in order, each child starting
      with an empty record. */
  function OldChildrenPass(children: seq<Node>, s: OldPass, lk: Lookups): Option<OldPass>
  {
    if children == [] then Some(s)
    else
      match OldPortsPass(children[0].ports, s.(record := map[]), lk)
      case None => None
      case Some(s1) => OldChildrenPass(children[1..], s1, lk)
  }

  /** The parent dictionary the older driver builds: the owner of every
      port of the node, then of every port of each child in order. */
  function ParentMaps(n: Node): map<nat, Owner>
  {
    ChildParentsInto(ParentMap(NodeOwner(n), n.ports), n.children)
  }

  function ChildParentsInto(d: map<nat, Owner>, children: seq<Node>): map<nat, Owner>
    decreases children
  {
    if children == [] then d else ChildParentsInto(d + ParentMap(NodeOwner(children[0]), children[0].ports), children[1..])
  }

  /** What the older driver looks up for a node. */
  function OldLookups(n: Node, rule: SuffixRule): Lookups
  {
    Lookups(ParentMaps(n), PortMaps(n), NodeIdMaps(n), rule)
  }

  /** Where the older pass over a node starts from. */
  function OldStart(node: Node, counter: nat): OldPass
  {
    OldPass(node.edges, EdgeDict(node.edges), {}, map[], counter)
  }

  /** The step only appends edges with fresh ids and only adds marks. */
  lemma OldAtPortGrows(port: Port, s: OldPass, lk: Lookups)
    requires OldAtPort(port, s, lk).Some?
    ensures var t := OldAtPort(port, s, lk).value;
            Appended(s.edges, s.counter, t.edges, t.counter) && s.toDelete <= t.toDelete
    ensures var t := OldAtPort(port, s, lk).value;
            |t.edges| == |s.edges| ==> t.toDelete == s.toDelete
  {
    var t := OldAtPort(port, s, lk).value;
    if t != s {
      assert t.edges[..|s.edges|] == s.edges;
    } else {
      assert t.edges[..|s.edges|] == s.edges;
    }
  }

  /** So does the recursion over a port list. */
  lemma {:induction false} OldPortsPassGrows(ports: seq<Port>, s: OldPass, lk: Lookups)
    requires OldPortsPass(ports, s, lk).Some?
    ensures var t := OldPortsPass(ports, s, lk).value;
            Appended(s.edges, s.counter, t.edges, t.counter) && s.toDelete <= t.toDelete
    decreases ports
  {
    var t := OldPortsPass(ports, s, lk).value;
    if ports == [] {
      assert t.edges[..|s.edges|] == s.edges;
    } else {
      var s1 := OldPortsPass(ports[0].children, s, lk).value;
      OldPortsPassGrows(ports[0].children, s, lk);
      var s2 := OldAtPort(ports[0], s1, lk).value;
      OldAtPortGrows(ports[0], s1, lk);
      OldPortsPassGrows(ports[1..], s2, lk);
      AppendedTrans(s.edges, s.counter, s1.edges, s1.counter, s2.edges, s2.counter);
      AppendedTrans(s.edges, s.counter, s2.edges, s2.counter, t.edges, t.counter);
    }
  }

  /** A group whose members are all linked gets an edge, with no check that
      the group is a top-level port or that the members reach one group:
      every member edge is marked, the new edge is the last one, it runs
      between the group port and the far port recorded for it, and both
      point at it. */
  lemma OldAtPortLinks(port: Port, s: OldPass, lk: Lookups)
    requires OldAtPort(port, s, lk).Some? && AllLinked(port.children, s.edgeOf, lk)
    ensures var t := OldAtPort(port, s, lk).value;
            && port.id in t.record && t.record[port.id] in lk.nodeOf && port.id in lk.nodeOf
            && (forall k | 0 <= k < |port.children| :: s.edgeOf[port.children[k].id].id in t.toDelete)
            && t.edges == s.edges + [AggregatedEdge(s.counter, port, t.record[port.id], lk.nodeOf)]
            && port.id in t.edgeOf && t.edgeOf[port.id] == t.edges[|t.edges| - 1]
            && GetRightId(port.id, t.edgeOf[port.id]) == Ok(t.record[port.id])
  {
    var t := OldAtPort(port, s, lk).value;
    forall k | 0 <= k < |port.children| ensures s.edgeOf[port.children[k].id].id in t.toDelete {
      assert Classify(port.children[k], s.edgeOf, lk).Linked?;
    }
    AggregatedEdgeLinks(s.counter, port, t.record[port.id], lk.nodeOf);
  }

  /** With the parent dictionary holding the group's members under the
      group port and distinct member ids, a connected group fails exactly
      when the group port or the far owner has no owning node: where the
      far group is a node's own port list, the far owner is that node, and
      the source builds an endpoint without a node id. */
  lemma OldAtPortFails(port: Port, s: OldPass, lk: Lookups)
    requires AllLinked(port.children, s.edgeOf, lk) && !Breaks(port.children, s.edgeOf, lk)
    requires Distinct(PortsIds(port.children)) && SubMap(ParentMap(PortOwner(port), port.children), lk.parentOf)
    ensures var far := Classify(port.children[|port.children| - 1], s.edgeOf, lk).right;
            OldAtPort(port, s, lk).None? <==> port.id !in lk.nodeOf || far.id !in lk.nodeOf
  {
    RecordedUnderGroup(port, lk.parentOf);
  }

  /** The state the recursion of the older aggregation shares: the edge list
      of the node, the port-to-edge dictionary, the ids marked for deletion
      and the left-to-right record. */
  class OldAggregator {
    var edges: seq<Edge>
    var edgeOf: map<nat, Edge>
    var toDelete: set<nat>
    var record: map<nat, nat>
    const counter: LObjects.IdCounter
    const lk: Lookups

    /** The shared state as a value. */
    ghost function State(): OldPass
      reads this, counter
    {
      OldPass(edges, edgeOf, toDelete, record, counter.id)
    }

    constructor (counter: LObjects.IdCounter, lk: Lookups, edges: seq<Edge>, edgeOf: map<nat, Edge>)
      ensures this.counter == counter && this.lk == lk
      ensures this.edges == edges && this.edgeOf == edgeOf && this.toDelete == {} && this.record == map[]
    {
      this.counter := counter;
      this.lk := lk;
      this.edges := edges;
      this.edgeOf := edgeOf;
      this.toDelete := {};
      this.record := map[];
    }

    /** `createAggregatedEdge` of the older variant: the far port is the one
        recorded for the group port; the new edge is appended to the node's
        edges and both ports point at it. Where the source would push an
        endpoint without a node (no record, or an owner that is not a known
        port), the model fails. */
    method CreateAggregatedEdge(leftPort: Port) returns (r: Result<()>)
      modifies this, counter
      ensures toDelete == old(toDelete) && record == old(record)
      ensures r.Err? <==> leftPort.id !in record || leftPort.id !in lk.nodeOf || record[leftPort.id] !in lk.nodeOf
      ensures r.Err? ==> counter.id == old(counter.id) && edges == old(edges) && edgeOf == old(edgeOf)
      ensures r.Ok? ==> counter.id == old(counter.id) + 1
      ensures r.Ok? ==> var e := AggregatedEdge(old(counter.id), leftPort, record[leftPort.id], lk.nodeOf);
                        edges == old(edges) + [e] && edgeOf == old(edgeOf)[leftPort.id := e][record[leftPort.id] := e]
    {
      if leftPort.id !in record {
        return Err("No far port recorded for port " + Text.NatToDecimal(leftPort.id));
      }
      var rightPortId := record[leftPort.id];
      if leftPort.id !in lk.nodeOf || rightPortId !in lk.nodeOf {
        return Err("Node id of an aggregated edge is undefined");
      }
      var leftNodeId := lk.nodeOf[leftPort.id];
      var rightNodeId := lk.nodeOf[rightPortId];
      var newEdge := LObjects.CreateLEdge(counter, leftPort.name);
      if leftPort.direction == INPUT {
        newEdge := newEdge.(sources := newEdge.sources + [Endpoint(leftNodeId, leftPort.id)],
                            targets := newEdge.targets + [Endpoint(rightNodeId, rightPortId)]);
      } else {
        newEdge := newEdge.(sources := newEdge.sources + [Endpoint(rightNodeId, rightPortId)],
                            targets := newEdge.targets + [Endpoint(leftNodeId, leftPort.id)]);
      }
      assert newEdge == AggregatedEdge(old(counter.id), leftPort, rightPortId, lk.nodeOf);
      edges := edges + [newEdge];
      edgeOf := edgeOf[leftPort.id := newEdge];
      edgeOf := edgeOf[rightPortId := newEdge];
      return Ok(());
    }

    /** The loop body of the older `aggregateHierarchicalPortEdgesRec` for
        one port, after its members were handled: the step `OldAtPort`. */
    method AggregateAt(port: Port) returns (r: Result<()>)
      modifies this, counter
      ensures Appended(old(edges), old(counter.id), edges, counter.id)
      ensures old(toDelete) <= toDelete
      ensures r.Ok? && |edges| == |old(edges)| ==> toDelete == old(toDelete)
      ensures r.Ok? <==> OldAtPort(port, old(State()), lk).Some?
      ensures r.Ok? ==> State() == OldAtPort(port, old(State()), lk).value
    {
      ghost var s0 := State();
      var connected;
      connected, record := AllPortsAreConnectedRecording(port.children, edgeOf, lk, record);
      if connected.Err? {
        assert edges[..|edges|] == edges;
        assert Breaks(port.children, s0.edgeOf, lk);
        return Err(connected.msg);
      }
      if !connected.value {
        assert edges[..|edges|] == edges;
        assert OldAtPort(port, s0, lk) == Some(s0);
        return Ok(());
      }
      assert AllLinked(port.children, edgeOf, lk) && !Breaks(port.children, edgeOf, lk);
      assert forall k | 0 <= k < |port.children| :: Classify(port.children[k], edgeOf, lk).Linked?;
      assert record == Recorded(port.children, s0.edgeOf, lk, s0.record);
      r := ReplaceMemberEdges(port);
      assert r.Ok? ==> State() == OldAtPort(port, s0, lk).value;
    }

    /** The success branch of the loop body: the members' edges are marked
        and the aggregated edge is created. */
    method ReplaceMemberEdges(port: Port) returns (r: Result<()>)
      requires forall k | 0 <= k < |port.children| :: port.children[k].id in edgeOf
      modifies this, counter
      ensures Appended(old(edges), old(counter.id), edges, counter.id)
      ensures record == old(record) && toDelete == old(toDelete) + MemberEdgeIds(port.children, old(edgeOf))
      ensures r.Ok? <==> port.id in record && port.id in lk.nodeOf && record[port.id] in lk.nodeOf
      ensures r.Ok? ==> var e := AggregatedEdge(old(counter.id), port, record[port.id], lk.nodeOf);
                        && edges == old(edges) + [e] && counter.id == old(counter.id) + 1
                        && edgeOf == old(edgeOf)[port.id := e][record[port.id] := e]
    {
      toDelete := MarkMemberEdges(port.children, edgeOf, toDelete);
      r := CreateAggregatedEdge(port);
      assert edges[..|old(edges)|] == old(edges);
    }

    /** The older `aggregateHierarchicalPortEdgesRec`: each port's members
        first, then the port itself; there is no top-port guard. */
    method Aggregate(ports: seq<Port>) returns (r: Result<()>)
      modifies this, counter
      decreases ports
      ensures Appended(old(edges), old(counter.id), edges, counter.id)
      ensures old(toDelete) <= toDelete
      ensures r.Ok? && |edges| == |old(edges)| ==> toDelete == old(toDelete)
      ensures r.Ok? <==> OldPortsPass(ports, old(State()), lk).Some?
      ensures r.Ok? ==> State() == OldPortsPass(ports, old(State()), lk).value
    {
      for i := 0 to |ports|
        invariant Appended(old(edges), old(counter.id), edges, counter.id)
        invariant old(toDelete) <= toDelete
        invariant |edges| == |old(edges)| ==> toDelete == old(toDelete)
        invariant OldPortsPass(ports, old(State()), lk) == OldPortsPass(ports[i..], State(), lk)
      {
        assert ports[i..][0] == ports[i] && ports[i..][1..] == ports[i + 1..];
        ghost var e1, c1 := edges, counter.id;
        var sub := Aggregate(ports[i].children);
        AppendedTrans(old(edges), old(counter.id), e1, c1, edges, counter.id);
        if sub.Err? {
          return sub;
        }
        ghost var e2, c2 := edges, counter.id;
        sub := AggregateAt(ports[i]);
        AppendedTrans(old(edges), old(counter.id), e2, c2, edges, counter.id);
        if sub.Err? {
          return sub;
        }
      }
      return Ok(());
    }
  }

  /** The loops of the older `aggregateHierarchicalPortEdges` that fill the
      parent, port and owning-node dictionaries from the node and then from
      each child in order (the parent dictionary here, the other two as in
      `HierPortEdges.NodeLookups`). */
  method NodeLookupsOld(node: Node, rule: SuffixRule) returns (lk: Lookups)
    ensures lk == OldLookups(node, rule)
  {
    var parentOf := GetChildIdToParentDict(NodeOwner(node), node.ports, map[]);
    assert map[] + ParentMap(NodeOwner(node), node.ports) == ParentMap(NodeOwner(node), node.ports);
    for i := 0 to |node.children|
      invariant ChildParentsInto(parentOf, node.children[i..]) == ParentMaps(node)
    {
      assert node.children[i..][0] == node.children[i] && node.children[i..][1..] == node.children[i + 1..];
      parentOf := GetChildIdToParentDict(NodeOwner(node.children[i]), node.children[i].ports, parentOf);
    }
    var portOf, nodeOf := NodeLookups(node);
    lk := Lookups(parentOf, portOf, nodeOf, rule);
  }

  /** The older `aggregateHierarchicalPortEdges`: nothing happens when the
      node has no edges or no children; otherwise the parent, port and
      owning-node dictionaries are built from the node and its children,
      each child's ports are aggregated with a fresh record, and the marked
      edges are dropped: the result is the pass `OldChildrenPass` over the
      children, its marked edges filtered out. Only the edges change; new
      edges take fresh ids. */
  method AggregateHierarchicalPortEdges(counter: LObjects.IdCounter, node: Node, rule: SuffixRule)
    returns (r: Result<Node>)
    modifies counter
    ensures node.edgesAt.Absent? || node.childrenAt.Absent? ==> r == Ok(node) && counter.id == old(counter.id)
    ensures r.Ok? ==> r.value == node.(edges := r.value.edges)
    ensures r.Ok? && counter.id == old(counter.id) ==> r.value == node
    ensures r.Ok? ==> forall k | 0 <= k < |r.value.edges| ::
                        r.value.edges[k] in node.edges || old(counter.id) <= r.value.edges[k].id < counter.id
    ensures !node.edgesAt.Absent? && !node.childrenAt.Absent? ==>
              var pass := OldChildrenPass(node.children, OldStart(node, old(counter.id)), OldLookups(node, rule));
              && (r.Ok? <==> pass.Some?)
              && (r.Ok? ==> r.value.edges == FilterEdges(pass.value.edges, pass.value.toDelete)
                            && counter.id == pass.value.counter)
  {
    if node.edgesAt.Absent? || node.childrenAt.Absent? {
      return Ok(node);
    }
    var edgeOf := ConcatSplit.GetPortToEdgeDict(node.edges);
    EdgeDictIs(node.edges, edgeOf);
    var lk := NodeLookupsOld(node, rule);
    var agg := new OldAggregator(counter, lk, node.edges, edgeOf);
    ghost var pass := OldChildrenPass(node.children, OldStart(node, old(counter.id)), lk);
    for i := 0 to |node.children|
      invariant Appended(node.edges, old(counter.id), agg.edges, counter.id)
      invariant |agg.edges| == |node.edges| ==> agg.toDelete == {}
      invariant pass == OldChildrenPass(node.children[i..], agg.State(), lk)
    {
      assert node.children[i..][0] == node.children[i] && node.children[i..][1..] == node.children[i + 1..];
      ghost var e1, c1 := agg.edges, counter.id;
      agg.record := map[];
      var sub := agg.Aggregate(node.children[i].ports);
      AppendedTrans(node.edges, old(counter.id), e1, c1, agg.edges, counter.id);
      if sub.Err? {
        return Err(sub.msg);
      }
    }
    var kept := FilterEdges(agg.edges, agg.toDelete);
    r := Ok(node.(edges := kept));
    forall k | 0 <= k < |kept| ensures kept[k] in node.edges || old(counter.id) <= kept[k].id < counter.id {
      var j :| 0 <= j < |agg.edges| && agg.edges[j] == kept[k];
      if j < |node.edges| {
        assert agg.edges[j] == node.edges[j];
      }
    }
  }
}
