/** The layout graph the builder produces: nodes that own ports, child nodes
    and edges. Every object carries a numeric id drawn from one counter
    (the source renders it as a decimal string). */
module Graph {
  import opened Outcomes

  /** A port's direction after upper-casing the netlist's "input"/"output". */
  datatype Direction = INPUT | OUTPUT

  /** The side of the node a port is drawn on. */
  datatype Side = NORTH | EAST | SOUTH | WEST

  /** Where a node keeps its children (or its edges): in the visible field
      (`children`, `edges`), in the hidden one (`_children`, `_edges`), or in
      neither because both fields were deleted. */
  datatype Slot = Shown | Hidden | Absent

  /** A port: `index` is its clockwise position for the layout engine and
      `children` are the ports grouped under it. */
  datatype Port = Port(id: nat, name: string, direction: Direction, side: Side, index: int,
                       children: seq<Port>)

  /** One end of an edge: a node id and the id of one of its ports. */
  datatype Endpoint = Endpoint(nodeId: nat, portId: nat)

  datatype Edge = Edge(id: nat, name: string, sources: seq<Endpoint>, targets: seq<Endpoint>)

  /** A node. `cls` and `name` are the source's `hwMeta.cls` and `hwMeta.name`,
      `maxId` its `hwMeta.maxId` (None until first written). The children and
      the edges are kept in the field their slot names; an `Absent` slot keeps
      an empty sequence. */
  datatype Node = Node(id: nat, name: string, cls: string, maxId: Option<int>, ports: seq<Port>,
                       children: seq<Node>, childrenAt: Slot, edges: seq<Edge>, edgesAt: Slot)

  /** `node.children || node._children`, with a missing field read as empty. */
  function Kids(n: Node): seq<Node>
  {
    if n.childrenAt.Absent? then [] else n.children
  }

  /** `node.edges || node._edges`, with a missing field read as empty. */
  function EdgesOf(n: Node): seq<Edge>
  {
    if n.edgesAt.Absent? then [] else n.edges
  }

  /** The port ids of a list of endpoints. */
  function PortIdsOf(eps: seq<Endpoint>): seq<nat>
  {
    seq(|eps|, k requires 0 <= k < |eps| => eps[k].portId)
  }

  /** The position of the first edge with the given id, if there is one. */
  function FindEdge(edges: seq<Edge>, id: nat): (r: Option<nat>)
    ensures r.Some? ==> r.value < |edges| && edges[r.value].id == id
    ensures r.Some? ==> forall k | 0 <= k < r.value :: edges[k].id != id
    ensures r.None? ==> forall k | 0 <= k < |edges| :: edges[k].id != id
  {
    if edges == [] then None
    else if edges[0].id == id then Some(0)
    else
      var r := FindEdge(edges[1..], id);
      if r.Some? then Some(r.value + 1) else None
  }

  /** The position of the first node with the given id, if there is one. */
  function FindNode(nodes: seq<Node>, id: nat): (r: Option<nat>)
    ensures r.Some? ==> r.value < |nodes| && nodes[r.value].id == id
    ensures r.Some? ==> forall k | 0 <= k < r.value :: nodes[k].id != id
    ensures r.None? ==> forall k | 0 <= k < |nodes| :: nodes[k].id != id
  {
    if nodes == [] then None
    else if nodes[0].id == id then Some(0)
    else
      var r := FindNode(nodes[1..], id);
      if r.Some? then Some(r.value + 1) else None
  }

  /** The position of the first port with the given id, if there is one. */
  function FindPort(ports: seq<Port>, id: nat): (r: Option<nat>)
    ensures r.Some? ==> r.value < |ports| && ports[r.value].id == id
    ensures r.Some? ==> forall k | 0 <= k < r.value :: ports[k].id != id
    ensures r.None? ==> forall k | 0 <= k < |ports| :: ports[k].id != id
  {
    if ports == [] then None
    else if ports[0].id == id then Some(0)
    else
      var r := FindPort(ports[1..], id);
      if r.Some? then Some(r.value + 1) else None
  }
}
