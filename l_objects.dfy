/** The id counter and the three object constructors of the node builder
    (`IdCounter`, `createLNode`, `createLPort`, `createLEdge` of
    src/yosysLNodeBuilder.js). Every object takes its id from one shared
    counter. */
module LObjects {
  import opened Outcomes
  import opened Graph
  import opened YosysUtils
  import opened ObjectIdChecks

  /** The counter every builder of one graph shares. */
  class IdCounter {
    var id: nat

    constructor ()
      ensures id == 0
    {
      id := 0;
    }

    /** The value before the call; the counter moves on by exactly one, so
        the ids handed out are strictly increasing from 0. */
    method GetNextId() returns (r: nat)
      modifies this
      ensures r == old(id) && id == old(id) + 1
    {
      r := id;
      id := id + 1;
    }
  }

  /** A node with a fresh id, empty visible `children` and `edges`, no class
      and no `maxId` yet. */
  method CreateLNode(counter: IdCounter, name: string) returns (r: Node)
    modifies counter
    ensures counter.id == old(counter.id) + 1
    ensures r == Node(old(counter.id), name, "", None, [], [], Shown, [], Shown)
  {
    var id := counter.GetNextId();
    r := Node(id, name, "", None, [], [], Shown, [], Shown);
  }

  /** The upper-cased direction of a netlist port. */
  function DirectionOf(direction: string): (r: Option<Direction>)
    ensures r == Some(INPUT) <==> direction == "input"
    ensures r == Some(OUTPUT) <==> direction == "output"
    ensures r.None? <==> direction != "input" && direction != "output"
  {
    if direction == "input" then Some(INPUT)
    else if direction == "output" then Some(OUTPUT)
    else None
  }

  /** The port `createLPort` builds for position `index` of its port list.
      The id is drawn before the side is computed, so a direction other than
      "input"/"output" still consumes an id before it fails. The caller
      appends the port, registers it by name and raises the owner's `maxId`
      (see `LNodeBuilding.LNodeBuilder.AddLPort`). */
  method CreateLPort(counter: IdCounter, nodeName: string, portName: string, direction: string,
                     index: nat) returns (r: Result<Port>)
    modifies counter
    ensures counter.id == old(counter.id) + 1
    ensures r.Ok? <==> DirectionOf(direction).Some?
    ensures r.Ok? ==> r.value.id == old(counter.id) && r.value.name == portName
    ensures r.Ok? ==> r.value.index == index && r.value.children == []
    ensures r.Ok? ==> Some(r.value.direction) == DirectionOf(direction)
    ensures r.Ok? ==> Ok(r.value.side) == PortSide(portName, direction, nodeName)
  {
    var id := counter.GetNextId();
    var side :- PortSide(portName, direction, nodeName);
    r := Ok(Port(id, portName, DirectionOf(direction).value, side, index, []));
  }

  /** An edge with a fresh id and no endpoints. */
  method CreateLEdge(counter: IdCounter, name: string) returns (r: Edge)
    modifies counter
    ensures counter.id == old(counter.id) + 1
    ensures r == Edge(old(counter.id), name, [], [])
  {
    var id := counter.GetNextId();
    r := Edge(id, name, [], []);
  }
}
