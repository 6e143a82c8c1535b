/** The node builder of src/yosysLNodeBuilder.js: one `LNodeBuilder` per
    node of the graph, each turning a netlist module (or a cell without
    one) into a node with ports, children and edges. All builders of one
    graph share an id counter and three dictionaries, held here by
    `Shared`. */
module LNodeBuilding {
  import opened Outcomes
  import opened Graph
  import opened Netlist
  import opened Text
  import opened ObjectIdChecks
  import opened YosysUtils
  import opened LObjects
  import opened PortSuffixes
  import opened LNodeValues
  import opened EdgeTranslation
  import YosysIcons
  import PortHierarchy
  import HierPortEdges
  import ConcatSplit

  /** What every builder of one graph shares: the id counter, the
      port-name dictionary of each node (`nodePortNames`: original port name
      to port id), the builder of each node (`nodeIdToBuilder`) and the
      owner of each port (`portIdToParentDict`). */
  class Shared {
    const counter: IdCounter
    var portNames: map<nat, map<string, nat>>
    var builders: map<nat, LNodeBuilder>
    var parentOf: map<nat, HierPortEdges.Owner>

    constructor ()
      ensures fresh(counter) && counter.id == 0
      ensures portNames == map[] && builders == map[] && parentOf == map[]
    {
      counter := new IdCounter();
      portNames := map[];
      builders := map[];
      parentOf := map[];
    }

    /** Every registered builder works with these dictionaries. */
    ghost predicate Registry()
      reads this, counter
    {
      forall id | id in builders :: builders[id].shared == this && id < counter.id
    }
  }

  /** Registered builders stay registered. */
  predicate BuildersKept(a: map<nat, LNodeBuilder>, b: map<nat, LNodeBuilder>)
  {
    forall id | id in a :: id in b && b[id] == a[id]
  }

  /** The port-name dictionaries of the nodes below id `c` are unchanged. */
  ghost predicate NamesKept(a: map<nat, map<string, nat>>, b: map<nat, map<string, nat>>, c: int)
  {
    forall id: nat | id < c :: NamesOf(b, id) == NamesOf(a, id)
  }

  /** Setting the dictionary of a node at or above `c` keeps those below. */
  lemma NamesKeptUpdate(a: map<nat, map<string, nat>>, c: int, id: nat, m: map<string, nat>)
    requires c <= id
    ensures NamesKept(a, a[id := m], c)
  {
  }

  /** A constant bit's edge `c`, with the run's node `c + 1` as its source
      and then joined by `ep`, is the wiring `ConstStep` describes. */
  lemma ConstStepWiring(w: Wiring, bits: seq<Bit>, i: nat, name: string, role: Role, ep: Endpoint, c: nat, w1: Wiring)
    requires i < |bits| && bits[i].Const? && EdgesStored(w)
    requires w1 == ConstSourced(WithEdge(w, bits[i], Edge(c, name, [], [])), bits, i, ConstNodeName, c, c + 1)
    ensures JoinConst(w, bits, i, ConstNodeName, name, role, ep, c) == WithJoined(w1, c, role, ep)
  {
  }

  /** For a constant bit, one pass of the bit loop fails exactly when the
      role does, and otherwise joins the run's edge and node and moves
      past the run, three ids on. */
  lemma ConstBitStep(w: Wiring, bits: seq<Bit>, i: nat, names: NameSource, role: Result<Role>, ep: Endpoint, c: nat)
    requires i < |bits| && bits[i].Const? && EdgesStored(w)
    ensures var s := BitStep(w, bits, i, names, ConstNodeName, role, ep, c);
            && (s.Ok? <==> role.Ok?) && (s.Err? ==> s.msg == role.msg)
            && (s.Ok? ==> && s.value.0 == JoinConst(w, bits, i, ConstNodeName, EdgeName(names, bits[i]), role.value, ep, c)
                          && s.value.1 == i + RunLength(bits, i) && s.value.2 == c + 3)
  {
    var s := BitStep(w, bits, i, names, ConstNodeName, role, ep, c);
    if role.Ok? {
      assert s == Ok(ConstStep(w, bits, i, ConstNodeName, EdgeName(names, bits[i]), role.value, ep, c));
    } else {
      assert s == Err(role.msg);
    }
  }

  /** A constant bit's result once its edge and run node are in `w1`: the
      role's failure, or the wiring with `ep` joined to edge `eid` and the
      position after the run. */
  function ConstOutcome(w1: Wiring, eid: nat, role: Result<Role>, ep: Endpoint, last: nat): Result<(Wiring, nat)>
    requires role.Ok? ==> eid in w1.edges
  {
    if role.Err? then Err(role.msg) else Ok((WithJoined(w1, eid, role.value, ep), last + 1))
  }

  /** That result is the constant step of the bit loop, or its role's
      failure. */
  lemma ConstOutcomeIsStep(w: Wiring, bits: seq<Bit>, i: nat, e: Edge, c: nat, name: string, role: Result<Role>, ep: Endpoint,
                            w1: Wiring, last: nat)
    requires i < |bits| && bits[i].Const? && EdgesStored(w) && e == Edge(c, name, [], [])
    requires w1 == WithJoined(WithConstNode(WithEdge(w, bits[i], e), c + 1, ConstNodeName(RunAt(bits, i))), c, SourceRole,
                              Endpoint(c + 1, c + 2))
    requires last == i + RunLength(bits, i) - 1
    ensures role.Ok? ==> c in w1.edges
    ensures var o := ConstOutcome(w1, c, role, ep, last);
            && (o.Ok? <==> role.Ok?) && (o.Err? ==> o.msg == role.msg)
            && (o.Ok? ==> o.value.0 == JoinConst(w, bits, i, ConstNodeName, name, role.value, ep, c)
                          && o.value.1 == i + RunLength(bits, i))
  {
    if role.Ok? {
      ConstStepWiring(w, bits, i, name, role.value, ep, c, w1);
    }
  }

  /** `b` is `a` with one more port at the end, as `createLPort` makes it:
      the given id, name and direction, the side `getPortSide` gives, the
      next index, no children, and the node's `maxId` set to the new id. */
  predicate PortAdded(a: Node, b: Node, name: string, direction: string, id: nat)
  {
    && |b.ports| == |a.ports| + 1 && b.ports[..|a.ports|] == a.ports
    && b.ports[|a.ports|].id == id && b.ports[|a.ports|].name == name
    && b.ports[|a.ports|].index == |a.ports| && b.ports[|a.ports|].children == []
    && Some(b.ports[|a.ports|].direction) == DirectionOf(direction)
    && Ok(b.ports[|a.ports|].side) == PortSide(name, direction, a.name)
    && ConcatSplit.Reshaped(a, b) && b.maxId == Some(id)
  }

  predicate IsSliceCell(cell: Option<Cell>)
  {
    cell.Some? && cell.value.cellType == "$slice"
  }

  predicate IsConcatCell(cell: Option<Cell>)
  {
    cell.Some? && cell.value.cellType == "$concat"
  }

  /** The label of a port: its own name, except for the bit-range labels of
      the ports of `$slice` and `$concat` cells. */
  function LabelOf(cell: Option<Cell>, portName: string): (r: Result<string>)
    ensures !IsSliceCell(cell) && !IsConcatCell(cell) ==> r == Ok(portName)
  {
    if cell.None? then Ok(portName)
    else GetPortName(IsSliceCell(cell), IsConcatCell(cell), portName, cell.value)
  }

  /** A port made for declaration `decl` (a name and a direction). */
  predicate Declared(p: Port, id: nat, index: int, cell: Option<Cell>, decl: (string, string), nodeName: string)
  {
    && p.id == id && p.index == index && p.children == []
    && Ok(p.name) == LabelOf(cell, decl.0)
    && Some(p.direction) == DirectionOf(decl.1)
    && Ok(p.side) == PortSide(p.name, decl.1, nodeName)
  }

  /** The declarations can all be turned into ports. */
  predicate Loadable(cell: Option<Cell>, decls: seq<(string, string)>)
  {
    forall k | 0 <= k < |decls| :: LabelOf(cell, decls[k].0).Ok? && DirectionOf(decls[k].1).Some?
  }

  /** `updatePortIndicesNoHierarchy` as a value: every port numbered by its
      position. */
  function Renumbered(ps: seq<Port>): (r: seq<Port>)
    ensures |r| == |ps|
  {
    seq(|ps|, k requires 0 <= k < |ps| => ps[k].(index := k))
  }

  lemma RenumberedReverseWithin(ps: seq<Port>, m: int)
    requires PortsWithin(ps, m)
    ensures PortsWithin(Renumbered(Reverse(ps)), m)
  {
    var r := Renumbered(Reverse(ps));
    forall k | 0 <= k < |r| ensures CheckMaxIdPorts(m, r[k]) {
      assert CheckMaxIdPorts(m, ps[|ps| - 1 - k]);
    }
  }

  /** The (name, direction) declarations of a module's ports. */
  function ModulePortDecls(ports: Entries<PortDecl>): (r: seq<(string, string)>)
    ensures |r| == |ports|
    ensures forall k | 0 <= k < |ports| :: r[k] == (ports[k].0, ports[k].1.direction)
  {
    seq(|ports|, k requires 0 <= k < |ports| => (ports[k].0, ports[k].1.direction))
  }

  /** A node that is still being assembled with the counter at `c`:
      everything it holds has an id below `c`, and no id repeats among the
      node and its children or among its edges. */
  ghost predicate Assembling(n: Node, c: int)
  {
    ContentWithin(n, c - 1) && Distinct(Family(n.id, Kids(n))) && Distinct(EdgeIds(EdgesOf(n)))
  }

  /** The edges in the order they were made. */
  function EdgeArray(w: Wiring): (r: seq<Edge>)
    requires forall k | 0 <= k < |w.order| :: w.order[k] in w.edges
    ensures |r| == |w.order| && forall k | 0 <= k < |w.order| :: r[k] == w.edges[w.order[k]]
  {
    seq(|w.order|, k requires 0 <= k < |w.order| => w.edges[w.order[k]])
  }

  /** `b` is `a` after ports were made for cells without port directions:
      the same dictionary and order, every edge only gaining endpoints,
      and every child only gaining ports (and a new `maxId`). */
  ghost predicate Rewired(a: Wiring, b: Wiring)
  {
    && b.edgeOf == a.edgeOf && b.order == a.order && b.consts == a.consts && b.edges.Keys == a.edges.Keys
    && (forall e | e in a.edges :: Extends(a.edges[e], b.edges[e]))
    && |b.children| == |a.children|
    && (forall k | 0 <= k < |a.children| :: ConcatSplit.Reshaped(a.children[k], b.children[k]))
  }

  lemma RewiredTrans(a: Wiring, b: Wiring, c: Wiring)
    requires Rewired(a, b) && Rewired(b, c)
    ensures Rewired(a, c)
  {
    forall e | e in a.edges ensures Extends(a.edges[e], c.edges[e]) {
      var x, y, z := a.edges[e], b.edges[e], c.edges[e];
      assert z.sources[..|x.sources|] == z.sources[..|y.sources|][..|x.sources|];
      assert z.targets[..|x.targets|] == z.targets[..|y.targets|][..|x.targets|];
    }
  }

  lemma RewiredRefl(a: Wiring)
    ensures Rewired(a, a)
  {
    forall e | e in a.edges ensures Extends(a.edges[e], a.edges[e]) {
      var x := a.edges[e];
      assert x.sources[..|x.sources|] == x.sources && x.targets[..|x.targets|] == x.targets;
    }
  }

  /** `b` is `a` after the port `ep` joined the edges of the first `i`
      bits: all of them have edges, and each of those edges holds `ep`. */
  ghost predicate PortJoined(a: Wiring, b: Wiring, bits: seq<Bit>, i: nat, ep: Endpoint)
  {
    && Rewired(a, b) && i <= |bits|
    && forall k | 0 <= k < i :: bits[k] in b.edgeOf && b.edgeOf[bits[k]] in b.edges && Touches(b.edges[b.edgeOf[bits[k]]], ep)
  }

  /** The edge of the next bit takes the port in the role its endpoints
      call for, and what was joined before stays joined. */
  lemma PortJoinedStep(a: Wiring, b: Wiring, bits: seq<Bit>, i: nat, ep: Endpoint, role: Role)
    requires PortJoined(a, b, bits, i, ep) && i < |bits| && bits[i] in b.edgeOf && b.edgeOf[bits[i]] in b.edges
    ensures PortJoined(a, WithJoined(b, b.edgeOf[bits[i]], role, ep), bits, i + 1, ep)
  {
    var eid := b.edgeOf[bits[i]];
    var next := WithJoined(b, eid, role, ep);
    WithJoinedRewired(b, eid, role, ep);
    WithJoinedGrown(b, eid, role, ep);
    RewiredTrans(a, b, next);
    forall k | 0 <= k < i ensures Touches(next.edges[next.edgeOf[bits[k]]], ep) {
      ExtendsTouches(b.edges[b.edgeOf[bits[k]]], next.edges[b.edgeOf[bits[k]]], ep);
    }
  }

  /** The state of `completeEdgesForChildrenWithoutPort` on one cell after
      `k` of its connections: the wiring only gained endpoints, the bits of
      those connections all have edges, and the node (the child at `pos`,
      if there is one) only gained ports and stays within the counter. */
  ghost predicate ConnsCompleted(w: Wiring, cur: Wiring, pos: Option<nat>, child: Node, childId: nat,
                                 conns: Entries<seq<Bit>>, k: nat, parentId: nat, lo: int, c: int)
  {
    && WiringOk(cur, parentId, lo, c) && Rewired(w, cur) && cur.children == w.children && k <= |conns|
    && (forall i, b | 0 <= i < k && b in conns[i].1 :: b in w.edgeOf)
    && child.id == childId
    && (pos.Some? && pos.value < |w.children| ==>
          ConcatSplit.Reshaped(w.children[pos.value], child) && CheckMaxId(child) && child.maxId.value < c)
  }

  lemma ConnsCompletedStep(w: Wiring, cur: Wiring, next: Wiring, pos: Option<nat>, child: Node, child': Node, childId: nat,
                           conns: Entries<seq<Bit>>, k: nat, parentId: nat, lo: int, c: int, c': int)
    requires ConnsCompleted(w, cur, pos, child, childId, conns, k, parentId, lo, c) && k < |conns| && c <= c'
    requires WiringOk(next, parentId, lo, c') && next.children == cur.children
    requires forall j | 0 <= j < |conns[k].1| :: conns[k].1[j] in cur.edgeOf
    requires PortJoined(cur, next, conns[k].1, |conns[k].1|, Endpoint(child.id, c))
    requires conns[k].1 == [] ==> child' == child
    requires conns[k].1 != [] ==> exists d :: PortAdded(child, child', conns[k].0, d, c)
    requires CheckMaxId(child) && child.maxId.value < c ==> CheckMaxId(child') && child'.maxId.value < c'
    ensures ConnsCompleted(w, next, pos, child', childId, conns, k + 1, parentId, lo, c')
  {
    RewiredTrans(w, cur, next);
    forall i, b | 0 <= i < k + 1 && b in conns[i].1 ensures b in w.edgeOf {
      if i == k {
        var j :| 0 <= j < |conns[k].1| && conns[k].1[j] == b;
      }
    }
  }

  /** The state of `loadLNodePortsFromYosysModule` after `i` of its
      declarations: one port added for each, in order, and each registered
      under its declared name, with nothing else changed. */
  ghost predicate PortsAppended(node: Node, n: Node, added: seq<Port>, decls: seq<(string, string)>, cell: Option<Cell>,
                                i: nat, c0: int, within: bool, names0: map<nat, map<string, nat>>, names: map<nat, map<string, nat>>)
  {
    && PortsSoFar(node, n, added, decls, cell, i, c0)
    && (within ==> ContentWithin(n, c0 + i - 1))
    && NamesSoFar(node.id, decls, i, names0, names)
  }

  ghost predicate PortsSoFar(node: Node, n: Node, added: seq<Port>, decls: seq<(string, string)>, cell: Option<Cell>,
                             i: nat, c0: int)
  {
    && c0 >= 0 && i <= |decls| && |added| == i
    && (forall k | 0 <= k < i :: Declared(added[k], c0 + k, |node.ports| + k, cell, decls[k], node.name))
    && ConcatSplit.Reshaped(node, n) && n.ports == node.ports + added
    && n.maxId == (if i == 0 then node.maxId else Some(c0 + i - 1))
    && Loadable(cell, decls[..i])
  }

  ghost predicate NamesSoFar(id: nat, decls: seq<(string, string)>, i: nat, names0: map<nat, map<string, nat>>,
                             names: map<nat, map<string, nat>>)
  {
    && i <= |decls|
    && id in names && (forall k | 0 <= k < i :: decls[k].0 in names[id])
    && (forall x | x in names0 && x != id :: x in names && names[x] == names0[x])
  }

  lemma PortsAppendedStep(node: Node, n: Node, n': Node, added: seq<Port>, decls: seq<(string, string)>, cell: Option<Cell>,
                          i: nat, c0: int, within: bool, names0: map<nat, map<string, nat>>,
                          names: map<nat, map<string, nat>>, names': map<nat, map<string, nat>>)
    requires c0 >= 0
    requires PortsAppended(node, n, added, decls, cell, i, c0, within, names0, names) && i < |decls|
    requires LabelOf(cell, decls[i].0).Ok?
    requires PortAdded(n, n', LabelOf(cell, decls[i].0).value, decls[i].1, c0 + i)
    requires names' == names[n.id := NamesOf(names, n.id)[decls[i].0 := c0 + i]]
    requires within && ContentWithin(n, c0 + i - 1) ==> CheckMaxId(n')
    ensures PortsAppended(node, n', added + [n'.ports[|n.ports|]], decls, cell, i + 1, c0, within, names0, names')
  {
    PortsSoFarStep(node, n, n', added, decls, cell, i, c0);
    NamesSoFarStep(node.id, decls, i, names0, names, names', c0 + i);
    if within {
      CheckMaxIdIsContentWithin(n');
    }
  }

  lemma PortsSoFarStep(node: Node, n: Node, n': Node, added: seq<Port>, decls: seq<(string, string)>, cell: Option<Cell>,
                       i: nat, c0: int)
    requires c0 >= 0
    requires PortsSoFar(node, n, added, decls, cell, i, c0) && i < |decls|
    requires LabelOf(cell, decls[i].0).Ok?
    requires PortAdded(n, n', LabelOf(cell, decls[i].0).value, decls[i].1, c0 + i)
    ensures PortsSoFar(node, n', added + [n'.ports[|n.ports|]], decls, cell, i + 1, c0)
  {
    var p := n'.ports[|n.ports|];
    assert Declared(p, c0 + i, |node.ports| + i, cell, decls[i], node.name);
    DeclaredStep(node, added, p, decls, cell, i, c0);
    LoadableStep(cell, decls, i);
    assert n'.ports == n'.ports[..|n.ports|] + [p];
  }

  lemma DeclaredStep(node: Node, added: seq<Port>, p: Port, decls: seq<(string, string)>, cell: Option<Cell>,
                     i: nat, c0: int)
    requires |added| == i < |decls| && c0 >= 0
    requires forall k | 0 <= k < i :: Declared(added[k], c0 + k, |node.ports| + k, cell, decls[k], node.name)
    requires Declared(p, c0 + i, |node.ports| + i, cell, decls[i], node.name)
    ensures forall k | 0 <= k < i + 1 ::
      Declared((added + [p])[k], c0 + k, |node.ports| + k, cell, decls[k], node.name)
  {
    var added' := added + [p];
    forall k | 0 <= k < i + 1 ensures Declared(added'[k], c0 + k, |node.ports| + k, cell, decls[k], node.name) {
      if k < i {
        assert added'[k] == added[k];
      }
    }
  }

  lemma LoadableStep(cell: Option<Cell>, decls: seq<(string, string)>, i: nat)
    requires i < |decls| && Loadable(cell, decls[..i])
    requires LabelOf(cell, decls[i].0).Ok? && DirectionOf(decls[i].1).Some?
    ensures Loadable(cell, decls[..i + 1])
  {
    assert decls[..i + 1] == decls[..i] + [decls[i]];
  }

  lemma NamesSoFarStep(id: nat, decls: seq<(string, string)>, i: nat, names0: map<nat, map<string, nat>>,
                       names: map<nat, map<string, nat>>, names': map<nat, map<string, nat>>, pid: nat)
    requires NamesSoFar(id, decls, i, names0, names) && i < |decls|
    requires names' == names[id := NamesOf(names, id)[decls[i].0 := pid]]
    ensures NamesSoFar(id, decls, i + 1, names0, names')
  {
  }

  /** Folding operators keeps only edges the node had, so their ids stay
      within the bound. */
  lemma FoldedEdgesWithin(n: Node, folded: Node, bound: int)
    requires n.edgesAt.Shown? && folded.edgesAt.Shown? && forall k | 0 <= k < |n.edges| :: n.edges[k].id <= bound
    requires forall k | 0 <= k < |folded.edges| :: folded.edges[k].id in EdgeIds(n.edges)
    ensures forall k | 0 <= k < |EdgesOf(folded)| :: EdgesOf(folded)[k].id <= bound
  {
    forall k | 0 <= k < |EdgesOf(folded)| ensures EdgesOf(folded)[k].id <= bound {
      var i :| 0 <= i < |n.edges| && EdgeIds(n.edges)[i] == folded.edges[k].id;
      assert n.edges[i].id <= bound;
    }
  }

  /** The folding of `$concat` and `$slice` children at the end of
      `loadLNodeFromYosysModule`: the outcome is the replay of both passes,
      only the children and edges change, and they stay within the bound. */
  method FoldChildren(n: Node, ghost bound: int) returns (r: Result<Node>)
    requires ContentWithin(n, bound) && Distinct(Family(n.id, Kids(n))) && Distinct(EdgeIds(EdgesOf(n)))
    requires !ConcatSplit.IsConcat(n) && !ConcatSplit.IsSlice(n) && n.childrenAt.Shown?
    ensures !n.edgesAt.Shown? ==> r.Err?
    ensures n.edgesAt.Shown? ==> ConcatSplit.PassesReplayed(n, r)
    ensures r.Ok? ==> ContentWithin(r.value, bound) && r.value.childrenAt.Shown?
    ensures r.Ok? ==> r.value == n.(children := r.value.children, edges := r.value.edges)
  {
    r := ConcatSplit.AggregateConcantsAndSplits(n, bound);
    if r.Ok? {
      FoldedEdgesWithin(n, r.value, bound);
    }
  }

  /** The cell of a node without port directions can have its ports made:
      it has connections, and every bit of them already has an edge. */
  predicate Completable(cell: Cell, edgeOf: map<Bit, nat>)
  {
    && cell.connections.Some?
    && forall k, b | 0 <= k < |cell.connections.value| && b in cell.connections.value[k].1 :: b in edgeOf
  }

  /** The level test of `build`: without a limit every node below the top
      module is collapsed, with one every node beyond it. */
  predicate Collapsed(level: nat, limit: Option<int>)
  {
    if limit.None? then level > 1 else level > limit.value
  }

  /** The end of `build` for a node whose children are shown: an empty
      node loses its children and edges, a collapsed one has them hidden. */
  function Trim(n: Node, collapsed: bool): (r: Node)
    requires n.childrenAt.Shown?
    ensures r.id == n.id && r.name == n.name && r.cls == n.cls && r.ports == n.ports && r.maxId == n.maxId
    ensures n.children == [] && n.edges == [] ==> r == n.(childrenAt := Absent, edgesAt := Absent)
    ensures n.edgesAt.Shown? ==> r.edgesAt == r.childrenAt
    ensures n.edgesAt.Shown? ==> (r.childrenAt.Absent? <==> r.children == [] && r.edges == [])
    ensures r.childrenAt.Hidden? <==> collapsed && !r.childrenAt.Absent?
  {
    if n.children == [] && n.edges == [] then n.(children := [], childrenAt := Absent, edges := [], edgesAt := Absent)
    else if collapsed then HideNodeObjects(n)
    else n
  }

  /** Trimming a node takes nothing away from what bounds its content. */
  lemma TrimWithin(n: Node, collapsed: bool, bound: int)
    requires n.childrenAt.Shown? && ContentWithin(n, bound)
    ensures ContentWithin(Trim(n, collapsed), bound)
  {
  }

  /** The node `build` is left with before aggregation: trimmed, with
      `maxId` the last id drawn before `c0`. */
  function Trimmed(n: Node, collapsed: bool, c0: nat): Node
    requires n.childrenAt.Shown?
  {
    Trim(n, collapsed).(maxId := Some(c0 - 1))
  }

  /** The end of `build` with the counter going from `c0` to `c1`: a new
      node is `Trimmed` and draws no id; a node that already existed is
      `Trimmed`, then has its hierarchical port edges aggregated. */
  ghost predicate Sealed(n: Node, r: Node, collapsed: bool, isNew: bool, rule: SuffixRule,
                         parentOf: map<nat, HierPortEdges.Owner>, c0: nat, c1: nat)
  {
    && n.childrenAt.Shown?
    && if isNew then r == Trimmed(n, collapsed, c0) && c1 == c0
       else HierPortEdges.EdgesAggregated(Trimmed(n, collapsed, c0), r, rule, parentOf, c0, c1)
  }

  /** A trimmed node whose `maxId` is a bound of its content passes
      `checkMaxId`. */
  lemma SealedChecks(n: Node, collapsed: bool, bound: int)
    requires n.childrenAt.Shown? && ContentWithin(n, bound)
    ensures CheckMaxId(Trim(n, collapsed).(maxId := Some(bound)))
  {
    TrimWithin(n, collapsed, bound);
    CheckMaxIdIsContentWithin(Trim(n, collapsed).(maxId := Some(bound)));
  }

  /** The level test of `loadLNodeFromYosysModule`: children and edges are
      loaded without a limit, or up to it. */
  predicate LoadsContent(level: nat, limit: Option<int>)
  {
    limit.None? || level <= limit.value
  }

  /** An endpoint is one of the edge's sources or targets. */
  predicate Touches(e: Edge, ep: Endpoint)
  {
    ep in e.sources || ep in e.targets
  }

  lemma ExtendsTouches(a: Edge, b: Edge, ep: Endpoint)
    requires Extends(a, b) && Touches(a, ep)
    ensures Touches(b, ep)
  {
    if ep in a.sources {
      ExtendsKeeps(a, b, SourceRole, ep);
    } else {
      ExtendsKeeps(a, b, TargetRole, ep);
    }
  }

  lemma WithJoinedRewired(w: Wiring, eid: nat, role: Role, ep: Endpoint)
    requires eid in w.edges
    ensures Rewired(w, WithJoined(w, eid, role, ep))
  {
    RewiredRefl(w);
  }

  /** A child replaced by one with the same id that passes `checkMaxId`
      below the counter keeps the wiring consistent. */
  lemma ChildReplaced(w: Wiring, pos: nat, x: Node, parentId: nat, lo: int, c: int)
    requires WiringOk(w, parentId, lo, c) && pos < |w.children| && x.id == w.children[pos].id
    requires CheckMaxId(x) && x.maxId.value <= c - 1
    ensures WiringOk(w.(children := w.children[pos := x]), parentId, lo, c)
  {
    var cs := w.children[pos := x];
    assert Family(parentId, cs) == Family(parentId, w.children);
  }

  lemma AssemblingMonotone(n: Node, c: int, c': int)
    requires Assembling(n, c) && c <= c'
    ensures Assembling(n, c')
  {
    ContentWithinMonotone(n, c - 1, c' - 1);
  }

  /** Ports that are a reordering of ports within a bound (indices aside)
      are within it too. */
  lemma UnindexedPortsWithin(ps: seq<Port>, qs: seq<Port>, m: int)
    requires PortsWithin(ps, m) && multiset(UnindexedAll(qs)) == multiset(UnindexedAll(ps))
    ensures PortsWithin(qs, m)
  {
    forall k | 0 <= k < |qs| ensures CheckMaxIdPorts(m, qs[k]) {
      assert UnindexedAll(qs)[k] in multiset(UnindexedAll(qs));
      assert Unindexed(qs[k]) in UnindexedAll(ps);
      var j :| 0 <= j < |ps| && UnindexedAll(ps)[j] == Unindexed(qs[k]);
      assert CheckMaxIdPorts(m, ps[j]);
      assert ps[j].id == qs[k].id && ps[j].children == qs[k].children;
    }
  }

  /** The edges of a consistent wiring, in order, have distinct ids, all
      made since `lo` and below the counter. */
  lemma EdgeArrayIds(w: Wiring, parentId: nat, lo: int, c: int)
    requires WiringOk(w, parentId, lo, c)
    ensures Distinct(EdgeIds(EdgeArray(w)))
    ensures forall k | 0 <= k < |EdgeArray(w)| :: lo <= EdgeArray(w)[k].id < c
  {
    var es := EdgeArray(w);
    forall k | 0 <= k < |es| ensures es[k].id == w.order[k] && lo <= es[k].id < c {
      assert w.order[k] in w.edges;
    }
  }

  /** Edges made before `lo` followed by edges made since keep their ids
      apart when each list does. */
  lemma EdgesAppendDistinct(a: seq<Edge>, b: seq<Edge>, lo: int)
    requires Distinct(EdgeIds(a)) && Distinct(EdgeIds(b))
    requires forall k | 0 <= k < |a| :: a[k].id < lo
    requires forall k | 0 <= k < |b| :: b[k].id >= lo
    ensures Distinct(EdgeIds(a + b))
  {
    var ab := a + b;
    forall i, j | 0 <= i < j < |ab| ensures EdgeIds(ab)[i] != EdgeIds(ab)[j] {
      if j < |a| {
        assert EdgeIds(a)[i] != EdgeIds(a)[j];
      } else if i >= |a| {
        assert EdgeIds(b)[i - |a|] != EdgeIds(b)[j - |a|];
      } else {
        assert ab[i] == a[i] && ab[j] == b[j - |a|];
      }
    }
  }

  /** Making ports for cells without port directions keeps every
      constant node driving its edge and every child's id. */
  lemma RewiredKeeps(a: Wiring, b: Wiring, n0: nat)
    requires Rewired(a, b)
    ensures ConstsDrive(a) ==> ConstsDrive(b)
    ensures ConstsFrom(a, n0) ==> ConstsFrom(b, n0)
  {
    if ConstsDrive(a) {
      forall d | d in b.consts
        ensures exists e | e in b.edges :: |b.edges[e].sources| > 0 && b.edges[e].sources[0] == Endpoint(d, d + 1)
      {
        var e :| e in a.edges && |a.edges[e].sources| > 0 && a.edges[e].sources[0] == Endpoint(d, d + 1);
        assert b.edges[e].sources[..|a.edges[e].sources|][0] == Endpoint(d, d + 1);
      }
    }
    if ConstsFrom(a, n0) {
      forall k | n0 <= k < |b.children| ensures b.children[k].id in b.consts {
        assert ConcatSplit.Reshaped(a.children[k], b.children[k]);
      }
    }
  }

  /** The children from `base` on were built from the first `i` cells, in
      order, and each is registered with its cell. */
  ghost predicate CellsOf(kids: seq<Node>, base: nat, cells: seq<(string, Cell)>, i: nat, cellOf: map<nat, Cell>)
  {
    && |kids| == base + i && i <= |cells|
    && forall j | base <= j < base + i :: kids[j].id in cellOf && cellOf[kids[j].id] == cells[j - base].1
  }

  /** Registering a fresh id keeps the registrations of the earlier children. */
  lemma CellsOfStep(kids: seq<Node>, base: nat, cells: seq<(string, Cell)>, i: nat, cellOf: map<nat, Cell>, id: nat)
    requires CellsOf(kids, base, cells, i, cellOf) && i < |cells|
    requires forall k | 0 <= k < |kids| :: kids[k].id < id
    ensures CellsOf(kids, base, cells, i, cellOf[id := cells[i].1])
  {
    var m := cellOf[id := cells[i].1];
    forall j | base <= j < base + i ensures kids[j].id in m && m[kids[j].id] == cells[j - base].1 {
      assert kids[j].id < id;
    }
  }

  /** Appending the child whose id was just registered with cell `i - 1`. */
  lemma CellsOfAppend(kids: seq<Node>, base: nat, cells: seq<(string, Cell)>, i: nat, cellOf: map<nat, Cell>, child: Node)
    requires 0 < i && CellsOf(kids, base, cells, i - 1, cellOf)
    requires i <= |cells| && child.id in cellOf && cellOf[child.id] == cells[i - 1].1
    ensures CellsOf(kids + [child], base, cells, i, cellOf)
  {
    forall j | base <= j < base + i ensures (kids + [child])[j].id in cellOf && cellOf[(kids + [child])[j].id] == cells[j - base].1 {
      if j < base + i - 1 {
        assert (kids + [child])[j] == kids[j];
      } else {
        assert (kids + [child])[j] == child;
      }
    }
  }

  /** `b` is `a` with other children and other edges, kept in the same
      slots. */
  predicate ContentReplaced(a: Node, b: Node)
  {
    && b.id == a.id && b.name == a.name && b.cls == a.cls && b.maxId == a.maxId && b.ports == a.ports
    && b.childrenAt == a.childrenAt && b.edgesAt == a.edgesAt
  }

  /** What `loadLNodeEdgesFromYosysModule` promises of the node it returns:
      only the children and the edges change, the children already present
      keep their shape, the edges already present stay in front, the new
      edges differ in their endpoints, and every constant node added drives
      one of them. */
  ghost predicate EdgesLoaded(node: Node, res: Node, c: int)
  {
    && Assembling(res, c)
    && ContentReplaced(node, res)
    && |res.children| >= |node.children| && |res.edges| >= |node.edges|
    && (forall k | 0 <= k < |node.children| :: ConcatSplit.Reshaped(node.children[k], res.children[k]))
    && res.edges[..|node.edges|] == node.edges
    && (forall i, j | |node.edges| <= i < j < |res.edges| :: Key(res.edges[i]) != Key(res.edges[j]))
    && (forall k | |node.children| <= k < |res.children| :: Drives(res.edges[|node.edges|..], res.children[k].id))
  }

  /** What `loadLNodeFromYosysModule` makes of `node` after its ports: when
      `content` is loaded, `kids` is `node` with one child per cell in
      order, registered with its cell, and `loaded` is `kids` with its
      edges loaded; otherwise both are `node`. A node with children left
      then ends as `aggregateConcantsAndSplits` replays it, and any other
      node as it is. */
  ghost predicate ContentLoaded(node: Node, kids: Node, loaded: Node, res: Node, content: bool,
                                cells: seq<(string, Cell)>, cellOf: map<nat, Cell>, c: int)
  {
    && (content ==>
          && kids == node.(children := kids.children, childrenAt := kids.childrenAt)
          && kids.childrenAt == (if node.childrenAt.Absent? && cells != [] then Shown else node.childrenAt)
          && CellsOf(Kids(kids), |Kids(node)|, cells, |cells|, cellOf)
          && Kids(kids)[..|Kids(node)|] == Kids(node)
          && EdgesLoaded(kids, loaded, c))
    && (!content ==> kids == node && loaded == node)
    && if loaded.childrenAt.Shown? && loaded.children != [] then ConcatSplit.PassesReplayed(loaded, Ok(res))
       else res == loaded
  }

  /** One of `edges` has the output port `d + 1` of node `d` as its first
      source. */
  ghost predicate Drives(edges: seq<Edge>, d: nat)
  {
    exists e | e in edges :: |e.sources| > 0 && e.sources[0] == Endpoint(d, d + 1)
  }

  /** Once the wiring is complete and the deduplicated edges are appended,
      the node is loaded as `EdgesLoaded` describes. */
  lemma LoadedEdgesHold(node: Node, cur: Wiring, done: Wiring, res: Node, es: seq<Edge>, lo: int, c: int)
    requires Assembling(node, lo) && node.childrenAt.Shown? && lo <= c
    requires Rewired(cur, done) && |node.children| <= |cur.children| && cur.children[..|node.children|] == node.children
    requires WiringOk(done, node.id, lo, c) && es == EdgeArray(done)
    requires Distinct(EdgeIds(es)) && forall k | 0 <= k < |es| :: lo <= es[k].id < c
    requires ConstsDrive(done) && ConstsFrom(done, |node.children|)
    requires node.edgesAt.Shown? || Dedup(es, {}) == []
    requires ContentReplaced(node, res) && res.children == done.children && res.edges == node.edges + Dedup(es, {})
    ensures EdgesLoaded(node, res, c)
  {
    LoadedPrefix(node, cur, done, res, es);
    LoadedKeys(node, res, es);
    LoadedWithin(node, done, res, es, lo, c);
    LoadedFamily(node, done, res);
    LoadedEdgesDistinct(node, res, es, lo, c);
    LoadedDrives(node, done, res, es, lo, c);
  }

  lemma LoadedPrefix(node: Node, cur: Wiring, done: Wiring, res: Node, es: seq<Edge>)
    requires Rewired(cur, done) && |node.children| <= |cur.children| && cur.children[..|node.children|] == node.children
    requires ContentReplaced(node, res) && res.children == done.children && res.edges == node.edges + Dedup(es, {})
    ensures |res.children| >= |node.children| && |res.edges| >= |node.edges|
    ensures forall k | 0 <= k < |node.children| :: ConcatSplit.Reshaped(node.children[k], res.children[k])
    ensures res.edges[..|node.edges|] == node.edges
  {
    forall k | 0 <= k < |node.children| ensures ConcatSplit.Reshaped(node.children[k], res.children[k]) {
      assert cur.children[..|node.children|][k] == node.children[k];
    }
    assert res.edges[..|node.edges|] == node.edges;
  }

  lemma LoadedKeys(node: Node, res: Node, es: seq<Edge>)
    requires res.edges == node.edges + Dedup(es, {})
    ensures forall i, j | |node.edges| <= i < j < |res.edges| :: Key(res.edges[i]) != Key(res.edges[j])
  {
    var added := Dedup(es, {});
    DedupUnique(es, {});
    forall i, j | |node.edges| <= i < j < |res.edges| ensures Key(res.edges[i]) != Key(res.edges[j]) {
      assert res.edges[i] == added[i - |node.edges|] && res.edges[j] == added[j - |node.edges|];
    }
  }

  lemma LoadedDrives(node: Node, done: Wiring, res: Node, es: seq<Edge>, lo: int, c: int)
    requires EdgesOk(done, lo, c) && es == EdgeArray(done)
    requires ConstsDrive(done) && ConstsFrom(done, |node.children|)
    requires res.children == done.children && res.edges == node.edges + Dedup(es, {})
    ensures forall k | |node.children| <= k < |res.children| :: Drives(res.edges[|node.edges|..], res.children[k].id)
  {
    assert res.edges[|node.edges|..] == Dedup(es, {});
    forall k | |node.children| <= k < |res.children| ensures Drives(Dedup(es, {}), res.children[k].id) {
      var d := done.children[k].id;
      assert d in done.consts;
      ConstDrivesAdded(done, es, d);
    }
  }

  lemma LoadedWithin(node: Node, done: Wiring, res: Node, es: seq<Edge>, lo: int, c: int)
    requires node.id < lo && PortsWithin(node.ports, lo - 1) && node.childrenAt.Shown? && lo <= c
    requires EdgesWithin(EdgesOf(node), lo - 1)
    requires ChildrenWithin(done.children, c - 1)
    requires forall k | 0 <= k < |es| :: lo <= es[k].id < c
    requires node.edgesAt.Shown? || Dedup(es, {}) == []
    requires ContentReplaced(node, res) && res.children == done.children && res.edges == node.edges + Dedup(es, {})
    ensures ContentWithin(res, c - 1)
  {
    LoadedEdgesWithin(node, res, es, lo, c);
    ReplacedWithin(node, done, res, lo, c);
  }

  lemma ReplacedWithin(node: Node, done: Wiring, res: Node, lo: int, c: int)
    requires node.id < lo && PortsWithin(node.ports, lo - 1) && node.childrenAt.Shown? && lo <= c
    requires ChildrenWithin(done.children, c - 1) && EdgesWithin(EdgesOf(res), c - 1)
    requires ContentReplaced(node, res) && res.children == done.children
    ensures ContentWithin(res, c - 1)
  {
    PortsWithinMonotone(node.ports, lo - 1, c - 1);
    assert Kids(res) == done.children;
  }

  lemma LoadedEdgesWithin(node: Node, res: Node, es: seq<Edge>, lo: int, c: int)
    requires EdgesWithin(EdgesOf(node), lo - 1) && lo <= c
    requires forall k | 0 <= k < |es| :: lo <= es[k].id < c
    requires node.edgesAt.Shown? || Dedup(es, {}) == []
    requires res.edgesAt == node.edgesAt && res.edges == node.edges + Dedup(es, {})
    ensures EdgesWithin(EdgesOf(res), c - 1)
  {
    var added := Dedup(es, {});
    if node.edgesAt.Shown? {
      AddedRange(es, lo, c);
      assert EdgesWithin(added, c - 1);
      assert EdgesWithin(node.edges, lo - 1);
      EdgesWithinMonotone(node.edges, lo - 1, c - 1);
      EdgesWithinAppend(node.edges, added, c - 1);
    } else {
      assert EdgesOf(res) == EdgesOf(node);
      EdgesWithinMonotone(EdgesOf(node), lo - 1, c - 1);
    }
  }

  lemma LoadedFamily(node: Node, done: Wiring, res: Node)
    requires Distinct(Family(node.id, done.children))
    requires res.id == node.id && res.childrenAt.Shown? && res.children == done.children
    ensures Distinct(Family(res.id, Kids(res)))
  {
    assert Kids(res) == done.children;
  }

  lemma LoadedEdgesDistinct(node: Node, res: Node, es: seq<Edge>, lo: int, c: int)
    requires EdgesWithin(EdgesOf(node), lo - 1) && Distinct(EdgeIds(EdgesOf(node)))
    requires Distinct(EdgeIds(es)) && forall k | 0 <= k < |es| :: lo <= es[k].id < c
    requires node.edgesAt.Shown? || Dedup(es, {}) == []
    requires res.edgesAt == node.edgesAt && res.edges == node.edges + Dedup(es, {})
    ensures Distinct(EdgeIds(EdgesOf(res)))
  {
    if node.edgesAt.Shown? {
      assert EdgesOf(node) == node.edges;
      AppendedIdsDistinct(node.edges, es, res.edges, lo, c);
    } else {
      assert EdgesOf(res) == EdgesOf(node);
    }
  }

  /** Edges with ids below `lo` followed by the deduplicated new edges,
      whose ids are at or above `lo`, repeat no id. */
  lemma AppendedIdsDistinct(before: seq<Edge>, es: seq<Edge>, all: seq<Edge>, lo: int, c: int)
    requires EdgesWithin(before, lo - 1) && Distinct(EdgeIds(before))
    requires Distinct(EdgeIds(es)) && forall k | 0 <= k < |es| :: lo <= es[k].id < c
    requires all == before + Dedup(es, {})
    ensures Distinct(EdgeIds(all))
  {
    AddedIds(es, lo, c);
    EdgesAppendDistinct(before, Dedup(es, {}), lo);
  }

  lemma EdgesWithinMonotone(es: seq<Edge>, m: int, m': int)
    requires EdgesWithin(es, m) && m <= m'
    ensures EdgesWithin(es, m')
  {
  }

  lemma EdgesWithinAppend(a: seq<Edge>, b: seq<Edge>, m: int)
    requires EdgesWithin(a, m) && EdgesWithin(b, m)
    ensures EdgesWithin(a + b, m)
  {
    forall k | 0 <= k < |a + b| ensures (a + b)[k].id <= m {
      if k < |a| {
        assert (a + b)[k] == a[k];
      } else {
        assert (a + b)[k] == b[k - |a|];
      }
    }
  }

  /** The edges kept after deduplication keep their ids apart and within
      the range of the list's. */
  lemma AddedIds(es: seq<Edge>, lo: int, c: int)
    requires Distinct(EdgeIds(es)) && forall k | 0 <= k < |es| :: lo <= es[k].id < c
    ensures Distinct(EdgeIds(Dedup(es, {})))
    ensures forall k | 0 <= k < |Dedup(es, {})| :: lo <= Dedup(es, {})[k].id < c
  {
    DedupDistinct(es, {});
    AddedRange(es, lo, c);
  }

  lemma AddedRange(es: seq<Edge>, lo: int, c: int)
    requires forall k | 0 <= k < |es| :: lo <= es[k].id < c
    ensures forall k | 0 <= k < |Dedup(es, {})| :: lo <= Dedup(es, {})[k].id < c
  {
    DedupUnique(es, {});
  }

  /** A constant node that drives an edge of the wiring drives one of the
      edges kept after deduplication. */
  lemma ConstDrivesAdded(done: Wiring, es: seq<Edge>, d: nat)
    requires forall k | 0 <= k < |done.order| :: done.order[k] in done.edges
    requires forall e | e in done.edges :: e in done.order
    requires es == EdgeArray(done)
    requires exists x | x in done.edges :: |done.edges[x].sources| > 0 && done.edges[x].sources[0] == Endpoint(d, d + 1)
    ensures Drives(Dedup(es, {}), d)
  {
    var x :| x in done.edges && |done.edges[x].sources| > 0 && done.edges[x].sources[0] == Endpoint(d, d + 1);
    var j :| 0 <= j < |done.order| && done.order[j] == x;
    assert es[j] == done.edges[x];
    DedupCovers(es, {}, j);
    var added := Dedup(es, {});
    var m :| 0 <= m < |added| && Key(added[m]) == Key(es[j]);
    assert added[m] in added && added[m].sources == es[j].sources;
  }

  /** Every module port before `k` has the nets of its bits joined by the
      node's port for it, in the list its direction selects. */
  ghost predicate PortsJoined(w: Wiring, node: Node, ports: Entries<PortDecl>, names: map<string, nat>, byName: bool,
                              k: nat)
    requires k <= |ports|
  {
    forall j | 0 <= j < k ::
      var port := ModulePort(node, ports, names, byName, j);
      && port.Some?
      && Joins(w, ports[j].1.bits, 0, |ports[j].1.bits|, Endpoint(node.id, port.value), EndpointRole(false, ports[j].1.direction))
  }

  lemma PortsJoinedStep(a: Wiring, b: Wiring, node: Node, ports: Entries<PortDecl>, names: map<string, nat>, byName: bool,
                        k: nat, portId: nat)
    requires k < |ports| && PortsJoined(a, node, ports, names, byName, k) && Grown(a, b)
    requires ModulePort(node, ports, names, byName, k) == Some(portId)
    requires Joins(b, ports[k].1.bits, 0, |ports[k].1.bits|, Endpoint(node.id, portId), EndpointRole(false, ports[k].1.direction))
    ensures PortsJoined(b, node, ports, names, byName, k + 1)
  {
    forall j | 0 <= j < k
      ensures Joins(b, ports[j].1.bits, 0, |ports[j].1.bits|, Endpoint(node.id, ModulePort(node, ports, names, byName, j).value),
                    EndpointRole(false, ports[j].1.direction))
    {
      JoinsGrow(a, b, ports[j].1.bits, 0, |ports[j].1.bits|, Endpoint(node.id, ModulePort(node, ports, names, byName, j).value),
                EndpointRole(false, ports[j].1.direction));
    }
  }

  /** Every connection of a cell before `k` has the nets of its bits joined
      by the child's port for it, in the list its direction selects. */
  ghost predicate ConnsJoined(w: Wiring, child: Node, cell: Cell, names: map<string, nat>, conns: Entries<seq<Bit>>, k: nat)
    requires k <= |conns|
  {
    forall j | 0 <= j < k ::
      var port := ConnPort(child, cell, names, conns, j);
      && port.Some?
      && Joins(w, conns[j].1, 0, |conns[j].1|, Endpoint(child.id, port.value.0), EndpointRole(true, port.value.1))
  }

  lemma ConnsJoinedStep(a: Wiring, b: Wiring, child: Node, cell: Cell, names: map<string, nat>, conns: Entries<seq<Bit>>,
                        k: nat, portId: nat, direction: string)
    requires k < |conns| && ConnsJoined(a, child, cell, names, conns, k) && Grown(a, b)
    requires ConnPort(child, cell, names, conns, k) == Some((portId, direction))
    requires Joins(b, conns[k].1, 0, |conns[k].1|, Endpoint(child.id, portId), EndpointRole(true, direction))
    ensures ConnsJoined(b, child, cell, names, conns, k + 1)
  {
    forall j | 0 <= j < k
      ensures Joins(b, conns[j].1, 0, |conns[j].1|, Endpoint(child.id, ConnPort(child, cell, names, conns, j).value.0),
                    EndpointRole(true, ConnPort(child, cell, names, conns, j).value.1))
    {
      JoinsGrow(a, b, conns[j].1, 0, |conns[j].1|, Endpoint(child.id, ConnPort(child, cell, names, conns, j).value.0),
                EndpointRole(true, ConnPort(child, cell, names, conns, j).value.1));
    }
  }

  /** The ports of a `$concat` cell after loading: reversed, then
      `updatePortIndicesNoHierarchy` renumbers them in their new order. */
  method ReverseConcatPorts(n: Node, ghost bound: int) returns (r: Node)
    ensures r == n.(ports := Renumbered(Reverse(n.ports)))
    ensures ContentWithin(n, bound) ==> ContentWithin(r, bound)
  {
    var ps := UpdatePortIndicesNoHierarchy(Reverse(n.ports));
    if ContentWithin(n, bound) {
      RenumberedReverseWithin(n.ports, bound);
    }
    r := n.(ports := ps);
  }

  /** The Operator case of `normalizeChild` on values: a flip-flop ("FF")
      has its clock and reset ports moved to the end, failing when that
      fails; any other operator is left alone. */
  function OperatorOrdered(child: Node): Result<Node>
  {
    if StartsWith(child.name, "FF") then
      var o := OrderPortsFrom(child.ports, 0);
      if o.Ok? then Ok(child.(ports := o.value)) else Err(o.msg)
    else Ok(child)
  }

  /** The other case of `normalizeChild` while the counter goes from `c0`
      to `c2`: the node's ports are regrouped by name into a hierarchy
      (`Regrouped`), every port of the result is recorded with its owner on
      top of `parentOf`, and the hierarchical port edges of the regrouped
      node are aggregated against that dictionary (`EdgesAggregated`). */
  ghost predicate BlockNormalized(child: Node, r: Node, rule: SuffixRule, parentOf: map<nat, HierPortEdges.Owner>,
                                  c0: nat, c2: nat)
  {
    exists h: Node, c1: nat ::
      && PortHierarchy.Regrouped(child, h, c0, c1)
      && HierPortEdges.EdgesAggregated(h, r, rule, parentOf + HierPortEdges.ParentMap(HierPortEdges.NodeOwner(child), h.ports),
                                       c1, c2)
  }

  /** `normalizeChild` while the counter goes from `c0` to `c2`: an
      Operator gets `OperatorOrdered` and draws no id; any other node gets
      `BlockNormalized`. */
  ghost predicate ChildNormalized(child: Node, r: Node, rule: SuffixRule, parentOf: map<nat, HierPortEdges.Owner>,
                                  c0: nat, c2: nat)
  {
    if child.cls == "Operator" then OperatorOrdered(child) == Ok(r) && c2 == c0
    else BlockNormalized(child, r, rule, parentOf, c0, c2)
  }

  /** Child `k` normalized into `out[k]`, the counter going from
      `counters[k]` to `counters[k + 1]` and the owner dictionary gaining
      the ports of `out[k]`. */
  ghost predicate NormalizedAt(children: seq<Node>, out: seq<Node>, rule: SuffixRule, counters: seq<nat>,
                               owners: seq<map<nat, HierPortEdges.Owner>>, k: nat)
  {
    && k < |children| && k < |out| && k + 1 < |counters| && k + 1 < |owners|
    && ChildNormalized(children[k], out[k], rule, owners[k], counters[k], counters[k + 1])
    && owners[k + 1] == owners[k] + HierPortEdges.ParentMap(HierPortEdges.NodeOwner(children[k]), out[k].ports)
  }

  /** The first `|out|` children normalized one after the other into
      `out`, the counter and the owner dictionary passing through
      `counters` and `owners`. */
  ghost predicate Chain(children: seq<Node>, out: seq<Node>, rule: SuffixRule, counters: seq<nat>,
                        owners: seq<map<nat, HierPortEdges.Owner>>)
    decreases |out|
  {
    && |out| <= |children| && |counters| == |owners| == |out| + 1
    && (|out| > 0 ==>
          var n := |out| - 1;
          && Chain(children, out[..n], rule, counters[..n + 1], owners[..n + 1])
          && ChildNormalized(children[n], out[n], rule, owners[n], counters[n], counters[n + 1])
          && owners[n + 1] == owners[n] + HierPortEdges.ParentMap(HierPortEdges.NodeOwner(children[n]), out[n].ports))
  }

  /** A normalized child changes in its ports, `maxId` and edges only. */
  lemma NormalizedShape(child: Node, r: Node, rule: SuffixRule, parentOf: map<nat, HierPortEdges.Owner>, c0: nat, c2: nat)
    requires ChildNormalized(child, r, rule, parentOf, c0, c2)
    ensures r == child.(ports := r.ports, maxId := r.maxId, edges := r.edges)
  {
    if child.cls != "Operator" {
      var h: Node, c1: nat :|
        && PortHierarchy.Regrouped(child, h, c0, c1)
        && HierPortEdges.EdgesAggregated(h, r, rule, parentOf + HierPortEdges.ParentMap(HierPortEdges.NodeOwner(child), h.ports),
                                         c1, c2);
    }
  }

  /** One more child normalized extends the chain. */
  lemma ChainSnoc(children: seq<Node>, out: seq<Node>, rule: SuffixRule, counters: seq<nat>,
                  owners: seq<map<nat, HierPortEdges.Owner>>, child: Node, c: nat, p: map<nat, HierPortEdges.Owner>)
    requires Chain(children, out, rule, counters, owners) && |out| < |children|
    requires ChildNormalized(children[|out|], child, rule, owners[|out|], counters[|out|], c)
    requires p == owners[|out|] + HierPortEdges.ParentMap(HierPortEdges.NodeOwner(children[|out|]), child.ports)
    ensures Chain(children, out + [child], rule, counters + [c], owners + [p])
  {
    var n := |out|;
    assert (out + [child])[..n] == out && (counters + [c])[..n + 1] == counters && (owners + [p])[..n + 1] == owners;
  }

  /** A chain states the normalization of each of its children. */
  lemma {:induction false} ChainAt(children: seq<Node>, out: seq<Node>, rule: SuffixRule, counters: seq<nat>,
                                   owners: seq<map<nat, HierPortEdges.Owner>>, k: nat)
    requires Chain(children, out, rule, counters, owners) && k < |out|
    ensures NormalizedAt(children, out, rule, counters, owners, k)
    decreases |out|
  {
    var n := |out| - 1;
    if k < n {
      var (o, cs, ps) := (out[..n], counters[..n + 1], owners[..n + 1]);
      ChainAt(children, o, rule, cs, ps, k);
      assert o[k] == out[k] && cs[k] == counters[k] && cs[k + 1] == counters[k + 1];
      assert ps[k] == owners[k] && ps[k + 1] == owners[k + 1];
    }
  }

  /** The Operator case of `normalizeChild`: only the clock and reset
      ports of an "FF" node are reordered, so the ports stay the same
      multiset and `maxId` still covers them. */
  method NormalizeOperator(child: Node) returns (r: Result<Node>)
    requires CheckMaxId(child) && child.cls == "Operator"
    ensures r == OperatorOrdered(child)
    ensures r.Ok? <==> !StartsWith(child.name, "FF") || OrderPortsFrom(child.ports, 0).Ok?
    ensures r.Ok? ==> CheckMaxId(r.value) && r.value == child.(ports := r.value.ports)
    ensures r.Ok? ==> multiset(UnindexedAll(r.value.ports)) == multiset(UnindexedAll(child.ports))
  {
    r := OrderClkAndRstPorts(child);
    if r.Ok? {
      if StartsWith(child.name, "FF") {
        OrderPortsPermutes(child.ports, 0);
      }
      CheckMaxIdIsContentWithin(child);
      UnindexedPortsWithin(child.ports, r.value.ports, child.maxId.value);
      CheckMaxIdIsContentWithin(r.value);
    }
  }

  class LNodeBuilder {
    const name: string
    const source: Option<Module>
    const modules: Entries<Module>
    const level: nat
    const shared: Shared
    const rule: SuffixRule
    /** `childrenWithoutPortArray`: the cells without port directions and
        the ids of their nodes. */
    var withoutPorts: seq<(Cell, nat)>
    /** `nodeIdToCell`. */
    var cellOf: map<nat, Cell>

    constructor (name: string, source: Option<Module>, modules: Entries<Module>, level: nat, shared: Shared,
                 rule: SuffixRule)
      ensures this.name == name && this.source == source && this.modules == modules
      ensures this.level == level && this.shared == shared && this.rule == rule
      ensures withoutPorts == [] && cellOf == map[]
    {
      this.name := name;
      this.source := source;
      this.modules := modules;
      this.level := level;
      this.shared := shared;
      this.rule := rule;
      withoutPorts := [];
      cellOf := map[];
    }

    /** `createLPort` on `node`: a new port at the end of its list,
        registered under `originalName` in the node's port-name dictionary,
        and the node's `maxId` moved up to it. A direction other than
        "input" or "output" fails, after the id has been drawn. */
    method AddLPort(node: Node, portName: string, originalName: string, direction: string) returns (r: Result<Node>)
      modifies shared, shared.counter
      ensures shared.counter.id == old(shared.counter.id) + 1
      ensures shared.builders == old(shared.builders) && shared.parentOf == old(shared.parentOf)
      ensures r.Ok? <==> DirectionOf(direction).Some?
      ensures r.Err? ==> shared.portNames == old(shared.portNames)
      ensures r.Ok? ==> PortAdded(node, r.value, portName, direction, old(shared.counter.id))
      ensures r.Ok? ==>
                shared.portNames ==
                old(shared.portNames)[node.id := NamesOf(old(shared.portNames), node.id)[originalName := old(shared.counter.id)]]
      ensures r.Ok? && ContentWithin(node, old(shared.counter.id) - 1) ==> CheckMaxId(r.value)
    {
      var p :- CreateLPort(shared.counter, node.name, portName, direction, |node.ports|);
      shared.portNames := shared.portNames[node.id := NamesOf(shared.portNames, node.id)[originalName := p.id]];
      var n := node.(ports := node.ports + [p], maxId := Some(shared.counter.id - 1));
      assert n.ports[..|node.ports|] == node.ports;
      if ContentWithin(node, p.id - 1) {
        ContentWithinMonotone(node, p.id - 1, p.id);
        PortsWithinAppend(node.ports, [p], p.id);
        CheckMaxIdIsContentWithin(n);
      }
      r := Ok(n);
    }

    /** `loadLNodePortsFromYosysModule`: one port per declaration, in
        order, labelled by `getPortName` and registered under its declared
        name; the ports of a `$concat` cell are then reversed and
        renumbered. The node's port-name dictionary exists afterwards even
        when there is nothing to load. */
    method LoadPorts(node: Node, decls: seq<(string, string)>, cell: Option<Cell>)
      returns (r: Result<Node>, ghost added: seq<Port>)
      modifies shared, shared.counter
      ensures shared.builders == old(shared.builders) && shared.parentOf == old(shared.parentOf)
      ensures shared.counter.id >= old(shared.counter.id)
      ensures r.Ok? <==> Loadable(cell, decls)
      ensures r.Ok? ==> shared.counter.id == old(shared.counter.id) + |decls|
      ensures r.Ok? ==> |added| == |decls| && forall k | 0 <= k < |decls| ::
                Declared(added[k], old(shared.counter.id) + k, |node.ports| + k, cell, decls[k], node.name)
      ensures r.Ok? && !IsConcatCell(cell) ==> r.value.ports == node.ports + added
      ensures r.Ok? && IsConcatCell(cell) ==> r.value.ports == Renumbered(Reverse(node.ports + added))
      ensures r.Ok? ==> ConcatSplit.Reshaped(node, r.value)
      ensures r.Ok? ==> r.value.maxId == if decls == [] then node.maxId else Some(shared.counter.id - 1)
      ensures r.Ok? && ContentWithin(node, old(shared.counter.id) - 1) ==> ContentWithin(r.value, shared.counter.id - 1)
      ensures node.id in shared.portNames
      ensures r.Ok? ==> forall k | 0 <= k < |decls| :: decls[k].0 in shared.portNames[node.id]
      ensures forall id | id in old(shared.portNames) && id != node.id :: id in shared.portNames &&
                shared.portNames[id] == old(shared.portNames)[id]
    {
      var n;
      n, added := AppendPorts(node, decls, cell);
      if n.Ok? && IsConcatCell(cell) {
        var reversed := ReverseConcatPorts(n.value, shared.counter.id - 1);
        n := Ok(reversed);
      }
      r := n;
    }

    /** The loop of `loadLNodePortsFromYosysModule`: `createLPort` for each
        declaration in turn, stopping at the first that fails. */
    method AppendPorts(node: Node, decls: seq<(string, string)>, cell: Option<Cell>)
      returns (r: Result<Node>, ghost added: seq<Port>)
      modifies shared, shared.counter
      ensures shared.builders == old(shared.builders) && shared.parentOf == old(shared.parentOf)
      ensures shared.counter.id >= old(shared.counter.id)
      ensures r.Ok? <==> Loadable(cell, decls)
      ensures r.Ok? ==> shared.counter.id == old(shared.counter.id) + |decls|
      ensures r.Ok? ==> |added| == |decls| && forall k | 0 <= k < |decls| ::
                Declared(added[k], old(shared.counter.id) + k, |node.ports| + k, cell, decls[k], node.name)
      ensures r.Ok? ==> ConcatSplit.Reshaped(node, r.value) && r.value.ports == node.ports + added
      ensures r.Ok? ==> r.value.maxId == if decls == [] then node.maxId else Some(shared.counter.id - 1)
      ensures r.Ok? && ContentWithin(node, old(shared.counter.id) - 1) ==> ContentWithin(r.value, shared.counter.id - 1)
      ensures node.id in shared.portNames
      ensures r.Ok? ==> forall k | 0 <= k < |decls| :: decls[k].0 in shared.portNames[node.id]
      ensures forall id | id in old(shared.portNames) && id != node.id :: id in shared.portNames &&
                shared.portNames[id] == old(shared.portNames)[id]
    {
      if node.id !in shared.portNames {
        shared.portNames := shared.portNames[node.id := map[]];
      }
      ghost var c0: int := shared.counter.id;
      ghost var within := ContentWithin(node, c0 - 1);
      var n := node;
      added := [];
      for i := 0 to |decls|
        invariant shared.builders == old(shared.builders) && shared.parentOf == old(shared.parentOf)
        invariant shared.counter.id == c0 + i
        invariant PortsAppended(node, n, added, decls, cell, i, c0, within, old(shared.portNames), shared.portNames)
      {
        var next;
        next, added := AppendPort(node, n, added, decls, cell, i, c0, within, old(shared.portNames));
        if next.Err? {
          return next, added;
        }
        n := next.value;
      }
      assert decls[..|decls|] == decls;
      r := Ok(n);
    }

    /** One pass of the loop of `loadLNodePortsFromYosysModule`: the label
        of declaration `i`, then `createLPort`; either failure leaves the
        dictionaries as they were. */
    method AppendPort(node: Node, n: Node, ghost added: seq<Port>, decls: seq<(string, string)>, cell: Option<Cell>, i: nat,
                      ghost c0: int, ghost within: bool, ghost names0: map<nat, map<string, nat>>)
      returns (r: Result<Node>, ghost added': seq<Port>)
      requires i < |decls| && shared.counter.id == c0 + i
      requires PortsAppended(node, n, added, decls, cell, i, c0, within, names0, shared.portNames)
      modifies shared, shared.counter
      ensures shared.builders == old(shared.builders) && shared.parentOf == old(shared.parentOf)
      ensures r.Ok? <==> LabelOf(cell, decls[i].0).Ok? && DirectionOf(decls[i].1).Some?
      ensures r.Err? ==> shared.portNames == old(shared.portNames) && shared.counter.id >= old(shared.counter.id)
      ensures r.Ok? ==> shared.counter.id == c0 + i + 1
      ensures r.Ok? ==> PortsAppended(node, r.value, added', decls, cell, i + 1, c0, within, names0, shared.portNames)
    {
      added' := added;
      var portLabel := LabelOf(cell, decls[i].0);
      if portLabel.Err? {
        return Err(portLabel.msg), added';
      }
      ghost var names := shared.portNames;
      var next := AddLPort(n, portLabel.value, decls[i].0, decls[i].1);
      if next.Err? {
        return Err(next.msg), added';
      }
      PortsAppendedStep(node, n, next.value, added, decls, cell, i, c0, within, names0, names, shared.portNames);
      added' := added + [next.value.ports[|n.ports|]];
      r := next;
    }

    // -------------------------------------------------------------------
    // build

    /** `build`: a new node (or the given one) filled from the module, if
        the builder has one; then its children are normalized, an empty
        node loses both lists, a node beyond the level limit has them
        hidden, and `maxId` is set to the last id drawn. A given node then
        has its hierarchical port edges aggregated. `fuel` bounds the depth
        of module instantiation. */
    method Build(limit: Option<int>, existing: Option<Node>, loadPorts: bool, byName: bool, fuel: nat)
      returns (r: Result<Node>)
      requires shared.Registry()
      requires existing.Some? ==> Assembling(existing.value, shared.counter.id)
      requires existing.Some? && source.Some? ==>
                 !ConcatSplit.IsConcat(existing.value) && !ConcatSplit.IsSlice(existing.value)
      modifies this, shared, shared.counter
      decreases fuel, if source.Some? then 14 else 1
      ensures shared.Registry() && shared.counter.id >= old(shared.counter.id) && BuildersKept(old(shared.builders), shared.builders)
      ensures existing.None? ==> old(shared.counter.id) in shared.builders && shared.builders[old(shared.counter.id)] == this
      ensures existing.None? && source.None? ==>
                && r.Ok? && r.value.ports == [] && r.value.children == [] && r.value.edges == []
                && r.value.childrenAt.Absent? && r.value.edgesAt.Absent?
                && shared.counter.id == old(shared.counter.id) + 1 && shared.portNames == old(shared.portNames)
      ensures r.Ok? ==> CheckMaxId(r.value) && r.value.maxId.value < shared.counter.id
      ensures r.Ok? && existing.None? ==>
                && r.value.id == old(shared.counter.id) && r.value.name == name && r.value.cls == ""
                && r.value.maxId == Some(shared.counter.id - 1)
      ensures r.Ok? && existing.Some? ==>
                r.value.id == existing.value.id && r.value.name == existing.value.name && r.value.cls == existing.value.cls
      ensures r.Ok? && existing.Some? && !loadPorts ==> r.value.ports == existing.value.ports
      ensures r.Ok? && existing.None? && !loadPorts ==> r.value.ports == []
      ensures r.Ok? && existing.None? && loadPorts && source.Some? ==>
                && |r.value.ports| == |source.value.ports|
                && forall k | 0 <= k < |r.value.ports| ::
                     Declared(r.value.ports[k], old(shared.counter.id) + 1 + k, k, None,
                              ModulePortDecls(source.value.ports)[k], name)
      ensures r.Ok? && existing.None? ==> r.value.edgesAt == r.value.childrenAt
      ensures r.Ok? && existing.None? ==> (r.value.childrenAt.Absent? <==> r.value.children == [] && r.value.edges == [])
      ensures r.Ok? && existing.None? ==>
                (r.value.childrenAt.Hidden? <==> Collapsed(level, limit) && !r.value.childrenAt.Absent?)
    {
      ghost var c0 := shared.counter.id;
      var node: Node;
      if existing.None? {
        node := CreateLNode(shared.counter, name);
        shared.builders := shared.builders[node.id := this];
        assert Family(node.id, Kids(node)) == [node.id];
      } else {
        node := existing.value;
      }
      r := Fill(node, limit, existing.None?, loadPorts, byName, fuel);
    }

    /** The part of `build` after the node exists: the module's content
        loaded (the node at hand being `isNew`ly made or given), then the
        node finished. */
    method Fill(node: Node, limit: Option<int>, isNew: bool, loadPorts: bool, byName: bool, fuel: nat)
      returns (r: Result<Node>)
      requires shared.Registry() && Assembling(node, shared.counter.id)
      requires source.Some? ==> !ConcatSplit.IsConcat(node) && !ConcatSplit.IsSlice(node)
      requires isNew ==> node.childrenAt.Shown? && node.edgesAt.Shown? && node.children == [] && node.edges == []
      modifies this, shared, shared.counter
      decreases fuel, if source.Some? then 13 else 0
      ensures shared.Registry() && shared.counter.id >= old(shared.counter.id) && BuildersKept(old(shared.builders), shared.builders)
      ensures isNew && source.None? ==>
                && r.Ok? && r.value.ports == node.ports && r.value.children == [] && r.value.edges == []
                && r.value.childrenAt.Absent? && r.value.edgesAt.Absent?
                && shared.counter.id == old(shared.counter.id) && shared.portNames == old(shared.portNames)
      ensures r.Ok? ==> CheckMaxId(r.value) && r.value.maxId.value < shared.counter.id
      ensures r.Ok? ==> r.value.id == node.id && r.value.name == node.name && r.value.cls == node.cls
      ensures r.Ok? && isNew ==> r.value.maxId == Some(shared.counter.id - 1)
      ensures r.Ok? && (!loadPorts || source.None?) ==> r.value.ports == node.ports
      ensures r.Ok? && loadPorts && source.Some? ==>
                && |r.value.ports| == |node.ports| + |source.value.ports| && r.value.ports[..|node.ports|] == node.ports
                && forall k | 0 <= k < |source.value.ports| ::
                     Declared(r.value.ports[|node.ports| + k], old(shared.counter.id) + k, |node.ports| + k, None,
                              ModulePortDecls(source.value.ports)[k], node.name)
      ensures r.Ok? && isNew ==> r.value.edgesAt == r.value.childrenAt
      ensures r.Ok? && isNew ==> (r.value.childrenAt.Absent? <==> r.value.children == [] && r.value.edges == [])
      ensures r.Ok? && isNew ==> (r.value.childrenAt.Hidden? <==> Collapsed(level, limit) && !r.value.childrenAt.Absent?)
    {
      var n := node;
      if source.Some? {
        if fuel == 0 {
          return Err("Module instances are nested deeper than the number of modules");
        }
        ghost var ported, kids, loaded;
        n, ported, kids, loaded :- LoadFromModule(n, limit, loadPorts, byName, fuel);
      }
      ghost var normalized, counters, owners;
      r, normalized, counters, owners := Finish(n, limit, isNew);
    }

    /** The end of `build`: the children's ports and edges normalized, then
        the children and edges of an empty node deleted or those of a
        collapsed node hidden, `maxId` set from the counter and, for a node
        that already existed, its hierarchical port edges aggregated. */
    method Finish(node: Node, limit: Option<int>, isNew: bool)
      returns (r: Result<Node>, ghost normalized: Node, ghost counters: seq<nat>, ghost owners: seq<map<nat, HierPortEdges.Owner>>)
      requires shared.Registry() && ContentWithin(node, shared.counter.id - 1)
      requires isNew ==> node.edgesAt.Shown?
      modifies shared, shared.counter
      ensures shared.Registry() && shared.counter.id >= old(shared.counter.id) && shared.builders == old(shared.builders)
      ensures isNew && node.childrenAt.Shown? && node.children == [] && node.edges == [] ==>
                && r.Ok? && r.value.children == [] && r.value.edges == [] && r.value.childrenAt.Absent? && r.value.edgesAt.Absent?
                && r.value.maxId == Some(old(shared.counter.id) - 1)
                && shared.counter.id == old(shared.counter.id) && shared.portNames == old(shared.portNames)
      ensures r.Ok? ==> CheckMaxId(r.value) && r.value.maxId.value < shared.counter.id
      ensures r.Ok? ==> r.value.id == node.id && r.value.name == node.name && r.value.cls == node.cls && r.value.ports == node.ports
      ensures r.Ok? && isNew ==> r.value.maxId == Some(shared.counter.id - 1) && r.value.edgesAt == r.value.childrenAt
      ensures r.Ok? && isNew ==> (r.value.childrenAt.Absent? <==> r.value.children == [] && r.value.edges == [])
      ensures r.Ok? && isNew ==> (r.value.childrenAt.Hidden? <==> Collapsed(level, limit) && !r.value.childrenAt.Absent?)
      ensures r.Ok? ==>
                && node.childrenAt.Shown? && normalized == node.(children := normalized.children)
                && |counters| == |owners| == |node.children| + 1
                && counters[0] == old(shared.counter.id) && owners[0] == old(shared.parentOf)
                && (forall k | 0 <= k < |node.children| :: NormalizedAt(node.children, normalized.children, rule, counters, owners, k))
                && Sealed(normalized, r.value, Collapsed(level, limit), isNew, rule,
                          owners[|node.children|], counters[|node.children|], shared.counter.id)
    {
      var n;
      var nr;
      nr, counters, owners := NormalizeContent(node);
      normalized := if nr.Ok? then nr.value else node;
      if nr.Err? {
        return nr.PropagateFailure(), normalized, counters, owners;
      }
      n := nr.value;
      r := Seal(n, limit, isNew);
    }

    /** The rest of `build` once the children are normalized: a node with
        no shown children fails as the source does on their length, an
        empty node loses its children and edges, a collapsed one has them
        hidden, `maxId` is set from the counter and, for a node that
        already existed, its hierarchical port edges are aggregated. */
    method Seal(n: Node, limit: Option<int>, isNew: bool) returns (r: Result<Node>)
      requires shared.Registry() && ContentWithin(n, shared.counter.id - 1)
      requires isNew ==> n.edgesAt.Shown?
      modifies shared.counter
      ensures shared.Registry() && shared.counter.id >= old(shared.counter.id)
      ensures isNew ==> shared.counter.id == old(shared.counter.id)
      ensures !n.childrenAt.Shown? || (n.children == [] && !n.edgesAt.Shown?) ==> r.Err?
      ensures isNew && n.childrenAt.Shown? ==> r.Ok?
      ensures !isNew && n.childrenAt.Shown? && !(n.children == [] && !n.edgesAt.Shown?) ==>
                (r.Ok? <==> HierPortEdges.Aggregable(Trimmed(n, Collapsed(level, limit), old(shared.counter.id)), rule,
                                                     shared.parentOf, old(shared.counter.id)))
      ensures r.Ok? ==>
                Sealed(n, r.value, Collapsed(level, limit), isNew, rule, shared.parentOf, old(shared.counter.id), shared.counter.id)
      ensures r.Ok? ==> CheckMaxId(r.value) && r.value.maxId.value < shared.counter.id
      ensures r.Ok? ==> r.value.id == n.id && r.value.name == n.name && r.value.cls == n.cls && r.value.ports == n.ports
    {
      if !n.childrenAt.Shown? || (n.children == [] && !n.edgesAt.Shown?) {
        return Err("Cannot read properties of undefined (reading 'length')");
      }
      SealedChecks(n, Collapsed(level, limit), shared.counter.id - 1);
      var m := Trim(n, Collapsed(level, limit)).(maxId := Some(shared.counter.id - 1));
      if !isNew {
        m :- AggregateExisting(m);
      }
      r := Ok(m);
    }

    /** The hierarchical port edges of a node that already existed,
        aggregated against the builder's parent dictionary: the result is
        `EdgesAggregated`, and the node keeps passing `checkMaxId` against
        the counter. */
    method AggregateExisting(n: Node) returns (r: Result<Node>)
      requires CheckMaxId(n) && n.maxId.value < shared.counter.id
      modifies shared.counter
      ensures shared.counter.id >= old(shared.counter.id)
      ensures r.Ok? <==> HierPortEdges.Aggregable(n, rule, shared.parentOf, old(shared.counter.id))
      ensures r.Ok? ==> HierPortEdges.EdgesAggregated(n, r.value, rule, shared.parentOf, old(shared.counter.id), shared.counter.id)
      ensures r.Ok? ==> CheckMaxId(r.value) && r.value.maxId.value < shared.counter.id
      ensures r.Ok? ==> r.value == n.(edges := r.value.edges, maxId := r.value.maxId)
    {
      r := HierPortEdges.AggregateHierarchicalPortEdges(shared.counter, n, rule, shared.parentOf);
    }

    /** The children of a node with a shown list, each normalized: child
        `k` is `NormalizedAt` from the counter and parent dictionary the
        child before it left, starting from the builder's own. */
    method NormalizeContent(node: Node)
      returns (r: Result<Node>, ghost counters: seq<nat>, ghost owners: seq<map<nat, HierPortEdges.Owner>>)
      requires shared.Registry() && ContentWithin(node, shared.counter.id - 1)
      modifies shared, shared.counter
      ensures shared.Registry() && shared.counter.id >= old(shared.counter.id) && shared.builders == old(shared.builders)
      ensures node.childrenAt.Shown? && node.children == [] ==>
                r == Ok(node) && shared.counter.id == old(shared.counter.id) && shared.portNames == old(shared.portNames)
      ensures r.Ok? ==> ContentWithin(r.value, shared.counter.id - 1) && r.value == node.(children := r.value.children)
      ensures r.Ok? ==> |r.value.children| == |node.children|
      ensures r.Ok? && node.childrenAt.Shown? ==>
                && |counters| == |owners| == |node.children| + 1
                && counters[0] == old(shared.counter.id) && counters[|node.children|] == shared.counter.id
                && owners[0] == old(shared.parentOf) && owners[|node.children|] == shared.parentOf
                && forall k | 0 <= k < |node.children| :: NormalizedAt(node.children, r.value.children, rule, counters, owners, k)
    {
      counters, owners := [shared.counter.id], [shared.parentOf];
      if !node.childrenAt.Shown? {
        return Ok(node), counters, owners;
      }
      ghost var cb := shared.counter.id;
      var normalized;
      normalized, counters, owners := Normalize(node.children);
      var children :- normalized;
      ContentWithinMonotone(node, cb - 1, shared.counter.id - 1);
      ContentWithChildren(node, children, shared.counter.id - 1);
      r := Ok(node.(children := children));
    }

    /** `loadLNodeFromYosysModule`: the ports of the module (when asked
        for), then, within the level limit, its cells as children and its
        nets as edges, and finally the folding of `$concat` and `$slice`
        children. */
    method LoadFromModule(node: Node, limit: Option<int>, loadPorts: bool, byName: bool, fuel: nat)
      returns (r: Result<Node>, ghost ported: Node, ghost kids: Node, ghost loaded: Node)
      requires source.Some? && fuel > 0 && shared.Registry()
      requires Assembling(node, shared.counter.id)
      requires !ConcatSplit.IsConcat(node) && !ConcatSplit.IsSlice(node)
      modifies this, shared, shared.counter
      decreases fuel, 12
      ensures shared.Registry() && shared.counter.id >= old(shared.counter.id) && BuildersKept(old(shared.builders), shared.builders)
      ensures r.Ok? ==> ContentWithin(r.value, shared.counter.id - 1)
      ensures r.Ok? ==> r.value.id == node.id && r.value.name == node.name && r.value.cls == node.cls
      ensures r.Ok? ==> r.value.edgesAt == node.edgesAt
      ensures r.Ok? && node.childrenAt.Shown? ==> r.value.childrenAt.Shown?
      ensures r.Ok? && !loadPorts ==> r.value.ports == node.ports
      ensures r.Ok? && loadPorts ==>
                && |r.value.ports| == |node.ports| + |source.value.ports| && r.value.ports[..|node.ports|] == node.ports
                && forall k | 0 <= k < |source.value.ports| ::
                     Declared(r.value.ports[|node.ports| + k], old(shared.counter.id) + k, |node.ports| + k, None,
                              ModulePortDecls(source.value.ports)[k], node.name)
      ensures r.Ok? ==> ported == node.(ports := r.value.ports, maxId := ported.maxId)
      ensures r.Ok? ==> ContentLoaded(ported, kids, loaded, r.value, LoadsContent(level, limit), source.value.cells, cellOf, shared.counter.id)
    {
      var n := node;
      var m := source.value;
      ported, kids, loaded := node, node, node;
      if loadPorts {
        var loaded;
        ghost var added;
        loaded, added := LoadPorts(n, ModulePortDecls(m.ports), None);
        n :- loaded;
        assert n.ports[..|node.ports|] == node.ports;
      }
      assert Assembling(n, shared.counter.id);
      ported := n;
      r, kids, loaded := LoadContent(n, limit, byName, fuel);
    }

    /** The second half of `loadLNodeFromYosysModule`: children and edges
        from the module when the level allows it, then the concatenations
        and slices among the children folded; `kids` is the node once its
        children are loaded and `loaded` once its edges are too. */
    method LoadContent(node: Node, limit: Option<int>, byName: bool, fuel: nat)
      returns (r: Result<Node>, ghost kids: Node, ghost loaded: Node)
      requires source.Some? && fuel > 0 && shared.Registry()
      requires Assembling(node, shared.counter.id)
      requires !ConcatSplit.IsConcat(node) && !ConcatSplit.IsSlice(node)
      modifies this, shared, shared.counter
      decreases fuel, 11
      ensures shared.Registry() && shared.counter.id >= old(shared.counter.id) && BuildersKept(old(shared.builders), shared.builders)
      ensures r.Ok? ==> ContentWithin(r.value, shared.counter.id - 1)
      ensures r.Ok? ==> r.value.id == node.id && r.value.name == node.name && r.value.cls == node.cls
      ensures r.Ok? ==> r.value.edgesAt == node.edgesAt && r.value.ports == node.ports && r.value.maxId == node.maxId
      ensures r.Ok? && node.childrenAt.Shown? ==> r.value.childrenAt.Shown?
      ensures r.Ok? ==> ContentLoaded(node, kids, loaded, r.value, LoadsContent(level, limit), source.value.cells, cellOf, shared.counter.id)
    {
      var n := node;
      kids, loaded := node, node;
      if LoadsContent(level, limit) {
        n :- LoadChildren(n, limit, fuel);
        kids := n;
        n :- LoadEdges(n, byName, fuel);
        loaded := n;
      }
      if n.childrenAt.Shown? && n.children != [] {
        n :- FoldChildren(n, shared.counter.id - 1);
      }
      r := Ok(n);
    }

    /** `loadLNodeChildrenFromYosysModule`: one child per cell, built by a
        new builder one level down (from the cell's module when the design
        has one), registered with its builder and its cell. A cell without
        a module has its icon translated and its ports loaded from its port
        directions, or, lacking those, waits for its ports until the edges
        are known. */
    method LoadChildren(node: Node, limit: Option<int>, fuel: nat) returns (r: Result<Node>)
      requires source.Some? && fuel > 0 && shared.Registry()
      requires Assembling(node, shared.counter.id)
      modifies this, shared, shared.counter
      decreases fuel, 10
      ensures shared.Registry() && shared.counter.id >= old(shared.counter.id) && BuildersKept(old(shared.builders), shared.builders)
      ensures r.Ok? ==> Assembling(r.value, shared.counter.id)
      ensures r.Ok? ==> r.value == node.(children := r.value.children, childrenAt := r.value.childrenAt)
      ensures r.Ok? ==> r.value.childrenAt == if node.childrenAt.Absent? && source.value.cells != [] then Shown else node.childrenAt
      ensures r.Ok? ==> CellsOf(Kids(r.value), |Kids(node)|, source.value.cells, |source.value.cells|, cellOf)
      ensures r.Ok? ==> Kids(r.value)[..|Kids(node)|] == Kids(node)
    {
      var cells := source.value.cells;
      var n := node;
      for i := 0 to |cells|
        invariant shared.Registry() && shared.counter.id >= old(shared.counter.id) && BuildersKept(old(shared.builders), shared.builders)
        invariant Assembling(n, shared.counter.id)
        invariant n == node.(children := n.children, childrenAt := n.childrenAt)
        invariant n.childrenAt == if node.childrenAt.Absent? && i > 0 then Shown else node.childrenAt
        invariant CellsOf(Kids(n), |Kids(node)|, cells, i, cellOf)
        invariant Kids(n)[..|Kids(node)|] == Kids(node)
        invariant forall k | 0 <= k < |Kids(n)| :: Kids(n)[k].id < shared.counter.id
      {
        ghost var ci := shared.counter.id;
        ghost var registered := cellOf;
        var cellNode :- LoadCell(cells[i].0, cells[i].1, limit, fuel);
        CellsOfStep(Kids(n), |Kids(node)|, cells, i, registered, cellNode.id);
        CellsOfAppend(Kids(n), |Kids(node)|, cells, i + 1, cellOf, cellNode);
        AssemblingMonotone(n, ci, shared.counter.id);
        var kids := Kids(n);
        ChildrenWithinMonotone(kids, ci - 1, shared.counter.id - 1);
        FamilyAppend(n.id, kids, cellNode, ci);
        ChildrenWithinAppend(kids, cellNode, shared.counter.id - 1);
        n := n.(children := kids + [cellNode], childrenAt := if n.childrenAt.Absent? then Shown else n.childrenAt);
        assert Kids(n) == kids + [cellNode];
        assert Kids(n)[..|Kids(node)|] == kids[..|Kids(node)|];
      }
      r := Ok(n);
    }

    /** The body of the loop of `loadLNodeChildrenFromYosysModule` for one
        cell: a new builder one level down builds the cell's node, which is
        registered with that builder and with the cell; a cell without a
        module has its icon translated and its ports loaded from its port
        directions, or, lacking those, waits for its ports until the edges
        are known. */
    method LoadCell(cellName: string, cell: Cell, limit: Option<int>, fuel: nat) returns (r: Result<Node>)
      requires fuel > 0 && shared.Registry()
      modifies this, shared, shared.counter
      decreases fuel, 9
      ensures shared.Registry() && shared.counter.id >= old(shared.counter.id) && BuildersKept(old(shared.builders), shared.builders)
      ensures r.Ok? ==> r.value.id == old(shared.counter.id) && CheckMaxId(r.value) && r.value.maxId.value < shared.counter.id
      ensures r.Ok? ==> cellOf == old(cellOf)[r.value.id := cell]
    {
      var cellModule := Lookup(modules, cell.cellType);
      var nb := new LNodeBuilder(cellName, cellModule, modules, level + 1, shared, rule);
      var cellNode :- nb.Build(limit, None, true, false, fuel - 1);
      shared.builders := shared.builders[cellNode.id := nb];
      cellOf := cellOf[cellNode.id := cell];
      if cellModule.None? {
        if cell.portDirections.None? {
          withoutPorts := withoutPorts + [(cell, cellNode.id)];
        } else {
          cellNode :- LoadCellPorts(cellNode, cell);
        }
      }
      r := Ok(cellNode);
    }

    /** A cell without a module but with port directions: its icon
        translated, then its ports loaded from those directions. */
    method LoadCellPorts(cellNode: Node, cell: Cell) returns (r: Result<Node>)
      requires shared.Registry() && cell.portDirections.Some?
      requires CheckMaxId(cellNode) && cellNode.maxId.value < shared.counter.id
      modifies shared, shared.counter
      ensures shared.Registry() && shared.counter.id >= old(shared.counter.id) && shared.builders == old(shared.builders)
      ensures r.Ok? ==> r.value.id == cellNode.id && CheckMaxId(r.value) && r.value.maxId.value < shared.counter.id
    {
      var icon := YosysIcons.TranslateIcon(cellNode, cell);
      assert CheckMaxId(icon) by {
        assert icon.ports == cellNode.ports && icon.children == cellNode.children && icon.edges == cellNode.edges;
        assert EdgesOf(icon) == EdgesOf(cellNode);
      }
      ContentWithinMonotone(icon, icon.maxId.value, shared.counter.id - 1);
      var loaded;
      ghost var added;
      loaded, added := LoadPorts(icon, cell.portDirections.value, Some(cell));
      var n :- loaded;
      CheckMaxIdIsContentWithin(n);
      r := Ok(n);
    }

    /** `loadLNodeEdgesFromYosysModule`: the nets of the module's ports
        become edges, then those of every cell child that has port
        directions (constant children are skipped); then the cells without
        port directions get their ports, and the edges are appended to the
        node without duplicates. */
    method LoadEdges(node: Node, byName: bool, fuel: nat) returns (r: Result<Node>)
      requires source.Some? && shared.Registry()
      requires Assembling(node, shared.counter.id)
      modifies shared, shared.counter
      decreases fuel, 10
      ensures shared.Registry() && shared.counter.id >= old(shared.counter.id) && BuildersKept(old(shared.builders), shared.builders)
      ensures !node.childrenAt.Shown? ==> r.Err?
      ensures r.Ok? ==> EdgesLoaded(node, r.value, shared.counter.id)
    {
      if !node.childrenAt.Shown? {
        return Err("Cannot read properties of undefined (reading 'push')");
      }
      ghost var lo := shared.counter.id;
      var w := Wiring(map[], map[], [], {}, node.children);
      assert WiringOk(w, node.id, lo, lo) && ConstsDrive(w) && ConstsFrom(w, |node.children|);
      GrownRefl(w);
      var w1 :- GetEdgeDictFromPorts(node, w, byName, lo, fuel);
      ConstsFromChain(w, w1, |node.children|);
      var netNames := GetNetNamesDict(source.value.netnames);
      assert w1.children[..|node.children|] == node.children;
      var cur :- LoadChildrenEdges(w1, node.id, |node.children|, netNames, lo, fuel);
      GrownTrans(w, w1, cur);
      var done :- CompleteEdges(cur, node.id, lo);
      RewiredKeeps(cur, done, |node.children|);
      var es := EdgeArray(done);
      EdgeArrayIds(done, node.id, lo, shared.counter.id);
      r := FilterDuplicitEdges(node.(children := done.children), es);
      if r.Ok? {
        LoadedEdgesHold(node, cur, done, r.value, es, lo, shared.counter.id);
      }
    }

    /** The loop of `loadLNodeEdgesFromYosysModule` over the children: the
        connections of every cell child with port directions become edges;
        constant nodes and cells without port directions are skipped. The
        constant nodes the loop adds are not visited, as they would be
        skipped too. */
    method LoadChildrenEdges(w: Wiring, parentId: nat, n0: nat, netNames: map<int, string>, ghost lo: int, fuel: nat)
      returns (r: Result<Wiring>)
      requires shared.Registry()
      requires WiringOk(w, parentId, lo, shared.counter.id) && lo <= shared.counter.id
      requires n0 <= |w.children| && ConstsDrive(w) && ConstsFrom(w, n0)
      requires ChildrenWithin(w.children[..n0], lo - 1)
      modifies shared, shared.counter
      decreases fuel, 9
      ensures shared.Registry() && shared.counter.id >= old(shared.counter.id) && BuildersKept(old(shared.builders), shared.builders)
      ensures r.Ok? ==> WiringOk(r.value, parentId, lo, shared.counter.id) && Grown(w, r.value)
      ensures r.Ok? ==> ConstsDrive(r.value) && ConstsFrom(r.value, n0)
    {
      var cur := w;
      GrownRefl(w);
      for k := 0 to |w.children|
        invariant shared.Registry() && shared.counter.id >= old(shared.counter.id) && BuildersKept(old(shared.builders), shared.builders)
        invariant WiringOk(cur, parentId, lo, shared.counter.id) && Grown(w, cur)
        invariant ConstsDrive(cur) && ConstsFrom(cur, n0)
      {
        assert cur.children[..|w.children|] == w.children;
        var child := cur.children[k];
        if child.id in cur.consts {
          continue;
        }
        if child.id !in cellOf {
          return Err("Cannot read properties of undefined (reading 'port_directions')");
        }
        var cell := cellOf[child.id];
        if cell.portDirections.None? {
          continue;
        }
        if cell.connections.None? {
          return Err("Cannot find cell for subNode" + child.name);
        }
        assert w.children[..n0][k] == child;
        var next :- LoadEdgesForCell(cur, child, cell, cell.connections.value, netNames, parentId, lo, fuel);
        GrownTrans(w, cur, next);
        ConstsFromChain(cur, next, n0);
        cur := next;
      }
      r := Ok(cur);
    }

    /** `getEdgeDictFromPorts`: the nets of every module port become edges
        named after the port, joined by the node's own port, found by name
        in the node's port-name dictionary or by position. */
    method GetEdgeDictFromPorts(node: Node, w: Wiring, byName: bool, ghost lo: int, fuel: nat)
      returns (r: Result<Wiring>)
      requires source.Some? && shared.Registry()
      requires WiringOk(w, node.id, lo, shared.counter.id) && lo <= shared.counter.id && node.id < lo
      modifies shared, shared.counter
      decreases fuel, 8
      ensures shared.Registry() && shared.counter.id >= old(shared.counter.id) && BuildersKept(old(shared.builders), shared.builders)
      ensures NamesOf(shared.portNames, node.id) == NamesOf(old(shared.portNames), node.id)
      ensures r.Ok? ==> WiringOk(r.value, node.id, lo, shared.counter.id) && Grown(w, r.value)
      ensures r.Ok? ==> ConstsFrom(r.value, |w.children|) && (ConstsDrive(w) ==> ConstsDrive(r.value))
      ensures r.Ok? ==>
                PortsJoined(r.value, node, source.value.ports, NamesOf(old(shared.portNames), node.id), byName, |source.value.ports|)
    {
      var ports := source.value.ports;
      ghost var names0 := NamesOf(shared.portNames, node.id);
      var cur := w;
      GrownRefl(w);
      for k := 0 to |ports|
        invariant shared.Registry() && shared.counter.id >= old(shared.counter.id) && BuildersKept(old(shared.builders), shared.builders)
        invariant NamesOf(shared.portNames, node.id) == names0
        invariant WiringOk(cur, node.id, lo, shared.counter.id) && Grown(w, cur)
        invariant ConstsFrom(cur, |w.children|) && (ConstsDrive(w) ==> ConstsDrive(cur))
        invariant PortsJoined(cur, node, ports, names0, byName, k)
      {
        var portId: nat;
        if byName {
          var names := NamesOf(shared.portNames, node.id);
          if ports[k].0 !in names {
            return Err("Cannot read properties of undefined (reading 'id')");
          }
          portId := names[ports[k].0];
        } else {
          if k >= |node.ports| {
            return Err("Cannot read properties of undefined (reading 'id')");
          }
          portId := node.ports[k].id;
        }
        assert ModulePort(node, ports, names0, byName, k) == Some(portId);
        var next :- TranslateBits(cur, node.id, portId, ports[k].1.bits, ports[k].1.direction, PortNamed(ports[k].0), false,
                                  node.id, lo, fuel);
        PortsJoinedStep(cur, next, node, ports, names0, byName, k, portId);
        GrownTrans(w, cur, next);
        ConstsFromChain(cur, next, |w.children|);
        cur := next;
      }
      r := Ok(cur);
    }

    /** `loadLNodeEdgesForYosysCell`: the nets of every connection of a
        cell become edges named after the module's net names, joined by the
        child's port for that connection: for a name starting with "$" the
        child's next port by position with its own direction, otherwise the
        port registered under the name with the direction the cell
        declares. */
    method LoadEdgesForCell(w: Wiring, child: Node, cell: Cell, conns: Entries<seq<Bit>>, netNames: map<int, string>,
                            ghost parentId: nat, ghost lo: int, fuel: nat)
      returns (r: Result<Wiring>)
      requires shared.Registry()
      requires WiringOk(w, parentId, lo, shared.counter.id) && lo <= shared.counter.id && child.id < lo
      modifies shared, shared.counter
      decreases fuel, 8
      ensures shared.Registry() && shared.counter.id >= old(shared.counter.id) && BuildersKept(old(shared.builders), shared.builders)
      ensures NamesOf(shared.portNames, child.id) == NamesOf(old(shared.portNames), child.id)
      ensures r.Ok? ==> WiringOk(r.value, parentId, lo, shared.counter.id) && Grown(w, r.value)
      ensures r.Ok? ==> ConstsFrom(r.value, |w.children|) && (ConstsDrive(w) ==> ConstsDrive(r.value))
      ensures r.Ok? ==> ConnsJoined(r.value, child, cell, NamesOf(old(shared.portNames), child.id), conns, |conns|)
    {
      ghost var names0 := NamesOf(shared.portNames, child.id);
      var cur := w;
      var portI := 0;
      GrownRefl(w);
      for k := 0 to |conns|
        invariant shared.Registry() && shared.counter.id >= old(shared.counter.id) && BuildersKept(old(shared.builders), shared.builders)
        invariant NamesOf(shared.portNames, child.id) == names0
        invariant portI == DollarCount(conns, k)
        invariant WiringOk(cur, parentId, lo, shared.counter.id) && Grown(w, cur)
        invariant ConstsFrom(cur, |w.children|) && (ConstsDrive(w) ==> ConstsDrive(cur))
        invariant ConnsJoined(cur, child, cell, names0, conns, k)
      {
        var (portName, bits) := conns[k];
        var port;
        port, portI := CellPort(child, cell, conns, k, portI);
        if port.Err? {
          return Err(port.msg);
        }
        var (portId, direction) := port.value;
        var next :- TranslateBits(cur, child.id, portId, bits, direction, NetNames(netNames), true, parentId, lo, fuel);
        ConnsJoinedStep(cur, next, child, cell, names0, conns, k, portId, direction);
        GrownTrans(w, cur, next);
        ConstsFromChain(cur, next, |w.children|);
        cur := next;
      }
      r := Ok(cur);
    }

    /** The port a connection of a cell uses and its direction: for a name
        starting with "$" the child's port at position `portI` (the count of
        such names before it) with its own direction, otherwise the port
        registered under the name with the direction the cell declares.
        `portI'` is the position counter after the connection. */
    method CellPort(child: Node, cell: Cell, conns: Entries<seq<Bit>>, k: nat, portI: nat)
      returns (r: Result<(nat, string)>, portI': nat)
      requires k < |conns| && portI == DollarCount(conns, k)
      ensures portI' == DollarCount(conns, k + 1)
      ensures r.Ok? <==> ConnPort(child, cell, NamesOf(shared.portNames, child.id), conns, k).Some?
      ensures r.Ok? ==> ConnPort(child, cell, NamesOf(shared.portNames, child.id), conns, k) == Some(r.value)
    {
      var portName := conns[k].0;
      if StartsWith(portName, "$") {
        if portI >= |child.ports| {
          return Err("Cannot read properties of undefined (reading 'direction')"), portI + 1;
        }
        return Ok((child.ports[portI].id, DirectionName(child.ports[portI].direction))), portI + 1;
      }
      portI' := portI;
      var names := NamesOf(shared.portNames, child.id);
      if portName !in names {
        return Err("Cannot read properties of undefined (reading 'id')"), portI';
      }
      var declared := if cell.portDirections.Some? then Lookup(cell.portDirections.value, portName) else None;
      r := Ok((names[portName], if declared.Some? then declared.value else "undefined"));
    }

    /** `translateYosysBitsToLEdges`: the bit loop, computing exactly the
        translation `TranslateFrom` gives from bit 0 with the counter it
        finds, constant runs named by `getConstNodeName`; the counter ends
        where the translation leaves it. Only the new constant nodes get
        port-name dictionaries. */
    method TranslateBits(w: Wiring, childId: nat, portId: nat, bits: seq<Bit>, direction: string, names: NameSource,
                         forCell: bool, ghost parentId: nat, ghost lo: int, fuel: nat)
      returns (r: Result<Wiring>)
      requires shared.Registry() && WiringOk(w, parentId, lo, shared.counter.id) && lo <= shared.counter.id
      modifies shared, shared.counter
      decreases fuel, 7
      ensures shared.Registry() && shared.counter.id >= old(shared.counter.id) && BuildersKept(old(shared.builders), shared.builders)
      ensures NamesKept(old(shared.portNames), shared.portNames, old(shared.counter.id))
      ensures var t := TranslateFrom(w, bits, 0, names, ConstNodeName, EndpointRole(forCell, direction),
                                     Endpoint(childId, portId), old(shared.counter.id));
              r == WiringOf(t) && (t.Ok? ==> shared.counter.id == t.value.1)
      ensures r.Ok? ==>
                && WiringOk(r.value, parentId, lo, shared.counter.id) && Grown(w, r.value)
                && (ConstsDrive(w) ==> ConstsDrive(r.value)) && ConstsFrom(r.value, |w.children|)
                && Joins(r.value, bits, 0, |bits|, Endpoint(childId, portId), EndpointRole(forCell, direction))
    {
      var role := EndpointRole(forCell, direction);
      var ep := Endpoint(childId, portId);
      ghost var t := TranslateFrom(w, bits, 0, names, ConstNodeName, role, ep, shared.counter.id);
      TranslateHolds(w, bits, names, ConstNodeName, role, ep, shared.counter.id, parentId, lo);
      var cur := w;
      var i := 0;
      while i < |bits|
        invariant i <= |bits| && EdgesStored(cur)
        invariant shared.Registry() && shared.counter.id >= old(shared.counter.id)
        invariant BuildersKept(old(shared.builders), shared.builders)
        invariant NamesKept(old(shared.portNames), shared.portNames, old(shared.counter.id))
        invariant TranslateFrom(cur, bits, i, names, ConstNodeName, role, ep, shared.counter.id) == t
        decreases |bits| - i
      {
        var step := TranslateBit(cur, bits, i, names, role, ep, fuel);
        if step.Err? {
          return Err(step.msg);
        }
        cur, i := step.value.0, step.value.1;
      }
      r := Ok(cur);
    }

    /** One pass of the loop of `translateYosysBitsToLEdges`, from bit
        `i`: exactly `BitStep` with the counter it finds, returning the
        wiring and the position after the bits handled and leaving the
        counter where the step does. */
    method TranslateBit(w: Wiring, bits: seq<Bit>, i: nat, names: NameSource, role: Result<Role>, ep: Endpoint, fuel: nat)
      returns (r: Result<(Wiring, nat)>)
      requires i < |bits| && EdgesStored(w) && shared.Registry()
      modifies shared, shared.counter
      decreases fuel, 6
      ensures shared.Registry() && shared.counter.id >= old(shared.counter.id) && BuildersKept(old(shared.builders), shared.builders)
      ensures NamesKept(old(shared.portNames), shared.portNames, old(shared.counter.id))
      ensures var s := BitStep(w, bits, i, names, ConstNodeName, role, ep, old(shared.counter.id));
              && (r.Ok? <==> s.Ok?) && (r.Err? ==> r.msg == s.msg)
              && (r.Ok? ==> r.value.0 == s.value.0 && r.value.1 == s.value.1 && shared.counter.id == s.value.2)
    {
      if bits[i].Net? {
        r := TranslateNetBit(w, bits, i, names, role, ep);
      } else {
        ConstBitStep(w, bits, i, names, role, ep, shared.counter.id);
        r := TranslateConstBit(w, bits, i, EdgeName(names, bits[i]), role, ep, fuel);
      }
    }

    /** A net bit: joined to the edge already made for its net, or to a
        new edge named after the net; a net without a name fails. */
    method TranslateNetBit(w: Wiring, bits: seq<Bit>, i: nat, names: NameSource, role: Result<Role>, ep: Endpoint)
      returns (r: Result<(Wiring, nat)>)
      requires i < |bits| && bits[i].Net? && EdgesStored(w)
      modifies shared.counter
      ensures shared.counter.id >= old(shared.counter.id)
      ensures var s := BitStep(w, bits, i, names, ConstNodeName, role, ep, old(shared.counter.id));
              && (r.Ok? <==> s.Ok?) && (r.Err? ==> r.msg == s.msg)
              && (r.Ok? ==> r.value.0 == s.value.0 && r.value.1 == s.value.1 && shared.counter.id == s.value.2)
    {
      var bit := bits[i];
      if bit in w.edgeOf {
        if role.Err? {
          return Err(role.msg);
        }
        var eid := w.edgeOf[bit];
        return Ok((WithJoined(w, eid, role.value, ep), i + 1));
      }
      if NameOf(names, bit).None? {
        return Err("Netname is undefined");
      }
      var e := CreateLEdge(shared.counter, EdgeName(names, bit));
      if role.Err? {
        return Err(role.msg);
      }
      return Ok((WithJoined(WithEdge(w, bit, e), e.id, role.value, ep), i + 1));
    }

    /** A constant bit: its edge, then the constant node of its run as the
        edge's source; the role is checked only after both. */
    method TranslateConstBit(w: Wiring, bits: seq<Bit>, i: nat, name: string, role: Result<Role>, ep: Endpoint, fuel: nat)
      returns (r: Result<(Wiring, nat)>)
      requires i < |bits| && bits[i].Const? && EdgesStored(w) && shared.Registry()
      modifies shared, shared.counter
      decreases fuel, 5
      ensures shared.Registry() && shared.counter.id >= old(shared.counter.id) && BuildersKept(old(shared.builders), shared.builders)
      ensures NamesKept(old(shared.portNames), shared.portNames, old(shared.counter.id))
      ensures r.Ok? <==> role.Ok?
      ensures r.Err? ==> r.msg == role.msg
      ensures r.Ok? ==> && r.value.0 == JoinConst(w, bits, i, ConstNodeName, name, role.value, ep, old(shared.counter.id))
                        && r.value.1 == i + RunLength(bits, i) && shared.counter.id == old(shared.counter.id) + 3
    {
      var e := CreateLEdge(shared.counter, name);
      r := SourceConstRun(w, bits, i, e, old(shared.counter.id), name, role, ep, fuel);
    }

    /** The rest of a constant bit once its edge `e` is made: the run's
        constant node as the edge's source, then the role check. */
    method SourceConstRun(w: Wiring, bits: seq<Bit>, i: nat, e: Edge, ghost c: nat, ghost name: string, role: Result<Role>, ep: Endpoint, fuel: nat)
      returns (r: Result<(Wiring, nat)>)
      requires i < |bits| && bits[i].Const? && EdgesStored(w) && shared.Registry()
      requires shared.counter.id == c + 1 && e == Edge(c, name, [], [])
      modifies shared, shared.counter
      decreases fuel, 4
      ensures shared.Registry() && shared.counter.id == old(shared.counter.id) + 2 && BuildersKept(old(shared.builders), shared.builders)
      ensures NamesKept(old(shared.portNames), shared.portNames, c)
      ensures r.Ok? <==> role.Ok?
      ensures r.Err? ==> r.msg == role.msg
      ensures r.Ok? ==> && r.value.0 == JoinConst(w, bits, i, ConstNodeName, name, role.value, ep, c)
                        && r.value.1 == i + RunLength(bits, i)
    {
      var w1, last := AddConstNodeToSources(WithEdge(w, bits[i], e), bits, i, e.id, fuel);
      ConstOutcomeIsStep(w, bits, i, e, c, name, role, ep, w1, last);
      r := ConstOutcome(w1, e.id, role, ep, last);
    }

    /** `addConstNodeToSources`: the run of constant bits from `i` on gets
        one constant node named after the run's values, whose output port
        becomes a source of edge `eid`; the node takes the id the counter
        holds and its port the next. `last` is the position of the run's
        last bit. */
    method AddConstNodeToSources(w: Wiring, bits: seq<Bit>, i: nat, eid: nat, fuel: nat)
      returns (r: Wiring, last: nat)
      requires i < |bits| && bits[i].Const? && eid in w.edges && shared.Registry()
      modifies shared, shared.counter
      decreases fuel, 3
      ensures shared.Registry() && shared.counter.id == old(shared.counter.id) + 2 && BuildersKept(old(shared.builders), shared.builders)
      ensures shared.portNames == old(shared.portNames)[old(shared.counter.id) := map["O0" := old(shared.counter.id) + 1]]
      ensures NamesKept(old(shared.portNames), shared.portNames, old(shared.counter.id))
      ensures last == i + RunLength(bits, i) - 1
      ensures r == WithJoined(WithConstNode(w, old(shared.counter.id), ConstNodeName(RunAt(bits, i))), eid, SourceRole,
                              Endpoint(old(shared.counter.id), old(shared.counter.id) + 1))
    {
      var run, j := ConstRunAt(bits, i);
      last := j - 1;
      NamesKeptUpdate(shared.portNames, shared.counter.id, shared.counter.id, map["O0" := shared.counter.id + 1]);
      var w1, constId := AddConstLNode(w, ConstNodeName(run), fuel);
      r := WithJoined(w1, eid, SourceRole, Endpoint(constId, constId + 1));
    }

    /** The loop of `addConstNodeToSources`: the values of the constant
        bits from `i` up to the next net bit or the end. */
    method ConstRunAt(bits: seq<Bit>, i: nat) returns (run: seq<string>, j: nat)
      requires i < |bits| && bits[i].Const?
      ensures j == i + RunLength(bits, i) && j <= |bits| && run == Values(bits[i..j])
    {
      run := [];
      j := i;
      while j < |bits|
        invariant i <= j <= |bits| && (forall k | i <= k < j :: bits[k].Const?)
        invariant run == Values(bits[i..j])
      {
        if bits[j].Net? {
          break;
        }
        run := run + [bits[j].value];
        j := j + 1;
      }
      RunLengthIs(bits, i, j);
    }

    /** `addConstLNode`: a new builder without a module builds an empty
        node one level down; it gets an empty port-name dictionary and its
        output port "O0", and joins the parent's children and the
        constant-node dictionary. */
    method AddConstLNode(w: Wiring, nodeName: string, fuel: nat)
      returns (r: Wiring, constId: nat)
      requires shared.Registry()
      modifies shared, shared.counter
      decreases fuel, 2
      ensures shared.Registry() && shared.counter.id == old(shared.counter.id) + 2 && BuildersKept(old(shared.builders), shared.builders)
      ensures shared.portNames == old(shared.portNames)[constId := map["O0" := constId + 1]]
      ensures constId == old(shared.counter.id) && r == WithConstNode(w, constId, nodeName)
    {
      var nb := new LNodeBuilder(nodeName, None, [], level + 1, shared, rule);
      var built := nb.Build(None, None, true, false, 0);
      var n := built.value;
      constId := n.id;
      shared.portNames := shared.portNames[constId := map[]];
      var withPort := AddLPort(n, "O0", "O0", "output");
      var cn := withPort.value;
      assert cn.ports == [cn.ports[0]] && cn.ports[0] == Port(constId + 1, "O0", OUTPUT, EAST, 0, []);
      assert cn == ConstNode(constId, nodeName);
      r := w.(children := w.children + [cn], consts := w.consts + {constId});
    }

    /** `completeEdgesForChildrenWithoutPort`: every cell that had no port
        directions gets its ports now, from its connections and the edges
        their bits already have. It fails when such a cell has no
        connections or one of their bits has no edge. */
    method CompleteEdges(w: Wiring, ghost parentId: nat, ghost lo: int) returns (r: Result<Wiring>)
      requires WiringOk(w, parentId, lo, shared.counter.id)
      modifies shared, shared.counter
      ensures shared.builders == old(shared.builders) && shared.counter.id >= old(shared.counter.id)
      ensures r.Ok? <==> forall j | 0 <= j < |withoutPorts| :: Completable(withoutPorts[j].0, w.edgeOf)
      ensures r.Ok? ==> WiringOk(r.value, parentId, lo, shared.counter.id) && Rewired(w, r.value)
    {
      var cur := w;
      RewiredRefl(w);
      for j := 0 to |withoutPorts|
        invariant shared.builders == old(shared.builders) && shared.counter.id >= old(shared.counter.id)
        invariant WiringOk(cur, parentId, lo, shared.counter.id) && Rewired(w, cur)
        invariant forall i | 0 <= i < j :: Completable(withoutPorts[i].0, w.edgeOf)
      {
        var (cell, childId) := withoutPorts[j];
        var next :- CompleteChild(cur, cell, childId, parentId, lo);
        RewiredTrans(w, cur, next);
        cur := next;
      }
      r := Ok(cur);
    }

    /** One cell without port directions: a port per connection with
        bits, made on its node (found among the children by id). */
    method CompleteChild(w: Wiring, cell: Cell, childId: nat, ghost parentId: nat, ghost lo: int) returns (r: Result<Wiring>)
      requires WiringOk(w, parentId, lo, shared.counter.id)
      modifies shared, shared.counter
      ensures shared.builders == old(shared.builders) && shared.counter.id >= old(shared.counter.id)
      ensures r.Ok? <==> Completable(cell, w.edgeOf)
      ensures r.Ok? ==> WiringOk(r.value, parentId, lo, shared.counter.id) && Rewired(w, r.value)
    {
      if cell.connections.None? {
        return Err("Cannot convert undefined or null to object");
      }
      var conns := cell.connections.value;
      var pos := FindNode(w.children, childId);
      // A node that is not among the children takes its ports elsewhere.
      var child := if pos.Some? then w.children[pos.value] else Node(childId, "", "", None, [], [], Absent, [], Absent);
      var cur := w;
      RewiredRefl(w);
      for k := 0 to |conns|
        invariant shared.builders == old(shared.builders) && shared.counter.id >= old(shared.counter.id)
        invariant ConnsCompleted(w, cur, pos, child, childId, conns, k, parentId, lo, shared.counter.id)
      {
        ghost var c := shared.counter.id;
        var next :- CompletePort(cur, child, conns[k].0, conns[k].1, parentId, lo);
        ConnsCompletedStep(w, cur, next.0, pos, child, next.1, childId, conns, k, parentId, lo, c, shared.counter.id);
        cur, child := next.0, next.1;
      }
      if pos.Some? {
        ChildReplaced(cur, pos.value, child, parentId, lo, shared.counter.id);
        cur := cur.(children := cur.children[pos.value := child]);
      }
      r := Ok(cur);
    }

    /** One connection of a cell without port directions: its first bit
        makes a port named after the connection on the node, an output if
        that bit's edge has no source yet and an input otherwise, and every
        bit's edge then takes the port as an endpoint. A bit without an
        edge fails. */
    method CompletePort(w: Wiring, child: Node, portName: string, bits: seq<Bit>, ghost parentId: nat, ghost lo: int)
      returns (r: Result<(Wiring, Node)>)
      requires WiringOk(w, parentId, lo, shared.counter.id)
      modifies shared, shared.counter
      ensures shared.builders == old(shared.builders) && shared.counter.id >= old(shared.counter.id)
      ensures r.Ok? <==> forall k | 0 <= k < |bits| :: bits[k] in w.edgeOf
      ensures r.Ok? ==> WiringOk(r.value.0, parentId, lo, shared.counter.id) && r.value.0.children == w.children
      ensures r.Ok? && bits == [] ==> r.value.0 == w && r.value.1 == child
      ensures r.Ok? && bits != [] ==>
                PortAdded(child, r.value.1, portName, EdgePointsAndDirection(w.edges[w.edgeOf[bits[0]]]).1, old(shared.counter.id))
      ensures r.Ok? ==> PortJoined(w, r.value.0, bits, |bits|, Endpoint(child.id, old(shared.counter.id)))
      ensures r.Ok? && CheckMaxId(child) && child.maxId.value < old(shared.counter.id) ==>
                CheckMaxId(r.value.1) && r.value.1.maxId.value < shared.counter.id
    {
      if bits == [] {
        RewiredRefl(w);
        return Ok((w, child));
      }
      if bits[0] !in w.edgeOf {
        return Err("[Todo] create edge");
      }
      var c0 := shared.counter.id;
      var direction := EdgePointsAndDirection(w.edges[w.edgeOf[bits[0]]]).1;
      if CheckMaxId(child) && child.maxId.value < c0 {
        ContentWithinMonotone(child, child.maxId.value, c0 - 1);
      }
      var made := AddLPort(child, portName, portName, direction);
      WiringOkMonotone(w, parentId, lo, c0, shared.counter.id);
      var joined :- JoinPort(w, bits, Endpoint(child.id, c0), parentId, lo, shared.counter.id);
      r := Ok((joined, made.value));
    }

    /** The bits of one connection join the port `ep` in turn: each bit's
        edge takes it as a source while it has none, as a target after. A
        bit without an edge fails. */
    method JoinPort(w: Wiring, bits: seq<Bit>, ep: Endpoint, ghost parentId: nat, ghost lo: int, ghost c: int)
      returns (r: Result<Wiring>)
      requires WiringOk(w, parentId, lo, c)
      ensures r.Ok? <==> forall k | 0 <= k < |bits| :: bits[k] in w.edgeOf
      ensures r.Ok? ==> WiringOk(r.value, parentId, lo, c) && r.value.children == w.children
      ensures r.Ok? ==> PortJoined(w, r.value, bits, |bits|, ep)
    {
      var cur := w;
      RewiredRefl(w);
      for i := 0 to |bits|
        invariant WiringOk(cur, parentId, lo, c) && cur.children == w.children
        invariant PortJoined(w, cur, bits, i, ep)
      {
        if bits[i] !in cur.edgeOf {
          return Err("[Todo] create edge");
        }
        var eid := cur.edgeOf[bits[i]];
        var role := EdgePointsAndDirection(cur.edges[eid]).0;
        WithJoinedOk(cur, eid, role, ep, lo, c);
        PortJoinedStep(w, cur, bits, i, ep, role);
        cur := WithJoined(cur, eid, role, ep);
      }
      r := Ok(cur);
    }

    /** `filterDuplicitEdges`: the edges are appended to the node's
        visible edges, skipping any whose sources and targets equal those of
        an edge appended before; with no visible edge list the first append
        fails. */
    method FilterDuplicitEdges(node: Node, es: seq<Edge>) returns (r: Result<Node>)
      ensures r.Ok? <==> node.edgesAt.Shown? || Dedup(es, {}) == []
      ensures r.Ok? ==> ContentReplaced(node, r.value) && r.value.children == node.children
      ensures r.Ok? ==> r.value.edges == node.edges + Dedup(es, {})
    {
      var seen: set<(seq<Endpoint>, seq<Endpoint>)> := {};
      var kept: seq<Edge> := [];
      for i := 0 to |es|
        invariant Dedup(es, {}) == kept + Dedup(es[i..], seen)
        invariant kept != [] ==> node.edgesAt.Shown?
      {
        assert es[i..][1..] == es[i + 1..];
        var key := Key(es[i]);
        if key !in seen {
          if !node.edgesAt.Shown? {
            return Err("Cannot read properties of undefined (reading 'push')");
          }
          seen := seen + {key};
          kept := kept + [es[i]];
        }
      }
      assert es[|es|..] == [];
      r := Ok(node.(edges := node.edges + kept));
    }

    // -------------------------------------------------------------------
    // Normalizing children

    /** `normalizePortsAndEdgesOfChildren`, one child after the other. */
    method Normalize(children: seq<Node>)
      returns (r: Result<seq<Node>>, ghost counters: seq<nat>, ghost owners: seq<map<nat, HierPortEdges.Owner>>)
      requires ChildrenWithin(children, shared.counter.id - 1)
      modifies shared, shared.counter
      ensures shared.builders == old(shared.builders) && shared.counter.id >= old(shared.counter.id)
      ensures r.Ok? ==>
                && |r.value| == |children| && |counters| == |owners| == |children| + 1
                && counters[0] == old(shared.counter.id) && counters[|children|] == shared.counter.id
                && owners[0] == old(shared.parentOf) && owners[|children|] == shared.parentOf
                && forall k | 0 <= k < |children| :: NormalizedAt(children, r.value, rule, counters, owners, k)
      ensures r.Ok? ==> |r.value| == |children| && ChildrenWithin(r.value, shared.counter.id - 1)
      ensures r.Ok? ==> forall k | 0 <= k < |children| ::
                r.value[k] == children[k].(ports := r.value[k].ports, maxId := r.value[k].maxId, edges := r.value[k].edges)
      ensures children == [] ==> r.Ok? && shared.counter.id == old(shared.counter.id) && shared.portNames == old(shared.portNames)
    {
      var done: seq<Node> := [];
      counters, owners := [shared.counter.id], [shared.parentOf];
      for k := 0 to |children|
        invariant shared.builders == old(shared.builders) && shared.counter.id >= old(shared.counter.id)
        invariant k == 0 ==> shared.counter.id == old(shared.counter.id) && shared.portNames == old(shared.portNames)
        invariant |done| == k && ChildrenWithin(done, shared.counter.id - 1)
        invariant ChildrenWithin(children, shared.counter.id - 1)
        invariant Chain(children, done, rule, counters, owners)
        invariant counters[0] == old(shared.counter.id) && counters[k] == shared.counter.id
        invariant owners[0] == old(shared.parentOf) && owners[k] == shared.parentOf
      {
        var c := shared.counter.id;
        var child :- NormalizeChild(children[k]);
        ChildrenWithinMonotone(done, c - 1, shared.counter.id - 1);
        ChildrenWithinMonotone(children, c - 1, shared.counter.id - 1);
        ChildrenWithinAppend(done, child, shared.counter.id - 1);
        ChainSnoc(children, done, rule, counters, owners, child, shared.counter.id, shared.parentOf);
        done := done + [child];
        counters, owners := counters + [shared.counter.id], owners + [shared.parentOf];
      }
      forall k | 0 <= k < |children|
        ensures NormalizedAt(children, done, rule, counters, owners, k)
        ensures done[k] == children[k].(ports := done[k].ports, maxId := done[k].maxId, edges := done[k].edges)
      {
        ChainAt(children, done, rule, counters, owners, k);
        NormalizedShape(children[k], done[k], rule, owners[k], counters[k], counters[k + 1]);
      }
      r := Ok(done);
    }

    /** One child: an Operator has its clock and reset ports ordered; any
        other node has its ports grouped into a hierarchy by name. Every
        port is then recorded with its owner, and a non-Operator has its
        hierarchical port edges aggregated. */
    method NormalizeChild(child: Node) returns (r: Result<Node>)
      requires CheckMaxId(child) && child.maxId.value < shared.counter.id
      modifies shared, shared.counter
      ensures shared.builders == old(shared.builders) && shared.counter.id >= old(shared.counter.id)
      ensures r.Ok? ==> CheckMaxId(r.value) && r.value.maxId.value < shared.counter.id
      ensures r.Ok? ==> r.value == child.(ports := r.value.ports, maxId := r.value.maxId, edges := r.value.edges)
      ensures r.Ok? ==> shared.parentOf == old(shared.parentOf) + HierPortEdges.ParentMap(HierPortEdges.NodeOwner(child), r.value.ports)
      ensures r.Ok? ==> ChildNormalized(child, r.value, rule, old(shared.parentOf), old(shared.counter.id), shared.counter.id)
      ensures child.cls == "Operator" ==>
                && shared.counter.id == old(shared.counter.id)
                && (r.Ok? <==> !StartsWith(child.name, "FF") || OrderPortsFrom(child.ports, 0).Ok?)
                && (r.Ok? ==> r.value.edges == child.edges && r.value.maxId == child.maxId
                              && multiset(UnindexedAll(r.value.ports)) == multiset(UnindexedAll(child.ports)))
    {
      if child.cls == "Operator" {
        var c :- NormalizeOperator(child);
        assert HierPortEdges.NodeOwner(c) == HierPortEdges.NodeOwner(child);
        shared.parentOf := HierPortEdges.GetChildIdToParentDict(HierPortEdges.NodeOwner(c), c.ports, shared.parentOf);
        r := Ok(c);
      } else {
        r := NormalizeBlock(child);
      }
    }

    /** The other case of `normalizeChild`: the ports are grouped into a
        hierarchy by name, recorded with their owner, and the hierarchical
        port edges of the node are aggregated. */
    method NormalizeBlock(child: Node) returns (r: Result<Node>)
      requires CheckMaxId(child) && child.maxId.value < shared.counter.id
      modifies shared, shared.counter
      ensures shared.builders == old(shared.builders) && shared.counter.id >= old(shared.counter.id)
      ensures r.Ok? ==> CheckMaxId(r.value) && r.value.maxId.value < shared.counter.id
      ensures r.Ok? ==> r.value == child.(ports := r.value.ports, maxId := r.value.maxId, edges := r.value.edges)
      ensures r.Ok? ==> shared.parentOf == old(shared.parentOf) + HierPortEdges.ParentMap(HierPortEdges.NodeOwner(child), r.value.ports)
      ensures r.Ok? ==> BlockNormalized(child, r.value, rule, old(shared.parentOf), old(shared.counter.id), shared.counter.id)
    {
      var names;
      ghost var trie, emitted, parts;
      var c;
      c, names, trie, emitted, parts := PortHierarchy.SetPortHierarchy(shared.counter, child, NamesOf(shared.portNames, child.id));
      shared.portNames := shared.portNames[child.id := names];
      assert HierPortEdges.NodeOwner(c) == HierPortEdges.NodeOwner(child);
      shared.parentOf := HierPortEdges.GetChildIdToParentDict(HierPortEdges.NodeOwner(c), c.ports, shared.parentOf);
      var ports := c.ports;
      ghost var c1 := shared.counter.id;
      var d :- HierPortEdges.AggregateHierarchicalPortEdges(shared.counter, c, rule, shared.parentOf);
      assert d.ports == ports;
      assert PortHierarchy.Regrouped(child, c, old(shared.counter.id), c1);
      assert HierPortEdges.EdgesAggregated(c, d, rule, old(shared.parentOf) + HierPortEdges.ParentMap(HierPortEdges.NodeOwner(child), c.ports),
                                           c1, shared.counter.id);
      r := Ok(d);
    }
  }
}
