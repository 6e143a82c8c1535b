/** The net-to-edge translation of src/yosysLNodeBuilder.js as values:
    what one pass of the bit loop, one port vector, the ports of a module,
    the connections of a cell and the cells of a module do to the wiring
    with the id counter at `c`. The builder's methods are proved to compute
    exactly these; the properties of the translation are proved here. */
module EdgeTranslation {
  import opened Outcomes
  import opened Graph
  import opened Netlist
  import opened Text
  import opened ObjectIdChecks
  import opened YosysUtils
  import opened LNodeValues
  import ConcatSplit

  /** The port-name dictionary of node `id`, empty when it has none yet. */
  function NamesOf(portNames: map<nat, map<string, nat>>, id: nat): map<string, nat>
  {
    if id in portNames then portNames[id] else map[]
  }

  /** The node `addConstLNode` makes for a constant run named `nodeName`:
      `build` without a module gives an empty node, then its output port
      "O0" is added on the east side. */
  function ConstNode(id: nat, nodeName: string): Node
  {
    Node(id, nodeName, "", Some(id + 1), [Port(id + 1, "O0", OUTPUT, EAST, 0, [])], [], Absent, [], Absent)
  }

  /** The net bits from position `i` on each have an edge in `edgeOf` or a
      name for a new one. */
  predicate NetsNamedFrom(bits: seq<Bit>, i: nat, edgeOf: map<Bit, nat>, names: NameSource)
  {
    forall k | i <= k < |bits| && bits[k].Net? :: bits[k] in edgeOf || NameOf(names, bits[k]).Some?
  }

  /** Every bit of a vector can be translated: a non-empty vector has a
      known direction, and every net bit either already has an edge or has a
      name for a new one. */
  predicate BitsOk(bits: seq<Bit>, edgeOf: map<Bit, nat>, names: NameSource, role: Result<Role>)
  {
    (bits != [] ==> role.Ok?) && NetsNamedFrom(bits, 0, edgeOf, names)
  }

  /** The name of the edge made for a bit: its net name, or the constant
      itself. */
  function EdgeName(names: NameSource, b: Bit): string
    requires NameOf(names, b).Some? || b.Const?
  {
    var n := NameOf(names, b);
    if n.Some? then n.value else b.value
  }

  /** Every net bit of `bits[from..to]` has an edge, and `ep` is in the
      list of that edge its role selects. */
  ghost predicate Joins(w: Wiring, bits: seq<Bit>, from: nat, to: nat, ep: Endpoint, role: Result<Role>)
    requires from <= to <= |bits|
  {
    forall k | from <= k < to && bits[k].Net? ::
      && bits[k] in w.edgeOf && w.edgeOf[bits[k]] in w.edges && role.Ok?
      && ep in RoleList(w.edges[w.edgeOf[bits[k]]], role.value)
  }

  lemma JoinsGrow(a: Wiring, b: Wiring, bits: seq<Bit>, from: nat, to: nat, ep: Endpoint, role: Result<Role>)
    requires from <= to <= |bits| && Joins(a, bits, from, to, ep, role) && Grown(a, b)
    ensures Joins(b, bits, from, to, ep, role)
  {
    forall k | from <= k < to && bits[k].Net?
      ensures bits[k] in b.edgeOf && b.edgeOf[bits[k]] in b.edges && ep in RoleList(b.edges[b.edgeOf[bits[k]]], role.value)
    {
      GrownKeepsEndpoint(a, b, bits[k], role.value, ep);
    }
  }

  lemma JoinsJoin(w: Wiring, bits: seq<Bit>, from: nat, mid: nat, to: nat, ep: Endpoint, role: Result<Role>)
    requires from <= mid <= to <= |bits| && Joins(w, bits, from, mid, ep, role) && Joins(w, bits, mid, to, ep, role)
    ensures Joins(w, bits, from, to, ep, role)
  {
  }

  /** The children `b` has beyond those of `a` are one constant node per
      run, in order, each remembered as a constant. */
  ghost predicate ConstRuns(a: Wiring, b: Wiring, runs: seq<seq<string>>, nameRun: seq<string> -> string)
  {
    && |b.children| == |a.children| + |runs|
    && forall k | 0 <= k < |runs| ::
         ConstNodeFor(b.children[|a.children| + k], nameRun(runs[k])) && b.children[|a.children| + k].id in b.consts
  }

  lemma ConstRunsSnoc(w0: Wiring, w: Wiring, w': Wiring, done: seq<seq<string>>, x: Node, run: seq<string>,
                        nameRun: seq<string> -> string)
    requires ConstRuns(w0, w, done, nameRun) && w'.children == w.children + [x] && w.consts <= w'.consts
    requires ConstNodeFor(x, nameRun(run)) && x.id in w'.consts
    ensures ConstRuns(w0, w', done + [run], nameRun)
  {
    forall k | 0 <= k < |done| + 1
      ensures ConstNodeFor(w'.children[|w0.children| + k], nameRun((done + [run])[k]))
      ensures w'.children[|w0.children| + k].id in w'.consts
    {
      if k < |done| {
        assert w'.children[|w0.children| + k] == w.children[|w0.children| + k];
      }
    }
  }

  lemma ConstRunsKeep(w0: Wiring, w: Wiring, w': Wiring, done: seq<seq<string>>, nameRun: seq<string> -> string)
    requires ConstRuns(w0, w, done, nameRun) && w'.children == w.children && w.consts <= w'.consts
    ensures ConstRuns(w0, w', done, nameRun)
  {
  }

  lemma ConstRunsBase(a: Wiring, a': Wiring, b: Wiring, runs: seq<seq<string>>, nameRun: seq<string> -> string)
    requires ConstRuns(a, b, runs, nameRun) && |a'.children| == |a.children|
    ensures ConstRuns(a', b, runs, nameRun)
  {
  }

  /** The children from position `n0` on are constant nodes. */
  ghost predicate ConstsFrom(w: Wiring, n0: nat)
  {
    forall k | n0 <= k < |w.children| :: w.children[k].id in w.consts
  }

  lemma ConstRunsFrom(a: Wiring, b: Wiring, runs: seq<seq<string>>, nameRun: seq<string> -> string)
    requires ConstRuns(a, b, runs, nameRun)
    ensures ConstsFrom(b, |a.children|)
  {
    forall k | |a.children| <= k < |b.children| ensures b.children[k].id in b.consts {
      var j := k - |a.children|;
      assert ConstNodeFor(b.children[|a.children| + j], nameRun(runs[j])) && b.children[|a.children| + j].id in b.consts;
    }
  }

  lemma ConstsFromChain(a: Wiring, b: Wiring, n0: nat)
    requires ConstsFrom(a, n0) && ConstsFrom(b, |a.children|) && Grown(a, b) && n0 <= |a.children|
    ensures ConstsFrom(b, n0)
  {
    forall k | n0 <= k < |b.children| ensures b.children[k].id in b.consts {
      if k < |a.children| {
        assert b.children[..|a.children|][k] == a.children[k];
      }
    }
  }

  /** The lower-case direction of a port, as `toLowerCase` gives it. */
  function DirectionName(d: Direction): string
  {
    if d == INPUT then "input" else "output"
  }

  /** How many connections before position `k` have a name starting with
      "$" (those take the child's ports by position). */
  function DollarCount(conns: Entries<seq<Bit>>, k: nat): (r: nat)
    requires k <= |conns|
    ensures r <= k
  {
    if k == 0 then 0 else DollarCount(conns, k - 1) + (if StartsWith(conns[k - 1].0, "$") then 1 else 0)
  }

  /** The port and direction connection `k` of a cell uses: for a "$" name
      the next port of the child by position and its own direction, for any
      other the port registered under the name and the cell's declared
      direction (the text "undefined" when it declares none). */
  function ConnPort(child: Node, cell: Cell, names: map<string, nat>, conns: Entries<seq<Bit>>, k: nat)
    : Option<(nat, string)>
    requires k < |conns|
  {
    if StartsWith(conns[k].0, "$") then
      var i := DollarCount(conns, k);
      if i < |child.ports| then Some((child.ports[i].id, DirectionName(child.ports[i].direction))) else None
    else if conns[k].0 in names then
      var d := if cell.portDirections.Some? then Lookup(cell.portDirections.value, conns[k].0) else None;
      Some((names[conns[k].0], if d.Some? then d.value else "undefined"))
    else None
  }

  /** The port connection `k` of a module uses: by name in the node's
      port-name dictionary, or by position. */
  function ModulePort(node: Node, ports: Entries<PortDecl>, names: map<string, nat>, byName: bool, k: nat): Option<nat>
    requires k < |ports|
  {
    if byName then (if ports[k].0 in names then Some(names[ports[k].0]) else None)
    else if k < |node.ports| then Some(node.ports[k].id)
    else None
  }

  lemma ConstRunsCons(w: Wiring, w': Wiring, b: Wiring, x: Node, run: seq<string>, rest: seq<seq<string>>,
                        nameRun: seq<string> -> string)
    requires ConstRuns(w', b, rest, nameRun) && w'.children == w.children + [x] && Grown(w', b)
    requires ConstNodeFor(x, nameRun(run)) && x.id in w'.consts
    ensures ConstRuns(w, b, [run] + rest, nameRun)
  {
    var runs := [run] + rest;
    forall k | 0 <= k < |runs|
      ensures ConstNodeFor(b.children[|w.children| + k], nameRun(runs[k])) && b.children[|w.children| + k].id in b.consts
    {
      if k == 0 {
        assert b.children[..|w'.children|][|w.children|] == x;
      } else {
        assert runs[k] == rest[k - 1] && |w.children| + k == |w'.children| + (k - 1);
      }
    }
  }

  // ---------------------------------------------------------------------
  // The bit loop of `translateYosysBitsToLEdges`

  /** The edge dictionary names only stored edges. */
  ghost predicate EdgesStored(w: Wiring)
  {
    forall b | b in w.edgeOf :: w.edgeOf[b] in w.edges
  }

  /** Every stored edge has an id below the counter. */
  ghost predicate EdgesBelow(w: Wiring, c: nat)
  {
    forall e | e in w.edges :: e < c
  }

  /** The wiring a translation ends with, without the counter. */
  function WiringOf(t: Result<(Wiring, nat)>): Result<Wiring>
  {
    match t
    case Ok((w, _)) => Ok(w)
    case Err(m) => Err(m)
  }

  /** `addConstLNode` on the wiring: constant node `id` joins the children
      and the constant-node dictionary. */
  function WithConstNode(w: Wiring, id: nat, nodeName: string): Wiring
  {
    w.(children := w.children + [ConstNode(id, nodeName)], consts := w.consts + {id})
  }

  /** `addConstNodeToSources` with the counter at `c`: the run of constant
      bits from `i` on gets constant node `c`, named after the run's values,
      and its output port `c + 1` becomes a source of edge `eid`. */
  function ConstSourced(w: Wiring, bits: seq<Bit>, i: nat, nameRun: seq<string> -> string, eid: nat, c: nat): Wiring
    requires i <= |bits| && eid in w.edges
  {
    var run := RunAt(bits, i);
    WithJoined(WithConstNode(w, c, nameRun(run)), eid, SourceRole, Endpoint(c, c + 1))
  }

  /** A net bit already in the dictionary: its edge takes `ep` in the
      list `role` selects. */
  function JoinOld(w: Wiring, bit: Bit, role: Role, ep: Endpoint): (r: Wiring)
    requires bit in w.edgeOf && EdgesStored(w)
    ensures EdgesStored(r) && r.edgeOf == w.edgeOf
  {
    WithJoined(w, w.edgeOf[bit], role, ep)
  }

  /** A net bit without an edge: edge `c`, named `name`, is made for it
      and takes `ep`. */
  function JoinNew(w: Wiring, bit: Bit, name: string, role: Role, ep: Endpoint, c: nat): (r: Wiring)
    requires EdgesStored(w)
    ensures EdgesStored(r) && r.edgeOf == w.edgeOf[bit := c]
  {
    WithJoined(WithEdge(w, bit, Edge(c, name, [], [])), c, role, ep)
  }

  /** A constant bit: edge `c`, named `name`, is made for it, constant
      node `c + 1` of the run from `i` on drives it, and it takes `ep`. */
  function JoinConst(w: Wiring, bits: seq<Bit>, i: nat, nameRun: seq<string> -> string, name: string, role: Role, ep: Endpoint, c: nat): (r: Wiring)
    requires i < |bits| && EdgesStored(w)
    ensures EdgesStored(r) && r.edgeOf == w.edgeOf[bits[i] := c]
  {
    WithJoined(ConstSourced(WithEdge(w, bits[i], Edge(c, name, [], [])), bits, i, nameRun, c, c + 1), c, role, ep)
  }

  /** One pass of the loop of `translateYosysBitsToLEdges` from bit `i`
      with the counter at `c`: the wiring after it, the position after the
      bits handled and the counter after. A net bit already in the
      dictionary keeps its edge; any other bit gets edge `c` (named by its
      net name, or a constant by its own value); a constant bit's run gets
      constant node `c + 1` driving that edge. The edge then takes `ep` in
      the list `role` selects; an unknown direction fails (once the edge is
      made, which a failure discards). */
  function BitStep(w: Wiring, bits: seq<Bit>, i: nat, names: NameSource, nameRun: seq<string> -> string, role: Result<Role>, ep: Endpoint, c: nat)
    : (r: Result<(Wiring, nat, nat)>)
    requires i < |bits| && EdgesStored(w)
    ensures r.Ok? ==> i < r.value.1 <= |bits| && EdgesStored(r.value.0)
  {
    var bit := bits[i];
    if bit.Net? && bit in w.edgeOf then
      if role.Err? then Err(role.msg) else Ok((JoinOld(w, bit, role.value, ep), i + 1, c))
    else if bit.Net? && NameOf(names, bit).None? then
      Err("Netname is undefined")
    else if role.Err? then
      Err(role.msg)
    else if bit.Net? then
      Ok((JoinNew(w, bit, EdgeName(names, bit), role.value, ep, c), i + 1, c + 1))
    else
      Ok(ConstStep(w, bits, i, nameRun, EdgeName(names, bit), role.value, ep, c))
  }

  /** The pass over a run of constant bits: the wiring after it, the
      position after the run and the counter after its three ids. */
  function ConstStep(w: Wiring, bits: seq<Bit>, i: nat, nameRun: seq<string> -> string, name: string, role: Role, ep: Endpoint, c: nat)
    : (r: (Wiring, nat, nat))
    requires i < |bits| && bits[i].Const? && EdgesStored(w)
    ensures i < r.1 <= |bits| && EdgesStored(r.0)
  {
    (JoinConst(w, bits, i, nameRun, name, role, ep, c), i + RunLength(bits, i), c + 3)
  }

  /** `translateYosysBitsToLEdges` from bit `i` on: the wiring and the
      counter after the whole vector, or the first failure. */
  function TranslateFrom(w: Wiring, bits: seq<Bit>, i: nat, names: NameSource, nameRun: seq<string> -> string, role: Result<Role>, ep: Endpoint, c: nat)
    : (r: Result<(Wiring, nat)>)
    requires i <= |bits| && EdgesStored(w)
    ensures r.Ok? ==> EdgesStored(r.value.0)
    decreases |bits| - i
  {
    if i == |bits| then Ok((w, c))
    else
      match BitStep(w, bits, i, names, nameRun, role, ep, c)
      case Err(m) => Err(m)
      case Ok((w', next, c')) => TranslateFrom(w', bits, next, names, nameRun, role, ep, c')
  }

  /** A constant node drawn at the counter keeps the children consistent. */
  lemma ConstNodeKidsOk(parentId: nat, cs: seq<Node>, cs': seq<Node>, id: nat, nodeName: string, c: int, c': int)
    requires KidsOk(parentId, cs, c) && c <= id && id + 2 <= c' && cs' == cs + [ConstNode(id, nodeName)]
    ensures KidsOk(parentId, cs', c')
  {
    var cn := ConstNode(id, nodeName);
    assert cn.ports == [Port(id + 1, "O0", OUTPUT, EAST, 0, [])];
    assert CheckMaxId(cn);
    KidsOkSnoc(parentId, cs, cn, c, c');
  }

  lemma WithConstNodeGrown(w: Wiring, id: nat, nodeName: string)
    ensures Grown(w, WithConstNode(w, id, nodeName))
  {
    var v := WithConstNode(w, id, nodeName);
    assert v.children[..|w.children|] == w.children && v.order[..|w.order|] == w.order;
    forall e | e in w.edges ensures Extends(w.edges[e], v.edges[e]) {
      var x := w.edges[e];
      assert x.sources[..|x.sources|] == x.sources && x.targets[..|x.targets|] == x.targets;
    }
  }

  /** The constant node of a run, drawn at `id` at or above the counter
      `c`, keeps the wiring consistent with any counter past its port. */
  lemma ConstSourcedOk(w: Wiring, bits: seq<Bit>, i: nat, nameRun: seq<string> -> string, eid: nat, id: nat, lo: int, c: nat)
    requires i <= |bits| && eid in w.edges && EdgesOk(w, lo, c)
    ensures EdgesOk(ConstSourced(w, bits, i, nameRun, eid, id), lo, c)
  {
    var run := RunAt(bits, i);
    WithJoinedOk(WithConstNode(w, id, nameRun(run)), eid, SourceRole, Endpoint(id, id + 1), lo, c);
  }

  lemma ConstSourcedGrown(w: Wiring, bits: seq<Bit>, i: nat, nameRun: seq<string> -> string, eid: nat, id: nat)
    requires i <= |bits| && eid in w.edges
    ensures Grown(w, ConstSourced(w, bits, i, nameRun, eid, id))
  {
    var run := RunAt(bits, i);
    var w1 := WithConstNode(w, id, nameRun(run));
    WithConstNodeGrown(w, id, nameRun(run));
    WithJoinedGrown(w1, eid, SourceRole, Endpoint(id, id + 1));
    GrownTrans(w, w1, ConstSourced(w, bits, i, nameRun, eid, id));
  }

  /** The constant node of a run drives the edge it joins when that edge
      had no source yet, and the other constant nodes keep driving theirs. */
  lemma ConstSourcedDrives(w: Wiring, bits: seq<Bit>, i: nat, nameRun: seq<string> -> string, eid: nat, id: nat)
    requires i <= |bits| && eid in w.edges && ConstsDrive(w) && w.edges[eid].sources == []
    ensures ConstsDrive(ConstSourced(w, bits, i, nameRun, eid, id))
  {
    var r := ConstSourced(w, bits, i, nameRun, eid, id);
    ConstSourcedGrown(w, bits, i, nameRun, eid, id);
    forall d | d in r.consts
      ensures exists e | e in r.edges :: |r.edges[e].sources| > 0 && r.edges[e].sources[0] == Endpoint(d, d + 1)
    {
      if d in w.consts {
        GrownKeepsDrive(w, r, d);
      } else {
        assert r.edges[eid].sources == [Endpoint(id, id + 1)];
      }
    }
  }

  lemma JoinNewOk(w: Wiring, bit: Bit, name: string, role: Role, ep: Endpoint, c: nat, lo: int)
    requires EdgesStored(w) && EdgesOk(w, lo, c) && lo <= c
    ensures EdgesOk(JoinNew(w, bit, name, role, ep, c), lo, c + 1)
  {
    var e := Edge(c, name, [], []);
    WithEdgeOk(w, bit, e, lo, c);
    WithJoinedOk(WithEdge(w, bit, e), c, role, ep, lo, c + 1);
  }

  lemma JoinNewGrown(w: Wiring, bit: Bit, name: string, role: Role, ep: Endpoint, c: nat)
    requires EdgesStored(w) && c !in w.edges && (bit.Net? ==> bit !in w.edgeOf)
    ensures Grown(w, JoinNew(w, bit, name, role, ep, c))
  {
    var w1 := WithEdge(w, bit, Edge(c, name, [], []));
    WithEdgeGrown(w, bit, Edge(c, name, [], []));
    WithJoinedGrown(w1, c, role, ep);
    GrownTrans(w, w1, JoinNew(w, bit, name, role, ep, c));
  }

  lemma JoinNewDrives(w: Wiring, bit: Bit, name: string, role: Role, ep: Endpoint, c: nat)
    requires EdgesStored(w) && c !in w.edges && (bit.Net? ==> bit !in w.edgeOf) && ConstsDrive(w)
    ensures ConstsDrive(JoinNew(w, bit, name, role, ep, c))
  {
    WithEdgeDrives(w, bit, Edge(c, name, [], []));
    WithJoinedDrives(WithEdge(w, bit, Edge(c, name, [], [])), c, role, ep);
  }

  lemma JoinConstOk(w: Wiring, bits: seq<Bit>, i: nat, nameRun: seq<string> -> string, name: string, role: Role,
                    ep: Endpoint, c: nat, lo: int)
    requires i < |bits| && EdgesStored(w) && EdgesOk(w, lo, c) && lo <= c
    ensures EdgesOk(JoinConst(w, bits, i, nameRun, name, role, ep, c), lo, c + 1)
  {
    var w1 := WithEdge(w, bits[i], Edge(c, name, [], []));
    WithEdgeOk(w, bits[i], Edge(c, name, [], []), lo, c);
    ConstSourcedOk(w1, bits, i, nameRun, c, c + 1, lo, c + 1);
    WithJoinedOk(ConstSourced(w1, bits, i, nameRun, c, c + 1), c, role, ep, lo, c + 1);
  }

  lemma JoinConstGrown(w: Wiring, bits: seq<Bit>, i: nat, nameRun: seq<string> -> string, name: string, role: Role,
                       ep: Endpoint, c: nat)
    requires i < |bits| && EdgesStored(w) && bits[i].Const? && c !in w.edges
    ensures Grown(w, JoinConst(w, bits, i, nameRun, name, role, ep, c))
  {
    var w1 := WithEdge(w, bits[i], Edge(c, name, [], []));
    var w2 := ConstSourced(w1, bits, i, nameRun, c, c + 1);
    WithEdgeGrown(w, bits[i], Edge(c, name, [], []));
    ConstSourcedGrown(w1, bits, i, nameRun, c, c + 1);
    WithJoinedGrown(w2, c, role, ep);
    GrownTrans(w, w1, w2);
    GrownTrans(w, w2, JoinConst(w, bits, i, nameRun, name, role, ep, c));
  }

  lemma JoinConstDrives(w: Wiring, bits: seq<Bit>, i: nat, nameRun: seq<string> -> string, name: string, role: Role,
                        ep: Endpoint, c: nat)
    requires i < |bits| && EdgesStored(w) && bits[i].Const? && c !in w.edges && ConstsDrive(w)
    ensures ConstsDrive(JoinConst(w, bits, i, nameRun, name, role, ep, c))
  {
    var w1 := WithEdge(w, bits[i], Edge(c, name, [], []));
    WithEdgeDrives(w, bits[i], Edge(c, name, [], []));
    ConstSourcedDrives(w1, bits, i, nameRun, c, c + 1);
    WithJoinedDrives(ConstSourced(w1, bits, i, nameRun, c, c + 1), c, role, ep);
  }

  /** One pass of the bit loop keeps the wiring consistent with the
      counter it leaves. */
  lemma BitStepOk(w: Wiring, bits: seq<Bit>, i: nat, names: NameSource, nameRun: seq<string> -> string,
                  role: Result<Role>, ep: Endpoint, c: nat, parentId: nat, lo: int)
    requires i < |bits| && EdgesStored(w) && WiringOk(w, parentId, lo, c) && lo <= c
    ensures var s := BitStep(w, bits, i, names, nameRun, role, ep, c);
            s.Ok? ==> c <= s.value.2 && WiringOk(s.value.0, parentId, lo, s.value.2)
  {
    BitStepEdgesOk(w, bits, i, names, nameRun, role, ep, c, lo);
    BitStepKidsOk(w, bits, i, names, nameRun, role, ep, c, parentId);
  }

  lemma BitStepEdgesOk(w: Wiring, bits: seq<Bit>, i: nat, names: NameSource, nameRun: seq<string> -> string,
                       role: Result<Role>, ep: Endpoint, c: nat, lo: int)
    requires i < |bits| && EdgesStored(w) && EdgesOk(w, lo, c) && lo <= c
    ensures var s := BitStep(w, bits, i, names, nameRun, role, ep, c);
            s.Ok? ==> c <= s.value.2 && EdgesOk(s.value.0, lo, s.value.2)
  {
    var s := BitStep(w, bits, i, names, nameRun, role, ep, c);
    if s.Ok? {
      var bit := bits[i];
      if bit.Net? && bit in w.edgeOf {
        WithJoinedOk(w, w.edgeOf[bit], role.value, ep, lo, c);
      } else if bit.Net? {
        JoinNewOk(w, bit, EdgeName(names, bit), role.value, ep, c, lo);
      } else {
        var r := JoinConst(w, bits, i, nameRun, EdgeName(names, bit), role.value, ep, c);
        JoinConstOk(w, bits, i, nameRun, EdgeName(names, bit), role.value, ep, c, lo);
        EdgesOkMonotone(r, lo, c + 1, c + 3);
      }
    }
  }

  lemma BitStepKidsOk(w: Wiring, bits: seq<Bit>, i: nat, names: NameSource, nameRun: seq<string> -> string,
                      role: Result<Role>, ep: Endpoint, c: nat, parentId: nat)
    requires i < |bits| && EdgesStored(w) && KidsOk(parentId, w.children, c)
    ensures var s := BitStep(w, bits, i, names, nameRun, role, ep, c);
            s.Ok? ==> KidsOk(parentId, s.value.0.children, s.value.2)
  {
    var s := BitStep(w, bits, i, names, nameRun, role, ep, c);
    if s.Ok? {
      if bits[i].Net? {
        BitStepChildren(w, bits, i, names, nameRun, role, ep, c);
        BitStepCounter(w, bits, i, names, nameRun, role, ep, c);
        KidsOkMonotone(parentId, w.children, c, s.value.2);
      } else {
        JoinConstKidsOk(w, bits, i, nameRun, EdgeName(names, bits[i]), role.value, ep, c, parentId);
      }
    }
  }

  /** A constant bit's pass keeps the children consistent with the counter
      past its three ids. */
  lemma JoinConstKidsOk(w: Wiring, bits: seq<Bit>, i: nat, nameRun: seq<string> -> string, name: string, role: Role, ep: Endpoint, c: nat,
                        parentId: nat)
    requires i < |bits| && EdgesStored(w) && KidsOk(parentId, w.children, c)
    ensures KidsOk(parentId, JoinConst(w, bits, i, nameRun, name, role, ep, c).children, c + 3)
  {
    var r := JoinConst(w, bits, i, nameRun, name, role, ep, c);
    ConstNodeKidsOk(parentId, w.children, r.children, c + 1, nameRun(RunAt(bits, i)), c, c + 3);
  }

  /** One pass of the bit loop only extends the wiring, and keeps every
      constant node driving an edge (the one it adds drives the edge it
      makes). */
  lemma BitStepGrown(w: Wiring, bits: seq<Bit>, i: nat, names: NameSource, nameRun: seq<string> -> string,
                     role: Result<Role>, ep: Endpoint, c: nat)
    requires i < |bits| && EdgesStored(w) && c !in w.edges
    ensures var s := BitStep(w, bits, i, names, nameRun, role, ep, c);
            s.Ok? ==> Grown(w, s.value.0) && (ConstsDrive(w) ==> ConstsDrive(s.value.0))
  {
    var s := BitStep(w, bits, i, names, nameRun, role, ep, c);
    if s.Ok? {
      var bit := bits[i];
      if bit.Net? && bit in w.edgeOf {
        WithJoinedGrown(w, w.edgeOf[bit], role.value, ep);
        if ConstsDrive(w) {
          WithJoinedDrives(w, w.edgeOf[bit], role.value, ep);
        }
      } else if bit.Net? {
        JoinNewGrown(w, bit, EdgeName(names, bit), role.value, ep, c);
        if ConstsDrive(w) {
          JoinNewDrives(w, bit, EdgeName(names, bit), role.value, ep, c);
        }
      } else {
        JoinConstGrown(w, bits, i, nameRun, EdgeName(names, bit), role.value, ep, c);
        if ConstsDrive(w) {
          JoinConstDrives(w, bits, i, nameRun, EdgeName(names, bit), role.value, ep, c);
        }
      }
    }
  }

  /** After one pass, every net bit it handled has an edge holding `ep`
      in the list of its role. */
  lemma BitStepJoins(w: Wiring, bits: seq<Bit>, i: nat, names: NameSource, nameRun: seq<string> -> string, role: Result<Role>, ep: Endpoint, c: nat)
    requires i < |bits| && EdgesStored(w)
    ensures var s := BitStep(w, bits, i, names, nameRun, role, ep, c);
            s.Ok? ==> Joins(s.value.0, bits, i, s.value.1, ep, role)
  {
    var s := BitStep(w, bits, i, names, nameRun, role, ep, c);
    BitStepSucceeds(w, bits, i, names, nameRun, role, ep, c);
    if s.Ok? && bits[i].Net? {
      var v := s.value.0;
      var eid := if bits[i] in w.edgeOf then w.edgeOf[bits[i]] else c;
      assert v.edgeOf[bits[i]] == eid && ep in RoleList(v.edges[eid], role.value);
    }
  }

  /** One pass succeeds exactly when the direction is known and a net bit
      has an edge or a name for one; it moves past its bit and, for a
      constant, past the rest of the run and no further. */
  lemma BitStepSucceeds(w: Wiring, bits: seq<Bit>, i: nat, names: NameSource, nameRun: seq<string> -> string, role: Result<Role>, ep: Endpoint, c: nat)
    requires i < |bits| && EdgesStored(w)
    ensures var s := BitStep(w, bits, i, names, nameRun, role, ep, c);
            s.Ok? <==> role.Ok? && (bits[i].Net? ==> bits[i] in w.edgeOf || NameOf(names, bits[i]).Some?)
    ensures var s := BitStep(w, bits, i, names, nameRun, role, ep, c);
            s.Ok? ==> forall k | i < k < s.value.1 :: bits[k].Const?
  {
    var n := RunLength(bits, i);
    assert bits[i].Const? ==> forall k | i < k < i + n :: bits[k].Const?;
  }

  /** One pass only stores edges below the counter it leaves. */
  lemma BitStepBelow(w: Wiring, bits: seq<Bit>, i: nat, names: NameSource, nameRun: seq<string> -> string, role: Result<Role>, ep: Endpoint, c: nat)
    requires i < |bits| && EdgesStored(w) && EdgesBelow(w, c)
    ensures var s := BitStep(w, bits, i, names, nameRun, role, ep, c);
            s.Ok? ==> c <= s.value.2 && EdgesBelow(s.value.0, s.value.2)
  {
    var s := BitStep(w, bits, i, names, nameRun, role, ep, c);
    var bit := bits[i];
    if s.Ok? {
      if bit.Net? && bit in w.edgeOf {
        assert s.value.0 == JoinOld(w, bit, role.value, ep);
      } else if bit.Net? {
        assert s.value.0 == JoinNew(w, bit, EdgeName(names, bit), role.value, ep, c);
      } else {
        assert s.value.0 == JoinConst(w, bits, i, nameRun, EdgeName(names, bit), role.value, ep, c);
      }
    }
  }

  /** One pass stores an edge for its bit and for no other. */
  lemma BitStepKeys(w: Wiring, bits: seq<Bit>, i: nat, names: NameSource, nameRun: seq<string> -> string, role: Result<Role>, ep: Endpoint, c: nat)
    requires i < |bits| && EdgesStored(w)
    ensures var s := BitStep(w, bits, i, names, nameRun, role, ep, c);
            s.Ok? ==> forall b :: b in s.value.0.edgeOf <==> b in w.edgeOf || b == bits[i]
  {
  }

  /** One pass adds no child for a net bit, and exactly the constant node
      of its run for a constant bit. */
  /** A pass moves past a net bit, or past the whole run of a constant
      bit. */
  lemma BitStepRun(w: Wiring, bits: seq<Bit>, i: nat, names: NameSource, nameRun: seq<string> -> string, role: Result<Role>, ep: Endpoint, c: nat)
    requires i < |bits| && EdgesStored(w)
    ensures var s := BitStep(w, bits, i, names, nameRun, role, ep, c);
            s.Ok? ==> s.value.1 == if bits[i].Net? then i + 1 else i + RunLength(bits, i)
  {
  }

  lemma BitStepChildren(w: Wiring, bits: seq<Bit>, i: nat, names: NameSource, nameRun: seq<string> -> string, role: Result<Role>, ep: Endpoint, c: nat)
    requires i < |bits| && EdgesStored(w)
    ensures var s := BitStep(w, bits, i, names, nameRun, role, ep, c);
            s.Ok? && bits[i].Net? ==> s.value.0.children == w.children
    ensures var s := BitStep(w, bits, i, names, nameRun, role, ep, c);
            s.Ok? && bits[i].Const? ==>
              && s.value.0.children == w.children + [ConstNode(c + 1, nameRun(RunAt(bits, i)))]
              && c + 1 in s.value.0.consts
  {
    var s := BitStep(w, bits, i, names, nameRun, role, ep, c);
    var bit := bits[i];
    if s.Ok? {
      if bit.Net? && bit in w.edgeOf {
        assert s.value.0 == JoinOld(w, bit, role.value, ep);
      } else if bit.Net? {
        assert s.value.0 == JoinNew(w, bit, EdgeName(names, bit), role.value, ep, c);
      } else {
        assert s.value.0 == JoinConst(w, bits, i, nameRun, EdgeName(names, bit), role.value, ep, c);
        JoinConstChildren(w, bits, i, nameRun, EdgeName(names, bit), role.value, ep, c);
      }
    }
  }

  /** A constant bit's pass adds exactly the constant node of its run. */
  lemma JoinConstChildren(w: Wiring, bits: seq<Bit>, i: nat, nameRun: seq<string> -> string, name: string, role: Role, ep: Endpoint, c: nat)
    requires i < |bits| && EdgesStored(w)
    ensures var r := JoinConst(w, bits, i, nameRun, name, role, ep, c);
            && r.children == w.children + [ConstNode(c + 1, nameRun(RunAt(bits, i)))]
            && c + 1 in r.consts
  {
  }

  /** One pass draws no id, or one id for a new edge of a net bit, or
      three for a constant bit (its edge, its node and the node's port). */
  lemma BitStepCounter(w: Wiring, bits: seq<Bit>, i: nat, names: NameSource, nameRun: seq<string> -> string, role: Result<Role>, ep: Endpoint, c: nat)
    requires i < |bits| && EdgesStored(w)
    ensures var s := BitStep(w, bits, i, names, nameRun, role, ep, c);
            s.Ok? ==> s.value.2 == (if bits[i].Const? then c + 3 else if bits[i] in w.edgeOf then c else c + 1)
  {
  }

  /** The edge a net bit gets in one pass, when it had none, carries the
      bit's net name. */
  lemma BitStepNames(w: Wiring, bits: seq<Bit>, i: nat, names: NameSource, nameRun: seq<string> -> string, role: Result<Role>, ep: Endpoint, c: nat)
    requires i < |bits| && EdgesStored(w)
    ensures var s := BitStep(w, bits, i, names, nameRun, role, ep, c);
            s.Ok? && bits[i].Net? && bits[i] !in w.edgeOf ==>
              && s.value.0.edgeOf[bits[i]] in s.value.0.edges
              && NameOf(names, bits[i]) == Some(s.value.0.edges[s.value.0.edgeOf[bits[i]]].name)
  {
  }

  /** Past a bit that has an edge or a name, and past constant bits, the
      net bits of the rest are named exactly when those from `next` on are
      under the dictionary that now holds the bit. */
  lemma NetsNamedStep(bits: seq<Bit>, i: nat, next: nat, edgeOf: map<Bit, nat>, edgeOf': map<Bit, nat>, names: NameSource)
    requires i < next <= |bits| && forall k | i < k < next :: bits[k].Const?
    requires forall b :: b in edgeOf' <==> b in edgeOf || b == bits[i]
    requires bits[i].Net? ==> bits[i] in edgeOf || NameOf(names, bits[i]).Some?
    ensures NetsNamedFrom(bits, i, edgeOf, names) <==> NetsNamedFrom(bits, next, edgeOf', names)
  {
    if NetsNamedFrom(bits, next, edgeOf', names) {
      forall k | i <= k < |bits| && bits[k].Net? ensures bits[k] in edgeOf || NameOf(names, bits[k]).Some? {
        if k >= next && bits[k] != bits[i] {
          assert bits[k] in edgeOf' || NameOf(names, bits[k]).Some?;
        }
      }
    }
  }

  /** The translation of a vector succeeds exactly when a non-empty rest
      has a known direction and each of its net bits already has an edge
      or has a name for a new one. */
  lemma {:induction false} TranslateSucceeds(w: Wiring, bits: seq<Bit>, i: nat, names: NameSource,
                                             nameRun: seq<string> -> string, role: Result<Role>, ep: Endpoint, c: nat)
    requires i <= |bits| && EdgesStored(w)
    ensures TranslateFrom(w, bits, i, names, nameRun, role, ep, c).Ok? <==>
              (i < |bits| ==> role.Ok?) && NetsNamedFrom(bits, i, w.edgeOf, names)
    decreases |bits| - i
  {
    if i < |bits| {
      var s := BitStep(w, bits, i, names, nameRun, role, ep, c);
      if s.Ok? {
        var (w', next, c') := s.value;
        TranslateSucceeds(w', bits, next, names, nameRun, role, ep, c');
        BitStepKeys(w, bits, i, names, nameRun, role, ep, c);
        BitStepSucceeds(w, bits, i, names, nameRun, role, ep, c);
        NetsNamedStep(bits, i, next, w.edgeOf, w'.edgeOf, names);
      } else {
        BitStepSucceeds(w, bits, i, names, nameRun, role, ep, c);
      }
    }
  }

  /** The translation of a vector keeps the wiring consistent with the
      counter it leaves. */
  lemma {:induction false} TranslateKeepsOk(w: Wiring, bits: seq<Bit>, i: nat, names: NameSource,
                                            nameRun: seq<string> -> string, role: Result<Role>, ep: Endpoint, c: nat,
                                            parentId: nat, lo: int)
    requires i <= |bits| && EdgesStored(w) && WiringOk(w, parentId, lo, c) && lo <= c
    ensures var t := TranslateFrom(w, bits, i, names, nameRun, role, ep, c);
            t.Ok? ==> c <= t.value.1 && WiringOk(t.value.0, parentId, lo, t.value.1)
    decreases |bits| - i
  {
    if i < |bits| {
      var s := BitStep(w, bits, i, names, nameRun, role, ep, c);
      if s.Ok? {
        var (w', next, c') := s.value;
        BitStepOk(w, bits, i, names, nameRun, role, ep, c, parentId, lo);
        TranslateKeepsOk(w', bits, next, names, nameRun, role, ep, c', parentId, lo);
      }
    }
  }

  /** The translation of a vector only extends the wiring and keeps every
      constant node driving an edge. */
  lemma {:induction false} TranslateGrown(w: Wiring, bits: seq<Bit>, i: nat, names: NameSource,
                                          nameRun: seq<string> -> string, role: Result<Role>, ep: Endpoint, c: nat)
    requires i <= |bits| && EdgesStored(w) && EdgesBelow(w, c)
    ensures var t := TranslateFrom(w, bits, i, names, nameRun, role, ep, c);
            t.Ok? ==> Grown(w, t.value.0) && (ConstsDrive(w) ==> ConstsDrive(t.value.0))
    decreases |bits| - i
  {
    if i == |bits| {
      GrownRefl(w);
    } else {
      var s := BitStep(w, bits, i, names, nameRun, role, ep, c);
      if s.Ok? {
        var (w', next, c') := s.value;
        assert c !in w.edges;
        BitStepBelow(w, bits, i, names, nameRun, role, ep, c);
        BitStepGrown(w, bits, i, names, nameRun, role, ep, c);
        TranslateGrown(w', bits, next, names, nameRun, role, ep, c');
        var t := TranslateFrom(w', bits, next, names, nameRun, role, ep, c');
        if t.Ok? {
          GrownTrans(w, w', t.value.0);
        }
      }
    }
  }

  /** After the translation of a vector, every net bit of it has an edge
      holding the endpoint in the list its role selects. */
  lemma {:induction false} TranslateJoins(w: Wiring, bits: seq<Bit>, i: nat, names: NameSource,
                                          nameRun: seq<string> -> string, role: Result<Role>, ep: Endpoint, c: nat)
    requires i <= |bits| && EdgesStored(w) && EdgesBelow(w, c)
    ensures var t := TranslateFrom(w, bits, i, names, nameRun, role, ep, c);
            t.Ok? ==> Joins(t.value.0, bits, i, |bits|, ep, role)
    decreases |bits| - i
  {
    if i < |bits| {
      var s := BitStep(w, bits, i, names, nameRun, role, ep, c);
      if s.Ok? {
        var (w', next, c') := s.value;
        BitStepBelow(w, bits, i, names, nameRun, role, ep, c);
        BitStepJoins(w, bits, i, names, nameRun, role, ep, c);
        TranslateGrown(w', bits, next, names, nameRun, role, ep, c');
        TranslateJoins(w', bits, next, names, nameRun, role, ep, c');
        var t := TranslateFrom(w', bits, next, names, nameRun, role, ep, c');
        if t.Ok? {
          JoinsGrow(w', t.value.0, bits, i, next, ep, role);
          JoinsJoin(t.value.0, bits, i, next, |bits|, ep, role);
        }
      }
    }
  }

  lemma RunsNetStep(w: Wiring, w': Wiring, b: Wiring, bits: seq<Bit>, i: nat, nameRun: seq<string> -> string)
    requires i < |bits| && bits[i].Net? && |w'.children| == |w.children| && ConstRuns(w', b, Runs(bits, i + 1), nameRun)
    ensures ConstRuns(w, b, Runs(bits, i), nameRun)
  {
    ConstRunsBase(w', w, b, Runs(bits, i + 1), nameRun);
  }

  lemma RunsConstStep(w: Wiring, w': Wiring, b: Wiring, bits: seq<Bit>, i: nat, next: nat, c: nat, nameRun: seq<string> -> string)
    requires i < |bits| && bits[i].Const? && next == i + RunLength(bits, i)
    requires w'.children == w.children + [ConstNode(c + 1, nameRun(RunAt(bits, i)))]
    requires c + 1 in w'.consts && Grown(w', b) && ConstRuns(w', b, Runs(bits, next), nameRun)
    ensures ConstRuns(w, b, Runs(bits, i), nameRun)
  {
    var run := RunAt(bits, i);
    ConstRunsCons(w, w', b, ConstNode(c + 1, nameRun(run)), run, Runs(bits, next), nameRun);
  }

  /** The runs from `i` on, given the runs after one pass over bit `i`. */
  lemma RunsStep(w: Wiring, w': Wiring, b: Wiring, bits: seq<Bit>, i: nat, next: nat, c: nat, nameRun: seq<string> -> string)
    requires i < |bits| && next == if bits[i].Net? then i + 1 else i + RunLength(bits, i)
    requires bits[i].Net? ==> |w'.children| == |w.children|
    requires bits[i].Const? ==> w'.children == w.children + [ConstNode(c + 1, nameRun(RunAt(bits, i)))] && c + 1 in w'.consts
    requires Grown(w', b) && ConstRuns(w', b, Runs(bits, next), nameRun)
    ensures ConstRuns(w, b, Runs(bits, i), nameRun)
  {
    if bits[i].Net? {
      RunsNetStep(w, w', b, bits, i, nameRun);
    } else {
      RunsConstStep(w, w', b, bits, i, next, c, nameRun);
    }
  }

  /** The translation of a vector adds one constant node per run of
      constant bits, in order, and no other child. */
  lemma {:induction false} TranslateRuns(w: Wiring, bits: seq<Bit>, i: nat, names: NameSource,
                                         nameRun: seq<string> -> string, role: Result<Role>, ep: Endpoint, c: nat)
    requires i <= |bits| && EdgesStored(w) && EdgesBelow(w, c)
    ensures var t := TranslateFrom(w, bits, i, names, nameRun, role, ep, c);
            t.Ok? ==> ConstRuns(w, t.value.0, Runs(bits, i), nameRun)
    decreases |bits| - i
  {
    if i < |bits| {
      var s := BitStep(w, bits, i, names, nameRun, role, ep, c);
      if s.Ok? {
        var w', next, c' := s.value.0, s.value.1, s.value.2;
        BitStepBelow(w, bits, i, names, nameRun, role, ep, c);
        BitStepChildren(w, bits, i, names, nameRun, role, ep, c);
        BitStepRun(w, bits, i, names, nameRun, role, ep, c);
        TranslateGrown(w', bits, next, names, nameRun, role, ep, c');
        TranslateRuns(w', bits, next, names, nameRun, role, ep, c');
        var t := TranslateFrom(w', bits, next, names, nameRun, role, ep, c');
        if t.Ok? {
          RunsStep(w, w', t.value.0, bits, i, next, c, nameRun);
        }
      }
    }
  }

  /** Each net bit from `i` on that had no edge in `edgeOf` has one in
      `v`, carrying the bit's net name. */
  ghost predicate NewNetsNamed(bits: seq<Bit>, i: nat, edgeOf: map<Bit, nat>, v: Wiring, names: NameSource)
  {
    forall k | i <= k < |bits| && bits[k].Net? && bits[k] !in edgeOf ::
      && bits[k] in v.edgeOf && v.edgeOf[bits[k]] in v.edges
      && NameOf(names, bits[k]) == Some(v.edges[v.edgeOf[bits[k]]].name)
  }

  lemma NamesStep(w: Wiring, w': Wiring, v: Wiring, bits: seq<Bit>, i: nat, next: nat, names: NameSource)
    requires i < next <= |bits| && forall k | i < k < next :: bits[k].Const?
    requires forall b :: b in w'.edgeOf <==> b in w.edgeOf || b == bits[i]
    requires bits[i].Net? && bits[i] !in w.edgeOf ==>
               w'.edgeOf[bits[i]] in w'.edges && NameOf(names, bits[i]) == Some(w'.edges[w'.edgeOf[bits[i]]].name)
    requires Grown(w', v) && NewNetsNamed(bits, next, w'.edgeOf, v, names)
    ensures NewNetsNamed(bits, i, w.edgeOf, v, names)
  {
    forall k | i <= k < |bits| && bits[k].Net? && bits[k] !in w.edgeOf
      ensures bits[k] in v.edgeOf && v.edgeOf[bits[k]] in v.edges
      ensures NameOf(names, bits[k]) == Some(v.edges[v.edgeOf[bits[k]]].name)
    {
      if bits[k] == bits[i] {
        var e := w'.edgeOf[bits[i]];
        assert v.edgeOf[bits[k]] == e && Extends(w'.edges[e], v.edges[e]);
      } else {
        assert k >= next && bits[k] !in w'.edgeOf;
      }
    }
  }

  /** After the translation of a vector, each of its net bits that had no
      edge before has one carrying the bit's net name. */
  lemma {:induction false} TranslateNames(w: Wiring, bits: seq<Bit>, i: nat, names: NameSource,
                                          nameRun: seq<string> -> string, role: Result<Role>, ep: Endpoint, c: nat)
    requires i <= |bits| && EdgesStored(w) && EdgesBelow(w, c)
    ensures var t := TranslateFrom(w, bits, i, names, nameRun, role, ep, c);
            t.Ok? ==> NewNetsNamed(bits, i, w.edgeOf, t.value.0, names)
    decreases |bits| - i
  {
    if i < |bits| {
      var s := BitStep(w, bits, i, names, nameRun, role, ep, c);
      if s.Ok? {
        var (w', next, c') := s.value;
        BitStepBelow(w, bits, i, names, nameRun, role, ep, c);
        BitStepNames(w, bits, i, names, nameRun, role, ep, c);
        BitStepKeys(w, bits, i, names, nameRun, role, ep, c);
        BitStepSucceeds(w, bits, i, names, nameRun, role, ep, c);
        TranslateGrown(w', bits, next, names, nameRun, role, ep, c');
        TranslateNames(w', bits, next, names, nameRun, role, ep, c');
        var t := TranslateFrom(w', bits, next, names, nameRun, role, ep, c');
        if t.Ok? {
          NamesStep(w, w', t.value.0, bits, i, next, names);
        }
      }
    }
  }

  /** What the callers of the translation rely on: from a consistent
      wiring the translation of a vector leaves one consistent with the
      counter it ends with, only extends it, keeps every constant node
      driving an edge, adds only constant nodes as children and joins every
      net bit of the vector. */
  lemma TranslateHolds(w: Wiring, bits: seq<Bit>, names: NameSource, nameRun: seq<string> -> string,
                       role: Result<Role>, ep: Endpoint, c: nat, parentId: nat, lo: int)
    requires WiringOk(w, parentId, lo, c) && lo <= c
    ensures var t := TranslateFrom(w, bits, 0, names, nameRun, role, ep, c);
            t.Ok? ==>
              && c <= t.value.1 && WiringOk(t.value.0, parentId, lo, t.value.1) && Grown(w, t.value.0)
              && (ConstsDrive(w) ==> ConstsDrive(t.value.0)) && ConstsFrom(t.value.0, |w.children|)
              && Joins(t.value.0, bits, 0, |bits|, ep, role)
  {
    TranslateKeepsOk(w, bits, 0, names, nameRun, role, ep, c, parentId, lo);
    TranslateGrown(w, bits, 0, names, nameRun, role, ep, c);
    TranslateJoins(w, bits, 0, names, nameRun, role, ep, c);
    TranslateRuns(w, bits, 0, names, nameRun, role, ep, c);
    var t := TranslateFrom(w, bits, 0, names, nameRun, role, ep, c);
    if t.Ok? {
      ConstRunsFrom(w, t.value.0, Runs(bits, 0), nameRun);
    }
  }
}
